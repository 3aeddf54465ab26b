/**
 * The `Homepage` component as an object: its state fields and one method per
 * handler. Each method updates the fields the way the handler's setters do and is
 * proved to leave exactly the state the matching function of `ChatSession`
 * describes, so every property proved there holds of the component.
 */
module HomepageComponent {
  import opened Wrappers
  import JsString
  import opened ChatSession

  class Homepage {
    var textareaValue: string
    var expanded: bool
    var recording: bool
    var messages: seq<Message>
    var chatHistory: seq<Session>
    var activeChatIndex: Option<nat>
    var darkMode: bool
    var activeSection: Section
    /** Bot replies scheduled with `setTimeout` that have not fired yet. */
    var pendingReplies: nat

    /** The component's state as a value. */
    function State(): ChatState
      reads this
    {
      ChatState(textareaValue, expanded, recording, messages, chatHistory,
                activeChatIndex, darkMode, activeSection, pendingReplies)
    }

    predicate Valid()
      reads this
    {
      ChatSession.Valid(State())
    }

    /** Mounting: the `useState` initial values. */
    constructor ()
      ensures Valid() && State() == Initial()
    {
      textareaValue := "";
      expanded := false;
      recording := false;
      messages := [];
      chatHistory := [];
      activeChatIndex := None;
      darkMode := false;
      activeSection := General;
      pendingReplies := 0;
    }

    /** `handleChange`. */
    method Change(value: string)
      requires Valid()
      modifies this
      ensures Valid() && State() == Edit(old(State()), value)
    {
      textareaValue := value;
    }

    /** `handleSendClick`. */
    method HandleSendClick()
      requires Valid()
      modifies this
      ensures Valid() && State() == SendClick(old(State()))
    {
      ghost var before := State();
      if JsString.HasVisibleText(textareaValue) {
        var newMessage := Message(User, textareaValue);
        messages := messages + [newMessage];
        pendingReplies := pendingReplies + 1;  // setTimeout(..., 1000)
        textareaValue := "";
      }
      assert State() == SendClick(before);
      StepPreservesValid(before, Send);
    }

    /** `handleKeyDown`. */
    method HandleKeyDown(key: string, shiftKey: bool)
      requires Valid()
      modifies this
      ensures Valid() && State() == KeyDown(old(State()), key, shiftKey)
    {
      if TriggersSend(key, shiftKey) {
        HandleSendClick();
      }
    }

    /** The `setTimeout` callback of a send. */
    method FireReply()
      requires Valid() && pendingReplies > 0
      modifies this
      ensures Valid() && State() == ReplyFires(old(State()))
    {
      var botMessage := BotReply;
      messages := messages + [botMessage];
      pendingReplies := pendingReplies - 1;
    }

    /** `handleMicClick`. */
    method HandleMicClick()
      requires Valid()
      modifies this
      ensures Valid() && State() == MicClick(old(State()))
    {
      recording := !recording;
    }

    /** `toggleDarkMode`. */
    method HandleToggleDarkMode()
      requires Valid()
      modifies this
      ensures Valid() && State() == ToggleDarkMode(old(State()))
    {
      darkMode := !darkMode;
    }

    /** The effect on `textareaValue`: clamps the height and sets `expanded`; returns the height. */
    method Resize(scrollHeight: int) returns (newHeight: int)
      requires Valid()
      modifies this
      ensures newHeight == ComposerHeight(scrollHeight) && newHeight <= MaxComposerHeight
      ensures Valid() && State() == AutoResize(old(State()), scrollHeight)
    {
      newHeight := ComposerHeight(scrollHeight);
      expanded := newHeight > ExpandedThreshold;
    }

    /** `handleNewChatClick`. */
    method HandleNewChatClick()
      requires Valid()
      modifies this
      ensures Valid() && State() == NewChatClick(old(State()))
    {
      if |messages| > 0 {
        chatHistory := chatHistory + [Session(activeSection, messages)];
      }
      messages := [];
      textareaValue := "";
      activeChatIndex := None;
    }

    /** `handleViewChatClick`. */
    method HandleViewChatClick(index: nat)
      requires Valid() && index < |chatHistory|
      modifies this
      ensures Valid() && State() == ViewChatClick(old(State()), index)
    {
      messages := chatHistory[index].messages;
      activeChatIndex := Some(index);
    }

    /** `handleSectionChange`. */
    method HandleSectionChange(section: Section)
      requires Valid()
      modifies this
      ensures Valid() && State() == SectionChange(old(State()), section)
    {
      if |messages| > 0 {
        chatHistory := chatHistory + [Session(activeSection, messages)];
      }
      messages := [];
      textareaValue := "";
      activeSection := section;
      activeChatIndex := None;
    }
  }

  /**
   * A component driven through the "hello" scenario: the user message shows at once
   * with an empty input, and the reply follows it when the timer fires.
   */
  method HelloSession() returns (page: Homepage)
    ensures fresh(page) && page.messages == [Message(User, "hello"), BotReply]
    ensures page.textareaValue == "" && page.pendingReplies == 0
  {
    page := new Homepage();
    page.Change("hello");
    assert !JsString.IsWhitespace(page.textareaValue[0]);
    page.HandleKeyDown("Enter", false);
    assert page.messages == [Message(User, "hello")] && page.textareaValue == "";
    page.FireReply();
  }
}
