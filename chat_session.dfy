/**
 * The chat-session state of the `Homepage` component, as pure values.
 *
 * `ChatState` holds every state field the component's handlers touch, plus the
 * number of bot replies scheduled with `setTimeout` and not yet delivered. Each
 * handler is a function from the state before the event to the state after it;
 * the class in homepage.dfy performs the same updates on fields and is proved to
 * agree with these functions. A deferred reply is its own event, `ReplyFires`,
 * which may happen at any later point, after any other event.
 */
module ChatSession {
  import opened Wrappers
  import JsString

  datatype Sender = User | Gpt

  /** One entry of the message list: `{ sender, text }`. */
  datatype Message = Message(sender: Sender, text: string)

  /** The two sections the mode menu offers. */
  datatype Section = General | Coding

  /** One entry of `chatHistory`: `{ type, messages }`. */
  datatype Session = Session(kind: Section, messages: seq<Message>)

  /** The reply every send schedules. */
  const BotReply: Message := Message(Gpt, "This is a bot response.")

  /** The composer never grows above this many pixels. */
  const MaxComposerHeight: int := 300

  /** Above this many pixels the composer is drawn as an expanded box. */
  const ExpandedThreshold: int := 50

  datatype ChatState = ChatState(
    textareaValue: string,
    expanded: bool,
    recording: bool,
    messages: seq<Message>,
    chatHistory: seq<Session>,
    activeChatIndex: Option<nat>,
    darkMode: bool,
    activeSection: Section,
    pendingReplies: nat)

  /** The state right after mounting: every `useState` initial value, no reply pending. */
  function Initial(): (s: ChatState)
    ensures s.messages == [] && s.chatHistory == [] && s.pendingReplies == 0
    ensures s.activeSection == General && s.activeChatIndex == None && s.textareaValue == ""
    ensures !s.expanded && !s.recording && !s.darkMode
    ensures Valid(s)
  {
    ChatState("", false, false, [], [], None, false, General, 0)
  }

  /**
   * The invariant the handlers keep: a selected archived chat exists, and only
   * non-empty lists are ever archived.
   */
  predicate Valid(s: ChatState) {
    && (s.activeChatIndex.Some? ==> s.activeChatIndex.value < |s.chatHistory|)
    && (forall k :: 0 <= k < |s.chatHistory| ==> s.chatHistory[k].messages != [])
  }

  // ---------------------------------------------------------------------------
  // Composer

  /** `handleChange`: the textarea's new value becomes `textareaValue`. */
  function Edit(s: ChatState, value: string): (r: ChatState)
    ensures r.textareaValue == value
    ensures r.(textareaValue := s.textareaValue) == s
  {
    s.(textareaValue := value)
  }

  /**
   * `handleSendClick`. When `textareaValue.trim()` is empty nothing happens.
   * Otherwise the untrimmed text is appended as a USER message, one reply is
   * scheduled and the input is cleared. An attachment plays no part.
   */
  function SendClick(s: ChatState): (r: ChatState)
    ensures !JsString.HasVisibleText(s.textareaValue) ==> r == s
    ensures JsString.HasVisibleText(s.textareaValue) ==>
      && |r.messages| == |s.messages| + 1
      && r.messages[..|s.messages|] == s.messages
      && r.messages[|s.messages|] == Message(User, s.textareaValue)
      && r.pendingReplies == s.pendingReplies + 1
      && r.textareaValue == ""
      && r.(messages := s.messages, pendingReplies := s.pendingReplies, textareaValue := s.textareaValue) == s
  {
    if JsString.HasVisibleText(s.textareaValue) then
      var newMessage := Message(User, s.textareaValue);
      s.(messages := s.messages + [newMessage], pendingReplies := s.pendingReplies + 1, textareaValue := "")
    else
      s
  }

  /** The condition of `handleKeyDown`: Enter without Shift. */
  predicate TriggersSend(key: string, shiftKey: bool) {
    key == "Enter" && !shiftKey
  }

  /** `handleKeyDown`: Enter without Shift sends; every other key event changes nothing. */
  function KeyDown(s: ChatState, key: string, shiftKey: bool): (r: ChatState)
    ensures TriggersSend(key, shiftKey) ==> r == SendClick(s)
    ensures !TriggersSend(key, shiftKey) ==> r == s
  {
    if TriggersSend(key, shiftKey) then SendClick(s) else s
  }

  /**
   * The callback of the `setTimeout` scheduled by a send. Its update is the
   * functional form `prevMessages => [...prevMessages, botMessage]`, so the reply
   * goes to whatever list is current when it fires, even a new chat's.
   */
  function ReplyFires(s: ChatState): (r: ChatState)
    requires s.pendingReplies > 0
    ensures |r.messages| == |s.messages| + 1
    ensures r.messages[..|s.messages|] == s.messages && r.messages[|s.messages|] == BotReply
    ensures r.pendingReplies + 1 == s.pendingReplies
    ensures r.(messages := s.messages, pendingReplies := s.pendingReplies) == s
  {
    s.(messages := s.messages + [BotReply], pendingReplies := s.pendingReplies - 1)
  }

  /** `handleMicClick`: flips `recording` and nothing else. */
  function MicClick(s: ChatState): (r: ChatState)
    ensures r.recording != s.recording
    ensures r.(recording := s.recording) == s
  {
    s.(recording := !s.recording)
  }

  /** `toggleDarkMode`: flips `darkMode` and nothing else. */
  function ToggleDarkMode(s: ChatState): (r: ChatState)
    ensures r.darkMode != s.darkMode
    ensures r.(darkMode := s.darkMode) == s
  {
    s.(darkMode := !s.darkMode)
  }

  /** The height the first effect gives the textarea: `Math.min(scrollHeight, 300)`. */
  function ComposerHeight(scrollHeight: int): (h: int)
    ensures h <= MaxComposerHeight && h <= scrollHeight
    ensures h == scrollHeight || h == MaxComposerHeight
  {
    if scrollHeight < MaxComposerHeight then scrollHeight else MaxComposerHeight
  }

  /** `newHeight > 50`; since the clamp is above 50, it depends on the content height alone. */
  function IsExpanded(scrollHeight: int): (b: bool)
    ensures b <==> scrollHeight > ExpandedThreshold
  {
    ComposerHeight(scrollHeight) > ExpandedThreshold
  }

  /** The effect run after `textareaValue` changes, given the textarea's measured `scrollHeight`. */
  function AutoResize(s: ChatState, scrollHeight: int): (r: ChatState)
    ensures r.expanded <==> scrollHeight > ExpandedThreshold
    ensures r.(expanded := s.expanded) == s
  {
    s.(expanded := IsExpanded(scrollHeight))
  }

  // ---------------------------------------------------------------------------
  // Session store

  /** The archive after closing the current list under `activeSection`: one more entry when the list is non-empty. */
  function ArchiveCurrent(s: ChatState): (h: seq<Session>)
    ensures s.messages == [] ==> h == s.chatHistory
    ensures s.messages != [] ==> h == s.chatHistory + [Session(s.activeSection, s.messages)]
  {
    if |s.messages| > 0 then s.chatHistory + [Session(s.activeSection, s.messages)] else s.chatHistory
  }

  /**
   * `handleNewChatClick`: archives the current list if it is non-empty (the archive
   * grows by one entry exactly then, and keeps its old entries as a prefix), then
   * clears the list, the input and the selected chat.
   */
  function NewChatClick(s: ChatState): (r: ChatState)
    ensures |r.chatHistory| == |s.chatHistory| + (if s.messages != [] then 1 else 0)
    ensures s.chatHistory <= r.chatHistory
    ensures s.messages != [] ==> r.chatHistory[|s.chatHistory|] == Session(s.activeSection, s.messages)
    ensures r.messages == [] && r.textareaValue == "" && r.activeChatIndex == None
    ensures r.(chatHistory := s.chatHistory, messages := s.messages,
               textareaValue := s.textareaValue, activeChatIndex := s.activeChatIndex) == s
  {
    s.(chatHistory := ArchiveCurrent(s), messages := [], textareaValue := "", activeChatIndex := None)
  }

  /**
   * `handleViewChatClick`: shows archived chat `index` again. The archive, the
   * section and the input stay as they were. Indices come from mapping over the
   * archive, so `index` is always in range.
   */
  function ViewChatClick(s: ChatState, index: nat): (r: ChatState)
    requires index < |s.chatHistory|
    ensures r.messages == s.chatHistory[index].messages && r.activeChatIndex == Some(index)
    ensures r.(messages := s.messages, activeChatIndex := s.activeChatIndex) == s
  {
    s.(messages := s.chatHistory[index].messages, activeChatIndex := Some(index))
  }

  /**
   * `handleSectionChange`: a new chat whose archived entry is tagged with the
   * section being left, followed by the switch to `section`.
   */
  function SectionChange(s: ChatState, section: Section): (r: ChatState)
    ensures r == NewChatClick(s).(activeSection := section)
    ensures s.messages != [] ==> r.chatHistory[|s.chatHistory|].kind == s.activeSection
  {
    s.(chatHistory := ArchiveCurrent(s), messages := [], textareaValue := "",
       activeSection := section, activeChatIndex := None)
  }

  // ---------------------------------------------------------------------------
  // Runs of events

  datatype Event =
    | Type(value: string)
    | Send
    | Key(key: string, shiftKey: bool)
    | Reply
    | Mic
    | DarkMode
    | Resize(scrollHeight: int)
    | NewChat
    | ViewChat(index: nat)
    | ChangeSection(section: Section)

  /** An event can happen: a reply only when one is pending, a view only of a listed chat. */
  predicate Enabled(s: ChatState, e: Event) {
    match e
    case Reply => s.pendingReplies > 0
    case ViewChat(i) => i < |s.chatHistory|
    case _ => true
  }

  function Step(s: ChatState, e: Event): ChatState
    requires Enabled(s, e)
  {
    match e
    case Type(v) => Edit(s, v)
    case Send => SendClick(s)
    case Key(k, sh) => KeyDown(s, k, sh)
    case Reply => ReplyFires(s)
    case Mic => MicClick(s)
    case DarkMode => ToggleDarkMode(s)
    case Resize(h) => AutoResize(s, h)
    case NewChat => NewChatClick(s)
    case ViewChat(i) => ViewChatClick(s, i)
    case ChangeSection(sec) => SectionChange(s, sec)
  }

  /** Every event of `es` is enabled in the state it meets. */
  predicate Feasible(s: ChatState, es: seq<Event>)
    decreases |es|
  {
    es == [] || (Enabled(s, es[0]) && Feasible(Step(s, es[0]), es[1..]))
  }

  function Run(s: ChatState, es: seq<Event>): ChatState
    requires Feasible(s, es)
    decreases |es|
  {
    if es == [] then s else Run(Step(s, es[0]), es[1..])
  }

  /** The event appends a USER message: a send or an Enter press while the input has visible text. */
  predicate AcceptsSend(s: ChatState, e: Event) {
    (e.Send? || (e.Key? && TriggersSend(e.key, e.shiftKey))) && JsString.HasVisibleText(s.textareaValue)
  }

  /** How many events of the run append a USER message. */
  function AcceptedSends(s: ChatState, es: seq<Event>): nat
    requires Feasible(s, es)
    decreases |es|
  {
    if es == [] then 0
    else (if AcceptsSend(s, es[0]) then 1 else 0) + AcceptedSends(Step(s, es[0]), es[1..])
  }

  /** Events that touch only the composer: no archiving, viewing or section change. */
  predicate ComposerEvent(e: Event) {
    !(e.NewChat? || e.ViewChat? || e.ChangeSection?)
  }

  // ---------------------------------------------------------------------------
  // Properties

  /** Every event keeps the selected chat inside the archive and every archived chat non-empty. */
  lemma StepPreservesValid(s: ChatState, e: Event)
    requires Valid(s) && Enabled(s, e)
    ensures Valid(Step(s, e))
  {
  }

  lemma {:induction false} RunPreservesValid(s: ChatState, es: seq<Event>)
    requires Valid(s) && Feasible(s, es)
    ensures Valid(Run(s, es))
    decreases |es|
  {
    if es != [] {
      StepPreservesValid(s, es[0]);
      RunPreservesValid(Step(s, es[0]), es[1..]);
    }
  }

  /** The archive only ever grows at its end: no event removes or changes an archived chat. */
  lemma {:induction false} RunKeepsArchive(s: ChatState, es: seq<Event>)
    requires Feasible(s, es)
    ensures s.chatHistory <= Run(s, es).chatHistory
    decreases |es|
  {
    if es != [] {
      var t := Step(s, es[0]);
      assert s.chatHistory <= t.chatHistory;
      RunKeepsArchive(t, es[1..]);
    }
  }

  /**
   * Over composer events, every accepted send adds two to the number of messages
   * shown plus replies pending: its USER message now, its reply later.
   */
  lemma {:induction false} ComposerRunCount(s: ChatState, es: seq<Event>)
    requires Feasible(s, es)
    requires forall k :: 0 <= k < |es| ==> ComposerEvent(es[k])
    ensures |Run(s, es).messages| + Run(s, es).pendingReplies
         == |s.messages| + s.pendingReplies + 2 * AcceptedSends(s, es)
    decreases |es|
  {
    if es != [] {
      var t := Step(s, es[0]);
      assert |t.messages| + t.pendingReplies == |s.messages| + s.pendingReplies + (if AcceptsSend(s, es[0]) then 2 else 0);
      assert forall k :: 0 <= k < |es[1..]| ==> ComposerEvent(es[1..][k]) by {
        forall k | 0 <= k < |es[1..]| ensures ComposerEvent(es[1..][k]) {
          assert es[1..][k] == es[k + 1];
        }
      }
      ComposerRunCount(t, es[1..]);
    }
  }

  /** Once every reply has arrived, each completed send cycle has added exactly two messages. */
  lemma CompletedCyclesAddTwo(s: ChatState, es: seq<Event>)
    requires Feasible(s, es) && s.pendingReplies == 0 && Run(s, es).pendingReplies == 0
    requires forall k :: 0 <= k < |es| ==> ComposerEvent(es[k])
    ensures |Run(s, es).messages| == |s.messages| + 2 * AcceptedSends(s, es)
  {
    ComposerRunCount(s, es);
  }

  /** A send followed by its reply leaves the USER message and then the bot reply at the end. */
  lemma SendThenReply(s: ChatState)
    requires JsString.HasVisibleText(s.textareaValue)
    ensures ReplyFires(SendClick(s)).messages == s.messages + [Message(User, s.textareaValue), BotReply]
    ensures ReplyFires(SendClick(s)).pendingReplies == s.pendingReplies
  {
  }

  /** New chat is idempotent, so two in a row add at most one archive entry. */
  lemma NewChatIdempotent(s: ChatState)
    ensures NewChatClick(NewChatClick(s)) == NewChatClick(s)
    ensures |NewChatClick(NewChatClick(s)).chatHistory| <= |s.chatHistory| + 1
  {
  }

  /**
   * The archive is not deduplicated: viewing an archived chat and then starting a
   * new chat archives the same messages again, tagged with the current section
   * rather than the one they were archived under.
   */
  lemma ViewThenNewChatArchivesAgain(s: ChatState, i: nat)
    requires Valid(s) && i < |s.chatHistory|
    ensures NewChatClick(ViewChatClick(s, i)).chatHistory
         == s.chatHistory + [Session(s.activeSection, s.chatHistory[i].messages)]
  {
  }

  /**
   * A reply is not cancelled by a new chat: the archived chat keeps the USER message
   * without its reply, and the reply becomes the first message of the new chat.
   */
  lemma ReplyOutlivesNewChat(s: ChatState)
    requires JsString.HasVisibleText(s.textareaValue)
    ensures NewChatClick(SendClick(s)).pendingReplies == s.pendingReplies + 1
    ensures ReplyFires(NewChatClick(SendClick(s))).messages == [BotReply]
    ensures ReplyFires(NewChatClick(SendClick(s))).chatHistory
         == s.chatHistory + [Session(s.activeSection, s.messages + [Message(User, s.textareaValue)])]
  {
  }

  /** Running `e` and then `es` is a step followed by the rest of the run. */
  lemma RunCons(s: ChatState, e: Event, es: seq<Event>)
    requires Enabled(s, e) && Feasible(Step(s, e), es)
    ensures Feasible(s, [e] + es) && Run(s, [e] + es) == Run(Step(s, e), es)
  {
    assert ([e] + es)[1..] == es;
  }

  /**
   * Typing a text with some visible character and pressing Enter appends it as a
   * USER message and empties the input; once the reply fires the list ends with
   * that message and the bot reply, and the input is still empty.
   */
  lemma TypeEnterReplyScenario(s: ChatState, text: string)
    requires JsString.HasVisibleText(text)
    ensures Feasible(s, [Type(text), Key("Enter", false)])
    ensures Run(s, [Type(text), Key("Enter", false)]).messages == s.messages + [Message(User, text)]
    ensures Run(s, [Type(text), Key("Enter", false)]).textareaValue == ""
    ensures Feasible(s, [Type(text), Key("Enter", false), Reply])
    ensures Run(s, [Type(text), Key("Enter", false), Reply]).messages
         == s.messages + [Message(User, text), BotReply]
    ensures Run(s, [Type(text), Key("Enter", false), Reply]).textareaValue == ""
  {
    var s1 := Edit(s, text);
    var s2 := KeyDown(s1, "Enter", false);
    assert s2.messages == s.messages + [Message(User, text)] && s2.pendingReplies > 0;
    RunCons(s2, Reply, []);
    RunCons(s1, Key("Enter", false), []);
    RunCons(s1, Key("Enter", false), [Reply]);
    RunCons(s, Type(text), [Key("Enter", false)]);
    RunCons(s, Type(text), [Key("Enter", false), Reply]);
    assert [Key("Enter", false)] + [Reply] == [Key("Enter", false), Reply];
    assert [Type(text)] + [Key("Enter", false)] == [Type(text), Key("Enter", false)];
    assert [Type(text)] + [Key("Enter", false), Reply] == [Type(text), Key("Enter", false), Reply];
  }
}
