# Chat widget session state and sign-in forms, in Dafny

This project models the behaviour of a small React chat widget. It has two parts.

- **The `Homepage` component.** It keeps a list of messages for the active chat and an archive (`chatHistory`) of earlier chats, each tagged with the section (General or Coding) that was active when it was archived. A composer textarea sends USER messages; each send schedules one canned GPT reply. Other controls start a new chat, reopen an archived chat, switch section, toggle the microphone flag and toggle dark mode.
- **The `LoginForm` and `Signup` components.** They check required fields (and, for signup, that the password matches its confirmation), show an error message, and set a `loading` flag that a deferred completion clears.

Structure:

- `wrappers.dfy`: `Option`.
- `js_string.dfy`: JavaScript's `String.prototype.trim` and the truthiness test `if (s.trim())` that guards a send.
- `chat_session.dfy`: the component's state as a value (`ChatState`), one function per handler, a run of events, and the properties. Properties are proved over single handlers and over arbitrary event sequences.
- `homepage.dfy`: the component as a class. It has one field per piece of state and one method per handler. Each method updates the fields and is proved to produce exactly the state the matching `ChatSession` function gives.
- `login.dfy`, `signup.dfy`: each form as a pure state with its validator and transitions, a run lemma, and a class whose methods are proved against those transitions.

A `setTimeout` callback is not modelled as time. Each form keeps a count of scheduled callbacks that have not fired (`pendingReplies`, `pendingCompletions`). Firing a callback is a separate event that is enabled while that count is positive. It can happen after any other event, so it may land after a new chat or a section change.

Each handler is modelled as one atomic step on the latest committed state. React runs each event handler against the state of the last render, and these handlers never read a value they have just set.

The code behaves as follows where a reader might expect otherwise:

- Only `textareaValue` guards a send. An attachment alone cannot be sent.
- The archive is not deduplicated. Reopening an archived chat and then starting a new chat archives it again, under the current section (`ViewThenNewChatArchivesAgain`).
- A pending reply is never discarded. It is appended to whatever list is active when it fires (`ReplyOutlivesNewChat`).
- Reopening a chat has no out-of-range case. Indices come only from the list rendered from `chatHistory`, so `ViewChatClick` requires a valid index.
- There is no remote reply endpoint in this version. The reply is always the fixed string.

## Model

| member | source | states |
|---|---|---|
| `JsString.TrimStart` | src/Components/Homepage/Homepage.js:60 | the result is a suffix of the input; everything dropped is whitespace; the result is empty or starts with a non-whitespace character |
| `JsString.TrimEnd` | src/Components/Homepage/Homepage.js:60 | the result is a prefix of the input; everything dropped is whitespace; the result is empty or ends with a non-whitespace character |
| `JsString.Trim` | src/Components/Homepage/Homepage.js:60 | `trim()` returns an infix of the input such that everything before and after it is whitespace, and a non-empty result starts and ends with non-whitespace |
| `JsString.TrimStrips` | src/Components/Homepage/Homepage.js:60 | the infix `trim()` keeps begins exactly where the leading whitespace ends |
| `JsString.TrimEmptyIffBlank` | src/Components/Homepage/Homepage.js:60 | the trimmed text is empty exactly when every character is JavaScript whitespace or a line terminator |
| `JsString.HasVisibleText` | src/Components/Homepage/Homepage.js:60 | the send guard holds exactly when the input contains some non-whitespace character |
| `ChatSession.Initial` | src/Components/Homepage/Homepage.js:9-19 | the component starts with no messages, an empty archive, section General, no selected chat, empty input, `expanded`, `recording` and `darkMode` false, no reply pending, and the invariant holding |
| `ChatSession.Edit` | src/Components/Homepage/Homepage.js:41-43 | typing sets `textareaValue` to the new value and changes nothing else |
| `ChatSession.SendClick` | src/Components/Homepage/Homepage.js:59-73 | blank input: the state is unchanged, so no message, no reply and the input is kept; otherwise exactly one USER message with the untrimmed text is appended, earlier messages stay as a prefix, one reply is scheduled, the input becomes empty and nothing else changes |
| `ChatSession.KeyDown` | src/Components/Homepage/Homepage.js:75-80 | Enter without Shift behaves exactly as a send; every other key event leaves the state untouched |
| `ChatSession.ReplyFires` | src/Components/Homepage/Homepage.js:64-67 | a firing reply appends exactly one GPT message "This is a bot response." to the current list, uses up one pending reply and changes nothing else |
| `ChatSession.MicClick` | src/Components/Homepage/Homepage.js:82-89 | the mic button flips `recording` and changes nothing else |
| `ChatSession.ToggleDarkMode` | src/Components/Homepage/Homepage.js:108-110 | the theme button flips `darkMode` and changes nothing else |
| `ChatSession.ComposerHeight` | src/Components/Homepage/Homepage.js:26 | the height is at most 300 and at most the content height, and equals one of them |
| `ChatSession.IsExpanded` | src/Components/Homepage/Homepage.js:26-28 | the composer is expanded exactly when the content height exceeds 50, since the 300 cap lies above 50 |
| `ChatSession.AutoResize` | src/Components/Homepage/Homepage.js:23-30 | the effect sets `expanded` exactly when the content height exceeds 50 and changes nothing else |
| `ChatSession.ArchiveCurrent` | src/Components/Homepage/Homepage.js:92-97 | the archive is unchanged for an empty list and gains exactly one entry `{activeSection, messages}` at its end otherwise |
| `ChatSession.NewChatClick` | src/Components/Homepage/Homepage.js:91-101 | the archive grows by one entry exactly when the list was non-empty, keeps its old entries as a prefix, and the new entry is tagged with the current section; messages, input and selected chat are cleared; nothing else changes |
| `ChatSession.ViewChatClick` | src/Components/Homepage/Homepage.js:103-106 | the list becomes the archived chat's messages and that index is selected; archive, section and input are unchanged |
| `ChatSession.SectionChange` | src/Components/Homepage/Homepage.js:112-124 | a section change equals a new chat followed by setting the section, so the archived entry carries the section being left |
| `ChatSession.StepPreservesValid` | src/Components/Homepage/Homepage.js:91-124 | every handler keeps the selected chat index inside the archive and every archived chat non-empty |
| `ChatSession.RunPreservesValid` | src/Components/Homepage/Homepage.js:91-124 | over any sequence of events, the selected chat index stays inside the archive and no empty chat is ever archived |
| `ChatSession.RunKeepsArchive` | src/Components/Homepage/Homepage.js:93-96 | over any sequence of events the old archive stays a prefix of the new one: archived chats are never removed or changed |
| `ChatSession.ComposerRunCount` | src/Components/Homepage/Homepage.js:59-67 | over composer events, the messages shown plus the replies pending grow by exactly two per accepted send |
| `ChatSession.CompletedCyclesAddTwo` | src/Components/Homepage/Homepage.js:59-67 | when no reply is pending before or after, the message list has grown by exactly two per accepted send |
| `ChatSession.SendThenReply` | src/Components/Homepage/Homepage.js:59-67 | a send followed by its reply appends the USER message and then the GPT reply, and leaves no extra reply pending |
| `ChatSession.NewChatIdempotent` | src/Components/Homepage/Homepage.js:91-101 | a second new chat changes nothing, so two in a row add at most one archive entry |
| `ChatSession.ViewThenNewChatArchivesAgain` | src/Components/Homepage/Homepage.js:91-106 | in any state the handlers can reach, reopening an archived chat and pressing New Chat appends the same messages to the archive again, tagged with the current section |
| `ChatSession.ReplyOutlivesNewChat` | src/Components/Homepage/Homepage.js:59-101 | a reply still pending when a new chat starts is not cancelled: the archived chat ends with the USER message and the reply becomes the new chat's only message |
| `ChatSession.TypeEnterReplyScenario` | src/Components/Homepage/Homepage.js:41-80 | typing a text with a visible character and pressing Enter appends it as a USER message and empties the input; after the reply fires, the list ends with that message and the GPT reply and the input is still empty |
| `HomepageComponent.Homepage.constructor` | src/Components/Homepage/Homepage.js:9-19 | the fields start at the `useState` initial values |
| `HomepageComponent.Homepage.Change` | src/Components/Homepage/Homepage.js:41-43 | the new state is `Edit` of the old one |
| `HomepageComponent.Homepage.HandleSendClick` | src/Components/Homepage/Homepage.js:59-73 | the new state is `SendClick` of the old one |
| `HomepageComponent.Homepage.HandleKeyDown` | src/Components/Homepage/Homepage.js:75-80 | the new state is `KeyDown` of the old one |
| `HomepageComponent.Homepage.FireReply` | src/Components/Homepage/Homepage.js:64-67 | the new state is `ReplyFires` of the old one |
| `HomepageComponent.Homepage.HandleMicClick` | src/Components/Homepage/Homepage.js:82-89 | the new state is `MicClick` of the old one |
| `HomepageComponent.Homepage.HandleToggleDarkMode` | src/Components/Homepage/Homepage.js:108-110 | the new state is `ToggleDarkMode` of the old one |
| `HomepageComponent.Homepage.Resize` | src/Components/Homepage/Homepage.js:23-30 | returns the clamped height (at most 300), and the new state is `AutoResize` of the old one |
| `HomepageComponent.Homepage.HandleNewChatClick` | src/Components/Homepage/Homepage.js:91-101 | the new state is `NewChatClick` of the old one |
| `HomepageComponent.Homepage.HandleViewChatClick` | src/Components/Homepage/Homepage.js:103-106 | the new state is `ViewChatClick` of the old one |
| `HomepageComponent.Homepage.HandleSectionChange` | src/Components/Homepage/Homepage.js:112-124 | the new state is `SectionChange` of the old one |
| `HomepageComponent.HelloSession` | src/Components/Homepage/Homepage.js:59-80 | a fresh component driven through type "hello", Enter and the reply ends with `[USER "hello", GPT reply]`, an empty input and no reply pending |
| `Login.Validate` | src/Components/Loginpage/Login.js:16-19 | the form is accepted exactly when both fields are non-empty (a field of spaces passes); otherwise the error is "Both fields are required" |
| `Login.Initial` | src/Components/Loginpage/Login.js:9-12 | all fields and the error start empty, not loading |
| `Login.EditEmail` | src/Components/Loginpage/Login.js:82 | editing the email changes only the email |
| `Login.EditPassword` | src/Components/Loginpage/Login.js:95 | editing the password changes only the password |
| `Login.Submit` | src/Components/Loginpage/Login.js:14-26 | while loading nothing happens; a missing field sets "Both fields are required" and leaves `loading` unset; otherwise `loading` becomes true, one completion is scheduled and the old error stays |
| `Login.Complete` | src/Components/Loginpage/Login.js:21-25 | the completion leaves `loading` false and the error empty, keeping the fields |
| `Login.RunKeepsOneSubmission` | src/Components/Loginpage/Login.js:105 | over any sequence of edits, clicks and completions, a completion is pending exactly while loading, and never more than one |
| `Login.SubmitThenComplete` | src/Components/Loginpage/Login.js:20-25 | a valid submission sets `loading` without clearing the error; its completion then clears both |
| `Login.LoginForm.constructor` | src/Components/Loginpage/Login.js:9-12 | the fields start at the `useState` initial values |
| `Login.LoginForm.SetEmail` | src/Components/Loginpage/Login.js:82 | the new state is `EditEmail` of the old one |
| `Login.LoginForm.SetPassword` | src/Components/Loginpage/Login.js:95 | the new state is `EditPassword` of the old one |
| `Login.LoginForm.HandleSubmit` | src/Components/Loginpage/Login.js:14-26 | the new state is `Submit` of the old one |
| `Login.LoginForm.FireCompletion` | src/Components/Loginpage/Login.js:21-25 | the new state is `Complete` of the old one |
| `Signup.Validate` | src/Components/Loginpage/Signup.js:18-25 | "All fields are required" exactly when some field is empty; "Passwords don't match" exactly when all are filled and the password differs from the confirmation; accepted exactly when all are filled and they are equal |
| `Signup.Initial` | src/Components/Loginpage/Signup.js:9-14 | all fields and the error start empty, not loading |
| `Signup.Edit` | src/Components/Loginpage/Signup.js:80-116 | editing one input changes only that field |
| `Signup.Submit` | src/Components/Loginpage/Signup.js:16-32 | while loading nothing happens; a failed check sets its message and leaves `loading` unset; otherwise `loading` becomes true, one completion is scheduled and the old error stays |
| `Signup.Complete` | src/Components/Loginpage/Signup.js:27-31 | the completion leaves `loading` false and the error empty, keeping every field |
| `Signup.RunKeepsOneSubmission` | src/Components/Loginpage/Signup.js:125 | over any sequence of edits, clicks and completions, a completion is pending exactly while loading, and never more than one |
| `Signup.EmptyConfirmationIsMissingField` | src/Components/Loginpage/Signup.js:18-25 | an empty confirmation always yields the required-fields error, never the mismatch error |
| `Signup.ExactComparison` | src/Components/Loginpage/Signup.js:18-22 | whitespace-only fields pass; passwords differing only in case or a trailing space do not match |
| `Signup.SubmitThenComplete` | src/Components/Loginpage/Signup.js:26-31 | a valid submission sets `loading`; its completion then clears `loading` and the error |
| `Signup.SignupForm.constructor` | src/Components/Loginpage/Signup.js:9-14 | the fields start at the `useState` initial values |
| `Signup.SignupForm.SetField` | src/Components/Loginpage/Signup.js:80-116 | the new state is `Edit` of the old one |
| `Signup.SignupForm.HandleSubmit` | src/Components/Loginpage/Signup.js:16-32 | the new state is `Submit` of the old one |
| `Signup.SignupForm.FireCompletion` | src/Components/Loginpage/Signup.js:27-31 | the new state is `Complete` of the old one |

## Left out

- Rendering and styling: the JSX, Tailwind classes, framer-motion animations and icons are presentation only.
- `Chat.js` and `Coding.js` only render a message list. Coding's text-to-speech calls the browser's speech-synthesis API directly and is not part of this model.
- `App.js` holds the route table only.
- File selection and preview (`handleFileChange` and the effect that revokes the preview URL) depend on the browser's object-URL API. The selected file never affects sending.
- Timer durations (1000 ms for the reply, 2000 ms for the form completion). Each callback is an explicit event, and no ordering in time between callbacks is modelled.
- The textarea's DOM measurement. `scrollHeight` is an input to `Resize`/`AutoResize`, and the inline pixel height written to the element is returned rather than stored.
- `console.log` output, `e.preventDefault()`, the social-login stubs and the `isLoggedIn` flag, which is never changed.
- The completion callbacks' captured copies of the form fields, which are used only for logging.
- JavaScript strings are UTF-16 code units; here they are sequences of Unicode scalar values. Every character `trim` removes lies in the Basic Multilingual Plane, so the send guard is unaffected.
- The disabled state of the submit button is modelled inside `Submit`: a click while `loading` holds does nothing. `handleSubmit` itself has no such check.
- `Login.Submit`, `Signup.Submit` model `handleSubmit` as called. The browser's own validation of the `required` inputs and the `type="email"` inputs is not modelled; it stops an empty or malformed form before `handleSubmit` runs, so the required-field messages appear only when that validation is bypassed.
