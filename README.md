# Verified model of a WebSocket chat client

The client has two pages.

- **App** (`src/App.tsx`): a login/registration form, validated by a declarative schema. It keeps the session `token` and `username` in state, mirrored in the browser's local storage. It shows the chat page exactly while the token is non-empty.
- **ChatPage** (`src/ChatPage.tsx`): opens a WebSocket and sends an `auth` frame with the token when it opens. It then applies inbound frames to the transcript: `auth_success`, `history`, `message`, `user_joined`, `user_left`, `error`, or any other tag. It also sends chat text while the socket is OPEN.

The model is organised as five modules:

- `JsText` (`text.dfy`): `String.prototype.trim`. Its whitespace set is the ECMAScript WhiteSpace and LineTerminator productions.
- `ChatSession` (`chat_session.dfy`): the frames and events as datatypes, and the page state as a `State` value. `Step` gives the effect of one event and `Run` the effect of a trace. The class `Session` has one method per socket handler and for `sendMessage`. Each method states its new fields exactly and proves that its new snapshot equals `Step` of the old one.
- `ChatProperties` (`chat_properties.dfy`): lemmas about whole traces. They cover what `connected` and `authenticated` mean, the frames sent on the socket, and how the transcript evolves.
- `CredentialForm` (`credentials.dfy`): the validation schema as data (per field, checks with their messages), an interpreter `Validate` for it, and its characterisation.
- `AppState` (`app.dfy`): the class `App`, with fields `isRegistering`, `token`, `username` and `storage` (a map for local storage).

Inputs that come from outside are parameters:
- the local clock (`now`) used for presence notices;
- the validator's email pattern (`isEmail`);
- the answer of the login/registration endpoint (`Reply`).

The code is looser than a full handshake protocol in these ways, and the model follows the code:
- Sending is gated on the socket's ready state being OPEN, not on authentication (`src/ChatPage.tsx:81`). `SendBeforeAuthSuccess` shows a chat frame going out before `auth_success`.
- There is no `Connecting`/`AuthPending`/`Authenticated` state machine. The page has two booleans (`connected`, `authenticated`) plus the socket's ready state.
- `authenticated` means "an `auth_success` arrived and no close happened since" (`AuthenticatedIff`). Nothing ties it to the latest open.
- Nothing stops a second `history` frame; it replaces the transcript again (`LatestHistoryWins`).
- A frame that is not valid JSON is not caught (`src/ChatPage.tsx:33`). The handler throws, so there is no recovery path to model.

## Model

| member | source | states |
|---|---|---|
| `ChatSession.Session.constructor` | src/ChatPage.tsx:10-14 | A mounted page starts with both flags false, an empty transcript and input, a connecting socket and nothing sent |
| `ChatSession.Session.HandleOpen` | src/ChatPage.tsx:25-30 | Open sets `connected` and the OPEN ready state and appends exactly one `auth` frame with the session token; authenticated, transcript and input unchanged |
| `ChatSession.Session.HandleMessage` | src/ChatPage.tsx:32-61 | `auth_success` only sets `authenticated`; `history` replaces the transcript with its payload; `message` appends its chat; `user_joined`/`user_left` append a "System" entry "<u> joined the chat." / "<u> left the chat." stamped with the local time; `error` and unknown tags change nothing; flags, input and outbox never change except `authenticated` on `auth_success` |
| `ChatSession.Session.BeginClosing` | src/ChatPage.tsx:63-67 | The socket entering CLOSING changes only the ready state; no handler runs, so `connected` and `authenticated` stay as they were until `onclose` |
| `ChatSession.Session.HandleClose` | src/ChatPage.tsx:63-67 | Close clears both flags whatever they were and marks the socket closed; transcript, input and outbox unchanged |
| `ChatSession.Session.SendMessage` | src/ChatPage.tsx:80-85 | When the trimmed input is non-empty and the socket is OPEN, the untrimmed input is sent as one `message` frame and the input cleared; otherwise nothing is sent and the input is kept; the transcript and flags never change |
| `ChatSession.Session.EditInput` | src/ChatPage.tsx:123-125 | Typing replaces the input and nothing else |
| `JsText.TrimStartSpec` | src/ChatPage.tsx:81 | `trim`'s leading cut keeps a suffix of the input that does not start with whitespace, and every dropped character is whitespace |
| `JsText.TrimEndSpec` | src/ChatPage.tsx:81 | `trim`'s trailing cut keeps a prefix of the input that does not end with whitespace, and every dropped character is whitespace |
| `JsText.TrimIsSlice` | src/ChatPage.tsx:81 | `trim` returns a contiguous slice of the input whose cut-away margins are whitespace only |
| `JsText.TrimHasNoMargins` | src/ChatPage.tsx:81 | The result of `trim` neither starts nor ends with whitespace |
| `JsText.TrimEmptyIff` | src/ChatPage.tsx:81 | `input.trim()` is empty exactly when every character of the input is whitespace |
| `ChatProperties.RunKeepsToken` | src/ChatPage.tsx:9-30 | The token the page was mounted with never changes over any trace |
| `ChatProperties.StepFlags` | src/ChatPage.tsx:25-67 | One event sets `connected` iff it is an open, sets `authenticated` iff it is `auth_success`, clears both on close and leaves them otherwise |
| `ChatProperties.ConnectedTracksReadyState` | src/ChatPage.tsx:25-67 | On every trace from a consistent state, an OPEN socket has `connected` set, and `connected` is set only while the socket is OPEN or CLOSING (the window before `onclose` fires) |
| `ChatProperties.ConnectedIff` | src/ChatPage.tsx:25-67 | `connected` holds iff an open happened with no close after it (or it already held and no close happened) |
| `ChatProperties.AuthenticatedIff` | src/ChatPage.tsx:32-67 | `authenticated` holds iff an `auth_success` arrived with no close after it (or it already held and no close happened) |
| `ChatProperties.StepOutbox` | src/ChatPage.tsx:25-85 | One event appends to the outbox exactly what it sends: the token's `auth` frame on open, the input on a gated send, nothing otherwise; what it sends is legitimate |
| `ChatProperties.OutboxOnlyGrows` | src/ChatPage.tsx:25-85 | The outbox is only extended, and every frame added is the session token's `auth` frame or a `message` frame with non-blank text |
| `ChatProperties.AuthFramePerOpen` | src/ChatPage.tsx:25-30 | The number of `auth` frames sent equals the number of opens |
| `ChatProperties.OneAuthPerConnection` | src/ChatPage.tsx:25-30 | After mounting and one open, any trace without another open has sent exactly one `auth` frame, first, carrying the mount token |
| `ChatProperties.SendBeforeAuthSuccess` | src/ChatPage.tsx:80-85 | Open, type a non-blank text and send: the text goes out while `authenticated` is still false |
| `ChatProperties.SendWhileClosing` | src/ChatPage.tsx:80-85 | After open, typing a non-blank text and the socket entering CLOSING, `connected` is still true, yet a send puts nothing on the wire and keeps the input |
| `ChatProperties.OnlyFramesTouchTranscript` | src/ChatPage.tsx:63-85 | Opening, closing, sending and typing never change the transcript |
| `ChatProperties.StepTranscript` | src/ChatPage.tsx:32-57 | One event other than `history` keeps the transcript as a prefix and adds one entry exactly for `message`, `user_joined` and `user_left` |
| `ChatProperties.AppendOnlyWithoutHistory` | src/ChatPage.tsx:38-57 | Without a `history` frame the old transcript stays a prefix, and the length grows by one per `message`/`user_joined`/`user_left` frame |
| `ChatProperties.MessagesAppendInOrder` | src/ChatPage.tsx:38-39 | A run of `message` frames appends their chats in arrival order |
| `ChatProperties.HistoryThenMessages` | src/ChatPage.tsx:36-39 | `history` h followed by N `message` frames leaves h followed by the N chats, of length \|h\| + N |
| `ChatProperties.LatestHistoryWins` | src/ChatPage.tsx:36-57 | Every `history` frame replaces the transcript, a second one too: the last one's payload starts the final transcript |
| `ChatProperties.AliceBobSession` | src/ChatPage.tsx:25-57 | Token "t1": open, ack, history [alice:hi], message bob:yo, alice leaves gives one `auth` frame, both flags set and transcript [alice:hi, bob:yo, System:"alice left the chat."] |
| `CredentialForm.FailuresEmptyIff` | src/App.tsx:10-19 | A field yields no error exactly when its value passes every check of its rules |
| `CredentialForm.FailuresAreFailedRules` | src/App.tsx:10-19 | A message is reported for a field exactly when one of the field's rules with that message fails |
| `CredentialForm.EmailAcceptsIff` | src/App.tsx:11 | The email field is accepted iff it is non-empty and has email format |
| `CredentialForm.UsernameAcceptsIff` | src/App.tsx:12-17 | While registering the username is accepted iff its length is 4 to 8; otherwise any username is accepted |
| `CredentialForm.PasswordAcceptsIff` | src/App.tsx:18 | The password is accepted iff it has at least 6 characters |
| `CredentialForm.SchemaAcceptsIff` | src/App.tsx:10-19 | The whole schema accepts iff email is non-empty and well-formed, password has at least 6 characters and, when registering, username has 4 to 8 |
| `CredentialForm.FailedCheckIsReported` | src/App.tsx:18 | A short password is reported on the password field with the source's message |
| `AppState.AcceptedRegistrationRegisters` | src/App.tsx:32-34 | A form accepted in registration mode is sent to the registration endpoint |
| `AppState.LoginModeRoutesOnData` | src/App.tsx:31-46 | In login mode the username is not validated, and a non-empty username still routes to registration: the route follows the data, not the mode |
| `AppState.App.constructor` | src/App.tsx:22-24 | On load the page is in login mode, and token and username come from storage, "" when missing; the chat view shows iff the stored token is non-empty |
| `AppState.App.Submit` | src/App.tsx:31-60 | A rejected form calls nothing and changes nothing. An accepted one goes to registration iff its username is non-empty, else to login. Only a successful login sets token and username and writes both to storage. Storage stays in sync with the state |
| `AppState.App.Logout` | src/App.tsx:62-67 | Token and username become "", both storage keys are removed, and the login form is shown |
| `AppState.App.NavigateToLogin` | src/App.tsx:69-72 | The form switches to login mode |
| `AppState.App.NavigateToRegister` | src/App.tsx:74-77 | The form switches to registration mode |

## Left out

- The WebSocket transport and JSON framing. Frames are datatypes, and `readyState` is a field. The socket's transitions to OPEN, CLOSING and CLOSED are the events `Open`, `Closing` and `Close`. Their timing relative to each other is not constrained.
- The effect cleanup's `socket.close()` (`src/ChatPage.tsx:69-72`). It runs only when the page unmounts or the token changes, and neither is an event of the model.
- Re-running the effect on a new token, which creates a fresh socket while the transcript persists. The page is modelled for one token.
- The missing `try` around `JSON.parse` (`src/ChatPage.tsx:33`). An unparseable frame throws out of the handler, and no state changes are modelled for it.
- `console` logging of opens, closes and `error` frames.
- `scrollToBottom` and all rendering, including highlighting of the user's own messages.
- `handleEnterKey`, which only calls `sendMessage` when Enter is pressed.
- Toasts, and the form `reset()` after each call.
- The REST calls in `services/api.ts` and `services/commonAPI.ts`. Their outcome is the `Reply` parameter. A response without a `username` field is not modelled.
- The asynchrony of `onSubmit`. The call and its answer are one atomic step; interleaving with a logout while the request is pending is not modelled.
- A logout does not close the open `Session` in the model. In the page, the unmount cleanup closes the socket.
- Yup's email regular expression. It is the `isEmail` parameter.
- Which of several error messages the form displays for a field.
- `CredentialForm.Validate`: lengths count Unicode scalar values, not UTF-16 code units. A value with characters outside the Basic Multilingual Plane can therefore be measured shorter than the validator measures it.
- `CredentialForm.Validate`: an unrendered field (`undefined` in the form data) is the empty string. Both are falsy for routing and both fail `required`, so acceptance and routing are the same.
