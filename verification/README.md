# Free-question chat gate and accounts — a Dafny model

The site offers a legal-assistant chat. Guests get two free questions and
must then sign in. The gate is written three times:

- on the server, in the chat endpoint;
- in the React chat widget;
- in the browser-only static variant of the site.

Besides the gate there is account creation (the signup endpoint) and
sign-in (the credentials provider with its token and session callbacks).

This project models each of these as pure functions over immutable state.
Each function takes the current state and one event and returns the next
state.

| file | module | models |
|---|---|---|
| `base.dfy` | `Base` | `Option`; a JSON field as a schema sees it (missing, string, other type); JavaScript string truthiness; `String.prototype.trim` with the ECMAScript whitespace set |
| `users.dfy` | `Users` | the `User` table and the lookup by unique email |
| `auth.dfy` | `Auth` | `authorize`, the `jwt` and `session` callbacks |
| `signup.dfy` | `Signup` | `POST /api/auth/signup` |
| `chat_route.dfy` | `ChatRoute` | `POST /api/chat`: the guest check, conversation creation, message storage, polling the assistant run |
| `chat_interface.dfy` | `ChatInterface` | the widget's `handleSubmit`, the typewriter reveal, the remaining-questions line |
| `static_site.dfy` | `StaticSite` | `js/main.js`: account list, sign-in, sign-out, send gating, input visibility |
| `flows.dfy` | `Flows` | properties across components |

Things the handlers cannot see into are parameters:

- the email syntax check, the password digest and the digest comparison
  are function-valued parameters;
- the ids the database assigns and the clock readings are values in an
  `Env`;
- the assistant service is an oracle, `Service`. It either throws
  (`Unavailable`), or gives the finite sequence of statuses that successive
  polls would read, plus the newest message its listing would return.

The server store is a map from conversation id to conversation. The
database's constraints are modelled where the handler relies on them:

- a conversation id that does not exist makes the message insert fail;
- an id clash makes a create fail.

Both end in the handler's catch-all 500.

In these places the code does something a reader might not expect; the
model follows the code:

- A body the chat schema refuses is answered with 500 "Erreur interne du
  serveur", not 400. The schema error is caught by the handler's catch-all.
- Stored messages need not alternate user/assistant. When a run fails, its
  user message stays stored, so the next question follows it directly. The
  model proves the weaker ordering that does hold: every assistant message
  directly follows a user message. `ChatRoute.UserMessagesNeedNotAlternate`
  gives a two-request example.
- A new assistant thread is created for every request, whatever the
  conversation. The model does not need thread ids; the oracle is per
  request.
- An empty-string `conversationId` is falsy in JavaScript. It is treated
  like a missing one: the guest check looks up a fresh guest id, and a new
  conversation is opened.
- The widget never sends a `conversationId`. Every guest question therefore
  opens a new conversation, and the server's guest check never refuses one
  (`Flows.WidgetQuestionsPassServerCheck`). For widget traffic, the only
  guest limit is the widget's own counter.

## Model

| member | source | states |
|---|---|---|
| `Base.Trim` | js/main.js:162 | the trimmed text is a contiguous slice of the input that neither starts nor ends with whitespace, and everything cut off is whitespace |
| `Base.TrimEmptyIffAllSpace` | components/ChatInterface.tsx:43 | the "nothing typed" test `!input.trim()` holds exactly when the input is all whitespace |
| `Users.FindByEmail` | app/api/auth/signup/route.ts:21-23 | the email lookup finds a row exactly when one has that email, and it returns the first such row |
| `Users.FindByEmailUnique` | src/lib/auth.ts:19-23 | with unique emails, the lookup returns the one row that has the email |
| `Auth.Authorize` | src/lib/auth.ts:14-47 | no user when email or password is missing or empty, or no row has the email; a returned user is the profile of a row with that email whose digest accepts the password, and its name is "prenom nom" |
| `Auth.AuthorizeExactly` | src/lib/auth.ts:19-46 | with unique emails, sign-in for a stored email succeeds exactly when the digest check accepts the password, and then returns that row's profile |
| `Auth.Jwt` | src/lib/auth.ts:54-62 | with a user, the four profile claims become the user's; without one, the token is returned unchanged; subject, name and email are never touched |
| `Auth.SessionOf` | src/lib/auth.ts:63-72 | the session's user id is the token subject and its four profile fields are the token's claims; name and email are kept |
| `Auth.RefreshKeepsToken` | src/lib/auth.ts:55-61 | any number of later `jwt` calls without a user leave the token as it was |
| `Auth.SessionCarriesProfile` | src/lib/auth.ts:54-72 | after sign-in and any number of later requests, the session carries the signed-in user's id, name, email and four profile fields |
| `Signup.Parse` | app/api/auth/signup/route.ts:6-13 | a body is accepted exactly when civilite, nom, prenom and telephone are non-empty strings, the email passes the syntax check and the password has at least 6 characters; the values are kept |
| `Signup.Post` | app/api/auth/signup/route.ts:15-76 | non-JSON body gives 500; refused fields give "Données invalides"; a known email gives the duplicate error; acceptable data for a new email whose assigned id is taken gives the internal 500; every failure leaves the table unchanged; success appends exactly one row, under the assigned id that no row had, holding the digest of the password, and answers with that row's password-free projection |
| `Signup.PostAnswers` | app/api/auth/signup/route.ts:15-76 | 400 "Données invalides" exactly for refused fields, 400 with the duplicate text exactly for a known email, 500 "Erreur interne du serveur" exactly for a non-JSON body or an id clash, 200 with the success message exactly otherwise |
| `Signup.PostCreates` | app/api/auth/signup/route.ts:33-54 | acceptable data for a new email and a fresh id creates exactly the submitted account, with the password digest and the assigned id and date |
| `Signup.PostKeepsEmailsUnique` | app/api/auth/signup/route.ts:21-30 | a signup never gives two rows the same email |
| `Signup.PostAllKeepsEmailsUnique` | app/api/auth/signup/route.ts:21-43 | any series of signups keeps emails unique and only appends rows |
| `ChatRoute.Parse` | app/api/chat/route.ts:8-11 | a body is accepted exactly when the message is a string of 1 to 1000 characters and the conversation id is missing or a string; the values are kept |
| `ChatRoute.Post` | app/api/chat/route.ts:13-17 | a body that is not JSON, or that the schema refuses, gives the 500 internal error and stores nothing; a body the schema accepts is handled by the guest check and the rest of the handler |
| `ChatRoute.Handle` | app/api/chat/route.ts:19-54 | a request that is not admitted stores nothing and is answered with 403 or 500; one that passes the guest check but names a missing conversation or gets a clashing new id is answered exactly with the internal 500 "Erreur interne du serveur" |
| `ChatRoute.Poll` | app/api/chat/route.ts:71-76 | polling stops at the first status other than queued/in_progress; if no such status comes, every status read was queued/in_progress |
| `ChatRoute.Complete` | app/api/chat/route.ts:56-111 | a reply comes exactly from a run that settled as completed and whose newest message starts with a text part, and it is that text; the internal error comes exactly when a service call throws or that message has no content part; the generation error comes exactly when the run settled on another status, or completed with an empty listing or a non-text first part; the request is left waiting exactly when polling never settles |
| `ChatRoute.AdmittedOutcomes` | app/api/chat/route.ts:56-111 | an admitted request is answered only 200 with a response, or 500; the 500 internal error exactly when the service throws, the 500 generation error exactly when the run settled without text; it is left waiting exactly when polling never settles |
| `ChatRoute.QuotaRejectionExactly` | app/api/chat/route.ts:20-32 | 403 is answered exactly to a guest whose looked-up conversation exists with at least two user messages; the store is then unchanged |
| `ChatRoute.SignedInNeverRejected` | app/api/chat/route.ts:20-33 | a request with a session is never refused by the quota; it is admitted exactly when its conversation exists or its new id is fresh |
| `ChatRoute.GuestWithoutIdNeverRejected` | app/api/chat/route.ts:21-27 | without a conversation id, the guest check looks up a fresh guest id and cannot refuse |
| `ChatRoute.ConversationCreatedOnlyWithoutId` | app/api/chat/route.ts:36-45 | only the target conversation changes; a conversation is created only when no id was given, under a fresh id, owned by the session's user (no one for guests), keyed by the user id or a guest id, and starting with the question |
| `ChatRoute.UserMessagePersisted` | app/api/chat/route.ts:47-54 | an admitted request stores its question at the end of the conversation whatever the service does, and adds at most one more message |
| `ChatRoute.AssistantReplyOnlyOnTextCompletion` | app/api/chat/route.ts:78-98 | 200 is answered exactly when the run completed with a text reply; the reply is then stored right after the question and equals the returned response; any other outcome stores no assistant message |
| `ChatRoute.OtherStatusesFail` | app/api/chat/route.ts:73-104 | a run settled on any status but completed gives the 500 generation error; a run that never settles leaves the request waiting; both keep the question stored |
| `ChatRoute.HandleEffect` | app/api/chat/route.ts:35-98 | an admitted request only appends the question (and reply, when there is one) to its target conversation, creating it with the request's owner when it is new; an existing target keeps its owner and session key, and every other conversation is untouched |
| `ChatRoute.HandleKeepsOrder` | app/api/chat/route.ts:47-93 | if every assistant message follows a user message before a request, that still holds after it |
| `ChatRoute.GuestHandleKeepsQuota` | app/api/chat/route.ts:20-54 | guest requests never take an ownerless conversation past two user messages |
| `ChatRoute.ThirdGuestQuestionRefused` | app/api/chat/route.ts:20-32 | a guest's first question opens a conversation and the second on it is answered; a third is refused with 403, and the conversation keeps its four messages |
| `ChatRoute.UserMessagesNeedNotAlternate` | app/api/chat/route.ts:47-104 | a failed run followed by a second question leaves two user messages next to each other |
| `ChatInterface.HandleSubmit` | components/ChatInterface.tsx:41-104 | a blank input or an in-flight request changes nothing; a guest at two questions only gets the sign-in prompt; an admitted submit adds the trimmed question and one assistant message and clears the input; success shows the response, counts one more question and ends not loading; failure shows the apology, keeps the count and ends not loading; with no answer the empty reply bubble stays, the count is kept and the request stays in flight |
| `ChatInterface.Typewriter` | components/ChatInterface.tsx:76-87 | one frame per character; each frame keeps the earlier messages and shows a prefix of the response one character longer than the frame before; the final list shows the whole response |
| `ChatInterface.Submit` | components/ChatInterface.tsx:41-104 | the step-by-step submit with its rendered frames ends in the state `HandleSubmit` describes; every frame keeps the question and shows a prefix of the response |
| `ChatInterface.GuestCountBounded` | components/ChatInterface.tsx:43-90 | a guest starting at 0 to 2 questions never passes 2, and the counter never decreases, whatever is typed and whatever the endpoint answers; the widget is left waiting only after a request that got no answer |
| `ChatInterface.UnansweredRequestFreezes` | components/ChatInterface.tsx:41-104 | after an admitted submit whose request never answers, the request stays in flight and no later typing or submit changes anything |
| `ChatInterface.AuthPromptFreezes` | components/ChatInterface.tsx:137-138 | once the sign-in prompt shows, no later typing or submit changes the widget |
| `ChatInterface.GuestRemainingNeverNegative` | components/ChatInterface.tsx:177-182 | from the page's initial count of 0, the remaining-questions line never shows a negative number, nor more than 2 |
| `StaticSite.Find` | js/main.js:122 | the search returns the first account satisfying the condition, and none when no account does |
| `StaticSite.UpdateAuth` | js/main.js:25-58 | accounts, current user, input and chat are kept; a signed-in visitor is shown the chat input; an input that was shown stays shown; a signed-out visitor's state is unchanged |
| `StaticSite.Register` | js/main.js:135-158 | a known email changes nothing; otherwise the account is appended, signed in, and the counter reset to 0 |
| `StaticSite.Login` | js/main.js:117-132 | with no account matching email and password nothing changes; any change signs in the first matching account and resets the counter to 0 |
| `StaticSite.LoginSignsInFirstMatch` | js/main.js:122-127 | when an account is the first to match email and password, sign-in makes it the current user with the counter at 0 |
| `StaticSite.Logout` | js/main.js:99-103 | sign-out clears the current user and changes nothing else: counter, accounts, input and chat stay as they were |
| `StaticSite.Send` | js/main.js:161-181 | a blank message changes nothing; a signed-out visitor at two questions changes nothing; otherwise the trimmed question and the site's answer are appended, the counter goes up by one and the input is cleared |
| `StaticSite.SendAdmitsIffInputVisible` | js/main.js:47-58 | a non-blank message is sent exactly when the chat input is shown (signed in, or fewer than two questions) |
| `StaticSite.RegisterKeepsEmailsUnique` | js/main.js:146-153 | registration never gives two accounts the same email |
| `StaticSite.RunKeepsEmailsUnique` | js/main.js:135-158 | whatever sequence of registrations, sign-ins, sign-outs, sends and reloads, account emails stay unique |
| `StaticSite.SignedOutSendsBounded` | js/main.js:161-172 | a signed-out visitor starting at 0 to 2 questions is never counted past 2; the chat holds at most two lines per counted question, because a page load empties it, and exactly two per question when the page was never reloaded |
| `Flows.SignupThenSignIn` | app/api/auth/signup/route.ts:33-43 | the email and password of a successful signup sign in as the account just created, given a digest check that accepts a password against its own digest |
| `Flows.SignedInRequestsOwnTheirConversations` | app/api/chat/route.ts:36-45 | a user signed in through the credentials provider is never refused by the quota, and owns any conversation their request opens |
| `Flows.WidgetQuestionsPassServerCheck` | components/ChatInterface.tsx:60-66 | the widget's request body has no conversation id, so the server's guest check never refuses it; a question of 1 to 1000 characters opens a new conversation under the fresh id, starting with that question; a trimmed question over 1000 characters gets the 500 internal error |

## Left out

- Rendering, DOM updates, scrolling, `alert`, modal toggling and page navigation: they display state and compute nothing.
- `JSON.parse`/`parseInt` of the stored values: a page load restores the accounts, the signed-in account and the counter as they were stored, and starts with an empty chat log and an empty chat field; malformed stored values are not modelled.
- `setTimeout` delays (the 20 ms typewriter tick, the 1 s poll interval, the 1 s delayed answer in the static site) and `Date.now()`, which is an `Env` parameter.
- `StaticSite.Send`: the canned answer is appended in the same step as the question, not one second later.
- `ChatRoute.Poll`: the status reads are a finite sequence. A run that stays queued/in_progress for the whole sequence gives `StillPolling`; the loop's termination is not modelled.
- `Signup.Parse`: password length is counted in characters, while the schema library's `min(6)` counts UTF-16 code units; a password of three characters outside the Basic Multilingual Plane is six code units and is accepted by the endpoint, but refused by the model.
- `ChatInterface.Typewriter`: one frame is drawn per character, while the loop runs once per UTF-16 code unit (`text.length`, `text[i]`); for a character outside the Basic Multilingual Plane the widget shows an extra frame ending in a lone surrogate, which the model does not draw.
- `ChatRoute.Parse`: message length is counted in characters, while the schema library counts UTF-16 code units; they differ for characters outside the Basic Multilingual Plane.
- Two concurrent requests on the same conversation can both pass the guest check before either stores its question. Each request is modelled as one atomic step.
- Database faults other than the constraint violations named above: any other failing database call would also end in the catch-all 500.
- `Auth.Authorize`: the email lookup returns the first row with the email. The database's unique index makes that the only row; `Auth.AuthorizeExactly` assumes unique emails.
- The `session` callback's `if (token)` guard: the library always passes a token.
- How the library fills `sub`, `name` and `email` in a token, and `name`/`email` in a session: `Auth.SignInToken` and `Auth.BaseSession` model its documented defaults.
- `ChatInterface.HandleSubmit`: whether the visitor is signed in is a boolean per event. Sign-in while a request is in flight, and React's batching of state updates, are not modelled.
- The admin statistics page, the header, footer and signup page markup, the assistant client construction and the type declarations: display and configuration only.
