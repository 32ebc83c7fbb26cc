# NeuralChat message-state model

A Dafny model of the message-state logic of the NeuralChat application: the
Express routes that store and query chat messages and user accounts, the
React chat screen's conversation state, the moderator dashboard's review
panel, and the registration forms with their validators.

The model is organised as the program is:

- `common.dfy`: JavaScript building blocks. It covers truthiness, `filter`,
  `find`, `countDocuments`, `includes`, `lastIndexOf`, ASCII `toLowerCase`,
  the `\s` class and `String(n)`.
- `models.dfy`: the `Message` and `User` records with their enumerations,
  defaults, required paths and unique indexes. It also has the
  password-reset record.
- `store.dfy`: the three collections as a `Db` class whose invariant holds
  the unique indexes and fresh ids. It also has ordering by `created_at` and
  the soft-delete update.
- `chat_routes.dfy`, `admin_routes.dfy`, `auth_routes.dfy`: each route is a
  pure function from the request and the collections to a reply and the new
  collections. A method applies it to the `Db` and proves the invariant kept.
  Hashing, the language model and PDF reading are parameters.
- `validation.dfy`: every regular expression the forms and routes use, as a
  character-class predicate. Where a pattern can split a string in several
  places, the predicate is proved equivalent to the pattern read as
  written.
- `chat_page.dfy`: the chat screen as a `Chat` class. Socket events and HTTP
  outcomes arrive as method parameters. The handlers that change the
  sidebar or the thread are stated through whole-list transforms
  (`BumpUnread`, `ClearUnread`, `MarkMineRead`, `WithPreview`). The effect on
  the unread total is proved for `BumpUnread` and `ClearUnread`
  (`BumpUnreadTotal`, `ClearUnreadTotal`). Attaching a file sets one field.
- `admin_dashboard.dfy`: the dashboard's checks, user filters and selection
  logic, and a `ReviewPanel` class for the review steps, the context menu,
  selection mode and the bulk delete.
- `register_form.dfy`, `admin_register_form.dfy`: the two sign-up forms'
  validation chains. Each form is proved to reach the server only with
  requests the server's field and format checks accept.

### Behaviour of the code that the model keeps

- The chat screen calls `/p2p`, `/users` and `/mark-read` and emits socket
  events for relay and read receipts, but no server route serves them:
  `server/server.js:15-17` mounts only the auth, admin and chat routers, and
  the chat router defines none of those paths. The client side is modelled
  as written, and the server answers it depends on are parameters.
- `client/src/pages/Chat.jsx:177` reads `res.data.message`, which `/send`
  never returns: it answers `{status, aiResponse}`
  (`server/routes/chat.js:169`). The property access throws, so an
  acknowledged send never changes the sidebar preview and the placeholder is
  never replaced (`ChatPage.SendAgainstRoute`).
- An inbound message for the open thread calls `markAsRead`, which resets
  that peer's counter when the request succeeds. The handler therefore does
  change the sidebar, through `markAsRead` (`Chat.jsx:56`, `112-116`).
- The chat screen's paste and drop filter and the server's upload filter
  disagree on names without a usable dot. A file named `pdf` or `.pdf` passes
  the screen and is refused by the server (`ChatPage.ClientExtensionDisagrees`).
  For any name with a dot after its first character, the screen's filter
  implies the server's extension check (`ChatPage.ClientExtensionAgrees`).
- `/register` answers a bad name with the text "Name must check contain only
  alphabets and spaces." (`server/routes/auth.js:24`). The registration form
  shows "Name must contain only alphabets and spaces." Both texts are kept.
- `/send` with empty content passes `is_flagged: ''` to `Message.create`
  (`server/routes/chat.js:86-97`). Mongoose's Boolean cast refuses the empty
  string, so that create throws; the catch stores only the model's error
  reply (`chat.js:171-186`).

## Model

| member | source | states |
|---|---|---|
| Common.Filter | server/routes/admin.js:81 | the result keeps exactly the elements satisfying the predicate, never grows, and every kept element satisfies it |
| Common.FilterAppend | server/routes/admin.js:81 | filtering distributes over concatenation |
| Common.FilterCongruent | server/routes/admin.js:214-219 | two predicates that agree on every element select the same list |
| Common.First | server/routes/auth.js:71 | `findOne` returns an element satisfying the query, the earliest one, and nothing only when no element satisfies it |
| Common.CountAppend | server/routes/admin.js:16 | counting matches over a concatenation adds the counts |
| Common.Contains | server/routes/chat.js:86 | `includes` holds iff the word occurs at some position |
| Common.IndexOf | server/routes/auth.js:22 | the first occurrence of a character, or -1 when absent |
| Common.LastIndexOf | client/src/pages/Chat.jsx:450 | the last occurrence of a character, or -1 when absent |
| Common.DigitsValue | server/routes/auth.js:157 | the number a string of decimal digits denotes |
| Common.DecimalString | server/routes/auth.js:157 | `String(n)` of a natural number is a non-empty string of decimal digits, without a leading zero, whose value is `n` |
| Common.LowerSlice | server/routes/chat.js:86 | lower-casing commutes with taking a slice |
| Common.ContainsLower | server/routes/chat.js:86 | a word contained in a text is still contained once both are lower-cased |
| Common.FilterKeepsPairwise | server/routes/admin.js:138 | filtering keeps any relation that held between every two elements, such as distinct ids |
| Models.ParseKind | server/models/Message.js:7 | only `text`, `image` and `file` are accepted, each as the kind it names |
| Models.ParseKindName | server/models/Message.js:7 | naming a kind and parsing the name gives the kind back |
| Models.CreateMessage | server/models/Message.js:4-14 | creation succeeds iff `user_id` and `role` are present and `type` is in the enumeration; the type defaults to text, the four flags to false, `reply_to` to null, `created_at` to now |
| Models.UsersUnique | server/models/User.js:5-8 | no two users share an id, an e-mail or a mobile, and no two share a present login id |
| Models.PasswordsAsideKeepsUnique | server/routes/admin.js:39-43 | changing only password hashes keeps every unique index and every id |
| Models.CreateUser | server/models/User.js:4-12 | creation succeeds iff name, e-mail and mobile are present and no unique index clashes; the user is appended and uniqueness is kept |
| Store.Db.Valid | server/models/User.js:5-8 | the store's invariant: unique user indexes, message and reset ids distinct and below the next free id |
| Store.Db.constructor | server/models/Message.js:3 | the empty collections satisfy the invariant |
| Store.AppendFresh | server/models/Message.js:3 | appending records numbered from the next free id keeps ids distinct and below the counter |
| Store.InsertByTime | server/routes/chat.js:54 | inserting into a time-ordered list keeps it ordered and adds exactly one element |
| Store.SortByTime | server/routes/admin.js:259 | the result is ordered by `created_at` and is a permutation of the input |
| Store.SortedElements | server/routes/chat.js:54 | sorting keeps exactly the same elements |
| Store.SoftDeleted | server/routes/admin.js:164-167 | length and order are kept; exactly the listed messages are flagged deleted, and nothing else changes |
| Store.SoftDeletedIdempotent | server/routes/admin.js:164-167 | soft-deleting the same ids twice equals doing it once |
| ChatRoutes.ContainsAny | server/routes/chat.js:86 | `some(word => text.includes(word))` holds iff some listed word occurs |
| ChatRoutes.IsFlagged | server/routes/chat.js:12 | flagged iff content is present, non-empty, and its lower-case form contains a listed word |
| ChatRoutes.ListedWordFlags | server/routes/chat.js:86 | any content containing a listed word, in any case, is flagged |
| ChatRoutes.FlaggingIgnoresCase | server/routes/chat.js:86 | content and its lower-case form are flagged alike |
| ChatRoutes.FlaggedExample | server/routes/chat.js:86 | examples: an upper-case listed word is caught; empty and absent content are never flagged |
| ChatRoutes.ExtName | server/routes/chat.js:40 | `extname` is empty or the suffix from the last dot, the dot being past the first character |
| ChatRoutes.Accepts | server/routes/chat.js:29-48 | the upload filter: an allowed MIME type and an allowed lower-cased extension |
| ChatRoutes.ExtNameLower | server/routes/chat.js:40 | the extension of the lower-cased name is the lower-cased extension |
| ChatRoutes.AcceptsIgnoresCase | server/routes/chat.js:29-48 | a file is accepted iff the same file with its name lower-cased is |
| ChatRoutes.RejectsExamples | server/routes/chat.js:29-48 | a `text/plain` upload is refused even with an allowed extension, and `.pdf` is refused as a PDF because a leading dot is not an extension |
| ChatRoutes.Classify | server/routes/chat.js:77-82 | no file gives text with no path; a file gives `/uploads/` plus its stored name, and image iff the MIME type starts with `image/` |
| ChatRoutes.ModelReply | server/routes/chat.js:104-159 | the reply text: the completion or its fallback, the unreadable-PDF text when parsing or its call fails, the fixed upload text when no call is made |
| ChatRoutes.UserRecord | server/routes/chat.js:89-97 | the stored user message: role user, content `''` when absent, type and path from the attachment, `reply_to` as given, the flag from the word list |
| ChatRoutes.ModelRecord | server/routes/chat.js:162-167 | the stored reply: role model, text type, unflagged, no receiver |
| ChatRoutes.SendRoute | server/routes/chat.js:63-187 | a filter refusal and a missing user id store nothing; empty content stores only the error reply, since its create throws; otherwise exactly two records are stored, the user's then the model's, and the reply is the model's text |
| ChatRoutes.Send | server/routes/chat.js:63-187 | the store gains exactly the route's records, with fresh ids; users and resets are untouched |
| ChatRoutes.History | server/routes/chat.js:51-60 | exactly the user's messages, oldest first |
| ChatRoutes.Toggled | server/routes/chat.js:190-202 | `pin` sets only `is_pinned` and `star` only `is_starred` on the message with that id; any other action or an absent value changes nothing |
| ChatRoutes.Toggle | server/routes/chat.js:190-202 | the store's messages become the toggled list; nothing else changes |
| AdminRoutes.FlaggedCount | server/routes/admin.js:16 | the number of the user's messages flagged |
| AdminRoutes.UsersWithFlags | server/routes/admin.js:10-24 | one row per user, in order, without the password hash and otherwise unchanged, each with the number of that user's flagged messages |
| AdminRoutes.SendUpdatesFlaggedCount | server/routes/admin.js:16 | a stored send raises the sender's flagged count by one iff its content is flagged, and leaves every other count alone |
| AdminRoutes.ApproveRoute | server/routes/admin.js:27-64 | 400 for a missing field; 400 iff another user holds the login id; otherwise the user gets the hash, the login id and approved status, and nothing else changes |
| AdminRoutes.ApprovePreservesUnique | server/routes/admin.js:39-43 | approval keeps every unique index, the sparse login-id index included |
| AdminRoutes.LoginIdOwner | server/models/User.js:8 | under the sparse unique index a login id names at most one user |
| AdminRoutes.Approve | server/routes/admin.js:27-64 | the store's users become the route's result and the invariant holds |
| AdminRoutes.Row | server/routes/admin.js:72-80 | a request is joined with its user's name and e-mail, and yields nothing iff no user has that id |
| AdminRoutes.Rows | server/routes/admin.js:72-81 | the listed rows are exactly the joins that exist |
| AdminRoutes.PendingResets | server/routes/admin.js:67-87 | every listed row comes from a pending request whose user exists, and every such request is listed |
| AdminRoutes.ResetPasswordRoute | server/routes/admin.js:90-121 | 400 without user id or new password; otherwise `Password updated`, that user's hash changes and the named request, if any, is resolved |
| AdminRoutes.ResetPassword | server/routes/admin.js:90-121 | the store takes the route's result; messages are untouched |
| AdminRoutes.RequestIndex | server/routes/admin.js:126 | the first request with the id, or -1 when none has it |
| AdminRoutes.WithoutRequest | server/routes/admin.js:124-131 | the first request with that id is removed, others keep their order; no match leaves the list unchanged |
| AdminRoutes.DeleteReset | server/routes/admin.js:124-131 | the store's requests lose that one request; users and messages are untouched |
| AdminRoutes.DeleteUser | server/routes/admin.js:134-144 | the user's messages, reset requests and account are removed, everything else stays, and the invariant holds |
| AdminRoutes.DeleteChat | server/routes/admin.js:147-155 | exactly the user's messages are removed |
| AdminRoutes.FilterKeepsDistinctIds | server/routes/admin.js:137 | deleting messages keeps message ids distinct |
| AdminRoutes.FilterKeepsUnique | server/routes/admin.js:139 | deleting users keeps every unique index |
| AdminRoutes.BulkSoftDelete | server/routes/admin.js:158-172 | 400 without an id array; otherwise exactly the listed messages are flagged deleted and none is removed |
| AdminRoutes.People | server/routes/admin.js:189-194 | exactly the users whose id is listed, each once under unique ids |
| AdminRoutes.ContactIds | server/routes/admin.js:182-186 | the receivers of the user's messages and the senders of messages to the user |
| AdminRoutes.HasAi | server/routes/admin.js:192 | the user has a message without a receiver |
| AdminRoutes.Contacts | server/routes/admin.js:177-203 | the assistant is at index 0 iff the user has a message without receiver; every other entry is built from an existing user's id, name and e-mail, is distinct, and is someone the user exchanged a message with; each such user is listed |
| AdminRoutes.InConversation | server/routes/admin.js:211-219 | the user's messages without receiver for the assistant; otherwise messages either way between the two users |
| AdminRoutes.Conversation | server/routes/admin.js:211-219 | a message is listed iff it is stored and belongs to the conversation |
| AdminRoutes.ConversationSymmetric | server/routes/admin.js:214-219 | swapping the two users selects the same messages in the same order |
| AdminRoutes.Distinct | server/routes/admin.js:225 | `[...new Set(s)]` has the same elements as `s`, each once |
| AdminRoutes.DistinctOfNonIncreasing | server/routes/admin.js:222-225 | removing repeats from a newest-first list of days gives a strictly decreasing list |
| AdminRoutes.Days | server/routes/admin.js:225 | the day of each message, in order |
| AdminRoutes.DaysOf | server/routes/admin.js:225 | a day is listed iff some message falls on it |
| AdminRoutes.DaysOfSorted | server/routes/admin.js:222 | newest-first messages give a non-increasing list of days |
| AdminRoutes.ConversationDays | server/routes/admin.js:206-231 | the days of the conversation, strictly newest first, and a day is listed iff a message of the conversation falls on it |
| AdminRoutes.HistoryFiltered | server/routes/admin.js:234-266 | `Missing parameters` iff a parameter is absent; otherwise a permutation of the conversation's messages inside the window, oldest first |
| Validation.RegisterEmailOk | server/routes/auth.js:22 | the scan accepts exactly the strings the registration pattern matches |
| Validation.FirstAt | server/routes/auth.js:22 | an `@` preceded only by local-part characters is the first `@` |
| Validation.GroupsDotted | client/src/pages/AdminRegister.jsx:18 | the repeated `label.` groups describe exactly the strings of labels and single dots ending with a dot |
| Validation.GroupsAreDotted | client/src/pages/AdminRegister.jsx:18 | every split into groups gives such a string |
| Validation.DottedAreGroups | client/src/pages/AdminRegister.jsx:18 | every such string splits into groups |
| Validation.AdminEmailOk | client/src/pages/AdminRegister.jsx:18 | the scan accepts exactly the strings the admin e-mail pattern matches |
| Validation.AdminEmailSplit | client/src/pages/AdminRegister.jsx:18 | splitting at the first `@` and after the last dot accepts iff some split does |
| Validation.AdminEmailWitness | client/src/pages/AdminRegister.jsx:18 | any split the pattern can choose is the first-`@`, last-dot split |
| Validation.NameOk | server/routes/auth.js:20 | one or more letters or whitespace characters |
| Validation.MobileOk | server/routes/auth.js:21 | exactly ten decimal digits |
| Validation.PasswordOk | client/src/pages/AdminDashboard.jsx:73 | eight or more characters from letters, digits and `!@#$%^&*`, with an uppercase letter, a digit and a special character among them |
| Validation.PasswordAccepted | client/src/pages/AdminDashboard.jsx:73 | example: `Neural@2024` passes |
| Validation.PasswordRejected | client/src/pages/AdminDashboard.jsx:73 | examples: a password without an uppercase letter, without a special character, shorter than eight, or with a space fails |
| AuthRoutes.RegisterRoute | server/routes/auth.js:12-59 | 400 for a missing field first, then the first failing format check; 400 iff a user shares e-mail, mobile or name; success appends a pending user, and a valid, unduplicated form with a fresh id succeeds; 500 only on an id clash |
| AuthRoutes.FormatError | server/routes/auth.js:24-26 | name, then mobile, then e-mail; none iff all three pass |
| AuthRoutes.Admit | server/routes/auth.js:30-36 | the duplicate check and insert: refused iff a duplicate exists; with a fresh id and no duplicate it succeeds, appending a pending user and keeping uniqueness |
| AuthRoutes.RegisterTakesFreshId | server/routes/auth.js:36 | with the next free id the insert cannot fail with 500 |
| AuthRoutes.Register | server/routes/auth.js:12-59 | the store takes the route's result; every refusal is a 400 |
| AuthRoutes.LoginKeyOf | server/routes/auth.js:65-68 | by e-mail when given, else by login id, else none |
| AuthRoutes.LoginRoute | server/routes/auth.js:62-94 | 400 without a key; 400 when no user matches; for the first match: 403 when pending, 500 when it has no hash, 400 `Invalid credentials` on a mismatch, and the user logged in on a match |
| AuthRoutes.RegisteredCannotLogIn | server/routes/auth.js:36-76 | a just-registered user logging in by e-mail gets 403 |
| AuthRoutes.ApprovedCanLogIn | server/routes/admin.js:39-43 | after approval, logging in with the login id and a matching password succeeds |
| AuthRoutes.LoginAsOwner | server/routes/auth.js:71-79 | logging in as the only user the key names, approved and with a matching password, succeeds |
| AuthRoutes.ForgotRoute | server/routes/auth.js:97-132 | 400 with neither e-mail nor login id; 400 iff no user matches; otherwise a pending request for the first matching user is filed and `Reset request sent to admin` answered |
| AuthRoutes.ForgotTakesFreshId | server/routes/auth.js:112 | the filed request takes the next id |
| AuthRoutes.ForgotPassword | server/routes/auth.js:97-132 | the store takes the route's result; users and messages are untouched |
| AuthRoutes.ForgotIsListed | server/routes/admin.js:67-87 | a filed request appears in the moderator's pending list |
| AuthRoutes.MasterKey | server/routes/auth.js:138 | the configured key when set, else `neural_master_key` |
| AuthRoutes.DummyMobile | server/routes/auth.js:157 | ten zeros followed by the decimal digits of the time, without a leading zero |
| AuthRoutes.AdminRegisterRoute | server/routes/auth.js:135-164 | 403 for a wrong key first, then 400 for a missing field, then 400 iff the e-mail is taken; success appends an approved admin with the hash and the placeholder mobile, and with the right key, every field and no clash it succeeds |
| AuthRoutes.AdminRegister | server/routes/auth.js:135-164 | the store takes the route's result |
| AuthRoutes.AdminResetRoute | server/routes/auth.js:167-188 | 403 for a wrong key; 500 without a new password; 404 iff no admin has the e-mail; otherwise `Password reset successful` and the first matching admin's hash changes |
| AuthRoutes.AdminResetChangesOnlyPasswords | server/routes/auth.js:179-183 | the admin reset changes nothing but password hashes |
| AuthRoutes.FirstIndex | server/routes/auth.js:177-180 | the first position satisfying the query |
| AuthRoutes.AdminReset | server/routes/auth.js:167-188 | the store takes the route's result |
| ChatPage.IsMine | client/src/pages/Chat.jsx:78 | a message is mine when its `sender_id` or `user_id` is my id |
| ChatPage.SenderOf | client/src/pages/Chat.jsx:52 | `sender_id`, else `user_id` |
| ChatPage.BumpUnread | client/src/pages/Chat.jsx:58-71 | only the sender's entries change: counter plus one (missing as 0) and the preview replaced |
| ChatPage.BumpUnreadTotal | client/src/pages/Chat.jsx:58-71 | the unread total rises by one per entry of the sender |
| ChatPage.ClearUnread | client/src/pages/Chat.jsx:115 | that peer's counter becomes 0; every other entry is unchanged |
| ChatPage.ClearUnreadTotal | client/src/pages/Chat.jsx:115 | the total falls by exactly that peer's unread count |
| ChatPage.UnreadFrom | client/src/pages/Chat.jsx:115 | a peer's unread count never exceeds the total |
| ChatPage.WithPreview | client/src/pages/Chat.jsx:191-203 | only the peer's preview changes |
| ChatPage.MarkMineRead | client/src/pages/Chat.jsx:77-83 | exactly my unread messages become read at the receipt time; length, order and other messages are kept |
| ChatPage.MarkMineReadIdempotent | client/src/pages/Chat.jsx:77-83 | after a receipt all my messages are read, and a second receipt changes nothing |
| ChatPage.Placeholder | client/src/pages/Chat.jsx:145-159 | unread, from me to the peer, with the input text; image iff the file's MIME starts with `image/`, file for any other file, text without one |
| ChatPage.PreviewText | client/src/pages/Chat.jsx:196 | the camera text for images, the document text for files, the content otherwise |
| ChatPage.AnswerFor | server/routes/chat.js:169 | a refused send is a failed request; an accepted one carries no `message` field |
| ChatPage.AfterLastDot | client/src/pages/Chat.jsx:450 | the text after the last dot, the whole name without one; it holds no dot |
| ChatPage.ClientAccepts | client/src/pages/Chat.jsx:449-452 | the lower-cased text after the last dot is on the screen's list |
| ChatPage.ClientExtensionAgrees | client/src/pages/Chat.jsx:449-452 | a screen-accepted name with a dot past its first character passes the server's extension check |
| ChatPage.DottedClientExts | client/src/pages/Chat.jsx:449 | every screen extension with its dot is a server extension |
| ChatPage.ClientExtensionDisagrees | client/src/pages/Chat.jsx:449-456 | `pdf` and `.pdf` pass the screen and fail the server |
| ChatPage.Chat.constructor | client/src/pages/Chat.jsx:16-25 | no peer selected, empty thread and composer |
| ChatPage.Chat.MarkAsRead | client/src/pages/Chat.jsx:112-117 | success clears that peer's counter; failure changes nothing |
| ChatPage.Chat.ReceiveMessage | client/src/pages/Chat.jsx:51-73 | a message from the open thread's peer is appended and the thread marked read; any other message leaves the thread alone and bumps its sender's entry |
| ChatPage.Chat.MessagesRead | client/src/pages/Chat.jsx:75-85 | only a receipt from the open thread's peer marks my messages read |
| ChatPage.Chat.SelectUser | client/src/pages/Chat.jsx:127-132 | the peer is selected, the thread loaded when fetched, and marked read only when the entry shows unread messages |
| ChatPage.Chat.SelectFile | client/src/pages/Chat.jsx:134-138 | a chosen file is attached |
| ChatPage.Chat.OfferFile | client/src/pages/Chat.jsx:445-480 | a pasted or dropped file is attached iff its extension is on the list |
| ChatPage.Chat.Send | client/src/pages/Chat.jsx:140-209 | nothing without a peer or with blank input and no file; otherwise one placeholder appended, composer cleared, and the preview changed only when the answer carries the message |
| ChatPage.SendAgainstRoute | client/src/pages/Chat.jsx:177 | against this server's `/send` the sidebar never changes |
| AdminDashboard.HighRisk | client/src/pages/AdminDashboard.jsx:57 | exactly the rows with more than three flagged messages |
| AdminDashboard.PendingUsers | client/src/pages/AdminDashboard.jsx:309 | exactly the pending users |
| AdminDashboard.ActiveUsers | client/src/pages/AdminDashboard.jsx:310 | exactly the approved users who are not admins |
| AdminDashboard.TabsDisjoint | client/src/pages/AdminDashboard.jsx:309-310 | no user is on both tabs, and an approved admin is on neither |
| AdminDashboard.ApproveCheck | client/src/pages/AdminDashboard.jsx:67-80 | missing fields, then a mismatch, then the password rule; no alert iff both fields are present, they match and the password satisfies `PasswordOk` |
| AdminDashboard.ApproveCheckMeetsRoute | client/src/pages/AdminDashboard.jsx:67-83 | a request the dashboard lets through is never refused by the route's missing-field guard |
| AdminDashboard.ResetCheck | client/src/pages/AdminDashboard.jsx:95-107 | missing password, then a mismatch, then the rule; no alert iff the password is present, matches and satisfies `PasswordOk` |
| AdminDashboard.Without | client/src/pages/AdminDashboard.jsx:283 | the selection without that id |
| AdminDashboard.Toggled | client/src/pages/AdminDashboard.jsx:282-286 | the id's membership flips, others keep theirs, and a new id is appended |
| AdminDashboard.ToggledTwice | client/src/pages/AdminDashboard.jsx:282-286 | toggling an id twice gives back the same selection, as a set |
| AdminDashboard.Back | client/src/pages/AdminDashboard.jsx:196-199 | messages go back to days, anything else to contacts |
| AdminDashboard.BackReachesContacts | client/src/pages/AdminDashboard.jsx:196-199 | two presses of back from any step reach the contacts step, which is final |
| AdminDashboard.ReviewPanel.constructor | client/src/pages/AdminDashboard.jsx:21-32 | nothing under review, contacts step, no selection |
| AdminDashboard.ReviewPanel.ReviewChat | client/src/pages/AdminDashboard.jsx:146-160 | an empty view of the user, contacts step, no contact or day chosen; contacts replaced when fetched |
| AdminDashboard.ReviewPanel.SelectContact | client/src/pages/AdminDashboard.jsx:162-174 | the contact is chosen; its days, when fetched for a reviewed user, move the panel to the days step |
| AdminDashboard.ReviewPanel.SelectDate | client/src/pages/AdminDashboard.jsx:176-194 | the day is chosen; its messages, when fetched, replace the view's and move the panel to the messages step |
| AdminDashboard.ReviewPanel.ChatBack | client/src/pages/AdminDashboard.jsx:196-199 | the step moves back one; nothing else changes |
| AdminDashboard.ReviewPanel.OpenContextMenu | client/src/pages/AdminDashboard.jsx:231-239 | outside selection mode the menu opens on that message; in selection mode the screen does not offer it (`AdminDashboard.jsx:629`) and nothing changes |
| AdminDashboard.ReviewPanel.DeleteMessage | client/src/pages/AdminDashboard.jsx:245-252 | selection mode with exactly the menu's message selected, menu closed |
| AdminDashboard.ReviewPanel.ToggleSelection | client/src/pages/AdminDashboard.jsx:280-287 | nothing outside selection mode; otherwise the id's membership flips |
| AdminDashboard.ReviewPanel.CancelSelection | client/src/pages/AdminDashboard.jsx:680 | selection mode ends with nothing selected |
| AdminDashboard.ReviewPanel.BulkDelete | client/src/pages/AdminDashboard.jsx:254-278 | nothing with an empty selection, a declined dialog or a failed request; otherwise exactly the selected messages are flagged deleted in place and selection mode ends |
| RegisterForm.Check | client/src/pages/Register.jsx:21-32 | name, then mobile, then e-mail; no error iff all pass |
| RegisterForm.Submit | client/src/pages/Register.jsx:11-41 | a failed check shows its error and keeps the form; success shows the server's message and empties the form; a refusal shows a non-empty error |
| RegisterForm.ClientChecksSuffice | client/src/pages/Register.jsx:21-35 | a form passing the client's checks is refused by the server only as a duplicate or with 500 |
| AdminRegisterForm.Check | client/src/pages/AdminRegister.jsx:21-39 | name, then e-mail, then the password rule, then the confirmation; no error iff `NameOk`, `AdminEmailOk` and `PasswordOk` hold and the confirmation matches |
| AdminRegisterForm.ClientChecksSuffice | client/src/pages/AdminRegister.jsx:21-42 | a form passing the client's checks is never refused for a missing field |

## Left out

- Transport and HTTP: socket events, axios calls and their failures arrive as method parameters, except the `/users` re-fetch described under `ChatPage.Chat.SelectUser` below. The server half of live relay, read receipts, `/p2p`, `/users` and `/mark-read` is not part of the repository's routes, so it is not part of this model.
- The language model, PDF parsing, image reading and multer's disk storage are foreign libraries and I/O. Their outcomes are parameters, and the stored file name is part of the upload.
- bcrypt and JWT: hashing is a parameter, and "password matches" is an abstract predicate. The two bcrypt error texts are kept where an absent argument makes the library throw.
- E-mail notifications, `localStorage`, scrolling, JSX rendering, `AIChatWidget.jsx`, `Home.jsx`, `database.js` and the debug scripts are outside the message-state logic.
- The `PasswordReset` model file is not part of this model. Its record is reconstructed from its uses: id, user id, status and creation time.
- Dates: timestamps are integer milliseconds. The UTC day key is `created_at / 86400000`. The local-time window of `history-filtered` is passed in as two timestamps, because `setHours` depends on the server's time zone.
- The order of equal `created_at` values after a Mongo sort is not fixed by the model. `SortByTime` states only order and permutation.
- `populate('reply_to', …)` of `history-filtered`: `reply_to` stays an id.
- Storage failures (the catch-all 500 answers) are not modelled. The exceptions are the unique-index clashes of `User.create` and the bcrypt errors above.
- Lower-casing covers ASCII letters only. The JavaScript case mappings of other characters are not modelled.
- `ChatRoutes.ExtName`: models `path.extname` for names without directory separators, as multer supplies them.
- `ChatRoutes.SendRoute`: the text of Mongoose's cast error for `is_flagged: ''` is a parameter; the model takes only the fact that the cast refuses the empty string.
- `AuthRoutes.AdminResetRoute`: a request without an e-mail matches no admin.
- Concurrency: each route handler is modelled as one atomic step on the collections. Interleavings of two requests between a handler's awaits are not modelled. For example, two `/register` calls with the same e-mail can both pass `findOne` before either `create` (`server/routes/auth.js:31-36`), and two `/approve` calls with the same login id can both pass its check before `findByIdAndUpdate` (`server/routes/admin.js:33-43`). The second write then fails on the unique index and the handler answers 500.
- `AuthRoutes.RegisterRoute`: the 500 answer is stated only as arising from an id clash, for a request handled on its own. The duplicate check already excludes e-mail and mobile clashes; a concurrent request can still cause one, as the concurrency line above says.
- `ChatPage.Chat.Send`: the socket emission after a send, and the fields of the placeholder used only for display (file name, size, page count), are not modelled.
- `ChatPage.Chat.SelectUser`: every change of the selected peer re-runs `fetchUsers` (`client/src/pages/Chat.jsx:43-49`), which replaces the sidebar with the server's list and may re-select the last active chat (`Chat.jsx:93-110`). The model takes that request as failing, as it does against this server: the chat router serves no `/users` route. The sidebar therefore changes only through `markAsRead`.
- Query filters on `receiver_id`: `receiver_id` is not a path of the `Message` schema. The queries of `/chat/contacts`, `/chat/dates` and `/history-filtered` (`server/routes/admin.js:182-192`, `211-219`) are modelled with those filters applied as written, which holds when Mongoose's `strictQuery` is off (the Mongoose 7 default). Under Mongoose 6's default the filter would be dropped. The repository's Mongoose version is not part of this model.
- `AdminDashboard.ReviewPanel`: the loading flag, alerts and the menu's screen coordinates are not modelled.
