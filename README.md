# NeoComm chat core in Dafny

NeoComm is a chat application: an Express server over PostgreSQL (`backend/server.js`) and a
React front end. This project models its core in Dafny and proves properties of that model.

- **The server's friendship-gated chat store.** The `users`, `friends` and `messages` tables are
  sequence fields of one class, `Server.Store`. Each route is a member of that class:
  - signup, `POST /messages`, `POST /friends/add` and `PUT /profile/update` are methods that
    insert or update rows;
  - login, `GET /profile`, `GET /messages/:friendId` and `GET /friends/:userId` are functions
    that read the tables.
- **Each SQL query as a function over the tables** (module `Tables`):
  - the friendship check in either column order;
  - the conversation filter;
  - the inner join that hydrates a message with both parties' names and pictures;
  - the `DISTINCT` friends join.
- **The server's pure helpers:**
  - the bearer-token middleware;
  - the four picture-URL normalisers;
  - the multer file filter, including Node's `path.extname`;
  - the dynamic `UPDATE` builder. It is a method that pushes clauses and parameters with a
    running placeholder number, as the source does.
- **The chat screen (`ChatComponent.jsx`):**
  - `truncateStatus`;
  - the `receiveMessage` updater;
  - the selected-friend refresh;
  - the add-friend and send-message input guards.

  Its component state is the class `ChatClient.ChatView`.
- **The profile editor (`ProfileComponent.jsx`):**
  - the image checks;
  - the initial field defaults;
  - the form `handleSubmit` builds, and the outcome of submitting it.

  Its component state is the class `ProfileForm.ProfileEditor`.

Foreign code is modelled as function-typed parameters:
- `jwt.verify` is `verify: string -> Option<Claims>`; `None` means the library throws;
- `jwt.sign` is `sign`;
- `bcrypt.hash` and `bcrypt.compare` are `hash` and `compare`.

Values that come from the environment are also parameters:
- the database clock's advance (`elapsed`);
- `Date.now()` (`stamp`);
- the answers a component receives from the server (`Reply` values).

JavaScript semantics are written out where the code relies on them:
- truthiness: `None` and `Some("")` are falsy;
- `String.replace` with a string pattern removes the first occurrence anywhere;
- `split('/').pop()`;
- `trim()` with the ECMA-262 whitespace set;
- `toLowerCase()`, for ASCII letters;
- a regular expression of alternatives by substring search.

These points cover what the source does and keep the model faithful to it:
- `authenticateToken` removes the first "Bearer " wherever it stands. So "xBearer y" is verified
  as "xy" (`Auth.BearerRemovedInside`).
- The friends rows carry a status of 'accepted'. The friendship check never reads that status;
  every row the routes insert is 'accepted' (`Server.Store.Valid`).
- `POST /messages` inserts the row before it joins the users table. When a party has no user
  row, the handler answers 500 but the message stays stored and nothing is broadcast. A design
  with all-or-nothing message creation would not keep the row. The model follows the code. The
  repository has no schema file, so the model assumes no foreign keys on `friends` and
  `messages`. With a foreign key to `users(id)` the insert itself would fail, and nothing would
  be stored.
- `POST /friends/add` answers 200, not 201. It takes the requester's id from the token without
  checking that the requester has a user row. Nothing stops a user from befriending themselves.
- `GET /friends/:userId` lists the friends of whatever id the path names, not only the caller's.
- Signup answers with the inserted row, which includes the password hash.
- The server keeps no registry of connections. `io.emit` sends every new message to every
  client, and each client filters by relevance and de-duplicates by id
  (`ChatClient.ReceiveMessage`).
- The listing's `ORDER BY sent_at` fixes nothing among ties. The model fixes them: it returns
  the messages in table order, which the store keeps non-decreasing in `sent_at`. So
  `Server.Store.ListConversation` gives one exact sequence, and PostgreSQL may order ties
  differently (see Left out).
- `GET /messages/:friendId` as written prepends the host to a picture that is already a full URL
  (see Findings). The store's listing uses the corrected normaliser `Pictures.HistoryPicture`
  (see Left out).

## Model

| member | source | states |
|---|---|---|
| Auth.Authenticate | backend/server.js:49-60 | the request is authenticated exactly when the Authorization header is truthy and the verifier accepts the header minus its first "Bearer ", with the claims the verifier gives; a denial says "Access denied. No token provided." exactly when the header is falsy, and "Invalid token." otherwise |
| Auth.BearerHeader | backend/server.js:54 | a header "Bearer t" is decided by the verifier's verdict on t alone |
| Auth.BareToken | backend/server.js:54 | a non-empty header with no "Bearer " in it is passed to the verifier unchanged |
| Auth.BearerRemovedInside | backend/server.js:54 | the removal is not anchored: "xBearer y" reaches the verifier as "xy" |
| Text.ReplaceFirstAt | backend/server.js:54 | replacing a string pattern cuts out exactly its first occurrence |
| Text.ReplaceFirst | backend/server.js:54 | without an occurrence the string is kept; with one, exactly one copy of the pattern's length is removed |
| Text.LastSegmentAfterSlash | backend/server.js:211 | `split('/').pop()` of a path ending in "/seg", where seg has no '/', is seg |
| Text.LastSegment | backend/server.js:211 | `split('/').pop()`: a suffix of the string without '/', preceded by '/' whenever it is not the whole string |
| Text.TrimEmptyIffBlank | frontend/src/components/ChatComponent.jsx:234 | `trim()` is empty exactly when every character is JavaScript whitespace |
| Text.Trim | frontend/src/components/ChatComponent.jsx:234 | `trim()`: a substring of the input that neither starts nor ends with JavaScript whitespace |
| Pictures.ProfilePicture | backend/server.js:161-163 | a falsy picture is kept; a truthy one not starting with "http" gets "http://localhost:8001" in front; the result of a truthy picture always starts with "http" |
| Pictures.BroadcastPicture | backend/server.js:208-214 | a falsy picture becomes null; a truthy one becomes "http://localhost:8001/uploads/" plus its last path segment |
| Pictures.FriendPicture | backend/server.js:334-338 | a value starting with "http" and a falsy value are kept; any other value becomes the uploads URL of its last path segment |
| Pictures.FriendPictureIdempotent | backend/server.js:334-338 | normalising a friend's picture twice equals normalising it once |
| Pictures.BroadcastPictureIdempotent | backend/server.js:208-214 | the broadcast normaliser is idempotent too |
| Pictures.HistoryPictureAsWritten | backend/server.js:247-250 | as written: every truthy picture gets the host prefixed, a falsy one becomes null |
| Pictures.HistoryPictureAsWrittenDoublesHost | backend/server.js:247-250 | for the URL the update route stores, the listing as written yields the host twice and differs from the broadcast of the same message |
| Pictures.HistoryPicture | backend/server.js:247-250 | corrected: falsy becomes null, a full URL is kept, and a path gets the host prefixed |
| Pictures.HistoryPictureIdempotent | backend/server.js:247-250 | the corrected listing normaliser is idempotent |
| Pictures.HistoryMatchesBroadcastForUrl | backend/server.js:208-214 | the corrected listing and the broadcast agree on a stored uploads URL of a plain file name |
| Pictures.HistoryMatchesBroadcastForPath | backend/server.js:208-214 | they also agree on a stored "/uploads/name" path |
| UploadFilter.ExtName | backend/server.js:80 | `path.extname`: empty, or a suffix of the base name that starts with '.', has no further '.' and no '/' |
| UploadFilter.ExtNameOf | backend/server.js:80 | a name stem + ".ext" with no further dot has extension ".ext" |
| UploadFilter.MatchesImageType | backend/server.js:78 | the regular expression `/jpeg\|jpg\|png/` matches only strings of at least three characters |
| UploadFilter.FileFilter | backend/server.js:77-86 | an upload is accepted only when its MIME type matches and its name has an extension |
| UploadFilter.AcceptsUpperCaseExtension | backend/server.js:77-83 | the extension is lower-cased before matching, so "image/png" with "x.PNG" passes |
| UploadFilter.AcceptsExtensionContainingPng | backend/server.js:78-83 | the pattern need only occur inside the extension: ".pngx" passes |
| UploadFilter.RejectsUpperCaseMime | backend/server.js:79 | the MIME type is not lower-cased: "IMAGE/PNG" does not match |
| UploadFilter.RejectsNameWithoutDot | backend/server.js:80-85 | a name with no '.' has no extension and is refused whatever its MIME type |
| UploadFilter.RejectsDotFile | backend/server.js:80-85 | a dot-file such as ".png" has no extension and is refused |
| UpdateQuery.AssignmentsShape | backend/server.js:407-423 | a column is set exactly when its value is truthy, with that value, in the order username, status, profile_picture; nothing is set exactly when no value is truthy |
| UpdateQuery.BuildUpdate | backend/server.js:403-432 | clause i is "column = $i" for the i-th assignment; the parameters are the assigned values followed by the user id; the final count is the number of assignments plus one; with nothing to assign the statement reads "UPDATE users SET  WHERE id = $1 ...", which the database refuses |
| UpdateQuery.PlaceholdersDistinct | backend/server.js:405-430 | different counts give different placeholders, so each parameter binds once |
| UpdateQuery.SqlText | backend/server.js:427-432 | the statement ends with the WHERE clause on the last placeholder number; it starts with the first clause, and with no clause the SET list is empty |
| Tables.FindByEmail | backend/server.js:106 | finds a row with the email exactly when one exists |
| Tables.FindById | backend/server.js:150 | finds a row with the id exactly when one exists |
| Tables.FindByEmailUnique | backend/server.js:128-129 | with unique emails the row found by an email is the only row with it |
| Tables.FindByIdUnique | backend/server.js:149-158 | with unique ids the row found by an id is the only row with it |
| Tables.PairRows | backend/server.js:178-185 | the friendship query returns exactly the rows linking the two ids in either column order; it is empty exactly when they are not friends |
| Tables.PairRowsSymmetric | backend/server.js:178-183 | the friendship query gives the same rows whichever party asks |
| Tables.AppendKeepsOnePerPair | backend/server.js:296-305 | inserting a row for a pair with none keeps at most one row per unordered pair |
| Tables.OnePerPairAtMostOneRow | backend/server.js:289-298 | with one row per pair the friendship query never returns more than one row |
| Tables.Conversation | backend/server.js:238-239 | returns exactly the messages sent between the two ids in either direction |
| Tables.ConversationSymmetric | backend/server.js:238-239 | both parties get the same conversation in the same order |
| Tables.ConversationAppend | backend/server.js:192-194 | a new message joins the end of its own pair's conversation and no other |
| Tables.ConversationSorted | backend/server.js:240 | filtering a table in sent_at order keeps sent_at order |
| Tables.Joined | backend/server.js:196-204 | the join yields a row exactly when both parties have user rows; the row keeps the message and carries both parties' usernames and stored pictures |
| Tables.JoinAll | backend/server.js:230-237 | every listed row is the join of one of the input messages, with both parties present; every message with both parties present is listed |
| Tables.JoinAllSorted | backend/server.js:230-240 | the join keeps sent_at order |
| Tables.JoinAllAppend | backend/server.js:190-204 | joining a table with one more row adds that row's join at the end |
| Tables.FriendsOf | backend/server.js:319-330 | lists exactly the users linked to the id through either column, each once when ids are unique |
| Server.HistoryExact | backend/server.js:227-251 | each listed entry is the normalised join of a message between the two ids whose parties are both registered, and every such message is listed |
| Server.History | backend/server.js:227-251 | the listing is no longer than the table and holds only messages between the two ids |
| Server.BroadcastView | backend/server.js:208-214 | the broadcast keeps the message and both usernames and normalises both pictures for the broadcast |
| Server.HistoryView | backend/server.js:245-251 | a listed message keeps the message and both usernames and normalises both pictures (corrected normaliser) |
| Server.ProfileView | backend/server.js:150-163 | the profile keeps id, username, email and status and normalises the picture as `GET /profile` does |
| Server.FriendView | backend/server.js:320-338 | a listed friend keeps id, username, email and status and normalises the picture as `GET /friends/:userId` does |
| Server.HistorySymmetric | backend/server.js:238-241 | listing (a, b) equals listing (b, a), same set and same order |
| Server.HistorySorted | backend/server.js:240 | the listing is in non-decreasing sent_at order |
| Server.HistoryAppend | backend/server.js:190-251 | a new message adds its hydrated view at the end of its own pair's listing only |
| Server.FriendsListExact | backend/server.js:319-338 | every user linked to u appears, nobody else does, and no id appears twice |
| Server.FriendshipMutual | backend/server.js:328-329 | whoever lists w as a friend is listed by w too |
| Server.StoredPicture | backend/server.js:398-400 | with an upload the stored picture is "http://localhost:8001/uploads/" plus the timestamped file name; without one nothing is stored |
| Server.UploadRejected | backend/server.js:72-86 | only a present file is refused; a file that passes is at most 5 MB and has an extension |
| Server.AppendUserKeepsKeys | backend/server.js:106-113 | inserting a row with the next id and an unused email keeps ids and emails unique, and the email then finds the new row |
| Server.UpdateRows | backend/server.js:427-434 | the UPDATE rewrites the rows with the id and keeps every other row; ids, emails and hashes never change |
| Server.UpdateRowsFound | backend/server.js:434-441 | after the update the row is found with its new values, and ids stay unique |
| Server.UpdateRowsKeepsKeys | backend/server.js:427-431 | the update keeps ids and emails unique |
| Server.Store.constructor | backend/server.js:40-42 | the database the pool opens starts with empty users, friends and messages tables and both id serials at 1 |
| Server.Store.Signup | backend/server.js:101-120 | a missing field gives 400 "All fields are required" and a taken email gives 400 "Email already in use", both leaving the store unchanged; otherwise one row with the next id and the hashed password is appended and returned with 201, and emails stay unique |
| Server.Store.Login | backend/server.js:123-144 | missing fields give 400; success comes exactly when a row with the email matches the password, and then the token signs that row's id and username; all other failures give 400 "Invalid email or password" |
| Server.Store.GetProfile | backend/server.js:147-170 | 401 on a failed check; 200 exactly when the caller's id has a row, with that row's public fields and normalised picture; otherwise 404 "User not found" |
| Server.Store.CreateMessage | backend/server.js:173-224 | 401 on a failed check; 403 "Not friends with this user" with nothing stored when no friends row links the pair in either order; otherwise exactly one row (next id, caller, receiver, content, clock) is appended; with both parties present the answer is 201 with the hydrated row, which is also the broadcast, and otherwise 500 with no broadcast |
| Server.Store.ListConversation | backend/server.js:227-258 | 401 on a failed check; otherwise 200 with the listing for the caller and the friend, in sent_at order, holding exactly the joined messages between them |
| Server.Store.AddFriend | backend/server.js:272-312 | 401 on a failed check; an unknown email gives 404 and an existing pair in either order gives 400 "Friendship already exists", both leaving the store unchanged; otherwise exactly one (caller, target, 'accepted') row is appended, keeping one row per pair |
| Server.Store.ListFriends | backend/server.js:315-348 | 401 on a failed check; otherwise 200 with every user linked to the path's id through either column, each once, with normalised pictures |
| Server.Store.WriteProfile | backend/server.js:403-443 | nothing truthy to set gives 500 "Failed to update profile"; a missing row gives 404; otherwise the row is updated and returned, and nothing else changes |
| Server.Store.UpdateProfile | backend/server.js:391-448 | 401 on a failed check; a file the filter refuses, or one over 5 MB, gives 500 "Server error"; otherwise the handler writes the truthy username, status and uploaded picture URL as above |
| ChatClient.TruncateStatus | frontend/src/components/ChatComponent.jsx:29-32 | a falsy status gives ''; one of at most maxLength characters is kept; a longer one gives its first maxLength characters plus "...", maxLength + 3 in all; maxLength defaults to 20 |
| ChatClient.ReceiveMessage | frontend/src/components/ChatComponent.jsx:115-130 | a known id leaves the list unchanged, and so does a message not between the user and the selected friend; a new relevant message is appended, keeping all earlier entries in order, and the length grows by one |
| ChatClient.ReceiveKeepsUniqueIds | frontend/src/components/ChatComponent.jsx:117-127 | unique ids stay unique; afterwards the id is present exactly when it was already there or the message is relevant |
| ChatClient.ReceiveIdempotent | frontend/src/components/ChatComponent.jsx:117-119 | receiving the same message twice equals receiving it once |
| ChatClient.RelevantIffBetweenParties | frontend/src/components/ChatComponent.jsx:122-124 | a message is relevant exactly when it went between the user and the selected friend in either direction |
| ChatClient.BothPartiesReceive | frontend/src/components/ChatComponent.jsx:122-127 | sender and receiver, each with the other's chat open, both append the broadcast |
| ChatClient.Find | frontend/src/components/ChatComponent.jsx:86 | finds an entry with the id exactly when one exists |
| ChatClient.FindFirst | frontend/src/components/ChatComponent.jsx:86 | `find` returns the first entry with the id |
| ChatClient.RefreshSelected | frontend/src/components/ChatComponent.jsx:85-90 | no selection stays none; otherwise the selection keeps its id, is the fetched entry with that id when there is one, and is kept as it was when there is none |
| ChatClient.RefreshSelectedIdempotent | frontend/src/components/ChatComponent.jsx:85-90 | refreshing twice with the same data equals refreshing once |
| ChatClient.ErrorText | frontend/src/components/ChatComponent.jsx:261 | the server's error text when it is non-empty, and exactly the fallback when it is empty |
| ChatClient.StatusText | frontend/src/components/ChatComponent.jsx:78 | `${status}` is never empty and is the decimal digits of a non-negative status |
| ChatClient.ChatView.constructor | frontend/src/components/ChatComponent.jsx:12-21 | the initial state: no friends, no selection, no messages, empty inputs and error, add-friend form hidden |
| ChatClient.ChatView.SelectFriend | frontend/src/components/ChatComponent.jsx:403 | a click selects the friend and changes nothing else |
| ChatClient.ChatView.MessagesFetched | frontend/src/components/ChatComponent.jsx:176-183 | a successful fetch replaces the messages; a failed one changes nothing |
| ChatClient.ChatView.OnReceiveMessage | frontend/src/components/ChatComponent.jsx:114-131 | the messages become the updater's result and keep unique ids |
| ChatClient.ChatView.FriendsFetched | frontend/src/components/ChatComponent.jsx:70-93 | success replaces the friends, clears the error and refreshes the selection; failure shows the server's error or "Failed to fetch friends: " plus the status |
| ChatClient.ChatView.AddFriend | frontend/src/components/ChatComponent.jsx:233-287 | a whitespace-only email shows "Please enter an email address" and sends nothing; otherwise the typed email is sent untrimmed; a refusal shows the server's error or "Failed to add friend"; a failed refresh shows "Failed to refresh friends list"; success replaces the friends, clears the input and error, and hides the form |
| ChatClient.ChatView.SendMessage | frontend/src/components/ChatComponent.jsx:290-315 | whitespace-only text or no selected friend changes nothing and sends nothing; otherwise the text goes to the selected friend, and success clears the input while failure shows "Failed to send message" |
| ProfileForm.OrEmpty | frontend/src/components/ProfileComponent.jsx:8-10 | `x \|\| ''` is the value when truthy and '' otherwise |
| ProfileForm.InitialProfile | frontend/src/components/ProfileComponent.jsx:7-11 | a missing or empty username, status or picture starts as '' |
| ProfileForm.CheckImage | frontend/src/components/ProfileComponent.jsx:19-28 | a type not starting with "image/" is refused as not an image; "image/heic", or a name ending in ".heic" in any case, is refused as HEIC; everything else is accepted |
| ProfileForm.HeicNameRefused | frontend/src/components/ProfileComponent.jsx:25-27 | the name test is case-blind: "x.HEIC" is refused under any image type |
| ProfileForm.FormEntries | frontend/src/components/ProfileComponent.jsx:44-54 | at most three entries, drawn from username, status and profile_picture, appended in that order |
| ProfileForm.FormRoundTrip | frontend/src/components/ProfileComponent.jsx:46-54 | the server reads back username and status exactly when they were non-empty, and the chosen file |
| ProfileForm.SubmittedFieldsTruthy | frontend/src/components/ProfileComponent.jsx:46-51 | a field reaching the server is truthy exactly when the input was non-empty |
| ProfileForm.EmptyFormSetsNothing | frontend/src/components/ProfileComponent.jsx:46-54 | an empty form without a file leaves the server's UPDATE nothing to set |
| ProfileForm.Outcome | frontend/src/components/ProfileComponent.jsx:70-81 | the profile is saved exactly on an ok answer, with the answer's body; otherwise the error is the server's or the exception's text when that is non-empty, and exactly "Failed to update profile" when it is empty |
| ProfileForm.ProfileEditor.constructor | frontend/src/components/ProfileComponent.jsx:7-13 | the fields start from the user's values or '', with no file and no error |
| ProfileForm.ProfileEditor.HandleImageChange | frontend/src/components/ProfileComponent.jsx:15-38 | no file changes nothing; a refused file sets the refusal text and keeps the earlier file; an accepted file becomes the image file and starts a preview |
| ProfileForm.ProfileEditor.PreviewLoaded | frontend/src/components/ProfileComponent.jsx:33-35 | the preview replaces only the shown picture |
| ProfileForm.ProfileEditor.EditUsername | frontend/src/components/ProfileComponent.jsx:124 | typing replaces only the username |
| ProfileForm.ProfileEditor.EditStatus | frontend/src/components/ProfileComponent.jsx:133 | typing replaces only the status |
| ProfileForm.ProfileEditor.HandleSubmit | frontend/src/components/ProfileComponent.jsx:40-83 | the form sent is the one built from the fields and file; an ok answer hands its profile to onUpdate before onClose; otherwise the outcome's error is shown |
| ClientServer.UploadPicturesAgree | backend/server.js:208-214 | for a picture the update route stores, the broadcast and the corrected listing agree |
| ClientServer.UpdateStoresUploadShape | backend/server.js:398-400 | every picture the update route stores has that shape when the file name has no '/' |
| ClientServer.LiveViewMatchesReload | frontend/src/components/ChatComponent.jsx:115-130 | with the corrected listing normaliser, and ties in sent_at listed in table order: a chat showing the server's listing that receives the broadcast of a new message between its parties equals the listing after the insert |
| ClientServer.UnchangedSaveKeepsRow | frontend/src/components/ProfileComponent.jsx:7-54 | saving the editor unchanged makes the update leave the user's row as it was |
| ClientServer.GifAcceptedByClientRefusedByServer | frontend/src/components/ProfileComponent.jsx:19-30 | a GIF passes the editor's check but multer's filter refuses it |
| Scenarios.StrangersAreRefused | backend/server.js:173-187 | between strangers a message gets 403 with no row stored and nothing broadcast, and the sender can then add the receiver by email |
| Scenarios.MessageReachesReceiver | backend/server.js:173-219 | between friends the same request gets 201 with the sender, receiver and text; the broadcast carries the same message, and the receiver's open chat appends it |
| Scenarios.BothPartiesListTheMessage | backend/server.js:227-258 | after one message both parties' listings hold exactly that message and are equal |
| Scenarios.AddFriendErrors | backend/server.js:272-312 | an unknown email gives 404 with no row; adding twice, or in the reverse order, gives 400 and one row remains |

## Findings

| source | as written | input that shows it | evidently intended | confidence | as-written member | corrected member |
|---|---|---|---|---|---|---|
| backend/server.js:247-250 | `GET /messages/:friendId` puts "http://localhost:8001" in front of every truthy stored picture | a party whose stored picture is "http://localhost:8001/uploads/1-a.png", which is what `PUT /profile/update` stores (backend/server.js:399), is listed as "http://localhost:8001http://localhost:8001/uploads/1-a.png", while the broadcast of the same message gives "http://localhost:8001/uploads/1-a.png" | keep a value that is already a URL, as `GET /profile` does (backend/server.js:161-163), so that the listing and the live message show the same picture | not executed | Pictures.HistoryPictureAsWrittenDoublesHost | Pictures.HistoryMatchesBroadcastForUrl |

## Left out

- I/O and the database driver: HTTP, Express, JSON parsing and the `pg` pool are not modelled. The tables are sequences, and each SQL statement is the function over them that it computes.
- Database failures: the `catch` branches that answer 500 "Server error" after a failed query are left out. The model keeps only the 500s the code itself causes: a missing join row, the empty UPDATE, and multer's errors.
- Foreign libraries: `jsonwebtoken`, `bcryptjs` and multer's storage are parameters or left out. The seven-day expiry belongs to `sign`.
- Request bodies of the wrong type: the signup, login and add-friend fields, and the profile fields, are modelled as strings, absent or present. `Server.Store.CreateMessage` takes `receiver_id` as an integer and `content` as a string, always present. So a request without `receiver_id` cannot be expressed; the source answers it with 403 because no friends row matches. Neither can a request without `content`, which the database would refuse. A JSON number, object or array where a string is expected is not modelled. Neither is a non-numeric `:friendId` or `:userId`, which the database would refuse.
- The socket.io connection handler (backend/server.js:361-379): it only tags the socket with the token's id, and the server keeps no registry. The broadcast appears as the second result of `CreateMessage`.
- Concurrency: the model is sequential. The race between the friendship or duplicate check and the insert is out of scope.
- `GET /friends` (backend/server.js:261-269): it calls an undefined function without the authentication middleware.
- `GET /debug/friends`, `GET /`, `GET /health`, the uploads static route, startup logging, and the Spotify routes (backend/server.js:351-358, 381-388, 450-456, 468-553): none is part of the chat core.
- The global error handler (backend/server.js:459-466): only its status and `error` text are modelled. Its `message` and `stack` fields are not.
- Multer's other errors, such as "Unexpected field", and the writing of the file to disk: out of scope. `Date.now()` is the `stamp` parameter.
- Server.Store.ListConversation: pictures are listed with the corrected normaliser `Pictures.HistoryPicture`, not the code at backend/server.js:247-250. That code puts the host in front of a full URL a second time; `Pictures.HistoryPictureAsWritten` models it, and Findings gives the input.
- Server.Store.ListConversation: messages with equal `sent_at` are listed in insertion order, so the result is one exact sequence. `ORDER BY sent_at ASC` lets PostgreSQL order ties in any way. `Server.HistorySymmetric` and `ClientServer.LiveViewMatchesReload` rely on this fixed tie order.
- Server.Store.CreateMessage: `sent_at` is the database clock advanced by `elapsed`, not wall time.
- ChatClient.TruncateStatus: lengths count Dafny characters, not JavaScript's UTF-16 code units.
- UploadFilter.FileFilter: `toLowerCase()` lowers ASCII letters only.
- UploadFilter.ExtName: this is Node's `path.extname` on POSIX paths. That function is not part of this model's source; its documented rules are used.
- ChatClient.ChatView.FriendsFetched: the early returns for an unmounted component, a missing user id or a missing token are not modelled. Neither is the fallback for an unparsable error body.
- ChatClient.ChatView.SendMessage: network exceptions, whose message could differ from "Failed to send message", are not modelled. The same holds for `AddFriend`'s two fetches and the message fetch.
- React rendering, effects and their dependency lists, stale closures, the 30-second polling, scroll timers, `localStorage`, toasts and routing are not modelled. The handlers are methods that take the server's answer as a parameter.
