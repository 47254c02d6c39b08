/**
 * The routes of backend/server.js over the `users`, `friends` and `messages` tables, held as
 * in-memory state. Read-only routes are functions of the store; routes that insert or update
 * rows are methods.
 */
module Server {
  import opened Common
  import opened Text
  import opened Rows
  import opened Auth
  import opened Tables
  import opened Pictures
  import opened UpdateQuery
  import opened UploadFilter

  const AllFieldsRequired := "All fields are required"
  const EmailInUse := "Email already in use"
  const InvalidCredentials := "Invalid email or password"
  const UserNotFound := "User not found"
  const NotFriends := "Not friends with this user"
  const ServerError := "Server error"
  const FriendshipExists := "Friendship already exists"
  const FriendAdded := "Friend added successfully"
  const UpdateFailed := "Failed to update profile"
  const Accepted := "accepted"

  /** The file multer receives under `profile_picture`: its original name, MIME type and size in bytes. */
  datatype Upload = Upload(originalName: string, mimeType: string, size: nat)

  /** The message `POST /messages` answers with and broadcasts. */
  function BroadcastView(h: HydratedMessage): (r: HydratedMessage)
    ensures Core(r) == Core(h) && r.senderUsername == h.senderUsername && r.receiverUsername == h.receiverUsername
    ensures r.senderPicture == BroadcastPicture(h.senderPicture) && r.receiverPicture == BroadcastPicture(h.receiverPicture)
  {
    h.(senderPicture := BroadcastPicture(h.senderPicture), receiverPicture := BroadcastPicture(h.receiverPicture))
  }

  /** A message as `GET /messages/:friendId` lists it. */
  function HistoryView(h: HydratedMessage): (r: HydratedMessage)
    ensures Core(r) == Core(h) && r.senderUsername == h.senderUsername && r.receiverUsername == h.receiverUsername
    ensures r.senderPicture == HistoryPicture(h.senderPicture) && r.receiverPicture == HistoryPicture(h.receiverPicture)
  {
    h.(senderPicture := HistoryPicture(h.senderPicture), receiverPicture := HistoryPicture(h.receiverPicture))
  }

  /** The profile `GET /profile` answers with. */
  function ProfileView(u: User): (r: PublicUser)
    ensures r.id == u.id && r.username == u.username && r.email == u.email && r.status == u.status
    ensures r.profilePicture == ProfilePicture(u.profilePicture)
  {
    Public(u).(profilePicture := ProfilePicture(u.profilePicture))
  }

  /** A friend as `GET /friends/:userId` lists it. */
  function FriendView(u: User): (r: PublicUser)
    ensures r.id == u.id && r.username == u.username && r.email == u.email && r.status == u.status
    ensures r.profilePicture == FriendPicture(u.profilePicture)
  {
    Public(u).(profilePicture := FriendPicture(u.profilePicture))
  }

  /** The listing of `GET /messages/:friendId` for the pair `a`, `b`. */
  function History(users: seq<User>, messages: seq<Message>, a: int, b: int): (r: seq<HydratedMessage>)
    ensures |r| <= |messages|
    ensures forall h :: h in r ==> Between(Core(h), a, b)
  {
    HistoryViews(JoinAll(users, Conversation(messages, a, b)))
  }

  /** `result.rows.map(...)` over the joined rows. */
  function HistoryViews(j: seq<HydratedMessage>): (r: seq<HydratedMessage>)
    ensures |r| == |j| && forall i :: 0 <= i < |j| ==> r[i] == HistoryView(j[i])
  {
    seq(|j|, i requires 0 <= i < |j| => HistoryView(j[i]))
  }

  lemma HistoryViewsAppend(j: seq<HydratedMessage>, extra: seq<HydratedMessage>)
    ensures HistoryViews(j + extra) == HistoryViews(j) + HistoryViews(extra)
  {
  }

  /**
   * The listing holds exactly the messages between `a` and `b` whose two parties are both
   * registered, each with both parties' names and normalised pictures.
   */
  lemma HistoryExact(users: seq<User>, messages: seq<Message>, a: int, b: int)
    ensures forall h :: h in History(users, messages, a, b) ==>
      exists m :: m in messages && Between(m, a, b) && Joined(users, m).Some? && h == HistoryView(Joined(users, m).value)
    ensures forall m :: m in messages && Between(m, a, b) && Joined(users, m).Some? ==>
      HistoryView(Joined(users, m).value) in History(users, messages, a, b)
  {
    var c := Conversation(messages, a, b);
    var j := JoinAll(users, c);
    var hs := History(users, messages, a, b);
    forall h | h in hs
      ensures exists m :: m in messages && Between(m, a, b) && Joined(users, m).Some? && h == HistoryView(Joined(users, m).value)
    {
      var k :| 0 <= k < |hs| && hs[k] == h;
      assert j[k] in j;
      var m := Core(j[k]);
      assert m in c && Joined(users, m) == Some(j[k]);
      assert m in messages && Between(m, a, b) && h == HistoryView(Joined(users, m).value);
    }
    forall m | m in messages && Between(m, a, b) && Joined(users, m).Some?
      ensures HistoryView(Joined(users, m).value) in hs
    {
      assert m in c;
      var k :| 0 <= k < |j| && j[k] == Joined(users, m).value;
      assert hs[k] == HistoryView(j[k]);
    }
  }

  /** Both parties of a conversation get the same listing, in the same order. */
  lemma HistorySymmetric(users: seq<User>, messages: seq<Message>, a: int, b: int)
    ensures History(users, messages, a, b) == History(users, messages, b, a)
  {
    ConversationSymmetric(messages, a, b);
  }

  /** A new message row adds its hydrated view at the end of its own pair's listing and nowhere else. */
  lemma HistoryAppend(users: seq<User>, ms: seq<Message>, m: Message, a: int, b: int)
    ensures History(users, ms + [m], a, b) == History(users, ms, a, b) +
      (if Between(m, a, b) && Joined(users, m).Some? then [HistoryView(Joined(users, m).value)] else [])
  {
    var c := Conversation(ms, a, b);
    ConversationAppend(ms, m, a, b);
    if Between(m, a, b) {
      JoinAllAppend(users, c, m);
      var j := JoinAll(users, c);
      if Joined(users, m).Some? {
        var h := Joined(users, m).value;
        assert JoinAll(users, c + [m]) == j + [h];
        HistoryViewsAppend(j, [h]);
        assert HistoryViews([h]) == [HistoryView(h)];
      } else {
        assert JoinAll(users, c + [m]) == j + [] == j;
      }
    } else {
      assert Conversation(ms + [m], a, b) == c + [] == c;
    }
  }

  /** Over a table in `sent_at` order the listing is in non-decreasing `sent_at` order. */
  lemma HistorySorted(users: seq<User>, messages: seq<Message>, a: int, b: int)
    requires SortedBySentAt(messages)
    ensures HydratedSorted(History(users, messages, a, b))
  {
    ConversationSorted(messages, a, b);
    JoinAllSorted(users, Conversation(messages, a, b));
  }

  /** The listing of `GET /friends/:userId` for user `u`. */
  function FriendsList(users: seq<User>, friends: seq<FriendRow>, u: int): seq<PublicUser> {
    var fs := FriendsOf(users, friends, u);
    seq(|fs|, i requires 0 <= i < |fs| => FriendView(fs[i]))
  }

  ghost predicate DistinctIds(vs: seq<PublicUser>) {
    forall i, j :: 0 <= i < j < |vs| ==> vs[i].id != vs[j].id
  }

  /** Every user linked to `u` through either column appears, nobody else does, and none twice. */
  lemma FriendsListExact(users: seq<User>, friends: seq<FriendRow>, u: int)
    requires UniqueIds(users)
    ensures forall w :: w in users && AreFriends(friends, u, w.id) ==> FriendView(w) in FriendsList(users, friends, u)
    ensures forall v :: v in FriendsList(users, friends, u) ==>
      exists w :: w in users && AreFriends(friends, u, w.id) && v == FriendView(w)
    ensures DistinctIds(FriendsList(users, friends, u))
  {
    var fs := FriendsOf(users, friends, u);
    var vs := FriendsList(users, friends, u);
    forall w | w in users && AreFriends(friends, u, w.id) ensures FriendView(w) in vs {
      var k :| 0 <= k < |fs| && fs[k] == w;
      assert vs[k] == FriendView(w);
    }
    forall v | v in vs ensures exists w :: w in users && AreFriends(friends, u, w.id) && v == FriendView(w) {
      var k :| 0 <= k < |vs| && vs[k] == v;
      assert fs[k] in fs;
    }
    assert DistinctIds(vs) by {
      forall i, j | 0 <= i < j < |vs| ensures vs[i].id != vs[j].id {
        assert vs[i].id == fs[i].id && vs[j].id == fs[j].id;
      }
    }
  }

  /** Friendship is mutual: whoever lists `w` as a friend is listed by `w` too. */
  lemma FriendshipMutual(users: seq<User>, friends: seq<FriendRow>, me: User, w: User)
    requires UniqueIds(users) && me in users && w in users
    requires FriendView(w) in FriendsList(users, friends, me.id)
    ensures FriendView(me) in FriendsList(users, friends, w.id)
  {
    FriendsListExact(users, friends, me.id);
    FriendsListExact(users, friends, w.id);
    var w' :| w' in users && AreFriends(friends, me.id, w'.id) && FriendView(w) == FriendView(w');
    assert w'.id == w.id;
    AreFriendsSymmetric(friends, me.id, w.id);
  }

  /** multer refuses the upload: the file filter rejects it or it exceeds the size limit. */
  predicate UploadRejected(upload: Option<Upload>)
    ensures UploadRejected(upload) ==> upload.Some?
    ensures upload.Some? && !UploadRejected(upload) ==>
      upload.value.size <= MaxFileSize && ExtName(upload.value.originalName) != ""
  {
    upload.Some? && (!FileFilter(upload.value.mimeType, upload.value.originalName) || upload.value.size > MaxFileSize)
  }

  /** The picture URL `PUT /profile/update` stores: the upload's URL, or nothing without an upload. */
  function StoredPicture(upload: Option<Upload>, stamp: nat): (p: Option<string>)
    ensures upload.None? <==> !Truthy(p)
    ensures upload.Some? ==> p == Some(UploadsBase + (Decimal(stamp) + "-" + upload.value.originalName))
  {
    if upload.Some? then Some(UploadedPictureUrl(StoredFilename(stamp, upload.value.originalName))) else None
  }

  /** The columns `PUT /profile/update` writes: each truthy value replaces the stored one. */
  function SetProfile(u: User, username: Option<string>, status: Option<string>, picture: Option<string>): User {
    u.(username := if Truthy(username) then username.value else u.username,
       status := if Truthy(status) then status else u.status,
       profilePicture := if Truthy(picture) then picture else u.profilePicture)
  }

  /** `UPDATE users SET ... WHERE id = $n`: every row with the id is rewritten, the rest are kept. */
  function UpdateRows(users: seq<User>, id: int, username: Option<string>, status: Option<string>,
                      picture: Option<string>): (r: seq<User>)
    ensures |r| == |users|
    ensures forall i :: 0 <= i < |r| ==>
      r[i].id == users[i].id && r[i].email == users[i].email && r[i].password == users[i].password
    ensures forall i :: 0 <= i < |r| && users[i].id != id ==> r[i] == users[i]
    ensures forall i :: 0 <= i < |r| && users[i].id == id ==> r[i] == SetProfile(users[i], username, status, picture)
  {
    seq(|users|, i requires 0 <= i < |users| =>
      if users[i].id == id then SetProfile(users[i], username, status, picture) else users[i])
  }

  /** After the update the row is found with its new values; no other row changes. */
  lemma UpdateRowsFound(users: seq<User>, id: int, username: Option<string>, status: Option<string>,
                        picture: Option<string>)
    requires UniqueIds(users) && Registered(users, id)
    ensures UniqueIds(UpdateRows(users, id, username, status, picture))
    ensures FindById(UpdateRows(users, id, username, status, picture), id)
      == Some(SetProfile(FindById(users, id).value, username, status, picture))
  {
    var r := UpdateRows(users, id, username, status, picture);
    var u := FindById(users, id).value;
    var k :| 0 <= k < |users| && users[k] == u;
    assert r[k] == SetProfile(u, username, status, picture);
    assert r[k] in r;
    FindByIdUnique(r, r[k]);
  }

  /** The update keeps ids unique, emails unique and every id below the serial's next value. */
  lemma UpdateRowsKeepsKeys(users: seq<User>, id: int, username: Option<string>, status: Option<string>,
                            picture: Option<string>, nextId: int)
    requires UniqueIds(users) && UniqueEmails(users) && forall u :: u in users ==> u.id < nextId
    ensures var r := UpdateRows(users, id, username, status, picture);
      UniqueIds(r) && UniqueEmails(r) && forall v :: v in r ==> v.id < nextId
  {
    var r := UpdateRows(users, id, username, status, picture);
    forall v | v in r ensures v.id < nextId {
      var k :| 0 <= k < |r| && r[k] == v;
      assert users[k] in users;
    }
  }

  /** With unique emails every registered email leads to its own row. */
  lemma FindByEmailAll(users: seq<User>)
    requires UniqueEmails(users)
    ensures forall u :: u in users ==> FindByEmail(users, u.email) == Some(u)
  {
    forall u | u in users ensures FindByEmail(users, u.email) == Some(u) {
      FindByEmailUnique(users, u);
    }
  }

  lemma FindByIdAll(users: seq<User>)
    requires UniqueIds(users)
    ensures forall u :: u in users ==> FindById(users, u.id) == Some(u)
  {
    forall u | u in users ensures FindById(users, u.id) == Some(u) {
      FindByIdUnique(users, u);
    }
  }

  /** Appending a row with a fresh id and an unused email keeps both keys unique. */
  lemma AppendUserKeepsKeys(users: seq<User>, u: User, nextId: int)
    requires UniqueIds(users) && UniqueEmails(users) && forall v :: v in users ==> v.id < nextId
    requires u.id == nextId && !EmailTaken(users, u.email)
    ensures UniqueIds(users + [u]) && UniqueEmails(users + [u])
    ensures forall v :: v in users + [u] ==> v.id < nextId + 1
    ensures FindByEmail(users + [u], u.email) == Some(u)
  {
    var r := users + [u];
    forall i, j | 0 <= i < j < |r| ensures r[i].id != r[j].id && r[i].email != r[j].email {
      if j == |users| {
        assert r[i] in users;
      }
    }
    FindByEmailAll(r);
  }

  ghost predicate UniqueMessageIds(ms: seq<Message>) {
    forall i, j :: 0 <= i < j < |ms| ==> ms[i].id != ms[j].id
  }

  /** The three tables and the serials and clock the database keeps for them. */
  class Store {
    var users: seq<User>
    var friends: seq<FriendRow>
    var messages: seq<Message>
    /** The next value of the `users.id` serial. */
    var nextUserId: int
    /** The next value of the `messages.id` serial. */
    var nextMessageId: int
    /** The database clock that `sent_at` defaults to; it never runs backwards. */
    var clock: int

    /**
     * What the routes keep: ids and emails are unique, every friends row is 'accepted' and no
     * pair has two rows in either ordering, message ids are unique and the table is in
     * `sent_at` order.
     */
    ghost predicate Valid()
      reads this
    {
      && UniqueIds(users)
      && UniqueEmails(users)
      && (forall u :: u in users ==> u.id < nextUserId)
      && (forall f :: f in friends ==> f.status == Accepted)
      && OnePerPair(friends)
      && UniqueMessageIds(messages)
      && (forall m :: m in messages ==> m.id < nextMessageId && m.sentAt <= clock)
      && SortedBySentAt(messages)
    }

    constructor ()
      ensures Valid()
      ensures users == [] && friends == [] && messages == []
      ensures nextUserId == 1 && nextMessageId == 1 && clock == 0
    {
      users := [];
      friends := [];
      messages := [];
      nextUserId := 1;
      nextMessageId := 1;
      clock := 0;
    }

    /** `POST /auth/signup`. `hash` stands for `bcrypt.hash` with 10 rounds. */
    method Signup(username: Option<string>, email: Option<string>, password: Option<string>,
                  hash: string -> string) returns (r: Reply<User>)
      requires Valid()
      modifies this
      ensures Valid()
      ensures !(Truthy(username) && Truthy(email) && Truthy(password)) ==>
        r == Fail(400, AllFieldsRequired) && unchanged(this)
      ensures Truthy(username) && Truthy(email) && Truthy(password) && EmailTaken(old(users), email.value) ==>
        r == Fail(400, EmailInUse) && unchanged(this)
      ensures Truthy(username) && Truthy(email) && Truthy(password) && !EmailTaken(old(users), email.value) ==>
        && r == Ok(201, User(old(nextUserId), username.value, email.value, hash(password.value), None, None))
        && users == old(users) + [r.body]
        && nextUserId == old(nextUserId) + 1
        && friends == old(friends) && messages == old(messages)
        && nextMessageId == old(nextMessageId) && clock == old(clock)
      ensures r.Ok? ==> FindByEmail(users, email.value) == Some(r.body)
    {
      if !Truthy(username) || !Truthy(email) || !Truthy(password) {
        return Fail(400, AllFieldsRequired);
      }
      if FindByEmail(users, email.value).Some? {
        return Fail(400, EmailInUse);
      }
      var u := User(nextUserId, username.value, email.value, hash(password.value), None, None);
      AppendUserKeepsKeys(users, u, nextUserId);
      users := users + [u];
      nextUserId := nextUserId + 1;
      r := Ok(201, u);
    }

    /**
     * `POST /auth/login`. `compare` stands for `bcrypt.compare` and `sign` for `jwt.sign`
     * with the process secret and a seven-day expiry.
     */
    function Login(email: Option<string>, password: Option<string>, compare: (string, string) -> bool,
                   sign: Claims -> string): (r: Reply<string>)
      reads this
      requires Valid()
      ensures !(Truthy(email) && Truthy(password)) ==> r == Fail(400, AllFieldsRequired)
      ensures Truthy(email) && Truthy(password) ==>
        (r.Ok? <==> exists u :: u in users && u.email == email.value && compare(password.value, u.password))
      ensures Truthy(email) && Truthy(password) && r.Fail? ==> r == Fail(400, InvalidCredentials)
      ensures r.Ok? ==>
        exists u :: u in users && u.email == email.value && compare(password.value, u.password) &&
                    r == Ok(200, sign(Claims(u.id, u.username)))
    {
      FindByEmailAll(users);
      if !Truthy(email) || !Truthy(password) then Fail(400, AllFieldsRequired)
      else
        match FindByEmail(users, email.value)
        case None => Fail(400, InvalidCredentials)
        case Some(u) =>
          if compare(password.value, u.password) then Ok(200, sign(Claims(u.id, u.username)))
          else Fail(400, InvalidCredentials)
    }

    /** `GET /profile`: the caller's own row, with its picture made a full URL. */
    function GetProfile(header: Option<string>, verify: string -> Option<Claims>): (r: Reply<PublicUser>)
      reads this
      requires Valid()
      ensures var a := Authenticate(header, verify);
        a.Denied? ==> r == Fail(401, a.error)
      ensures var a := Authenticate(header, verify);
        a.Authenticated? ==>
          && (r.Ok? <==> Registered(users, a.claims.id))
          && (r.Fail? ==> r == Fail(404, UserNotFound))
          && (r.Ok? ==> r.status == 200 && exists u :: u in users && u.id == a.claims.id && r.body == ProfileView(u))
    {
      match Authenticate(header, verify)
      case Denied(e) => Fail(401, e)
      case Authenticated(c) =>
        match FindById(users, c.id)
        case None => Fail(404, UserNotFound)
        case Some(u) => Ok(200, ProfileView(u))
    }

    /**
     * `POST /messages`. The message is inserted only between friends; `elapsed` is how far the
     * database clock has moved since the last call. The second result is what `io.emit` sends.
     * When a party has no user row, the insert has happened but the join yields no row and the
     * handler fails on it.
     */
    method CreateMessage(header: Option<string>, verify: string -> Option<Claims>, receiverId: int, content: string,
                         elapsed: nat) returns (r: Reply<HydratedMessage>, broadcast: Option<HydratedMessage>)
      requires Valid()
      modifies this
      ensures Valid()
      ensures var a := Authenticate(header, verify);
        a.Denied? ==> r == Fail(401, a.error) && broadcast == None && unchanged(this)
      ensures var a := Authenticate(header, verify);
        a.Authenticated? && !AreFriends(old(friends), a.claims.id, receiverId) ==>
          r == Fail(403, NotFriends) && broadcast == None && unchanged(this)
      ensures var a := Authenticate(header, verify);
        a.Authenticated? && AreFriends(old(friends), a.claims.id, receiverId) ==>
          var m := Message(old(nextMessageId), a.claims.id, receiverId, content, old(clock) + elapsed);
          && messages == old(messages) + [m]
          && nextMessageId == old(nextMessageId) + 1
          && clock == old(clock) + elapsed
          && users == old(users) && friends == old(friends) && nextUserId == old(nextUserId)
          && (Joined(users, m).Some? ==> r == Ok(201, BroadcastView(Joined(users, m).value)) && broadcast == Some(r.body))
          && (Joined(users, m).None? ==> r == Fail(500, ServerError) && broadcast == None)
      ensures r.Ok? ==> Core(r.body) == messages[|messages| - 1]
    {
      match Authenticate(header, verify)
      case Denied(e) =>
        r, broadcast := Fail(401, e), None;
      case Authenticated(c) =>
        if |PairRows(friends, c.id, receiverId)| == 0 {
          r, broadcast := Fail(403, NotFriends), None;
          return;
        }
        var m := Message(nextMessageId, c.id, receiverId, content, clock + elapsed);
        messages := messages + [m];
        nextMessageId := nextMessageId + 1;
        clock := clock + elapsed;
        match Joined(users, m)
        case None =>
          r, broadcast := Fail(500, ServerError), None;
        case Some(h) =>
          r := Ok(201, BroadcastView(h));
          broadcast := Some(r.body);
    }

    /** `GET /messages/:friendId`: the conversation between the caller and `friendId`. */
    function ListConversation(header: Option<string>, verify: string -> Option<Claims>, friendId: int)
      : (r: Reply<seq<HydratedMessage>>)
      reads this
      requires Valid()
      ensures var a := Authenticate(header, verify);
        a.Denied? ==> r == Fail(401, a.error)
      ensures var a := Authenticate(header, verify);
        a.Authenticated? ==> r == Ok(200, History(users, messages, a.claims.id, friendId))
      ensures r.Ok? ==> HydratedSorted(r.body)
      ensures var a := Authenticate(header, verify);
        r.Ok? ==> forall h :: h in r.body ==> Core(h) in messages && Between(Core(h), a.claims.id, friendId)
      ensures var a := Authenticate(header, verify);
        r.Ok? ==> forall m :: m in messages && Between(m, a.claims.id, friendId) && Joined(users, m).Some? ==>
          HistoryView(Joined(users, m).value) in r.body
    {
      match Authenticate(header, verify)
      case Denied(e) => Fail(401, e)
      case Authenticated(c) =>
        HistorySorted(users, messages, c.id, friendId);
        HistoryExact(users, messages, c.id, friendId);
        Ok(200, History(users, messages, c.id, friendId))
    }

    /** `POST /friends/add`: befriend the user registered under `email`. */
    method AddFriend(header: Option<string>, verify: string -> Option<Claims>, email: Option<string>)
      returns (r: Reply<string>)
      requires Valid()
      modifies this
      ensures Valid()
      ensures var a := Authenticate(header, verify);
        a.Denied? ==> r == Fail(401, a.error) && unchanged(this)
      ensures var a := Authenticate(header, verify);
        a.Authenticated? && !(email.Some? && EmailTaken(old(users), email.value)) ==>
          r == Fail(404, UserNotFound) && unchanged(this)
      ensures var a := Authenticate(header, verify);
        a.Authenticated? && email.Some? && EmailTaken(old(users), email.value) ==>
          var target := FindByEmail(old(users), email.value).value;
          && target in old(users) && target.email == email.value
          && (AreFriends(old(friends), a.claims.id, target.id) ==> r == Fail(400, FriendshipExists) && unchanged(this))
          && (!AreFriends(old(friends), a.claims.id, target.id) ==>
                && r == Ok(200, FriendAdded)
                && friends == old(friends) + [FriendRow(a.claims.id, target.id, Accepted)]
                && users == old(users) && messages == old(messages)
                && nextUserId == old(nextUserId) && nextMessageId == old(nextMessageId) && clock == old(clock))
    {
      match Authenticate(header, verify)
      case Denied(e) =>
        r := Fail(401, e);
      case Authenticated(c) =>
        var found := if email.Some? then FindByEmail(users, email.value) else None;
        if found.None? {
          return Fail(404, UserNotFound);
        }
        var friendId := found.value.id;
        if |PairRows(friends, c.id, friendId)| > 0 {
          return Fail(400, FriendshipExists);
        }
        AppendKeepsOnePerPair(friends, c.id, friendId, Accepted);
        friends := friends + [FriendRow(c.id, friendId, Accepted)];
        r := Ok(200, FriendAdded);
    }

    /**
     * `GET /friends/:userId`: the friends of `userId`, which need not be the caller; the token
     * only has to be valid.
     */
    function ListFriends(header: Option<string>, verify: string -> Option<Claims>, userId: int)
      : (r: Reply<seq<PublicUser>>)
      reads this
      requires Valid()
      ensures var a := Authenticate(header, verify);
        a.Denied? ==> r == Fail(401, a.error)
      ensures Authenticate(header, verify).Authenticated? ==> r == Ok(200, FriendsList(users, friends, userId))
      ensures r.Ok? ==> DistinctIds(r.body)
      ensures r.Ok? ==> forall w :: w in users && AreFriends(friends, userId, w.id) ==> FriendView(w) in r.body
      ensures r.Ok? ==> forall v :: v in r.body ==>
        exists w :: w in users && AreFriends(friends, userId, w.id) && v == FriendView(w)
    {
      match Authenticate(header, verify)
      case Denied(e) => Fail(401, e)
      case Authenticated(_) =>
        FriendsListExact(users, friends, userId);
        Ok(200, FriendsList(users, friends, userId))
    }

    /**
     * The handler body of `PUT /profile/update` for user `me`, once multer has stored any upload:
     * build the `UPDATE`, refuse an empty one, and rewrite the caller's row.
     */
    method WriteProfile(me: int, username: Option<string>, status: Option<string>, picture: Option<string>)
      returns (r: Reply<PublicUser>)
      requires Valid()
      modifies this
      ensures Valid()
      ensures !Truthy(username) && !Truthy(status) && !Truthy(picture) ==> r == Fail(500, UpdateFailed) && unchanged(this)
      ensures (Truthy(username) || Truthy(status) || Truthy(picture)) && !Registered(old(users), me) ==>
        r == Fail(404, UserNotFound) && unchanged(this)
      ensures (Truthy(username) || Truthy(status) || Truthy(picture)) && Registered(old(users), me) ==>
        var updated := SetProfile(FindById(old(users), me).value, username, status, picture);
        && users == UpdateRows(old(users), me, username, status, picture)
        && r == Ok(200, Public(updated))
        && FindById(users, me) == Some(updated)
        && friends == old(friends) && messages == old(messages)
        && nextUserId == old(nextUserId) && nextMessageId == old(nextMessageId) && clock == old(clock)
    {
      var q := BuildUpdate(username, status, picture, me);
      AssignmentsShape(username, status, picture);
      if |q.fields| == 0 {
        return Fail(500, UpdateFailed);
      }
      var found := FindById(users, me);
      if found.None? {
        return Fail(404, UserNotFound);
      }
      UpdateRowsFound(users, me, username, status, picture);
      UpdateRowsKeepsKeys(users, me, username, status, picture, nextUserId);
      users := UpdateRows(users, me, username, status, picture);
      r := Ok(200, Public(SetProfile(found.value, username, status, picture)));
    }

    /**
     * `PUT /profile/update`. `stamp` is the `Date.now()` multer's disk storage names the file with.
     * A rejected or oversized upload fails in multer before the handler runs.
     */
    method UpdateProfile(header: Option<string>, verify: string -> Option<Claims>, username: Option<string>,
                         status: Option<string>, upload: Option<Upload>, stamp: nat) returns (r: Reply<PublicUser>)
      requires Valid()
      modifies this
      ensures Valid()
      ensures var a := Authenticate(header, verify);
        a.Denied? ==> r == Fail(401, a.error) && unchanged(this)
      ensures Authenticate(header, verify).Authenticated? && UploadRejected(upload) ==>
        r == Fail(500, ServerError) && unchanged(this)
      ensures Authenticate(header, verify).Authenticated? && !UploadRejected(upload)
              && !Truthy(username) && !Truthy(status) && upload.None? ==>
        r == Fail(500, UpdateFailed) && unchanged(this)
      ensures var a := Authenticate(header, verify);
        a.Authenticated? && !UploadRejected(upload) && (Truthy(username) || Truthy(status) || upload.Some?) &&
        !Registered(old(users), a.claims.id) ==>
        r == Fail(404, UserNotFound) && unchanged(this)
      ensures var a := Authenticate(header, verify);
        a.Authenticated? && !UploadRejected(upload) && (Truthy(username) || Truthy(status) || upload.Some?) &&
        Registered(old(users), a.claims.id) ==>
        var updated := SetProfile(FindById(old(users), a.claims.id).value, username, status, StoredPicture(upload, stamp));
        && users == UpdateRows(old(users), a.claims.id, username, status, StoredPicture(upload, stamp))
        && r == Ok(200, Public(updated))
        && FindById(users, a.claims.id) == Some(updated)
        && friends == old(friends) && messages == old(messages)
        && nextUserId == old(nextUserId) && nextMessageId == old(nextMessageId) && clock == old(clock)
    {
      match Authenticate(header, verify)
      case Denied(e) =>
        r := Fail(401, e);
      case Authenticated(c) =>
        if UploadRejected(upload) {
          return Fail(500, ServerError);
        }
        var picture: Option<string> := None;
        if upload.Some? {
          picture := Some(UploadedPictureUrl(StoredFilename(stamp, upload.value.originalName)));
        }
        assert picture == StoredPicture(upload, stamp);
        r := WriteProfile(c.id, username, status, picture);
    }
  }
}
