/**
 * The SQL queries of backend/server.js as functions over the three tables, each held as a
 * sequence of rows in insertion order.
 */
module Tables {
  import opened Common
  import opened Rows

  predicate Registered(users: seq<User>, id: int) {
    exists u :: u in users && u.id == id
  }

  predicate EmailTaken(users: seq<User>, email: string) {
    exists u :: u in users && u.email == email
  }

  ghost predicate UniqueIds(users: seq<User>) {
    forall i, j :: 0 <= i < j < |users| ==> users[i].id != users[j].id
  }

  ghost predicate UniqueEmails(users: seq<User>) {
    forall i, j :: 0 <= i < j < |users| ==> users[i].email != users[j].email
  }

  /** `SELECT * FROM users WHERE email = $1`, first row. */
  function FindByEmail(users: seq<User>, email: string): (r: Option<User>)
    ensures r.Some? <==> EmailTaken(users, email)
    ensures r.Some? ==> r.value in users && r.value.email == email
  {
    if users == [] then None
    else if users[0].email == email then Some(users[0])
    else
      var r := FindByEmail(users[1..], email);
      assert forall u :: u in users[1..] ==> u in users;
      assert !EmailTaken(users[1..], email) && users[0].email != email ==> !EmailTaken(users, email) by {
        if EmailTaken(users, email) && users[0].email != email {
          var u :| u in users && u.email == email;
          assert u in users[1..];
        }
      }
      r
  }

  /** `... FROM users WHERE id = $1`, first row. */
  function FindById(users: seq<User>, id: int): (r: Option<User>)
    ensures r.Some? <==> Registered(users, id)
    ensures r.Some? ==> r.value in users && r.value.id == id
  {
    if users == [] then None
    else if users[0].id == id then Some(users[0])
    else
      var r := FindById(users[1..], id);
      assert forall u :: u in users[1..] ==> u in users;
      assert !Registered(users[1..], id) && users[0].id != id ==> !Registered(users, id) by {
        if Registered(users, id) && users[0].id != id {
          var u :| u in users && u.id == id;
          assert u in users[1..];
        }
      }
      r
  }

  /** With unique emails, the row found by email is the only one there is. */
  lemma {:induction false} FindByEmailUnique(users: seq<User>, u: User)
    requires UniqueEmails(users) && u in users
    ensures FindByEmail(users, u.email) == Some(u)
  {
    if users[0] != u {
      assert u in users[1..];
      assert users[0].email != u.email by {
        var k :| 0 <= k < |users| && users[k] == u;
        assert k != 0;
      }
      FindByEmailUnique(users[1..], u);
    }
  }

  lemma {:induction false} FindByIdUnique(users: seq<User>, u: User)
    requires UniqueIds(users) && u in users
    ensures FindById(users, u.id) == Some(u)
  {
    if users[0] != u {
      assert u in users[1..];
      assert users[0].id != u.id by {
        var k :| 0 <= k < |users| && users[k] == u;
        assert k != 0;
      }
      FindByIdUnique(users[1..], u);
    }
  }

  /** The row links `a` and `b`, in either column order. */
  predicate Linked(f: FriendRow, a: int, b: int) {
    (f.userId == a && f.friendId == b) || (f.userId == b && f.friendId == a)
  }

  /** A friendship between `a` and `b` exists in either ordering. */
  predicate AreFriends(friends: seq<FriendRow>, a: int, b: int) {
    exists f :: f in friends && Linked(f, a, b)
  }

  /** `SELECT * FROM friends WHERE (user_id = $1 AND friend_id = $2) OR (user_id = $2 AND friend_id = $1)`. */
  function PairRows(friends: seq<FriendRow>, a: int, b: int): (rows: seq<FriendRow>)
    ensures forall f :: f in rows <==> f in friends && Linked(f, a, b)
    ensures |rows| == 0 <==> !AreFriends(friends, a, b)
    ensures |rows| <= |friends|
  {
    if friends == [] then []
    else
      var rest := PairRows(friends[1..], a, b);
      assert forall f :: f in friends <==> f == friends[0] || f in friends[1..];
      (if Linked(friends[0], a, b) then [friends[0]] else []) + rest
  }

  /** The friendship check gives the same rows whichever party asks. */
  lemma {:induction false} PairRowsSymmetric(friends: seq<FriendRow>, a: int, b: int)
    ensures PairRows(friends, a, b) == PairRows(friends, b, a)
  {
    if friends != [] {
      PairRowsSymmetric(friends[1..], a, b);
    }
  }

  lemma AreFriendsSymmetric(friends: seq<FriendRow>, a: int, b: int)
    ensures AreFriends(friends, a, b) <==> AreFriends(friends, b, a)
  {
  }

  /** No two rows link the same unordered pair. */
  ghost predicate OnePerPair(friends: seq<FriendRow>) {
    forall i, j :: 0 <= i < j < |friends| ==> !Linked(friends[j], friends[i].userId, friends[i].friendId)
  }

  /** Appending a row for a pair that has none keeps one row per pair. */
  lemma AppendKeepsOnePerPair(friends: seq<FriendRow>, a: int, b: int, status: string)
    requires OnePerPair(friends) && !AreFriends(friends, a, b)
    ensures OnePerPair(friends + [FriendRow(a, b, status)])
  {
    var fs := friends + [FriendRow(a, b, status)];
    forall i, j | 0 <= i < j < |fs|
      ensures !Linked(fs[j], fs[i].userId, fs[i].friendId)
    {
      if j == |friends| {
        assert fs[i] in friends;
        if Linked(fs[j], fs[i].userId, fs[i].friendId) {
          assert Linked(fs[i], a, b);
        }
      }
    }
  }

  /** Under one row per pair the friendship check never finds more than one row. */
  lemma {:induction false} OnePerPairAtMostOneRow(friends: seq<FriendRow>, a: int, b: int)
    requires OnePerPair(friends)
    ensures |PairRows(friends, a, b)| <= 1
  {
    if friends != [] {
      var rest := friends[1..];
      assert OnePerPair(rest) by {
        forall i, j | 0 <= i < j < |rest|
          ensures !Linked(rest[j], rest[i].userId, rest[i].friendId)
        {
          assert rest[i] == friends[i + 1] && rest[j] == friends[j + 1];
        }
      }
      OnePerPairAtMostOneRow(rest, a, b);
      if Linked(friends[0], a, b) {
        forall f | f in rest ensures !Linked(f, a, b) {
          var j :| 0 <= j < |rest| && rest[j] == f;
          assert friends[j + 1] == f;
          assert !Linked(f, friends[0].userId, friends[0].friendId);
        }
        assert PairRows(rest, a, b) == [];
      }
    }
  }

  /** The message was sent from `a` to `b` or from `b` to `a`. */
  predicate Between(m: Message, a: int, b: int) {
    (m.senderId == a && m.receiverId == b) || (m.senderId == b && m.receiverId == a)
  }

  /** `SELECT m.* FROM messages m WHERE (sender_id = $1 AND receiver_id = $2) OR (sender_id = $2 AND receiver_id = $1)`. */
  function Conversation(ms: seq<Message>, a: int, b: int): (c: seq<Message>)
    ensures forall m :: m in c <==> m in ms && Between(m, a, b)
    ensures |c| <= |ms|
  {
    if ms == [] then []
    else
      var rest := Conversation(ms[1..], a, b);
      assert forall m :: m in ms <==> m == ms[0] || m in ms[1..];
      (if Between(ms[0], a, b) then [ms[0]] else []) + rest
  }

  /** Both parties see the same conversation, in the same order. */
  lemma {:induction false} ConversationSymmetric(ms: seq<Message>, a: int, b: int)
    ensures Conversation(ms, a, b) == Conversation(ms, b, a)
  {
    if ms != [] {
      ConversationSymmetric(ms[1..], a, b);
    }
  }

  /** A new message joins the end of the conversation of its own two parties and no other. */
  lemma {:induction false} ConversationAppend(ms: seq<Message>, m: Message, a: int, b: int)
    ensures Conversation(ms + [m], a, b) == Conversation(ms, a, b) + (if Between(m, a, b) then [m] else [])
  {
    if ms == [] {
      assert ms + [m] == [m];
    } else {
      assert (ms + [m])[1..] == ms[1..] + [m];
      ConversationAppend(ms[1..], m, a, b);
    }
  }

  ghost predicate SortedBySentAt(ms: seq<Message>) {
    forall i, j :: 0 <= i < j < |ms| ==> ms[i].sentAt <= ms[j].sentAt
  }

  /** Every message of `ms` was sent at `t` or later. */
  ghost predicate AllFrom(ms: seq<Message>, t: int) {
    forall m :: m in ms ==> t <= m.sentAt
  }

  /** Selecting from a table kept in `sent_at` order gives a result in `sent_at` order. */
  lemma {:induction false} ConversationSorted(ms: seq<Message>, a: int, b: int)
    requires SortedBySentAt(ms)
    ensures SortedBySentAt(Conversation(ms, a, b))
  {
    if ms != [] {
      var rest := ms[1..];
      assert SortedBySentAt(rest) by {
        forall i, j | 0 <= i < j < |rest| ensures rest[i].sentAt <= rest[j].sentAt {
          assert rest[i] == ms[i + 1] && rest[j] == ms[j + 1];
        }
      }
      ConversationSorted(rest, a, b);
      var c := Conversation(rest, a, b);
      assert AllFrom(c, ms[0].sentAt) by {
        forall m | m in c ensures ms[0].sentAt <= m.sentAt {
          var k :| 0 <= k < |rest| && rest[k] == m;
          assert ms[k + 1] == m;
        }
      }
    }
  }

  /**
   * `JOIN users sender ON m.sender_id = sender.id JOIN users receiver ON m.receiver_id = receiver.id`
   * for one message row: both parties' names and stored pictures, or no row when a party is missing.
   */
  function Joined(users: seq<User>, m: Message): (r: Option<HydratedMessage>)
    ensures r.Some? <==> Registered(users, m.senderId) && Registered(users, m.receiverId)
    ensures r.Some? ==> Core(r.value) == m
    ensures r.Some? ==> r.value.senderUsername == FindById(users, m.senderId).value.username
    ensures r.Some? ==> r.value.receiverUsername == FindById(users, m.receiverId).value.username
    ensures r.Some? ==> r.value.senderPicture == FindById(users, m.senderId).value.profilePicture
    ensures r.Some? ==> r.value.receiverPicture == FindById(users, m.receiverId).value.profilePicture
  {
    match (FindById(users, m.senderId), FindById(users, m.receiverId))
    case (Some(s), Some(t)) =>
      Some(HydratedMessage(m.id, m.senderId, m.receiverId, m.content, m.sentAt,
                           s.username, s.profilePicture, t.username, t.profilePicture))
    case _ => None
  }

  /** The inner join over a list of message rows: rows with a missing party drop out. */
  function JoinAll(users: seq<User>, ms: seq<Message>): (r: seq<HydratedMessage>)
    ensures |r| <= |ms|
    ensures forall h :: h in r ==> Core(h) in ms && Joined(users, Core(h)) == Some(h)
    ensures forall m :: m in ms && Joined(users, m).Some? ==> Joined(users, m).value in r
  {
    if ms == [] then []
    else
      var rest := JoinAll(users, ms[1..]);
      assert forall m :: m in ms <==> m == ms[0] || m in ms[1..];
      match Joined(users, ms[0])
      case Some(h) => [h] + rest
      case None => rest
  }

  ghost predicate HydratedSorted(hs: seq<HydratedMessage>) {
    forall i, j :: 0 <= i < j < |hs| ==> hs[i].sentAt <= hs[j].sentAt
  }

  lemma {:induction false} JoinAllSorted(users: seq<User>, ms: seq<Message>)
    requires SortedBySentAt(ms)
    ensures HydratedSorted(JoinAll(users, ms))
  {
    if ms != [] {
      var rest := ms[1..];
      assert SortedBySentAt(rest) by {
        forall i, j | 0 <= i < j < |rest| ensures rest[i].sentAt <= rest[j].sentAt {
          assert rest[i] == ms[i + 1] && rest[j] == ms[j + 1];
        }
      }
      JoinAllSorted(users, rest);
      var r := JoinAll(users, rest);
      forall h | h in r ensures ms[0].sentAt <= h.sentAt {
        var k :| 0 <= k < |rest| && rest[k] == Core(h);
        assert ms[k + 1] == Core(h);
      }
    }
  }

  lemma {:induction false} JoinAllAppend(users: seq<User>, ms: seq<Message>, m: Message)
    ensures JoinAll(users, ms + [m]) == JoinAll(users, ms) + (if Joined(users, m).Some? then [Joined(users, m).value] else [])
  {
    if ms == [] {
      assert ms + [m] == [m];
    } else {
      assert (ms + [m])[1..] == ms[1..] + [m];
      JoinAllAppend(users, ms[1..], m);
    }
  }

  /**
   * `SELECT DISTINCT u.* FROM users u INNER JOIN friends f ON (f.user_id = $1 AND f.friend_id = u.id)
   * OR (f.friend_id = $1 AND f.user_id = u.id)`: every user linked to `u`, each once.
   */
  function FriendsOf(users: seq<User>, friends: seq<FriendRow>, u: int): (r: seq<User>)
    ensures forall v :: v in r <==> v in users && AreFriends(friends, u, v.id)
    ensures UniqueIds(users) ==> UniqueIds(r)
    ensures |r| <= |users|
  {
    if users == [] then []
    else
      var rest := FriendsOf(users[1..], friends, u);
      assert forall v :: v in users <==> v == users[0] || v in users[1..];
      var r := (if AreFriends(friends, u, users[0].id) then [users[0]] else []) + rest;
      assert UniqueIds(users) ==> UniqueIds(r) by {
        if UniqueIds(users) {
          assert UniqueIds(users[1..]) by {
            forall i, j | 0 <= i < j < |users[1..]| ensures users[1..][i].id != users[1..][j].id {
              assert users[1..][i] == users[i + 1] && users[1..][j] == users[j + 1];
            }
          }
          forall v | v in rest ensures v.id != users[0].id {
            var k :| 0 <= k < |users[1..]| && users[1..][k] == v;
            assert users[k + 1] == v;
          }
        }
      }
      r
  }
}
