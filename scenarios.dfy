/**
 * Request sequences against a fresh store: the friendship gate, the add-friend errors and
 * the live delivery of a message to the receiver's open chat.
 */
module Scenarios {
  import opened Common
  import opened Rows
  import opened Auth
  import opened Tables
  import opened Server
  import opened ChatClient

  /** Two accounts whose bearer tokens "t1" and "t2" the verifier accepts for ids 1 and 2. */
  method TwoUsers(verify: string -> Option<Claims>, hash: string -> string) returns (s: Store)
    requires verify("t1") == Some(Claims(1, "alice")) && verify("t2") == Some(Claims(2, "bob"))
    ensures fresh(s) && s.Valid()
    ensures s.users == [User(1, "alice", "a@x", hash("pw1"), None, None), User(2, "bob", "b@x", hash("pw2"), None, None)]
    ensures s.friends == [] && s.messages == [] && s.nextMessageId == 1 && s.clock == 0
  {
    s := new Store();
    var r1 := s.Signup(Some("alice"), Some("a@x"), Some("pw1"), hash);
    assert !EmailTaken(s.users, "b@x") by {
      assert "a@x" != "b@x" by { assert "a@x"[0] != "b@x"[0]; }
    }
    var r2 := s.Signup(Some("bob"), Some("b@x"), Some("pw2"), hash);
  }

  /**
   * Users 1 and 2 are not friends, so 1's message to 2 is refused with 403 and no row is
   * stored; 1 can then add 2 by email.
   */
  method StrangersAreRefused(verify: string -> Option<Claims>, hash: string -> string)
    returns (refused: Reply<HydratedMessage>, pushed: Option<HydratedMessage>, rowsAfterRefusal: nat,
             added: Reply<string>)
    requires verify("t1") == Some(Claims(1, "alice")) && verify("t2") == Some(Claims(2, "bob"))
    ensures refused == Fail(403, NotFriends) && pushed == None && rowsAfterRefusal == 0
    ensures added == Ok(200, FriendAdded)
  {
    var s := TwoUsers(verify, hash);
    var header := Some(BearerPrefix + "t1");
    BearerHeader("t1", verify);
    refused, pushed := s.CreateMessage(header, verify, 2, "hi", 1);
    rowsAfterRefusal := |s.messages|;
    assert FindByEmail(s.users, "b@x") == Some(s.users[1]) by {
      FindByEmailAll(s.users);
      assert s.users[1] in s.users;
    }
    added := s.AddFriend(header, verify, Some("b@x"));
  }

  /** The two accounts of `TwoUsers` after 1 has added 2 by email. */
  method TwoFriends(verify: string -> Option<Claims>, hash: string -> string) returns (s: Store)
    requires verify("t1") == Some(Claims(1, "alice")) && verify("t2") == Some(Claims(2, "bob"))
    ensures fresh(s) && s.Valid()
    ensures s.users == [User(1, "alice", "a@x", hash("pw1"), None, None), User(2, "bob", "b@x", hash("pw2"), None, None)]
    ensures s.friends == [FriendRow(1, 2, Accepted)] && s.messages == [] && s.nextMessageId == 1 && s.clock == 0
  {
    s := TwoUsers(verify, hash);
    BearerHeader("t1", verify);
    assert FindByEmail(s.users, "b@x") == Some(s.users[1]) by {
      FindByEmailAll(s.users);
      assert s.users[1] in s.users;
    }
    var added := s.AddFriend(Some(BearerPrefix + "t1"), verify, Some("b@x"));
  }

  /**
   * Between friends 1's message to 2 is accepted with 201, the broadcast carries the same
   * message, and 2's chat with 1 open appends it.
   */
  method MessageReachesReceiver(verify: string -> Option<Claims>, hash: string -> string)
    returns (accepted: Reply<HydratedMessage>, pushed: Option<HydratedMessage>, receiverView: seq<HydratedMessage>)
    requires verify("t1") == Some(Claims(1, "alice")) && verify("t2") == Some(Claims(2, "bob"))
    ensures accepted.Ok? && accepted.status == 201
    ensures accepted.body.senderId == 1 && accepted.body.receiverId == 2 && accepted.body.content == "hi"
    ensures pushed == Some(accepted.body)
    ensures receiverView == [accepted.body]
  {
    var s := TwoFriends(verify, hash);
    BearerHeader("t1", verify);
    assert AreFriends(s.friends, 1, 2) by { assert s.friends[0] in s.friends; }
    assert FindById(s.users, 1) == Some(s.users[0]) && FindById(s.users, 2) == Some(s.users[1]) by {
      FindByIdAll(s.users);
      assert s.users[0] in s.users && s.users[1] in s.users;
    }
    accepted, pushed := s.CreateMessage(Some(BearerPrefix + "t1"), verify, 2, "hi", 1);
    var view := new ChatView(2);
    view.SelectFriend(PublicUser(1, "alice", "a@x", None, None));
    view.OnReceiveMessage(pushed.value);
    receiverView := view.messages;
  }

  /**
   * Once 1 has sent "hi" to 2, each party's `GET /messages/:friendId` for the other lists that
   * one message, and the two listings are the same.
   */
  method BothPartiesListTheMessage(verify: string -> Option<Claims>, hash: string -> string)
    returns (accepted: Reply<HydratedMessage>, senderListing: Reply<seq<HydratedMessage>>,
             receiverListing: Reply<seq<HydratedMessage>>)
    requires verify("t1") == Some(Claims(1, "alice")) && verify("t2") == Some(Claims(2, "bob"))
    ensures accepted.Ok? && accepted.body.content == "hi"
    ensures senderListing.Ok? && receiverListing == senderListing
    ensures |senderListing.body| == 1 && Core(senderListing.body[0]) == Core(accepted.body)
  {
    var s := TwoFriends(verify, hash);
    var header := Some(BearerPrefix + "t1");
    BearerHeader("t1", verify);
    BearerHeader("t2", verify);
    assert AreFriends(s.friends, 1, 2) by { assert s.friends[0] in s.friends; }
    assert FindById(s.users, 1) == Some(s.users[0]) && FindById(s.users, 2) == Some(s.users[1]) by {
      FindByIdAll(s.users);
      assert s.users[0] in s.users && s.users[1] in s.users;
    }
    var pushed;
    accepted, pushed := s.CreateMessage(header, verify, 2, "hi", 1);
    senderListing := s.ListConversation(header, verify, 2);
    receiverListing := s.ListConversation(Some(BearerPrefix + "t2"), verify, 1);
    HistorySymmetric(s.users, s.messages, 1, 2);
    assert s.messages == [Core(accepted.body)];
    assert Conversation(s.messages, 1, 2) == s.messages;
  }

  /** Adding an unknown email gives 404, and adding the same friend twice gives 400 the second time; one row remains. */
  method AddFriendErrors(verify: string -> Option<Claims>, hash: string -> string)
    returns (unknown: Reply<string>, rowsAfterUnknown: nat, first: Reply<string>, again: Reply<string>,
             reverse: Reply<string>, rows: nat)
    requires verify("t1") == Some(Claims(1, "alice")) && verify("t2") == Some(Claims(2, "bob"))
    ensures unknown == Fail(404, UserNotFound) && rowsAfterUnknown == 0
    ensures first == Ok(200, FriendAdded)
    ensures again == Fail(400, FriendshipExists) && reverse == Fail(400, FriendshipExists)
    ensures rows == 1
  {
    var s := TwoUsers(verify, hash);
    BearerHeader("t1", verify);
    BearerHeader("t2", verify);
    assert !EmailTaken(s.users, "c@x") by {
      assert "a@x" != "c@x" by { assert "a@x"[0] != "c@x"[0]; }
      assert "b@x" != "c@x" by { assert "b@x"[0] != "c@x"[0]; }
    }
    unknown := s.AddFriend(Some(BearerPrefix + "t1"), verify, Some("c@x"));
    rowsAfterUnknown := |s.friends|;
    assert FindByEmail(s.users, "b@x") == Some(s.users[1]) && FindByEmail(s.users, "a@x") == Some(s.users[0]) by {
      FindByEmailAll(s.users);
      assert s.users[0] in s.users && s.users[1] in s.users;
    }
    first := s.AddFriend(Some(BearerPrefix + "t1"), verify, Some("b@x"));
    assert s.friends[0] in s.friends;
    again := s.AddFriend(Some(BearerPrefix + "t1"), verify, Some("b@x"));
    reverse := s.AddFriend(Some(BearerPrefix + "t2"), verify, Some("a@x"));
    rows := |s.friends|;
  }
}
