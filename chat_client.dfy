/**
 * The chat screen of frontend/src/components/ChatComponent.jsx: its pure helpers and the
 * component state its handlers change. Server answers reach it as `Reply` values.
 */
module ChatClient {
  import opened Common
  import opened Text
  import opened Rows

  const Ellipsis := "..."
  const EmptyEmailError := "Please enter an email address"
  const AddFriendFailed := "Failed to add friend"
  const RefreshFailed := "Failed to refresh friends list"
  const SendFailed := "Failed to send message"
  const FetchFriendsFailed := "Failed to fetch friends: "

  /** `truncateStatus`: a falsy status shows as '', a long one is cut to `maxLength` and gets "...". */
  function TruncateStatus(status: Option<string>, maxLength: nat := 20): (r: string)
    ensures !Truthy(status) ==> r == ""
    ensures Truthy(status) && |status.value| <= maxLength ==> r == status.value
    ensures Truthy(status) && |status.value| > maxLength ==>
      |r| == maxLength + 3 && StartsWith(status.value, r[..maxLength]) && EndsWith(r, Ellipsis)
    ensures |r| <= maxLength + 3
  {
    if !Truthy(status) then ""
    else if |status.value| > maxLength then status.value[..maxLength] + Ellipsis
    else status.value
  }

  predicate HasId(ms: seq<HydratedMessage>, id: int) {
    exists m :: m in ms && m.id == id
  }

  ghost predicate UniqueIds(ms: seq<HydratedMessage>) {
    forall i, j :: 0 <= i < j < |ms| ==> ms[i].id != ms[j].id
  }

  /** The message belongs to the open chat: it was sent between the user and the selected friend. */
  predicate Relevant(m: HydratedMessage, userId: int, selected: Option<PublicUser>) {
    selected.Some? &&
    ((m.senderId == selected.value.id && m.receiverId == userId) ||
     (m.senderId == userId && m.receiverId == selected.value.id))
  }

  /** The `setMessages` updater of the `receiveMessage` socket handler. */
  function ReceiveMessage(prev: seq<HydratedMessage>, m: HydratedMessage, userId: int, selected: Option<PublicUser>)
    : (r: seq<HydratedMessage>)
    ensures HasId(prev, m.id) ==> r == prev
    ensures !Relevant(m, userId, selected) ==> r == prev
    ensures !HasId(prev, m.id) && Relevant(m, userId, selected) ==>
      |r| == |prev| + 1 && r[..|prev|] == prev && r[|prev|] == m
  {
    if HasId(prev, m.id) then prev
    else if Relevant(m, userId, selected) then prev + [m]
    else prev
  }

  /** Unique ids stay unique, and afterwards the message's id is in the list or it was irrelevant. */
  lemma ReceiveKeepsUniqueIds(prev: seq<HydratedMessage>, m: HydratedMessage, userId: int, selected: Option<PublicUser>)
    requires UniqueIds(prev)
    ensures UniqueIds(ReceiveMessage(prev, m, userId, selected))
    ensures HasId(ReceiveMessage(prev, m, userId, selected), m.id) <==> HasId(prev, m.id) || Relevant(m, userId, selected)
  {
    var r := ReceiveMessage(prev, m, userId, selected);
    if !HasId(prev, m.id) && Relevant(m, userId, selected) {
      forall i | 0 <= i < |prev| ensures prev[i].id != m.id {
        assert prev[i] in prev;
      }
      assert r[|prev|] in r;
    }
  }

  /** Receiving the same message twice is the same as receiving it once. */
  lemma ReceiveIdempotent(prev: seq<HydratedMessage>, m: HydratedMessage, userId: int, selected: Option<PublicUser>)
    ensures var once := ReceiveMessage(prev, m, userId, selected);
      ReceiveMessage(once, m, userId, selected) == once
  {
    var once := ReceiveMessage(prev, m, userId, selected);
    if !HasId(prev, m.id) && Relevant(m, userId, selected) {
      assert once[|prev|] in once;
    }
  }

  /** A broadcast message is relevant exactly to an open chat between its own two parties. */
  lemma RelevantIffBetweenParties(m: HydratedMessage, userId: int, friend: PublicUser)
    ensures Relevant(m, userId, Some(friend)) <==>
      (m.senderId == userId && m.receiverId == friend.id) || (m.senderId == friend.id && m.receiverId == userId)
  {
  }

  /** Sender and receiver who each have the other's chat open both append the broadcast. */
  lemma BothPartiesReceive(m: HydratedMessage, senderView: seq<HydratedMessage>, receiverView: seq<HydratedMessage>,
                           sender: PublicUser, receiver: PublicUser)
    requires sender.id == m.senderId && receiver.id == m.receiverId
    requires !HasId(senderView, m.id) && !HasId(receiverView, m.id)
    ensures ReceiveMessage(senderView, m, sender.id, Some(receiver)) == senderView + [m]
    ensures ReceiveMessage(receiverView, m, receiver.id, Some(sender)) == receiverView + [m]
  {
  }

  /** `data.find(f => f.id === id)`. */
  function Find(data: seq<PublicUser>, id: int): (r: Option<PublicUser>)
    ensures r.None? <==> forall f :: f in data ==> f.id != id
    ensures r.Some? ==> r.value in data && r.value.id == id
  {
    if data == [] then None
    else if data[0].id == id then Some(data[0])
    else
      assert forall f :: f in data ==> f == data[0] || f in data[1..];
      Find(data[1..], id)
  }

  /** `find` takes the first entry with the id. */
  lemma {:induction false} FindFirst(data: seq<PublicUser>, id: int, k: nat)
    requires k < |data| && data[k].id == id
    requires forall j :: 0 <= j < k ==> data[j].id != id
    ensures Find(data, id) == Some(data[k])
  {
    if k > 0 {
      FindFirst(data[1..], id, k - 1);
    }
  }

  /** After a friends fetch the selected friend is replaced by the fetched entry with its id, if any. */
  function RefreshSelected(selected: Option<PublicUser>, data: seq<PublicUser>): (r: Option<PublicUser>)
    ensures selected.None? ==> r == None
    ensures selected.Some? ==> r.Some? && r.value.id == selected.value.id
    ensures selected.Some? && (exists f :: f in data && f.id == selected.value.id) ==> r.value in data
    ensures selected.Some? && (forall f :: f in data ==> f.id != selected.value.id) ==> r == selected
  {
    if selected.None? then None
    else
      match Find(data, selected.value.id)
      case Some(f) => Some(f)
      case None => selected
  }

  /** Refreshing twice with the same data is refreshing once. */
  lemma RefreshSelectedIdempotent(selected: Option<PublicUser>, data: seq<PublicUser>)
    ensures RefreshSelected(RefreshSelected(selected, data), data) == RefreshSelected(selected, data)
  {
  }

  /** A thrown `Error(x || fallback)`'s message: the server's `error` text, or the fallback if it is empty. */
  function ErrorText(e: string, fallback: string): (r: string)
    ensures e != "" ==> r == e
    ensures e == "" ==> r == fallback
    ensures fallback != "" ==> r != ""
  {
    if e != "" then e else fallback
  }

  /** `${status}` for an HTTP status. */
  function StatusText(n: int): (r: string)
    ensures r != ""
    ensures n >= 0 ==> r == Decimal(n)
    ensures n < 0 ==> r[0] == '-'
  {
    if n < 0 then "-" + Decimal(-n) else Decimal(n)
  }

  /** What the chat screen holds between renders. */
  class ChatView {
    const userId: int
    var friends: seq<PublicUser>
    var selected: Option<PublicUser>
    var messages: seq<HydratedMessage>
    var newMessage: string
    var newFriendEmail: string
    var error: string
    var showAddFriend: bool

    constructor (userId: int)
      ensures this.userId == userId
      ensures friends == [] && selected == None && messages == []
      ensures newMessage == "" && newFriendEmail == "" && error == "" && !showAddFriend
    {
      this.userId := userId;
      friends := [];
      selected := None;
      messages := [];
      newMessage := "";
      newFriendEmail := "";
      error := "";
      showAddFriend := false;
    }

    /** A click on a friend in the list opens that chat. */
    method SelectFriend(f: PublicUser)
      modifies this
      ensures selected == Some(f)
      ensures friends == old(friends) && messages == old(messages) && newMessage == old(newMessage)
      ensures newFriendEmail == old(newFriendEmail) && error == old(error) && showAddFriend == old(showAddFriend)
    {
      selected := Some(f);
    }

    /** The answer to `GET /messages/:id` for the open chat replaces the list; a failure is only logged. */
    method MessagesFetched(response: Reply<seq<HydratedMessage>>)
      modifies this
      ensures response.Ok? ==> messages == response.body
      ensures response.Fail? ==> messages == old(messages)
      ensures friends == old(friends) && selected == old(selected) && newMessage == old(newMessage)
      ensures newFriendEmail == old(newFriendEmail) && error == old(error) && showAddFriend == old(showAddFriend)
    {
      if response.Ok? {
        messages := response.body;
      }
    }

    /** The `receiveMessage` socket event. */
    method OnReceiveMessage(m: HydratedMessage)
      modifies this
      ensures messages == ReceiveMessage(old(messages), m, userId, selected)
      ensures UniqueIds(old(messages)) ==> UniqueIds(messages)
      ensures friends == old(friends) && selected == old(selected) && newMessage == old(newMessage)
      ensures newFriendEmail == old(newFriendEmail) && error == old(error) && showAddFriend == old(showAddFriend)
    {
      if UniqueIds(messages) {
        ReceiveKeepsUniqueIds(messages, m, userId, selected);
      }
      messages := ReceiveMessage(messages, m, userId, selected);
    }

    /** The answer to `GET /friends/:userId` in `fetchFriendsWithRetry`. */
    method FriendsFetched(response: Reply<seq<PublicUser>>)
      modifies this
      ensures response.Ok? ==>
        && friends == response.body && error == ""
        && selected == RefreshSelected(old(selected), response.body)
      ensures response.Fail? ==>
        && friends == old(friends) && selected == old(selected)
        && error == ErrorText(response.error, FetchFriendsFailed + StatusText(response.status))
      ensures messages == old(messages) && newMessage == old(newMessage)
      ensures newFriendEmail == old(newFriendEmail) && showAddFriend == old(showAddFriend)
    {
      match response
      case Ok(_, data) =>
        friends := data;
        error := "";
        if selected.Some? {
          var updated := Find(data, selected.value.id);
          if updated.Some? {
            selected := updated;
          }
        }
      case Fail(status, e) =>
        error := ErrorText(e, FetchFriendsFailed + StatusText(status));
    }

    /**
     * The "Add" button. `added` is the server's answer to `POST /friends/add` and `refreshed` to
     * the friends fetch that follows; `request` is the email sent, if any, exactly as typed.
     */
    method AddFriend(added: Reply<string>, refreshed: Reply<seq<PublicUser>>) returns (request: Option<string>)
      modifies this
      ensures Blank(old(newFriendEmail)) ==>
        request == None && error == EmptyEmailError
        && friends == old(friends) && newFriendEmail == old(newFriendEmail) && showAddFriend == old(showAddFriend)
      ensures !Blank(old(newFriendEmail)) ==> request == Some(old(newFriendEmail))
      ensures !Blank(old(newFriendEmail)) && added.Fail? ==>
        error == ErrorText(added.error, AddFriendFailed)
        && friends == old(friends) && newFriendEmail == old(newFriendEmail) && showAddFriend == old(showAddFriend)
      ensures !Blank(old(newFriendEmail)) && added.Ok? && refreshed.Fail? ==>
        error == RefreshFailed
        && friends == old(friends) && newFriendEmail == old(newFriendEmail) && showAddFriend == old(showAddFriend)
      ensures !Blank(old(newFriendEmail)) && added.Ok? && refreshed.Ok? ==>
        friends == refreshed.body && newFriendEmail == "" && !showAddFriend && error == ""
      ensures error == "" || error == EmptyEmailError || error == RefreshFailed
        || (added.Fail? && error == ErrorText(added.error, AddFriendFailed))
      ensures selected == old(selected) && messages == old(messages) && newMessage == old(newMessage)
    {
      TrimEmptyIffBlank(newFriendEmail);
      if Trim(newFriendEmail) == [] {
        error := EmptyEmailError;
        return None;
      }
      request := Some(newFriendEmail);
      if added.Fail? {
        error := ErrorText(added.error, AddFriendFailed);
        return;
      }
      if refreshed.Fail? {
        error := RefreshFailed;
        return;
      }
      friends := refreshed.body;
      newFriendEmail := "";
      showAddFriend := false;
      error := "";
    }

    /**
     * The "Send" button or Enter. `sent` is the server's answer to `POST /messages`; `request` is
     * the receiver and text sent, if any. The message itself arrives by the socket event.
     */
    method SendMessage(sent: Reply<HydratedMessage>) returns (request: Option<(int, string)>)
      modifies this
      ensures Blank(old(newMessage)) || old(selected).None? ==> request == None && unchanged(this)
      ensures !Blank(old(newMessage)) && old(selected).Some? ==>
        && request == Some((old(selected).value.id, old(newMessage)))
        && (sent.Ok? ==> newMessage == "" && error == old(error))
        && (sent.Fail? ==> newMessage == old(newMessage) && error == SendFailed)
      ensures friends == old(friends) && selected == old(selected) && messages == old(messages)
      ensures newFriendEmail == old(newFriendEmail) && showAddFriend == old(showAddFriend)
    {
      TrimEmptyIffBlank(newMessage);
      if Trim(newMessage) == [] || selected.None? {
        return None;
      }
      request := Some((selected.value.id, newMessage));
      if sent.Ok? {
        newMessage := "";
      } else {
        error := SendFailed;
      }
    }
  }
}
