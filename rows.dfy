/** The rows of the three tables and the JSON records the routes return. */
module Rows {
  import opened Common

  /** A `users` row. `password` holds the bcrypt hash, never the password itself. */
  datatype User = User(
    id: int,
    username: string,
    email: string,
    password: string,
    status: Option<string>,
    profilePicture: Option<string>)

  /** A `friends` row: `user_id` is whoever sent the request, `friend_id` whom it named. */
  datatype FriendRow = FriendRow(userId: int, friendId: int, status: string)

  /** A `messages` row; `id` and `sentAt` are assigned by the database. */
  datatype Message = Message(id: int, senderId: int, receiverId: int, content: string, sentAt: int)

  /** A message row joined with both parties' `username` and `profile_picture`. */
  datatype HydratedMessage = HydratedMessage(
    id: int,
    senderId: int,
    receiverId: int,
    content: string,
    sentAt: int,
    senderUsername: string,
    senderPicture: Option<string>,
    receiverUsername: string,
    receiverPicture: Option<string>)

  /** The columns `id, username, email, status, profile_picture` of a user. */
  datatype PublicUser = PublicUser(
    id: int,
    username: string,
    email: string,
    status: Option<string>,
    profilePicture: Option<string>)

  /** The message row a hydrated message was made from. */
  function Core(h: HydratedMessage): Message {
    Message(h.id, h.senderId, h.receiverId, h.content, h.sentAt)
  }

  function Public(u: User): PublicUser {
    PublicUser(u.id, u.username, u.email, u.status, u.profilePicture)
  }
}
