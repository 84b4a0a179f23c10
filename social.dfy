/** The relationship records shared by the friend pages: the three statuses of
    a friendship or a group membership and the `friendships` table row. */
module Social {

  /** `'PENDING' | 'ACCEPTED' | 'REJECTED'`. */
  datatype Status = Pending | Accepted | Rejected

  /** A row of the `friendships` table: a request from `senderId` to `receiverId`. */
  datatype FriendshipRow = FriendshipRow(senderId: string, receiverId: string, status: Status)

  /** The row joins the two users, in either direction. */
  predicate Connects(f: FriendshipRow, a: string, b: string)
  {
    (f.senderId == a && f.receiverId == b) || (f.senderId == b && f.receiverId == a)
  }
}
