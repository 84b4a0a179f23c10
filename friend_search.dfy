/** The friend search page: the status map built from the viewer's friendship
    rows, the user list annotated with it, the default first-ten results, the
    "send invitation" write with its local update, and the button text. */
module FriendSearch {
  import opened Wrappers
  import opened Seqs
  import opened Social
  import opened Text

  /** A row of `users` as the page selects it. */
  datatype UserRow = UserRow(id: string, name: string, email: string)

  /** A listed user with the viewer's friendship status towards them. */
  datatype SearchUser = SearchUser(id: string, name: string, email: string,
                                   friendshipStatus: Option<Status>)

  /** How many users are shown before anything is typed. */
  const DefaultResultCount: nat := 10

  const InvitationSent := "邀請已發送"
  const AlreadyFriends := "已是好友"
  const SendInvitation := "發送邀請"

  /** The user on the other end of the row, seen from the viewer. */
  function OtherParty(f: FriendshipRow, viewerId: string): string
  {
    if f.senderId == viewerId then f.receiverId else f.senderId
  }

  /** The friendships query's filter: rows the viewer sent or received. */
  function InvolvesUser(viewerId: string): FriendshipRow -> bool
  {
    (f: FriendshipRow) => f.senderId == viewerId || f.receiverId == viewerId
  }

  /** The map after `Map.set` for each row in order. */
  function StatusMap(rows: seq<FriendshipRow>, viewerId: string): map<string, Status>
  {
    if rows == [] then map[]
    else
      var last := rows[|rows| - 1];
      StatusMap(rows[..|rows| - 1], viewerId)[OtherParty(last, viewerId) := last.status]
  }

  /** `friendships.forEach(f => friendshipMap.set(otherUserId, f.status))`. */
  method BuildFriendshipMap(rows: seq<FriendshipRow>, viewerId: string)
    returns (m: map<string, Status>)
    ensures m == StatusMap(rows, viewerId)
  {
    m := map[];
    for i := 0 to |rows|
      invariant m == StatusMap(rows[..i], viewerId)
    {
      assert rows[..i + 1][..i] == rows[..i];
      m := m[OtherParty(rows[i], viewerId) := rows[i].status];
    }
    assert rows[..|rows|] == rows;
  }

  /** A user has an entry exactly when some row names them as the other
      party, and the entry is the status of the last such row. */
  lemma {:induction false} StatusMapLastWins(rows: seq<FriendshipRow>, viewerId: string, k: string)
    ensures k in StatusMap(rows, viewerId) <==>
              exists i :: 0 <= i < |rows| && OtherParty(rows[i], viewerId) == k
    ensures k in StatusMap(rows, viewerId) ==>
              exists i :: && 0 <= i < |rows| && OtherParty(rows[i], viewerId) == k
                          && StatusMap(rows, viewerId)[k] == rows[i].status
                          && forall j :: i < j < |rows| ==> OtherParty(rows[j], viewerId) != k
  {
    if rows != [] {
      var n := |rows| - 1;
      var init := rows[..n];
      var m0 := StatusMap(init, viewerId);
      var m := StatusMap(rows, viewerId);
      assert m == m0[OtherParty(rows[n], viewerId) := rows[n].status];
      if OtherParty(rows[n], viewerId) == k {
        assert m[k] == rows[n].status;
      } else {
        StatusMapLastWins(init, viewerId, k);
        assert forall i :: 0 <= i < n ==> init[i] == rows[i];
        if k in m0 {
          var i :| && 0 <= i < n && OtherParty(init[i], viewerId) == k
                   && m0[k] == init[i].status
                   && forall j :: i < j < n ==> OtherParty(init[j], viewerId) != k;
          assert m[k] == rows[i].status;
        }
      }
    }
  }

  /** `users.map(u => ({ ...u, friendshipStatus: friendshipMap.get(u.id) || null }))`. */
  function UsersWithStatus(users: seq<UserRow>, m: map<string, Status>): (r: seq<SearchUser>)
    ensures |r| == |users|
    ensures forall i :: 0 <= i < |users| ==>
              && r[i].id == users[i].id && r[i].name == users[i].name
              && r[i].email == users[i].email
              && (r[i].friendshipStatus.Some? <==> users[i].id in m)
              && (users[i].id in m ==> r[i].friendshipStatus == Some(m[users[i].id]))
  {
    seq(|users|, i requires 0 <= i < |users| =>
          var u := users[i];
          SearchUser(u.id, u.name, u.email, if u.id in m then Some(m[u.id]) else None))
  }

  /** A listed user has no status exactly when no friendship row of the viewer
      names them; otherwise the status is that of the last such row. */
  lemma ListedStatus(users: seq<UserRow>, rows: seq<FriendshipRow>, viewerId: string, i: nat)
    requires i < |users|
    ensures var u := UsersWithStatus(users, StatusMap(rows, viewerId))[i];
      && (u.friendshipStatus.None? <==>
            forall j :: 0 <= j < |rows| ==> OtherParty(rows[j], viewerId) != users[i].id)
      && (u.friendshipStatus.Some? ==>
            exists j :: && 0 <= j < |rows| && OtherParty(rows[j], viewerId) == users[i].id
                        && u.friendshipStatus.value == rows[j].status
                        && forall l :: j < l < |rows| ==> OtherParty(rows[l], viewerId) != users[i].id)
  {
    StatusMapLastWins(rows, viewerId, users[i].id);
  }

  /** `users.slice(0, 10)`: the first `min(10, n)` users, in order. */
  function DefaultResults(users: seq<SearchUser>): (r: seq<SearchUser>)
    ensures |r| == if |users| < DefaultResultCount then |users| else DefaultResultCount
    ensures forall i :: 0 <= i < |r| ==> r[i] == users[i]
  {
    if |users| < DefaultResultCount then users else users[..DefaultResultCount]
  }

  function UserIdIs(id: string): SearchUser -> bool
  {
    (u: SearchUser) => u.id == id
  }

  function MarkedPending(): SearchUser -> SearchUser
  {
    (u: SearchUser) => u.(friendshipStatus := Some(Pending))
  }

  /** `prev.map(u => u.id === userId ? { ...u, friendshipStatus: 'PENDING' } : u)`. */
  function MarkPending(users: seq<SearchUser>, id: string): seq<SearchUser>
  {
    MapWhere(users, UserIdIs(id), MarkedPending())
  }

  /** The local update after an invitation only marks that user as pending. */
  lemma MarkPendingOnlyTarget(users: seq<SearchUser>, id: string)
    ensures var r := MarkPending(users, id);
      && |r| == |users|
      && (forall i :: 0 <= i < |users| && users[i].id == id ==>
            r[i] == users[i].(friendshipStatus := Some(Pending)))
      && (forall i :: 0 <= i < |users| && users[i].id != id ==> r[i] == users[i])
  {
    var r := MarkPending(users, id);
    forall i | 0 <= i < |users|
      ensures users[i].id == id ==> r[i] == users[i].(friendshipStatus := Some(Pending))
      ensures users[i].id != id ==> r[i] == users[i]
    {
      assert UserIdIs(id)(users[i]) <==> users[i].id == id;
    }
  }

  /** `getButtonText(status)`. */
  function ButtonText(status: Option<Status>): (t: string)
    ensures status == Some(Pending) <==> t == InvitationSent
    ensures status == Some(Accepted) <==> t == AlreadyFriends
    ensures status.None? || status == Some(Rejected) <==> t == SendInvitation
  {
    match status
    case Some(Pending) => InvitationSent
    case Some(Accepted) => AlreadyFriends
    case _ => SendInvitation
  }

  /** The invitation button is disabled while that user's invitation is in
      flight and whenever the user has any status. */
  predicate ButtonDisabled(u: SearchUser, isSendingInvite: Option<string>)
  {
    isSendingInvite == Some(u.id) || u.friendshipStatus.Some?
  }

  /** An enabled button always offers to send an invitation. A rejected
      request shows that same text on a disabled button. */
  lemma EnabledButtonSends(u: SearchUser, isSendingInvite: Option<string>)
    ensures !ButtonDisabled(u, isSendingInvite) ==> ButtonText(u.friendshipStatus) == SendInvitation
    ensures u.friendshipStatus == Some(Rejected) ==>
              ButtonDisabled(u, isSendingInvite) && ButtonText(u.friendshipStatus) == SendInvitation
  {
  }

  /** After a stored invitation the friendships table ends with the viewer's
      pending request, so fetching the users again lists the target as pending,
      as `HandleSendInvite` marks them locally. */
  lemma RefetchAfterInviteIsPending(friendships: seq<FriendshipRow>, viewerId: string,
                                    targetId: string)
    ensures var row := FriendshipRow(viewerId, targetId, Pending);
      var m := StatusMap(Filter(friendships + [row], InvolvesUser(viewerId)), viewerId);
      targetId in m && m[targetId] == Pending
  {
    var row := FriendshipRow(viewerId, targetId, Pending);
    FilterSnoc(friendships, row, InvolvesUser(viewerId));
    var rows := Filter(friendships, InvolvesUser(viewerId)) + [row];
    assert rows[..|rows| - 1] == Filter(friendships, InvolvesUser(viewerId));
  }

  class FriendSearchPage {
    var userId: Option<string>
    var friendships: seq<FriendshipRow>
    var allUsers: seq<SearchUser>
    var searchResults: seq<SearchUser>
    var isSendingInvite: Option<string>

    constructor (userId: Option<string>, friendships: seq<FriendshipRow>)
      ensures this.userId == userId && this.friendships == friendships
      ensures allUsers == [] && searchResults == [] && isSendingInvite.None?
    {
      this.userId := userId;
      this.friendships := friendships;
      allUsers := [];
      searchResults := [];
      isSendingInvite := None;
    }

    /** `fetchUsers`: with both queries answered, every other user is listed
        with the status the viewer's friendship rows give them, and the first
        ten are shown. `users` is the answer to the users query;
        `friendshipsQuery` says whether the friendships query succeeded. */
    method FetchUsers(users: Result<seq<UserRow>>, friendshipsQuery: Outcome)
      modifies this`allUsers, this`searchResults
      ensures userId.None? || users.Err? || friendshipsQuery.Fail? ==>
                allUsers == old(allUsers) && searchResults == old(searchResults)
      ensures userId.Some? && users.Ok? && friendshipsQuery.Pass? ==>
                && allUsers == UsersWithStatus(users.value,
                     StatusMap(Filter(friendships, InvolvesUser(userId.value)), userId.value))
                && searchResults == DefaultResults(allUsers)
    {
      if userId.None? || users.Err? || friendshipsQuery.Fail? {
        return;
      }
      var rows := Filter(friendships, InvolvesUser(userId.value));
      var m := BuildFriendshipMap(rows, userId.value);
      allUsers := UsersWithStatus(users.value, m);
      searchResults := DefaultResults(allUsers);
    }

    /** The search effect: a blank query shows the first ten users; any other
        query shows what the fuzzy matcher returns (`matches`). */
    method ShowResults(query: string, matches: seq<SearchUser>)
      modifies this`searchResults
      ensures searchResults == if IsBlank(query) then DefaultResults(allUsers) else matches
    {
      BlankIffAllSpace(query);
      if Trim(query) == "" {
        searchResults := DefaultResults(allUsers);
      } else {
        searchResults := matches;
      }
    }

    /** `handleSendInvite`: without a user nothing happens; otherwise a pending
        request from the viewer is inserted and, if stored, that user is marked
        pending in both lists; the in-flight marker is cleared afterwards. */
    method HandleSendInvite(targetId: string, reply: Outcome)
      returns (sent: Option<FriendshipRow>)
      modifies this`friendships, this`allUsers, this`searchResults, this`isSendingInvite
      ensures userId.None? ==>
                && sent.None? && friendships == old(friendships) && allUsers == old(allUsers)
                && searchResults == old(searchResults) && isSendingInvite == old(isSendingInvite)
      ensures userId.Some? ==>
                && sent == Some(FriendshipRow(userId.value, targetId, Pending))
                && isSendingInvite.None?
      ensures userId.Some? && reply.Pass? ==>
                && friendships == old(friendships) + [sent.value]
                && allUsers == MarkPending(old(allUsers), targetId)
                && searchResults == MarkPending(old(searchResults), targetId)
      ensures userId.Some? && reply.Fail? ==>
                friendships == old(friendships) && allUsers == old(allUsers)
                && searchResults == old(searchResults)
    {
      sent := None;
      if userId.None? {
        return;
      }
      isSendingInvite := Some(targetId);
      var row := FriendshipRow(userId.value, targetId, Pending);
      sent := Some(row);
      if reply.Pass? {
        friendships := friendships + [row];
        allUsers := MarkPending(allUsers, targetId);
        searchResults := MarkPending(searchResults, targetId);
      }
      isSendingInvite := None;
    }
  }
}
