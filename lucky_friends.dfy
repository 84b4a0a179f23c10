/** The lucky-friends page: the friend and group lists it builds from the
    database answers, the group-membership writes behind "create group",
    "invite", "leave", "remove member" and "remove friend", and the rules for
    which buttons a viewer sees. The `group_members` and `friendships` tables
    are fields of the page object; each database answer is a parameter. */
module LuckyFriends {
  import opened Wrappers
  import opened Seqs
  import opened Social

  datatype Friend = Friend(id: string, name: string, email: string)

  /** A `friendships` row joined to the other user; `friend` is `None` when
      the join came back empty. */
  datatype FriendshipWithFriend = FriendshipWithFriend(id: string, friend: Option<Friend>)

  /** A joined `users` record. A missing column is the empty string, which is
      falsy like `null`. */
  datatype UserData = UserData(id: string, name: string, email: string)

  /** `member.user` as the join returns it: absent, an object, or an array. */
  datatype UserField = NoUser | OneUser(user: UserData) | UserArray(users: seq<UserData>)

  datatype MemberResponse = MemberResponse(id: string, status: Status, user: UserField)

  /** A `lucky_groups` row joined to its `group_members` (`null` read as `[]`). */
  datatype GroupResponse = GroupResponse(id: string, name: string, createdAt: string,
                                         createdBy: string, members: seq<MemberResponse>)

  datatype GroupMember = GroupMember(id: string, user: UserData, status: Status)

  /** A group as the page lists it; `members` is optional in the page's type. */
  datatype LuckyGroup = LuckyGroup(id: string, name: string, memberCount: nat, createdAt: string,
                                   createdBy: string, members: Option<seq<GroupMember>>)

  /** A row of the `group_members` table. The database's row ids are modelled
      as numbers handed out in order. */
  datatype MemberRow = MemberRow(id: nat, groupId: string, userId: string, senderId: string,
                                 status: Status)

  /** A row of the `lucky_groups` table. */
  datatype GroupRow = GroupRow(id: string, name: string, createdBy: string)

  /** The columns `handleCreateGroup` and `handleInviteMember` insert. */
  datatype MemberInsert = MemberInsert(groupId: string, userId: string, senderId: string,
                                       status: Status)

  function FriendId(f: Friend): string { f.id }

  function GroupId(g: GroupResponse): string { g.id }

  /** `rows.filter(f => f.friend && typeof f.friend === 'object').map(f => f.friend)`. */
  function FriendsOf(rows: seq<FriendshipWithFriend>): (r: seq<Friend>)
    ensures |r| <= |rows|
    ensures forall f :: f in r <==> exists k :: 0 <= k < |rows| && rows[k].friend == Some(f)
  {
    if rows == [] then []
    else
      var rest := FriendsOf(rows[1..]);
      assert forall k :: 0 <= k < |rows| - 1 ==> rows[1..][k] == rows[k + 1];
      if rows[0].friend.Some? then [rows[0].friend.value] + rest else rest
  }

  /** The page's friend list: friends from sent requests, then from received
      ones, keeping the first entry for each id. */
  function UniqueFriends(sent: seq<FriendshipWithFriend>, received: seq<FriendshipWithFriend>)
    : seq<Friend>
  {
    KeepFirstByKey(FriendsOf(sent) + FriendsOf(received), FriendId)
  }

  /** Each friend is listed once, every listed friend comes from one of the two
      lists, every friend of either list is listed under their id, the listed
      entry is the first one carrying that id, and the ids come in the order
      of their first occurrences. */
  lemma UniqueFriendsListed(sent: seq<FriendshipWithFriend>, received: seq<FriendshipWithFriend>)
    ensures var r := UniqueFriends(sent, received);
      && (forall i, j :: 0 <= i < j < |r| ==> r[i].id != r[j].id)
      && (forall f :: f in r ==> f in FriendsOf(sent) || f in FriendsOf(received))
      && (forall f :: f in FriendsOf(sent) + FriendsOf(received) ==>
            exists g :: g in r && g.id == f.id)
      && (forall g :: g in r ==>
            FindFirst(FriendsOf(sent) + FriendsOf(received), KeyIs(FriendId, g.id)) == Some(g))
      && (forall i, j :: 0 <= i < j < |r| ==>
            FirstIndex(FriendsOf(sent) + FriendsOf(received), KeyIs(FriendId, r[i].id))
              < FirstIndex(FriendsOf(sent) + FriendsOf(received), KeyIs(FriendId, r[j].id)))
  {
    var all := FriendsOf(sent) + FriendsOf(received);
    var r := KeepFirstByKey(all, FriendId);
    assert forall f :: f in r ==> f in all by {
      forall f | f in r ensures f in all {
        var k :| 0 <= k < |all| && all[k] == f && KeyIs(FriendId, f.id)(all[k]);
      }
    }
    forall f | f in all ensures exists g :: g in r && g.id == f.id {
      assert FriendId(f) in Keys(all, FriendId);
      var g :| g in r && FriendId(g) == FriendId(f);
    }
  }

  /** A friend reachable both ways is listed with the data of the first sent
      request naming them. */
  lemma SentFriendWins(sent: seq<FriendshipWithFriend>, received: seq<FriendshipWithFriend>,
                       g: Friend)
    requires g in UniqueFriends(sent, received)
    requires exists f :: f in FriendsOf(sent) && f.id == g.id
    ensures FindFirst(FriendsOf(sent), KeyIs(FriendId, g.id)) == Some(g)
  {
    var xs, ys := FriendsOf(sent), FriendsOf(received);
    var p := KeyIs(FriendId, g.id);
    assert FindFirst(xs + ys, p) == Some(g);
    var f :| f in xs && f.id == g.id;
    var i :| 0 <= i < |xs| && xs[i] == f;
    assert p(xs[i]);
    FindFirstConcat(xs, ys, p);
  }

  /** The user record a member row points at: the object itself, or element 0
      of an array. */
  function UserOf(u: UserField): (r: Option<UserData>)
    ensures u.NoUser? ==> r.None?
    ensures u.OneUser? ==> r == Some(u.user)
    ensures u.UserArray? ==> (r.Some? <==> |u.users| > 0)
    ensures u.UserArray? && r.Some? ==> r.value == u.users[0]
  {
    match u
    case NoUser => None
    case OneUser(d) => Some(d)
    case UserArray(ds) => if |ds| > 0 then Some(ds[0]) else None
  }

  /** The user record has an id, a name and an email. */
  predicate Complete(d: UserData)
  {
    d.id != "" && d.name != "" && d.email != ""
  }

  /** One member as the page keeps it, or `None` when it is dropped. */
  function FormatMember(m: MemberResponse): (r: Option<GroupMember>)
    ensures r.Some? <==> UserOf(m.user).Some? && Complete(UserOf(m.user).value)
    ensures r.Some? ==> r.value == GroupMember(m.id, UserOf(m.user).value, m.status)
  {
    match UserOf(m.user)
    case None => None
    case Some(d) => if Complete(d) then Some(GroupMember(m.id, d, m.status)) else None
  }

  /** The kept members, in order. */
  function FormatMembers(ms: seq<MemberResponse>): (r: seq<GroupMember>)
    ensures |r| <= |ms|
    ensures forall g :: g in r <==> exists k :: 0 <= k < |ms| && FormatMember(ms[k]) == Some(g)
  {
    if ms == [] then []
    else
      var rest := FormatMembers(ms[1..]);
      assert forall k :: 0 <= k < |ms| - 1 ==> ms[1..][k] == ms[k + 1];
      match FormatMember(ms[0])
      case Some(g) => [g] + rest
      case None => rest
  }

  /** The number of member rows the formatting keeps. */
  function CountKept(ms: seq<MemberResponse>): nat
  {
    if ms == [] then 0
    else (if FormatMember(ms[0]).Some? then 1 else 0) + CountKept(ms[1..])
  }

  lemma {:induction false} FormatMembersCount(ms: seq<MemberResponse>)
    ensures |FormatMembers(ms)| == CountKept(ms)
  {
    if ms != [] {
      FormatMembersCount(ms[1..]);
    }
  }

  /** A group as listed: its kept members and a count equal to their number. */
  function FormatGroup(g: GroupResponse): (r: LuckyGroup)
    ensures r.id == g.id && r.name == g.name && r.createdBy == g.createdBy
    ensures r.members == Some(FormatMembers(g.members))
    ensures r.memberCount == CountKept(g.members)
  {
    FormatMembersCount(g.members);
    var members := FormatMembers(g.members);
    LuckyGroup(g.id, g.name, |members|, g.createdAt, g.createdBy, Some(members))
  }

  /** `groups.map(format)`. */
  function FormatGroups(gs: seq<GroupResponse>): (r: seq<LuckyGroup>)
    ensures |r| == |gs|
    ensures forall i :: 0 <= i < |gs| ==> r[i] == FormatGroup(gs[i])
  {
    seq(|gs|, i requires 0 <= i < |gs| => FormatGroup(gs[i]))
  }

  /** The page's group list: groups created by the viewer, then groups the
      viewer belongs to, keeping the first entry for each id, each formatted. */
  function UniqueGroups(owned: seq<GroupResponse>, memberOf: seq<GroupResponse>)
    : seq<LuckyGroup>
  {
    FormatGroups(KeepFirstByKey(owned + memberOf, GroupId))
  }

  /** Each group is listed once, every group owned or joined is listed under
      its id, each listed group is formatted from the first response carrying
      its id, and the ids come in the order of their first occurrences. */
  lemma UniqueGroupsListed(owned: seq<GroupResponse>, memberOf: seq<GroupResponse>)
    ensures var r := UniqueGroups(owned, memberOf);
      && (forall i, j :: 0 <= i < j < |r| ==> r[i].id != r[j].id)
      && (forall g :: g in owned + memberOf ==> exists l :: l in r && l.id == g.id)
      && (forall i :: 0 <= i < |r| ==>
            exists g :: g in owned + memberOf && r[i] == FormatGroup(g)
                        && FindFirst(owned + memberOf, KeyIs(GroupId, g.id)) == Some(g))
      && (forall i, j :: 0 <= i < j < |r| ==>
            FirstIndex(owned + memberOf, KeyIs(GroupId, r[i].id))
              < FirstIndex(owned + memberOf, KeyIs(GroupId, r[j].id)))
  {
    var all := owned + memberOf;
    var kept := KeepFirstByKey(all, GroupId);
    var r := FormatGroups(kept);
    KeptGroupsListed(all, kept, r);
    assert forall i :: 0 <= i < |r| ==> r[i].id == GroupId(kept[i]);
    forall i | 0 <= i < |r|
      ensures exists g :: g in all && r[i] == FormatGroup(g)
                          && FindFirst(all, KeyIs(GroupId, g.id)) == Some(g)
    {
      var g := kept[i];
      assert g in kept;
      assert FindFirst(all, KeyIs(GroupId, g.id)) == Some(g);
    }
  }

  lemma KeptGroupsListed(all: seq<GroupResponse>, kept: seq<GroupResponse>, r: seq<LuckyGroup>)
    requires Keys(kept, GroupId) == Keys(all, GroupId)
    requires |r| == |kept| && forall i :: 0 <= i < |kept| ==> r[i] == FormatGroup(kept[i])
    ensures forall g :: g in all ==> exists l :: l in r && l.id == g.id
  {
    forall g | g in all ensures exists l :: l in r && l.id == g.id {
      assert GroupId(g) in Keys(all, GroupId);
      var h :| h in kept && GroupId(h) == GroupId(g);
      var i :| 0 <= i < |kept| && kept[i] == h;
      assert r[i] in r;
    }
  }

  /** The rows `handleCreateGroup` inserts: the creator first, then each selected
      friend in order; every row accepted and sent by the creator. */
  function CreateGroupRows(groupId: string, creatorId: string, friendIds: seq<string>)
    : (rows: seq<MemberInsert>)
    ensures |rows| == |friendIds| + 1
    ensures rows[0].userId == creatorId
    ensures forall i :: 0 <= i < |friendIds| ==> rows[i + 1].userId == friendIds[i]
    ensures forall row :: row in rows ==>
              row.groupId == groupId && row.senderId == creatorId && row.status == Accepted
  {
    [MemberInsert(groupId, creatorId, creatorId, Accepted)]
      + seq(|friendIds|, i requires 0 <= i < |friendIds| =>
              MemberInsert(groupId, friendIds[i], creatorId, Accepted))
  }

  /** After creation the group's members are exactly the creator and the
      selected friends. */
  lemma CreatedGroupMembers(groupId: string, creatorId: string, friendIds: seq<string>)
    ensures (set row | row in CreateGroupRows(groupId, creatorId, friendIds) :: row.userId)
            == {creatorId} + set id | id in friendIds
  {
    var rows := CreateGroupRows(groupId, creatorId, friendIds);
    forall id | id in friendIds ensures exists row :: row in rows && row.userId == id {
      var i :| 0 <= i < |friendIds| && friendIds[i] == id;
      assert rows[i + 1] in rows;
    }
    forall row | row in rows ensures row.userId == creatorId || row.userId in friendIds {
      var k :| 0 <= k < |rows| && rows[k] == row;
      if k > 0 {
        assert rows[k].userId == friendIds[k - 1];
      }
    }
    assert rows[0] in rows;
  }

  /** The stored rows, with the numeric ids the table hands out from `first`. */
  function StoredRows(first: nat, inserts: seq<MemberInsert>): (rows: seq<MemberRow>)
    ensures |rows| == |inserts|
    ensures forall i :: 0 <= i < |inserts| ==>
              rows[i] == MemberRow(first + i, inserts[i].groupId, inserts[i].userId,
                                   inserts[i].senderId, inserts[i].status)
  {
    seq(|inserts|, i requires 0 <= i < |inserts| =>
          MemberRow(first + i, inserts[i].groupId, inserts[i].userId,
                    inserts[i].senderId, inserts[i].status))
  }

  /** What `handleInviteMember` does with the record it finds. */
  datatype InviteAction = AlreadyInvited | AlreadyMember | Reinvite(rowId: nat) | InviteNew

  /** The invite decision table: pending and accepted records refuse with a
      message, a rejected record is reopened in place, no record means a new
      invitation. */
  function InviteDecision(existing: Option<MemberRow>): (a: InviteAction)
    ensures existing.None? <==> a.InviteNew?
    ensures existing.Some? ==>
              && (existing.value.status == Pending <==> a.AlreadyInvited?)
              && (existing.value.status == Accepted <==> a.AlreadyMember?)
              && (existing.value.status == Rejected <==> a == Reinvite(existing.value.id))
  {
    match existing
    case None => InviteNew
    case Some(row) =>
      match row.status
      case Pending => AlreadyInvited
      case Accepted => AlreadyMember
      case Rejected => Reinvite(row.id)
  }

  const InviteAlreadySent := "邀請已發送"
  const AlreadyInGroup := "用戶已在群組中"
  const InviteFailed := "邀請失敗"

  /** `alert(error?.message || '邀請失敗')`. */
  function AlertText(message: string): (t: string)
    ensures t != ""
    ensures message != "" ==> t == message
  {
    if message != "" then message else InviteFailed
  }

  function InGroupAs(groupId: string, userId: string): MemberRow -> bool
  {
    (row: MemberRow) => row.groupId == groupId && row.userId == userId
  }

  function NotInGroupAs(groupId: string, userId: string): MemberRow -> bool
  {
    (row: MemberRow) => !(row.groupId == groupId && row.userId == userId)
  }

  function MemberIdIs(id: nat): MemberRow -> bool
  {
    (row: MemberRow) => row.id == id
  }

  function Reopened(): MemberRow -> MemberRow
  {
    (row: MemberRow) => row.(status := Pending)
  }

  function NotBetween(a: string, b: string): FriendshipRow -> bool
  {
    (f: FriendshipRow) => !Connects(f, a, b)
  }

  /** `.single()`: the row when exactly one matches; none and several both
      give the "no rows" error code, which the invite flow reads as "no record". */
  function Single(rows: seq<MemberRow>, match_: MemberRow -> bool): (r: Option<MemberRow>)
    ensures r.Some? ==> r.value in rows && match_(r.value)
    ensures r.Some? <==> |Filter(rows, match_)| == 1
  {
    var hits := Filter(rows, match_);
    if |hits| == 1 then
      assert hits[0] in hits;
      Some(hits[0])
    else None
  }

  /** `isFriendInGroup`: false without a member list, otherwise whether some
      member is that user. */
  function IsFriendInGroup(group: Option<LuckyGroup>, friendId: string): (b: bool)
    ensures b <==> group.Some? && group.value.members.Some?
                   && exists m :: m in group.value.members.value && m.user.id == friendId
  {
    match group
    case None => false
    case Some(g) =>
      match g.members
      case None => false
      case Some(ms) => Any(ms, (m: GroupMember) => m.user.id == friendId)
  }

  /** "Leave group" is offered on groups someone else created. */
  predicate ShowLeaveButton(group: LuckyGroup, viewerId: string)
  {
    group.createdBy != viewerId
  }

  /** "Invite new member" is offered in the details of a group the viewer created. */
  predicate ShowInviteButton(selected: Option<LuckyGroup>, viewerId: string)
  {
    selected.Some? && selected.value.createdBy == viewerId
  }

  /** "Remove member" is offered to the creator, on every member but themself. */
  predicate ShowRemoveMemberButton(group: LuckyGroup, member: GroupMember, viewerId: string)
  {
    group.createdBy == viewerId && member.user.id != viewerId
  }

  /** The creator manages a group and cannot leave it; everyone else can leave
      it and cannot manage it. */
  lemma CreatorOnlyButtons(group: LuckyGroup, member: GroupMember, viewerId: string)
    ensures ShowLeaveButton(group, viewerId) <==> !ShowInviteButton(Some(group), viewerId)
    ensures ShowRemoveMemberButton(group, member, viewerId) ==>
              !ShowLeaveButton(group, viewerId) && member.user.id != viewerId
  {
  }

  /** The invite modal's button for one friend: disabled for members and while
      that friend's invitation is in flight. */
  predicate InviteButtonDisabled(group: Option<LuckyGroup>, friendId: string,
                                 invitingFriendId: Option<string>)
  {
    IsFriendInGroup(group, friendId) || invitingFriendId == Some(friendId)
  }

  /** Members of the target group can never be invited again; a friend whose
      invitation is in flight cannot be clicked twice; with nothing in flight
      (as after every `handleInviteMember`) and no target group, every button
      is enabled. */
  lemma InviteButtonRule(group: Option<LuckyGroup>, friendId: string,
                         invitingFriendId: Option<string>)
    ensures (exists m :: group.Some? && group.value.members.Some? &&
               m in group.value.members.value && m.user.id == friendId) ==>
              InviteButtonDisabled(group, friendId, invitingFriendId)
    ensures invitingFriendId == Some(friendId) ==> InviteButtonDisabled(group, friendId, invitingFriendId)
    ensures invitingFriendId.None? ==>
              (InviteButtonDisabled(group, friendId, invitingFriendId) <==> IsFriendInGroup(group, friendId))
    ensures invitingFriendId.None? && group.None? ==> !InviteButtonDisabled(group, friendId, invitingFriendId)
  {
  }

  class LuckyFriendsPage {
    var userId: Option<string>
    var groupRows: seq<GroupRow>
    var memberRows: seq<MemberRow>
    var friendships: seq<FriendshipRow>
    var nextRowId: nat
    var selectedGroupForInvite: Option<LuckyGroup>
    var inviteModalOpen: bool
    var invitingFriendId: Option<string>
    var alerts: seq<string>

    constructor (userId: Option<string>, groupRows: seq<GroupRow>, memberRows: seq<MemberRow>,
                 friendships: seq<FriendshipRow>, nextRowId: nat)
      ensures this.userId == userId && this.groupRows == groupRows
      ensures this.memberRows == memberRows && this.friendships == friendships
      ensures this.nextRowId == nextRowId
      ensures selectedGroupForInvite.None? && !inviteModalOpen
      ensures invitingFriendId.None? && alerts == []
    {
      this.userId := userId;
      this.groupRows := groupRows;
      this.memberRows := memberRows;
      this.friendships := friendships;
      this.nextRowId := nextRowId;
      selectedGroupForInvite := None;
      inviteModalOpen := false;
      invitingFriendId := None;
      alerts := [];
    }

    /** `handleCreateGroup`: without a user nothing happens; otherwise the group
        row is inserted and, if that succeeds, the creator and the selected
        friends are inserted as accepted members. */
    method HandleCreateGroup(name: string, selectedFriendIds: seq<string>,
                             groupReply: Result<string>, membersReply: Outcome)
      modifies this`groupRows, this`memberRows, this`nextRowId
      ensures userId.None? || groupReply.Err? ==>
                groupRows == old(groupRows) && memberRows == old(memberRows)
                && nextRowId == old(nextRowId)
      ensures userId.Some? && groupReply.Ok? ==>
                groupRows == old(groupRows) + [GroupRow(groupReply.value, name, userId.value)]
      ensures userId.Some? && groupReply.Ok? && membersReply.Fail? ==>
                memberRows == old(memberRows) && nextRowId == old(nextRowId)
      ensures userId.Some? && groupReply.Ok? && membersReply.Pass? ==>
                var inserts := CreateGroupRows(groupReply.value, userId.value, selectedFriendIds);
                && memberRows == old(memberRows) + StoredRows(old(nextRowId), inserts)
                && nextRowId == old(nextRowId) + |inserts|
    {
      if userId.None? {
        return;
      }
      if groupReply.Err? {
        return;
      }
      var groupId := groupReply.value;
      groupRows := groupRows + [GroupRow(groupId, name, userId.value)];
      var inserts := CreateGroupRows(groupId, userId.value, selectedFriendIds);
      if membersReply.Pass? {
        memberRows := memberRows + StoredRows(nextRowId, inserts);
        nextRowId := nextRowId + |inserts|;
      }
    }

    /** `handleOpenInviteModal`: the group becomes the invite target and the
        invite modal opens (a group object is never falsy). */
    method HandleOpenInviteModal(group: LuckyGroup)
      modifies this`selectedGroupForInvite, this`inviteModalOpen
      ensures selectedGroupForInvite == Some(group) && inviteModalOpen
    {
      selectedGroupForInvite := Some(group);
      inviteModalOpen := true;
    }

    /** Closing the invite modal clears the invite target, after which an
        invitation changes nothing. */
    method CloseInviteModal()
      modifies this`selectedGroupForInvite, this`inviteModalOpen
      ensures selectedGroupForInvite.None? && !inviteModalOpen
    {
      selectedGroupForInvite := None;
      inviteModalOpen := false;
    }

    /** `handleInviteMember`: looks up the friend's unique membership row in the
        selected group and follows `InviteDecision`; refusals and failed writes
        raise an alert and change no row. */
    method HandleInviteMember(friendId: string, lookup: Outcome, write: Outcome)
      modifies this`memberRows, this`nextRowId, this`invitingFriendId, this`alerts
      ensures userId.None? || selectedGroupForInvite.None? ==>
                && memberRows == old(memberRows) && nextRowId == old(nextRowId)
                && invitingFriendId == old(invitingFriendId) && alerts == old(alerts)
      ensures userId.Some? && selectedGroupForInvite.Some? ==> invitingFriendId.None?
      ensures userId.Some? && selectedGroupForInvite.Some? ==>
                forall f :: (InviteButtonDisabled(selectedGroupForInvite, f, invitingFriendId)
                             <==> IsFriendInGroup(selectedGroupForInvite, f))
      ensures userId.Some? && selectedGroupForInvite.Some? && lookup.Fail? ==>
                && memberRows == old(memberRows) && nextRowId == old(nextRowId)
                && alerts == old(alerts) + [AlertText(lookup.message)]
      ensures userId.Some? && selectedGroupForInvite.Some? && lookup.Pass? ==>
                var groupId := selectedGroupForInvite.value.id;
                var action := InviteDecision(Single(old(memberRows), InGroupAs(groupId, friendId)));
                && (action.AlreadyInvited? ==>
                      memberRows == old(memberRows) && alerts == old(alerts) + [InviteAlreadySent])
                && (action.AlreadyMember? ==>
                      memberRows == old(memberRows) && alerts == old(alerts) + [AlreadyInGroup])
                && (!action.AlreadyInvited? && !action.AlreadyMember? && write.Fail? ==>
                      && memberRows == old(memberRows) && nextRowId == old(nextRowId)
                      && alerts == old(alerts) + [AlertText(write.message)])
                && (action.Reinvite? && write.Pass? ==>
                      && memberRows == MapWhere(old(memberRows), MemberIdIs(action.rowId), Reopened())
                      && alerts == old(alerts))
                && (action.InviteNew? && write.Pass? ==>
                      && memberRows == old(memberRows)
                           + [MemberRow(old(nextRowId), groupId, friendId, userId.value, Pending)]
                      && nextRowId == old(nextRowId) + 1
                      && alerts == old(alerts))
                && (!action.InviteNew? ==> nextRowId == old(nextRowId))
    {
      if userId.None? || selectedGroupForInvite.None? {
        return;
      }
      invitingFriendId := Some(friendId);
      var groupId := selectedGroupForInvite.value.id;
      if lookup.Fail? {
        alerts := alerts + [AlertText(lookup.message)];
      } else {
        var action := InviteDecision(Single(memberRows, InGroupAs(groupId, friendId)));
        match action
        case AlreadyInvited =>
          alerts := alerts + [InviteAlreadySent];
        case AlreadyMember =>
          alerts := alerts + [AlreadyInGroup];
        case Reinvite(rowId) =>
          if write.Pass? {
            memberRows := MapWhere(memberRows, MemberIdIs(rowId), Reopened());
          } else {
            alerts := alerts + [AlertText(write.message)];
          }
        case InviteNew =>
          if write.Pass? {
            memberRows := memberRows + [MemberRow(nextRowId, groupId, friendId, userId.value, Pending)];
            nextRowId := nextRowId + 1;
          } else {
            alerts := alerts + [AlertText(write.message)];
          }
      }
      invitingFriendId := None;
    }

    /** `handleLeaveGroup`: deletes the viewer's rows in that group. */
    method HandleLeaveGroup(groupId: string, reply: Outcome)
      modifies this`memberRows
      ensures userId.Some? && reply.Pass? ==>
                memberRows == Filter(old(memberRows), NotInGroupAs(groupId, userId.value))
      ensures userId.None? || reply.Fail? ==> memberRows == old(memberRows)
    {
      if userId.Some? && reply.Pass? {
        memberRows := Filter(memberRows, NotInGroupAs(groupId, userId.value));
      }
    }

    /** `handleRemoveMember`: reads the user of member row `memberId`, then
        deletes that user's rows in the group. */
    method HandleRemoveMember(groupId: string, memberId: nat, reply: Outcome)
      modifies this`memberRows
      ensures var row := Single(old(memberRows), MemberIdIs(memberId));
        && (userId.Some? && row.Some? && reply.Pass? ==>
              memberRows == Filter(old(memberRows), NotInGroupAs(groupId, row.value.userId)))
        && (userId.None? || row.None? || reply.Fail? ==> memberRows == old(memberRows))
    {
      if userId.None? {
        return;
      }
      var row := Single(memberRows, MemberIdIs(memberId));
      if row.Some? && reply.Pass? {
        memberRows := Filter(memberRows, NotInGroupAs(groupId, row.value.userId));
      }
    }

    /** `handleRemoveFriend`: deletes the friendship rows in both directions. */
    method HandleRemoveFriend(friendId: string, reply: Outcome)
      modifies this`friendships
      ensures userId.Some? && reply.Pass? ==>
                friendships == Filter(old(friendships), NotBetween(userId.value, friendId))
      ensures userId.None? || reply.Fail? ==> friendships == old(friendships)
    {
      if userId.Some? && reply.Pass? {
        friendships := Filter(friendships, NotBetween(userId.value, friendId));
      }
    }
  }

  /** Removing a friend leaves no row between the two users in either
      direction and keeps every other row, as often as before. */
  lemma RemoveFriendDeletesBothDirections(rows: seq<FriendshipRow>, userId: string,
                                          friendId: string)
    ensures var r := Filter(rows, NotBetween(userId, friendId));
      && (forall f :: f in r ==> !Connects(f, userId, friendId) && !Connects(f, friendId, userId))
      && (forall f :: !Connects(f, userId, friendId) ==> multiset(r)[f] == multiset(rows)[f])
  {
    var r := Filter(rows, NotBetween(userId, friendId));
    forall f | f in r ensures !Connects(f, userId, friendId) && !Connects(f, friendId, userId) {
      assert NotBetween(userId, friendId)(f);
    }
    forall f | !Connects(f, userId, friendId) ensures multiset(r)[f] == multiset(rows)[f] {
      assert NotBetween(userId, friendId)(f);
    }
  }

  /** Leaving (or removing a member) deletes exactly that user's rows in that
      group: none of them remain, every other row is kept. */
  lemma LeaveDeletesOnlyThatMembership(rows: seq<MemberRow>, groupId: string, userId: string)
    ensures var r := Filter(rows, NotInGroupAs(groupId, userId));
      && (forall row :: row in r ==> !(row.groupId == groupId && row.userId == userId))
      && (forall row :: row in rows && (row.groupId != groupId || row.userId != userId) ==> row in r)
  {
    var r := Filter(rows, NotInGroupAs(groupId, userId));
    forall row | row in r ensures !(row.groupId == groupId && row.userId == userId) {
      assert NotInGroupAs(groupId, userId)(row);
    }
    forall row | row in rows && (row.groupId != groupId || row.userId != userId)
      ensures row in r
    {
      assert NotInGroupAs(groupId, userId)(row);
    }
  }

  /** Reopening a rejected invitation touches only that row, and only its status. */
  lemma ReinviteTouchesOnlyThatRow(rows: seq<MemberRow>, id: nat)
    ensures var r := MapWhere(rows, MemberIdIs(id), Reopened());
      && |r| == |rows|
      && (forall i :: 0 <= i < |rows| && rows[i].id == id ==> r[i] == rows[i].(status := Pending))
      && (forall i :: 0 <= i < |rows| && rows[i].id != id ==> r[i] == rows[i])
  {
    var r := MapWhere(rows, MemberIdIs(id), Reopened());
    forall i | 0 <= i < |rows|
      ensures rows[i].id == id ==> r[i] == rows[i].(status := Pending)
      ensures rows[i].id != id ==> r[i] == rows[i]
    {
      assert MemberIdIs(id)(rows[i]) <==> rows[i].id == id;
    }
  }
}
