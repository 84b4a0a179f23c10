/** The "create lucky group" modal: its form state and the submit flow, which
    checks the name, then the selection, then hands both to the page's
    `onCreateGroup` and closes itself only when that succeeds. The calls the
    modal makes to its parent are recorded in `calls`. */
module CreateGroupModal {
  import opened Wrappers
  import opened Text
  import opened Select

  datatype Friend = Friend(id: string, name: string, email: string)

  /** A call from the modal to its parent. */
  datatype Call = CreateGroup(name: string, friendIds: seq<string>) | CloseModal

  const EnterGroupName := "請輸入群組名稱"
  const SelectAFriend := "請至少選擇一位好友"
  const CreateFailed := "建立群組失敗，請稍後再試"
  const FriendsPlaceholder := "選擇好友..."

  /** `friends.map(friend => ({ value: friend.id, label: friend.name }))`. */
  function FriendOptions(friends: seq<Friend>): seq<SelectOption>
  {
    seq(|friends|, i requires 0 <= i < |friends| => SelectOption(friends[i].id, friends[i].name))
  }

  /** The friend picker lists every friend once, in order, and its button
      counts the selected friends that are still among the friends. */
  lemma FriendPickerLabel(friends: seq<Friend>, selected: seq<string>)
    ensures |FriendOptions(friends)| == |friends|
    ensures (forall i :: 0 <= i < |friends| ==> friends[i].id !in selected) ==>
              ButtonLabel(FriendOptions(friends), Many(selected), true, FriendsPlaceholder)
                == FriendsPlaceholder
    ensures (exists i :: 0 <= i < |friends| && friends[i].id in selected) ==>
              ButtonLabel(FriendOptions(friends), Many(selected), true, FriendsPlaceholder)
                == NatToString(|SelectedOptions(FriendOptions(friends), Many(selected), true).options|)
                   + CountSuffix
  {
    var opts := FriendOptions(friends);
    assert forall i :: 0 <= i < |friends| ==> opts[i].value == friends[i].id;
    MultipleLabel(opts, selected, FriendsPlaceholder);
  }

  /** The message the submit checks produce, in their order: a blank name
      first, then an empty selection. */
  function SubmitError(groupName: string, selectedFriends: seq<string>): (e: Option<string>)
    ensures e == Some(EnterGroupName) <==> IsBlank(groupName)
    ensures e == Some(SelectAFriend) <==> !IsBlank(groupName) && selectedFriends == []
    ensures e.None? <==> !IsBlank(groupName) && selectedFriends != []
  {
    if IsBlank(groupName) then Some(EnterGroupName)
    else if selectedFriends == [] then Some(SelectAFriend)
    else None
  }

  class CreateLuckyGroupModal {
    var groupName: string
    var selectedFriends: seq<string>
    var isSubmitting: bool
    var error: string
    var calls: seq<Call>

    constructor ()
      ensures groupName == "" && selectedFriends == [] && !isSubmitting && error == ""
      ensures calls == []
    {
      groupName := "";
      selectedFriends := [];
      isSubmitting := false;
      error := "";
      calls := [];
    }

    /** The name input's `onChange`. */
    method HandleNameChange(value: string)
      modifies this`groupName
      ensures groupName == value
    {
      groupName := value;
    }

    /** The picker's `onChange`: `Array.isArray(value) ? value : [value]`. */
    method HandleSelectChange(value: SelectValue)
      modifies this`selectedFriends
      ensures value.Many? ==> selectedFriends == value.values
      ensures value.One? ==> selectedFriends == [value.value]
    {
      match value
      case Many(vs) => selectedFriends := vs;
      case One(v) => selectedFriends := [v];
    }

    /** `handleSubmit`. `createFails` says whether `onCreateGroup` throws;
        `submittingDuringCall` is `isSubmitting` while it runs. A refused form
        shows its message and calls nothing; otherwise the untrimmed name and
        the selection go to `onCreateGroup`, the modal closes after a success
        and shows the failure message otherwise, and `isSubmitting` is false
        again either way. `createFails` says whether `onCreateGroup` threw; the
        lucky friends page passes a handler that catches every error, so there
        it is always false. */
    method HandleSubmit(createFails: bool) returns (submittingDuringCall: bool)
      modifies this`error, this`isSubmitting, this`calls
      ensures SubmitError(groupName, selectedFriends).Some? ==>
                && error == SubmitError(groupName, selectedFriends).value
                && calls == old(calls) && isSubmitting == old(isSubmitting)
      ensures SubmitError(groupName, selectedFriends).None? ==>
                submittingDuringCall && !isSubmitting
      ensures SubmitError(groupName, selectedFriends).None? && !createFails ==>
                && error == ""
                && calls == old(calls) + [CreateGroup(groupName, selectedFriends), CloseModal]
      ensures SubmitError(groupName, selectedFriends).None? && createFails ==>
                && error == CreateFailed
                && calls == old(calls) + [CreateGroup(groupName, selectedFriends)]
    {
      submittingDuringCall := isSubmitting;
      error := "";
      if IsBlank(groupName) {
        error := EnterGroupName;
        return;
      }
      if |selectedFriends| == 0 {
        error := SelectAFriend;
        return;
      }
      isSubmitting := true;
      submittingDuringCall := isSubmitting;
      calls := calls + [CreateGroup(groupName, selectedFriends)];
      if createFails {
        error := CreateFailed;
      } else {
        calls := calls + [CloseModal];
      }
      isSubmitting := false;
    }
  }
}
