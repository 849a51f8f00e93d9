/** The group controller: a table of groups, each with a name, an owner, an
    ordered member list and an optional share code, and the six handlers that
    create, join, leave, inspect and list groups and hand out share codes. */
module Groups {
  import opened Common
  import opened Strings
  import opened Lists

  datatype Group = Group(name: string, owner: UserId, members: seq<UserId>, shareCode: Option<string>)

  /** What every stored group satisfies: the owner is a member, no one is listed twice. */
  predicate WellFormed(g: Group)
  {
    g.owner in g.members && NoDuplicates(g.members)
  }

  /** The group a successful join produces: the caller pushed at the end of the members. */
  function Joined(g: Group, caller: UserId): (r: Group)
    ensures r.name == g.name && r.owner == g.owner && r.shareCode == g.shareCode
    ensures multiset(r.members) == multiset(g.members) + multiset{caller}
    ensures r.members[|r.members| - 1] == caller
  {
    g.(members := g.members + [caller])
  }

  /** The group a successful leave produces: the caller's first occurrence spliced out. */
  function Left(g: Group, caller: UserId): (r: Group)
    requires caller in g.members
    ensures r.name == g.name && r.owner == g.owner && r.shareCode == g.shareCode
    ensures multiset(r.members) == multiset(g.members) - multiset{caller}
  {
    SpliceMultiset(g.members, IndexOf(g.members, caller));
    g.(members := Splice(g.members, IndexOf(g.members, caller)))
  }

  /** Joining keeps earlier members in place, puts the caller last, and keeps the group well formed. */
  lemma JoinPreserves(g: Group, caller: UserId)
    requires WellFormed(g) && caller !in g.members
    ensures WellFormed(Joined(g, caller))
    ensures Joined(g, caller).members[..|g.members|] == g.members
    ensures Joined(g, caller).members[|g.members|] == caller
    ensures Joined(g, caller).owner == g.owner && Joined(g, caller).name == g.name
  {
    PushNoDuplicates(g.members, caller);
  }

  /** Leaving (by anyone but the owner) removes the caller and no one else, and keeps the
      owner a member: the group stays well formed. */
  lemma LeavePreserves(g: Group, caller: UserId)
    requires WellFormed(g) && caller in g.members && caller != g.owner
    ensures WellFormed(Left(g, caller))
    ensures caller !in Left(g, caller).members
    ensures forall u :: u != caller ==> (u in Left(g, caller).members <==> u in g.members)
    ensures |Left(g, caller).members| == |g.members| - 1
  {
    SpliceNoDuplicates(g.members, IndexOf(g.members, caller));
  }

  /** A share code as `crypto.randomBytes(6).toString('hex')` produces it. */
  function ShareCodeOf(random: seq<Byte>): (code: string)
    requires |random| == 6
    ensures |code| == 12 && forall i :: 0 <= i < 12 ==> IsHexDigit(code[i])
  {
    HexEncode(random)
  }

  class GroupStore {
    var groups: map<GroupId, Group>
    var nextId: GroupId

    ghost predicate Valid()
      reads this
    {
      && (forall id :: id in groups ==> id < nextId)
      && (forall id :: id in groups ==> WellFormed(groups[id]))
    }

    constructor ()
      ensures Valid() && groups == map[]
    {
      groups := map[];
      nextId := 0;
    }

    /** createGroup: 400 unless the name is present and not all whitespace; otherwise a
        new group named by the trimmed name, owned by the caller, whose only member is the caller. */
    method CreateGroup(caller: UserId, name: Option<string>) returns (status: Status, id: Option<GroupId>)
      requires Valid()
      modifies this
      ensures Valid()
      ensures status == BadRequest <==> !TruthyText(name) || Trim(name.value) == ""
      ensures status == BadRequest ==> id == None && groups == old(groups)
      ensures status != BadRequest ==>
        && status == Created && id == Some(old(nextId)) && old(nextId) !in old(groups)
        && groups == old(groups)[old(nextId) := Group(Trim(name.value), caller, [caller], None)]
    {
      if !TruthyText(name) || Trim(name.value) == "" {
        return BadRequest, None;
      }
      var g := Group(Trim(name.value), caller, [caller], None);
      id := Some(nextId);
      groups := groups[nextId := g];
      nextId := nextId + 1;
      status := Created;
    }

    /** joinGroup: 404 for an unknown group, 400 for a caller already in it (the store
        unchanged in both cases), otherwise the caller is pushed onto the member list. */
    method JoinGroup(caller: UserId, id: GroupId) returns (status: Status)
      requires Valid()
      modifies this
      ensures Valid() && nextId == old(nextId)
      ensures id !in old(groups) ==> status == NotFound && groups == old(groups)
      ensures id in old(groups) && caller in old(groups)[id].members ==>
        status == BadRequest && groups == old(groups)
      ensures id in old(groups) && caller !in old(groups)[id].members ==>
        status == Ok && groups == old(groups)[id := Joined(old(groups)[id], caller)]
    {
      if id !in groups {
        return NotFound;
      }
      var g := groups[id];
      if caller in g.members {
        return BadRequest;
      }
      JoinPreserves(g, caller);
      groups := groups[id := g.(members := g.members + [caller])];
      status := Ok;
    }

    /** getShareCode: 404 for an unknown group, 403 for anyone but the owner; the owner gets
        a fresh 12-hex-digit code, which is recorded on the group and nothing else changes. */
    method GetShareCode(caller: UserId, id: GroupId, random: seq<Byte>) returns (status: Status, code: Option<string>)
      requires Valid() && |random| == 6
      modifies this
      ensures Valid() && nextId == old(nextId)
      ensures id !in old(groups) ==> status == NotFound && code == None && groups == old(groups)
      ensures id in old(groups) && old(groups)[id].owner != caller ==>
        status == Forbidden && code == None && groups == old(groups)
      ensures id in old(groups) && old(groups)[id].owner == caller ==>
        && status == Ok && code == Some(ShareCodeOf(random))
        && groups == old(groups)[id := old(groups)[id].(shareCode := code)]
    {
      if id !in groups {
        return NotFound, None;
      }
      var g := groups[id];
      if g.owner != caller {
        return Forbidden, None;
      }
      var shareCode := ShareCodeOf(random);
      groups := groups[id := g.(shareCode := Some(shareCode))];
      status, code := Ok, Some(shareCode);
    }

    /** leaveGroup: 404 for an unknown group, then 403 for the owner, then 400 for a
        non-member; otherwise the caller's first occurrence is spliced out of the members. */
    method LeaveGroup(caller: UserId, id: GroupId) returns (status: Status)
      requires Valid()
      modifies this
      ensures Valid() && nextId == old(nextId)
      ensures status != Ok ==> groups == old(groups)
      ensures id !in old(groups) ==> status == NotFound
      ensures id in old(groups) && old(groups)[id].owner == caller ==> status == Forbidden
      ensures id in old(groups) && old(groups)[id].owner != caller && caller !in old(groups)[id].members ==>
        status == BadRequest
      ensures id in old(groups) && old(groups)[id].owner != caller && caller in old(groups)[id].members ==>
        status == Ok && groups == old(groups)[id := Left(old(groups)[id], caller)]
    {
      if id !in groups {
        return NotFound;
      }
      var g := groups[id];
      if g.owner == caller {
        return Forbidden;
      }
      var memberIndex := IndexOf(g.members, caller);
      if memberIndex == -1 {
        return BadRequest;
      }
      LeavePreserves(g, caller);
      groups := groups[id := g.(members := Splice(g.members, memberIndex))];
      status := Ok;
    }

    /** getGroupInfo: 404 for an unknown group, 403 unless the caller is a member,
        otherwise the stored group itself. */
    method GetGroupInfo(caller: UserId, id: GroupId) returns (status: Status, group: Option<Group>)
      ensures status == Ok <==> id in groups && caller in groups[id].members
      ensures status == Ok ==> group == Some(groups[id])
      ensures status != Ok ==> group == None
      ensures id !in groups ==> status == NotFound
      ensures id in groups && caller !in groups[id].members ==> status == Forbidden
    {
      if id !in groups {
        return NotFound, None;
      }
      var g := groups[id];
      if caller !in g.members {
        return Forbidden, None;
      }
      status, group := Ok, Some(g);
    }

    /** getUserGroups: exactly the stored groups whose member list holds the caller. */
    method GetUserGroups(caller: UserId) returns (mine: map<GroupId, Group>)
      ensures forall id :: id in mine <==> id in groups && caller in groups[id].members
      ensures forall id :: id in mine ==> mine[id] == groups[id]
      ensures Valid() ==> forall id :: id in groups && groups[id].owner == caller ==> id in mine
    {
      mine := map id | id in groups && caller in groups[id].members :: groups[id];
    }
  }

  /** Create and join: the creator is the only member, a second user joins once,
      and joining again is refused with the group unchanged. */
  method TripScenario(a: UserId, b: UserId) returns (store: GroupStore, trip: GroupId)
    requires a != b
    ensures store.Valid() && trip in store.groups
    ensures store.groups[trip].owner == a && store.groups[trip].members == [a, b]
  {
    store := new GroupStore();
    TrimOfTrimmed("Trip");
    var status, id := store.CreateGroup(a, Some("Trip"));
    assert status == Created;
    trip := id.value;
    status := store.JoinGroup(b, trip);
    assert status == Ok;
    status := store.JoinGroup(b, trip);
    assert status == BadRequest;
  }

  /** Leaving that group: the owner cannot leave, the joined member can, and afterwards
      is gone from the group while the owner stays. */
  method LeaveTripScenario(store: GroupStore, trip: GroupId, a: UserId, b: UserId)
    requires a != b && store.Valid() && trip in store.groups
    requires store.groups[trip].owner == a && store.groups[trip].members == [a, b]
    modifies store
    ensures store.Valid() && trip in store.groups && store.groups[trip].members == [a]
  {
    var status := store.LeaveGroup(a, trip);
    assert status == Forbidden;
    assert IndexOf([a, b], b) == 1;
    assert Splice([a, b], 1) == [a];
    status := store.LeaveGroup(b, trip);
    assert status == Ok;
  }
}
