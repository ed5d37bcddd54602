/** The profiles table: the role lookup the edge functions make with
    `.eq('id', id).single()`, and the role change that both the edge function
    writes and the admin page mirrors in its user list. */
module Profiles {
  import opened Wrappers
  import opened Inventory

  /** No two profiles share an id (the table's primary key). */
  predicate UniqueIds(ps: seq<Profile>)
  {
    forall i, j :: 0 <= i < j < |ps| ==> ps[i].id != ps[j].id
  }

  /** The role of the profile with the id; None when there is none, which
      `.single()` reports as an error. */
  function RoleOf(ps: seq<Profile>, id: string): (r: Option<string>)
    ensures r.None? <==> forall k :: 0 <= k < |ps| ==> ps[k].id != id
    ensures r.Some? ==> exists k :: 0 <= k < |ps| && ps[k].id == id && ps[k].role == r.value
  {
    if ps == [] then None
    else if ps[0].id == id then Some(ps[0].role)
    else RoleOf(ps[1..], id)
  }

  /** With unique ids the lookup finds the one profile with that id. */
  lemma {:induction false} RoleOfUnique(ps: seq<Profile>, k: nat)
    requires UniqueIds(ps) && k < |ps|
    ensures RoleOf(ps, ps[k].id) == Some(ps[k].role)
  {
    if k > 0 {
      assert ps[0].id != ps[k].id;
      assert ps[1..][k - 1] == ps[k];
      RoleOfUnique(ps[1..], k - 1);
    }
  }

  /** `ps.map(u => u.id === id ? { ...u, role } : u)`, and the update
      `.update({ role }).eq('id', id)`. */
  function SetRole(ps: seq<Profile>, id: string, role: string): (r: seq<Profile>)
    ensures |r| == |ps|
    ensures forall k :: 0 <= k < |ps| ==> r[k].id == ps[k].id && r[k].email == ps[k].email
    ensures forall k :: 0 <= k < |ps| ==> r[k].role == if ps[k].id == id then role else ps[k].role
  {
    if ps == [] then []
    else [if ps[0].id == id then ps[0].(role := role) else ps[0]] + SetRole(ps[1..], id, role)
  }

  /** After the change the id has the new role, when it exists, and every
      other id keeps the role it had; ids stay unique. */
  lemma SetRoleEffect(ps: seq<Profile>, id: string, role: string, other: string)
    requires other != id
    ensures RoleOf(SetRole(ps, id, role), id) == if RoleOf(ps, id).Some? then Some(role) else None
    ensures RoleOf(SetRole(ps, id, role), other) == RoleOf(ps, other)
    ensures UniqueIds(ps) ==> UniqueIds(SetRole(ps, id, role))
  {
    SetRoleLookup(ps, id, role, id);
    SetRoleLookup(ps, id, role, other);
    var r := SetRole(ps, id, role);
    assert forall k :: 0 <= k < |ps| ==> r[k].id == ps[k].id;
  }

  /** The lookup of any id after the change: the changed id reads the new
      role, any other id what it read before. */
  lemma {:induction false} SetRoleLookup(ps: seq<Profile>, id: string, role: string, q: string)
    ensures RoleOf(SetRole(ps, id, role), q) ==
      if q != id then RoleOf(ps, q) else if RoleOf(ps, id).Some? then Some(role) else None
  {
    if ps != [] {
      SetRoleLookup(ps[1..], id, role, q);
      assert SetRole(ps, id, role)[1..] == SetRole(ps[1..], id, role);
    }
  }

  /** Setting the same role twice is the same as setting it once. */
  lemma {:induction false} SetRoleIdempotent(ps: seq<Profile>, id: string, role: string)
    ensures SetRole(SetRole(ps, id, role), id, role) == SetRole(ps, id, role)
  {
    if ps != [] {
      SetRoleIdempotent(ps[1..], id, role);
      assert SetRole(ps, id, role)[1..] == SetRole(ps[1..], id, role);
    }
  }

  /** A list without the id is left as it is. */
  lemma SetRoleAbsent(ps: seq<Profile>, id: string, role: string)
    requires forall k :: 0 <= k < |ps| ==> ps[k].id != id
    ensures SetRole(ps, id, role) == ps
  {
    assert forall k :: 0 <= k < |ps| ==> SetRole(ps, id, role)[k] == ps[k];
  }
}
