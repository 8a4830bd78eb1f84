/** The workspace routing table of internal/host/server.go, and the loop that swaps it
    over to rebuilt Runtimes. */
module Routing {
  import opened Common
  import opened Connections

  /** A workspace identity. Identities are only compared and ordered, so numbers stand for them. */
  type WorkspaceId = nat

  /** A Runtime as the routing table holds it: `runtime` tells Runtimes of one workspace apart,
      `credential` is the key it uses, and `valid` says that the checks at the head of
      activateWorkspace (Runtime, root and identity present) pass. */
  datatype Dependencies = Dependencies(
    id: WorkspaceId, root: string, runtime: nat, credential: Reference, valid: bool)

  /** Runtimes by workspace. */
  type Runtimes = map<WorkspaceId, Dependencies>

  /** Every Runtime stands under its own workspace. */
  ghost predicate Wired(runtimes: Runtimes) {
    forall id | id in runtimes :: runtimes[id].id == id
  }

  ghost predicate Routable(runtimes: Runtimes) {
    forall id | id in runtimes :: runtimes[id].id == id && runtimes[id].valid
  }

  ghost predicate Least(id: WorkspaceId, keys: set<WorkspaceId>) {
    id in keys && forall other | other in keys :: id <= other
  }

  lemma LeastExists(keys: set<WorkspaceId>)
    requires keys != {}
    ensures exists id :: Least(id, keys)
    decreases |keys|
  {
    var one :| one in keys;
    if keys == {one} {
      assert Least(one, keys);
    } else {
      LeastExists(keys - {one});
      var other :| Least(other, keys - {one});
      var least := if one < other then one else other;
      assert forall id | id in keys :: id == one || id in keys - {one};
      assert Least(least, keys);
    }
  }

  /** The workspace an ordered traversal starts with. */
  ghost function First(keys: set<WorkspaceId>): (id: WorkspaceId)
    requires keys != {}
    ensures Least(id, keys)
  {
    LeastExists(keys);
    var id :| Least(id, keys);
    id
  }

  ghost predicate Ascending(ids: seq<WorkspaceId>) {
    ids == [] || ((forall id | id in ids[1..] :: ids[0] < id) && Ascending(ids[1..]))
  }

  /** `ids` lists `keys` in ascending order, as sorting a map's keys does. */
  ghost predicate SortedIds(ids: seq<WorkspaceId>, keys: set<WorkspaceId>) {
    Ascending(ids) && forall id :: id in ids <==> id in keys
  }

  lemma {:induction false} AscendingAt(ids: seq<WorkspaceId>, i: nat, j: nat)
    requires Ascending(ids) && i < j < |ids|
    ensures ids[i] < ids[j]
  {
    assert ids[j] == ids[1..][j - 1] && ids[1..][j - 1] in ids[1..];
    if i > 0 {
      AscendingAt(ids[1..], i - 1, j - 1);
    }
  }

  method SmallestId(keys: set<WorkspaceId>) returns (least: Option<WorkspaceId>)
    ensures keys == {} ==> least.None?
    ensures keys != {} ==> least.Some? && Least(least.value, keys)
  {
    least := None;
    var todo := keys;
    while todo != {}
      invariant todo <= keys
      invariant least.None? ==> todo == keys
      invariant least.Some? ==> least.value in keys && forall id | id in keys && id !in todo :: least.value <= id
      decreases |todo|
    {
      var next :| next in todo;
      if least.None? || next < least.value {
        least := Some(next);
      }
      todo := todo - {next};
    }
  }

  method SortIds(keys: set<WorkspaceId>) returns (ids: seq<WorkspaceId>)
    ensures SortedIds(ids, keys)
  {
    ids := [];
    var todo := keys;
    while todo != {}
      invariant Ascending(ids)
      invariant forall id :: id in ids || id in todo <==> id in keys
      invariant forall a, b | a in ids && b in todo :: a < b
      decreases |todo|
    {
      var least := SmallestId(todo);
      AppendLeast(ids, todo, least.value);
      ids, todo := ids + [least.value], todo - {least.value};
    }
  }

  lemma {:induction false} AppendLeast(ids: seq<WorkspaceId>, todo: set<WorkspaceId>, least: WorkspaceId)
    requires Ascending(ids) && Least(least, todo)
    requires forall a, b | a in ids && b in todo :: a < b
    ensures Ascending(ids + [least])
  {
    if ids != [] {
      forall a, b | a in ids[1..] && b in todo ensures a < b {
        assert a in ids;
      }
      AppendLeast(ids[1..], todo, least);
      assert (ids + [least])[1..] == ids[1..] + [least];
      assert ids[0] < least by { assert ids[0] in ids; }
    }
  }

  lemma PrefixKeys(ids: seq<WorkspaceId>, keys: set<WorkspaceId>, index: nat)
    requires SortedIds(ids, keys) && index < |ids|
    ensures ids[index] in keys && ids[index] !in ids[..index]
    ensures forall id :: id in ids[..index + 1] <==> id in ids[..index] || id == ids[index]
    ensures index > 0 ==> ids[0] != ids[index]
  {
    assert ids[index] in ids;
    assert ids[..index + 1] == ids[..index] + [ids[index]];
    forall i | 0 <= i < index ensures ids[i] != ids[index] {
      AscendingAt(ids, i, index);
    }
  }

  lemma FirstOf(ids: seq<WorkspaceId>, keys: set<WorkspaceId>)
    requires SortedIds(ids, keys) && keys != {}
    ensures ids != [] && ids[0] == First(keys)
  {
    assert First(keys) in ids;
    assert ids == [ids[0]] + ids[1..] && ids[0] in ids;
  }

  lemma SortedMembers(ids: seq<WorkspaceId>, keys: set<WorkspaceId>, id: WorkspaceId)
    requires SortedIds(ids, keys)
    ensures id in ids <==> id in keys
  {
  }

  /** What is not below `done` is at least the first ID there. */
  lemma SortedPrefix(ids: seq<WorkspaceId>, keys: set<WorkspaceId>, done: nat, k: WorkspaceId, id: WorkspaceId)
    requires SortedIds(ids, keys) && done <= |ids| && k in keys && id in keys && k <= id
    ensures id in ids[..done] ==> k in ids[..done]
    ensures id !in ids[..done] ==> done < |ids| && ids[done] in keys && ids[done] <= id
  {
    if id in ids[..done] {
      var i :| 0 <= i < done && ids[i] == id;
      var j :| 0 <= j < |ids| && ids[j] == k;
      if done <= j {
        AscendingAt(ids, i, j);
      } else {
        assert ids[..done][j] == k;
      }
    } else {
      assert ids == ids[..done] + ids[done..];
      var i :| 0 <= i < |ids[done..]| && ids[done..][i] == id;
      assert ids[done] in ids;
      if i > 0 { AscendingAt(ids, done, done + i); }
    }
  }

  class Server {
    var workspaces: Runtimes
    /** The default workspace; None is the zero value. */
    var dependencies: Option<Dependencies>
    var reconfiguring: bool

    /** The default is a routed workspace, and there is one unless nothing is routed. */
    ghost predicate Valid()
      reads this`workspaces, this`dependencies
    {
      && (dependencies.None? ==> workspaces.Keys == {})
      && (dependencies.Some? ==>
            dependencies.value.id in workspaces && workspaces[dependencies.value.id] == dependencies.value)
      && Routable(workspaces)
    }

    constructor ()
      ensures Valid() && workspaces == map[] && !reconfiguring
    {
      workspaces, dependencies, reconfiguring := map[], None, false;
    }

    method ActivateWorkspace(d: Dependencies, makeDefault: bool) returns (ok: bool)
      requires Valid()
      modifies this`workspaces, this`dependencies
      ensures Valid() && ok == d.valid
      ensures workspaces == if ok then old(workspaces)[d.id := d] else old(workspaces)
      ensures dependencies ==
              if ok && (makeDefault || old(dependencies).None? || old(dependencies).value.id == d.id)
              then Some(d) else old(dependencies)
    {
      if !d.valid { return false; }
      workspaces := workspaces[d.id := d];
      if makeDefault || dependencies.None? || dependencies.value.id == d.id {
        dependencies := Some(d);
      }
      ok := true;
    }

    method AddWorkspace(d: Dependencies) returns (ok: bool)
      requires Valid()
      modifies this`workspaces, this`dependencies
      ensures Valid() && ok == d.valid
      ensures workspaces == if ok then old(workspaces)[d.id := d] else old(workspaces)
      ensures dependencies ==
              if ok && (old(dependencies).None? || old(dependencies).value.id == d.id)
              then Some(d) else old(dependencies)
    {
      ok := ActivateWorkspace(d, false);
    }

    /** The smallest remaining ID replaces a removed default. */
    method RemoveWorkspace(id: WorkspaceId)
      requires Valid()
      modifies this`workspaces, this`dependencies
      ensures Valid() && workspaces == old(workspaces) - {id}
      ensures old(dependencies).Some? && old(dependencies).value.id != id ==> dependencies == old(dependencies)
      ensures old(dependencies).Some? && old(dependencies).value.id == id && workspaces.Keys != {} ==>
                dependencies.Some? && Least(dependencies.value.id, workspaces.Keys)
    {
      workspaces := workspaces - {id};
      if dependencies.Some? && dependencies.value.id == id {
        dependencies := None;
        var replacement := SmallestId(workspaces.Keys);
        if replacement.Some? {
          dependencies := Some(workspaces[replacement.value]);
        }
      }
    }

    method BeginRuntimeReconfiguration() returns (ok: bool)
      modifies this`reconfiguring
      ensures ok == !old(reconfiguring) && reconfiguring
    {
      ok := !reconfiguring;
      reconfiguring := true;
    }

    method EndRuntimeReconfiguration()
      modifies this`reconfiguring
      ensures !reconfiguring
    {
      reconfiguring := false;
    }

    /** Routes every workspace of `current` to its rebuilt Runtime; at the first refusal the
        ones already swapped are routed back. All or nothing, default included. */
    method SwapAll(ids: seq<WorkspaceId>, current: Runtimes, built: Runtimes) returns (failed: bool)
      requires Valid() && workspaces == current && SortedIds(ids, current.Keys)
      requires built.Keys == current.Keys && Wired(built)
      modifies this`workspaces, this`dependencies
      ensures Valid()
      ensures failed <==> !Routable(built)
      ensures failed ==> workspaces == old(workspaces) && dependencies == old(dependencies)
      ensures !failed ==> workspaces == built
      ensures dependencies.Some? <==> old(dependencies).Some?
      ensures dependencies.Some? ==> dependencies.value.id == old(dependencies).value.id
    {
      for index := 0 to |ids|
        invariant Valid() && Mixed(workspaces, current, built, ids[..index])
        invariant SameDefault(dependencies, old(dependencies))
        invariant forall id | id in ids[..index] :: built[id].valid
      {
        PrefixKeys(ids, current.Keys, index);
        var ok := AddWorkspace(built[ids[index]]);
        if !ok {
          SwapBack(ids[..index], current, built);
          SameTable(workspaces, current);
          return true;
        }
      }
      assert ids[..|ids|] == ids;
      SameTable(workspaces, built);
      failed := false;
    }

    method SwapBack(replaced: seq<WorkspaceId>, current: Runtimes, built: Runtimes)
      requires Valid() && Routable(current)
      requires built.Keys == current.Keys && (forall id | id in replaced :: id in current)
      requires Mixed(workspaces, current, built, replaced)
      modifies this`workspaces, this`dependencies
      ensures Valid() && workspaces.Keys == current.Keys
      ensures forall id | id in current :: workspaces[id] == current[id]
      ensures SameDefault(dependencies, old(dependencies))
    {
      for index := 0 to |replaced|
        invariant Valid() && workspaces.Keys == current.Keys
        invariant forall id | id in current && id !in replaced[index..] :: workspaces[id] == current[id]
        invariant SameDefault(dependencies, old(dependencies))
      {
        assert replaced[index..] == [replaced[index]] + replaced[index + 1..];
        assert replaced[index] in replaced;
        var _ := AddWorkspace(current[replaced[index]]);
      }
    }
  }

  /** The table while the workspaces in `swapped` already route to their rebuilt Runtimes. */
  ghost predicate Mixed(table: Runtimes, current: Runtimes, built: Runtimes, swapped: seq<WorkspaceId>)
    requires built.Keys == current.Keys
  {
    && table.Keys == current.Keys
    && forall id | id in table :: table[id] == if id in swapped then built[id] else current[id]
  }

  ghost predicate SameDefault(a: Option<Dependencies>, b: Option<Dependencies>) {
    if a.Some? then b.Some? && a.value.id == b.value.id else b.None?
  }

  lemma SameTable(a: Runtimes, b: Runtimes)
    requires a.Keys == b.Keys && forall id | id in a :: a[id] == b[id]
    ensures a == b
  {
  }
}
