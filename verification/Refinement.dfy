/** The two views of the workspace manager meet: whatever the transaction of `Reconfiguration`
    does under any failures is a run of the interleaved steps of `Lifecycle`. */
module Refinement {
  import opened Common
  import opened Routing
  import opened Connections
  import opened Rotation
  import L = Lifecycle
  import R = Reconfiguration

  type Names = map<Dependencies, L.Handle>

  // ------------------------------------------------------------- runs of a change

  /** `t` is reached from `s` by steps of the one change. */
  ghost predicate Changes(s: L.State, t: L.State) {
    exists events: seq<L.ChangeEvent> :: ChangeRun(s, events, t)
  }

  ghost predicate ChangeRun(s: L.State, events: seq<L.ChangeEvent>, t: L.State)
    decreases events
  {
    if events == [] then s == t
    else L.ChangeEnabled(s, events[0]) && L.Orderly(s, L.Change(events[0]))
         && ChangeRun(L.ChangeStep(s, events[0]), events[1..], t)
  }

  lemma ChangesItself(s: L.State)
    ensures Changes(s, s)
  {
    assert ChangeRun(s, [], s);
  }

  lemma ChangesAfter(s: L.State, e: L.ChangeEvent, t: L.State)
    requires L.ChangeEnabled(s, e) && L.Orderly(s, L.Change(e)) && Changes(L.ChangeStep(s, e), t)
    ensures Changes(s, t)
  {
    var rest: seq<L.ChangeEvent> :| ChangeRun(L.ChangeStep(s, e), rest, t);
    assert ([e] + rest)[1..] == rest;
    assert ChangeRun(s, [e] + rest, t);
  }

  lemma {:induction false} ChangesOn(s: L.State, events: seq<L.ChangeEvent>, t: L.State, u: L.State)
    requires ChangeRun(s, events, t) && Changes(t, u)
    ensures Changes(s, u)
    decreases events
  {
    if events != [] {
      ChangesOn(L.ChangeStep(s, events[0]), events[1..], t, u);
      ChangesAfter(s, events[0], u);
    }
  }

  lemma ChangesTransitive(s: L.State, t: L.State, u: L.State)
    requires Changes(s, t) && Changes(t, u)
    ensures Changes(s, u)
  {
    var events: seq<L.ChangeEvent> :| ChangeRun(s, events, t);
    ChangesOn(s, events, t, u);
  }

  lemma {:induction false} RunKept(s: L.State, events: seq<L.ChangeEvent>, t: L.State)
    requires L.Inv(s) && ChangeRun(s, events, t)
    ensures L.Inv(t)
    decreases events
  {
    hide L.Inv;
    if events != [] {
      L.StepKeepsInvariant(s, L.Change(events[0]));
      RunKept(L.ChangeStep(s, events[0]), events[1..], t);
    }
  }

  /** A run of a change keeps the invariant of the machine, and is a run of it. */
  lemma ChangesKeep(s: L.State, t: L.State)
    requires L.Inv(s) && Changes(s, t)
    ensures L.Inv(t)
  {
    var events: seq<L.ChangeEvent> :| ChangeRun(s, events, t);
    RunKept(s, events, t);
  }

  lemma {:induction false} RunsMachine(s: L.State, events: seq<L.ChangeEvent>, t: L.State)
    requires ChangeRun(s, events, t)
    ensures L.Reaches(s, t)
    decreases events
  {
    if events == [] {
      L.ReachesItself(s);
    } else {
      RunsMachine(L.ChangeStep(s, events[0]), events[1..], t);
      L.ReachesAfter(s, L.Change(events[0]), t);
    }
  }

  lemma ChangesReach(s: L.State, t: L.State)
    requires Changes(s, t)
    ensures L.Reaches(s, t)
  {
    var events: seq<L.ChangeEvent> :| ChangeRun(s, events, t);
    RunsMachine(s, events, t);
  }

  // ------------------------------------------------------------ the steps of a change

  /** Preparing these workspaces one after the other gives each a new Runtime. */
  lemma PrepareTo(s: L.State, ids: set<WorkspaceId>) returns (t: L.State)
    requires s.change.Some? && s.change.value.phase == L.Building
    requires ids <= s.change.value.snapshot.Keys && ids !! s.change.value.prepared.Keys
    requires forall h | h in s.minted :: h.serial < s.next
    ensures Changes(s, t) && t.next >= s.next
    ensures t.change.Some? && t.change.value == s.change.value.(prepared := t.change.value.prepared)
    ensures t == s.(change := t.change, minted := t.minted, next := t.next)
    ensures Extends(s, t, ids)
    decreases |ids|
  {
    if ids == {} {
      t := s;
      ChangesItself(s);
    } else {
      var id :| id in ids;
      var s1 := L.ChangeStep(s, L.Prepare(id));
      t := PrepareTo(s1, ids - {id});
      ChangesAfter(s, L.Prepare(id), t);
      ExtendsFurther(s, s1, t, ids, id);
    }
  }

  /** From `s` to `t` exactly these workspaces have been prepared, each with a new Runtime. */
  ghost predicate Extends(s: L.State, t: L.State, ids: set<WorkspaceId>)
    requires s.change.Some? && t.change.Some?
  {
    var p, q := s.change.value.prepared, t.change.value.prepared;
    && q.Keys == p.Keys + ids
    && (forall id | id in p :: q[id] == p[id])
    && (forall id | id in ids :: q[id].id == id && s.next <= q[id].serial < t.next)
    && forall h :: h in t.minted <==> h in s.minted || (h.id in ids && q[h.id] == h)
  }

  lemma ExtendsFurther(s: L.State, s1: L.State, t: L.State, ids: set<WorkspaceId>, id: WorkspaceId)
    requires s.change.Some? && s.change.value.phase == L.Building && id in ids
    requires ids <= s.change.value.snapshot.Keys && ids !! s.change.value.prepared.Keys
    requires s1 == L.ChangeStep(s, L.Prepare(id)) && t.change.Some? && Extends(s1, t, ids - {id})
    requires t.next >= s1.next
    ensures Extends(s, t, ids)
  {
  }

  /** Routing these workspaces over, and back. */
  lemma RouteTo(s: L.State, ids: set<WorkspaceId>) returns (t: L.State)
    requires s.change.Some? && s.change.value.phase == L.Routing
    requires ids <= s.change.value.prepared.Keys && ids !! s.change.value.routed
    ensures Changes(s, t) && t.change.Some?
    ensures t.change.value == s.change.value.(routed := s.change.value.routed + ids)
    ensures t == s.(change := t.change, routes := t.routes)
    decreases |ids|
  {
    var c := s.change.value;
    if ids == {} {
      t := s;
      ChangesItself(s);
    } else {
      var id :| id in ids;
      t := RouteTo(L.ChangeStep(s, L.Route(id)), ids - {id});
      assert c.routed + {id} + (ids - {id}) == c.routed + ids;
      ChangesAfter(s, L.Route(id), t);
    }
  }

  lemma UnrouteAll(s: L.State) returns (t: L.State)
    requires s.change.Some? && s.change.value.phase == L.Unrouting
    requires s.change.value.routed <= s.change.value.snapshot.Keys
    ensures Changes(s, t) && t.change.Some? && t.change.value == s.change.value.(routed := {})
    ensures t == s.(change := t.change, routes := t.routes)
    decreases |s.change.value.routed|
  {
    var c := s.change.value;
    if c.routed == {} {
      t := s;
      ChangesItself(s);
    } else {
      var id :| id in c.routed;
      t := UnrouteAll(L.ChangeStep(s, L.Unroute(id)));
      ChangesAfter(s, L.Unroute(id), t);
    }
  }

  // -------------------------------------------------------------- whole changes

  /** What a change minted: a new Runtime for each of its workspaces. */
  ghost predicate Mints(s: L.State, t: L.State, built: L.Table) {
    && (forall id | id in built :: built[id].id == id && s.next <= built[id].serial)
    && t.minted == s.minted + built.Values
  }

  /** The change has ended, and nothing moved but what it is about. */
  ghost predicate Over(s: L.State, t: L.State) {
    t == s.(active := t.active, routes := t.routes, pending := t.pending, minted := t.minted, next := t.next,
            configured := t.configured)
  }

  ghost predicate Ready(s: L.State) { L.Inv(s) && L.ChangeEnabled(s, L.Begin) }

  /** Begin and the rebuild of `ids`. */
  lemma Rebuild(s: L.State, ids: set<WorkspaceId>) returns (t: L.State)
    requires Ready(s) && ids <= s.active.Keys
    ensures Changes(s, t) && t.change.Some?
    ensures t.change.value == L.Reconfiguration(s.active, t.change.value.prepared, {}, L.Building)
    ensures t == s.(reconfiguring := true, change := t.change, minted := t.minted, next := t.next)
    ensures t.change.value.prepared.Keys == ids && Mints(s, t, t.change.value.prepared)
  {
    var s1 := L.ChangeStep(s, L.Begin);
    t := PrepareTo(s1, ids);
    ChangesAfter(s, L.Begin, t);
    var built := t.change.value.prepared;
    forall h ensures h in t.minted <==> h in s.minted + built.Values {
      if h in built.Values {
        var id :| id in built && built[id] == h;
      }
    }
  }

  /** Its end after an abort: the Runtimes it built are to be closed. */
  lemma Aborted(s: L.State, t: L.State) returns (u: L.State)
    requires Changes(s, t) && t.change.Some? && L.LocallyEnabled(t.change.value, L.Abort)
    ensures Changes(s, u)
    ensures u == t.(reconfiguring := false, change := None, pending := t.pending + L.Held(t.change.value.prepared))
  {
    var t1 := L.ChangeStep(t, L.Abort);
    u := L.ChangeStep(t1, L.End);
    ChangesItself(u);
    ChangesAfter(t1, L.End, u);
    ChangesAfter(t, L.Abort, u);
    ChangesTransitive(s, t, u);
  }

  /** A change that fails before routing leaves only Runtimes to close. */
  lemma FailsEarly(s: L.State, ids: set<WorkspaceId>) returns (t: L.State, built: L.Table)
    requires Ready(s) && ids <= s.active.Keys
    ensures Changes(s, t) && Over(s, t) && Mints(s, t, built) && built.Keys == ids
    ensures t.active == s.active && t.routes == s.routes && t.pending == s.pending + L.Held(built)
    ensures t.configured == s.configured
  {
    hide Changes, Mints;
    var t1 := Rebuild(s, ids);
    built := t1.change.value.prepared;
    t := Aborted(s, t1);
    MintsAlike(s, t1, t, built);
  }

  lemma MintsAlike(s: L.State, t: L.State, u: L.State, built: L.Table)
    requires Mints(s, t, built) && u.minted == t.minted
    ensures Mints(s, u, built)
  {
  }

  /** Begin, the rebuild of every workspace and the routing of `ids`. */
  lemma Route(s: L.State, ids: set<WorkspaceId>) returns (t: L.State)
    requires Ready(s) && s.active.Keys != {} && ids <= s.active.Keys
    ensures Changes(s, t) && L.Inv(t) && t.change.Some?
    ensures t.change.value == L.Reconfiguration(s.active, t.change.value.prepared, ids, L.Routing)
    ensures t == s.(reconfiguring := true, change := t.change, routes := t.routes, minted := t.minted, next := t.next)
    ensures t.change.value.prepared.Keys == s.active.Keys && Mints(s, t, t.change.value.prepared)
  {
    hide Changes, Mints, L.Inv;
    var t1 := Rebuild(s, s.active.Keys);
    var t2 := L.ChangeStep(t1, L.Install);
    t := RouteTo(t2, ids);
    ChangesAfter(t1, L.Install, t);
    ChangesTransitive(s, t1, t);
    MintsAlike(s, t1, t, t1.change.value.prepared);
    ChangesKeep(s, t);
  }

  /** A change refused halfway through routing routes everything back. */
  lemma FailsRouting(s: L.State, ids: set<WorkspaceId>) returns (t: L.State, built: L.Table)
    requires Ready(s) && s.active.Keys != {} && ids <= s.active.Keys
    ensures Changes(s, t) && Over(s, t) && Mints(s, t, built) && built.Keys == s.active.Keys
    ensures t.active == s.active && t.routes == s.routes && t.pending == s.pending + L.Held(built)
    ensures t.configured == s.configured
  {
    hide Changes, Mints, L.Inv;
    var t1 := Route(s, ids);
    built := t1.change.value.prepared;
    var t2 := L.ChangeStep(t1, L.Refused);
    var t3 := UnrouteAll(t2);
    ChangesAfter(t1, L.Refused, t3);
    ChangesTransitive(s, t1, t3);
    t := Aborted(s, t3);
    MintsAlike(s, t1, t, built);
    ChangesKeep(s, t);
    NotDrained(s);
    RoutesActive(s);
    RoutesActive(t);
  }

  lemma RoutesActive(s: L.State)
    requires L.Inv(s) && s.change.None? && !s.closing
    ensures s.routes == s.active
  {
  }

  /** A change that routes every workspace takes the place of what was live. */
  lemma Succeeds(s: L.State) returns (t: L.State, built: L.Table)
    requires Ready(s) && s.active.Keys != {}
    ensures Changes(s, t) && Over(s, t) && Mints(s, t, built) && built.Keys == s.active.Keys
    ensures t.active == t.routes == built && t.pending == s.pending + L.Held(s.active) && t.configured
  {
    hide Changes, Mints, L.Inv;
    var t1 := Route(s, s.active.Keys);
    built := t1.change.value.prepared;
    NotDrained(s);
    var t2 := L.ChangeStep(t1, L.Commit);
    t := L.ChangeStep(t2, L.End);
    ChangesItself(t);
    ChangesAfter(t2, L.End, t);
    ChangesAfter(t1, L.Commit, t);
    ChangesTransitive(s, t1, t);
    MintsAlike(s, t1, t, built);
    ChangesKeep(s, t);
    RoutesActive(t);
  }

  lemma NotDrained(s: L.State)
    requires Ready(s)
    ensures !s.drained && s.change.None? && !s.closing && !s.reconfiguring
    ensures forall h | h in s.minted :: h.serial < s.next
  {
  }

  /** Without any Runtime a successful change only configures the manager. */
  lemma Configures(s: L.State) returns (t: L.State)
    requires Ready(s) && s.active == map[]
    ensures Changes(s, t) && t == s.(configured := true) && Mints(s, t, map[])
  {
    NotDrained(s);
    var t1 := L.ChangeStep(s, L.Begin);
    var t2 := L.ChangeStep(t1, L.Configure);
    t := L.ChangeStep(t2, L.End);
    ChangesItself(t);
    ChangesAfter(t2, L.End, t);
    ChangesAfter(t1, L.Configure, t);
    ChangesAfter(s, L.Begin, t);
  }

  // ---------------------------------------------------------------- the two views

  /** `handles` is the table with every Runtime replaced by its name. */
  ghost predicate Shown(table: Runtimes, names: Names, handles: L.Table) {
    table.Keys == handles.Keys && forall id | id in table :: table[id] in names && names[table[id]] == handles[id]
  }

  /** Different Runtimes have different names, under the same workspace. */
  ghost predicate Naming(names: Names, minted: set<L.Handle>) {
    && names.Values == minted
    && (forall d | d in names :: names[d].id == d.id)
    && forall d, e | d in names && e in names && names[d] == names[e] :: d == e
  }

  /** The manager's live Runtimes, the Server's routes and all Runtimes ever prepared are, by
      name, those of the machine. */
  ghost predicate Represents(
    active: Runtimes, routes: Runtimes, prepared: set<Dependencies>, names: Names, s: L.State)
  {
    && names.Keys == prepared && Naming(names, s.minted)
    && Shown(active, names, s.active) && Shown(routes, names, s.routes)
  }

  /** A manager without Runtimes shows the start of the machine. */
  lemma StartRepresented(roots: seq<WorkspaceId>, configured: bool)
    ensures Represents(map[], map[], {}, map[], L.Start(roots, configured)) && L.Inv(L.Start(roots, configured))
  {
  }

  lemma NamesExtend(names: Names, s: L.State, t: L.State, built: Runtimes, handles: L.Table) returns (more: Names)
    requires Naming(names, s.minted) && (forall h | h in s.minted :: h.serial < s.next)
    requires built.Keys == handles.Keys && built.Values !! names.Keys && Wired(built) && Mints(s, t, handles)
    ensures more.Keys == names.Keys + built.Values && (forall d | d in names :: more[d] == names[d])
    ensures Naming(more, t.minted) && Shown(built, more, handles)
  {
    more := map d | d in names.Keys + built.Values :: if d in names then names[d] else handles[d.id];
    NamesCover(names, built, handles, more);
    NamesDiffer(names, s, t, built, handles, more);
  }

  lemma NamesDiffer(names: Names, s: L.State, t: L.State, built: Runtimes, handles: L.Table, more: Names)
    requires Naming(names, s.minted) && (forall h | h in s.minted :: h.serial < s.next)
    requires built.Keys == handles.Keys && Wired(built) && Mints(s, t, handles)
    requires more.Keys == names.Keys + built.Values && more.Values == names.Values + handles.Values
    requires forall d | d in more :: more[d] == if d in names then names[d] else handles[d.id]
    ensures Naming(more, t.minted)
  {
    forall d | d in more
      ensures more[d].id == d.id && (d in names <==> more[d].serial < s.next)
      ensures d !in names ==> built[d.id] == d
    {
      assert d in names ==> names[d] in names.Values;
    }
  }

  lemma NamesCover(names: Names, built: Runtimes, handles: L.Table, more: Names)
    requires built.Keys == handles.Keys && built.Values !! names.Keys && Wired(built)
    requires more.Keys == names.Keys + built.Values
    requires forall d | d in more :: more[d] == if d in names then names[d] else handles[d.id]
    ensures more.Values == names.Values + handles.Values && Shown(built, more, handles)
  {
    forall id | id in built ensures built[id] in more && more[built[id]] == handles[id] {
      assert built[id] in built.Values;
    }
    forall h ensures h in more.Values <==> h in names.Values || h in handles.Values {
      if h in names.Values {
        var d :| d in names && names[d] == h;
        assert more[d] == h;
      }
      if h in handles.Values {
        var id :| id in handles && handles[id] == h;
        assert more[built[id]] == h;
      }
      if h in more.Values {
        var d :| d in more && more[d] == h;
        assert d in names || built[d.id] == d;
      }
    }
  }

  lemma ShownStill(table: Runtimes, names: Names, more: Names, handles: L.Table)
    requires Shown(table, names, handles) && forall d | d in names :: d in more && more[d] == names[d]
    ensures Shown(table, more, handles)
  {
  }

  /** What a change builds is new, and it is everything once routing has begun. */
  lemma BuiltWithin(
    current: Runtimes, prepared: set<Dependencies>, build: nat, request: R.Request, faults: R.Faults)
    requires Wired(current) && forall d | d in prepared :: d.runtime < build
    ensures var built := R.BuiltBy(current, build, request, faults);
            var stage := R.StageOf(current.Keys, request, faults);
            && Wired(built) && built.Keys <= current.Keys && built.Values !! prepared
            && (current.Keys == {} ==> built == map[] && stage != R.RouteFailed)
            && (stage == R.RouteFailed || stage == R.Done ==> built.Keys == current.Keys)
  {
    var keys := current.Keys;
    if keys != {} && !faults.busy && R.AllPrepare(keys, request, faults) {
      forall id ensures id in R.BuiltIds(keys, request, faults) <==> id in keys {
      }
    }
  }

  /** The workspaces routed before the first refusal. */
  ghost function RoutedIds(keys: set<WorkspaceId>, faults: R.Faults): set<WorkspaceId> {
    set id | id in keys && forall k | k in keys && k <= id :: k !in faults.unroutable
  }

  /** Whatever calls fail, what the transaction leaves behind is what a run of the machine
      leaves behind: the same Runtimes are built, live, routed and closed. */
  lemma ChangeRefines(
    s: L.State, names: Names, current: Runtimes, prepared: set<Dependencies>, build: nat, request: R.Request,
    faults: R.Faults)
    returns (t: L.State, more: Names)
    requires Ready(s) && Represents(current, current, prepared, names, s) && Wired(current)
    requires forall d | d in prepared :: d.runtime < build
    ensures var stage := R.StageOf(current.Keys, request, faults);
            var built := R.BuiltBy(current, build, request, faults);
            var after := if stage == R.Done then built else current;
            && Changes(s, t) && L.Inv(t) && Over(s, t)
            && Represents(after, after, prepared + built.Values, more, t)
            && t.configured == (s.configured || stage == R.Done)
  {
    hide Changes, Mints, L.Inv, Naming, R.StageOf, R.BuiltIds;
    var stage := R.StageOf(current.Keys, request, faults);
    var built := R.BuiltBy(current, build, request, faults);
    var handles;
    BuiltWithin(current, prepared, build, request, faults);
    NotDrained(s);
    if stage == R.Done && current.Keys != {} {
      t, handles := Succeeds(s);
    } else if stage == R.RouteFailed {
      t, handles := FailsRouting(s, RoutedIds(current.Keys, faults));
    } else if stage == R.Done {
      t := Configures(s);
      handles := map[];
    } else {
      t, handles := FailsEarly(s, built.Keys);
    }
    more := NamesExtend(names, s, t, built, handles);
    ShownStill(current, names, more, s.active);
    ChangesKeep(s, t);
  }

  /** Between changes a Runtime is closed in one view exactly when it is closed, or waiting to
      be, in the other. */
  lemma ClosedAgree(
    active: Runtimes, routes: Runtimes, prepared: set<Dependencies>, closed: set<Dependencies>, names: Names,
    s: L.State, d: Dependencies)
    requires L.Inv(s) && s.change.None? && s.loaders == map[]
    requires Represents(active, routes, prepared, names, s) && Wired(active)
    requires prepared == closed + active.Values && closed !! active.Values && d in prepared
    ensures d in closed <==> s.pending[names[d]] + s.closed[names[d]] == 1
    ensures d !in closed <==> s.pending[names[d]] + s.closed[names[d]] == 0
  {
    var h := names[d];
    assert L.Places(s, h) == 1;
    if L.Has(s.active, h) {
      assert names[active[h.id]] == h;
    }
    if d in active.Values {
      assert s.active[d.id] == h;
    }
  }

  /** What is closed is closed, or waits to be, by name; what is not is neither. */
  ghost predicate SameClosed(prepared: set<Dependencies>, closed: set<Dependencies>, names: Names, s: L.State) {
    names.Keys == prepared &&
    forall d | d in names :: s.pending[names[d]] + s.closed[names[d]] == if d in closed then 1 else 0
  }

  lemma AllClosedAgree(
    active: Runtimes, routes: Runtimes, prepared: set<Dependencies>, closed: set<Dependencies>, names: Names,
    s: L.State, t: L.State)
    requires Ready(s) && L.Inv(t) && Over(s, t) && Routable(active)
    requires Represents(active, routes, prepared, names, t)
    requires prepared == closed + active.Values && closed !! active.Values
    ensures SameClosed(prepared, closed, names, t)
  {
    hide Represents;
    NotDrained(s);
    assert names.Keys == prepared by { RepresentsPrepared(active, routes, prepared, names, t); }
    forall d | d in names ensures t.pending[names[d]] + t.closed[names[d]] == if d in closed then 1 else 0 {
      ClosedAgree(active, routes, prepared, closed, names, t, d);
    }
  }

  lemma RepresentsPrepared(
    active: Runtimes, routes: Runtimes, prepared: set<Dependencies>, names: Names, s: L.State)
    requires Represents(active, routes, prepared, names, s)
    ensures names.Keys == prepared
  {
  }

  /** The manager's fields are those of the machine. */
  ghost predicate Shows(m: R.Manager, s: L.State, names: Names)
    reads m, m.server, m.ledger
  {
    && Represents(m.active, m.server.workspaces, m.ledger.prepared, names, s)
    && m.closing == s.closing && m.reconfiguring == s.reconfiguring && m.loading == s.loading.Keys
  }

  lemma ReplacedIsBuilt(
    current: Runtimes, active: Runtimes, build: nat, request: R.Request, faults: R.Faults,
    prepared0: set<Dependencies>, closed0: set<Dependencies>, prepared: set<Dependencies>, closed: set<Dependencies>)
    requires R.StageOf(current.Keys, request, faults) == R.Done && Wired(current)
    requires R.Replaced(current, active, build, request, faults, prepared0, closed0, prepared, closed)
    ensures active == R.BuiltBy(current, build, request, faults) && prepared == prepared0 + active.Values
  {
    BuiltWithin(current, {}, build, request, faults);
  }

  /** The transaction run on the manager's fields refines the machine: from the state they show
      to the state they show afterwards there is a run of one change. */
  method ReplaceAsRun(m: R.Manager, request: R.Request, faults: R.Faults, ghost s: L.State, ghost names: Names)
    returns (stage: R.Stage, own: Option<View>, pre: Option<View>, ghost t: L.State, ghost more: Names)
    requires m.Valid() && request.Proper() && L.Inv(s) && Shows(m, s, names)
    modifies m, m.server, m.ledger
    ensures m.Valid() && L.Inv(t) && Shows(m, t, more) && Changes(s, t) && L.Reaches(s, t)
    ensures stage == R.Refused <==>
              old(m.closing || m.reconfiguring || m.loading != {} || !m.bound || m.server.reconfiguring)
    ensures stage != R.Refused ==> stage == R.StageOf(old(m.active).Keys, request, faults)
    ensures t.configured == (s.configured || stage == R.Done)
    ensures stage != R.Refused ==> SameClosed(m.ledger.prepared, m.ledger.closed, more, t)
  {
    hide L.Inv, L.Reaches, Changes, Represents, R.StageOf, R.BuiltBy, R.BuiltIds, R.Replaced;
    stage, own, pre := m.ReplaceSelectionStaged(request, faults);
    t, more := s, names;
    ChangesItself(s);
    if stage != R.Refused {
      t, more := ChangeRefines(s, names, old(m.active), old(m.ledger.prepared), old(m.changes), request, faults);
      if stage == R.Done {
        ReplacedIsBuilt(old(m.active), m.active, old(m.changes), request, faults, old(m.ledger.prepared),
                        old(m.ledger.closed), m.ledger.prepared, m.ledger.closed);
      }
    }
    ChangesReach(s, t);
    if stage != R.Refused {
      AllClosedAgree(m.active, m.server.workspaces, m.ledger.prepared, m.ledger.closed, more, s, t);
    }
  }
}
