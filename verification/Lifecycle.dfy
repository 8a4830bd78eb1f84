/** The interleavings of internal/host/workspace_manager.go: Add, Remove, reconfiguration and
    Close run concurrently, each locked section and each unlocked call one atomic step. */
module Lifecycle {
  import opened Common
  import opened Routing

  /** One Runtime prepareWebRuntime returned; the serial numbers them. */
  datatype Handle = Handle(id: WorkspaceId, serial: nat)

  type Table = map<WorkspaceId, Handle>

  datatype Progress = Preparing | Prepared(runtime: Handle) | PrepareFailed

  /** A load between Add's two locked sections. */
  datatype Loader = Loader(id: WorkspaceId, progress: Progress)

  datatype Phase = Building | Routing | Unrouting | Ended

  /** The locals of a reconfiguration: its snapshot of `active`, what it prepared, and the
      workspaces the Server already routes to that. */
  datatype Reconfiguration = Reconfiguration(snapshot: Table, prepared: Table, routed: set<WorkspaceId>, phase: Phase)

  /** The manager's fields and the Server's routes, then the locals of the goroutines: `loading`
      maps a workspace to the channel of its load, which names the loader too. */
  datatype State = State(
    roots: seq<WorkspaceId>, active: Table, loading: map<WorkspaceId, nat>, reconfiguring: bool, closing: bool,
    configured: bool, routes: Table,
    loaders: map<nat, Loader>, change: Option<Reconfiguration>, drained: bool,
    pending: multiset<Handle>, closed: multiset<Handle>, minted: set<Handle>, next: nat)

  /** Steps of Add and Remove; `ok` and the like are the outcomes of calls that may fail. */
  datatype WorkspaceEvent =
    | Register(id: WorkspaceId)
    | AddBegin(id: WorkspaceId, token: nat)
    | AddPrepare(token: nat, ok: bool)
    | AddFinish(token: nat, saved: bool, routed: bool)
    | Remove(id: WorkspaceId, busy: bool, saved: bool)

  /** Steps of a reconfiguration. */
  datatype ChangeEvent =
    | Begin
    | Prepare(id: WorkspaceId)
    | Install
    | Route(id: WorkspaceId)
    | Refused
    | Unroute(id: WorkspaceId)
    | Commit
    | Abort
    | Configure
    | End

  datatype CloseEvent = Announce | Drain | CloseOne(runtime: Handle)

  datatype Event = Workspace(w: WorkspaceEvent) | Change(c: ChangeEvent) | Close(d: CloseEvent)

  // -------------------------------------------------------------------- steps

  function AppendUnique(roots: seq<WorkspaceId>, id: WorkspaceId): seq<WorkspaceId> {
    if id in roots then roots else roots + [id]
  }

  /** Drops the first matching root only. */
  function RemoveRoot(roots: seq<WorkspaceId>, id: WorkspaceId): seq<WorkspaceId> {
    if roots == [] then []
    else if roots[0] == id then roots[1..]
    else [roots[0]] + RemoveRoot(roots[1..], id)
  }

  predicate Quiet(s: State) { !s.closing && !s.reconfiguring }

  /** When a step can be taken. */
  predicate WorkspaceEnabled(s: State, e: WorkspaceEvent) {
    match e
    case Register(id) => Quiet(s) && id !in s.active && id !in s.loading && !s.configured
    case AddBegin(id, token) =>
      Quiet(s) && id !in s.active && id !in s.loading && s.configured && token !in s.loaders
    case AddPrepare(token, _) => token in s.loaders && s.loaders[token].progress == Preparing
    case AddFinish(token, _, _) => token in s.loaders && s.loaders[token].progress != Preparing
    case Remove(id, _, _) => Quiet(s) && id !in s.loading
  }

  predicate ChangeEnabled(s: State, e: ChangeEvent) {
    if e.Begin? then Quiet(s) && s.loading == map[]
    else s.change.Some? && LocallyEnabled(s.change.value, e)
  }

  predicate LocallyEnabled(c: Reconfiguration, e: ChangeEvent) {
    match e
    case Begin => false
    case Prepare(id) => c.phase == Building && id in c.snapshot && id !in c.prepared
    case Install => c.phase == Building && c.snapshot != map[] && c.prepared.Keys == c.snapshot.Keys
    case Route(id) => c.phase == Routing && id in c.prepared && id !in c.routed
    case Refused => c.phase == Routing
    case Unroute(id) => c.phase == Unrouting && id in c.routed && id in c.snapshot
    case Commit => c.phase == Routing && c.routed == c.prepared.Keys
    case Abort => c.phase == Building || (c.phase == Unrouting && c.routed == {})
    case Configure => c.phase == Building && c.snapshot == map[]
    case End => c.phase == Ended
  }

  predicate CloseEnabled(s: State, e: CloseEvent) {
    match e
    case Announce => true
    case Drain => s.closing && s.loaders == map[]
    case CloseOne(runtime) => runtime in s.pending
  }

  predicate Enabled(s: State, e: Event) {
    match e
    case Workspace(w) => WorkspaceEnabled(s, w)
    case Change(c) => ChangeEnabled(s, c)
    case Close(d) => CloseEnabled(s, d)
  }

  /** When each step can be taken, in terms of the fields. */
  lemma EnabledExactlyWhen(s: State, e: Event)
    ensures Enabled(s, e) <==>
            match e
            case Workspace(Register(id)) =>
              !s.closing && !s.reconfiguring && id !in s.active && id !in s.loading && !s.configured
            case Workspace(AddBegin(id, token)) =>
              !s.closing && !s.reconfiguring && id !in s.active && id !in s.loading && s.configured
              && token !in s.loaders
            case Workspace(AddPrepare(token, _)) => token in s.loaders && s.loaders[token].progress == Preparing
            case Workspace(AddFinish(token, _, _)) => token in s.loaders && s.loaders[token].progress != Preparing
            case Workspace(Remove(id, _, _)) => !s.closing && !s.reconfiguring && id !in s.loading
            case Close(Announce) => true
            case Close(Drain) => s.closing && s.loaders == map[]
            case Close(CloseOne(runtime)) => s.pending[runtime] > 0
            case Change(Begin) => !s.closing && !s.reconfiguring && s.loading == map[]
            case Change(other) =>
              s.change.Some? &&
              var c := s.change.value;
              match other
              case Prepare(id) => c.phase == Building && id in c.snapshot.Keys - c.prepared.Keys
              case Install => c.phase == Building && c.prepared.Keys == c.snapshot.Keys && c.snapshot.Keys != {}
              case Route(id) => c.phase == Routing && id in c.prepared.Keys - c.routed
              case Refused => c.phase == Routing
              case Unroute(id) => c.phase == Unrouting && id in c.routed * c.snapshot.Keys
              case Commit => c.phase == Routing && c.prepared.Keys == c.routed
              case Abort => c.phase == Building || (c.phase == Unrouting && c.routed == {})
              case Configure => c.phase == Building && c.snapshot.Keys == {}
              case End => c.phase == Ended
              case _ => false
  {
  }

  /** The Runtimes a table holds. */
  function Held(table: Table): multiset<Handle> { multiset(table.Values) }

  function Unload(s: State, token: nat): State
    requires token in s.loaders
  {
    s.(loading := s.loading - {s.loaders[token].id}, loaders := s.loaders - {token})
  }

  function WorkspaceStep(s: State, e: WorkspaceEvent): State
    requires WorkspaceEnabled(s, e)
  {
    match e
    case Register(id) => s.(roots := AppendUnique(s.roots, id))
    case AddBegin(id, token) =>
      s.(roots := AppendUnique(s.roots, id), loading := s.loading[id := token],
         loaders := s.loaders[token := Loader(id, Preparing)])
    case AddPrepare(token, ok) =>
      var loader := s.loaders[token];
      if ok then
        s.(loaders := s.loaders[token := loader.(progress := Prepared(Handle(loader.id, s.next)))],
           minted := s.minted + {Handle(loader.id, s.next)}, next := s.next + 1)
      else s.(loaders := s.loaders[token := loader.(progress := PrepareFailed)])
    case AddFinish(token, saved, routed) =>
      var loader := s.loaders[token];
      var t := Unload(s, token);
      if loader.progress.PrepareFailed? then t
      else if !s.closing && saved && routed then
        t.(active := s.active[loader.id := loader.progress.runtime],
           routes := s.routes[loader.id := loader.progress.runtime])
      else t.(pending := s.pending + multiset{loader.progress.runtime})
    case Remove(id, busy, saved) =>
      if id !in s.roots || (id in s.active && busy) || !saved then s
      else if id in s.active then
        s.(roots := RemoveRoot(s.roots, id), active := s.active - {id}, routes := s.routes - {id},
           pending := s.pending + multiset{s.active[id]})
      else s.(roots := RemoveRoot(s.roots, id))
  }

  const ENDED := Reconfiguration(map[], map[], {}, Ended)

  function ChangeStep(s: State, e: ChangeEvent): State
    requires ChangeEnabled(s, e)
  {
    match e
    case Begin => s.(reconfiguring := true, change := Some(Reconfiguration(s.active, map[], {}, Building)))
    case Prepare(id) =>
      var c := s.change.value;
      s.(change := Some(c.(prepared := c.prepared[id := Handle(id, s.next)])),
         minted := s.minted + {Handle(id, s.next)}, next := s.next + 1)
    case Install => s.(change := Some(s.change.value.(phase := Routing)))
    case Route(id) =>
      var c := s.change.value;
      s.(routes := s.routes[id := c.prepared[id]], change := Some(c.(routed := c.routed + {id})))
    case Refused => s.(change := Some(s.change.value.(phase := Unrouting)))
    case Unroute(id) =>
      var c := s.change.value;
      s.(routes := s.routes[id := c.snapshot[id]], change := Some(c.(routed := c.routed - {id})))
    case Commit =>
      var c := s.change.value;
      s.(active := c.prepared, pending := s.pending + Held(c.snapshot), configured := true, change := Some(ENDED))
    case Abort => s.(pending := s.pending + Held(s.change.value.prepared), change := Some(ENDED))
    case Configure => s.(configured := true, change := Some(ENDED))
    case End => s.(reconfiguring := false, change := None)
  }

  function CloseStep(s: State, e: CloseEvent): State
    requires CloseEnabled(s, e)
  {
    match e
    case Announce => s.(closing := true)
    case Drain => s.(active := map[], pending := s.pending + Held(s.active), drained := true)
    case CloseOne(runtime) =>
      s.(pending := s.pending - multiset{runtime}, closed := s.closed + multiset{runtime})
  }

  function Step(s: State, e: Event): State
    requires Enabled(s, e)
  {
    match e
    case Workspace(w) => WorkspaceStep(s, w)
    case Change(c) => ChangeStep(s, c)
    case Close(d) => CloseStep(s, d)
  }

  // ---------------------------------------------------------------- invariant

  ghost predicate Standing(table: Table) {
    forall id | id in table :: table[id].id == id
  }

  predicate Has(table: Table, h: Handle) { h.id in table && table[h.id] == h }

  /** The mutual exclusions the flags are for. */
  ghost predicate Coordinated(s: State) {
    && (forall t | t in s.loaders :: s.loaders[t].id in s.loading && s.loading[s.loaders[t].id] == t)
    && (forall id | id in s.loading :: s.loading[id] in s.loaders && s.loaders[s.loading[id]].id == id)
    && (s.reconfiguring <==> s.change.Some?)
    && (s.change.Some? ==> s.loaders == map[])
    && s.active.Keys !! s.loading.Keys
    && (forall id | id in s.active || id in s.loading :: id in s.roots)
    && (s.drained ==> s.closing && s.active == map[] && s.loaders == map[])
  }

  /** How far a change has come, and what the Server routes until Close drains. */
  ghost predicate Routed(s: State) {
    match s.change
    case None => s.drained || s.routes == s.active
    case Some(c) =>
      match c.phase
      case Building =>
        c.prepared.Keys <= c.snapshot.Keys && c.routed == {} && (s.drained || s.routes == s.active == c.snapshot)
      case Ended => c == ENDED && (s.drained || s.routes == s.active)
      case _ =>
        && c.prepared.Keys == c.snapshot.Keys && c.snapshot != map[] && c.routed <= c.prepared.Keys
        && (s.drained || (s.active == c.snapshot && Halfway(s.routes, c)))
  }

  /** Routed workspaces go to what the change prepared, the others still to its snapshot. */
  ghost predicate Halfway(routes: Table, c: Reconfiguration)
    requires c.prepared.Keys == c.snapshot.Keys
  {
    && routes.Keys == c.snapshot.Keys
    && forall id | id in routes :: routes[id] == if id in c.routed then c.prepared[id] else c.snapshot[id]
  }

  /** The Runtime is with its loader; there is one loader per workspace. */
  predicate Loading(s: State, h: Handle) {
    && h.id in s.loading && s.loading[h.id] in s.loaders
    && s.loaders[s.loading[h.id]].progress == Prepared(h)
  }

  function One(b: bool): nat { if b then 1 else 0 }

  /** In how many places a Runtime is: with its loader, with the change that prepared it, live,
      waiting to be closed, or closed. */
  ghost function Places(s: State, h: Handle): nat {
    One(Loading(s, h)) + One(s.change.Some? && Has(s.change.value.prepared, h)) + One(Has(s.active, h))
    + s.pending[h] + s.closed[h]
  }

  /** The snapshot's Runtimes are none of those the change prepared. */
  ghost predicate Superseded(c: Reconfiguration, minted: set<Handle>) {
    forall id | id in c.snapshot ::
      c.snapshot[id] in minted && (id in c.prepared ==> c.snapshot[id] != c.prepared[id])
  }

  /** Runtimes stand under their own workspace and are numbered as they are prepared. */
  ghost predicate Numbered(s: State) {
    && Standing(s.active)
    && (s.change.Some? ==>
          && Standing(s.change.value.prepared) && Standing(s.change.value.snapshot)
          && Superseded(s.change.value, s.minted))
    && (forall t | t in s.loaders && s.loaders[t].progress.Prepared? ::
          s.loaders[t].progress.runtime.id == s.loaders[t].id)
    && forall h | h in s.minted :: h.serial < s.next
  }

  /** Every Runtime ever prepared is in exactly one place, once. */
  ghost predicate Conserved(s: State) {
    Numbered(s) && forall h :: Places(s, h) == One(h in s.minted)
  }

  ghost predicate Inv(s: State) { Coordinated(s) && Routed(s) && Conserved(s) }

  /** No change commits after Close has drained, which nothing in the code prevents. */
  predicate Orderly(s: State, e: Event) { e == Change(Commit) ==> !s.drained }

  lemma HeldCount(table: Table, h: Handle)
    requires Standing(table)
    ensures Held(table)[h] == One(Has(table, h))
  {
    if h in table.Values {
      var k :| k in table && table[k] == h;
    }
    if Has(table, h) {
      assert table[h.id] in table.Values;
    }
  }

  lemma {:induction false} RemoveRootKeeps(roots: seq<WorkspaceId>, id: WorkspaceId, other: WorkspaceId)
    requires other in roots && other != id
    ensures other in RemoveRoot(roots, id)
  {
    if roots[0] != id && other != roots[0] {
      assert other in roots[1..];
      RemoveRootKeeps(roots[1..], id, other);
    }
  }

  // -------------------------------------------------------- Add and Remove keep it

  lemma WorkspaceCoordinated(s: State, e: WorkspaceEvent)
    requires Inv(s) && WorkspaceEnabled(s, e)
    ensures Coordinated(WorkspaceStep(s, e))
  {
    match e {
      case Register(_) => RegisterCoordinated(s, e);
      case AddBegin(_, _) => AddBeginCoordinated(s, e);
      case AddPrepare(_, _) => AddPrepareCoordinated(s, e);
      case AddFinish(_, _, _) => AddFinishCoordinated(s, e);
      case Remove(_, _, _) => RemoveCoordinated(s, e);
    }
  }

  lemma RegisterCoordinated(s: State, e: WorkspaceEvent)
    requires Coordinated(s) && WorkspaceEnabled(s, e) && e.Register?
    ensures Coordinated(WorkspaceStep(s, e))
  {
  }

  lemma AddPrepareCoordinated(s: State, e: WorkspaceEvent)
    requires Coordinated(s) && WorkspaceEnabled(s, e) && e.AddPrepare?
    ensures Coordinated(WorkspaceStep(s, e))
  {
  }

  lemma AddFinishCoordinated(s: State, e: WorkspaceEvent)
    requires Coordinated(s) && WorkspaceEnabled(s, e) && e.AddFinish?
    ensures Coordinated(WorkspaceStep(s, e))
  {
    UnloadCoordinated(s, e.token);
    hide Unload;
    UnloadFrame(s, e.token);
  }

  lemma UnloadCoordinated(s: State, token: nat)
    requires Coordinated(s) && token in s.loaders
    ensures Coordinated(Unload(s, token))
    ensures s.loaders[token].id !in Unload(s, token).loading && s.loaders[token].id in s.roots
  {
  }

  lemma UnloadFrame(s: State, token: nat)
    requires token in s.loaders
    ensures Unload(s, token) == s.(loading := Unload(s, token).loading, loaders := Unload(s, token).loaders)
  {
  }

  lemma RemoveCoordinated(s: State, e: WorkspaceEvent)
    requires Coordinated(s) && WorkspaceEnabled(s, e) && e.Remove?
    ensures Coordinated(WorkspaceStep(s, e))
  {
    var t := WorkspaceStep(s, e);
    if t != s {
      forall i | i in t.active || i in t.loading ensures i in t.roots {
        RemoveRootKeeps(s.roots, e.id, i);
      }
    }
  }

  lemma AddBeginCoordinated(s: State, e: WorkspaceEvent)
    requires Coordinated(s) && WorkspaceEnabled(s, e) && e.AddBegin?
    ensures Coordinated(WorkspaceStep(s, e))
  {
  }

  lemma WorkspaceRouted(s: State, e: WorkspaceEvent)
    requires Inv(s) && WorkspaceEnabled(s, e)
    ensures Routed(WorkspaceStep(s, e))
  {
    hide Conserved;
  }

  lemma ChangeCoordinated(s: State, e: ChangeEvent)
    requires Inv(s) && ChangeEnabled(s, e) && Orderly(s, Change(e))
    ensures Coordinated(ChangeStep(s, e))
  {
    hide Conserved;
  }

  lemma ChangeRouted(s: State, e: ChangeEvent)
    requires Inv(s) && ChangeEnabled(s, e) && Orderly(s, Change(e))
    ensures Routed(ChangeStep(s, e))
  {
    hide Conserved;
    match e {
      case Route(_) => RouteRouted(s, e);
      case Unroute(_) => UnrouteRouted(s, e);
      case Commit => CommitRouted(s);
      case Abort => AbortRouted(s);
      case _ => OtherRouted(s, e);
    }
  }

  lemma RouteRouted(s: State, e: ChangeEvent)
    requires Routed(s) && ChangeEnabled(s, e) && e.Route?
    ensures Routed(ChangeStep(s, e))
  {
  }

  lemma UnrouteRouted(s: State, e: ChangeEvent)
    requires Routed(s) && ChangeEnabled(s, e) && e.Unroute?
    ensures Routed(ChangeStep(s, e))
  {
  }

  lemma CommitRouted(s: State)
    requires Routed(s) && ChangeEnabled(s, Commit) && !s.drained
    ensures Routed(ChangeStep(s, Commit))
  {
    assert s.routes == s.change.value.prepared;
  }

  lemma AbortRouted(s: State)
    requires Routed(s) && ChangeEnabled(s, Abort)
    ensures Routed(ChangeStep(s, Abort))
  {
    if s.change.value.phase == Unrouting && !s.drained {
      assert s.routes == s.active;
    }
  }

  lemma OtherRouted(s: State, e: ChangeEvent)
    requires Coordinated(s) && Routed(s) && ChangeEnabled(s, e)
    requires e.Begin? || e.Prepare? || e.Install? || e.Refused? || e.Configure? || e.End?
    ensures Routed(ChangeStep(s, e))
  {
  }

  lemma CloseCoordinatedAndRouted(s: State, e: CloseEvent)
    requires Inv(s) && CloseEnabled(s, e)
    ensures Coordinated(CloseStep(s, e)) && Routed(CloseStep(s, e))
  {
    hide Conserved;
    CloseCoordinated(s, e);
    hide Coordinated;
  }

  lemma CloseCoordinated(s: State, e: CloseEvent)
    requires Coordinated(s) && CloseEnabled(s, e)
    ensures Coordinated(CloseStep(s, e))
  {
  }

  // --------------------------------------------------------------- conservation

  lemma AddBeginConserved(s: State, e: WorkspaceEvent)
    requires Inv(s) && WorkspaceEnabled(s, e) && (e.Register? || e.AddBegin?)
    ensures Conserved(WorkspaceStep(s, e))
  {
    hide Routed;
    var t := WorkspaceStep(s, e);
    forall h ensures Places(t, h) == One(h in t.minted) {
      assert Places(s, h) == One(h in s.minted);
    }
  }

  /** A load that has its Runtime holds it, beside what other loaders hold. */
  lemma PreparedLoading(s: State, token: nat, progress: Progress, h: Handle)
    requires Coordinated(s) && token in s.loaders && s.loaders[token].progress == Preparing
    ensures var loader := s.loaders[token];
            var t := s.(loaders := s.loaders[token := loader.(progress := progress)]);
            Loading(t, h) <==> Loading(s, h) || (h.id == loader.id && progress == Prepared(h))
  {
  }

  lemma AddPreparePlaces(s: State, e: WorkspaceEvent, h: Handle)
    requires Coordinated(s) && Conserved(s) && WorkspaceEnabled(s, e) && e.AddPrepare?
    ensures Places(WorkspaceStep(s, e), h) == One(h in WorkspaceStep(s, e).minted)
  {
    assert Places(s, h) == One(h in s.minted);
    var loader := s.loaders[e.token];
    var progress := if e.ok then Prepared(Handle(loader.id, s.next)) else PrepareFailed;
    PreparedLoading(s, e.token, progress, h);
    var t := WorkspaceStep(s, e);
    LoadingAlike(s.(loaders := s.loaders[e.token := loader.(progress := progress)]), t, h);
    hide Loading, Coordinated;
  }

  lemma LoadingAlike(s: State, t: State, h: Handle)
    requires t.loading == s.loading && t.loaders == s.loaders
    ensures Loading(t, h) <==> Loading(s, h)
  {
  }

  lemma AddPrepareConserved(s: State, e: WorkspaceEvent)
    requires Coordinated(s) && Conserved(s) && WorkspaceEnabled(s, e) && e.AddPrepare?
    ensures Conserved(WorkspaceStep(s, e))
  {
    forall h ensures Places(WorkspaceStep(s, e), h) == One(h in WorkspaceStep(s, e).minted) {
      AddPreparePlaces(s, e, h);
    }
    hide Places;
  }

  /** Dropping a loader takes its Runtime out of the loading place and touches no other. */
  lemma UnloadPlaces(s: State, token: nat, h: Handle)
    requires Coordinated(s) && Numbered(s) && token in s.loaders
    ensures var t := Unload(s, token);
            Places(t, h) == Places(s, h) - One(s.loaders[token].progress == Prepared(h))
    ensures s.loaders[token].id !in s.active
  {
  }

  /** A Runtime that left its loader is made live, or set aside for closing. */
  lemma LandedPlaces(t: State, r: Handle, h: Handle)
    requires r.id !in t.active
    ensures Places(t.(active := t.active[r.id := r], routes := t.routes[r.id := r]), h) == Places(t, h) + One(h == r)
    ensures Places(t.(pending := t.pending + multiset{r}), h) == Places(t, h) + One(h == r)
  {
  }

  lemma AddFinishPlaces(s: State, e: WorkspaceEvent, h: Handle)
    requires Coordinated(s) && Conserved(s) && WorkspaceEnabled(s, e) && e.AddFinish?
    ensures Places(WorkspaceStep(s, e), h) == One(h in WorkspaceStep(s, e).minted)
  {
    assert Places(s, h) == One(h in s.minted);
    UnloadPlaces(s, e.token, h);
    var loader := s.loaders[e.token];
    if loader.progress.Prepared? {
      assert loader.progress.runtime.id == loader.id;
      LandedPlaces(Unload(s, e.token), loader.progress.runtime, h);
    }
    hide Places, Coordinated, Conserved;
  }

  lemma UnloadNumbered(s: State, token: nat)
    requires Numbered(s) && token in s.loaders
    ensures Numbered(Unload(s, token))
  {
  }

  lemma AddFinishNumbered(s: State, e: WorkspaceEvent)
    requires Numbered(s) && WorkspaceEnabled(s, e) && e.AddFinish?
    ensures Numbered(WorkspaceStep(s, e))
  {
    UnloadNumbered(s, e.token);
    UnloadFrame(s, e.token);
    hide Unload;
  }

  lemma AddFinishConserved(s: State, e: WorkspaceEvent)
    requires Coordinated(s) && Conserved(s) && WorkspaceEnabled(s, e) && e.AddFinish?
    ensures Conserved(WorkspaceStep(s, e))
  {
    AddFinishNumbered(s, e);
    hide Numbered;
    forall h ensures Places(WorkspaceStep(s, e), h) == One(h in WorkspaceStep(s, e).minted) {
      AddFinishPlaces(s, e, h);
    }
    hide Places;
  }

  lemma RemovePlaces(s: State, e: WorkspaceEvent, h: Handle)
    requires Coordinated(s) && Conserved(s) && WorkspaceEnabled(s, e) && e.Remove?
    ensures Places(WorkspaceStep(s, e), h) == One(h in WorkspaceStep(s, e).minted)
  {
    assert Places(s, h) == One(h in s.minted);
  }

  lemma RemoveConserved(s: State, e: WorkspaceEvent)
    requires Coordinated(s) && Conserved(s) && WorkspaceEnabled(s, e) && e.Remove?
    ensures Conserved(WorkspaceStep(s, e))
  {
    forall h ensures Places(WorkspaceStep(s, e), h) == One(h in WorkspaceStep(s, e).minted) {
      RemovePlaces(s, e, h);
    }
    hide Places;
  }

  lemma PreparePlaces(s: State, e: ChangeEvent, h: Handle)
    requires Inv(s) && ChangeEnabled(s, e) && e.Prepare?
    ensures Places(ChangeStep(s, e), h) == One(h in ChangeStep(s, e).minted)
  {
    assert Places(s, h) == One(h in s.minted);
  }

  lemma CommitPlaces(s: State, h: Handle)
    requires Inv(s) && ChangeEnabled(s, Commit) && !s.drained
    ensures Places(ChangeStep(s, Commit), h) == One(h in ChangeStep(s, Commit).minted)
  {
    assert Places(s, h) == One(h in s.minted);
    HeldCount(s.change.value.snapshot, h);
  }

  lemma AbortPlaces(s: State, h: Handle)
    requires Inv(s) && ChangeEnabled(s, Abort)
    ensures Places(ChangeStep(s, Abort), h) == One(h in ChangeStep(s, Abort).minted)
  {
    assert Places(s, h) == One(h in s.minted);
    HeldCount(s.change.value.prepared, h);
  }

  lemma RoutingKeeps(s: State, e: ChangeEvent)
    requires ChangeEnabled(s, e) && (e.Install? || e.Route? || e.Refused? || e.Unroute?)
    ensures var t := ChangeStep(s, e);
            && t.active == s.active && t.pending == s.pending && t.closed == s.closed && t.minted == s.minted
            && t.loaders == s.loaders && t.loading == s.loading && s.change.Some? && t.change.Some?
            && t.change.value.prepared == s.change.value.prepared
  {
  }

  /** Routing moves no Runtime. */
  lemma RoutingPlaces(s: State, e: ChangeEvent, h: Handle)
    requires Inv(s) && ChangeEnabled(s, e) && (e.Install? || e.Route? || e.Refused? || e.Unroute?)
    ensures Places(ChangeStep(s, e), h) == One(h in ChangeStep(s, e).minted)
  {
    RoutingKeeps(s, e);
    hide ChangeStep, ChangeEnabled;
    assert Places(s, h) == One(h in s.minted);
    LoadingAlike(s, ChangeStep(s, e), h);
    hide Loading, Numbered, Coordinated, Routed;
  }

  /** Nor does beginning or ending a change, which has nothing prepared then. */
  lemma EdgePlaces(s: State, e: ChangeEvent, h: Handle)
    requires Inv(s) && ChangeEnabled(s, e) && (e.Begin? || e.Configure? || e.End?)
    ensures Places(ChangeStep(s, e), h) == One(h in ChangeStep(s, e).minted)
  {
    assert Places(s, h) == One(h in s.minted);
    LoadingAlike(s, ChangeStep(s, e), h);
    hide Loading, Numbered;
  }

  lemma ChangePlaces(s: State, e: ChangeEvent, h: Handle)
    requires Inv(s) && ChangeEnabled(s, e) && Orderly(s, Change(e))
    ensures Places(ChangeStep(s, e), h) == One(h in ChangeStep(s, e).minted)
  {
    hide Inv, Places;
    match e {
      case Prepare(_) => PreparePlaces(s, e, h);
      case Commit => CommitPlaces(s, h);
      case Abort => AbortPlaces(s, h);
      case Begin => EdgePlaces(s, e, h);
      case Configure => EdgePlaces(s, e, h);
      case End => EdgePlaces(s, e, h);
      case _ => RoutingPlaces(s, e, h);
    }
  }

  lemma ChangeNumbered(s: State, e: ChangeEvent)
    requires Inv(s) && ChangeEnabled(s, e)
    ensures Numbered(ChangeStep(s, e))
  {
    hide Numbered, Places, ChangeStep, ChangeEnabled;
    match e {
      case Begin => ActiveMinted(s);
        BeginNumbered(s);
      case Prepare(_) => PrepareNumbered(s, e);
      case _ => OtherNumbered(s, e);
    }
  }

  lemma BeginNumbered(s: State)
    requires Numbered(s) && ChangeEnabled(s, Begin) && forall id | id in s.active :: s.active[id] in s.minted
    ensures Numbered(ChangeStep(s, Begin))
  {
  }

  lemma OtherNumbered(s: State, e: ChangeEvent)
    requires Numbered(s) && ChangeEnabled(s, e) && !e.Begin? && !e.Prepare?
    ensures Numbered(ChangeStep(s, e))
  {
  }

  lemma PrepareNumbered(s: State, e: ChangeEvent)
    requires Numbered(s) && ChangeEnabled(s, e) && e.Prepare?
    ensures Numbered(ChangeStep(s, e))
  {
  }

  lemma ChangeConserved(s: State, e: ChangeEvent)
    requires Inv(s) && ChangeEnabled(s, e) && Orderly(s, Change(e))
    ensures Conserved(ChangeStep(s, e))
  {
    hide Inv, Places, Numbered;
    ChangeNumbered(s, e);
    forall h ensures Places(ChangeStep(s, e), h) == One(h in ChangeStep(s, e).minted) {
      ChangePlaces(s, e, h);
    }
  }

  lemma ActiveMinted(s: State)
    requires Conserved(s)
    ensures forall id | id in s.active :: s.active[id] in s.minted
  {
    forall id | id in s.active ensures s.active[id] in s.minted {
      assert Places(s, s.active[id]) == One(s.active[id] in s.minted);
    }
  }

  lemma CloseConserved(s: State, e: CloseEvent)
    requires Inv(s) && CloseEnabled(s, e)
    ensures Conserved(CloseStep(s, e))
  {
    hide Routed;
    forall h ensures Places(CloseStep(s, e), h) == One(h in CloseStep(s, e).minted) {
      ClosePlaces(s, e, h);
    }
    hide Places, Coordinated;
  }

  lemma ClosePlaces(s: State, e: CloseEvent, h: Handle)
    requires Coordinated(s) && Conserved(s) && CloseEnabled(s, e)
    ensures Places(CloseStep(s, e), h) == One(h in CloseStep(s, e).minted)
  {
    assert Places(s, h) == One(h in s.minted);
    HeldCount(s.active, h);
  }

  // ----------------------------------------------------------------- the theorems

  lemma StepKeepsInvariant(s: State, e: Event)
    requires Inv(s) && Enabled(s, e) && Orderly(s, e)
    ensures Inv(Step(s, e))
  {
    hide Coordinated, Routed, Conserved;
    match e {
      case Workspace(w) =>
        WorkspaceCoordinated(s, w);
        WorkspaceRouted(s, w);
        WorkspaceConserved(s, w);
      case Change(c) =>
        ChangeCoordinated(s, c);
        ChangeRouted(s, c);
        ChangeConserved(s, c);
      case Close(d) =>
        CloseCoordinatedAndRouted(s, d);
        CloseConserved(s, d);
    }
  }

  lemma WorkspaceConserved(s: State, e: WorkspaceEvent)
    requires Inv(s) && WorkspaceEnabled(s, e)
    ensures Conserved(WorkspaceStep(s, e))
  {
    hide Coordinated, Routed, Conserved;
    match e {
      case Register(_) => AddBeginConserved(s, e);
      case AddBegin(_, _) => AddBeginConserved(s, e);
      case AddPrepare(_, _) => AddPrepareConserved(s, e);
      case AddFinish(_, _, _) => AddFinishConserved(s, e);
      case Remove(_, _, _) => RemoveConserved(s, e);
    }
  }

  /** A manager with the stored roots and nothing loaded yet. */
  function Start(roots: seq<WorkspaceId>, configured: bool): State {
    State(roots, map[], map[], false, false, configured, map[], map[], None, false, multiset{}, multiset{}, {}, 0)
  }

  /** The events lead from `s` to `t`. */
  predicate Run(s: State, events: seq<Event>, t: State)
    decreases events
  {
    if events == [] then s == t
    else Enabled(s, events[0]) && Run(Step(s, events[0]), events[1..], t)
  }

  predicate OrderlyRun(s: State, events: seq<Event>)
    decreases events
  {
    events == [] ||
    (Enabled(s, events[0]) ==> Orderly(s, events[0]) && OrderlyRun(Step(s, events[0]), events[1..]))
  }

  lemma {:induction false} RunKeepsInvariant(s: State, events: seq<Event>, t: State)
    requires Inv(s) && Run(s, events, t) && OrderlyRun(s, events)
    ensures Inv(t)
    decreases events
  {
    hide Inv;
    if events != [] {
      StepKeepsInvariant(s, events[0]);
      RunKeepsInvariant(Step(s, events[0]), events[1..], t);
    }
  }

  /** Every reachable state: a change excludes loads, a workspace has at most one load and is
      never both loading and live, live workspaces are registered, the Server routes exactly
      the live Runtimes outside changes and before Close drains, and each Runtime ever
      prepared is in exactly one place. */
  lemma ReachableStates(roots: seq<WorkspaceId>, configured: bool, events: seq<Event>, t: State)
    requires Run(Start(roots, configured), events, t) && OrderlyRun(Start(roots, configured), events)
    ensures t.reconfiguring ==> t.loaders == map[]
    ensures forall a, b | a in t.loaders && b in t.loaders && t.loaders[a].id == t.loaders[b].id :: a == b
    ensures t.active.Keys !! t.loading.Keys
    ensures forall id | id in t.active :: id in t.roots
    ensures !t.reconfiguring && !t.drained ==> t.routes == t.active
    ensures forall h :: Places(t, h) == One(h in t.minted)
  {
    RunKeepsInvariant(Start(roots, configured), events, t);
  }

  /** Once drained, nothing is live or prepared again, and what was prepared is closed exactly
      once as soon as the pending closes have happened. */
  lemma {:induction false} DrainedForever(s: State, events: seq<Event>, t: State)
    requires Inv(s) && s.drained && s.change.None? && Run(s, events, t)
    ensures t.drained && t.active == map[] && t.change.None? && t.minted == s.minted
    ensures forall h :: t.pending[h] + t.closed[h] == One(h in s.minted)
    decreases events
  {
    if events == [] {
      forall h ensures t.pending[h] + t.closed[h] == One(h in s.minted) {
        assert Places(t, h) == One(h in t.minted);
      }
    } else {
      StepKeepsInvariant(s, events[0]);
      DrainedForever(Step(s, events[0]), events[1..], t);
    }
  }

  /** While a change runs no step of Add or Remove can be taken, and every step of Close except
      its drain leaves alone what the change works on. */
  lemma ChangeIsIsolated(s: State, e: Event)
    requires Inv(s) && s.change.Some? && Enabled(s, e)
    ensures !e.Workspace?
    ensures e.Close? && e != Close(Drain) ==>
              var t := Step(s, e);
              t.active == s.active && t.routes == s.routes && t.roots == s.roots && t.change == s.change
              && t.configured == s.configured && t.minted == s.minted
  {
    hide Inv, WorkspaceStep, ChangeStep, CloseStep, WorkspaceEnabled, ChangeEnabled;
    match e {
      case Workspace(w) => WorkspaceWaits(s, w);
      case Change(_) =>
      case Close(d) => CloseLeavesChange(s, d);
    }
  }

  lemma CloseLeavesChange(s: State, d: CloseEvent)
    requires CloseEnabled(s, d)
    ensures d != Drain ==>
              var t := CloseStep(s, d);
              t == s.(closing := t.closing, pending := t.pending, closed := t.closed)
  {
  }

  lemma WorkspaceWaits(s: State, w: WorkspaceEvent)
    requires Inv(s) && s.change.Some?
    ensures !WorkspaceEnabled(s, w)
  {
  }

  /** Close does not wait for a change: a commit keeps every Runtime in one place exactly when
      Close has not drained, otherwise all the replaced ones are closed twice and the rebuilt
      ones stay live after Close. */
  lemma CommitConservesExactlyBeforeDrain(s: State)
    requires Inv(s) && ChangeEnabled(s, Commit)
    ensures Conserved(ChangeStep(s, Commit)) <==> !s.drained
    ensures s.drained ==>
              var t := ChangeStep(s, Commit);
              && t.active != map[]
              && forall id | id in s.change.value.snapshot ::
                   var h := s.change.value.snapshot[id]; t.pending[h] + t.closed[h] == 2
  {
    if !s.drained {
      ChangeConserved(s, Commit);
    } else {
      var c := s.change.value;
      var t := ChangeStep(s, Commit);
      forall id | id in c.snapshot ensures t.pending[c.snapshot[id]] + t.closed[c.snapshot[id]] == 2 {
        var h := c.snapshot[id];
        HeldCount(c.snapshot, h);
        assert Places(s, h) == 1;
        assert !Has(c.prepared, h);
      }
      var id :| id in c.snapshot;
      assert Places(t, c.snapshot[id]) >= 2;
    }
  }

  const OLD := Handle(1, 0)
  const REBUILT := Handle(1, 1)
  const LIVE := map[1 := OLD]

  /** One workspace loaded and live. */
  const LOADED :=
    State([1], LIVE, map[], false, false, true, LIVE, map[], None, false, multiset{}, multiset{}, {OLD}, 1)

  /** A change over it that has routed its one rebuilt Runtime. */
  const SWAPPED :=
    LOADED.(reconfiguring := true, minted := {OLD, REBUILT}, next := 2, routes := map[1 := REBUILT],
            change := Some(Reconfiguration(LIVE, map[1 := REBUILT], {1}, Routing)))

  ghost predicate Reaches(s: State, t: State) { exists events :: Run(s, events, t) }

  lemma ReachesItself(s: State)
    ensures Reaches(s, s)
  {
    assert Run(s, [], s);
  }

  lemma ReachesAfter(s: State, e: Event, t: State)
    requires Enabled(s, e) && Reaches(Step(s, e), t)
    ensures Reaches(s, t)
  {
    var rest :| Run(Step(s, e), rest, t);
    assert ([e] + rest)[1..] == rest;
    assert Run(s, [e] + rest, t);
  }

  lemma LoadedIsReached(t: State)
    requires Reaches(LOADED, t)
    ensures Reaches(Start([], true), t)
  {
    hide Reaches;
    var e0, e1, e2 := Workspace(AddBegin(1, 0)), Workspace(AddPrepare(0, true)), Workspace(AddFinish(0, true, true));
    var s1 := Start([], true).(roots := [1], loading := map[1 := 0], loaders := map[0 := Loader(1, Preparing)]);
    var s2 := s1.(loaders := map[0 := Loader(1, Prepared(OLD))], minted := {OLD}, next := 1);
    assert Step(Start([], true), e0) == s1;
    assert Step(s1, e1) == s2;
    assert Step(s2, e2) == LOADED;
    ReachesAfter(s2, e2, t);
    ReachesAfter(s1, e1, t);
    ReachesAfter(Start([], true), e0, t);
  }

  lemma SwappedIsReached(t: State)
    requires Reaches(SWAPPED, t)
    ensures Reaches(LOADED, t)
  {
    hide Reaches;
    var e0, e1, e2, e3 := Change(Begin), Change(Prepare(1)), Change(Install), Change(Route(1));
    var s1 := LOADED.(reconfiguring := true, change := Some(Reconfiguration(LIVE, map[], {}, Building)));
    var s2 := s1.(minted := {OLD, REBUILT}, next := 2,
                  change := Some(Reconfiguration(LIVE, map[1 := REBUILT], {}, Building)));
    var s3 := s2.(change := Some(Reconfiguration(LIVE, map[1 := REBUILT], {}, Routing)));
    assert Step(LOADED, e0) == s1;
    assert Step(s1, e1) == s2;
    assert Step(s2, e2) == s3;
    assert LIVE[1 := REBUILT] == map[1 := REBUILT];
    assert s3.change.value.routed + {1} == {1};
    assert Step(s3, e3) == SWAPPED;
    ReachesAfter(s3, e3, t);
    ReachesAfter(s2, e2, t);
    ReachesAfter(s1, e1, t);
    ReachesAfter(LOADED, e0, t);
  }

  /** The overlap is reachable: Close drains between a change's routing and its commit. The
      Runtime live before is then scheduled for closing twice and the rebuilt one stays live. */
  lemma OverlapIsReachable() returns (t: State)
    ensures Reaches(Start([], true), t)
    ensures t.drained && t.active == map[1 := REBUILT] && t.pending[OLD] == 2
  {
    hide Reaches;
    var e0, e1, e2 := Close(Announce), Close(Drain), Change(Commit);
    var s1 := SWAPPED.(closing := true);
    var s2 := s1.(active := map[], pending := multiset{} + Held(LIVE), drained := true);
    t := s2.(active := map[1 := REBUILT], pending := s2.pending + Held(LIVE), change := Some(ENDED));
    HeldCount(LIVE, OLD);
    assert Step(SWAPPED, e0) == s1;
    assert Step(s1, e1) == s2;
    assert Step(s2, e2) == t;
    ReachesItself(t);
    ReachesAfter(s2, e2, t);
    ReachesAfter(s1, e1, t);
    ReachesAfter(SWAPPED, e0, t);
    SwappedIsReached(t);
    LoadedIsReached(t);
  }

  // ------------------------------------------------------------- the locked sections

  /** What Add's first locked section decides. */
  datatype Admission = Rejected | Ready | Waits | Registered | Started

  /** The manager and the Server's routing table as the code updates them under the lock. Each
      section moves the fields from showing a state to showing its successor. */
  class Host {
    var roots: seq<WorkspaceId>
    var active: Table
    var loading: map<WorkspaceId, nat>
    var reconfiguring: bool
    var closing: bool
    var configured: bool
    var routes: Table

    ghost predicate Shows(s: State)
      reads this
    {
      && roots == s.roots && active == s.active && loading == s.loading && reconfiguring == s.reconfiguring
      && closing == s.closing && configured == s.configured && routes == s.routes
    }

    constructor (stored: seq<WorkspaceId>, selected: bool)
      ensures Shows(Start(stored, selected))
    {
      roots, active, loading, reconfiguring, closing, configured := stored, map[], map[], false, false, selected;
      routes := map[];
    }

    method AppendUniqueRoot(id: WorkspaceId)
      modifies this`roots
      ensures roots == AppendUnique(old(roots), id)
    {
      for index := 0 to |roots|
        invariant id !in roots[..index] && roots == old(roots)
      {
        if roots[index] == id { return; }
        assert roots[..index + 1] == roots[..index] + [roots[index]];
      }
      assert roots[..|roots|] == roots;
      roots := roots + [id];
    }

    /** Add up to its first unlock; `token` is the channel a new load would wait on. */
    method AdmitWorkspace(id: WorkspaceId, token: nat, ghost s: State) returns (r: Admission)
      requires Shows(s) && token !in s.loaders
      modifies this
      ensures r.Started? <==> WorkspaceEnabled(s, AddBegin(id, token))
      ensures r.Registered? <==> WorkspaceEnabled(s, Register(id))
      ensures r.Ready? <==> Quiet(s) && id in s.active
      ensures r.Waits? <==> Quiet(s) && id !in s.active && id in s.loading
      ensures Shows(match r
                    case Started => WorkspaceStep(s, AddBegin(id, token))
                    case Registered => WorkspaceStep(s, Register(id))
                    case _ => s)
      ensures r.Rejected? <==> old(closing || reconfiguring)
      ensures r.Started? ==> !old(closing || reconfiguring) && id !in old(active) && id !in old(loading) && configured
      ensures r.Registered? ==>
                !old(closing || reconfiguring) && id !in old(active) && id !in old(loading) && !configured
      ensures active == old(active) && routes == old(routes) && closing == old(closing)
      ensures loading == if r.Started? then old(loading)[id := token] else old(loading)
      ensures roots == if (r.Started? || r.Registered?) && id !in old(roots) then old(roots) + [id] else old(roots)
    {
      if closing || reconfiguring { return Rejected; }
      if id in active { return Ready; }
      if id in loading { return Waits; }
      AppendUniqueRoot(id);
      if !configured { return Registered; }
      loading := loading[id := token];
      return Started;
    }

    /** Add's second locked section and what it leaves the caller to close. */
    method FinishLoad(
      id: WorkspaceId, token: nat, prepared: Option<Handle>, saved: bool, routed: bool, ghost s: State)
      returns (toClose: Option<Handle>)
      requires Shows(s) && token in s.loaders
      requires s.loaders[token] == Loader(id, if prepared.Some? then Prepared(prepared.value) else PrepareFailed)
      modifies this
      ensures var t := WorkspaceStep(s, AddFinish(token, saved, routed));
              Shows(t) && t.pending == if toClose.None? then s.pending else s.pending + multiset{toClose.value}
      ensures if prepared.Some? && !closing && saved && routed
              then toClose.None? && active == old(active)[id := prepared.value]
                   && routes == old(routes)[id := prepared.value]
              else toClose == prepared && active == old(active) && routes == old(routes)
      ensures loading == old(loading) - {id} && roots == old(roots) && closing == old(closing)
    {
      FinishFields(s, token, saved, routed);
      hide WorkspaceStep;
      var failed := prepared.None? || closing || !saved || !routed;
      if !failed {
        routes := routes[id := prepared.value];
        active := active[id := prepared.value];
      }
      loading := loading - {id};
      toClose := if failed then prepared else None;
    }

    method RootIndex(id: WorkspaceId) returns (rootIndex: nat)
      ensures rootIndex <= |roots| && (rootIndex == |roots| <==> id !in roots)
      ensures rootIndex < |roots| ==> roots[..rootIndex] + roots[rootIndex + 1..] == RemoveRoot(roots, id)
    {
      rootIndex := 0;
      while rootIndex < |roots| && roots[rootIndex] != id
        invariant rootIndex <= |roots| && id !in roots[..rootIndex]
      {
        rootIndex := rootIndex + 1;
      }
      if rootIndex < |roots| {
        FirstRoot(roots, id, rootIndex);
      } else {
        assert roots[..rootIndex] == roots;
      }
    }

    /** Remove's locked section; only the first matching root goes. */
    method RemoveWorkspace(id: WorkspaceId, busy: bool, saved: bool, ghost s: State)
      returns (toClose: Option<Handle>)
      requires Shows(s)
      modifies this
      ensures var e := WorkspaceEvent.Remove(id, busy, saved);
              var t := if WorkspaceEnabled(s, e) then WorkspaceStep(s, e) else s;
              Shows(t) && t.pending == if toClose.None? then s.pending else s.pending + multiset{toClose.value}
    {
      RemoveFields(s, WorkspaceEvent.Remove(id, busy, saved));
      hide WorkspaceStep;
      toClose := None;
      if closing || reconfiguring || id in loading { return; }
      var rootIndex := RootIndex(id);
      if rootIndex == |roots| { return; }
      if id in active && busy { return; }
      if !saved { return; }
      if id in active {
        toClose := Some(active[id]);
        routes := routes - {id};
      }
      roots := roots[..rootIndex] + roots[rootIndex + 1..];
      active := active - {id};
    }

    /** The entry of a reconfiguration. */
    method BeginChange(ghost s: State) returns (ok: bool)
      requires Shows(s)
      modifies this
      ensures ok <==> ChangeEnabled(s, Begin)
      ensures ok <==> !old(closing) && !old(reconfiguring) && old(loading) == map[]
      ensures reconfiguring == (ok || old(reconfiguring))
      ensures Shows(if ok then ChangeStep(s, Begin) else s)
    {
      ok := !closing && !reconfiguring && loading == map[];
      if ok { reconfiguring := true; }
    }

    /** The commit point: the rebuilt Runtimes become the live ones. */
    method CommitChange(prepared: Table, ghost s: State)
      requires Shows(s) && ChangeEnabled(s, Commit) && s.change.value.prepared == prepared
      modifies this
      ensures Shows(ChangeStep(s, Commit)) && active == prepared && configured
    {
      configured := true;
      active := prepared;
    }

    method EndChange(ghost s: State)
      requires Shows(s) && ChangeEnabled(s, End)
      modifies this
      ensures Shows(ChangeStep(s, End))
    {
      reconfiguring := false;
    }

    /** Close's two locked sections, around the wait for loads. */
    method AnnounceClose(ghost s: State)
      requires Shows(s)
      modifies this
      ensures Shows(CloseStep(s, Announce)) && closing
    {
      closing := true;
    }

    method DrainActive(ghost s: State) returns (runtimes: Table)
      requires Shows(s) && CloseEnabled(s, Drain)
      modifies this
      ensures Shows(CloseStep(s, Drain)) && CloseStep(s, Drain).pending == s.pending + Held(runtimes)
      ensures runtimes == old(active) && active == map[]
    {
      runtimes := active;
      active := map[];
    }
  }

  /** `after` is `before` without the first occurrence of a root. */
  ghost predicate RootGone(before: seq<WorkspaceId>, after: seq<WorkspaceId>, id: WorkspaceId) {
    exists i: nat :: i < |before| && before[i] == id && id !in before[..i] && after == before[..i] + before[i + 1..]
  }

  lemma {:induction false} RemovedRoot(roots: seq<WorkspaceId>, id: WorkspaceId)
    ensures id in roots ==> RootGone(roots, RemoveRoot(roots, id), id)
  {
    if id in roots {
      var i := FirstAt(roots, id);
      FirstRoot(roots, id, i);
    }
  }

  /** What Remove does: nothing unless the workspace is registered, idle and not loading, no change
      is under way and the roots are saved; then the root, the Runtime and its route go, and
      the Runtime is left to be closed. */
  lemma RemoveMeans(s: State, id: WorkspaceId, busy: bool, saved: bool)
    ensures WorkspaceEnabled(s, WorkspaceEvent.Remove(id, busy, saved)) <==>
            !s.closing && !s.reconfiguring && id !in s.loading
    ensures WorkspaceEnabled(s, WorkspaceEvent.Remove(id, busy, saved)) ==>
              var t := WorkspaceStep(s, WorkspaceEvent.Remove(id, busy, saved));
              if id !in s.roots || (id in s.active && busy) || !saved then t == s
              else
                && RootGone(s.roots, t.roots, id) && t.active == s.active - {id} && t.loading == s.loading
                && (if id in s.active
                    then t.routes == s.routes - {id} && t.pending == s.pending + multiset{s.active[id]}
                    else t.routes == s.routes && t.pending == s.pending)
  {
    hide RemoveRoot, RootGone;
    RemovedRoot(s.roots, id);
  }

  lemma {:induction false} FirstAt(roots: seq<WorkspaceId>, id: WorkspaceId) returns (i: nat)
    requires id in roots
    ensures i < |roots| && roots[i] == id && id !in roots[..i]
  {
    if roots[0] == id {
      i := 0;
    } else {
      i := FirstAt(roots[1..], id);
      i := i + 1;
      assert roots[..i] == [roots[0]] + roots[1..][..i - 1];
    }
  }

  /** The fields Add's second section moves. */
  lemma FinishFields(s: State, token: nat, saved: bool, routed: bool)
    requires WorkspaceEnabled(s, AddFinish(token, saved, routed))
    ensures var loader := s.loaders[token];
            var live := loader.progress.Prepared? && !s.closing && saved && routed;
            var t := WorkspaceStep(s, AddFinish(token, saved, routed));
            && t == s.(active := t.active, routes := t.routes, loading := s.loading - {loader.id},
                       loaders := t.loaders, pending := t.pending)
            && (if live
                then t.active == s.active[loader.id := loader.progress.runtime]
                     && t.routes == s.routes[loader.id := loader.progress.runtime]
                else t.active == s.active && t.routes == s.routes)
            && t.pending == (if live || loader.progress.PrepareFailed? then s.pending
                             else s.pending + multiset{loader.progress.runtime})
  {
  }

  /** The fields Remove's section moves, if any. */
  lemma RemoveFields(s: State, e: WorkspaceEvent)
    requires e.Remove?
    ensures WorkspaceEnabled(s, e) ==>
              var t := WorkspaceStep(s, e);
              if e.id !in s.roots || (e.id in s.active && e.busy) || !e.saved then t == s
              else
                && t == s.(roots := RemoveRoot(s.roots, e.id), active := s.active - {e.id}, routes := t.routes,
                           pending := t.pending)
                && t.routes == (if e.id in s.active then s.routes - {e.id} else s.routes)
                && t.pending == (if e.id in s.active then s.pending + multiset{s.active[e.id]} else s.pending)
  {
  }

  lemma {:induction false} FirstRoot(roots: seq<WorkspaceId>, id: WorkspaceId, index: nat)
    requires index < |roots| && roots[index] == id && id !in roots[..index]
    ensures roots[..index] + roots[index + 1..] == RemoveRoot(roots, id)
  {
    if index > 0 {
      assert roots[..index] == [roots[0]] + roots[1..][..index - 1];
      assert roots[0] in roots[..index];
      FirstRoot(roots[1..], id, index - 1);
    }
  }
}
