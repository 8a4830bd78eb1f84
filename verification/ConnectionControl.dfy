/** The setup, connection and model operations of internal/host/workspace_manager.go, each one
    computed from the current selection and installed by the reconfiguration transaction. */
module ConnectionControl {
  import opened Common
  import opened Connections
  import opened Rotation
  import opened Routing
  import opened Reconfiguration
  import SerialOrder

  /** Outcomes of the calls AddConnection makes in the target connection's own namespace. */
  datatype TargetFaults = TargetFaults(
    loadFails: bool, openFails: bool, stageFails: bool, settle: Fault, recovered: Reference, issued: Reference)

  // ------------------------------------------------------- what a change may write

  /** The connection a change writes a staged key to, if any. */
  function Owner(attached: bool, request: Request): Option<nat> {
    if request.secret != "" then request.next.Active()
    else if !attached || request.prestaged.None? then None
    else if TargetsDefault(request.next, request.owner) then request.next.Active()
    else request.next.Find(request.owner)
  }

  /** The key a change binds. */
  function BoundKey(request: Request, faults: Faults): Reference {
    if request.secret != "" then faults.issued
    else if request.prestaged.Some? then request.prestaged.value.Effective()
    else faults.recovered
  }

  /** A staged reference is written to its owner and to no other connection, and a key staged
      for another connection never becomes the credential of a Runtime. */
  lemma StagedKeyStaysWithItsOwner(attached: bool, request: Request, faults: Faults)
    requires request.Proper()
    ensures var (selection, reference) := Bound(attached, request, faults);
            && selection == (match Owner(attached, request)
                             case None => request.next
                             case Some(i) => request.next.WithCredential(i, BoundKey(request, faults)))
            && (attached && request.prestaged.Some? && !TargetsDefault(request.next, request.owner) ==>
                  reference == request.reference && RuntimeCredential(request, faults) == faults.recovered)
            && (attached && (request.secret != "" || request.prestaged.Some?)
                && (request.secret == "" ==> TargetsDefault(request.next, request.owner)) ==>
                  reference == RuntimeCredential(request, faults) == BoundKey(request, faults))
  {
  }

  lemma BoundWellFormed(attached: bool, request: Request, faults: Faults)
    requires request.Proper() && WellFormed(request.next)
    ensures WellFormed(Bound(attached, request, faults).0)
  {
    hide WellFormed, Bound, BindStaged;
    StagedKeyStaysWithItsOwner(attached, request, faults);
    if Owner(attached, request).Some? {
      WithCredentialWellFormed(request.next, Owner(attached, request).value, BoundKey(request, faults));
    }
  }

  /** An idle rotation stages nothing, yet a rebuild under live Runtimes still writes its current
      reference to the owner, which bindTo and the change without Runtimes do not. */
  lemma IdleStagingWritesBack(request: Request, faults: Faults)
    requires request.Proper() && request.secret == "" && request.owner != ""
    requires request.prestaged.Some? && request.prestaged.value.phase == Idle
    requires request.next.Find(request.owner).Some?
    ensures BindTo(request.prestaged.value, request.next, request.owner) == request.next
    ensures Bound(false, request, faults).0 == request.next
    ensures Bound(true, request, faults).0 == request.next <==>
            request.next.connections[Owner(true, request).value].credential ==
            Some(request.prestaged.value.reference)
  {
    var key := request.prestaged.value.reference;
    var i := Owner(true, request).value;
    var bound := request.next.WithCredential(i, key);
    assert Bound(true, request, faults).0 == bound;
    if request.next.connections[i].credential == Some(key) {
      assert bound.connections == request.next.connections;
    } else {
      assert bound.connections[i] != request.next.connections[i];
    }
  }

  /** Nothing fails before the save of the new selection. */
  ghost predicate ReachesSave(keys: set<WorkspaceId>, request: Request, faults: Faults) {
    if keys == {} then PrestagedActivates(request.prestaged, faults) && PreparesAlone(request, faults)
    else !faults.busy && AllPrepare(keys, request, faults) && !faults.busyAgain
  }

  /** If it comes to a save, then either that writes nothing, or it works and the compensating
      one writes. */
  ghost predicate Compensated(keys: set<WorkspaceId>, request: Request, faults: Faults) {
    ReachesSave(keys, request, faults) ==>
      faults.save == NotSaved || (faults.save == Saved && faults.compensate.Wrote())
  }

  /** A failed change leaves the selection file as it was unless it gets to its save and that
      save fails after its rename, which nothing compensates, or the save works and the
      compensating one writes nothing. */
  lemma FileRestoredExactlyWhen(
    keys: set<WorkspaceId>, previous: Selection, bound: Selection, request: Request, faults: Faults)
    requires StageOf(keys, request, faults) != Done && OnDisk(previous) != Some(bound)
    ensures DiskAfter(StageOf(keys, request, faults), OnDisk(previous), previous, bound, faults) == OnDisk(previous)
            <==> Compensated(keys, request, faults)
  {
  }

  /** Every call works but the save, which fails after its rename. */
  const RENAMED_ONLY := Faults(
    false, false, {}, {}, {}, {}, {}, SavedThenFailed, Saved, false, Works, Works, Works, Works,
    Reference(0), Reference(1))

  /** The first setup of a fresh host fails that way: the host stays without a connection, yet
      its selection file holds the refused one. */
  method RefusedSelectionStaysOnDisk(connection: Connection) returns (m: Manager, stage: Stage)
    requires connection.id != "" && connection.models == [] && connection.credential == None
    ensures fresh(m) && m.Valid() && stage == SaveFailed
    ensures m.selection == EMPTY && m.disk.Some? && m.disk.value.Find(connection.id).Some?
  {
    var server := new Server();
    var ledger := new Ledger();
    m := new Manager(server, ledger);
    var own;
    stage, own := ChangeSelection(m, Seen(EMPTY, Reference(0)), Setup(connection), "", false, RENAMED_ONLY);
  }

  /** The file held the selection, no save fails after its rename, and compensation writes. */
  predicate Persisted(disk: Option<Selection>, selection: Selection, faults: Faults) {
    disk == OnDisk(selection) && faults.save != SavedThenFailed && faults.compensate.Wrote()
  }

  lemma FileFollows(
    stage: Stage, before: Option<Selection>, previous: Selection, selection: Selection, bound: Selection,
    faults: Faults)
    requires if stage == Done then selection == bound && selection.Active().Some? else selection == previous
    ensures Persisted(before, previous, faults) ==>
              DiskAfter(stage, before, previous, bound, faults) == OnDisk(selection)
  {
  }

  // ------------------------------------------------------------------ operations

  /** The selection and reference an operation has read; others may have committed since. */
  datatype Seen = Seen(selection: Selection, reference: Reference)

  /** The reference an operation routes Runtimes with. */
  function RouteReference(op: Operation, selection: Selection, reference: Reference): Reference {
    match op
    case Setup(_) => Reference(0)
    case SetDefault(id) =>
      var target := selection.Lookup(id);
      if target.Some? && target.value.credential.Some? then target.value.credential.value else reference
    case _ => reference
  }

  /** Only setup and model registration submit a key of their own. */
  function SubmittedKey(op: Operation, apiKey: string): string {
    if op.Setup? || op.AddModel? || op.UpdateModel? then apiKey else ""
  }

  /** What an operation asks the transaction to install. */
  function ChangeRequest(op: Operation, seen: Seen, apiKey: string): Request
    requires Apply(op, seen.selection).Ok?
  {
    Request(Apply(op, seen.selection).value, RouteReference(op, seen.selection, seen.reference),
            SubmittedKey(op, apiKey), None, "")
  }

  /** What a finished operation leaves. With a key of its own setup and model registration stage it,
      and it is the credential of the default connection and of every Runtime; without one,
      and in any other operation, nothing is staged and the selection is as computed, with the
      reference the operation routes with, or the one recovered if there is no Runtime. */
  ghost predicate Changed(
    op: Operation, seen: Seen, apiKey: string, attached: bool, faults: Faults, selection: Selection,
    reference: Reference, active: Runtimes, own: Option<View>)
  {
    Apply(op, seen.selection).Ok? &&
    var next := Apply(op, seen.selection).value;
    if apiKey != "" && (op.Setup? || op.AddModel? || op.UpdateModel?) then
      && next.Active().Some? && reference == faults.issued
      && selection == next.(connections := next.connections[
           next.Active().value := next.connections[next.Active().value].(credential := Some(faults.issued))])
      && own.Some? && own.value.reference == faults.issued && own.value.previous == faults.recovered
      && (forall id | id in active :: active[id].credential == faults.issued)
    else
      && selection == next && own.None?
      && (forall id | id in active :: active[id].credential == faults.recovered)
      && if !attached then reference == faults.recovered
         else
           match op
           case Setup(_) => reference == Reference(0)
           case SetDefault(id) =>
             && (forall i | 0 <= i < |seen.selection.connections| && seen.selection.connections[i].id == id
                    && (forall j | 0 <= j < i :: seen.selection.connections[j].id != id) ::
                    reference == match seen.selection.connections[i].credential
                                 case Some(stored) => stored
                                 case None => seen.reference)
           case _ => reference == seen.reference
  }

  lemma ChangedMeans(
    op: Operation, seen: Seen, apiKey: string, active0: Runtimes, build: nat, faults: Faults, selection: Selection,
    reference: Reference, active: Runtimes, own: Option<View>)
    requires Apply(op, seen.selection).Ok? && !op.AddConnection?
    requires var request := ChangeRequest(op, seen, apiKey);
             && request.next.Active().Some?
             && Written(selection, reference, active0.Keys != {}, request, faults)
             && Rekeyed(active0, active, build, request, faults)
             && OwnSettled(Done, own, request.secret, faults)
    ensures Changed(op, seen, apiKey, active0.Keys != {}, faults, selection, reference, active, own)
  {
  }

  /** setup/apply, connection/remove, connection/default and the model operations: the whole
      operation takes effect or nothing does. `seen` is what it read before the transaction;
      `vetoed` says that a check in between fails: a Session still uses the target, or no
      configuration loads. */
  method ChangeSelection(m: Manager, seen: Seen, op: Operation, apiKey: string, vetoed: bool, faults: Faults)
    returns (stage: Stage, own: Option<View>)
    requires m.Valid() && WellFormed(m.selection) && WellFormed(seen.selection) && Resolved(op) && !op.AddConnection?
    modifies m, m.server, m.ledger
    ensures m.Valid() && WellFormed(m.selection)
    ensures stage == Refused <==>
              old(m.closing || m.reconfiguring || m.loading != {} || !m.bound || m.server.reconfiguring)
              || vetoed || Apply(op, seen.selection).Err?
    ensures stage == Refused ==> m.disk == old(m.disk)
    ensures stage != Refused ==>
              var request := ChangeRequest(op, seen, apiKey);
              && stage == StageOf(old(m.active).Keys, request, faults)
              && m.disk == DiskAfter(stage, old(m.disk), old(m.selection),
                                     Bound(old(m.active).Keys != {}, request, faults).0, faults)
    ensures stage != Refused && stage != Done && old(m.disk) == OnDisk(old(m.selection)) ==>
              var request := ChangeRequest(op, seen, apiKey);
              OnDisk(old(m.selection)) != Some(Bound(old(m.active).Keys != {}, request, faults).0) ==>
                (m.disk == old(m.disk) <==> Compensated(old(m.active).Keys, request, faults))
    ensures stage == Done ==>
              && (m.selection, m.reference) ==
                 Bound(old(m.active).Keys != {},
                       ChangeRequest(op, seen, apiKey), faults)
              && m.active.Keys == old(m.active).Keys
              && (!m.closing ==> m.server.workspaces == m.active)
    ensures stage != Done ==>
              && m.selection == old(m.selection) && m.reference == old(m.reference) && m.active == old(m.active)
              && m.server.workspaces == old(m.server.workspaces)
              && m.server.dependencies == old(m.server.dependencies)
    ensures Persisted(old(m.disk), old(m.selection), faults) ==> m.disk == OnDisk(m.selection)
    ensures stage == Done ==>
              Changed(op, seen, apiKey, old(m.active).Keys != {}, faults, m.selection, m.reference, m.active, own)
    ensures apiKey == "" || op.RemoveConnection? || op.SetDefault? || op.RemoveModel? ==> own.None?
    ensures own.Some? ==>
              own.value.Sound() && own.value.previous == faults.recovered && own.value.reference == faults.issued
    ensures stage != Done && own.Some? && faults.restore == Works ==> own.value.effective == faults.recovered
    ensures stage == Done && own.Some? ==> own.value.phase in {Activated, Committed}
  {
    hide WellFormed, DiskAfter, Bound, PrestagedKept, Conserved, StageOf, Apply, Compensated, OnDisk;
    hide FileAfter, Changed, Written, Rekeyed;
    var result := Apply(op, seen.selection);
    if result.Err? || vetoed {
      FileFollows(Refused, m.disk, m.selection, m.selection, m.selection, faults);
      NothingDone(Refused, Request(m.selection, m.reference, "", None, ""), m.disk, m.selection, m.selection, faults);
      return Refused, None;
    }
    var request := ChangeRequest(op, seen, apiKey);
    ApplyWellFormed(op, seen.selection);
    BoundWellFormed(m.active.Keys != {}, request, faults);
    NothingDone(Refused, request, m.disk, m.selection, Bound(m.active.Keys != {}, request, faults).0, faults);
    var unused;
    stage, own, unused := m.ReplaceSelectionStaged(request, faults);
    if stage == Done {
      ChangedMeans(op, seen, apiKey, old(m.active), old(m.changes), faults, m.selection, m.reference, m.active, own);
    }
    var (selection, _) := Bound(old(m.active).Keys != {}, request, faults);
    FileFollows(stage, old(m.disk), old(m.selection), m.selection, selection, faults);
    if stage != Refused && stage != Done && OnDisk(old(m.selection)) != Some(selection) {
      FileRestoredExactlyWhen(old(m.active).Keys, old(m.selection), selection, request, faults);
    }
  }

  /** The key an operation writes to the default connection. */
  function KeyBinding(op: Operation, next: Selection, apiKey: string, faults: Faults): Option<(nat, Reference)> {
    if SubmittedKey(op, apiKey) == "" || next.Active().None? then None
    else Some((next.Active().value, faults.issued))
  }

  lemma BoundByKey(attached: bool, op: Operation, seen: Seen, apiKey: string, faults: Faults)
    requires Apply(op, seen.selection).Ok?
    ensures var next := Apply(op, seen.selection).value;
            Bound(attached, ChangeRequest(op, seen, apiKey), faults).0 ==
            Bind(next, KeyBinding(op, next, apiKey, faults))
  {
  }

  lemma BoundActive(s: Selection, b: Option<(nat, Reference)>)
    ensures Bind(s, b).Active() == s.Active()
  {
    if b.Some? && b.value.0 < |s.connections| {
      SerialOrder.BoundIds(s, b.value.0, b.value.1, "");
    }
  }

  /** What an operation installs is what it would have installed from the selection it replaces,
      exactly under the condition of `SerialOrder`. */
  lemma InstalledSerialExactlyWhen(
    attached: bool, op: Operation, seen: Seen, last: Seen, apiKey: string, faults: Faults)
    requires SerialOrder.Sound(seen.selection) && SerialOrder.Sound(last.selection) && SerialOrder.Proper(op)
    requires Apply(op, seen.selection).Ok? && Apply(op, last.selection).Ok?
    ensures var key := KeyBinding(op, Apply(op, seen.selection).value, apiKey, faults);
            Bound(attached, ChangeRequest(op, seen, apiKey), faults).0 ==
            Bound(attached, ChangeRequest(op, last, apiKey), faults).0 <==>
            SerialOrder.Serial(op, key, seen.selection, last.selection)
  {
    hide Bound, Apply, SerialOrder.Sound, SerialOrder.Erased, SerialOrder.Proper, SerialOrder.Done;
    var a, b := Apply(op, seen.selection).value, Apply(op, last.selection).value;
    var key := KeyBinding(op, a, apiKey, faults);
    BoundByKey(attached, op, seen, apiKey, faults);
    BoundByKey(attached, op, last, apiKey, faults);
    SerialOrder.SerialExactlyWhen(Change(op, 0, key), [seen.selection, last.selection]);
    BoundActive(a, key);
    BoundActive(b, key);
    BoundActive(b, KeyBinding(op, b, apiKey, faults));
  }

  // -------------------------------------------------------------- connection/add

  /** The entry connection/add leaves for its connection: a submitted key becomes its
      credential; without one a rebuild writes the target namespace's current reference,
      and without a rebuild the stored credential stays. */
  function AddedCredential(
    stored: Option<Reference>, apiKey: string, attached: bool, target: TargetFaults): Option<Reference>
  {
    if apiKey != "" then Some(target.issued)
    else if attached then Some(target.recovered)
    else stored
  }

  /** Binding a credential changes what one ID looks up to, and nothing else. */
  lemma WithCredentialLookup(s: Selection, i: nat, reference: Reference, other: string)
    requires i < |s.connections| && s.Find(s.connections[i].id) == Some(i)
    ensures var r := s.WithCredential(i, reference);
            && r.Lookup(other) == (if other == s.connections[i].id
                                   then Some(s.connections[i].(credential := Some(reference))) else s.Lookup(other))
            && r.Find(other) == s.Find(other) && r.Active() == s.Active()
  {
    var r := s.WithCredential(i, reference);
    SameIds(s.connections, r.connections, other);
    SameIds(s.connections, r.connections, s.defaultConnection);
  }

  /** `r` is `s` with this connection, holding `credential`: every other connection and the
      default are unchanged. */
  ghost predicate Added(s: Selection, r: Selection, c: Connection, credential: Option<Reference>) {
    && r.defaultConnection == (if s.defaultConnection == "" then c.id else s.defaultConnection)
    && r.Lookup(c.id) == Some(c.(credential := credential))
    && forall other | other != c.id :: r.Lookup(other) == s.Lookup(other)
  }

  function StoredCredential(s: Selection, c: Connection): Option<Reference> {
    if s.Lookup(c.id).Some? then s.Lookup(c.id).value.credential else None
  }

  lemma MergeAdds(s: Selection, c: Connection)
    requires WellFormed(s) && c.credential.None?
    ensures Added(s, MergeKeepDefault(s, c), c, StoredCredential(s, c))
  {
    var r := MergeKeepDefault(s, c);
    MergeTouchesOnlyTarget(s, c, c.id);
    assert r.Lookup(c.id) == Merge(s, c).Lookup(c.id);
    forall other | other != c.id ensures r.Lookup(other) == s.Lookup(other) {
      MergeTouchesOnlyTarget(s, c, other);
      assert r.Lookup(other) == Merge(s, c).Lookup(other);
    }
  }

  lemma BindKeepsAdded(s: Selection, r: Selection, c: Connection, credential: Option<Reference>, i: nat, key: Reference)
    requires Added(s, r, c, credential) && r.Find(c.id) == Some(i)
    ensures var b := r.WithCredential(i, key);
            Added(s, b, c, Some(key)) && b.Find(c.id) == Some(i) && b.Active() == r.Active()
  {
    hide Selection.Lookup;
    var b := r.WithCredential(i, key);
    LookupAt(r, c.id);
    WithCredentialLookup(r, i, key, c.id);
    forall other | other != c.id ensures b.Lookup(other) == s.Lookup(other) {
      WithCredentialLookup(r, i, key, other);
    }
  }

  lemma LookupAt(s: Selection, id: string)
    ensures s.Find(id).Some? ==> s.Lookup(id) == Some(s.connections[s.Find(id).value])
    ensures s.Lookup(id).Some? ==> s.Find(id).Some?
  {
  }

  /** In a well-formed selection the active entry owns a key exactly when the IDs agree. */
  lemma OwnerIsTarget(request: Request, i: nat)
    requires WellFormed(request.next) && request.next.Find(request.owner) == Some(i) && request.owner != ""
    requires request.secret == "" && request.prestaged.Some?
    ensures Owner(true, request) == Some(i)
  {
  }

  /** The selection connection/add commits: its connection with the credential above, every
      other connection and the default unchanged. */
  lemma AddedSelection(s: Selection, c: Connection, v: View, attached: bool, request: Request, apiKey: string,
                       target: TargetFaults, faults: Faults)
    requires WellFormed(s) && ConnectionWellFormed(c) && c.id != "" && c.credential.None?
    requires v == TargetKey(apiKey, target) && request.next == BindTo(v, MergeKeepDefault(s, c), c.id)
    requires request.secret == "" && request.prestaged == Some(v) && request.owner == c.id
    ensures var r := Bound(attached, request, faults).0;
            WellFormed(r) && Added(s, r, c, AddedCredential(StoredCredential(s, c), apiKey, attached, target))
  {
    hide WellFormed, Added, MergeKeepDefault, StoredCredential, Bound, TargetsDefault, RuntimeCredential, Owner;
    var merged := MergeKeepDefault(s, c);
    MergeWellFormed(s, c);
    MergeAdds(s, c);
    AddedFound(s, merged, c, StoredCredential(s, c));
    var at := merged.Find(c.id).value;
    if apiKey != "" {
      WithCredentialWellFormed(merged, at, target.issued);
      BindKeepsAdded(s, merged, c, StoredCredential(s, c), at, target.issued);
    }
    BoundWellFormed(attached, request, faults);
    StagedKeyStaysWithItsOwner(attached, request, faults);
    if attached {
      OwnerIsTarget(request, at);
      BindKeepsAdded(s, request.next, c, if apiKey == "" then StoredCredential(s, c) else Some(target.issued),
                     at, v.Effective());
    } else {
      NoOwner(request);
    }
    assert BoundKey(request, faults) == v.Effective();
  }

  /** The key connection/add stages reaches Runtimes only if its connection is the default. */
  lemma AddedKeys(
    seen: Seen, c: Connection, apiKey: string, target: TargetFaults, faults: Faults, active0: Runtimes,
    active: Runtimes, build: nat, selection: Selection, reference: Reference)
    requires WellFormed(seen.selection) && ConnectionWellFormed(c) && c.id != "" && c.credential.None?
    requires var request := AddRequest(seen, c, apiKey, target);
             && request.Proper() && request.next.Active().Some?
             && Written(selection, reference, active0.Keys != {}, request, faults)
             && Rekeyed(active0, active, build, request, faults)
    ensures Keyed(seen, c, apiKey, target, faults, active0.Keys != {}, reference, active)
  {
    hide WellFormed;
    var s := seen.selection;
    var request := AddRequest(seen, c, apiKey, target);
    var merged := MergeKeepDefault(s, c);
    MergeWellFormed(s, c);
    if apiKey != "" && merged.Find(c.id).Some? {
      WithCredentialWellFormed(merged, merged.Find(c.id).value, target.issued);
    }
    ActiveIsDefault(request.next);
  }

  /** The reference the manager and its Runtimes use after connection/add. */
  ghost predicate Keyed(
    seen: Seen, c: Connection, apiKey: string, target: TargetFaults, faults: Faults, attached: bool,
    reference: Reference, active: Runtimes)
  {
    var isDefault := seen.selection.defaultConnection == "" || seen.selection.defaultConnection == c.id;
    var key := if apiKey == "" then target.recovered else target.issued;
    && reference == (if !attached then faults.recovered else if isDefault then key else seen.reference)
    && forall id | id in active :: active[id].credential == if isDefault then key else faults.recovered
  }

  lemma NoOwner(request: Request)
    requires request.secret == ""
    ensures Owner(false, request).None?
  {
  }

  lemma AddedFound(s: Selection, r: Selection, c: Connection, credential: Option<Reference>)
    requires Added(s, r, c, credential)
    ensures r.Find(c.id).Some?
  {
  }

  /** connection/add: the target connection's key is staged in its own namespace, installed with
      the merged selection, and committed or rolled back with it. Without any connection it is
      setup, which reads the selection again. */
  method AddConnection(
    m: Manager, seen: Seen, again: Seen, connection: Connection, apiKey: string, target: TargetFaults, faults: Faults)
    returns (stage: Stage, settled: Option<View>)
    requires m.Valid() && WellFormed(m.selection) && connection.id != ""
    requires WellFormed(seen.selection) && WellFormed(again.selection)
    requires connection.models == [] && connection.credential == None
    modifies m, m.server, m.ledger
    ensures m.Valid() && WellFormed(m.selection)
    ensures stage != Done ==>
              && m.selection == old(m.selection) && m.reference == old(m.reference) && m.active == old(m.active)
              && m.server.workspaces == old(m.server.workspaces)
              && m.server.dependencies == old(m.server.dependencies)
    ensures Persisted(old(m.disk), old(m.selection), faults) ==> m.disk == OnDisk(m.selection)
    ensures stage == Done && seen.selection.Active().Some? ==>
              Added(seen.selection, m.selection, connection,
                    AddedCredential(StoredCredential(seen.selection, connection), apiKey,
                                    old(m.active).Keys != {}, target))
    ensures settled.Some? ==> Settled(stage, settled.value, target)
    ensures stage == if old(m.reconfiguring || m.loading != {} || m.closing) then Refused
                     else if seen.selection.Active().None? then
                       if old(m.closing || m.reconfiguring || m.loading != {} || !m.bound || m.server.reconfiguring)
                       then Refused
                       else StageOf(old(m.active).Keys,
                                    ChangeRequest(Setup(connection), again, apiKey), faults)
                     else if NotOpened(apiKey, target) then PrepareFailed
                     else if old(m.closing || m.reconfiguring || m.loading != {} || !m.bound || m.server.reconfiguring)
                     then Refused
                     else StageOf(old(m.active).Keys,
                                  AddRequest(seen, connection, apiKey, target), faults)
    ensures settled.None? <==>
              old(m.reconfiguring || m.loading != {} || m.closing) || seen.selection.Active().None?
              || target.loadFails || target.openFails || (apiKey != "" && target.stageFails)
    ensures settled.Some? ==> settled.value.reference == if apiKey == "" then target.recovered else target.issued
    ensures settled.Some? && stage == Done && apiKey != "" && target.settle == Works ==>
              settled.value.phase == Committed && settled.value.effective == target.issued
    ensures stage == Done && seen.selection.Active().Some? ==>
              Keyed(seen, connection, apiKey, target, faults, old(m.active).Keys != {}, m.reference, m.active)
  {
    hide WellFormed, Added, AddedCredential, StoredCredential, Persisted, Manager.Valid, Settled, Keyed, Changed;
    settled := None;
    if m.reconfiguring || m.loading != {} || m.closing {
      FileFollows(Refused, m.disk, m.selection, m.selection, m.selection, faults);
      return Refused, None;
    }
    if seen.selection.Active().None? {
      var own;
      stage, own := ChangeSelection(m, again, Setup(connection), apiKey, false, faults);
      return;
    }
    stage, settled := AddBeside(m, seen, connection, apiKey, target, faults);
  }

  /** openCredentialRotation, or loading the configuration it reads, fails. */
  predicate NotOpened(apiKey: string, target: TargetFaults) {
    target.loadFails || target.openFails || (apiKey != "" && target.stageFails)
  }

  /** The target connection's key once connection/add has settled it. */
  ghost predicate Settled(stage: Stage, v: View, target: TargetFaults) {
    && v.Sound() && v.previous == target.recovered
    && (if stage == Done then v.phase in {Idle, Committed} || (target.settle != Works && v.phase == Activated)
        else target.settle == Works ==> v.effective == target.recovered)
  }

  lemma SettledAfter(stage: Stage, before: View, after: View, target: TargetFaults, faults: Faults)
    requires before == IdleOver(target.recovered) || before == StagedOver(target.recovered, target.issued)
    requires PrestagedKept(stage, Some(before), Some(after), faults)
    ensures var v := Step(after, if stage == Done then Commit else Rollback, target.settle).0;
            && Settled(stage, v, target) && v.reference == before.reference
            && (before.phase == Staged && stage == Done && target.settle == Works ==>
                  v.phase == Committed && v.effective == before.reference)
  {
  }

  /** The key connection/add opens in the target's namespace. */
  function TargetKey(apiKey: string, target: TargetFaults): View {
    if apiKey == "" then IdleOver(target.recovered) else StagedOver(target.recovered, target.issued)
  }

  /** What connection/add asks the transaction to install beside an existing connection. */
  function AddRequest(
    seen: Seen, connection: Connection, apiKey: string, target: TargetFaults): Request
  {
    var key := TargetKey(apiKey, target);
    Request(BindTo(key, MergeKeepDefault(seen.selection, connection), connection.id), seen.reference, "", Some(key),
            connection.id)
  }

  method AddBeside(
    m: Manager, seen: Seen, connection: Connection, apiKey: string, target: TargetFaults, faults: Faults)
    returns (stage: Stage, settled: Option<View>)
    requires m.Valid() && WellFormed(m.selection) && connection.id != ""
    requires WellFormed(seen.selection) && seen.selection.Active().Some?
    requires connection.models == [] && connection.credential == None
    modifies m, m.server, m.ledger
    ensures m.Valid() && WellFormed(m.selection)
    ensures stage != Done ==>
              && m.selection == old(m.selection) && m.reference == old(m.reference) && m.active == old(m.active)
              && m.server.workspaces == old(m.server.workspaces)
              && m.server.dependencies == old(m.server.dependencies)
    ensures Persisted(old(m.disk), old(m.selection), faults) ==> m.disk == OnDisk(m.selection)
    ensures stage == Done ==>
              Added(seen.selection, m.selection, connection,
                    AddedCredential(StoredCredential(seen.selection, connection), apiKey,
                                    old(m.active).Keys != {}, target))
    ensures settled.Some? ==> Settled(stage, settled.value, target)
    ensures settled.None? <==> target.loadFails || target.openFails || (apiKey != "" && target.stageFails)
    ensures settled.Some? ==> settled.value.reference == if apiKey == "" then target.recovered else target.issued
    ensures settled.Some? && stage == Done && apiKey != "" && target.settle == Works ==>
              settled.value.phase == Committed && settled.value.effective == target.issued
    ensures stage == Done ==>
              Keyed(seen, connection, apiKey, target, faults, old(m.active).Keys != {}, m.reference, m.active)
    ensures stage == if NotOpened(apiKey, target) then PrepareFailed
                     else if old(m.closing || m.reconfiguring || m.loading != {} || !m.bound || m.server.reconfiguring)
                     then Refused
                     else StageOf(old(m.active).Keys,
                                  AddRequest(seen, connection, apiKey, target), faults)
  {
    hide WellFormed, Added, AddedCredential, StoredCredential, Persisted, Manager.Valid, Settled;
    hide Bound, PrestagedKept, OwnSettled, DiskAfter, Replaced, Abandoned, Step, BindTo, MergeKeepDefault;
    hide Selection.Active, StageOf, FileAfter, Written, Rekeyed, Keyed;
    if NotOpened(apiKey, target) {
      FileFollows(PrepareFailed, m.disk, m.selection, m.selection, m.selection, faults);
      NothingDone(PrepareFailed, Request(m.selection, m.reference, "", None, ""), m.disk, m.selection, m.selection,
                  faults);
      return PrepareFailed, None;
    }
    var rotation := TargetKey(apiKey, target);
    var request := AddRequest(seen, connection, apiKey, target);
    AddedSelection(seen.selection, connection, rotation, m.active.Keys != {}, request, apiKey, target, faults);
    var own, after;
    stage, own, after := m.ReplaceSelectionStaged(request, faults);
    FileFollows(stage, old(m.disk), old(m.selection), m.selection, Bound(old(m.active).Keys != {}, request, faults).0,
                faults);
    if stage == Done {
      AddedKeys(seen, connection, apiKey, target, faults, old(m.active), m.active, old(m.changes), m.selection,
                m.reference);
    }
    RotationKept(stage, rotation, after, faults);
    SettledAfter(stage, rotation, after.value, target, faults);
    settled := Some(Step(after.value, if stage == Done then Commit else Rollback, target.settle).0);
  }

  lemma RotationKept(stage: Stage, before: View, after: Option<View>, faults: Faults)
    requires PrestagedKept(stage, Some(before), after, faults)
    ensures after.Some?
  {
  }
}
