/** The compensating transaction of internal/host/workspace_manager.go that replaces the
    connection set under live Workspace Runtimes. Every fallible call takes its outcome
    from `Faults`, so the contracts hold for every failure pattern. */
module Reconfiguration {
  import opened Common
  import opened Connections
  import opened Rotation
  import opened Routing

  /** The key under which outcomes of the Supervisor's own setup path are found. */
  const SUPERVISOR: WorkspaceId := 0

  /** The outcomes of one run's fallible calls, and the references its control hands out:
      `recovered` is what the control publishes when opened, `issued` what staging returns. */
  datatype Faults = Faults(
    busy: bool, busyAgain: bool,
    loadFails: set<WorkspaceId>, openFails: set<WorkspaceId>, stageFails: set<WorkspaceId>,
    buildFails: set<WorkspaceId>, unroutable: set<WorkspaceId>,
    save: SaveOutcome, compensate: SaveOutcome, persistRoots: bool,
    activate: Fault, prestagedActivate: Fault, commit: Fault, restore: Fault,
    recovered: Reference, issued: Reference)

  /** The arguments of replaceSelectionStaged. */
  datatype Request = Request(
    next: Selection, reference: Reference, secret: string, prestaged: Option<View>, owner: string)
  {
    /** What its callers pass: a secret or a rotation that is not settled yet, never both. */
    predicate Proper() {
      && (secret == "" || prestaged.None?)
      && (prestaged.Some? ==> prestaged.value.phase in {Idle, Staged})
    }
  }

  /** Where a change ended. */
  datatype Stage =
    | Refused | Busy | PrestagedFailed | PrepareFailed | BusyAgain | SaveFailed | ActivateFailed | RouteFailed | Done

  // -------------------------------------------------------------- specification

  /** Whether a staged key belongs to the default connection's namespace. */
  predicate TargetsDefault(selection: Selection, owner: string) {
    owner == "" ||
    (selection.Active().Some? && selection.connections[selection.Active().value].id == owner)
  }

  /** What the rebuild may hand to a Runtime: never a key staged for another connection. */
  function RuntimeStaging(selection: Selection, owner: string, staged: Option<View>): Option<View> {
    if staged.Some? && !TargetsDefault(selection, owner) then None else staged
  }

  /** The credential write-back: the staged reference goes to its owner, and becomes the
      Runtime reference only when the default connection owns it. */
  function BindStaged(selection: Selection, reference: Reference, staged: Option<View>, owner: string)
    : (Selection, Reference)
  {
    if staged.None? then (selection, reference)
    else
      var value := staged.value.Effective();
      if TargetsDefault(selection, owner) then
        (if selection.Active().Some? then selection.WithCredential(selection.Active().value, value) else selection,
         value)
      else if selection.Find(owner).Some? then
        (selection.WithCredential(selection.Find(owner).value, value), reference)
      else (selection, reference)
  }

  /** The rotation openCredentialRotation returns, None when it fails. */
  function OpenRotation(
    active: Option<nat>, secret: string, inherited: Option<View>, openFails: bool, stageFails: bool, faults: Faults)
    : Option<View>
  {
    if active.None? || (inherited.None? && openFails) || (secret != "" && stageFails) then None
    else
      var current := if inherited.Some? then inherited.value.Effective() else faults.recovered;
      Some(if secret == "" then IdleOver(current) else StagedOver(current, faults.issued))
  }

  /** The key this change stages itself. */
  function Own(faults: Faults): View { StagedOver(faults.recovered, faults.issued) }

  /** What the selection file holds for a selection: a set without connections has no file. */
  function OnDisk(selection: Selection): Option<Selection> {
    if selection.Active().Some? then Some(selection) else None
  }

  /** The selection and Runtime reference a change commits. */
  function Bound(attached: bool, request: Request, faults: Faults): (Selection, Reference) {
    if !attached then
      if request.secret == "" then (request.next, faults.recovered)
      else (BindTo(Own(faults), request.next, ""), faults.issued)
    else if request.secret == "" then
      BindStaged(request.next, request.reference, request.prestaged, request.owner)
    else BindStaged(request.next, request.reference, Some(Own(faults)), "")
  }

  /** The credential every rebuilt Runtime uses. */
  function RuntimeCredential(request: Request, faults: Faults): Reference {
    if request.secret != "" then faults.issued
    else
      match RuntimeStaging(request.next, request.owner, request.prestaged)
      case None => faults.recovered
      case Some(v) => v.Effective()
  }

  /** The Runtime a change builds in the place of another. */
  function Rebuilt(current: Dependencies, build: nat, request: Request, faults: Faults): Dependencies {
    Dependencies(current.id, current.root, build, RuntimeCredential(request, faults), current.id !in faults.unroutable)
  }

  /** The selection file after a change over `previous` that ended at `stage`. */
  function DiskAfter(
    stage: Stage, before: Option<Selection>, previous: Selection, bound: Selection, faults: Faults): Option<Selection>
  {
    match stage
    case Done => Some(bound)
    case SaveFailed => if faults.save == SavedThenFailed then Some(bound) else before
    case ActivateFailed => if faults.compensate.Wrote() then OnDisk(previous) else Some(bound)
    case RouteFailed => if faults.compensate.Wrote() then OnDisk(previous) else Some(bound)
    case _ => before
  }

  // ------------------------------------------------------ which failure stops a change

  /** Opening the rotation of a workspace works: with a secret only the first one opens and
      stages, without one every workspace opens its own unless it inherits the caller's. */
  predicate Opens(id: WorkspaceId, first: WorkspaceId, request: Request, faults: Faults) {
    if request.secret != "" then id == first ==> id !in faults.openFails && id !in faults.stageFails
    else RuntimeStaging(request.next, request.owner, request.prestaged).None? ==> id !in faults.openFails
  }

  /** The turn of this workspace in the rebuild loop works. */
  predicate Prepares(id: WorkspaceId, first: WorkspaceId, request: Request, faults: Faults) {
    && request.next.Active().Some? && id !in faults.loadFails && id !in faults.buildFails
    && Opens(id, first, request, faults)
  }

  /** The setup path without Runtimes gets as far as its save. */
  predicate PreparesAlone(request: Request, faults: Faults) {
    && request.next.Active().Some? && SUPERVISOR !in faults.loadFails && SUPERVISOR !in faults.openFails
    && (request.secret != "" ==> SUPERVISOR !in faults.stageFails)
  }

  predicate PrestagedActivates(prestaged: Option<View>, faults: Faults) {
    prestaged.Some? ==>
      && prestaged.value.phase != RolledBack
      && (prestaged.value.phase == Staged ==>
            prestaged.value.effective == prestaged.value.previous && faults.prestagedActivate == Works)
  }

  predicate OwnActivates(request: Request, faults: Faults) {
    request.secret != "" ==> faults.activate == Works
  }

  /** Where the setup path without Runtimes ends. */
  function StageAlone(request: Request, faults: Faults): Stage {
    if !PreparesAlone(request, faults) then PrepareFailed
    else if faults.save != Saved then SaveFailed
    else if faults.persistRoots || !OwnActivates(request, faults) then ActivateFailed
    else Done
  }

  /** Where the installation of rebuilt Runtimes ends. */
  function InstallStage(prestaged: Option<View>, activates: bool, routable: bool, faults: Faults): (stage: Stage)
    ensures stage in {SaveFailed, ActivateFailed, RouteFailed, Done}
  {
    if faults.save != Saved then SaveFailed
    else if !PrestagedActivates(prestaged, faults) || !activates then ActivateFailed
    else if !routable then RouteFailed
    else Done
  }

  function StageInstalled(keys: set<WorkspaceId>, request: Request, faults: Faults): Stage {
    InstallStage(request.prestaged, OwnActivates(request, faults), keys !! faults.unroutable, faults)
  }

  ghost predicate AllPrepare(keys: set<WorkspaceId>, request: Request, faults: Faults)
    requires keys != {}
  {
    forall id | id in keys :: Prepares(id, First(keys), request, faults)
  }

  /** Where an accepted change over live Runtimes `keys` ends. */
  ghost function StageOf(keys: set<WorkspaceId>, request: Request, faults: Faults): (stage: Stage)
    ensures stage != Refused
  {
    if keys == {} then
      if PrestagedActivates(request.prestaged, faults) then StageAlone(request, faults) else PrestagedFailed
    else if faults.busy then Busy
    else if !AllPrepare(keys, request, faults) then PrepareFailed
    else if faults.busyAgain then BusyAgain
    else StageInstalled(keys, request, faults)
  }

  /** The workspaces for which a change opens a credential control: none that inherits the
      caller's rotation, and with a secret only the first. */
  ghost function Opened(keys: set<WorkspaceId>, request: Request): set<WorkspaceId> {
    if keys == {} then {SUPERVISOR}
    else if request.secret != "" then {First(keys)}
    else if RuntimeStaging(request.next, request.owner, request.prestaged).None? then keys
    else {}
  }

  /** The caller's rotation is of the default connection. */
  predicate OwnedByDefault(request: Request) {
    request.owner == "" ||
    (request.next.connections != []
     && request.next.connections[request.next.Active().value].id == request.owner)
  }

  /** A change succeeds exactly when no call it makes fails: failures of calls it does not
      make, such as staging without a secret, are without effect. */
  lemma SucceedsExactlyWhen(keys: set<WorkspaceId>, request: Request, faults: Faults)
    requires request.Proper()
    ensures StageOf(keys, request, faults) == Done <==>
            && request.next.connections != [] && faults.save == Saved
            && keys !! faults.loadFails && keys !! faults.buildFails && keys !! faults.unroutable
            && (if keys != {} then !faults.busy && !faults.busyAgain
                else SUPERVISOR !in faults.loadFails + faults.openFails && !faults.persistRoots
                     && (request.secret != "" ==> SUPERVISOR !in faults.stageFails))
            && (request.secret != "" ==> faults.activate == Works)
            && (request.secret != "" ==>
                  forall id | id in keys && forall k | k in keys :: id <= k ::
                    id !in faults.openFails && id !in faults.stageFails)
            && (request.secret == "" && (request.prestaged.None? || !OwnedByDefault(request)) ==>
                  keys !! faults.openFails)
            && (request.prestaged.Some? && request.prestaged.value.phase == Staged ==>
                  request.prestaged.value.effective == request.prestaged.value.previous
                  && faults.prestagedActivate == Works)
  {
    if keys != {} {
      assert forall id | id in keys :: (forall k | k in keys :: id <= k) <==> id == First(keys);
    }
    if keys != {} && request.next.Active().Some? {
      PreparesExactlyWhen(keys, request, faults);
    }
  }

  lemma PreparesExactlyWhen(keys: set<WorkspaceId>, request: Request, faults: Faults)
    requires keys != {} && request.next.Active().Some?
    ensures AllPrepare(keys, request, faults) <==>
            && keys !! faults.loadFails && keys !! faults.buildFails && Opened(keys, request) !! faults.openFails
            && (request.secret != "" ==> Opened(keys, request) !! faults.stageFails)
  {
    hide RuntimeStaging, Selection.Active;
    if AllPrepare(keys, request, faults) {
      forall id | id in keys
        ensures id !in faults.loadFails && id !in faults.buildFails && Opens(id, First(keys), request, faults)
      {
        assert Prepares(id, First(keys), request, faults);
      }
    }
  }

  /** The workspaces a change over `keys` rebuilds: in ID order, up to the first that fails. */
  ghost function BuiltIds(keys: set<WorkspaceId>, request: Request, faults: Faults): set<WorkspaceId> {
    if keys == {} || faults.busy then {}
    else set id | id in keys && forall k | k in keys && k <= id :: Prepares(k, First(keys), request, faults)
  }

  /** The Runtimes a change builds for the current ones. */
  ghost function BuiltBy(current: Runtimes, build: nat, request: Request, faults: Faults): Runtimes {
    map id | id in BuiltIds(current.Keys, request, faults) :: Rebuilt(current[id], build, request, faults)
  }

  /** The one rotation a change stages itself, where the change ended: committed when it
      succeeded, rolled back when it failed, unless the control refused that. */
  ghost predicate OwnSettled(stage: Stage, own: Option<View>, secret: string, faults: Faults) {
    && (own.Some? ==>
          && secret != "" && own.value.Sound()
          && own.value.reference == faults.issued && own.value.previous == faults.recovered)
    && (stage in {BusyAgain, SaveFailed, ActivateFailed, RouteFailed, Done} ==> (own.Some? <==> secret != ""))
    && (if stage == Done
        then own.Some? ==> own.value.phase == if faults.commit == Works then Committed else Activated
        else own.Some? && faults.restore == Works ==> own.value.phase == RolledBack)
  }

  /** No key was staged for this workspace: a call before the staging, or the staging itself, failed. */
  predicate Unstaged(next: Selection, id: WorkspaceId, faults: Faults) {
    next.Active().None? || id in faults.loadFails || id in faults.openFails || id in faults.stageFails
  }

  /** A failed preparation that reports no rotation never staged one. */
  ghost predicate StagingReported(
    stage: Stage, own: Option<View>, ids: set<WorkspaceId>, request: Request, faults: Faults)
  {
    stage == PrepareFailed && request.secret != "" && own.None? ==>
      exists id | id in ids :: Unstaged(request.next, id, faults)
  }

  /** A caller's rotation is activated by a successful change and never settled by it. */
  ghost predicate PrestagedKept(stage: Stage, before: Option<View>, after: Option<View>, faults: Faults) {
    if before.None? then after.None?
    else
      var (activated, ok) := Step(before.value, Call.Activate, faults.prestagedActivate);
      && (stage == Done ==> ok && after == Some(activated))
      && (after == before || after == Some(activated))
  }

  /** Runtimes rebuilt so far for the current ones; only the first workspace's rotation
      carries the submitted secret. */
  ghost predicate BuiltFrom(
    built: Runtimes, rotations: map<WorkspaceId, View>, current: Runtimes, build: nat, first: WorkspaceId,
    request: Request, faults: Faults)
  {
    && built.Keys <= current.Keys && rotations.Keys == built.Keys
    && (forall id | id in built :: built[id] == Rebuilt(current[id], build, request, faults))
    && forall id | id in rotations ::
         if request.secret != "" && id == first then rotations[id] == Own(faults) else rotations[id].phase == Idle
  }

  /** Every Runtime ever prepared is live or closed, never both, and was built by a change
      before `changes`. */
  ghost predicate Conserved(
    active: set<Dependencies>, changes: nat, prepared: set<Dependencies>, closed: set<Dependencies>)
  {
    && prepared == closed + active && closed !! active
    && forall d | d in prepared :: d.runtime < changes
  }

  // ------------------------------------------------------- Runtimes and rotations

  /** The Runtimes prepareWebRuntime has returned and those whose close was called. */
  class Ledger {
    ghost var prepared: set<Dependencies>
    ghost var closed: set<Dependencies>

    constructor ()
      ensures prepared == {} && closed == {}
    {
      prepared, closed := {}, {};
    }

    method Prepare(runtime: Dependencies)
      modifies this`prepared
      ensures prepared == old(prepared) + {runtime}
    {
      prepared := prepared + {runtime};
    }

    /** The precondition makes closing a Runtime twice a verification error. */
    method Close(runtime: Dependencies)
      requires runtime in prepared && runtime !in closed
      modifies this`closed
      ensures closed == old(closed) + {runtime}
    {
      closed := closed + {runtime};
    }

    method CloseAll(runtimes: set<Dependencies>)
      requires runtimes <= prepared && runtimes !! closed
      modifies this`closed
      ensures closed == old(closed) + runtimes
    {
      var todo := runtimes;
      while todo != {}
        invariant todo <= runtimes && closed == old(closed) + (runtimes - todo)
        decreases |todo|
      {
        var runtime :| runtime in todo;
        todo := todo - {runtime};
        Close(runtime);
      }
    }

    /** prepareWebRuntime: opens or inherits a rotation, then builds the Runtime. A failed
        build rolls its rotation back. */
    method PrepareRuntime(
      build: nat, current: Dependencies, next: Selection, secret: string, inherited: Option<View>, faults: Faults)
      returns (runtime: Option<Dependencies>, rotation: Option<View>)
      modifies this`prepared
      ensures var opening := OpenRotation(next.Active(), secret, inherited, current.id in faults.openFails,
                                          current.id in faults.stageFails, faults);
              if opening.Some? && current.id !in faults.buildFails
              then rotation == opening
                   && runtime == Some(Dependencies(current.id, current.root, build, opening.value.Effective(),
                                                   current.id !in faults.unroutable))
                   && prepared == old(prepared) + {runtime.value}
              else runtime.None? && prepared == old(prepared)
                   && rotation == if opening.None? then None
                                  else Some(Step(opening.value, Rollback, faults.restore).0)
    {
      runtime := None;
      rotation := OpenRotation(next.Active(), secret, inherited, current.id in faults.openFails,
                               current.id in faults.stageFails, faults);
      if rotation.None? { return; }
      if current.id in faults.buildFails {
        rotation := Some(Step(rotation.value, Rollback, faults.restore).0);
        return;
      }
      var d := Dependencies(current.id, current.root, build, rotation.value.Effective(),
                            current.id !in faults.unroutable);
      Prepare(d);
      runtime := Some(d);
    }

    /** The rebuild loop over the sorted workspace IDs. Only the first Runtime stages the
        secret; the later ones inherit what it staged. */
    method PrepareAll(build: nat, ids: seq<WorkspaceId>, current: Runtimes, request: Request, faults: Faults)
      returns (built: Runtimes, rotations: map<WorkspaceId, View>, failed: bool, spoiled: Option<View>,
               staged: Option<View>, stagedOwner: string, ghost done: nat)
      requires SortedIds(ids, current.Keys) && ids != [] && Wired(current) && request.Proper()
      modifies this`prepared
      ensures BuiltFrom(built, rotations, current, build, ids[0], request, faults)
      ensures prepared == old(prepared) + built.Values
      ensures done <= |ids| && (failed <==> done < |ids|)
      ensures forall id :: id in built <==> id in ids[..done]
      ensures forall id | id in ids[..done] :: Prepares(id, ids[0], request, faults)
      ensures failed ==> !Prepares(ids[done], ids[0], request, faults)
      ensures !failed ==> built.Keys == current.Keys && request.next.Active().Some?
      ensures !failed ==>
                (staged, stagedOwner) ==
                if request.secret != "" then (Some(Own(faults)), "") else (request.prestaged, request.owner)
      ensures spoiled.Some? ==>
                failed && request.secret != "" && built == map[]
                && spoiled == Some(Step(Own(faults), Rollback, faults.restore).0)
      ensures failed && request.secret != "" && spoiled.None? && ids[0] !in built ==>
                Unstaged(request.next, ids[0], faults)
    {
      hide BuiltFrom, Step, RuntimeStaging, OpenRotation, Selection.Active;
      built, rotations, failed, spoiled, done := map[], map[], false, None, 0;
      BuiltNothing(current, build, ids[0], request, faults);
      staged, stagedOwner := request.prestaged, request.owner;
      var next := request.next;
      for index := 0 to |ids|
        invariant BuiltFrom(built, rotations, current, build, ids[0], request, faults)
        invariant prepared == old(prepared) + built.Values
        invariant done == index
        invariant forall id :: id in built <==> id in ids[..index]
        invariant forall id | id in ids[..index] :: Prepares(id, ids[0], request, faults)
        invariant (staged, stagedOwner) ==
                  if request.secret != "" && index > 0 then (Some(Own(faults)), "")
                  else (request.prestaged, request.owner)
        invariant index == 0 ==> built == map[]
        invariant index > 0 ==> ids[0] in built && next.Active().Some?
        invariant !failed && spoiled.None?
      {
        var id := ids[index];
        PrefixKeys(ids, current.Keys, index);
        if next.Active().None? || id in faults.loadFails {
          failed := true;
          return;
        }
        var secret := if index == 0 then request.secret else "";
        InheritedCredential(request, id, ids[0], staged, stagedOwner, faults);
        var runtime, rotation :=
          PrepareRuntime(build, current[id], next, secret, RuntimeStaging(next, stagedOwner, staged), faults);
        if runtime.None? {
          failed := true;
          spoiled := if secret != "" then rotation else None;
          return;
        }
        BuiltExtended(built, rotations, current, build, ids[0], request, faults, id, rotation.value);
        built, rotations := built[id := runtime.value], rotations[id := rotation.value];
        if rotation.value.Pending() {
          staged, stagedOwner := rotation, "";
        }
        done := index + 1;
      }
      assert ids[..|ids|] == ids;
    }

    /** closePrepared: closes every prepared Runtime and rolls its rotation back. */
    method ClosePrepared(built: Runtimes, rotations: map<WorkspaceId, View>, restore: Fault)
      returns (after: map<WorkspaceId, View>)
      requires built.Values <= prepared && built.Values !! closed
      modifies this`closed
      ensures closed == old(closed) + built.Values
      ensures Stepped(rotations, after, Rollback, restore)
    {
      CloseAll(built.Values);
      after := StepRotations(rotations, Rollback, restore);
    }

    /** A change that ends before its save closes what it built and reports its own rotation. */
    method GiveUp(
      build: nat, first: WorkspaceId, built: Runtimes, rotations: map<WorkspaceId, View>, current: Runtimes,
      failed: bool, spoiled: Option<View>, request: Request, faults: Faults)
      returns (stage: Stage, own: Option<View>)
      requires built.Values <= prepared && built.Values !! closed && first in current
      requires BuiltFrom(built, rotations, current, build, first, request, faults) && (!failed ==> first in built)
      requires spoiled.Some? ==>
                 failed && request.secret != "" && spoiled == Some(Step(Own(faults), Rollback, faults.restore).0)
      requires failed && request.secret != "" && spoiled.None? && first !in built ==>
                 Unstaged(request.next, first, faults)
      modifies this`closed
      ensures closed == old(closed) + built.Values && stage == if failed then PrepareFailed else BusyAgain
      ensures OwnSettled(stage, own, request.secret, faults)
      ensures StagingReported(stage, own, current.Keys, request, faults)
    {
      hide BuiltFrom, OwnSettled, StagingReported, Unstaged, Step, Stepped;
      assert rotations.Keys == built.Keys by { SameKeys(built, rotations, current, build, first, request, faults); }
      var after := ClosePrepared(built, rotations, faults.restore);
      SteppedKeys(rotations, after, Rollback, faults.restore);
      own := if spoiled.Some? then spoiled else OwnRotation(after, first, request.secret);
      stage := if failed then PrepareFailed else BusyAgain;
      if spoiled.Some? {
        SpoiledOutcome(stage, request.secret, faults);
      } else {
        OwnOutcome(stage, built, current, build, first, failed, request, faults, rotations, rotations, after);
      }
      ReportsOwn(stage, own, failed, spoiled, after, first, current.Keys, request, faults);
    }
  }

  /** What the rebuild loop hands to a Runtime gives it the change's credential. */
  lemma InheritedCredential(
    request: Request, id: WorkspaceId, first: WorkspaceId, staged: Option<View>, owner: string, faults: Faults)
    requires request.Proper()
    requires (staged, owner) ==
             if request.secret != "" && id != first then (Some(Own(faults)), "") else (request.prestaged, request.owner)
    ensures var secret := if id == first then request.secret else "";
            var r := OpenRotation(request.next.Active(), secret, RuntimeStaging(request.next, owner, staged),
                                  id in faults.openFails, id in faults.stageFails, faults);
            && (r.Some? <==> request.next.Active().Some? && Opens(id, first, request, faults))
            && (r.Some? ==>
                  && r.value.Effective() == RuntimeCredential(request, faults)
                  && (if secret != "" then r.value == Own(faults) else r.value.phase == Idle))
  {
  }

  /** Whatever has been rebuilt, at most one rotation of the change is pending. */
  lemma AtMostOnePending(
    built: Runtimes, rotations: map<WorkspaceId, View>, current: Runtimes, build: nat, first: WorkspaceId,
    request: Request, faults: Faults, a: WorkspaceId, b: WorkspaceId)
    requires BuiltFrom(built, rotations, current, build, first, request, faults) && request.Proper()
    requires a in rotations && b in rotations && rotations[a].Pending()
    ensures rotations[b].Pending() ==> a == b
    ensures request.prestaged.None?
  {
  }

  lemma SameKeys(
    built: Runtimes, rotations: map<WorkspaceId, View>, current: Runtimes, build: nat, first: WorkspaceId,
    request: Request, faults: Faults)
    requires BuiltFrom(built, rotations, current, build, first, request, faults)
    ensures rotations.Keys == built.Keys
  {
  }

  lemma SteppedKeys(before: map<WorkspaceId, View>, after: map<WorkspaceId, View>, call: Call, fault: Fault)
    requires Stepped(before, after, call, fault)
    ensures after.Keys == before.Keys
  {
  }

  lemma BuiltNothing(current: Runtimes, build: nat, first: WorkspaceId, request: Request, faults: Faults)
    ensures BuiltFrom(map[], map[], current, build, first, request, faults)
  {
  }

  lemma BuiltExtended(
    built: Runtimes, rotations: map<WorkspaceId, View>, current: Runtimes, build: nat, first: WorkspaceId,
    request: Request, faults: Faults, id: WorkspaceId, rotation: View)
    requires BuiltFrom(built, rotations, current, build, first, request, faults)
    requires id in current && id !in built
    requires if request.secret != "" && id == first then rotation == Own(faults) else rotation.phase == Idle
    ensures var runtime := Rebuilt(current[id], build, request, faults);
            && BuiltFrom(built[id := runtime], rotations[id := rotation], current, build, first, request, faults)
            && built[id := runtime].Values == built.Values + {runtime}
  {
    var runtime := Rebuilt(current[id], build, request, faults);
    var extended := built[id := runtime];
    forall d ensures d in extended.Values <==> d in built.Values + {runtime} {
      if d in built.Values {
        var k :| k in built && built[k] == d;
        assert extended[k] == d;
      }
      if d == runtime { assert extended[id] == d; }
    }
  }

  /** One control call on every rotation. */
  ghost predicate Stepped(before: map<WorkspaceId, View>, after: map<WorkspaceId, View>, call: Call, fault: Fault) {
    && after.Keys == before.Keys
    && forall id | id in before :: after[id] == Step(before[id], call, fault).0
  }

  /** The loop that settles a rotation of every prepared Runtime, in map order. */
  method StepRotations(rotations: map<WorkspaceId, View>, call: Call, fault: Fault)
    returns (after: map<WorkspaceId, View>)
    ensures Stepped(rotations, after, call, fault)
  {
    after := rotations;
    var todo := rotations.Keys;
    while todo != {}
      invariant todo <= rotations.Keys && after.Keys == rotations.Keys
      invariant forall id | id in rotations ::
        after[id] == if id in todo then rotations[id] else Step(rotations[id], call, fault).0
      decreases |todo|
    {
      var id :| id in todo;
      after := after[id := Step(rotations[id], call, fault).0];
      todo := todo - {id};
    }
  }

  lemma IdleActivates(rotations: map<WorkspaceId, View>, first: WorkspaceId, fault: Fault)
    requires forall id | id in rotations && id != first :: rotations[id].phase == Idle
    ensures forall id | id in rotations && id != first ::
              Step(rotations[id], Call.Activate, fault) == (rotations[id], true)
  {
  }

  /** Activation stops at the first failure. Only `first` can hold more than an idle
      rotation, so the map order in which the loop visits them does not matter. */
  method ActivateRotations(rotations: map<WorkspaceId, View>, first: WorkspaceId, fault: Fault)
    returns (after: map<WorkspaceId, View>, failed: bool)
    requires forall id | id in rotations && id != first :: rotations[id].phase == Idle
    ensures Stepped(rotations, after, Call.Activate, fault)
    ensures failed <==> first in rotations && !Step(rotations[first], Call.Activate, fault).1
  {
    IdleActivates(rotations, first, fault);
    hide Step;
    after, failed := rotations, false;
    var todo := rotations.Keys;
    while todo != {} && !failed
      invariant todo <= rotations.Keys && after.Keys == rotations.Keys
      invariant forall id | id in rotations ::
        after[id] == if id in todo then rotations[id] else Step(rotations[id], Call.Activate, fault).0
      invariant failed <==>
                first in rotations && first !in todo && !Step(rotations[first], Call.Activate, fault).1
      decreases |todo|
    {
      var id :| id in todo;
      var (activated, ok) := Step(rotations[id], Call.Activate, fault);
      after := after[id := activated];
      todo, failed := todo - {id}, !ok;
    }
  }

  /** Activating a caller's rotation, or leaving it alone after a failure, is all a change does. */
  lemma PrestagedTried(prestaged: Option<View>, faults: Faults)
    ensures forall stage | stage != Done :: PrestagedKept(stage, prestaged, prestaged, faults)
    ensures prestaged.None? ==> forall stage :: PrestagedKept(stage, None, None, faults)
    ensures prestaged.Some? ==>
              var (activated, ok) := Step(prestaged.value, Call.Activate, faults.prestagedActivate);
              forall stage | ok || stage != Done :: PrestagedKept(stage, prestaged, Some(activated), faults)
  {
  }

  method ActivatePrestaged(prestaged: Option<View>, faults: Faults) returns (after: Option<View>, ok: bool)
    ensures ok <==> PrestagedActivates(prestaged, faults)
    ensures prestaged.None? ==> after.None?
    ensures prestaged.Some? ==>
              after.Some? && (after.value, ok) == Step(prestaged.value, Call.Activate, faults.prestagedActivate)
  {
    if prestaged.None? { return None, true; }
    var (activated, worked) := Step(prestaged.value, Call.Activate, faults.prestagedActivate);
    return Some(activated), worked;
  }

  /** The new Runtimes `built` are all that was prepared since, and are closed with nothing else. */
  ghost predicate Abandoned(
    built: Runtimes, prepared0: set<Dependencies>, closed0: set<Dependencies>, prepared: set<Dependencies>,
    closed: set<Dependencies>)
  {
    prepared == prepared0 + built.Values && prepared0 !! built.Values && closed == closed0 + built.Values
  }

  lemma NothingBuilt(prepared: set<Dependencies>, closed: set<Dependencies>)
    ensures Abandoned(map[], prepared, closed, prepared, closed)
  {
  }

  /** A Runtime rebuilt by the change serves each old workspace, they are all it prepared, and
      exactly the Runtimes they replace are closed. */
  ghost predicate Replaced(
    active0: Runtimes, active: Runtimes, build: nat, request: Request, faults: Faults,
    prepared0: set<Dependencies>, closed0: set<Dependencies>, prepared: set<Dependencies>, closed: set<Dependencies>)
  {
    && active.Keys == active0.Keys
    && (forall id | id in active :: active[id] == Rebuilt(active0[id], build, request, faults))
    && prepared == prepared0 + active.Values && prepared0 !! active.Values
    && closed == closed0 + active0.Values
  }

  // ------------------------------------------------------ what a change leaves, in full

  /** The selection and reference a change has committed. A submitted key is the credential of the
      default connection and of every Runtime. A caller's key goes to its owner, and to
      Runtimes only when the default connection is the owner; without Runtimes it is not written. */
  predicate Written(selection: Selection, reference: Reference, attached: bool, request: Request, faults: Faults)
    requires request.Proper() && request.next.Active().Some?
  {
    var next := request.next;
    if request.secret != "" then
      && reference == faults.issued
      && selection == next.(connections := next.connections[
           next.Active().value := next.connections[next.Active().value].(credential := Some(faults.issued))])
    else if !attached then selection == next && reference == faults.recovered
    else
      match request.prestaged
      case None => selection == next && reference == request.reference
      case Some(v) =>
        if request.owner == "" || next.connections[next.Active().value].id == request.owner then
          && reference == v.reference
          && selection == next.(connections := next.connections[
               next.Active().value := next.connections[next.Active().value].(credential := Some(v.reference))])
        else
          && reference == request.reference
          && (if next.Find(request.owner).None? then selection == next
              else selection == next.(connections := next.connections[
                     next.Find(request.owner).value :=
                       next.connections[next.Find(request.owner).value].(credential := Some(v.reference))]))
  }

  lemma WrittenMeans(attached: bool, request: Request, faults: Faults)
    requires request.Proper() && request.next.Active().Some?
    ensures var (selection, reference) := Bound(attached, request, faults);
            Written(selection, reference, attached, request, faults)
  {
  }

  /** The Runtimes a change leaves live: new ones of the same workspaces and roots, all with the
      key submitted, or that of a caller's rotation the default connection owns, or else the
      one recovered for the default connection. */
  ghost predicate Rekeyed(active0: Runtimes, active: Runtimes, build: nat, request: Request, faults: Faults) {
    && active.Keys == active0.Keys
    && forall id | id in active ::
         && active[id].id == active0[id].id && active[id].root == active0[id].root && active[id].runtime == build
         && active[id].valid
         && (request.secret != "" ==> active[id].credential == faults.issued)
         && (request.secret == "" && request.prestaged.None? ==> active[id].credential == faults.recovered)
         && (request.secret == "" && request.prestaged.Some? && request.next.Active().Some? ==>
               active[id].credential ==
               if request.owner == "" || request.next.connections[request.next.Active().value].id == request.owner
               then request.prestaged.value.reference else faults.recovered)
  }

  lemma ReplacedMeans(
    active0: Runtimes, active: Runtimes, build: nat, request: Request, faults: Faults,
    prepared0: set<Dependencies>, closed0: set<Dependencies>, prepared: set<Dependencies>, closed: set<Dependencies>)
    requires request.Proper()
    ensures Replaced(active0, active, build, request, faults, prepared0, closed0, prepared, closed) && Routable(active)
            ==> Rekeyed(active0, active, build, request, faults)
  {
  }

  /** What happened to the selection file: nothing before the save, and after a failure later on
      a compensating save. */
  predicate FileAfter(
    stage: Stage, before: Option<Selection>, after: Option<Selection>, previous: Selection, faults: Faults)
  {
    && (stage in {Refused, Busy, PrestagedFailed, PrepareFailed, BusyAgain} ==> after == before)
    && (stage == SaveFailed ==> faults.save != Saved && (faults.save == NotSaved ==> after == before))
    && (stage in {ActivateFailed, RouteFailed} ==>
          && faults.save == Saved
          && (faults.compensate != NotSaved ==> after == if previous.connections == [] then None else Some(previous)))
    && (stage == Done ==> faults.save == Saved && after.Some?)
  }

  lemma FileMeans(stage: Stage, before: Option<Selection>, previous: Selection, bound: Selection, faults: Faults)
    ensures (stage in {ActivateFailed, RouteFailed, Done} ==> faults.save == Saved)
            && (stage == SaveFailed ==> faults.save != Saved) ==>
              FileAfter(stage, before, DiskAfter(stage, before, previous, bound, faults), previous, faults)
    ensures stage == Done ==> DiskAfter(stage, before, previous, bound, faults) == Some(bound)
  {
  }

  /** How far the calls before and at the save got. */
  lemma StageMeans(keys: set<WorkspaceId>, request: Request, faults: Faults)
    ensures var stage := StageOf(keys, request, faults);
            && (stage in {ActivateFailed, RouteFailed, Done} ==> faults.save == Saved)
            && (stage == SaveFailed ==> faults.save != Saved)
            && (stage == Done ==> request.next.Active().Some?)
  {
  }

  lemma OutcomeMeans(
    active0: Runtimes, active: Runtimes, build: nat, request: Request, faults: Faults,
    prepared0: set<Dependencies>, closed0: set<Dependencies>, prepared: set<Dependencies>, closed: set<Dependencies>,
    before: Option<Selection>, previous: Selection)
    requires request.Proper()
    ensures var stage := StageOf(active0.Keys, request, faults);
            var (selection, reference) := Bound(active0.Keys != {}, request, faults);
            var after := DiskAfter(stage, before, previous, selection, faults);
            && FileAfter(stage, before, after, previous, faults)
            && (stage == Done ==>
                  && request.next.Active().Some? && Written(selection, reference, active0.Keys != {}, request, faults)
                  && after == Some(selection)
                  && (Routable(active)
                      && Replaced(active0, active, build, request, faults, prepared0, closed0, prepared, closed)
                      ==> Rekeyed(active0, active, build, request, faults)))
  {
    hide StageOf, Bound, DiskAfter, FileAfter, Written, Rekeyed, Replaced;
    StageMeans(active0.Keys, request, faults);
    var stage, bound := StageOf(active0.Keys, request, faults), Bound(active0.Keys != {}, request, faults).0;
    FileMeans(stage, before, previous, bound, faults);
    if stage == Done {
      WrittenMeans(active0.Keys != {}, request, faults);
      ReplacedMeans(active0, active, build, request, faults, prepared0, closed0, prepared, closed);
    }
  }

  /** A change's Runtimes are new; closing them, or what they replace, keeps conservation. */
  lemma BuiltIsNew(
    built: Runtimes, rotations: map<WorkspaceId, View>, current: Runtimes, build: nat, first: WorkspaceId,
    request: Request, faults: Faults, prepared: set<Dependencies>, closed: set<Dependencies>)
    requires BuiltFrom(built, rotations, current, build, first, request, faults) && Routable(current)
    requires Conserved(current.Values, build, prepared, closed)
    ensures Wired(built) && rotations.Keys == built.Keys
    ensures forall id | id in rotations && id != first :: rotations[id].phase == Idle
    ensures var all := prepared + built.Values;
            && built.Values <= all && built.Values !! closed && current.Values <= all && current.Values !! closed
            && Conserved(current.Values, build + 1, all, closed + built.Values)
            && Abandoned(built, prepared, closed, all, closed + built.Values)
            && Conserved(built.Values, build + 1, all, closed + current.Values)
            && (built.Keys == current.Keys ==>
                  Replaced(current, built, build, request, faults, prepared, closed, all, closed + current.Values))
  {
  }

  /** The rebuild loop stops after `done` workspaces: they are the ones a change rebuilds, and
      all of them exactly when every workspace prepares. */
  lemma PrefixPrepares(
    ids: seq<WorkspaceId>, keys: set<WorkspaceId>, done: nat, request: Request, faults: Faults)
    requires SortedIds(ids, keys) && keys != {} && ids != [] && ids[0] == First(keys) && done <= |ids|
    requires forall id | id in ids[..done] :: Prepares(id, ids[0], request, faults)
    requires done < |ids| ==> !Prepares(ids[done], ids[0], request, faults)
    ensures AllPrepare(keys, request, faults) <==> done == |ids|
    ensures !faults.busy ==> forall id :: id in BuiltIds(keys, request, faults) <==> id in ids[..done]
  {
    hide Prepares, SortedIds;
    forall id ensures id in ids[..done] <==>
                      id in keys && forall k | k in keys && k <= id :: Prepares(k, First(keys), request, faults)
    {
      SortedMembers(ids, keys, id);
      forall k | k in keys && id in ids[..done] && k <= id ensures k in ids[..done] {
        SortedPrefix(ids, keys, done, k, id);
      }
      if id in keys && id !in ids[..done] {
        SortedPrefix(ids, keys, done, id, id);
      }
    }
    if done < |ids| {
      SortedMembers(ids, keys, ids[done]);
    } else {
      assert ids[..done] == ids;
      forall id | id in keys ensures Prepares(id, First(keys), request, faults) {
        SortedMembers(ids, keys, id);
      }
    }
  }

  lemma BuiltIsWhole(
    ids: seq<WorkspaceId>, done: nat, built: Runtimes, rotations: map<WorkspaceId, View>, current: Runtimes,
    build: nat, request: Request, faults: Faults)
    requires SortedIds(ids, current.Keys) && current.Keys != {} && ids != [] && ids[0] == First(current.Keys)
    requires done <= |ids| && !faults.busy
    requires forall id | id in ids[..done] :: Prepares(id, ids[0], request, faults)
    requires done < |ids| ==> !Prepares(ids[done], ids[0], request, faults)
    requires BuiltFrom(built, rotations, current, build, ids[0], request, faults)
    requires forall id :: id in built <==> id in ids[..done]
    ensures AllPrepare(current.Keys, request, faults) <==> done == |ids|
    ensures built == BuiltBy(current, build, request, faults)
  {
    hide BuiltIds, Prepares, AllPrepare, SortedIds, Rebuilt;
    PrefixPrepares(ids, current.Keys, done, request, faults);
    assert built.Keys == BuiltIds(current.Keys, request, faults);
  }

  /** What activating and routing the rebuilt Runtimes depends on. */
  lemma BuiltInstalls(
    built: Runtimes, rotations: map<WorkspaceId, View>, current: Runtimes, build: nat, first: WorkspaceId,
    request: Request, faults: Faults)
    requires BuiltFrom(built, rotations, current, build, first, request, faults)
    requires built.Keys == current.Keys && first in current && Routable(current)
    ensures Routable(built) <==> current.Keys !! faults.unroutable
    ensures first in rotations
    ensures Step(rotations[first], Call.Activate, faults.activate).1 <==> OwnActivates(request, faults)
  {
    if Routable(built) {
      forall id | id in current ensures id !in faults.unroutable {
        assert built[id].valid;
      }
    }
  }

  /** How the rotation of a change that ended at `stage` stands after its last control call. */
  lemma OwnOutcome(
    stage: Stage, built: Runtimes, current: Runtimes, build: nat, first: WorkspaceId, failed: bool, request: Request,
    faults: Faults, rotations: map<WorkspaceId, View>, tried: map<WorkspaceId, View>, after: map<WorkspaceId, View>)
    requires BuiltFrom(built, rotations, current, build, first, request, faults)
    requires if failed then stage == PrepareFailed else first in rotations
    requires tried == rotations || Stepped(rotations, tried, Call.Activate, faults.activate)
    requires stage == Done ==>
      && !failed && Stepped(rotations, tried, Call.Activate, faults.activate)
      && Step(rotations[first], Call.Activate, faults.activate).1
    requires if stage == Done then Stepped(tried, after, Commit, faults.commit)
             else Stepped(tried, after, Rollback, faults.restore)
    ensures OwnSettled(stage, OwnRotation(after, first, request.secret), request.secret, faults)
  {
    hide Step, Own, Rebuilt;
    if request.secret != "" && first in rotations {
      hide OwnSettled;
      OwnViewOutcome(stage, tried[first], request.secret, faults);
    }
  }

  lemma OwnViewOutcome(stage: Stage, tried: View, secret: string, faults: Faults)
    requires secret != ""
    requires tried == Own(faults) || tried == Step(Own(faults), Call.Activate, faults.activate).0
    requires stage == Done ==> Step(Own(faults), Call.Activate, faults.activate) == (tried, true)
    ensures OwnSettled(
              stage,
              Some(if stage == Done then Step(tried, Commit, faults.commit).0
                   else Step(tried, Rollback, faults.restore).0),
              secret, faults)
  {
  }

  lemma PreparedAlone(request: Request, faults: Faults)
    ensures PreparesAlone(request, faults) ==>
              request.next.Active().Some? && SUPERVISOR !in faults.loadFails
  {
  }

  /** What the setup path without Runtimes opens, and how its key ends. */
  lemma AloneOpened(request: Request, faults: Faults)
    requires request.next.Active().Some?
    ensures var r := OpenRotation(request.next.Active(), request.secret, None, SUPERVISOR in faults.openFails,
                                  SUPERVISOR in faults.stageFails, faults);
            && (r.Some? && SUPERVISOR !in faults.loadFails <==> PreparesAlone(request, faults))
            && (r.None? ==> Unstaged(request.next, SUPERVISOR, faults))
            && (r.Some? ==>
                  && (BindTo(r.value, request.next, ""), r.value.Effective()) == Bound(false, request, faults)
                  && (Step(r.value, Call.Activate, faults.activate).1 <==> OwnActivates(request, faults))
                  && (request.secret != "" ==> r.value == Own(faults)))
            && Bound(false, request, faults).0.Active().Some?
  {
  }

  lemma AloneOutcome(stage: Stage, start: View, tried: View, request: Request, faults: Faults)
    requires request.secret != "" ==> start == Own(faults)
    requires tried == start || tried == Step(start, Call.Activate, faults.activate).0
    requires stage == Done ==> Step(start, Call.Activate, faults.activate) == (tried, true)
    ensures var after := if stage == Done then Step(tried, Commit, faults.commit).0
                         else Step(tried, Rollback, faults.restore).0;
            OwnSettled(stage, if request.secret == "" then None else Some(after), request.secret, faults)
  {
    hide Step;
    if request.secret != "" {
      hide OwnSettled;
      OwnViewOutcome(stage, tried, request.secret, faults);
    }
  }

  lemma ReportsStaging(stage: Stage, id: WorkspaceId, ids: set<WorkspaceId>, request: Request, faults: Faults)
    requires id in ids
    ensures Unstaged(request.next, id, faults) ==> StagingReported(stage, None, ids, request, faults)
  {
  }

  lemma ReportsElsewhere(
    stage: Stage, ids: set<WorkspaceId>, request: Request, faults: Faults)
    requires stage != PrepareFailed
    ensures forall own :: StagingReported(stage, own, ids, request, faults)
  {
  }

  lemma ReportsOwn(
    stage: Stage, own: Option<View>, failed: bool, spoiled: Option<View>, after: map<WorkspaceId, View>,
    first: WorkspaceId, ids: set<WorkspaceId>, request: Request, faults: Faults)
    requires first in ids
    requires own == if spoiled.Some? then spoiled else OwnRotation(after, first, request.secret)
    requires stage == PrepareFailed ==>
      failed && (request.secret != "" && spoiled.None? && first !in after ==> Unstaged(request.next, first, faults))
    ensures StagingReported(stage, own, ids, request, faults)
  {
  }

  /** A spoiled first build leaves the change's rotation rolled back. */
  lemma SpoiledOutcome(stage: Stage, secret: string, faults: Faults)
    requires secret != "" && stage != Done
    ensures OwnSettled(stage, Some(Step(Own(faults), Rollback, faults.restore).0), secret, faults)
  {
  }

  /** A change that ended before any control call leaves keys and file alone. */
  lemma NothingDone(
    stage: Stage, request: Request, disk: Option<Selection>, previous: Selection, bound: Selection, faults: Faults)
    requires stage in {Refused, Busy, PrestagedFailed, PrepareFailed, BusyAgain}
    ensures stage != BusyAgain ==> OwnSettled(stage, None, request.secret, faults)
    ensures PrestagedKept(stage, request.prestaged, request.prestaged, faults)
    ensures DiskAfter(stage, disk, previous, bound, faults) == disk
  {
  }

  lemma BoundFor(request: Request, faults: Faults, staged: Option<View>, owner: string)
    requires request.next.Active().Some?
    requires (staged, owner) ==
             if request.secret != "" then (Some(Own(faults)), "") else (request.prestaged, request.owner)
    ensures BindStaged(request.next, request.reference, staged, owner) == Bound(true, request, faults)
    ensures Bound(true, request, faults).0.Active().Some?
  {
  }

  /** The rotation a change staged for the first workspace. */
  function OwnRotation(rotations: map<WorkspaceId, View>, first: WorkspaceId, secret: string): Option<View> {
    if secret != "" && first in rotations then Some(rotations[first]) else None
  }

  // ---------------------------------------------------------------- the manager

  class Manager {
    const server: Server
    const ledger: Ledger
    /** Bind has supplied the Server and the state store. */
    var bound: bool
    var selection: Selection
    var reference: Reference
    var active: Runtimes
    var loading: set<WorkspaceId>
    var reconfiguring: bool
    var closing: bool
    /** The selection file. */
    var disk: Option<Selection>
    /** The number of changes begun; each numbers the Runtimes it builds. */
    var changes: nat

    ghost predicate Valid()
      reads this`selection, this`active, this`changes, this`closing
      reads server`workspaces, server`dependencies, ledger
    {
      && server.Valid() && Routable(active)
      && Conserved(active.Values, changes, ledger.prepared, ledger.closed)
      && (active.Keys != {} ==> selection.Active().Some?)
      && (!closing ==> server.workspaces == active)
    }

    constructor (server: Server, ledger: Ledger)
      requires server.Valid() && server.workspaces == map[] && ledger.prepared == ledger.closed == {}
      ensures Valid() && this.server == server && this.ledger == ledger && selection == EMPTY && active == map[]
      ensures !reconfiguring && !closing && loading == {} && bound && disk == None
    {
      this.server, this.ledger := server, ledger;
      bound, selection, reference, active := true, EMPTY, Reference(0), map[];
      loading, reconfiguring, closing, disk, changes := {}, false, false, None, 0;
    }

    /** Connection setup without any Runtime: save, activate, publish, with compensation. */
    method ConfigureWithoutRuntime(request: Request, faults: Faults) returns (stage: Stage, own: Option<View>)
      modifies this`selection, this`reference, this`disk
      ensures stage == StageAlone(request, faults)
      ensures var bound := Bound(false, request, faults);
              && disk == DiskAfter(stage, old(disk), old(selection), bound.0, faults)
              && (selection, reference) ==
                 if stage == Done then bound else (old(selection), old(reference))
      ensures OwnSettled(stage, own, request.secret, faults)
      ensures StagingReported(stage, own, {SUPERVISOR}, request, faults)
      ensures stage == Done ==> selection.Active().Some?
    {
      hide Step, OwnSettled, OpenRotation, BindTo, Bound, PreparesAlone, OwnActivates, Own, Selection.Active;
      own := None;
      var next, previous := request.next, selection;
      NothingDone(PrepareFailed, request, disk, previous, Bound(false, request, faults).0, faults);
      PreparedAlone(request, faults);
      ReportsStaging(PrepareFailed, SUPERVISOR, {SUPERVISOR}, request, faults);
      if next.Active().None? || SUPERVISOR in faults.loadFails { return PrepareFailed, None; }
      AloneOpened(request, faults);
      var staging := OpenRotation(next.Active(), request.secret, None, SUPERVISOR in faults.openFails,
                                  SUPERVISOR in faults.stageFails, faults);
      if staging.None? { return PrepareFailed, None; }
      var rotation := staging.value;
      var persisted := false;
      var effective, bound := rotation.Effective(), BindTo(rotation, next, "");
      stage := Done;
      if faults.save.Wrote() { disk := Some(bound); }
      if faults.save == Saved {
        persisted := true;
        if faults.persistRoots {
          stage := ActivateFailed;
        } else {
          var (activated, ok) := Step(rotation, Call.Activate, faults.activate);
          rotation := activated;
          if !ok { stage := ActivateFailed; }
        }
      } else {
        stage := SaveFailed;
      }
      ghost var tried := rotation;
      if stage == Done {
        selection, reference := bound, effective;
        rotation := Step(rotation, Call.Commit, faults.commit).0;
      } else {
        if persisted && faults.compensate.Wrote() { disk := OnDisk(previous); }
        rotation := Step(rotation, Call.Rollback, faults.restore).0;
      }
      AloneOutcome(stage, staging.value, tried, request, faults);
      own := if request.secret == "" then None else Some(rotation);
    }

    /** Saves the bound selection, activates the staged keys and swaps the routing table, each
        failure compensating the steps before it. */
    method TryInstall(
      ids: seq<WorkspaceId>, built: Runtimes, rotations: map<WorkspaceId, View>, bound: Selection,
      prestaged: Option<View>, faults: Faults)
      returns (stage: Stage, after: map<WorkspaceId, View>, pre: Option<View>)
      requires server.Valid() && server.workspaces == active && selection.Active().Some?
      requires SortedIds(ids, active.Keys) && ids != [] && built.Keys == active.Keys && Wired(built)
      requires forall id | id in rotations && id != ids[0] :: rotations[id].phase == Idle
      requires prestaged.Some? ==> prestaged.value.phase in {Idle, Staged}
      modifies this`disk, server`workspaces, server`dependencies
      ensures server.Valid()
      ensures stage == InstallStage(
                         prestaged, ids[0] in rotations ==> Step(rotations[ids[0]], Call.Activate, faults.activate).1,
                         Routable(built), faults)
      ensures after == rotations || Stepped(rotations, after, Call.Activate, faults.activate)
      ensures if stage == Done
              then server.workspaces == built && Routable(built)
                   && Stepped(rotations, after, Call.Activate, faults.activate)
                   && (ids[0] in rotations ==> Step(rotations[ids[0]], Call.Activate, faults.activate).1)
              else server.workspaces == old(server.workspaces) && server.dependencies == old(server.dependencies)
      ensures disk == DiskAfter(stage, old(disk), selection, bound, faults)
      ensures PrestagedKept(stage, prestaged, pre, faults)
    {
      hide PrestagedActivates, PrestagedKept, Step, Stepped, Routable, SortedIds, Selection.Active;
      PrestagedTried(prestaged, faults);
      after, pre := rotations, prestaged;
      if faults.save.Wrote() { disk := Some(bound); }
      if faults.save != Saved { return SaveFailed, after, pre; }
      stage := Done;
      var ok;
      pre, ok := ActivatePrestaged(prestaged, faults);
      if !ok {
        stage := ActivateFailed;
      } else {
        var failed;
        after, failed := ActivateRotations(rotations, ids[0], faults.activate);
        if failed {
          stage := ActivateFailed;
        } else {
          failed := server.SwapAll(ids, active, built);
          if failed { stage := RouteFailed; }
        }
      }
      if stage != Done && faults.compensate.Wrote() { disk := Some(selection); }
    }

    /** The commit point: the manager takes over the routed Runtimes, the keys are committed
        and the replaced Runtimes are closed. */
    method Switch(
      built: Runtimes, rotations: map<WorkspaceId, View>, bound: Selection, effective: Reference, faults: Faults)
      returns (after: map<WorkspaceId, View>)
      requires active.Values <= ledger.prepared && active.Values !! ledger.closed
      modifies this`selection, this`reference, this`active, ledger`closed
      ensures selection == bound && reference == effective && active == built
      ensures ledger.closed == old(ledger.closed) + old(active).Values
      ensures Stepped(rotations, after, Commit, faults.commit)
    {
      var replaced := active;
      selection, reference, active := bound, effective, built;
      after := StepRotations(rotations, Commit, faults.commit);
      ledger.CloseAll(replaced.Values);
    }

    /** The change over live Runtimes. */
    method ReplaceAttached(request: Request, faults: Faults)
      returns (stage: Stage, own: Option<View>, pre: Option<View>)
      requires Valid() && !closing && active.Keys != {} && !faults.busy && request.Proper()
      modifies this`selection, this`reference, this`active, this`disk, this`changes, ledger
      modifies server`workspaces, server`dependencies
      ensures Valid()
      ensures stage == if !AllPrepare(old(active).Keys, request, faults) then PrepareFailed
                       else if faults.busyAgain then BusyAgain
                       else StageInstalled(old(active).Keys, request, faults)
      ensures stage != Done ==>
                && selection == old(selection) && reference == old(reference) && active == old(active)
                && Abandoned(BuiltBy(old(active), old(changes), request, faults),
                             old(ledger.prepared), old(ledger.closed), ledger.prepared, ledger.closed)
                && server.workspaces == old(server.workspaces) && server.dependencies == old(server.dependencies)
      ensures stage == Done ==>
                && (selection, reference) == Bound(true, request, faults)
                && Replaced(old(active), active, old(changes), request, faults,
                            old(ledger.prepared), old(ledger.closed), ledger.prepared, ledger.closed)
      ensures disk == DiskAfter(stage, old(disk), old(selection), Bound(true, request, faults).0, faults)
      ensures OwnSettled(stage, own, request.secret, faults)
      ensures StagingReported(stage, own, old(active).Keys, request, faults)
      ensures PrestagedKept(stage, request.prestaged, pre, faults)
    {
      hide StagingReported, Unstaged, Stepped, Rebuilt, Bound, BindStaged, Selection.Active;
      hide Conserved, Abandoned, Replaced, OwnSettled, PrestagedKept, DiskAfter, OwnRotation;
      hide BuiltBy, BuiltIds, AllPrepare, Prepares;
      pre := request.prestaged;
      var ids := SortIds(active.Keys);
      FirstOf(ids, active.Keys);
      assert ids[0] in active.Keys by { assert ids[0] in ids; }
      var build := changes;
      changes := changes + 1;
      var built, rotations, failed, spoiled, staged, stagedOwner;
      ghost var done;
      built, rotations, failed, spoiled, staged, stagedOwner, done :=
        ledger.PrepareAll(build, ids, active, request, faults);
      BuiltIsWhole(ids, done, built, rotations, active, build, request, faults);
      BuiltIsNew(built, rotations, active, build, ids[0], request, faults, old(ledger.prepared), ledger.closed);
      if failed || faults.busyAgain {
        stage, own := ledger.GiveUp(build, ids[0], built, rotations, active, failed, spoiled, request, faults);
        NothingDone(stage, request, disk, selection, Bound(true, request, faults).0, faults);
        return;
      }
      BoundFor(request, faults, staged, stagedOwner);
      var (bound, effective) := BindStaged(request.next, request.reference, staged, stagedOwner);
      stage, own, pre := Install(ids, built, rotations, bound, effective, request, faults, build, old(ledger.prepared));
    }

    /** Installs the rebuilt Runtimes, or abandons them. */
    method Install(
      ids: seq<WorkspaceId>, built: Runtimes, rotations: map<WorkspaceId, View>, bound: Selection,
      effective: Reference, request: Request, faults: Faults, ghost build: nat, ghost earlier: set<Dependencies>)
      returns (stage: Stage, own: Option<View>, pre: Option<View>)
      requires server.Valid() && server.workspaces == active && Routable(active) && selection.Active().Some?
      requires SortedIds(ids, active.Keys) && ids != [] && ids[0] in active && built.Keys == active.Keys
      requires BuiltFrom(built, rotations, active, build, ids[0], request, faults) && changes == build + 1
      requires Conserved(active.Values, build, earlier, ledger.closed) && ledger.prepared == earlier + built.Values
      requires bound.Active().Some? && request.Proper()
      modifies this`selection, this`reference, this`active, this`disk, ledger`closed
      modifies server`workspaces, server`dependencies
      ensures Valid() && stage == StageInstalled(old(active).Keys, request, faults)
      ensures stage != Done ==>
                && selection == old(selection) && reference == old(reference) && active == old(active)
                && Abandoned(built, earlier, old(ledger.closed), ledger.prepared, ledger.closed)
                && server.workspaces == old(server.workspaces) && server.dependencies == old(server.dependencies)
      ensures stage == Done ==>
                && selection == bound && reference == effective
                && Replaced(old(active), active, build, request, faults,
                            earlier, old(ledger.closed), ledger.prepared, ledger.closed)
      ensures disk == DiskAfter(stage, old(disk), old(selection), bound, faults)
      ensures OwnSettled(stage, own, request.secret, faults)
      ensures StagingReported(stage, own, old(active).Keys, request, faults)
      ensures PrestagedKept(stage, request.prestaged, pre, faults)
    {
      hide Unstaged;
      hide Conserved, Abandoned, Replaced, OwnSettled, PrestagedKept, DiskAfter, Stepped, Rebuilt;
      hide BuiltFrom, Routable, Wired, SortedIds, Step, OwnRotation, Selection.Active;
      hide InstallStage, OwnActivates, Server.Valid, StagingReported;
      BuiltIsNew(built, rotations, active, build, ids[0], request, faults, earlier, ledger.closed);
      BuiltInstalls(built, rotations, active, build, ids[0], request, faults);
      var tried, after;
      stage, tried, pre := TryInstall(ids, built, rotations, bound, request.prestaged, faults);
      ReportsElsewhere(stage, active.Keys, request, faults);
      if stage != Done {
        after := ledger.ClosePrepared(built, tried, faults.restore);
        OwnOutcome(stage, built, active, build, ids[0], false, request, faults, rotations, tried, after);
        return stage, OwnRotation(after, ids[0], request.secret), pre;
      }
      after := Switch(built, tried, bound, effective, faults);
      OwnOutcome(stage, built, old(active), build, ids[0], false, request, faults, rotations, tried, after);
      own := OwnRotation(after, ids[0], request.secret);
    }

    /** The body of the change, while the reconfiguring flags are held. */
    method ReplaceBegun(request: Request, faults: Faults)
      returns (stage: Stage, own: Option<View>, pre: Option<View>)
      requires Valid() && !closing && request.Proper()
      modifies this`selection, this`reference, this`active, this`disk, this`changes, ledger
      modifies server`workspaces, server`dependencies
      ensures Valid() && stage == StageOf(old(active).Keys, request, faults)
      ensures stage != Done ==>
                && selection == old(selection) && reference == old(reference) && active == old(active)
                && Abandoned(BuiltBy(old(active), old(changes), request, faults),
                             old(ledger.prepared), old(ledger.closed), ledger.prepared, ledger.closed)
                && server.workspaces == old(server.workspaces) && server.dependencies == old(server.dependencies)
      ensures stage == Done ==>
                && (selection, reference) == Bound(old(active).Keys != {}, request, faults)
                && selection.Active().Some?
                && Replaced(old(active), active, old(changes), request, faults,
                            old(ledger.prepared), old(ledger.closed), ledger.prepared, ledger.closed)
      ensures disk == DiskAfter(stage, old(disk), old(selection), Bound(old(active).Keys != {}, request, faults).0,
                                faults)
      ensures OwnSettled(stage, own, request.secret, faults)
      ensures StagingReported(stage, own, old(active).Keys + {SUPERVISOR}, request, faults)
      ensures PrestagedKept(stage, request.prestaged, pre, faults)
    {
      own, pre := None, request.prestaged;
      if active.Keys != {} && faults.busy { return Busy, None, pre; }
      if active.Keys == {} {
        assert active == map[];
        var ok;
        pre, ok := ActivatePrestaged(request.prestaged, faults);
        if !ok { return PrestagedFailed, None, pre; }
        stage, own := ConfigureWithoutRuntime(request, faults);
        return;
      }
      stage, own, pre := ReplaceAttached(request, faults);
    }

    /** Replaces the selection under every live Runtime, or changes nothing: on any failure the
        selection, reference, Runtimes and routing table are the previous ones, every Runtime
        built meanwhile is closed exactly once, and the file follows `DiskAfter`. */
    method ReplaceSelectionStaged(request: Request, faults: Faults)
      returns (stage: Stage, own: Option<View>, pre: Option<View>)
      requires Valid() && request.Proper()
      modifies this, server, ledger
      ensures Valid()
      ensures stage == Refused <==>
                old(closing || reconfiguring || loading != {} || !bound || server.reconfiguring)
      ensures stage != Refused ==> stage == StageOf(old(active).Keys, request, faults)
      ensures closing == old(closing) && loading == old(loading) && bound == old(bound)
      ensures if stage == Refused
              then reconfiguring == old(reconfiguring) && server.reconfiguring == old(server.reconfiguring)
                   && ledger.prepared == old(ledger.prepared)
              else !reconfiguring && !server.reconfiguring
      ensures stage != Done ==>
                && selection == old(selection) && reference == old(reference) && active == old(active)
                && Abandoned(if stage == Refused then map[] else BuiltBy(old(active), old(changes), request, faults),
                             old(ledger.prepared), old(ledger.closed), ledger.prepared, ledger.closed)
                && server.workspaces == old(server.workspaces) && server.dependencies == old(server.dependencies)
      ensures stage == Done ==>
                && (selection, reference) == Bound(old(active).Keys != {}, request, faults)
                && selection.Active().Some?
                && server.workspaces == active
                && request.next.Active().Some? && Written(selection, reference, old(active).Keys != {}, request, faults)
                && Rekeyed(old(active), active, old(changes), request, faults)
                && disk == Some(selection)
                && Replaced(old(active), active, old(changes), request, faults,
                            old(ledger.prepared), old(ledger.closed), ledger.prepared, ledger.closed)
      ensures disk == DiskAfter(stage, old(disk), old(selection), Bound(old(active).Keys != {}, request, faults).0,
                                faults)
      ensures OwnSettled(stage, own, request.secret, faults)
      ensures StagingReported(stage, own, old(active).Keys + {SUPERVISOR}, request, faults)
      ensures PrestagedKept(stage, request.prestaged, pre, faults)
      ensures FileAfter(stage, old(disk), disk, old(selection), faults)
    {
      hide Unstaged, Written, Rekeyed, FileAfter;
      hide Conserved, Replaced, OwnSettled, PrestagedKept, DiskAfter, Bound, Routable, StageOf;
      hide Abandoned, BuiltBy, BuiltIds;
      stage, own, pre := Refused, None, request.prestaged;
      NothingDone(stage, request, disk, selection, Bound(active.Keys != {}, request, faults).0, faults);
      NothingBuilt(ledger.prepared, ledger.closed);
      FileMeans(stage, disk, selection, Bound(active.Keys != {}, request, faults).0, faults);
      if closing || reconfiguring || loading != {} || !bound { return; }
      var began := server.BeginRuntimeReconfiguration();
      if !began { return; }
      reconfiguring := true;
      stage, own, pre := ReplaceBegun(request, faults);
      OutcomeMeans(old(active), active, old(changes), request, faults, old(ledger.prepared), old(ledger.closed),
                   ledger.prepared, ledger.closed, old(disk), old(selection));
      reconfiguring := false;
      server.EndRuntimeReconfiguration();
    }
  }
}
