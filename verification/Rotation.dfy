/** internal/host/credential_rotation.go: the stage, activate, commit transaction
    over one credential control, and what it may write into a selection. */
module Rotation {
  import opened Common
  import opened Connections

  datatype Phase = Idle | Staged | Activated | Committed | RolledBack

  /** How one control call ends: it works, it fails before publishing anything, or it
      fails after the published reference was already replaced. */
  datatype Fault = Works | FailsBefore | FailsAfter

  datatype Call = Activate | Commit | Rollback

  /** A rotation together with the reference its control currently publishes. */
  datatype View = View(reference: Reference, previous: Reference, phase: Phase, effective: Reference) {
    predicate Pending() { phase == Staged || phase == Activated }

    /** The credential the rotation makes effective. */
    function Effective(): Reference {
      if phase == RolledBack then previous else reference
    }

    /** What a rotation can look like from its staging on, whatever calls fail. */
    predicate Sound() {
      match phase
      case Idle => true
      case Staged => effective == previous || effective == reference
      case Activated => effective == previous || effective == reference
      case Committed => effective == reference
      case RolledBack => effective == previous
    }
  }

  function IdleOver(current: Reference): View { View(current, current, Idle, current) }

  function StagedOver(current: Reference, next: Reference): View { View(next, current, Staged, current) }

  /** One control call and the phase change it drives: the new view and whether the call succeeded. */
  function Step(v: View, call: Call, fault: Fault): (View, bool) {
    match call
    case Activate =>
      if v.phase == Staged then
        if v.effective != v.previous || fault == FailsBefore then (v, false)
        else if fault == FailsAfter then (v.(effective := v.reference), false)
        else (v.(effective := v.reference, phase := Activated), true)
      else (v, v.phase != RolledBack)
    case Commit =>
      if v.phase == Activated then
        if v.effective != v.reference || fault != Works then (v, false) else (v.(phase := Committed), true)
      else (v, v.phase == Idle || v.phase == Committed)
    case Rollback =>
      if !v.Pending() then (v, true)
      else if (v.effective != v.reference && v.effective != v.previous) || fault == FailsBefore then (v, false)
      else if fault == FailsAfter then (v.(effective := v.previous), false)
      else (v.(effective := v.previous, phase := RolledBack), true)
  }

  /** The control file: the one reference it publishes for its provider namespace. */
  class Control {
    var effective: Reference

    constructor (current: Reference)
      ensures effective == current
    {
      effective := current;
    }

    method Activate(current: Reference, staged: Reference, fault: Fault) returns (ok: bool)
      modifies this
      ensures ok <==> old(effective) == staged && fault == Works
      ensures effective == if old(effective) == staged && fault != FailsBefore then current else old(effective)
    {
      if effective != staged || fault == FailsBefore { return false; }
      effective := current;
      ok := fault == Works;
    }

    method Commit(current: Reference, fault: Fault) returns (ok: bool)
      ensures ok <==> effective == current && fault == Works
    {
      ok := effective == current && fault == Works;
    }

    method Restore(current: Reference, previous: Reference, fault: Fault) returns (ok: bool)
      modifies this
      ensures ok <==> (old(effective) == current || old(effective) == previous) && fault == Works
      ensures effective ==
              if (old(effective) == current || old(effective) == previous) && fault != FailsBefore
              then previous else old(effective)
    {
      if (effective != current && effective != previous) || fault == FailsBefore { return false; }
      effective := previous;
      ok := fault == Works;
    }
  }

  class CredentialRotation {
    const control: Control
    var reference: Reference
    var previous: Reference
    var phase: Phase

    ghost function State(): View
      reads this, control
    {
      View(reference, previous, phase, control.effective)
    }

    /** An empty secret yields an idle rotation over the current reference. */
    constructor Stage(control: Control, current: Reference, secret: string, next: Reference)
      ensures this.control == control
      ensures secret == "" ==> reference == previous == current && phase == Idle
      ensures secret != "" ==> reference == next && previous == current && phase == Staged
    {
      this.control := control;
      reference, previous, phase := current, current, Idle;
      if secret != "" {
        reference, phase := next, Staged;
      }
    }

    method Activate(fault: Fault) returns (ok: bool)
      modifies this`phase, control
      ensures (State(), ok) == Step(old(State()), Call.Activate, fault)
    {
      match phase
      case Staged =>
        ok := control.Activate(reference, previous, fault);
        if ok { phase := Activated; }
      case RolledBack => ok := false;
      case _ => ok := true;
    }

    method Commit(fault: Fault) returns (ok: bool)
      modifies this`phase
      ensures (State(), ok) == Step(old(State()), Call.Commit, fault)
    {
      match phase
      case Staged => ok := false;
      case Activated =>
        ok := control.Commit(reference, fault);
        if ok { phase := Committed; }
      case RolledBack => ok := false;
      case _ => ok := true;
    }

    method Rollback(fault: Fault) returns (ok: bool)
      modifies this`phase, control
      ensures (State(), ok) == Step(old(State()), Call.Rollback, fault)
    {
      if phase != Staged && phase != Activated { return true; }
      ok := control.Restore(reference, previous, fault);
      if ok { phase := RolledBack; }
    }

    /** Ends the transaction: rolls back a failed change, commits a successful one. */
    method Settle(failed: bool, fault: Fault) returns (rolledBack: bool)
      modifies this`phase, control
      ensures State() == Step(old(State()), if failed then Call.Rollback else Call.Commit, fault).0
      ensures failed ==> rolledBack == Step(old(State()), Call.Rollback, fault).1
    {
      if failed {
        rolledBack := Rollback(fault);
      } else {
        var _ := Commit(fault);
        rolledBack := true;
      }
    }
  }

  /** When the three calls succeed, and what a successful one leaves. A call with nothing to do
      succeeds and changes nothing; one that may not be made yet or any more fails the same way. */
  lemma CallsMean(v: View, fault: Fault)
    ensures var (r, ok) := Step(v, Activate, fault);
            && (ok <==> v.phase in {Idle, Activated, Committed}
                        || (v.phase == Staged && v.effective == v.previous && fault == Works))
            && (v.phase != Staged ==> r == v)
            && (v.phase == Staged && ok ==> r.phase == Activated && r.effective == v.reference)
            && (v.phase == Staged && !ok ==> r.phase == Staged)
    ensures var (r, ok) := Step(v, Commit, fault);
            && (ok <==> v.phase in {Idle, Committed}
                        || (v.phase == Activated && v.effective == v.reference && fault == Works))
            && r == if v.phase == Activated && ok then v.(phase := Committed) else v
    ensures var (r, ok) := Step(v, Rollback, fault);
            && (ok <==> v.phase in {Idle, Committed, RolledBack}
                        || (v.effective in {v.reference, v.previous} && fault == Works))
            && (v.phase !in {Staged, Activated} ==> r == v)
            && (v.phase in {Staged, Activated} && ok ==> r.phase == RolledBack && r.effective == v.previous)
            && (v.phase in {Staged, Activated} && !ok ==> r.phase == v.phase)
  {
  }

  // ------------------------------------------------------------------- runs

  function Run(v: View, calls: seq<(Call, Fault)>): View {
    if calls == [] then v
    else Step(Run(v, calls[..|calls| - 1]), calls[|calls| - 1].0, calls[|calls| - 1].1).0
  }

  function Rank(p: Phase): nat {
    match p
    case Idle => 0
    case Staged => 1
    case Activated => 2
    case Committed => 3
    case RolledBack => 3
  }

  /** Over any calls and any faults phases only move forward, a settled rotation never
      moves again, and the published reference agrees with the phase: committed publishes
      the new reference, rolled back the previous one. */
  lemma {:induction false} RunIsSound(v: View, calls: seq<(Call, Fault)>)
    requires v.Sound()
    ensures var r := Run(v, calls);
            r.Sound() && r.reference == v.reference && r.previous == v.previous
            && Rank(v.phase) <= Rank(r.phase)
            && (Rank(v.phase) == 3 || v.phase == Idle ==> r == v)
  {
    if calls != [] {
      RunIsSound(v, calls[..|calls| - 1]);
    }
  }

  /** Commit is refused until an activation succeeded: a committed run contains one. */
  lemma {:induction false} CommitNeedsActivation(v: View, calls: seq<(Call, Fault)>)
    requires v.Sound() && v.phase == Staged && Run(v, calls).phase == Committed
    ensures (Activate, Works) in calls
  {
    ActivationRecorded(v, calls);
  }

  lemma {:induction false} ActivationRecorded(v: View, calls: seq<(Call, Fault)>)
    requires v.Sound() && v.phase == Staged
    ensures Run(v, calls).phase in {Activated, Committed} ==> (Activate, Works) in calls
  {
    if calls != [] {
      var n := |calls| - 1;
      ActivationRecorded(v, calls[..n]);
      if (Activate, Works) in calls[..n] {
        assert (Activate, Works) in calls;
      } else {
        assert calls[n] in calls;
        RunIsSound(v, calls[..n]);
      }
    }
  }

  /** Whatever failed before, one working rollback of a pending rotation republishes the
      previous reference; and a working activate-commit pair publishes the new one. */
  lemma PendingIsRecoverable(v: View, calls: seq<(Call, Fault)>)
    requires v.Sound() && Run(v, calls).Pending()
    ensures var r := Step(Run(v, calls), Rollback, Works);
            r.1 && r.0.phase == RolledBack && r.0.effective == v.previous && r.0.Effective() == v.previous
    ensures v.phase == Staged && v.effective == v.previous ==>
              var c := Step(Step(v, Activate, Works).0, Commit, Works);
              c.1 && c.0.phase == Committed && c.0.effective == v.reference
  {
    RunIsSound(v, calls);
  }

  // ---------------------------------------------------------------- ownership

  /** `bindTo`: a pending rotation's reference goes to its owner, "" naming the active connection. */
  function BindTo(v: View, selection: Selection, connectionID: string): Selection {
    var target := if connectionID == "" then selection.Active() else selection.Find(connectionID);
    if !v.Pending() || target.None? then selection
    else selection.WithCredential(target.value, v.reference)
  }

  /** Only the owner's credential changes, and only while the rotation is pending. */
  lemma BindTouchesOnlyOwner(v: View, selection: Selection, connectionID: string, i: nat)
    requires i < |selection.connections|
    ensures var r := BindTo(v, selection, connectionID);
            var owner := if connectionID == "" then selection.Active() else selection.Find(connectionID);
            |r.connections| == |selection.connections| && r.defaultConnection == selection.defaultConnection
            && r.connections[i] ==
               if v.Pending() && owner == Some(i) then selection.connections[i].(credential := Some(v.reference))
               else selection.connections[i]
  {
  }
}
