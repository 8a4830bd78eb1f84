/** internal/adapter/mcp/health.go: the circuit breaker of one MCP server, and how the calls of
    internal/adapter/mcp/connection.go drive it while others are still in flight. */
module Breaker {
  import opened Common

  datatype Health = Starting | Healthy | Degraded | Open | HalfOpen

  datatype Snapshot = Snapshot(
    state: Health, failures: nat, lastError: string, changedAt: int, retryAt: Option<int>)

  datatype Config = Config(threshold: int, cooldown: int) {
    /** Values that are not positive are replaced by the defaults, five seconds in nanoseconds. */
    function Effective(): (r: Config)
      ensures r.threshold > 0 && r.cooldown > 0
      ensures threshold > 0 ==> r.threshold == threshold
      ensures cooldown > 0 ==> r.cooldown == cooldown
      ensures threshold <= 0 ==> r.threshold == 3
      ensures cooldown <= 0 ==> r.cooldown == 5_000_000_000
    {
      Config(if threshold <= 0 then 3 else threshold, if cooldown <= 0 then 5_000_000_000 else cooldown)
    }
  }

  predicate Positive(c: Config) { c.threshold > 0 && c.cooldown > 0 }

  /** What the first locked section of BeforeBusinessCall decides. */
  datatype Verdict = Admitted | Unavailable | Refused | MustProbe

  // ------------------------------------------------------------- transitions

  /** The snapshot only changes, and is only dated, when some other field does. */
  function Transition(
    s: Snapshot, state: Health, failures: nat, error: string, retryAt: Option<int>, now: int): Snapshot
  {
    var next := s.(state := state, failures := failures, lastError := error, retryAt := retryAt);
    if next == s then s else next.(changedAt := now)
  }

  function OnHealthy(s: Snapshot, now: int): Snapshot { Transition(s, Healthy, 0, "", None, now) }

  function OnFailure(c: Config, s: Snapshot, error: string, now: int): Snapshot {
    var failures := s.failures + 1;
    if failures >= c.threshold then Transition(s, Open, failures, error, Some(now + c.cooldown), now)
    else Transition(s, Degraded, failures, error, None, now)
  }

  function OnOpen(c: Config, s: Snapshot, error: string, now: int): Snapshot
    requires Positive(c)
  {
    var failures := if s.failures + 1 < c.threshold then c.threshold else s.failures + 1;
    Transition(s, Open, failures, error, Some(now + c.cooldown), now)
  }

  function VerdictOf(s: Snapshot, now: int): Verdict {
    match s.state
    case Healthy => Admitted
    case Degraded => Admitted
    case Starting => Unavailable
    case HalfOpen => Refused
    case Open => if s.retryAt.Some? && now < s.retryAt.value then Refused else MustProbe
  }

  function OnAdmit(s: Snapshot, now: int): Snapshot {
    if VerdictOf(s, now) == MustProbe then Transition(s, HalfOpen, s.failures, s.lastError, s.retryAt, now) else s
  }

  /** The state tells the consecutive failures: none, some below the threshold, or at least the
      threshold with a time to retry at. */
  predicate Consistent(c: Config, s: Snapshot) {
    match s.state
    case Starting => s.failures == 0 && s.retryAt == None
    case Healthy => s.failures == 0 && s.retryAt == None
    case Degraded => 1 <= s.failures < c.threshold && s.retryAt == None
    case Open => s.failures >= c.threshold && s.retryAt.Some?
    case HalfOpen => s.failures >= c.threshold && s.retryAt.Some?
  }

  // -------------------------------------------------------------- the tracker

  class HealthTracker {
    var snapshot: Snapshot
    const config: Config

    ghost predicate Valid()
      reads this
    {
      Positive(config) && Consistent(config, snapshot)
    }

    constructor (requested: Config, now: int)
      ensures Valid() && config == requested.Effective() && snapshot == Snapshot(Starting, 0, "", now, None)
    {
      config := requested.Effective();
      snapshot := Snapshot(Starting, 0, "", now, None);
    }

    /** transitionLocked. */
    method TransitionLocked(state: Health, failures: nat, error: string, retryAt: Option<int>, now: int)
      returns (changed: bool)
      modifies this`snapshot
      ensures snapshot == Transition(old(snapshot), state, failures, error, retryAt, now)
      ensures !changed ==> snapshot == old(snapshot)
      ensures changed <==> (state, failures, error, retryAt) !=
                           (old(snapshot).state, old(snapshot).failures, old(snapshot).lastError, old(snapshot).retryAt)
    {
      var previous := snapshot;
      var next := previous.(state := state, failures := failures, lastError := error, retryAt := retryAt);
      changed := previous.state != next.state || previous.failures != next.failures
                 || previous.lastError != next.lastError || previous.retryAt != next.retryAt;
      if changed {
        snapshot := next.(changedAt := now);
      }
    }

    method ReportHealthy(now: int)
      requires Valid()
      modifies this`snapshot
      ensures Valid() && snapshot == OnHealthy(old(snapshot), now)
      ensures snapshot.state == Healthy && snapshot.failures == 0 && snapshot.retryAt.None? && snapshot.lastError == ""
    {
      var _ := TransitionLocked(Healthy, 0, "", None, now);
    }

    /** `ignored` is a cancellation, which says nothing about the server. */
    method ReportFailure(error: string, ignored: bool, now: int)
      requires Valid()
      modifies this`snapshot
      ensures Valid()
      ensures snapshot == if ignored then old(snapshot) else OnFailure(config, old(snapshot), error, now)
      ensures !ignored ==>
                && snapshot.failures == old(snapshot).failures + 1 && snapshot.lastError == error
                && snapshot.changedAt == now
                && (if snapshot.failures < config.threshold then snapshot.state == Degraded && snapshot.retryAt.None?
                    else snapshot.state == Open && snapshot.retryAt == Some(now + config.cooldown))
    {
      if ignored { return; }
      var failures := snapshot.failures + 1;
      var state, retryAt := Degraded, None;
      if failures >= config.threshold {
        state, retryAt := Open, Some(now + config.cooldown);
      }
      var _ := TransitionLocked(state, failures, error, retryAt, now);
    }

    method ReportOpen(error: string, now: int)
      requires Valid()
      modifies this`snapshot
      ensures Valid() && snapshot == OnOpen(config, old(snapshot), error, now)
      ensures snapshot.state == Open && snapshot.retryAt == Some(now + config.cooldown) && snapshot.lastError == error
      ensures snapshot.failures > old(snapshot).failures && snapshot.failures >= config.threshold
      ensures snapshot.failures == config.threshold || snapshot.failures == old(snapshot).failures + 1
    {
      var failures := snapshot.failures + 1;
      if failures < config.threshold {
        failures := config.threshold;
      }
      var _ := TransitionLocked(Open, failures, error, Some(now + config.cooldown), now);
    }

    /** BeforeBusinessCall up to its unlock. */
    method Admit(now: int) returns (verdict: Verdict)
      requires Valid()
      modifies this`snapshot
      ensures Valid()
      ensures verdict == VerdictOf(old(snapshot), now) && snapshot == OnAdmit(old(snapshot), now)
      ensures verdict == Admitted <==> old(snapshot).state in {Healthy, Degraded}
      ensures verdict == Unavailable <==> old(snapshot).state == Starting
      ensures verdict == MustProbe <==> old(snapshot).state == Open && old(snapshot).retryAt.value <= now
      ensures if verdict == MustProbe
              then snapshot.state == HalfOpen && snapshot.failures == old(snapshot).failures
                   && snapshot.retryAt == old(snapshot).retryAt && snapshot.lastError == old(snapshot).lastError
              else snapshot == old(snapshot)
    {
      match snapshot.state
      case Healthy => return Admitted;
      case Degraded => return Admitted;
      case Starting => return Unavailable;
      case HalfOpen => return Refused;
      case Open =>
        if now < snapshot.retryAt.value { return Refused; }
        var _ := TransitionLocked(HalfOpen, snapshot.failures, snapshot.lastError, snapshot.retryAt, now);
        return MustProbe;
    }

    /** BeforeBusinessCall after its probe. */
    method FinishProbe(failure: Option<string>, now: int) returns (admitted: bool)
      requires Valid()
      modifies this`snapshot
      ensures Valid() && admitted == failure.None?
      ensures snapshot == if admitted then OnHealthy(old(snapshot), now)
                          else OnOpen(config, old(snapshot), failure.value, now)
      ensures if admitted then snapshot.state == Healthy && snapshot.failures == 0
              else snapshot.state == Open && snapshot.retryAt == Some(now + config.cooldown)
    {
      if failure.Some? {
        ReportOpen(failure.value, now);
        return false;
      }
      ReportHealthy(now);
      return true;
    }
  }

  // ------------------------------------------------------------------ reports

  datatype Report = Success | Failure | Canceled

  function ReportOne(c: Config, s: Snapshot, r: Report, now: int): Snapshot {
    match r
    case Success => OnHealthy(s, now)
    case Failure => OnFailure(c, s, "", now)
    case Canceled => s
  }

  function Reports(c: Config, s: Snapshot, rs: seq<(Report, int)>): Snapshot {
    if rs == [] then s
    else ReportOne(c, Reports(c, s, rs[..|rs| - 1]), rs[|rs| - 1].0, rs[|rs| - 1].1)
  }

  /** The failures since the last success. */
  function Streak(rs: seq<(Report, int)>): nat {
    if rs == [] then 0
    else
      match rs[|rs| - 1].0
      case Success => 0
      case Failure => Streak(rs[..|rs| - 1]) + 1
      case Canceled => Streak(rs[..|rs| - 1])
  }

  /** Under success and failure reports alone the state is a function of the failures since the
      last success. */
  lemma {:induction false} StateFollowsStreak(c: Config, started: int, rs: seq<(Report, int)>)
    requires Positive(c)
    ensures var s := Reports(c, Snapshot(Starting, 0, "", started, None), rs);
            var k := Streak(rs);
            && s.failures == k
            && (s.state in {Degraded} <==> 0 < k < c.threshold)
            && (s.state == Open <==> k >= c.threshold)
            && (s.state in {Starting, Healthy} <==> k == 0)
            && (s.state == Starting <==> forall r | r in rs :: r.0 == Canceled)
  {
    if rs != [] {
      var n := |rs| - 1;
      StateFollowsStreak(c, started, rs[..n]);
      assert rs == rs[..n] + [rs[n]];
    }
  }

  // ------------------------------------------------------------- interleavings

  /** The tracker with the callers between its locked sections. */
  datatype State = State(snapshot: Snapshot, probing: set<nat>, calling: set<nat>, lastProbe: Option<int>, clock: int)

  datatype Event =
    | Arrive(caller: nat)
    | ProbeEnds(caller: nat, ok: bool)
    | CallEnds(caller: nat, report: Report)
    | Broken
    | Discovered
    | Tripped

  /** The error text of a snapshot is not followed over events. */
  function Moved(c: Config, s: Snapshot, e: Event, now: int): Snapshot
    requires Positive(c)
  {
    match e
    case Arrive(_) => OnAdmit(s, now)
    case ProbeEnds(_, ok) => if ok then OnHealthy(s, now) else OnOpen(c, s, "", now)
    case CallEnds(_, report) => ReportOne(c, s, report, now)
    case Broken => OnFailure(c, s, "", now)
    case Discovered => OnHealthy(s, now)
    case Tripped => OnOpen(c, s, "", now)
  }

  predicate Succeeds(e: Event) {
    e == Discovered || (e.ProbeEnds? && e.ok) || (e.CallEnds? && e.report == Success)
  }

  /** `Broken` is a failure the transport itself reports, whatever is in flight. */
  predicate Enabled(s: State, e: Event, now: int) {
    s.clock <= now &&
    match e
    case Arrive(caller) => caller !in s.probing && caller !in s.calling
    case ProbeEnds(caller, _) => caller in s.probing
    case CallEnds(caller, _) => caller in s.calling
    case _ => true
  }

  /** `lastProbe` remembers when a probe last began since the last reported success. */
  function Step(c: Config, s: State, e: Event, now: int): State
    requires Positive(c)
  {
    var t := s.(clock := now, snapshot := Moved(c, s.snapshot, e, now),
                lastProbe := if Succeeds(e) then None else s.lastProbe);
    match e
    case Arrive(caller) =>
      var verdict := VerdictOf(s.snapshot, now);
      if verdict == Admitted then t.(calling := s.calling + {caller})
      else if verdict == MustProbe then t.(probing := s.probing + {caller}, lastProbe := Some(now))
      else t
    case ProbeEnds(caller, ok) =>
      t.(probing := s.probing - {caller}, calling := if ok then s.calling + {caller} else s.calling)
    case CallEnds(caller, _) => t.(calling := s.calling - {caller})
    case _ => t
  }

  /** Consistency, and a half-open breaker always has a probe in flight that will decide it. */
  predicate Inv(c: Config, s: State) {
    && Consistent(c, s.snapshot)
    && (s.snapshot.state == HalfOpen ==> s.probing != {})
    && (s.lastProbe.Some? ==> s.snapshot.state in {Open, HalfOpen} && s.lastProbe.value <= s.clock)
    && (s.lastProbe.Some? && s.snapshot.state == Open ==> s.snapshot.retryAt.value >= s.lastProbe.value + c.cooldown)
  }

  lemma StepKeepsInvariant(c: Config, s: State, e: Event, now: int)
    requires Positive(c) && Inv(c, s) && Enabled(s, e, now)
    ensures Inv(c, Step(c, s, e, now))
  {
  }

  /** A caller arrives once; only a probe or call in flight ends; anything else happens at any time. */
  lemma EnabledExactlyWhen(s: State, e: Event, now: int)
    ensures Enabled(s, e, now) <==>
            && s.clock <= now
            && (e.Arrive? ==> e.caller !in s.probing + s.calling)
            && (e.ProbeEnds? ==> e.caller in s.probing) && (e.CallEnds? ==> e.caller in s.calling)
  {
  }

  /** What an event makes of the breaker: a success heals it, a failure counts and opens it from the
      threshold on, a failed probe or a trip opens it, each for a cooldown, and the first call
      after that becomes the probe. */
  lemma EventMeans(c: Config, s: State, e: Event, now: int)
    requires Positive(c) && Inv(c, s) && Enabled(s, e, now)
    ensures var a, b := s.snapshot, Step(c, s, e, now).snapshot;
            match e
            case Arrive(_) =>
              if a.state == Open && a.retryAt.value <= now then
                b.state == HalfOpen && b.failures == a.failures && b.retryAt == a.retryAt
              else b == a
            case ProbeEnds(_, ok) => if ok then WellAgain(b) else Opened(c, a, b, now)
            case CallEnds(_, report) =>
              (report == Success ==> WellAgain(b)) && (report == Failure ==> OneMore(c, a, b, now))
              && (report == Canceled ==> b == a)
            case Broken => OneMore(c, a, b, now)
            case Discovered => WellAgain(b)
            case Tripped => Opened(c, a, b, now)
    ensures var t := Step(c, s, e, now);
            && t.clock == now
            && (forall caller :: caller in t.calling <==>
                  if e == Arrive(caller) then s.snapshot.state in {Healthy, Degraded}
                  else if e == ProbeEnds(caller, true) then true
                  else caller in s.calling && !(e.CallEnds? && e.caller == caller))
            && forall caller :: caller in t.probing <==>
                 if e == Arrive(caller) then s.snapshot.state == Open && s.snapshot.retryAt.value <= now
                 else caller in s.probing && !(e.ProbeEnds? && e.caller == caller)
  {
  }

  predicate WellAgain(b: Snapshot) { b.state == Healthy && b.failures == 0 && b.retryAt.None? }

  predicate OneMore(c: Config, a: Snapshot, b: Snapshot, now: int) {
    && b.failures == a.failures + 1
    && if b.failures < c.threshold then b.state == Degraded && b.retryAt.None?
       else b.state == Open && b.retryAt == Some(now + c.cooldown)
  }

  predicate Opened(c: Config, a: Snapshot, b: Snapshot, now: int) {
    && b.state == Open && b.retryAt == Some(now + c.cooldown)
    && b.failures == if a.failures + 1 < c.threshold then c.threshold else a.failures + 1
  }

  /** Callers are admitted only while the server is known good or by their own working probe;
      every probe that ends resolves the half-open state. */
  lemma Admission(c: Config, s: State, e: Event, now: int, caller: nat)
    requires Positive(c) && Inv(c, s) && Enabled(s, e, now)
    ensures caller in Step(c, s, e, now).calling && caller !in s.calling <==>
            caller !in s.calling &&
            ((e == Arrive(caller) && s.snapshot.state in {Healthy, Degraded}) || e == ProbeEnds(caller, true))
    ensures e.ProbeEnds? ==> Step(c, s, e, now).snapshot.state == if e.ok then Healthy else Open
  {
  }

  function Run(c: Config, s: State, events: seq<(Event, int)>): State
    requires Positive(c)
  {
    if events == [] then s
    else Step(c, Run(c, s, events[..|events| - 1]), events[|events| - 1].0, events[|events| - 1].1)
  }

  /** Every event is enabled when its turn comes, so times never decrease. */
  predicate Allowed(c: Config, s: State, events: seq<(Event, int)>)
    requires Positive(c)
  {
    events == [] ||
    (Allowed(c, s, events[..|events| - 1])
     && Enabled(Run(c, s, events[..|events| - 1]), events[|events| - 1].0, events[|events| - 1].1))
  }

  lemma {:induction false} RunKeepsInvariant(c: Config, s: State, events: seq<(Event, int)>)
    requires Positive(c) && Inv(c, s) && Allowed(c, s, events)
    ensures Inv(c, Run(c, s, events))
  {
    if events != [] {
      var n := |events| - 1;
      RunKeepsInvariant(c, s, events[..n]);
      StepKeepsInvariant(c, Run(c, s, events[..n]), events[n].0, events[n].1);
    }
  }

  /** Event `e` at `now` begins a probe. */
  predicate BeginsProbe(s: State, e: Event, now: int) {
    e.Arrive? && VerdictOf(s.snapshot, now) == MustProbe
  }

  lemma {:induction false} ProbeRemembered(c: Config, s: State, events: seq<(Event, int)>)
    requires Positive(c) && Inv(c, s) && Allowed(c, s, events) && s.lastProbe.Some?
    requires forall e | e in events :: !Succeeds(e.0)
    ensures var t := Run(c, s, events);
            Inv(c, t) && t.lastProbe.Some? && t.lastProbe.value >= s.lastProbe.value
  {
    RunKeepsInvariant(c, s, events);
    if events != [] {
      var n := |events| - 1;
      assert events[n] in events;
      ProbeRemembered(c, s, events[..n]);
      RunKeepsInvariant(c, s, events[..n]);
    }
  }

  /** Two probes with no success reported between them begin at least a cooldown apart. */
  lemma ProbesAreSpaced(c: Config, s: State, first: (Event, int), between: seq<(Event, int)>, second: (Event, int))
    requires Positive(c) && Inv(c, s)
    requires Enabled(s, first.0, first.1) && BeginsProbe(s, first.0, first.1)
    requires var a := Step(c, s, first.0, first.1);
             Allowed(c, a, between) && Enabled(Run(c, a, between), second.0, second.1)
             && BeginsProbe(Run(c, a, between), second.0, second.1)
    requires forall e | e in between :: !Succeeds(e.0)
    ensures second.1 >= first.1 + c.cooldown
  {
    var a := Step(c, s, first.0, first.1);
    StepKeepsInvariant(c, s, first.0, first.1);
    ProbeRemembered(c, a, between);
  }

  /** An event brings a tripped breaker back exactly when it reports a success. */
  lemma RecoversExactlyWhen(c: Config, s: Snapshot, e: Event, now: int)
    requires Positive(c) && Consistent(c, s) && s.state in {Open, HalfOpen}
    ensures Moved(c, s, e, now).state in {Healthy, Degraded} <==> Succeeds(e)
    ensures Consistent(c, Moved(c, s, e, now))
  {
  }

  /** No event of a run ends this caller's call. */
  predicate Outlasts(caller: nat, events: seq<(Event, int)>) {
    forall e | e in events :: !(e.0.CallEnds? && e.0.caller == caller)
  }

  lemma {:induction false} StaysInFlight(c: Config, s: State, events: seq<(Event, int)>, caller: nat)
    requires Positive(c) && Inv(c, s) && Allowed(c, s, events) && Outlasts(caller, events) && caller in s.calling
    ensures caller in Run(c, s, events).calling && Run(c, s, events).clock >= s.clock
  {
    if events != [] {
      var n := |events| - 1;
      assert events[n] in events;
      StaysInFlight(c, s, events[..n], caller);
    }
  }

  /** A call in flight that ends well heals the breaker, whatever failures, trips and probes there
      were meanwhile. */
  lemma LateSuccessHeals(c: Config, s: State, between: seq<(Event, int)>, caller: nat, now: int)
    requires Positive(c) && Inv(c, s) && caller in s.calling
    requires Allowed(c, s, between) && Outlasts(caller, between) && now >= Run(c, s, between).clock
    ensures var t := Run(c, s, between); var u := Step(c, t, CallEnds(caller, Success), now);
            && Enabled(t, CallEnds(caller, Success), now)
            && u.snapshot.state == Healthy && u.snapshot.failures == 0 && VerdictOf(u.snapshot, now) == Admitted
  {
    StaysInFlight(c, s, between, caller);
  }
}
