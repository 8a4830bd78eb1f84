/** internal/adapter/mcp/prewarm.go: the dirty flag, the one-slot wake channel, the worker and
    the synchronous refreshes that race with it. */
module Prewarm {
  import opened Common

  /** A name prefix under which a plugin contributes servers. */
  type Prefix = nat

  /** A refresh that has swapped the dirty flag: before it copies the blocked prefixes, while it
      works on that copy, and once the pool has been reloaded from it. */
  datatype Refresh = Swapped | Holding(blocked: set<Prefix>) | Reloaded(blocked: set<Prefix>)

  /** The worker is caller WORKER of a refresh; the others are RefreshNow calls. */
  const WORKER: nat := 0

  /** `marked` and `completed` are RequestRefresh calls before and after their wake attempt, and
      `served` those whose mark a refresh has swapped since. `swapping` callers are about to
      swap; `changing` are prefixes blocked or unblocked whose dirty mark is still to come. */
  datatype State = State(
    dirty: bool, token: bool, stopped: bool, swapping: set<nat>, refreshes: map<nat, Refresh>,
    marked: set<nat>, completed: set<nat>, served: set<nat>,
    configured: set<Prefix>, blocked: set<Prefix>, changing: multiset<Prefix>, pool: set<Prefix>)

  datatype Event =
    | Mark(request: nat)
    | Wake(request: nat)
    | Take
    | Stop
    | RefreshNow(caller: nat)
    | Swap(caller: nat)
    | LoadFails(caller: nat)
    | Copy(caller: nat)
    | Reload(caller: nat, ok: bool)
    | Finish(caller: nat, ok: bool)
    | Block(prefix: Prefix)
    | Unblock(prefix: Prefix)
    | MarkChange(prefix: Prefix)
    | RemovePrefix(prefix: Prefix)

  predicate Enabled(s: State, e: Event) {
    match e
    case Mark(request) => request !in s.marked && request !in s.completed
    case Wake(request) => request in s.marked
    case Take => s.token && !s.stopped && WORKER !in s.swapping && WORKER !in s.refreshes
    case Stop => WORKER !in s.swapping && WORKER !in s.refreshes
    case RefreshNow(caller) => caller != WORKER && caller !in s.swapping && caller !in s.refreshes
    case Swap(caller) => caller in s.swapping
    case LoadFails(caller) => caller in s.refreshes && s.refreshes[caller].Swapped?
    case Copy(caller) => caller in s.refreshes && s.refreshes[caller].Swapped?
    case Reload(caller, _) => caller in s.refreshes && s.refreshes[caller].Holding?
    case Finish(caller, _) => caller in s.refreshes && s.refreshes[caller].Reloaded?
    case Block(_) => true
    case Unblock(_) => true
    case MarkChange(prefix) => prefix in s.changing
    case RemovePrefix(_) => true
  }

  function Step(s: State, e: Event): State
    requires Enabled(s, e)
  {
    match e
    case Mark(request) => s.(dirty := true, marked := s.marked + {request})
    case Wake(request) => s.(token := true, marked := s.marked - {request}, completed := s.completed + {request})
    case Take => s.(token := false, swapping := s.swapping + {WORKER})
    case Stop => s.(stopped := true)
    case RefreshNow(caller) => s.(dirty := true, swapping := s.swapping + {caller})
    case Swap(caller) =>
      var t := s.(swapping := s.swapping - {caller});
      if s.dirty then
        t.(dirty := false, refreshes := s.refreshes[caller := Swapped], served := s.served + s.marked + s.completed)
      else t
    case LoadFails(caller) => s.(dirty := true, refreshes := s.refreshes - {caller})
    case Copy(caller) => s.(refreshes := s.refreshes[caller := Holding(s.blocked)])
    case Reload(caller, ok) =>
      if ok then
        s.(refreshes := s.refreshes[caller := Reloaded(s.refreshes[caller].blocked)],
           pool := s.configured - s.refreshes[caller].blocked)
      else s.(dirty := true, refreshes := s.refreshes - {caller})
    case Finish(caller, ok) => s.(dirty := s.dirty || !ok, refreshes := s.refreshes - {caller})
    case Block(prefix) => s.(blocked := s.blocked + {prefix}, changing := s.changing + multiset{prefix})
    case Unblock(prefix) => s.(blocked := s.blocked - {prefix}, changing := s.changing + multiset{prefix})
    case MarkChange(prefix) => s.(dirty := true, changing := s.changing - multiset{prefix})
    case RemovePrefix(prefix) => s.(pool := s.pool - {prefix})
  }

  /** No request is lost: one that no refresh has served yet left the flag dirty, and after its
      wake attempt a token is queued or the worker has taken one and is about to swap. */
  ghost predicate NoLostRefresh(s: State) {
    && (forall r | r in s.marked + s.completed && r !in s.served :: s.dirty)
    && (forall r | r in s.completed && r !in s.served :: s.token || WORKER in s.swapping)
  }

  lemma StepLosesNoRefresh(s: State, e: Event)
    requires NoLostRefresh(s) && Enabled(s, e)
    ensures NoLostRefresh(Step(s, e))
  {
  }

  function Start(configured: set<Prefix>): State {
    State(false, false, false, {}, map[], {}, {}, {}, configured, {}, multiset{}, {})
  }

  predicate Run(s: State, events: seq<Event>, t: State)
    decreases events
  {
    if events == [] then s == t
    else Enabled(s, events[0]) && Run(Step(s, events[0]), events[1..], t)
  }

  lemma {:induction false} RunsLoseNoRefresh(s: State, events: seq<Event>, t: State)
    requires NoLostRefresh(s) && Run(s, events, t)
    ensures NoLostRefresh(t)
    decreases events
  {
    if events != [] {
      StepLosesNoRefresh(s, events[0]);
      RunsLoseNoRefresh(Step(s, events[0]), events[1..], t);
    }
  }

  /** So whatever is still unserved when the worker swaps is served by that swap. */
  lemma NextSwapServesAll(s: State, caller: nat)
    requires NoLostRefresh(s) && caller in s.swapping
    ensures s.marked + s.completed <= Step(s, Swap(caller)).served + s.served
    ensures s.marked + s.completed <= s.served || caller in Step(s, Swap(caller)).refreshes
  {
  }

  // ------------------------------------------------------------ a stranded flag

  /** The flag is dirty and nothing is coming to serve it: no caller about to swap, no token and
      no request about to send one. */
  predicate Stranded(s: State) { s.dirty && s.swapping == {} && s.marked == {} && !s.token }

  /** A refresh that fails, or a change of the blocked prefixes, marks without waking. */
  predicate MarksOnly(e: Event) {
    e.LoadFails? || e.MarkChange? || ((e.Reload? || e.Finish?) && !e.ok)
  }

  /** An event strands the flag exactly when it only marks it while nothing is coming, and only a
      new request or a synchronous refresh helps a stranded one. */
  lemma StrandedExactlyWhen(s: State, e: Event)
    requires Enabled(s, e)
    ensures Stranded(Step(s, e)) <==>
            if Stranded(s) then !e.Mark? && !e.RefreshNow?
            else MarksOnly(e) && s.swapping == {} && s.marked == {} && !s.token
  {
  }

  /** A stranded flag leaves no request unserved. */
  lemma StrandedServesRequests(s: State, events: seq<Event>, t: State)
    requires NoLostRefresh(s) && Run(s, events, t) && Stranded(t)
    ensures t.completed <= t.served
  {
    RunsLoseNoRefresh(s, events, t);
  }

  /** One refresh whose configuration does not load is enough. */
  lemma FailedRefreshStrands(configured: set<Prefix>)
    ensures var t := Start(configured).(dirty := true, completed := {0}, served := {0});
            Reaches(Start(configured), t) && Stranded(t)
  {
    hide Reaches;
    var s0, t := Start(configured), Start(configured).(dirty := true, completed := {0}, served := {0});
    var s1 := s0.(dirty := true, marked := {0});
    var s2 := s0.(dirty := true, completed := {0}, token := true);
    var s3 := s0.(dirty := true, completed := {0}, swapping := {WORKER});
    var s4 := t.(dirty := false, refreshes := map[WORKER := Swapped]);
    assert Step(s0, Mark(0)) == s1 && Step(s1, Wake(0)) == s2 && Step(s2, Take) == s3;
    assert Step(s3, Swap(WORKER)) == s4 && Step(s4, LoadFails(WORKER)) == t;
    ReachesItself(t);
    ReachesAfter(s4, LoadFails(WORKER), t);
    ReachesAfter(s3, Swap(WORKER), t);
    ReachesAfter(s2, Take, t);
    ReachesAfter(s1, Wake(0), t);
    ReachesAfter(s0, Mark(0), t);
  }

  // ----------------------------------------------------------- blocked prefixes

  /** A reload leaves no blocked prefix in the pool exactly when the copy it works from has every
      configured one that is blocked by then. */
  lemma ReloadExpelsExactlyWhen(s: State, caller: nat)
    requires Enabled(s, Reload(caller, true))
    ensures Step(s, Reload(caller, true)).pool !! s.blocked <==>
            s.configured * s.blocked <= s.refreshes[caller].blocked
  {
    var t := Step(s, Reload(caller, true));
    if t.pool !! s.blocked {
      forall p | p in s.configured * s.blocked ensures p in s.refreshes[caller].blocked {
        assert p !in t.pool;
      }
    }
  }

  /** The states a run goes through. */
  ghost predicate Path(states: seq<State>, events: seq<Event>) {
    && |states| == |events| + 1
    && forall i | 0 <= i < |events| :: Enabled(states[i], events[i]) && states[i + 1] == Step(states[i], events[i])
  }

  lemma {:induction false} RunIsPath(s: State, events: seq<Event>, t: State) returns (states: seq<State>)
    requires Run(s, events, t)
    ensures Path(states, events) && states[0] == s && states[|events|] == t
    decreases events
  {
    hide Step, Enabled;
    if events == [] {
      states := [s];
    } else {
      var rest := RunIsPath(Step(s, events[0]), events[1..], t);
      states := [s] + rest;
      forall i | 0 <= i < |events|
        ensures Enabled(states[i], events[i]) && states[i + 1] == Step(states[i], events[i])
      {
        assert i > 0 ==> events[i] == events[1..][i - 1] && states[i] == rest[i - 1] && states[i + 1] == rest[i];
      }
    }
  }

  /** The last successful reload among the first `n` events. */
  function LastReload(events: seq<Event>, n: nat): (r: Option<nat>)
    requires n <= |events|
    ensures r.Some? ==> r.value < n && events[r.value].Reload? && events[r.value].ok
  {
    if n == 0 then None
    else if events[n - 1].Reload? && events[n - 1].ok then Some(n - 1)
    else LastReload(events, n - 1)
  }

  /** The last time before `n` that a caller copied the blocked prefixes. */
  function LastCopy(events: seq<Event>, caller: nat, n: nat): (r: Option<nat>)
    requires n <= |events|
    ensures r.Some? ==> r.value < n && events[r.value] == Copy(caller)
  {
    if n == 0 then None
    else if events[n - 1] == Copy(caller) then Some(n - 1)
    else LastCopy(events, caller, n - 1)
  }

  ghost predicate RemovedBetween(events: seq<Event>, prefix: Prefix, start: nat, n: nat)
    requires n <= |events|
  {
    exists j | start <= j < n :: events[j] == RemovePrefix(prefix)
  }

  /** The last reload worked from a copy taken while the prefix was blocked, or the prefix was
      removed after it; before the first reload the pool is empty. */
  ghost predicate Expelled(states: seq<State>, events: seq<Event>, prefix: Prefix, n: nat)
    requires |states| == |events| + 1 && n <= |events|
  {
    match LastReload(events, n)
    case None => true
    case Some(r) =>
      RemovedBetween(events, prefix, r, n) ||
      match LastCopy(events, events[r].caller, r)
      case None => false
      case Some(k) => prefix in states[k].blocked
  }

  /** Every copy a refresh holds is of the prefixes blocked when it last copied them. */
  ghost predicate CopiesDated(states: seq<State>, events: seq<Event>, n: nat)
    requires |states| == |events| + 1 && n <= |events|
  {
    forall c | c in states[n].refreshes && states[n].refreshes[c].Holding? ::
      match LastCopy(events, c, n)
      case None => false
      case Some(k) => states[n].refreshes[c].blocked == states[k].blocked
  }

  lemma {:induction false} CopiesStayDated(states: seq<State>, events: seq<Event>, n: nat)
    requires Path(states, events) && n <= |events| && states[0].refreshes == map[]
    ensures CopiesDated(states, events, n)
  {
    if n > 0 {
      CopiesStayDated(states, events, n - 1);
      assert states[n] == Step(states[n - 1], events[n - 1]);
    }
  }

  /** A reload leaves out what its copy has. */
  lemma ReloadExpels(states: seq<State>, events: seq<Event>, prefix: Prefix, n: nat)
    requires Path(states, events) && 0 < n <= |events| && CopiesDated(states, events, n - 1)
    requires events[n - 1].Reload? && events[n - 1].ok && prefix in states[n - 1].configured
    ensures prefix !in states[n].pool <==> Expelled(states, events, prefix, n)
  {
    var s, e := states[n - 1], events[n - 1];
    assert Enabled(s, e) && states[n] == Step(s, e);
    assert LastReload(events, n) == Some(n - 1) && !RemovedBetween(events, prefix, n - 1, n);
  }

  /** Any other event takes a prefix out of the pool by removing it, and puts none in. */
  lemma OtherExpels(states: seq<State>, events: seq<Event>, prefix: Prefix, n: nat)
    requires Path(states, events) && 0 < n <= |events| && !(events[n - 1].Reload? && events[n - 1].ok)
    requires LastReload(events, n - 1).None? ==> prefix !in states[n - 1].pool
    ensures prefix !in states[n].pool <==> prefix !in states[n - 1].pool || events[n - 1] == RemovePrefix(prefix)
    ensures Expelled(states, events, prefix, n) <==>
            Expelled(states, events, prefix, n - 1) || events[n - 1] == RemovePrefix(prefix)
            || LastReload(events, n - 1).None?
  {
    var s, e := states[n - 1], events[n - 1];
    assert Enabled(s, e) && states[n] == Step(s, e);
    assert LastReload(events, n) == LastReload(events, n - 1);
    RemovedFurther(events, prefix, n);
  }

  /** Over any run a configured prefix is out of the pool exactly when it is expelled. */
  lemma {:induction false} OutExactlyWhen(states: seq<State>, events: seq<Event>, prefix: Prefix, n: nat)
    requires Path(states, events) && n <= |events| && states[0] == Start(states[0].configured)
    requires prefix in states[0].configured
    ensures prefix !in states[n].pool <==> Expelled(states, events, prefix, n)
  {
    hide Step, Enabled, Path;
    if n > 0 {
      OutExactlyWhen(states, events, prefix, n - 1);
      if events[n - 1].Reload? && events[n - 1].ok {
        CopiesStayDated(states, events, n - 1);
        PoolConfigured(states, events, n - 1);
        ReloadExpels(states, events, prefix, n);
      } else {
        OtherExpels(states, events, prefix, n);
      }
    }
  }

  lemma RemovedFurther(events: seq<Event>, prefix: Prefix, n: nat)
    requires 0 < n <= |events|
    ensures forall start | 0 <= start < n ::
              RemovedBetween(events, prefix, start, n) <==>
              RemovedBetween(events, prefix, start, n - 1) || events[n - 1] == RemovePrefix(prefix)
  {
  }

  /** In every reachable state, whatever refreshes overlapped, no blocked prefix is in the pool
      exactly when every configured one is expelled: the last reload worked from a copy that
      was taken after it was blocked, or it was removed after that reload. */
  lemma BlockedLeaveExactlyWhen(states: seq<State>, events: seq<Event>)
    requires Path(states, events) && states[0] == Start(states[0].configured)
    ensures var t := states[|events|];
            t.pool !! t.blocked <==>
            forall p | p in t.configured && p in t.blocked :: Expelled(states, events, p, |events|)
  {
    hide Step, Enabled, Expelled;
    var n := |events|;
    var t := states[n];
    forall p | p in t.pool ensures p in t.configured {
      PoolConfigured(states, events, n);
    }
    forall p | p in t.configured && p in t.blocked ensures p !in t.pool <==> Expelled(states, events, p, n) {
      PoolConfigured(states, events, n);
      OutExactlyWhen(states, events, p, n);
    }
  }

  lemma {:induction false} PoolConfigured(states: seq<State>, events: seq<Event>, n: nat)
    requires Path(states, events) && n <= |events| && states[0] == Start(states[0].configured)
    ensures states[n].pool <= states[n].configured == states[0].configured
  {
    if n > 0 {
      PoolConfigured(states, events, n - 1);
      assert states[n] == Step(states[n - 1], events[n - 1]);
    }
  }

  /** Blocking and unblocking take effect at once and each leave one mark to come. */
  lemma ChangeMeans(s: State, prefix: Prefix)
    ensures var t := Step(s, Block(prefix));
            prefix in t.blocked && t.changing[prefix] == s.changing[prefix] + 1 && t.dirty == s.dirty
    ensures var t := Step(s, Unblock(prefix));
            prefix !in t.blocked && t.changing[prefix] == s.changing[prefix] + 1 && t.dirty == s.dirty
    ensures s.changing[prefix] > 0 ==>
              Enabled(s, MarkChange(prefix)) && Step(s, MarkChange(prefix)).dirty
              && Step(s, MarkChange(prefix)).changing[prefix] == s.changing[prefix] - 1
  {
  }

  /** No refresh begins while another is in flight, which the code does not enforce. */
  predicate Exclusive(s: State, e: Event) { e.Swap? ==> s.refreshes == map[] }

  predicate ExclusiveRun(s: State, events: seq<Event>)
    decreases events
  {
    events == [] ||
    (Enabled(s, events[0]) && Exclusive(s, events[0]) && ExclusiveRun(Step(s, events[0]), events[1..]))
  }

  /** A blocked prefix in the pool has its dirty mark still to come, or a refresh is under way
      or due. */
  ghost predicate BlockedLeaves(s: State) {
    && (forall a, b | a in s.refreshes && b in s.refreshes :: a == b)
    && (forall p | p in s.blocked && p in s.pool :: p in s.changing || s.dirty || s.refreshes != map[])
    && (forall a | a in s.refreshes && !s.refreshes[a].Swapped? ::
          forall p | p in s.blocked && p !in s.refreshes[a].blocked :: p in s.changing || s.dirty)
    && (forall a | a in s.refreshes && s.refreshes[a].Reloaded? :: s.pool !! s.refreshes[a].blocked)
  }

  lemma StepLeavesBlocked(s: State, e: Event)
    requires BlockedLeaves(s) && Enabled(s, e) && Exclusive(s, e)
    ensures BlockedLeaves(Step(s, e))
  {
    if e.Copy? || (e.Swap? && s.dirty) || (e.Reload? && e.ok) {
      assert e.caller in Step(s, e).refreshes;
    }
    if e.Finish? {
      forall p | p in s.blocked && p in s.pool ensures p in s.changing || s.dirty {
        assert p !in s.refreshes[e.caller].blocked;
      }
    }
  }

  /** So with one refresh at a time the copy last reloaded is never too old once nothing is
      dirty or under way. */
  lemma {:induction false} BlockedPrefixesLeave(s: State, events: seq<Event>, t: State)
    requires BlockedLeaves(s) && Run(s, events, t) && ExclusiveRun(s, events)
    ensures BlockedLeaves(t)
    ensures t.refreshes == map[] && !t.dirty && t.changing == multiset{} ==> t.blocked !! t.pool
    decreases events
  {
    if events != [] {
      StepLeavesBlocked(s, events[0]);
      BlockedPrefixesLeave(Step(s, events[0]), events[1..], t);
    }
  }

  /** A refresh holds the empty copy it took before the prefix was disabled. */
  function Stale(prefix: Prefix): State { Start({prefix}).(refreshes := map[1 := Holding({})]) }

  function Disabled(prefix: Prefix): State {
    Stale(prefix).(blocked := {prefix}, dirty := true)
  }

  /** A second refresh has come and gone. */
  function Refreshed(prefix: Prefix): State { Stale(prefix).(blocked := {prefix}) }

  function Revived(prefix: Prefix): State {
    Start({prefix}).(blocked := {prefix}, pool := {prefix})
  }

  ghost predicate Reaches(s: State, t: State) { exists events :: Run(s, events, t) }

  lemma ReachesItself(s: State)
    ensures Reaches(s, s)
  {
    assert Run(s, [], s);
  }

  lemma ReachesAfter(s: State, e: Event, t: State)
    requires Enabled(s, e) && Reaches(Step(s, e), t)
    ensures Reaches(s, t)
  {
    var rest :| Run(Step(s, e), rest, t);
    assert ([e] + rest)[1..] == rest;
    assert Run(s, [e] + rest, t);
  }

  lemma StaleIsReached(prefix: Prefix, t: State)
    requires Reaches(Stale(prefix), t)
    ensures Reaches(Start({prefix}), t)
  {
    hide Reaches;
    var s0, s3 := Start({prefix}), Stale(prefix);
    var s1 := s0.(dirty := true, swapping := {1});
    var s2 := s0.(refreshes := map[1 := Swapped]);
    assert Step(s0, RefreshNow(1)) == s1 && Step(s1, Swap(1)) == s2 && Step(s2, Copy(1)) == s3;
    ReachesAfter(s2, Copy(1), t);
    ReachesAfter(s1, Swap(1), t);
    ReachesAfter(s0, RefreshNow(1), t);
  }

  lemma DisabledIsReached(prefix: Prefix, t: State)
    requires Reaches(Disabled(prefix), t)
    ensures Reaches(Stale(prefix), t)
  {
    hide Reaches;
    var s3, s6 := Stale(prefix), Disabled(prefix);
    var s4 := s3.(blocked := {prefix}, changing := multiset{prefix});
    var s5 := s3.(blocked := {prefix}, dirty := true);
    assert Step(s3, Block(prefix)) == s4 && Step(s4, MarkChange(prefix)) == s5;
    assert Step(s5, RemovePrefix(prefix)) == s6;
    ReachesAfter(s5, RemovePrefix(prefix), t);
    ReachesAfter(s4, MarkChange(prefix), t);
    ReachesAfter(s3, Block(prefix), t);
  }

  /** The second refresh holds a copy that has the prefix. */
  function Refreshing(prefix: Prefix): State {
    Disabled(prefix).(dirty := false, refreshes := map[1 := Holding({}), 2 := Holding({prefix})])
  }

  lemma RefreshingIsReached(prefix: Prefix, t: State)
    requires Reaches(Refreshing(prefix), t)
    ensures Reaches(Disabled(prefix), t)
  {
    hide Reaches;
    var s6, s9 := Disabled(prefix), Refreshing(prefix);
    var s7 := s6.(swapping := {2});
    var s8 := s9.(refreshes := map[1 := Holding({}), 2 := Swapped]);
    assert Step(s6, RefreshNow(2)) == s7;
    assert Step(s7, Swap(2)) == s8;
    assert Step(s8, Copy(2)) == s9;
    ReachesAfter(s8, Copy(2), t);
    ReachesAfter(s7, Swap(2), t);
    ReachesAfter(s6, RefreshNow(2), t);
  }

  lemma RefreshedIsReached(prefix: Prefix, t: State)
    requires Reaches(Refreshed(prefix), t)
    ensures Reaches(Refreshing(prefix), t)
  {
    hide Reaches;
    var s9, s11 := Refreshing(prefix), Refreshed(prefix);
    var s10 := s11.(refreshes := map[1 := Holding({}), 2 := Reloaded({prefix})]);
    assert Step(s9, Reload(2, true)) == s10;
    assert s10.refreshes - {2} == s11.refreshes;
    assert Step(s10, Finish(2, true)) == s11;
    ReachesAfter(s10, Finish(2, true), t);
    ReachesAfter(s9, Reload(2, true), t);
  }

  /** With two refreshes in flight an older copy can be reloaded last: every call has returned,
      nothing is dirty, and the disabled prefix is back in the pool. */
  lemma OverlappingRefreshRevives(prefix: Prefix)
    ensures var t := Revived(prefix);
            && Reaches(Start({prefix}), t)
            && t.refreshes == map[] && t.swapping == {} && !t.dirty && t.changing == multiset{}
            && prefix in t.blocked && prefix in t.pool
  {
    hide Reaches;
    var s11, t := Refreshed(prefix), Revived(prefix);
    var s12 := t.(refreshes := map[1 := Reloaded({})]);
    assert Step(s11, Reload(1, true)) == s12 && Step(s12, Finish(1, true)) == t;
    ReachesItself(t);
    ReachesAfter(s12, Finish(1, true), t);
    ReachesAfter(s11, Reload(1, true), t);
    RefreshedIsReached(prefix, t);
    RefreshingIsReached(prefix, t);
    DisabledIsReached(prefix, t);
    StaleIsReached(prefix, t);
  }

  // ------------------------------------------------------------- atomic operations

  /** The shared fields. Each method is one atomic operation of the code and moves them from
      showing a state to showing its successor. */
  class Flags {
    var dirty: bool
    var token: bool
    var blocked: set<Prefix>

    ghost predicate Shows(s: State)
      reads this
    {
      dirty == s.dirty && token == s.token && blocked == s.blocked
    }

    constructor (ghost configured: set<Prefix>)
      ensures Shows(Start(configured))
    {
      dirty, token, blocked := false, false, {};
    }

    /** RequestRefresh's store, then its non-blocking send on the one-slot channel. */
    method MarkRequest(request: nat, ghost s: State)
      requires Shows(s) && Enabled(s, Mark(request))
      modifies this
      ensures Shows(Step(s, Mark(request)))
    {
      dirty := true;
    }

    method TryWake(request: nat, ghost s: State)
      requires Shows(s) && Enabled(s, Wake(request))
      modifies this
      ensures Shows(Step(s, Wake(request)))
    {
      if !token { token := true; }
    }

    method TakeToken(ghost s: State) returns (woken: bool)
      requires Shows(s) && !s.stopped && WORKER !in s.swapping && WORKER !in s.refreshes
      modifies this
      ensures woken <==> Enabled(s, Take)
      ensures Shows(if woken then Step(s, Take) else s)
    {
      woken := token;
      token := false;
    }

    /** The swap that decides whether refreshIfDirty works or returns. */
    method SwapDirty(caller: nat, ghost s: State) returns (refresh: bool)
      requires Shows(s) && Enabled(s, Swap(caller)) && caller !in s.refreshes
      modifies this
      ensures Shows(Step(s, Swap(caller)))
      ensures refresh <==> caller in Step(s, Swap(caller)).refreshes
    {
      refresh := dirty;
      dirty := false;
    }

    method CopyBlocked(caller: nat, ghost s: State) returns (copy: set<Prefix>)
      requires Shows(s) && Enabled(s, Copy(caller))
      ensures Shows(Step(s, Copy(caller))) && Step(s, Copy(caller)).refreshes[caller] == Holding(copy)
    {
      copy := blocked;
    }
  }
}
