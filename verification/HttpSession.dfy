/** internal/adapter/mcp/http.go: the session of the streamable HTTP transport, its fallback to
    the legacy transport, and what may be sent again after a stale session. */
module HttpSession {
  import opened Common

  datatype Mode = Unknown | Streamable | Legacy

  /** How the server answers one POST; a session of 0 is an absent header. */
  datatype Reply = Answer(session: nat) | Stale | LegacyRequired | Failed

  datatype Method = Initialize | Ping | ListTools | ListResources | ListTemplates | ListPrompts | Business(name: string)

  /** safeReconnectReplay. */
  predicate Replayable(m: Method) { !m.Business? }

  /** What the server and the connections do while one request is sent. */
  datatype Exchange = Exchange(streamable: Reply, connects: bool, legacy: Reply)

  /** How a reconnection fares: whether the legacy stream reopens, the two messages it sends, and
      whether the answer to the first decodes. */
  datatype Repair = Repair(connects: bool, initialize: Exchange, decodes: bool, notify: Exchange)

  /** The POSTs that carried a request's ID. */
  function PostsOf(posts: seq<Option<nat>>, id: nat): nat {
    if posts == [] then 0
    else PostsOf(posts[..|posts| - 1], id) + (if posts[|posts| - 1] == Some(id) then 1 else 0)
  }

  lemma {:induction false} PostsConcat(a: seq<Option<nat>>, b: seq<Option<nat>>, id: nat)
    ensures PostsOf(a + b, id) == PostsOf(a, id) + PostsOf(b, id)
  {
    if b == [] {
      assert a + b == a;
    } else {
      assert (a + b)[..|a + b| - 1] == a + b[..|b| - 1];
      PostsConcat(a, b[..|b| - 1], id);
    }
  }

  lemma {:induction false} NoPosts(posts: seq<Option<nat>>, id: nat)
    requires Some(id) !in posts
    ensures PostsOf(posts, id) == 0
  {
    if posts != [] {
      NoPosts(posts[..|posts| - 1], id);
    }
  }

  /** What one send of a message posts: itself, and in an unknown mode once more when the server
      asks for the legacy transport. */
  function Sent(mode: Mode, id: Option<nat>, x: Exchange): seq<Option<nat>> {
    if mode == Unknown && x.streamable == LegacyRequired && x.connects then [id, id] else [id]
  }

  function SentReply(mode: Mode, x: Exchange): Reply {
    if mode == Legacy then x.legacy
    else if mode == Unknown && x.streamable == LegacyRequired then (if x.connects then x.legacy else Failed)
    else x.streamable
  }

  function SentMode(mode: Mode, x: Exchange): Mode {
    if mode != Unknown then mode
    else if x.streamable == LegacyRequired && x.connects then Legacy
    else if x.streamable.Answer? then Streamable
    else Unknown
  }

  /** A streamable answer's session is kept, whatever follows. */
  function SentSession(mode: Mode, session: nat, x: Exchange): nat {
    if mode != Legacy && x.streamable.Answer? && x.streamable.session != 0 then x.streamable.session else session
  }

  /** Whether a reconnection succeeds: nothing to do, or both its messages are answered. */
  predicate Reconnects(generation: nat, observed: nat, initialized: bool, mode: Mode, repair: Repair) {
    generation != observed ||
    (initialized && (mode != Legacy || repair.connects)
     && SentReply(mode, repair.initialize).Answer? && repair.decodes
     && SentReply(SentMode(mode, repair.initialize), repair.notify).Answer?)
  }

  /** Whether the reconnection of a request works: an initialization needs no other one. */
  predicate Repaired(
    m: Method, generation: nat, observed: nat, initialized: bool, mode: Mode, repair: Repair)
  {
    if m == Initialize then Repairs(generation, observed, mode, repair)
    else Reconnects(generation, observed, initialized, mode, repair)
  }

  /** Whether a request whose first answer was stale is sent again. */
  predicate Replays(
    m: Method, generation: nat, observed: nat, initialized: bool, mode: Mode, repair: Repair)
  {
    Replayable(m) && Repaired(m, generation, observed, initialized, mode, repair)
  }

  /** The mode in which a replay finds the transport after a reconnection that succeeded. */
  function RepairedMode(m: Method, generation: nat, observed: nat, mode: Mode, repair: Repair): Mode {
    if m == Initialize || generation != observed then mode
    else SentMode(SentMode(mode, repair.initialize), repair.notify)
  }

  /** The reconnection over each transport works: another caller already did it, or the stream
      reopens where there is one and, for any request but an initialization, the two messages of a
      recorded initialization are answered. */
  predicate StreamableRepaired(m: Method, others: nat, initialized: bool, repair: Repair) {
    others > 0 || m == Initialize
    || (initialized && repair.initialize.streamable.Answer? && repair.decodes && repair.notify.streamable.Answer?)
  }

  predicate LegacyRepaired(m: Method, others: nat, initialized: bool, repair: Repair) {
    others > 0
    || (repair.connects
        && (m == Initialize
            || (initialized && repair.initialize.legacy.Answer? && repair.decodes && repair.notify.legacy.Answer?)))
  }

  /** What one call answers, and how often it posts itself. A business request is never sent again:
      it posts once, and once more only when an unknown mode falls back to the legacy transport.
      Any other is sent again after a stale answer and a reconnection that worked. */
  predicate Sends(
    m: Method, mode: Mode, refused: bool, first: Exchange, others: nat, initialized: bool, repair: Repair,
    second: Exchange, reply: Reply, count: nat)
  {
    if refused then reply == Failed && count == 0
    else
      match mode
      case Streamable =>
        if first.streamable != Stale then reply == first.streamable && count == 1
        else if !m.Business? && StreamableRepaired(m, others, initialized, repair) then
          reply == second.streamable && count == 2
        else reply == Failed && count == 1
      case Legacy =>
        if first.legacy != Stale then reply == first.legacy && count == 1
        else if !m.Business? && LegacyRepaired(m, others, initialized, repair) then reply == second.legacy && count == 2
        else reply == Failed && count == 1
      case Unknown =>
        if first.streamable == LegacyRequired then
          if !first.connects then reply == Failed && count == 1
          else if first.legacy != Stale then reply == first.legacy && count == 2
          else if !m.Business? && LegacyRepaired(m, others, initialized, repair) then
            reply == second.legacy && count == 3
          else reply == Failed && count == 2
        else if first.streamable != Stale then reply == first.streamable && count == 1
        else if m.Business? then reply == Failed && count == 1
        else SendsAgainUnknown(m, others, initialized, repair, second, reply, count)
  }

  /** The mode is still unknown after a stale answer: the reconnection may settle it. */
  predicate SendsAgainUnknown(
    m: Method, others: nat, initialized: bool, repair: Repair, second: Exchange, reply: Reply, count: nat)
  {
    if others > 0 || m == Initialize then
      if second.streamable == LegacyRequired then
        if second.connects then reply == second.legacy && count == 3 else reply == Failed && count == 2
      else reply == second.streamable && count == 2
    else if initialized && repair.initialize.streamable.Answer? && repair.decodes && repair.notify.streamable.Answer?
    then reply == second.streamable && count == 2
    else if initialized && repair.initialize.streamable == LegacyRequired && repair.initialize.connects
            && repair.initialize.legacy.Answer? && repair.decodes && repair.notify.legacy.Answer?
    then reply == second.legacy && count == 2
    else reply == Failed && count == 1
  }

  /** That is what the transport computes, send by send. */
  lemma SendsMeans(
    m: Method, mode: Mode, first: Exchange, generation: nat, others: nat, initialized: bool, repair: Repair,
    second: Exchange, id: nat)
    ensures Sends(m, mode, true, first, others, initialized, repair, second, Failed, 0)
    ensures var reply := SentReply(mode, first); var count := |Sent(mode, Some(id), first)|;
            reply != Stale ==> Sends(m, mode, false, first, others, initialized, repair, second, reply, count)
    ensures var stale, now := SentMode(mode, first), generation + others;
            var replayed := Replays(m, now, generation, initialized, stale, repair);
            var known := RepairedMode(m, now, generation, stale, repair);
            var reply := if replayed then SentReply(known, second) else Failed;
            var count := |Sent(mode, Some(id), first)| + (if replayed then |Sent(known, Some(id), second)| else 0);
            SentReply(mode, first) == Stale ==>
              Sends(m, mode, false, first, others, initialized, repair, second, reply, count)
  {
  }

  class HTTPTransport {
    var mode: Mode
    var session: nat
    var generation: nat
    var nextID: nat
    /** Initialize parameters have been recorded. */
    var initialized: bool
    /** Everything posted, in order; notifications carry no ID. */
    var posts: seq<Option<nat>>

    ghost predicate Valid()
      reads this
    {
      forall p | p in posts && p.Some? :: p.value < nextID
    }

    constructor (legacy: bool)
      ensures Valid() && mode == (if legacy then Legacy else Unknown) && posts == [] && !initialized
    {
      mode, session, generation, nextID, initialized, posts := if legacy then Legacy else Unknown, 0, 0, 0, false, [];
    }

    method RequestOnce(id: Option<nat>, x: Exchange) returns (reply: Reply)
      requires Valid() && (id.Some? ==> id.value < nextID)
      modifies this`mode, this`session, this`posts
      ensures Valid() && posts == old(posts) + Sent(old(mode), id, x)
      ensures reply == SentReply(old(mode), x) && mode == SentMode(old(mode), x)
      ensures session == SentSession(old(mode), old(session), x)
      ensures reply.Answer? ==> mode != Unknown
    {
      var observed := mode;
      posts := posts + [id];
      if observed == Legacy { return x.legacy; }
      reply := x.streamable;
      if reply.Answer? && reply.session != 0 { session := reply.session; }
      if reply == LegacyRequired && observed == Unknown {
        if !x.connects { return Failed; }
        mode := Legacy;
        posts := posts + [id];
        return x.legacy;
      }
      if reply.Answer? && observed == Unknown { mode := Streamable; }
    }

    /** reconnectInitial: the session is dropped and the generation advanced, unless another
        observer of that generation already did. */
    method ReconnectInitial(observed: nat, repair: Repair) returns (ok: bool)
      modifies this`session, this`generation
      ensures ok <==> Repairs(old(generation), observed, old(mode), repair)
      ensures generation == AdvancedBy(old(generation), observed, old(mode), repair)
      ensures session == if generation != old(generation) && mode != Legacy then 0 else old(session)
    {
      if generation != observed { return true; }
      if mode == Legacy {
        if !repair.connects { return false; }
        generation := generation + 1;
        return true;
      }
      session := 0;
      generation := generation + 1;
      ok := true;
    }

    /** reconnect: the same, followed by a new initialization under a fresh request ID. */
    method Reconnect(observed: nat, repair: Repair) returns (ok: bool)
      requires Valid()
      modifies this`mode, this`session, this`generation, this`nextID, this`posts
      ensures Valid() && nextID >= old(nextID)
      ensures old(posts) <= posts && forall p | p in posts[|old(posts)|..] :: p.None? || p.value >= old(nextID)
      ensures generation == if old(initialized) then AdvancedBy(old(generation), observed, old(mode), repair)
                            else old(generation)
      ensures old(mode) != Unknown ==> mode == old(mode)
      ensures old(generation) != observed ==> posts == old(posts) && session == old(session)
      ensures ok <==> Reconnects(old(generation), observed, old(initialized), old(mode), repair)
      ensures ok && old(generation) == observed ==>
                mode == SentMode(SentMode(old(mode), repair.initialize), repair.notify)
      ensures old(generation) != observed ==> mode == old(mode)
      ensures ok && old(generation) == observed ==>
                var kept := if old(mode) == Legacy then old(session) else 0;
                var cleared := SentSession(old(mode), kept, repair.initialize);
                session == SentSession(SentMode(old(mode), repair.initialize), cleared, repair.notify)
    {
      if generation != observed { return true; }
      if !initialized { return false; }
      if mode == Legacy {
        if !repair.connects { return false; }
      } else {
        session := 0;
      }
      generation := generation + 1;
      var id := nextID;
      nextID := nextID + 1;
      var reply := RequestOnce(Some(id), repair.initialize);
      if !reply.Answer? || !repair.decodes { return false; }
      reply := RequestOnce(None, repair.notify);
      ok := reply.Answer?;
    }

    /** The reconnection a stale answer asks for. */
    method RepairFor(m: Method, observed: nat, repair: Repair) returns (ok: bool)
      requires Valid()
      modifies this`mode, this`session, this`generation, this`nextID, this`posts
      ensures Valid() && nextID >= old(nextID)
      ensures old(posts) <= posts && forall p | p in posts[|old(posts)|..] :: p.None? || p.value >= old(nextID)
      ensures old(mode) != Unknown ==> mode == old(mode)
      ensures ok <==> Repaired(m, old(generation), observed, old(initialized), old(mode), repair)
      ensures ok ==> mode == RepairedMode(m, old(generation), observed, old(mode), repair)
    {
      hide Reconnects, Repairs, SentMode, SentSession, AdvancedBy;
      if m == Initialize {
        ok := ReconnectInitial(observed, repair);
      } else {
        ok := Reconnect(observed, repair);
      }
    }

    /** One call. `others` is how often concurrent callers advanced the generation between this
        call's first answer and its own reconnection; `refused` stands for the checks before the
        first POST. A business request is posted once whatever happens, a replayable one at most
        once more, and a mode still unknown adds the one POST of the legacy fallback. */
    method Request(m: Method, refused: bool, first: Exchange, others: nat, repair: Repair, second: Exchange)
      returns (reply: Reply, ghost id: nat)
      requires Valid()
      modifies this
      ensures Valid() && id == old(nextID) < nextID
      ensures PostsOf(posts, id) <= (if old(mode) == Unknown then 2 else 1) + (if Replayable(m) then 1 else 0)
      ensures !Replayable(m) ==> PostsOf(posts, id) == if refused then 0 else |Sent(old(mode), Some(id), first)|
      ensures forall earlier: nat | earlier < old(nextID) :: PostsOf(posts, earlier) == PostsOf(old(posts), earlier)
      ensures old(mode) != Unknown ==> mode == old(mode)
      ensures reply.Answer? ==> mode != Unknown
      ensures refused ==> reply == Failed && posts == old(posts)
      ensures !refused && SentReply(old(mode), first) != Stale ==>
                reply == SentReply(old(mode), first) && PostsOf(posts, id) == |Sent(old(mode), Some(id), first)|
      ensures !refused && SentReply(old(mode), first) == Stale ==>
                var stale, now := SentMode(old(mode), first), old(generation) + others;
                var replayed := Replays(m, now, old(generation), old(initialized), stale, repair);
                var known := RepairedMode(m, now, old(generation), stale, repair);
                && reply == (if replayed then SentReply(known, second) else Failed)
                && PostsOf(posts, id) == |Sent(old(mode), Some(id), first)|
                                         + (if replayed then |Sent(known, Some(id), second)| else 0)
      ensures Sends(m, old(mode), refused, first, others, old(initialized), repair, second, reply, PostsOf(posts, id))
    {
      SendsMeans(m, mode, first, generation, others, initialized, repair, second, nextID);
      hide Sends, PostsOf, Sent, SentMode, SentReply, Repairs, Reconnects, RepairedMode, SentSession;
      id := nextID;
      var own := nextID;
      nextID := nextID + 1;
      NoPosts(posts, own);
      if refused { return Failed, own; }
      if m == Initialize { initialized := true; }
      var observed := generation;
      reply := RequestOnce(Some(own), first);
      OwnPosts(old(posts), old(mode), first, own);
      ModeKept(old(mode), first);
      if reply != Stale { return; }
      generation := generation + others;
      ghost var before := posts;
      var ok := RepairFor(m, observed, repair);
      ghost var repaired := posts[|before|..];
      assert posts == before + repaired;
      ForeignPosts(before, repaired, own);
      if !ok || !Replayable(m) { return Failed, own; }
      ghost var middle, known := posts, mode;
      reply := RequestOnce(Some(own), second);
      OwnPosts(middle, known, second, own);
      ModeKept(known, second);
      TwoSends(m, old(mode), first, old(generation) + others, observed, repair, second, own);
    }
  }

  lemma SentCount(sent: seq<Option<nat>>, id: nat, other: nat)
    requires sent == [Some(id)] || sent == [Some(id), Some(id)]
    ensures PostsOf(sent, other) == if other == id then |sent| else 0
  {
    assert sent[..0] == [];
    assert sent[|sent| - 1] == Some(id);
    assert PostsOf([Some(id)], other) == if other == id then 1 else 0 by {
      assert [Some(id)][..0] == [];
    }
    if |sent| == 2 {
      assert sent[..1] == [Some(id)];
    } else {
      assert sent == [Some(id)];
    }
  }

  lemma ModeKept(mode: Mode, x: Exchange)
    ensures mode != Unknown ==> SentMode(mode, x) == mode
  {
  }

  /** What a replay adds, over the mode the first send and the reconnection leave. */
  lemma TwoSends(
    m: Method, mode: Mode, first: Exchange, generation: nat, observed: nat, repair: Repair, second: Exchange, id: nat)
    ensures var known := RepairedMode(m, generation, observed, SentMode(mode, first), repair);
            |Sent(mode, Some(id), first)| + |Sent(known, Some(id), second)| <= (if mode == Unknown then 2 else 1) + 1
  {
  }

  lemma OwnPosts(before: seq<Option<nat>>, mode: Mode, x: Exchange, id: nat)
    ensures var sent := Sent(mode, Some(id), x);
            && |sent| <= (if mode == Unknown then 2 else 1)
            && PostsOf(before + sent, id) == PostsOf(before, id) + |sent|
            && forall other: nat | other != id :: PostsOf(before + sent, other) == PostsOf(before, other)
  {
    var sent := Sent(mode, Some(id), x);
    forall other: nat
      ensures PostsOf(before + sent, other) == PostsOf(before, other) + (if other == id then |sent| else 0)
    {
      PostsConcat(before, sent, other);
      SentCount(sent, id, other);
    }
  }

  lemma ForeignPosts(before: seq<Option<nat>>, repaired: seq<Option<nat>>, id: nat)
    requires forall p | p in repaired :: p.None? || p.value > id
    ensures forall other: nat | other <= id :: PostsOf(before + repaired, other) == PostsOf(before, other)
  {
    forall other: nat | other <= id ensures PostsOf(before + repaired, other) == PostsOf(before, other) {
      PostsConcat(before, repaired, other);
      NoPosts(repaired, other);
    }
  }

  // ------------------------------------------------------------------ generations

  /** Whether a reconnection attempt that observed a generation gets past its own lock. */
  predicate Repairs(generation: nat, observed: nat, mode: Mode, repair: Repair) {
    generation != observed || mode != Legacy || repair.connects
  }

  function AdvancedBy(generation: nat, observed: nat, mode: Mode, repair: Repair): nat {
    if generation == observed && (mode != Legacy || repair.connects) then generation + 1 else generation
  }

  /** An attempt advances the generation it observed, unless a legacy stream does not reopen, and
      never one that has moved on. */
  lemma AdvancesExactlyWhen(generation: nat, observed: nat, mode: Mode, repair: Repair)
    ensures AdvancedBy(generation, observed, mode, repair) ==
            if observed == generation && !(mode == Legacy && !repair.connects) then observed + 1 else generation
  {
  }

  /** A session a streamable answer names is kept; nothing else changes the session of a send. */
  lemma SessionMeans(mode: Mode, session: nat, x: Exchange)
    ensures mode == Legacy || !x.streamable.Answer? || x.streamable == Answer(0) ==>
              SentSession(mode, session, x) == session
    ensures mode != Legacy && x.streamable.Answer? && x.streamable.session > 0 ==>
              SentSession(mode, session, x) == x.streamable.session
  {
  }

  /** Attempts of concurrent callers, in the order in which they take the reconnection lock. */
  datatype Attempt = Attempt(observed: nat, mode: Mode, repair: Repair)

  function After(generation: nat, attempts: seq<Attempt>): nat {
    if attempts == [] then generation
    else
      var a := attempts[|attempts| - 1];
      AdvancedBy(After(generation, attempts[..|attempts| - 1]), a.observed, a.mode, a.repair)
  }

  /** How many attempts that observed `g` advanced the generation. */
  function Advances(generation: nat, attempts: seq<Attempt>, g: nat): nat {
    if attempts == [] then 0
    else
      var rest := attempts[..|attempts| - 1];
      var a := attempts[|attempts| - 1];
      Advances(generation, rest, g)
      + if a.observed == g && After(generation, attempts) != After(generation, rest) then 1 else 0
  }

  /** However many callers saw one generation go stale, it is advanced at most once, and exactly
      once when it is advanced past. */
  lemma {:induction false} OneAdvancePerGeneration(generation: nat, attempts: seq<Attempt>, g: nat)
    ensures After(generation, attempts) >= generation
    ensures Advances(generation, attempts, g) == if generation <= g < After(generation, attempts) then 1 else 0
  {
    if attempts != [] {
      OneAdvancePerGeneration(generation, attempts[..|attempts| - 1], g);
    }
  }
}
