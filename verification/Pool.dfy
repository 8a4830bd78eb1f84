/** internal/adapter/mcp/pool.go: the set of connected servers, the lists published from them,
    and the tool name collisions between them. Lifecycle operations hold one lock, so each is
    one step; breaker reports of calls in flight come between them. */
module Pool {
  import opened Common
  import opened Routing
  import opened Breaker

  /** Server names, and the names and URIs of what servers offer, are only compared and
      ordered, so numbers stand for them. Server names are not empty. */
  type Name = WorkspaceId

  datatype Kind = Tools | Resources | Templates | Prompts

  /** What discovery found and the configuration admits. */
  datatype Offer = Offer(tools: seq<nat>, resources: seq<nat>, templates: seq<nat>, prompts: seq<nat>) {
    function Of(kind: Kind): seq<nat> {
      match kind
      case Tools => tools
      case Resources => resources
      case Templates => templates
      case Prompts => prompts
    }
  }

  const NOTHING := Offer([], [], [], [])

  /** A server with its connection, numbered by the operation that opened it, if it has one. */
  datatype Server = Server(hash: nat, connection: Option<nat>, offer: Offer, collided: bool, health: Tracker)

  /** A server's breaker: what its tracker was made with, and where it stands. */
  datatype Tracker = Tracker(config: Config, snapshot: Snapshot) {
    predicate Valid() { Positive(config) && Consistent(config, snapshot) }

    predicate Admits() { snapshot.state in {Healthy, Degraded} }

    function After(e: Event, now: int): (t: Tracker)
      requires Valid()
      ensures t.Valid()
    {
      this.(snapshot := Moved(config, snapshot, e, now))
    }
  }

  function NewTracker(requested: Config, now: int): (t: Tracker)
    ensures t.Valid()
  {
    Tracker(requested.Effective(), Snapshot(Starting, 0, "", now, None))
  }

  /** A configured server: the hash of its settings and its breaker's. */
  datatype Settings = Settings(hash: nat, breaker: Config)

  type Servers = map<Name, Server>

  datatype Item = Item(server: Name, key: nat)

  /** A connection: the server and the number of the operation that opened it. */
  type Handle = (Name, nat)

  // -------------------------------------------------------------- published lists

  /** Tools are ordered by name alone, everything else by server first. */
  predicate Precedes(kind: Kind, a: Item, b: Item) {
    if kind.Tools? || a.server == b.server then a.key <= b.key else a.server < b.server
  }

  ghost predicate Sorted(kind: Kind, s: seq<Item>) {
    s == [] || ((forall y | y in s[1..] :: Precedes(kind, s[0], y)) && Sorted(kind, s[1..]))
  }

  function ItemsOf(server: Name, keys: seq<nat>): seq<Item> {
    if keys == [] then [] else [Item(server, keys[0])] + ItemsOf(server, keys[1..])
  }

  lemma {:induction false} ItemCount(server: Name, keys: seq<nat>, item: Item)
    ensures multiset(ItemsOf(server, keys))[item] == if item.server == server then multiset(keys)[item.key] else 0
  {
    if keys != [] {
      assert keys == [keys[0]] + keys[1..];
      ItemCount(server, keys[1..], item);
    }
  }

  /** How often an item is offered by a connected server. */
  ghost function Offered(servers: Servers, kind: Kind, item: Item): nat {
    if item.server in servers && servers[item.server].connection.Some?
    then multiset(servers[item.server].offer.Of(kind))[item.key] else 0
  }

  /** The sorted union of what the connected servers offer. */
  ghost predicate Published(list: seq<Item>, servers: Servers, kind: Kind) {
    Sorted(kind, list) && forall item :: multiset(list)[item] == Offered(servers, kind, item)
  }

  function InsertItem(kind: Kind, x: Item, s: seq<Item>): (r: seq<Item>)
    ensures multiset(r) == multiset(s) + multiset{x}
  {
    if s == [] then [x]
    else if Precedes(kind, x, s[0]) then [x] + s
    else
      assert s == [s[0]] + s[1..];
      [s[0]] + InsertItem(kind, x, s[1..])
  }

  lemma {:induction false} InsertItemSorted(kind: Kind, x: Item, s: seq<Item>)
    requires Sorted(kind, s)
    ensures Sorted(kind, InsertItem(kind, x, s))
  {
    if s != [] {
      if Precedes(kind, x, s[0]) {
        assert ([x] + s)[1..] == s;
        forall y | y in s ensures Precedes(kind, x, y) {
          assert y == s[0] || y in s[1..];
        }
      } else {
        InsertItemSorted(kind, x, s[1..]);
        var q := InsertItem(kind, x, s[1..]);
        forall y | y in q ensures Precedes(kind, s[0], y) {
          assert y in multiset(s[1..]) + multiset{x};
        }
        assert ([s[0]] + q)[1..] == q;
      }
    }
  }

  /** Tools stand by name, everything else by server and then by name. */
  lemma {:induction false} SortedOrder(kind: Kind, s: seq<Item>, i: nat, j: nat)
    requires Sorted(kind, s) && i < j < |s|
    ensures if kind == Tools then s[i].key <= s[j].key
            else s[i].server < s[j].server || (s[i].server == s[j].server && s[i].key <= s[j].key)
  {
    if i == 0 {
      assert s[1..][j - 1] == s[j] && s[j] in s[1..];
    } else {
      SortedOrder(kind, s[1..], i - 1, j - 1);
    }
  }

  /** The sort of one published list. */
  method SortItems(kind: Kind, items: seq<Item>) returns (r: seq<Item>)
    ensures Sorted(kind, r) && multiset(r) == multiset(items)
  {
    r := [];
    for index := 0 to |items|
      invariant Sorted(kind, r) && multiset(r) == multiset(items[..index])
    {
      assert items[..index + 1] == items[..index] + [items[index]];
      InsertItemSorted(kind, items[index], r);
      r := InsertItem(kind, items[index], r);
    }
    assert items[..|items|] == items;
  }

  method CollectItems(servers: Servers, kind: Kind) returns (items: seq<Item>)
    ensures forall item :: multiset(items)[item] == Offered(servers, kind, item)
  {
    items := [];
    var todo := servers.Keys;
    while todo != {}
      invariant todo <= servers.Keys
      invariant forall item :: multiset(items)[item] == if item.server in todo then 0 else Offered(servers, kind, item)
      decreases |todo|
    {
      var name :| name in todo;
      todo := todo - {name};
      if servers[name].connection.Some? {
        var offer := servers[name].offer;
        var more := ItemsOf(name, offer.Of(kind));
        forall item: Item
          ensures multiset(more)[item] == if item.server == name then multiset(offer.Of(kind))[item.key] else 0
        {
          ItemCount(name, offer.Of(kind), item);
        }
        items := items + more;
      }
    }
  }

  /** aggregateServerRuntimes, one list of it. */
  method Aggregate(servers: Servers, kind: Kind) returns (list: seq<Item>)
    ensures Published(list, servers, kind)
  {
    var items := CollectItems(servers, kind);
    list := SortItems(kind, items);
  }

  // ------------------------------------------------------------------ collisions

  /** One server's tools against the owners registered so far; the scan stops at the first
      tool that has an owner, which may be the server itself. */
  function ScanTools(tools: seq<nat>, name: Name, owners: map<nat, Name>): (map<nat, Name>, bool) {
    if tools == [] then (owners, false)
    else if tools[0] in owners then (owners, true)
    else ScanTools(tools[1..], name, owners[tools[0] := name])
  }

  /** The owners and the servers in conflict after scanning these names in order. */
  function Scan(names: seq<Name>, servers: Servers): (map<nat, Name>, set<Name>)
    requires forall n | n in names :: n in servers
  {
    if names == [] then (map[], {})
    else
      var last := names[|names| - 1];
      assert last in names;
      var (owners, conflicted) := Scan(names[..|names| - 1], servers);
      var (next, conflict) := ScanTools(servers[last].offer.tools, last, owners);
      (next, if conflict then conflicted + {last} else conflicted)
  }

  ghost predicate DistinctKeys(keys: seq<nat>) {
    keys == [] || (keys[0] !in keys[1..] && DistinctKeys(keys[1..]))
  }

  /** Registered owners stay; a scan without conflict registers every tool, each once. */
  lemma {:induction false} ScanToolsRegisters(tools: seq<nat>, name: Name, owners: map<nat, Name>)
    ensures var (next, conflict) := ScanTools(tools, name, owners);
            && (forall t | t in owners :: t in next && next[t] == owners[t])
            && (forall t | t in next && t !in owners :: next[t] == name && t in tools)
            && (!conflict ==> DistinctKeys(tools) && forall t | t in tools :: t !in owners && t in next)
            && (conflict ==> exists t :: t in tools && (t in owners || !DistinctKeys(tools)))
    decreases tools
  {
    if tools != [] && tools[0] !in owners {
      ScanToolsRegisters(tools[1..], name, owners[tools[0] := name]);
      assert forall t :: t in tools <==> t == tools[0] || t in tools[1..];
      if ScanTools(tools, name, owners).1 {
        ConflictExplained(tools, name, owners);
      }
    }
  }

  lemma ConflictExplained(tools: seq<nat>, name: Name, owners: map<nat, Name>)
    requires tools != [] && tools[0] !in owners
    requires exists t :: t in tools[1..] && (t in owners[tools[0] := name] || !DistinctKeys(tools[1..]))
    ensures exists t :: t in tools && (t in owners || !DistinctKeys(tools))
  {
    var t :| t in tools[1..] && (t in owners[tools[0] := name] || !DistinctKeys(tools[1..]));
    assert t in tools;
  }

  /** A server without conflict owns every tool it offers, so two of them share none. */
  lemma {:induction false} UnflaggedOwn(names: seq<Name>, servers: Servers, n: Name)
    requires (forall m | m in names :: m in servers) && Ascending(names)
    requires n in names && n !in Scan(names, servers).1
    ensures DistinctKeys(servers[n].offer.tools)
    ensures forall t | t in servers[n].offer.tools :: t in Scan(names, servers).0 && Scan(names, servers).0[t] == n
    decreases |names|
  {
    var k := |names| - 1;
    var last := names[k];
    var (owners, conflicted) := Scan(names[..k], servers);
    ScanToolsRegisters(servers[last].offer.tools, last, owners);
    PrefixAscending(names, k);
    if n != last {
      assert n in names[..k];
      UnflaggedOwn(names[..k], servers, n);
    } else {
      ConflictedWithin(names[..k], servers);
    }
  }

  lemma {:induction false} ConflictedWithin(names: seq<Name>, servers: Servers)
    requires forall m | m in names :: m in servers
    ensures forall m | m in Scan(names, servers).1 :: m in names
    decreases |names|
  {
    if names != [] {
      ConflictedWithin(names[..|names| - 1], servers);
    }
  }

  lemma {:induction false} PrefixAscending(names: seq<Name>, k: nat)
    requires Ascending(names) && k < |names|
    ensures Ascending(names[..k]) && names[k] !in names[..k]
    decreases |names|
  {
    if k > 0 {
      PrefixAscending(names[1..], k - 1);
      assert names[..k][1..] == names[1..][..k - 1];
      forall id | id in names[..k][1..] ensures names[0] < id {
        assert id in names[1..];
      }
      assert names[k] == names[1..][k - 1] && names[k] in names[1..];
    }
  }

  /** After resolution the tool names of servers without conflict are pairwise distinct, within
      a server and across servers. */
  lemma UnflaggedAreDistinct(names: seq<Name>, servers: Servers, a: Name, b: Name, tool: nat)
    requires SortedIds(names, servers.Keys) && a in servers && b in servers
    requires a !in Scan(names, servers).1 && b !in Scan(names, servers).1
    requires tool in servers[a].offer.tools && tool in servers[b].offer.tools
    ensures a == b && multiset(servers[a].offer.tools)[tool] == 1
  {
    UnflaggedOwn(names, servers, a);
    UnflaggedOwn(names, servers, b);
    DistinctCount(servers[a].offer.tools, tool);
  }

  lemma {:induction false} DistinctCount(keys: seq<nat>, key: nat)
    requires DistinctKeys(keys) && key in keys
    ensures multiset(keys)[key] == 1
  {
    assert keys == [keys[0]] + keys[1..];
    if key != keys[0] {
      DistinctCount(keys[1..], key);
    } else {
      assert key !in multiset(keys[1..]);
    }
  }

  /** The owners are servers scanned so far, each with a tool it offers. */
  lemma {:induction false} OwnersOffer(names: seq<Name>, servers: Servers, tool: nat)
    requires forall m | m in names :: m in servers
    ensures var owners := Scan(names, servers).0;
            tool in owners ==> owners[tool] in names && tool in servers[owners[tool]].offer.tools
    decreases |names|
  {
    if names != [] {
      var k := |names| - 1;
      OwnersOffer(names[..k], servers, tool);
      ScanToolsRegisters(servers[names[k]].offer.tools, names[k], Scan(names[..k], servers).0);
    }
  }

  /** A server is in conflict only over a tool it offers twice or an earlier server offers too. */
  lemma {:induction false} ConflictHasReason(names: seq<Name>, servers: Servers, n: Name)
    requires (forall m | m in names :: m in servers) && Ascending(names)
    requires n in Scan(names, servers).1
    ensures n in servers
    ensures !DistinctKeys(servers[n].offer.tools)
            || exists tool, m :: tool in servers[n].offer.tools && m in names && m < n
                                 && tool in servers[m].offer.tools
    decreases |names|
  {
    var k := |names| - 1;
    PrefixAscending(names, k);
    ConflictedWithin(names[..k], servers);
    if n in Scan(names[..k], servers).1 {
      ConflictHasReason(names[..k], servers, n);
    } else {
      var owners := Scan(names[..k], servers).0;
      ScanToolsRegisters(servers[n].offer.tools, n, owners);
      if DistinctKeys(servers[n].offer.tools) {
        var tool :| tool in servers[n].offer.tools && tool in owners;
        OwnersOffer(names[..k], servers, tool);
        var i :| 0 <= i < k && names[..k][i] == owners[tool];
        AscendingAt(names, i, k);
      }
    }
  }

  lemma HasHead(ids: seq<Name>)
    ensures ids != [] ==> ids[0] in ids
  {
  }

  lemma SameHead(a: seq<Name>, b: seq<Name>, keys: set<Name>)
    requires SortedIds(a, keys) && SortedIds(b, keys) && a != []
    ensures b != [] && a[0] == b[0]
  {
    HasHead(a);
    HasHead(b);
    HeadLeast(a, if b != [] then b[0] else 0);
    HeadLeast(b, a[0]);
  }

  lemma HeadLeast(ids: seq<Name>, id: Name)
    requires Ascending(ids)
    ensures id in ids ==> ids[0] <= id
  {
    if id in ids {
      assert id == ids[0] || id in ids[1..];
    }
  }

  /** The outcome does not depend on the order in which the map yields its names. */
  lemma {:induction false} SortedIdsUnique(a: seq<Name>, b: seq<Name>, keys: set<Name>)
    requires SortedIds(a, keys) && SortedIds(b, keys)
    ensures a == b
    decreases |a|
  {
    HasHead(a);
    HasHead(b);
    if a != [] {
      SameHead(a, b, keys);
      assert a == [a[0]] + a[1..] && b == [b[0]] + b[1..];
      forall id ensures id in a[1..] <==> id in keys - {a[0]} { assert id in a <==> id in keys; }
      forall id ensures id in b[1..] <==> id in keys - {a[0]} { assert id in b <==> id in keys; }
      SortedIdsUnique(a[1..], b[1..], keys - {a[0]});
    }
  }

  /** What resolution makes of one server: a new conflict trips its breaker, a conflict that is
      gone heals it, anything else leaves it alone. */
  function Marked(s: Server, conflict: bool, now: int): (r: Server)
    requires s.health.Valid()
    ensures r.health.Valid()
  {
    if conflict && !s.collided then s.(collided := true, health := s.health.After(Tripped, now))
    else if !conflict && s.collided then s.(collided := false, health := s.health.After(Discovered, now))
    else s
  }

  predicate Tracked(servers: Servers) { forall n | n in servers :: servers[n].health.Valid() }

  ghost predicate Resolved(before: Servers, after: Servers, names: seq<Name>, now: int)
    requires SortedIds(names, before.Keys) && Tracked(before)
  {
    && after.Keys == before.Keys
    && forall n | n in after :: after[n] == Marked(before[n], n in Scan(names, before).1, now)
  }

  /** The scan's loops: sorted names, an owner per tool, the servers in conflict. */
  method FindConflicts(servers: Servers) returns (names: seq<Name>, conflicted: set<Name>)
    ensures SortedIds(names, servers.Keys) && conflicted == Scan(names, servers).1
  {
    names := SortIds(servers.Keys);
    var owners: map<nat, Name> := map[];
    conflicted := {};
    for index := 0 to |names|
      invariant (owners, conflicted) == Scan(names[..index], servers)
    {
      assert names[..index + 1][..index] == names[..index];
      var name := names[index];
      assert name in names;
      var tools := servers[name].offer.tools;
      ghost var result := ScanTools(tools, name, owners);
      var conflict := false;
      assert tools[0..] == tools;
      for k := 0 to |tools|
        invariant !conflict && result == ScanTools(tools[k..], name, owners)
      {
        assert tools[k..][1..] == tools[k + 1..];
        if tools[k] in owners {
          conflict := true;
          break;
        }
        owners := owners[tools[k] := name];
      }
      if conflict { conflicted := conflicted + {name}; }
    }
    assert names[..|names|] == names;
  }

  /** resolveCatalogCollisions. */
  method ResolveCollisions(servers: Servers, now: int) returns (after: Servers, names: seq<Name>)
    requires Tracked(servers)
    ensures SortedIds(names, servers.Keys) && Resolved(servers, after, names, now) && Tracked(after)
  {
    var sorted, conflicted := FindConflicts(servers);
    names := sorted;
    after := servers;
    for index := 0 to |sorted|
      invariant after.Keys == servers.Keys
      invariant forall n | n in servers ::
        after[n] == if n in sorted[..index] then Marked(servers[n], n in conflicted, now) else servers[n]
    {
      PrefixKeys(sorted, servers.Keys, index);
      var name := sorted[index];
      var server := after[name];
      if name in conflicted && !server.collided {
        after := after[name := server.(collided := true, health := server.health.After(Tripped, now))];
      } else if name !in conflicted && server.collided {
        after := after[name := server.(collided := false, health := server.health.After(Discovered, now))];
      }
    }
    assert sorted[..|sorted|] == sorted;
  }

  // ------------------------------------------------------------------ invariants

  predicate HeldBy(servers: Servers, h: Handle) { h.0 in servers && servers[h.0].connection == Some(h.1) }

  /** Exactly the connections opened and not closed are held, each by its server. */
  ghost predicate Conserved(servers: Servers, serial: nat, everOpened: set<Handle>, closed: set<Handle>) {
    && closed <= everOpened
    && (forall h | h in everOpened :: h.1 < serial)
    && forall h: Handle :: HeldBy(servers, h) <==> h in everOpened && h !in closed
  }

  /** No tool name is offered twice by servers that are not flagged. */
  ghost predicate UnflaggedDistinct(servers: Servers) {
    forall a, b, tool |
      a in servers && b in servers && tool in servers[a].offer.tools && tool in servers[b].offer.tools ::
      servers[a].collided || servers[b].collided || (a == b && multiset(servers[a].offer.tools)[tool] == 1)
  }

  lemma ResolvedDistinct(before: Servers, after: Servers, names: seq<Name>, now: int)
    requires SortedIds(names, before.Keys) && Tracked(before) && Resolved(before, after, names, now)
    ensures UnflaggedDistinct(after)
  {
    forall a, b, tool | a in after && b in after && tool in after[a].offer.tools && tool in after[b].offer.tools
      ensures after[a].collided || after[b].collided || (a == b && multiset(after[a].offer.tools)[tool] == 1)
    {
      if !after[a].collided && !after[b].collided {
        UnflaggedAreDistinct(names, before, a, b, tool);
      }
    }
  }

  /** The indexes published together with `servers`. */
  datatype View = View(
    connections: map<Name, nat>, catalog: seq<Item>, resources: seq<Item>, templates: seq<Item>, prompts: seq<Item>)

  ghost predicate Shows(v: View, servers: Servers) {
    && (forall n :: n in v.connections <==> n in servers && servers[n].connection.Some?)
    && (forall n | n in v.connections :: servers[n].connection == Some(v.connections[n]))
    && Published(v.catalog, servers, Tools) && Published(v.resources, servers, Resources)
    && Published(v.templates, servers, Templates) && Published(v.prompts, servers, Prompts)
  }

  /** aggregateServerRuntimes. */
  method Show(servers: Servers) returns (v: View)
    ensures Shows(v, servers)
  {
    hide Published;
    var connections: map<Name, nat> := map[];
    var todo := servers.Keys;
    while todo != {}
      invariant todo <= servers.Keys
      invariant forall n :: n in connections <==> n in servers && n !in todo && servers[n].connection.Some?
      invariant forall n | n in connections :: servers[n].connection == Some(connections[n])
      decreases |todo|
    {
      var name :| name in todo;
      todo := todo - {name};
      if servers[name].connection.Some? { connections := connections[name := servers[name].connection.value]; }
    }
    var catalog := Aggregate(servers, Tools);
    var resources := Aggregate(servers, Resources);
    var templates := Aggregate(servers, Templates);
    var prompts := Aggregate(servers, Prompts);
    v := View(connections, catalog, resources, templates, prompts);
  }

  /** Health and flags do not matter to what is published. */
  lemma ShowsOffersOnly(v: View, a: Servers, b: Servers)
    requires Shows(v, a) && b.Keys == a.Keys
    requires forall n | n in a :: b[n].connection == a[n].connection && b[n].offer == a[n].offer
    ensures Shows(v, b)
  {
    forall kind, item: Item ensures Offered(b, kind, item) == Offered(a, kind, item) {}
  }

  /** The breaker Reload connects a server with: that of the same settings, or a new one. */
  function TrackerFor(previous: Option<Server>, settings: Settings, now: int): (t: Tracker)
    requires previous.Some? ==> previous.value.health.Valid()
    ensures t.Valid()
  {
    if previous.Some? && previous.value.hash == settings.hash then previous.value.health
    else NewTracker(settings.breaker, now)
  }

  /** What Reload makes of one enabled server: an unchanged connected one is kept, any other is
      connected anew, and one that does not connect stays without a connection. */
  function NextServer(
    previous: Option<Server>, settings: Settings, force: bool, found: Option<Offer>, serial: nat, now: int): (r: Server)
    requires previous.Some? ==> previous.value.health.Valid()
    ensures r.health.Valid()
  {
    if previous.Some? && previous.value.hash == settings.hash && !force && previous.value.connection.Some?
    then previous.value
    else
      var health := TrackerFor(previous, settings, now);
      if found.Some? then Server(settings.hash, Some(serial), found.value, false, health.After(Discovered, now))
      else Server(settings.hash, None, NOTHING, false, health.After(Tripped, now))
  }

  function Lookup<T>(m: map<Name, T>, n: Name): Option<T> { if n in m then Some(m[n]) else None }

  /** The servers Reload builds before it resolves collisions. */
  ghost predicate Rebuilt(
    previous: Servers, enabled: map<Name, Settings>, force: bool, found: map<Name, Offer>, serial: nat, now: int,
    next: Servers)
    requires Tracked(previous)
  {
    && next.Keys == enabled.Keys
    && forall n | n in next ::
         next[n] == NextServer(Lookup(previous, n), enabled[n], force, Lookup(found, n), serial, now)
  }

  lemma MarkedKeepsHandles(before: Servers, after: Servers, names: seq<Name>, now: int, h: Handle)
    requires SortedIds(names, before.Keys) && Tracked(before) && Resolved(before, after, names, now)
    ensures HeldBy(after, h) <==> HeldBy(before, h)
  {
  }

  /** Handles the new map holds that the old one did not are the new operation's, and the rest
      of what the old one held is to be closed. */
  ghost predicate Swapped(previous: Servers, next: Servers, serial: nat) {
    forall h: Handle :: HeldBy(next, h) && !HeldBy(previous, h) ==> h.1 == serial
  }

  /** Beside what was open, exactly the new handles of `next` have been opened. */
  ghost predicate OpenedFor(previous: Servers, next: Servers, before: set<Handle>, after: set<Handle>) {
    forall h: Handle :: h in after <==> h in before || (HeldBy(next, h) && !HeldBy(previous, h))
  }

  lemma SwapConserves(
    previous: Servers, next: Servers, serial: nat, opened0: set<Handle>, closed0: set<Handle>, opened1: set<Handle>,
    closed1: set<Handle>)
    requires Conserved(previous, serial, opened0, closed0) && Swapped(previous, next, serial)
    requires OpenedFor(previous, next, opened0, opened1)
    requires forall h: Handle :: h in closed1 <==> h in closed0 || (HeldBy(previous, h) && !HeldBy(next, h))
    ensures Conserved(next, serial + 1, opened1, closed1)
  {
  }

  lemma RebuiltSwaps(
    previous: Servers, enabled: map<Name, Settings>, force: bool, found: map<Name, Offer>, serial: nat, now: int,
    next: Servers)
    requires Tracked(previous) && Rebuilt(previous, enabled, force, found, serial, now, next)
    ensures Swapped(previous, next, serial) && Tracked(next)
  {
  }

  /** A connected server keeps its connection exactly when it is still enabled under the same
      hash and nothing was invalidated. */
  lemma KeptExactlyWhenUnchanged(
    previous: Servers, enabled: map<Name, Settings>, force: bool, found: map<Name, Offer>, serial: nat, now: int,
    next: Servers, after: Servers, names: seq<Name>, n: Name, c: nat)
    requires Tracked(previous) && Rebuilt(previous, enabled, force, found, serial, now, next)
    requires SortedIds(names, next.Keys) && Tracked(next) && Resolved(next, after, names, now)
    requires HeldBy(previous, (n, c)) && c < serial
    ensures HeldBy(after, (n, c)) <==> n in enabled && enabled[n].hash == previous[n].hash && !force
  {
  }

  /** One server after a reload. It is kept with its connection, its offer and its breaker when it
      is connected under the same hash and nothing was invalidated; otherwise it has a new
      connection with what was found, or none and an open breaker. A breaker is tripped for a
      collision that is new, and healed for one that is gone. */
  predicate Loaded(
    previous: Option<Server>, settings: Settings, force: bool, found: Option<Offer>, serial: nat, now: int,
    after: Server, conflict: bool)
  {
    var same := previous.Some? && previous.value.hash == settings.hash;
    && after.hash == settings.hash && after.collided == conflict
    && (if same then after.health.config == previous.value.health.config else ConfiguredFor(after, settings))
    && if same && !force && previous.value.connection.Some? then
         && after.connection == previous.value.connection && after.offer == previous.value.offer
         && (previous.value.collided == conflict ==> after.health == previous.value.health)
         && (previous.value.collided && !conflict ==> Recovered(after.health))
         && (!previous.value.collided && conflict ==> JustTripped(after.health, now))
       else
         match found
         case Some(offer) =>
           && after.connection == Some(serial) && after.offer == offer
           && (if conflict then JustTripped(after.health, now) else Recovered(after.health))
         case None => after.connection.None? && after.offer == NOTHING && JustTripped(after.health, now)
  }

  predicate JustTripped(t: Tracker, now: int) {
    t.snapshot.state == Open && t.snapshot.retryAt == Some(now + t.config.cooldown)
  }

  lemma TripMeans(t: Tracker, now: int)
    requires t.Valid()
    ensures JustTripped(t.After(Tripped, now), now)
  {
  }

  predicate Recovered(t: Tracker) { t.snapshot.state == Healthy && t.snapshot.failures == 0 }

  /** Its breaker has the configured threshold and cooldown, or three failures and five seconds. */
  predicate ConfiguredFor(s: Server, settings: Settings) {
    && s.health.config.threshold == (if settings.breaker.threshold > 0 then settings.breaker.threshold else 3)
    && s.health.config.cooldown ==
       (if settings.breaker.cooldown > 0 then settings.breaker.cooldown else 5_000_000_000)
  }

  lemma LoadMeans(
    previous: Option<Server>, settings: Settings, force: bool, found: Option<Offer>, serial: nat, now: int,
    conflict: bool)
    requires previous.Some? ==> previous.value.health.Valid()
    ensures Loaded(previous, settings, force, found, serial, now,
                   Marked(NextServer(previous, settings, force, found, serial, now), conflict, now), conflict)
  {
  }

  /** Every server a reload leaves is one of these, and they are the ones enabled. */
  lemma ReloadMeans(
    previous: Servers, enabled: map<Name, Settings>, force: bool, found: map<Name, Offer>, serial: nat, now: int,
    next: Servers, after: Servers, names: seq<Name>, n: Name)
    requires Tracked(previous) && Rebuilt(previous, enabled, force, found, serial, now, next)
    requires SortedIds(names, next.Keys) && Tracked(next) && Resolved(next, after, names, now)
    ensures n in after <==> n in enabled
    ensures n in enabled ==>
              Loaded(if n in previous then Some(previous[n]) else None, enabled[n], force,
                     if n in found then Some(found[n]) else None, serial, now, after[n], n in Scan(names, next).1)
  {
    hide Scan, Marked, NextServer, Loaded;
    if n in enabled {
      LoadMeans(Lookup(previous, n), enabled[n], force, Lookup(found, n), serial, now, n in Scan(names, next).1);
    }
  }

  /** A reload is due for an unconnected server without a retry time, or whose time has come. */
  lemma RetryDueExactlyWhen(s: Server, now: int)
    ensures RetryDue(s, now) <==>
            s.connection.None? && match s.health.snapshot.retryAt
                                  case None => true
                                  case Some(time) => time <= now
  {
  }

  predicate RetryDue(s: Server, now: int) {
    s.connection.None? && (s.health.snapshot.retryAt.None? || now >= s.health.snapshot.retryAt.value)
  }

  class Pool {
    var servers: Servers
    var view: View
    /** The configuration last loaded; None once cleared. */
    var hash: Option<nat>
    var invalidated: bool
    /** Numbers the lifecycle operations, and with them the connections they open. */
    var serial: nat
    ghost var everOpened: set<Handle>
    ghost var closed: set<Handle>

    ghost predicate Valid()
      reads this
    {
      Conserved(servers, serial, everOpened, closed) && Shows(view, servers) && UnflaggedDistinct(servers)
      && Tracked(servers)
    }

    constructor ()
      ensures Valid() && servers == map[] && everOpened == {} && hash.None? && !invalidated
    {
      servers, hash, invalidated, serial, everOpened, closed := map[], None, false, 0, {}, {};
      view := View(map[], [], [], [], []);
    }

    /** The precondition makes closing a connection twice a verification error. */
    method CloseConnection(h: Handle)
      requires h in everOpened && h !in closed
      modifies this`closed
      ensures closed == old(closed) + {h}
    {
      closed := closed + {h};
    }

    /** Closes the connections of `previous` that `next` does not hold. */
    method CloseReplaced(previous: Servers, next: Servers)
      requires forall h: Handle :: HeldBy(previous, h) && !HeldBy(next, h) ==> h in everOpened && h !in closed
      modifies this`closed
      ensures forall h: Handle :: h in closed <==> h in old(closed) || (HeldBy(previous, h) && !HeldBy(next, h))
    {
      var todo := previous.Keys;
      while todo != {}
        invariant todo <= previous.Keys
        invariant forall h: Handle ::
          h in closed <==> h in old(closed) || (HeldBy(previous, h) && !HeldBy(next, h) && h.0 !in todo)
        decreases |todo|
      {
        var name :| name in todo;
        todo := todo - {name};
        var connection := previous[name].connection;
        if connection.Some? && !(name in next && next[name].connection == connection) {
          assert HeldBy(previous, (name, connection.value));
          CloseConnection((name, connection.value));
        }
      }
    }

    /** connectServer for one enabled server, or the decision to keep it. */
    method BuildServer(name: Name, settings: Settings, force: bool, found: Option<Offer>, now: int)
      returns (server: Server)
      requires Tracked(servers)
      modifies this`everOpened
      ensures server == NextServer(Lookup(servers, name), settings, force, found, serial, now)
      ensures forall h: Handle :: h in everOpened <==>
                h in old(everOpened) || (h.0 == name && server.connection == Some(h.1) && !HeldBy(servers, h))
    {
      if name in servers && servers[name].hash == settings.hash && !force && servers[name].connection.Some? {
        return servers[name];
      }
      var health := TrackerFor(Lookup(servers, name), settings, now);
      if found.None? {
        return Server(settings.hash, None, NOTHING, false, health.After(Tripped, now));
      }
      everOpened := if HeldBy(servers, (name, serial)) then everOpened else everOpened + {(name, serial)};
      server := Server(settings.hash, Some(serial), found.value, false, health.After(Discovered, now));
    }

    method BuildServers(enabled: map<Name, Settings>, force: bool, found: map<Name, Offer>, now: int)
      returns (next: Servers)
      requires Tracked(servers)
      modifies this`everOpened
      ensures Rebuilt(servers, enabled, force, found, serial, now, next)
      ensures OpenedFor(servers, next, old(everOpened), everOpened)
    {
      hide NextServer;
      var names := SortIds(enabled.Keys);
      next := map[];
      for index := 0 to |names|
        invariant forall n :: n in next <==> n in names[..index]
        invariant forall n | n in next ::
          n in enabled && next[n] == NextServer(Lookup(servers, n), enabled[n], force, Lookup(found, n), serial, now)
        invariant OpenedFor(servers, next, old(everOpened), everOpened)
      {
        var name := names[index];
        PrefixKeys(names, enabled.Keys, index);
        var server := BuildServer(name, enabled[name], force, Lookup(found, name), now);
        next := next[name := server];
      }
      assert names[..|names|] == names;
    }

    /** Whether an unconnected server's retry is due. */
    predicate NeedRetry(now: int)
      reads this
    {
      exists n :: n in servers && RetryDue(servers[n], now)
    }

    method ServersNeedRetry(now: int) returns (r: bool)
      ensures r == NeedRetry(now)
    {
      var todo := servers.Keys;
      while todo != {}
        invariant todo <= servers.Keys
        invariant forall n | n in servers && n !in todo :: !RetryDue(servers[n], now)
        decreases |todo|
      {
        var name :| name in todo;
        todo := todo - {name};
        if RetryDue(servers[name], now) { return true; }
      }
      r := false;
    }

    method Invalidate()
      requires Valid()
      modifies this`hash, this`invalidated
      ensures Valid() && hash.None? && invalidated
    {
      hash, invalidated := None, true;
    }

    /** Replaces the servers by those of the configuration: `enabled` maps each enabled server to
        its settings, `found` holds what the servers that connect offer, and `invalid` says that the
        configuration fails validation. */
    method Reload(
      enabled: map<Name, Settings>, configHash: nat, invalid: bool, found: map<Name, Offer>, now: int)
      returns (changed: bool, ghost next: Servers, ghost names: seq<Name>)
      requires Valid()
      modifies this
      ensures Valid()
      ensures changed <==>
              && !invalid
              && (old(hash) != Some(configHash) || old(invalidated)
                  || exists n :: n in old(servers) && RetryDue(old(servers)[n], now))
      ensures !changed ==>
                servers == old(servers) && view == old(view) && everOpened == old(everOpened) && closed == old(closed)
                && hash == old(hash) && invalidated == old(invalidated)
      ensures changed ==>
                && Rebuilt(old(servers), enabled, old(invalidated), found, old(serial), now, next)
                && SortedIds(names, next.Keys) && Tracked(next) && Resolved(next, servers, names, now)
                && hash == Some(configHash) && !invalidated
    {
      changed, next, names := false, map[], [];
      if invalid { return; }
      var retry := ServersNeedRetry(now);
      var force := invalidated;
      if hash == Some(configHash) && !force && !retry { return; }
      var built := BuildServers(enabled, force, found, now);
      next := built;
      RebuiltSwaps(servers, enabled, force, found, serial, now, built);
      names := Publish(built, old(everOpened), now);
      hash, invalidated := Some(configHash), false;
      changed := true;
    }

    /** Collision resolution, publication, and the closing of what is no longer held. */
    method Publish(next: Servers, ghost opened0: set<Handle>, now: int) returns (ghost names: seq<Name>)
      requires Swapped(servers, next, serial) && Tracked(next)
      requires Conserved(servers, serial, opened0, closed)
      requires OpenedFor(servers, next, opened0, everOpened)
      modifies this`servers, this`view, this`serial, this`closed
      ensures Valid() && SortedIds(names, next.Keys) && Resolved(next, servers, names, now)
    {
      hide Published, UnflaggedDistinct, Tracked, Resolved;
      var resolved;
      resolved, names := ResolveCollisions(next, now);
      ResolvedDistinct(next, resolved, names, now);
      forall h: Handle ensures HeldBy(resolved, h) <==> HeldBy(next, h) {
        MarkedKeepsHandles(next, resolved, names, now, h);
      }
      var replaced := servers;
      view := Show(resolved);
      servers := resolved;
      ghost var closed0 := closed;
      CloseReplaced(replaced, resolved);
      SwapConserves(replaced, resolved, serial, opened0, closed0, everOpened, closed);
      serial := serial + 1;
    }

    /** Rediscovers one server. A failure trips its breaker and keeps its connection. */
    method ReloadServer(name: Name, breaker: Config, found: Option<Offer>, now: int)
      returns (ok: bool, ghost next: Servers, ghost names: seq<Name>)
      requires Valid()
      modifies this
      ensures Valid() && ok == (name in old(servers) && found.Some?)
      ensures !ok ==>
                && view == old(view) && everOpened == old(everOpened) && closed == old(closed)
                && servers == (if name in old(servers) then Reported(old(servers), name, Tripped, now)
                               else old(servers))
                && (name in servers ==>
                      JustTripped(servers[name].health, now) && servers[name].offer == old(servers)[name].offer
                      && servers[name].connection == old(servers)[name].connection)
      ensures ok ==>
                && next == old(servers)[
                     name := Server(old(servers)[name].hash, Some(old(serial)), found.value, false,
                                    NewTracker(breaker, now).After(Discovered, now))]
                && SortedIds(names, next.Keys) && Tracked(next) && Resolved(next, servers, names, now)
      ensures hash == old(hash) && invalidated == old(invalidated)
    {
      hide Published, Resolved, OpenedFor, Swapped, Tracker.After;
      ok, next, names := false, map[], [];
      if name !in servers { return; }
      var current := servers[name];
      if found.None? {
        TripMeans(servers[name].health, now);
        servers := Reported(servers, name, Tripped, now);
        ShowsOffersOnly(view, old(servers), servers);
        ReportConserves(old(servers), name, Tripped, now, serial, everOpened, closed);
        return;
      }
      var rebuilt := servers[name := Server(current.hash, Some(serial), found.value, false,
                                            NewTracker(breaker, now).After(Discovered, now))];
      next := rebuilt;
      everOpened := everOpened + {(name, serial)};
      OneSwaps(servers, name, rebuilt[name], serial, old(everOpened), closed);
      names := Publish(rebuilt, old(everOpened), now);
      ok := true;
    }

    /** Drops the servers under a prefix without resolving collisions anew. */
    method RemoveServerPrefix(prefixed: set<Name>)
      requires Valid()
      modifies this
      ensures Valid() && servers == old(servers) - prefixed && everOpened == old(everOpened)
      ensures hash.None? && invalidated
    {
      hide Published;
      var kept := servers - prefixed;
      RemovalSwaps(servers, prefixed, serial);
      var replaced := servers;
      view := Show(kept);
      servers, hash, invalidated := kept, None, true;
      ghost var closed0 := closed;
      CloseReplaced(replaced, kept);
      SwapConserves(replaced, kept, serial, everOpened, closed0, everOpened, closed);
      serial := serial + 1;
    }

    /** Afterwards every connection ever opened is closed, once. */
    method ShutdownAll()
      requires Valid()
      modifies this
      ensures Valid() && servers == map[] && everOpened == old(everOpened) && closed == everOpened
      ensures hash.None? && !invalidated
    {
      hide Published;
      var none: Servers := map[];
      RemovalSwaps(servers, servers.Keys, serial);
      assert servers - servers.Keys == none;
      var replaced := servers;
      view := Show(none);
      servers, hash, invalidated := none, None, false;
      ghost var closed0 := closed;
      CloseReplaced(replaced, none);
      SwapConserves(replaced, none, serial, everOpened, closed0, everOpened, closed);
      AllClosed(none, serial + 1, everOpened, closed);
      serial := serial + 1;
    }

    /** A call, a probe or the transport reports to a server's breaker at any time between
        operations. */
    method ReportHealth(name: Name, e: Event, now: int)
      requires Valid() && name in servers
      modifies this`servers
      ensures Valid() && servers == Reported(old(servers), name, e, now)
    {
      hide Published;
      servers := Reported(servers, name, e, now);
      ShowsOffersOnly(view, old(servers), servers);
      ReportConserves(old(servers), name, e, now, serial, everOpened, closed);
    }

    /** The tools of the servers whose breakers admit calls. */
    method Catalog() returns (result: seq<Item>)
      requires Valid()
      ensures result == VisibleItems(view.catalog, servers)
    {
      result := [];
      for index := 0 to |view.catalog|
        invariant result == VisibleItems(view.catalog[..index], servers)
      {
        var entry := view.catalog[index];
        assert view.catalog[..index + 1] == view.catalog[..index] + [entry];
        VisibleConcat(view.catalog[..index], [entry], servers);
        if Visible(servers, entry.server) { result := result + [entry]; }
      }
      assert view.catalog[..|view.catalog|] == view.catalog;
    }
  }

  function Reported(servers: Servers, name: Name, e: Event, now: int): Servers
    requires name in servers && servers[name].health.Valid()
  {
    servers[name := servers[name].(health := servers[name].health.After(e, now))]
  }

  lemma ReportConserves(
    before: Servers, name: Name, e: Event, now: int, serial: nat, everOpened: set<Handle>, closed: set<Handle>)
    requires name in before && Conserved(before, serial, everOpened, closed) && UnflaggedDistinct(before)
    requires Tracked(before)
    ensures var after := Reported(before, name, e, now);
            Conserved(after, serial, everOpened, closed) && UnflaggedDistinct(after) && Tracked(after)
  {
    var after := Reported(before, name, e, now);
    forall h: Handle ensures HeldBy(after, h) <==> HeldBy(before, h) {}
    forall n | n in after ensures after[n].offer == before[n].offer && after[n].collided == before[n].collided {}
  }

  lemma OneSwaps(
    previous: Servers, name: Name, server: Server, serial: nat, everOpened: set<Handle>, closed: set<Handle>)
    requires server.connection == Some(serial) && Conserved(previous, serial, everOpened, closed)
    ensures Swapped(previous, previous[name := server], serial)
    ensures OpenedFor(previous, previous[name := server], everOpened, everOpened + {(name, serial)})
  {
  }

  lemma RemovalSwaps(previous: Servers, removed: set<Name>, serial: nat)
    requires UnflaggedDistinct(previous)
    ensures Swapped(previous, previous - removed, serial) && UnflaggedDistinct(previous - removed)
    ensures forall o: set<Handle> :: OpenedFor(previous, previous - removed, o, o)
  {
  }

  lemma AllClosed(none: Servers, serial: nat, everOpened: set<Handle>, closed: set<Handle>)
    requires Conserved(none, serial, everOpened, closed) && none == map[]
    ensures closed == everOpened
  {
    forall h: Handle ensures h in everOpened <==> h in closed {
      assert !HeldBy(none, h);
    }
  }

  // ---------------------------------------------------------------- the catalog

  predicate Visible(servers: Servers, n: Name) { n in servers && servers[n].health.Admits() }

  /** A server's lists are shown exactly while its breaker is healthy or degraded. */
  lemma VisibleExactlyWhen(servers: Servers, n: Name)
    ensures Visible(servers, n) <==> n in servers && servers[n].health.snapshot.state in {Healthy, Degraded}
  {
  }

  function VisibleItems(items: seq<Item>, servers: Servers): seq<Item> {
    if items == [] then []
    else (if Visible(servers, items[0].server) then [items[0]] else []) + VisibleItems(items[1..], servers)
  }

  lemma {:induction false} VisibleConcat(a: seq<Item>, b: seq<Item>, servers: Servers)
    ensures VisibleItems(a + b, servers) == VisibleItems(a, servers) + VisibleItems(b, servers)
  {
    if a == [] {
      assert a + b == b;
    } else {
      assert (a + b)[1..] == a[1..] + b;
      VisibleConcat(a[1..], b, servers);
    }
  }

  lemma {:induction false} VisibleCount(items: seq<Item>, servers: Servers, item: Item)
    ensures multiset(VisibleItems(items, servers))[item] ==
            if Visible(servers, item.server) then multiset(items)[item] else 0
  {
    if items != [] {
      assert items == [items[0]] + items[1..];
      VisibleCount(items[1..], servers, item);
    }
  }

  /** No name stands twice in a list. */
  ghost predicate UniqueTools(list: seq<Item>) {
    forall a, b | a in list && b in list && a.key == b.key :: a == b && multiset(list)[a] == 1
  }

  /** A server whose tools stand in the visible catalog. */
  predicate Serves(servers: Servers, n: Name, tool: nat) {
    Visible(servers, n) && servers[n].connection.Some? && tool in servers[n].offer.tools
  }

  lemma VisibleItem(catalog: seq<Item>, servers: Servers, item: Item)
    requires Published(catalog, servers, Tools)
    ensures item in VisibleItems(catalog, servers) <==> Serves(servers, item.server, item.key)
    ensures Serves(servers, item.server, item.key) ==>
              multiset(VisibleItems(catalog, servers))[item] == multiset(servers[item.server].offer.tools)[item.key]
  {
    VisibleCount(catalog, servers, item);
    assert multiset(catalog)[item] == Offered(servers, Tools, item);
    assert item in VisibleItems(catalog, servers) <==> item in multiset(VisibleItems(catalog, servers));
  }

  /** A flagged server that is visible shares no tool with a visible one, and repeats none. */
  ghost predicate FlaggedAlone(servers: Servers) {
    forall a, b, tool | Serves(servers, a, tool) && Serves(servers, b, tool) && servers[a].collided ::
      a == b && multiset(servers[a].offer.tools)[tool] == 1
  }

  /** No tool name stands twice in the visible catalog exactly when every flagged server that is
      visible shares no tool with another visible one. */
  lemma CatalogUniqueExactlyWhen(catalog: seq<Item>, servers: Servers)
    requires Published(catalog, servers, Tools) && UnflaggedDistinct(servers)
    ensures UniqueTools(VisibleItems(catalog, servers)) <==> FlaggedAlone(servers)
  {
    hide VisibleItems, Published;
    var list := VisibleItems(catalog, servers);
    forall item: Item ensures item in list <==> Serves(servers, item.server, item.key) {
      VisibleItem(catalog, servers, item);
    }
    if UniqueTools(list) {
      forall a, b, tool | Serves(servers, a, tool) && Serves(servers, b, tool) && servers[a].collided
        ensures a == b && multiset(servers[a].offer.tools)[tool] == 1
      {
        VisibleItem(catalog, servers, Item(a, tool));
        assert Item(a, tool) in list && Item(b, tool) in list;
      }
    }
    if FlaggedAlone(servers) {
      forall a, b | a in list && b in list && a.key == b.key ensures a == b && multiset(list)[a] == 1 {
        VisibleItem(catalog, servers, a);
        SharedTool(servers, a.server, b.server, a.key);
      }
    }
  }

  lemma SharedTool(servers: Servers, a: Name, b: Name, tool: nat)
    requires UnflaggedDistinct(servers) && FlaggedAlone(servers)
    requires Serves(servers, a, tool) && Serves(servers, b, tool)
    ensures a == b && multiset(servers[a].offer.tools)[tool] == 1
  {
  }

  /** While the breakers of flagged servers keep them out of it, the catalog has no duplicates. */
  lemma CatalogHasNoDuplicates(catalog: seq<Item>, servers: Servers)
    requires Published(catalog, servers, Tools) && UnflaggedDistinct(servers)
    requires forall n | n in servers && servers[n].collided :: !Visible(servers, n)
    ensures UniqueTools(VisibleItems(catalog, servers))
  {
    CatalogUniqueExactlyWhen(catalog, servers);
  }

  /** An event of a tripped flagged server brings its duplicate back, beside the rival that owns
      the name, exactly when it reports a success. */
  lemma HealedCollisionShowsTwice(
    catalog: seq<Item>, servers: Servers, flagged: Name, rival: Name, tool: nat, e: Event, now: int)
    requires Published(catalog, servers, Tools) && UnflaggedDistinct(servers) && Tracked(servers)
    requires flagged in servers && servers[flagged].collided && servers[flagged].connection.Some?
    requires servers[flagged].health.snapshot.state in {Open, HalfOpen} && tool in servers[flagged].offer.tools
    requires Serves(servers, rival, tool)
    ensures var after := Reported(servers, flagged, e, now);
            var list := VisibleItems(catalog, after);
            && (Item(flagged, tool) in list && Item(rival, tool) in list <==> Succeeds(e))
            && (Succeeds(e) ==> !UniqueTools(list))
  {
    hide VisibleItems, Published;
    var after := Reported(servers, flagged, e, now);
    ReportPublished(catalog, servers, flagged, e, now);
    RecoversExactlyWhen(servers[flagged].health.config, servers[flagged].health.snapshot, e, now);
    VisibleItem(catalog, after, Item(flagged, tool));
    VisibleItem(catalog, after, Item(rival, tool));
  }

  lemma ReportPublished(catalog: seq<Item>, servers: Servers, name: Name, e: Event, now: int)
    requires Published(catalog, servers, Tools) && name in servers && servers[name].health.Valid()
    ensures Published(catalog, Reported(servers, name, e, now), Tools)
  {
    forall item: Item ensures Offered(Reported(servers, name, e, now), Tools, item) == Offered(servers, Tools, item) {}
  }

  function OneTool(tool: nat): Offer { Offer([tool], [], [], []) }

  const DEFAULTS := Settings(0, Config(0, 0))

  lemma OneScan(servers: Servers, b: Name, tool: nat)
    requires b in servers && servers[b].offer == OneTool(tool)
    ensures Scan([b], servers) == (map[tool := b], {})
  {
    assert [b][..0] == [];
    assert Scan([], servers) == (map[], {});
    assert ScanTools([], b, map[tool := b]) == (map[tool := b], false);
    assert ScanTools([tool], b, map[]) == (map[tool := b], false);
  }

  /** A server alone is not in conflict. */
  lemma AloneUnflagged(before: Servers, after: Servers, names: seq<Name>, b: Name, tool: nat)
    requires SortedIds(names, before.Keys) && Tracked(before) && Resolved(before, after, names, 0)
    requires before.Keys == {b} && before[b].offer == OneTool(tool) && !before[b].collided
    ensures after == before
  {
    assert SortedIds([b], {b}) by { assert [b][1..] == []; }
    SortedIdsUnique(names, [b], {b});
    OneScan(before, b, tool);
  }

  /** The later of two servers with the same tool is. */
  lemma LaterFlagged(before: Servers, after: Servers, names: seq<Name>, a: Name, b: Name, tool: nat)
    requires SortedIds(names, before.Keys) && Tracked(before) && Resolved(before, after, names, 0)
    requires a < b && before.Keys == {a, b}
    requires before[a].offer == before[b].offer == OneTool(tool) && !before[a].collided && !before[b].collided
    ensures after == before[b := before[b].(collided := true, health := before[b].health.After(Tripped, 0))]
  {
    assert SortedIds([a, b], {a, b}) by { assert [a, b][1..] == [b] && [b][1..] == []; }
    SortedIdsUnique(names, [a, b], {a, b});
    OneScan(before, a, tool);
    assert [a, b][..1] == [a];
    assert ScanTools([tool], b, map[tool := a]).1;
  }

  /** A pool in which server `b` is connected and has just admitted a call. */
  method AdmittedAlone(b: Name, tool: nat) returns (p: Pool)
    ensures fresh(p) && p.Valid() && p.hash == Some(0) && !p.invalidated
    ensures p.servers.Keys == {b} && p.servers[b].hash == 0 && p.servers[b].connection.Some?
    ensures p.servers[b].offer == OneTool(tool) && !p.servers[b].collided && p.servers[b].health.Admits()
  {
    hide Published, UnflaggedDistinct, Conserved, Resolved, SortedIds;
    p := new Pool();
    var changed;
    ghost var next, names;
    changed, next, names := p.Reload(map[b := DEFAULTS], 0, false, map[b := OneTool(tool)], 0);
    AloneUnflagged(next, p.servers, names, b, tool);
    p.ReportHealth(b, Arrive(0), 0);
  }

  /** `b` is flagged and tripped, and its rival `a` serves the tool they share. */
  ghost predicate FlaggedBeside(servers: Servers, a: Name, b: Name, tool: nat) {
    && Serves(servers, a, tool) && servers.Keys == {a, b} && a != b
    && servers[b].collided && servers[b].connection.Some? && servers[b].health.snapshot.state == Open
    && tool in servers[b].offer.tools
  }

  lemma BesideFlagged(
    previous: Servers, before: Servers, after: Servers, names: seq<Name>, serial: nat, a: Name, b: Name, tool: nat)
    requires previous.Keys == {b} && Tracked(previous) && previous[b].hash == 0 && previous[b].connection.Some?
    requires previous[b].offer == OneTool(tool) && !previous[b].collided && a < b
    requires Rebuilt(previous, map[a := DEFAULTS, b := DEFAULTS], false, map[a := OneTool(tool)], serial, 0, before)
    requires SortedIds(names, before.Keys) && Tracked(before) && Resolved(before, after, names, 0)
    ensures FlaggedBeside(after, a, b, tool)
  {
    hide SortedIds, Resolved;
    LaterFlagged(before, after, names, a, b, tool);
  }

  /** A reload brings a rival of the admitted server, and finds the collision. */
  method RivalFlags(a: Name, b: Name, tool: nat) returns (p: Pool)
    requires a < b
    ensures fresh(p) && p.Valid() && FlaggedBeside(p.servers, a, b, tool)
  {
    hide FlaggedBeside, Published, Rebuilt, Resolved, SortedIds, Scan, UnflaggedDistinct, Conserved;
    p := AdmittedAlone(b, tool);
    var changed;
    ghost var next, names;
    ghost var previous, serial := p.servers, p.serial;
    changed, next, names := p.Reload(map[a := DEFAULTS, b := DEFAULTS], 1, false, map[a := OneTool(tool)], 0);
    BesideFlagged(previous, next, p.servers, names, serial, a, b, tool);
  }

  /** The admitted call ends well: the flagged server is visible again, and its tool stands in
      the catalog twice. */
  method LateSuccessShowsTwice(a: Name, b: Name, tool: nat) returns (p: Pool)
    requires a < b
    ensures fresh(p) && p.Valid() && p.servers.Keys == {a, b} && p.servers[b].collided
    ensures var list := VisibleItems(p.view.catalog, p.servers);
            Item(a, tool) in list && Item(b, tool) in list && !UniqueTools(list)
  {
    hide VisibleItems, Published, UniqueTools;
    p := RivalFlags(a, b, tool);
    HealedCollisionShowsTwice(p.view.catalog, p.servers, b, a, tool, CallEnds(0, Success), 0);
    p.ReportHealth(b, CallEnds(0, Success), 0);
  }
}
