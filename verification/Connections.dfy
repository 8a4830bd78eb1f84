/** The connection set of internal/host/setup.go and the selection changes that
    internal/host/workspace_manager.go computes from it. */
module Connections {
  import opened Common
  import opened Ordering

  /** A credential reference. References are only compared; 0 stands for the zero value. */
  datatype Reference = Reference(token: nat)

  datatype Model = Model(id: string, metadata: string)

  /** `route` stands for the base URL, protocol, metadata and provenance, which no operation inspects. */
  datatype Connection = Connection(
    id: string, provider: string, model: string, route: string,
    models: seq<Model>, credential: Option<Reference>)

  datatype Selection = Selection(version: int, connections: seq<Connection>, defaultConnection: string) {
    /** The entry with this ID, the first one if several share it. */
    function Find(id: string): (r: Option<nat>)
      ensures r.Some? ==> r.value < |connections| && connections[r.value].id == id
      ensures r.Some? ==> forall j | 0 <= j < r.value :: connections[j].id != id
      ensures r.None? ==> forall c | c in connections :: c.id != id
    {
      FindFrom(connections, id)
    }

    /** `Active`: the default connection, falling back to the first. */
    function Active(): (r: Option<nat>)
      ensures r.Some? <==> connections != []
      ensures r.Some? ==> r.value < |connections|
    {
      if Find(defaultConnection).Some? then Find(defaultConnection)
      else if connections != [] then Some(0)
      else None
    }

    function Lookup(id: string): (r: Option<Connection>) {
      var i := Find(id);
      if i.Some? then Some(connections[i.value]) else None
    }

    /** The selection with this credential on one entry. */
    function WithCredential(i: nat, reference: Reference): Selection
      requires i < |connections|
    {
      this.(connections := connections[i := connections[i].(credential := Some(reference))])
    }
  }

  const WEB_SETUP_VERSION := 3

  const EMPTY := Selection(0, [], "")

  function FindFrom(cs: seq<Connection>, id: string): (r: Option<nat>)
    ensures r.Some? ==> r.value < |cs| && cs[r.value].id == id && forall j | 0 <= j < r.value :: cs[j].id != id
    ensures r.None? ==> forall c | c in cs :: c.id != id
  {
    if cs == [] then None
    else if cs[0].id == id then Some(0)
    else
      assert cs == [cs[0]] + cs[1..];
      var r := FindFrom(cs[1..], id);
      if r.None? then None else Some(r.value + 1)
  }

  /** The position of an ID is determined by the IDs. */
  lemma {:induction false} SameIds(a: seq<Connection>, b: seq<Connection>, id: string)
    requires |a| == |b| && forall k | 0 <= k < |a| :: a[k].id == b[k].id
    ensures FindFrom(a, id) == FindFrom(b, id)
  {
    if a != [] {
      forall k | 0 <= k < |a[1..]| ensures a[1..][k].id == b[1..][k].id {
        assert a[1..][k] == a[k + 1] && b[1..][k] == b[k + 1];
      }
      SameIds(a[1..], b[1..], id);
    }
  }

  // ---------------------------------------------------------------- invariant

  predicate ModelsSorted(models: seq<Model>) {
    forall i, j | 0 <= i < j < |models| :: Less(models[i].id, models[j].id)
  }

  /** Registered models are strictly sorted by ID and none repeats the baseline. */
  predicate ConnectionWellFormed(c: Connection) {
    ModelsSorted(c.models) && forall m | m in c.models :: m.id != c.model
  }

  predicate UniqueIds(cs: seq<Connection>) {
    forall i, j | 0 <= i < j < |cs| :: cs[i].id != cs[j].id
  }

  predicate WellFormed(s: Selection) {
    && UniqueIds(s.connections)
    && (forall c | c in s.connections :: ConnectionWellFormed(c))
    && (s.connections == [] ==> s.defaultConnection == "")
    && (s.connections != [] ==> exists c | c in s.connections :: c.id == s.defaultConnection)
  }

  // --------------------------------------------------------------- operations

  function MergeKeepDefault(s: Selection, c: Connection): Selection {
    var i := s.Find(c.id);
    var connections :=
      if i.Some? then s.connections[i.value := c.(credential := s.connections[i.value].credential)]
      else s.connections + [c];
    Selection(WEB_SETUP_VERSION, connections,
              if s.defaultConnection == "" then c.id else s.defaultConnection)
  }

  function Merge(s: Selection, c: Connection): Selection {
    MergeKeepDefault(s, c).(defaultConnection := c.id)
  }

  function FindModel(models: seq<Model>, id: string): (r: Option<nat>)
    ensures r.Some? ==> r.value < |models| && models[r.value].id == id
    ensures r.None? ==> forall m | m in models :: m.id != id
  {
    if models == [] then None
    else if models[0].id == id then Some(0)
    else
      assert models == [models[0]] + models[1..];
      var r := FindModel(models[1..], id);
      if r.None? then None else Some(r.value + 1)
  }

  predicate ModelBefore(a: Model, b: Model) { Less(a.id, b.id) }

  function SortModels(models: seq<Model>): seq<Model> { Sort(models, ModelBefore) }

  function WithoutModel(models: seq<Model>, id: string): seq<Model> {
    if models == [] then []
    else (if models[0].id == id then [] else [models[0]]) + WithoutModel(models[1..], id)
  }

  function WithoutConnection(cs: seq<Connection>, id: string): seq<Connection> {
    if cs == [] then []
    else (if cs[0].id == id then [] else [cs[0]]) + WithoutConnection(cs[1..], id)
  }

  lemma {:induction false} WithoutModelConcat(a: seq<Model>, b: seq<Model>, id: string)
    ensures WithoutModel(a + b, id) == WithoutModel(a, id) + WithoutModel(b, id)
  {
    if a == [] {
      assert a + b == b;
    } else {
      assert (a + b)[1..] == a[1..] + b;
      WithoutModelConcat(a[1..], b, id);
    }
  }

  lemma {:induction false} WithoutConnectionConcat(a: seq<Connection>, b: seq<Connection>, id: string)
    ensures WithoutConnection(a + b, id) == WithoutConnection(a, id) + WithoutConnection(b, id)
  {
    if a == [] {
      assert a + b == b;
    } else {
      assert (a + b)[1..] == a[1..] + b;
      WithoutConnectionConcat(a[1..], b, id);
    }
  }

  lemma {:induction false} WithoutModelMembers(models: seq<Model>, id: string)
    ensures forall m :: m in WithoutModel(models, id) <==> m in models && m.id != id
  {
    if models != [] {
      WithoutModelMembers(models[1..], id);
      assert forall m :: m in models <==> m == models[0] || m in models[1..];
    }
  }

  lemma {:induction false} WithoutConnectionMembers(cs: seq<Connection>, id: string)
    ensures forall c :: c in WithoutConnection(cs, id) <==> c in cs && c.id != id
  {
    if cs != [] {
      WithoutConnectionMembers(cs[1..], id);
      assert forall c :: c in cs <==> c == cs[0] || c in cs[1..];
    }
  }

  /** A change requested through setup, connection or model control. `Setup` and
      `AddConnection` carry the connection that request resolution produced. */
  datatype Operation =
    | Setup(connection: Connection)
    | AddConnection(connection: Connection)
    | RemoveConnection(id: string)
    | SetDefault(id: string)
    | AddModel(entry: Model)
    | UpdateModel(entry: Model)
    | RemoveModel(id: string)

  /** Resolution yields a bare connection: no registered models and no credential yet. */
  predicate Resolved(op: Operation) {
    (op.Setup? || op.AddConnection?) ==> op.connection.models == [] && op.connection.credential == None
  }

  function MutateModel(s: Selection, entry: Model, update: bool): Result<Selection> {
    if s.Active().None? then Err
    else
      var active := s.connections[s.Active().value];
      var index := FindModel(active.models, entry.id);
      if entry.id == active.model then Err
      else if update && index.None? then Err
      else if !update && index.Some? then Err
      else
        var models := if index.Some? then active.models[index.value := entry] else active.models + [entry];
        Ok(Merge(s, active.(models := SortModels(models))))
  }

  function Apply(op: Operation, s: Selection): Result<Selection> {
    match op
    case Setup(c) => Ok(Merge(s, c))
    case AddConnection(c) => if s.Active().None? then Ok(Merge(s, c)) else Ok(MergeKeepDefault(s, c))
    case RemoveConnection(id) =>
      if s.Find(id).None? || id == s.defaultConnection then Err
      else Ok(s.(connections := WithoutConnection(s.connections, id)))
    case SetDefault(id) => if s.Find(id).None? then Err else Ok(s.(defaultConnection := id))
    case AddModel(entry) => MutateModel(s, entry, false)
    case UpdateModel(entry) => MutateModel(s, entry, true)
    case RemoveModel(id) =>
      if id == "" || s.Active().None? then Err
      else
        var active := s.connections[s.Active().value];
        if id == active.model || FindModel(active.models, id).None? then Err
        else Ok(Merge(s, active.(models := WithoutModel(active.models, id))))
  }

  // The methods below are the loops of the source, proved against the functions above.

  method MergeConnectionKeepDefault(selection: Selection, connection: Connection) returns (result: Selection)
    ensures result == MergeKeepDefault(selection, connection)
  {
    result := selection.(version := WEB_SETUP_VERSION);
    var replaced := false;
    for index := 0 to |selection.connections|
      invariant !replaced
      invariant result == selection.(version := WEB_SETUP_VERSION)
      invariant forall j | 0 <= j < index :: selection.connections[j].id != connection.id
    {
      if result.connections[index].id == connection.id {
        var merged := connection.(credential := result.connections[index].credential);
        result := result.(connections := result.connections[index := merged]);
        replaced := true;
        break;
      }
    }
    if !replaced {
      result := result.(connections := result.connections + [connection]);
    }
    if result.defaultConnection == "" {
      result := result.(defaultConnection := connection.id);
    }
  }

  method RegisterModel(selection: Selection, entry: Model, update: bool) returns (r: Result<Selection>)
    ensures r == MutateModel(selection, entry, update)
  {
    hide SortModels, MergeKeepDefault, Selection.Active;
    if selection.Active().None? { return Err; }
    var active := selection.connections[selection.Active().value];
    if entry.id == active.model { return Err; }
    var index := -1;
    for candidate := 0 to |active.models|
      invariant index == -1
      invariant FindModel(active.models, entry.id) ==
                ShiftModel(FindModel(active.models[candidate..], entry.id), candidate)
    {
      assert active.models[candidate..][1..] == active.models[candidate + 1..];
      if active.models[candidate].id == entry.id {
        index := candidate;
        break;
      }
    }
    if update && index < 0 { return Err; }
    if !update && index >= 0 { return Err; }
    var models := if index >= 0 then active.models[index := entry] else active.models + [entry];
    var merged := MergeConnectionKeepDefault(selection, active.(models := SortModels(models)));
    r := Ok(merged.(defaultConnection := active.id));
  }

  ghost function ShiftModel(r: Option<nat>, offset: nat): Option<nat> {
    if r.None? then None else Some(r.value + offset)
  }

  method UnregisterModel(selection: Selection, modelID: string) returns (r: Result<Selection>)
    ensures r == Apply(RemoveModel(modelID), selection)
  {
    if modelID == "" || selection.Active().None? { return Err; }
    var active := selection.connections[selection.Active().value];
    if modelID == active.model { return Err; }
    var found, models := false, [];
    for index := 0 to |active.models|
      invariant found <==> exists m | m in active.models[..index] :: m.id == modelID
      invariant models == WithoutModel(active.models[..index], modelID)
    {
      var entry := active.models[index];
      assert active.models[..index + 1] == active.models[..index] + [entry];
      WithoutModelConcat(active.models[..index], [entry], modelID);
      if entry.id == modelID {
        found := true;
      } else {
        models := models + [entry];
      }
    }
    assert active.models[..|active.models|] == active.models;
    var merged := MergeConnectionKeepDefault(selection, active.(models := models));
    if !found { return Err; }
    r := Ok(merged.(defaultConnection := active.id));
  }

  method DropConnection(selection: Selection, connectionID: string) returns (r: Result<Selection>)
    ensures r == Apply(RemoveConnection(connectionID), selection)
  {
    if selection.Find(connectionID).None? || connectionID == selection.defaultConnection { return Err; }
    var kept := [];
    for index := 0 to |selection.connections|
      invariant kept == WithoutConnection(selection.connections[..index], connectionID)
    {
      assert selection.connections[..index + 1] == selection.connections[..index] + [selection.connections[index]];
      WithoutConnectionConcat(selection.connections[..index], [selection.connections[index]], connectionID);
      if selection.connections[index].id != connectionID {
        kept := kept + [selection.connections[index]];
      }
    }
    assert selection.connections[..|selection.connections|] == selection.connections;
    r := Ok(selection.(connections := kept));
  }

  // ------------------------------------------------------------- preservation

  lemma ModelOrderTotal(models: set<Model>)
    requires forall a, b | a in models && b in models && a.id == b.id :: a == b
    ensures StrictTotal(ModelBefore, models)
  {
    forall x | x in models ensures !ModelBefore(x, x) {
      if Less(x.id, x.id) { LessAsymmetric(x.id, x.id); }
    }
    forall x, y, z | x in models && y in models && z in models && ModelBefore(x, y) && ModelBefore(y, z)
      ensures ModelBefore(x, z)
    {
      LessTransitive(x.id, y.id, z.id);
    }
    forall x, y | x in models && y in models && x != y ensures ModelBefore(x, y) || ModelBefore(y, x) {
      LessTotal(x.id, y.id);
    }
  }

  lemma SortedModelsDistinct(models: seq<Model>)
    requires ModelsSorted(models)
    ensures forall i, j | 0 <= i < j < |models| :: models[i].id != models[j].id
  {
    forall i, j | 0 <= i < j < |models| ensures models[i].id != models[j].id {
      LessAsymmetric(models[i].id, models[j].id);
    }
  }

  /** Sorting models with distinct IDs yields the strict order the invariant asks for. */
  lemma SortModelsStrict(models: seq<Model>)
    requires forall i, j | 0 <= i < j < |models| :: models[i].id != models[j].id
    ensures ModelsSorted(SortModels(models))
    ensures forall m :: m in SortModels(models) <==> m in models
  {
    var sorted := SortModels(models);
    ModelOrderTotal(Elements(models));
    SortSorts(models, ModelBefore);
    SameElements(models, sorted);
    forall m ensures m in sorted <==> m in models {
      assert m in Elements(sorted) <==> m in Elements(models);
    }
    forall i, j | 0 <= i < j < |sorted| ensures Less(sorted[i].id, sorted[j].id) {
      SortedAt(ModelBefore, sorted, i, j);
      if sorted[i] == sorted[j] {
        DuplicateCount(sorted, i, j);
        NoDuplicateCount(models, sorted[i]);
        assert false;
      }
      assert sorted[i] in Elements(models) && sorted[j] in Elements(models);
    }
  }

  lemma NoDuplicateCount(models: seq<Model>, m: Model)
    requires forall i, j | 0 <= i < j < |models| :: models[i].id != models[j].id
    ensures multiset(models)[m] <= 1
  {
    if models != [] {
      var rest := models[1..];
      assert models == [models[0]] + rest;
      NoDuplicateCount(rest, m);
      if models[0] == m {
        forall k | 0 <= k < |rest| ensures rest[k] != m { assert rest[k] == models[k + 1]; }
        assert m !in multiset(rest);
      }
    }
  }

  lemma {:induction false} WithoutModelSorted(models: seq<Model>, id: string)
    requires ModelsSorted(models)
    ensures ModelsSorted(WithoutModel(models, id))
  {
    if models != [] {
      var rest := models[1..];
      assert ModelsSorted(rest) by {
        forall i, j | 0 <= i < j < |rest| ensures Less(rest[i].id, rest[j].id) {
          assert rest[i] == models[i + 1] && rest[j] == models[j + 1];
        }
      }
      WithoutModelSorted(rest, id);
      WithoutModelMembers(rest, id);
      var kept := WithoutModel(rest, id);
      forall k | 0 <= k < |kept| ensures Less(models[0].id, kept[k].id) {
        assert kept[k] in rest;
        var q :| 0 <= q < |rest| && rest[q] == kept[k];
        assert models[q + 1] == kept[k];
      }
    }
  }

  lemma {:induction false} WithoutConnectionUnique(cs: seq<Connection>, id: string)
    requires UniqueIds(cs)
    ensures UniqueIds(WithoutConnection(cs, id))
  {
    if cs != [] {
      var rest := cs[1..];
      assert UniqueIds(rest);
      WithoutConnectionUnique(rest, id);
      WithoutConnectionMembers(rest, id);
      var kept := WithoutConnection(rest, id);
      forall k | 0 <= k < |kept| ensures cs[0].id != kept[k].id {
        assert kept[k] in rest;
        var q :| 0 <= q < |rest| && rest[q] == kept[k];
        assert cs[q + 1] == kept[k];
      }
    }
  }

  lemma MergeWellFormed(s: Selection, c: Connection)
    requires WellFormed(s) && ConnectionWellFormed(c)
    ensures WellFormed(MergeKeepDefault(s, c)) && WellFormed(Merge(s, c))
  {
    var r := MergeKeepDefault(s, c);
    var i := s.Find(c.id);
    var at := if i.Some? then i.value else |s.connections|;
    assert r.connections[at].id == c.id && r.connections[at] in r.connections;
    forall d | d in r.connections ensures ConnectionWellFormed(d) {
      assert d == r.connections[at] || d in s.connections;
    }
    if s.connections != [] {
      var d :| d in s.connections && d.id == s.defaultConnection;
      var k :| 0 <= k < |s.connections| && s.connections[k] == d;
      assert r.connections[k].id == d.id && r.connections[k] in r.connections;
    }
  }

  lemma MutateModelWellFormed(s: Selection, entry: Model, update: bool)
    requires WellFormed(s)
    ensures MutateModel(s, entry, update).Ok? ==> WellFormed(MutateModel(s, entry, update).value)
  {
    if MutateModel(s, entry, update).Ok? {
      var active := s.connections[s.Active().value];
      assert active in s.connections;
      var index := FindModel(active.models, entry.id);
      var models := if index.Some? then active.models[index.value := entry] else active.models + [entry];
      SortedModelsDistinct(active.models);
      forall i, j | 0 <= i < j < |models| ensures models[i].id != models[j].id {
        if index.None? && j == |active.models| { assert active.models[i] in active.models; }
      }
      SortModelsStrict(models);
      MergeWellFormed(s, active.(models := SortModels(models)));
    }
  }

  lemma ApplyWellFormed(op: Operation, s: Selection)
    requires WellFormed(s) && Resolved(op)
    ensures Apply(op, s).Ok? ==> WellFormed(Apply(op, s).value)
  {
    match op {
      case Setup(c) => MergeWellFormed(s, c);
      case AddConnection(c) => MergeWellFormed(s, c);
      case RemoveConnection(id) =>
        if Apply(op, s).Ok? {
          WithoutConnectionUnique(s.connections, id);
          WithoutConnectionMembers(s.connections, id);
          var d :| d in s.connections && d.id == s.defaultConnection;
          assert d in WithoutConnection(s.connections, id);
        }
      case SetDefault(id) =>
        if s.Find(id).Some? { assert s.connections[s.Find(id).value] in s.connections; }
      case AddModel(entry) => MutateModelWellFormed(s, entry, false);
      case UpdateModel(entry) => MutateModelWellFormed(s, entry, true);
      case RemoveModel(id) =>
        if Apply(op, s).Ok? {
          var active := s.connections[s.Active().value];
          assert active in s.connections;
          WithoutModelSorted(active.models, id);
          WithoutModelMembers(active.models, id);
          MergeWellFormed(s, active.(models := WithoutModel(active.models, id)));
        }
    }
  }

  lemma WithCredentialWellFormed(s: Selection, i: nat, reference: Reference)
    requires WellFormed(s) && i < |s.connections|
    ensures WellFormed(s.WithCredential(i, reference))
  {
    var r := s.WithCredential(i, reference);
    forall c | c in r.connections ensures ConnectionWellFormed(c) {
      assert s.connections[i] in s.connections;
    }
    var d :| d in s.connections && d.id == s.defaultConnection;
    var k :| 0 <= k < |s.connections| && s.connections[k] == d;
    assert r.connections[k].id == d.id && r.connections[k] in r.connections;
  }

  // ------------------------------------------------------------------ histories

  /** One committed change. Control operations read a snapshot before the
      transaction, so `snapshot` may name any earlier committed selection. */
  datatype Change = Change(op: Operation, snapshot: nat, binding: Option<(nat, Reference)>)

  /** The selections committed so far, oldest first. */
  function History(changes: seq<Change>): (h: seq<Selection>)
    ensures |h| == |changes| + 1
  {
    if changes == [] then [EMPTY]
    else
      var earlier := History(changes[..|changes| - 1]);
      earlier + [Commit(changes[|changes| - 1], earlier)]
  }

  /** The selection a change is computed from. */
  function Base(change: Change, earlier: seq<Selection>): Selection
    requires earlier != []
  {
    if change.snapshot < |earlier| then earlier[change.snapshot] else earlier[|earlier| - 1]
  }

  function Commit(change: Change, earlier: seq<Selection>): Selection
    requires earlier != []
  {
    match Apply(change.op, Base(change, earlier))
    case Err => earlier[|earlier| - 1]
    case Ok(next) => Bind(next, change.binding)
  }

  /** The credential write-back of a change that rotated a key. */
  function Bind(s: Selection, binding: Option<(nat, Reference)>): Selection {
    match binding
    case None => s
    case Some((i, reference)) => if i < |s.connections| then s.WithCredential(i, reference) else s
  }

  /** Every selection reachable from empty is well formed, even when changes are
      computed from stale snapshots and bind rotated credentials. */
  lemma {:induction false} ReachableSelectionsWellFormed(changes: seq<Change>)
    requires forall c | c in changes :: Resolved(c.op)
    ensures forall s | s in History(changes) :: WellFormed(s)
  {
    if changes != [] {
      var n := |changes| - 1;
      ReachableSelectionsWellFormed(changes[..n]);
      var earlier := History(changes[..n]);
      var base := Base(changes[n], earlier);
      assert base in earlier && earlier[|earlier| - 1] in earlier;
      ApplyWellFormed(changes[n].op, base);
      if Apply(changes[n].op, base).Ok? && changes[n].binding.Some? {
        var next := Apply(changes[n].op, base).value;
        if changes[n].binding.value.0 < |next.connections| {
          WithCredentialWellFormed(next, changes[n].binding.value.0, changes[n].binding.value.1);
        }
      }
    }
  }

  // ------------------------------------------------------------ what a change means

  /** Merging puts the connection in its place and leaves every other position alone. */
  lemma MergeShape(s: Selection, c: Connection)
    ensures var r := MergeKeepDefault(s, c); var at := Place(s, c.id);
            && r.Find(c.id) == Some(at)
            && r.connections[at] ==
               (if at < |s.connections| then c.(credential := s.connections[at].credential) else c)
            && |r.connections| == (if at < |s.connections| then |s.connections| else |s.connections| + 1)
            && (forall k | 0 <= k < |s.connections| && k != at :: r.connections[k] == s.connections[k])
            && r.version == WEB_SETUP_VERSION
  {
    var r := MergeKeepDefault(s, c);
    assert r.connections[Place(s, c.id)] in r.connections;
  }

  /** Where merging puts an entry. */
  function Place(s: Selection, id: string): nat {
    if s.Find(id).Some? then s.Find(id).value else |s.connections|
  }

  lemma MergeOthers(s: Selection, c: Connection, other: string)
    requires other != c.id
    ensures Merge(s, c).Find(other) == s.Find(other)
  {
    MergeShape(s, c);
    var r := Merge(s, c);
    var at := Place(s, c.id);
    if s.Find(other).Some? {
      assert r.connections[s.Find(other).value] in r.connections;
    }
    if r.Find(other).Some? {
      assert r.Find(other).value != at;
      assert s.connections[r.Find(other).value] in s.connections;
    }
  }

  /** Merging changes only the target entry, keeps its stored credential and keeps every position. */
  lemma MergeTouchesOnlyTarget(s: Selection, c: Connection, other: string)
    requires WellFormed(s)
    ensures other != c.id ==> Merge(s, c).Lookup(other) == s.Lookup(other)
    ensures s.Lookup(c.id).Some? ==>
              Merge(s, c).Lookup(c.id) == Some(c.(credential := s.Lookup(c.id).value.credential))
    ensures s.Lookup(c.id).None? ==> Merge(s, c).Lookup(c.id) == Some(c)
    ensures forall i | 0 <= i < |s.connections| :: Merge(s, c).connections[i].id == s.connections[i].id
    ensures |Merge(s, c).connections| == |s.connections| + (if s.Lookup(c.id).None? then 1 else 0)
  {
    hide WellFormed, MergeKeepDefault;
    MergeShape(s, c);
    if other != c.id {
      MergeOthers(s, c, other);
    }
  }

  lemma {:induction false} WithoutModelMultiset(models: seq<Model>, entry: Model)
    requires forall m | m in models && m.id == entry.id :: m == entry
    ensures multiset(WithoutModel(models, entry.id)) == multiset(models)[entry := 0]
  {
    if models != [] {
      assert models == [models[0]] + models[1..];
      WithoutModelMultiset(models[1..], entry);
    }
  }

  ghost predicate DistinctIds(models: seq<Model>) {
    forall i, j | 0 <= i < j < |models| :: models[i].id != models[j].id
  }

  lemma AppendDistinct(models: seq<Model>, entry: Model)
    requires ModelsSorted(models) && forall m | m in models :: m.id != entry.id
    ensures DistinctIds(models + [entry])
  {
    SortedModelsDistinct(models);
    var added := models + [entry];
    forall i, j | 0 <= i < j < |added| ensures added[i].id != added[j].id {
      if j == |models| { assert models[i] in models; }
    }
  }

  lemma SortedArrangementUnique(a: seq<Model>, b: seq<Model>)
    requires ModelsSorted(a) && ModelsSorted(b) && multiset(a) == multiset(b)
    ensures a == b
  {
    StrictlySortedBy(a);
    StrictlySortedBy(b);
    SortedModelsDistinct(a);
    ModelOrderTotal(Elements(a));
    SortUnique(a, b, ModelBefore);
  }

  /** Removing a fresh entry undoes its sorted insertion. */
  lemma InsertionUndone(models: seq<Model>, entry: Model)
    requires ModelsSorted(models) && forall m | m in models :: m.id != entry.id
    ensures WithoutModel(SortModels(models + [entry]), entry.id) == models
  {
    var added := models + [entry];
    var sorted := SortModels(added);
    AppendDistinct(models, entry);
    SortModelsStrict(added);
    WithoutModelMultiset(sorted, entry);
    assert multiset(models)[entry] == 0 by { assert entry !in models; }
    assert multiset(WithoutModel(sorted, entry.id)) == multiset(models);
    WithoutModelSorted(sorted, entry.id);
    SortedArrangementUnique(WithoutModel(sorted, entry.id), models);
  }

  /** The active entry of a well-formed selection is the default connection. */
  lemma ActiveIsDefault(s: Selection)
    requires WellFormed(s) && s.Active().Some?
    ensures var c := s.connections[s.Active().value];
            c in s.connections && c.id == s.defaultConnection && s.Find(c.id) == s.Active()
  {
    var d :| d in s.connections && d.id == s.defaultConnection;
  }

  /** Merging a changed active entry replaces just that entry. */
  lemma MergeActive(s: Selection, models: seq<Model>)
    requires WellFormed(s) && s.Active().Some?
    ensures var at := s.Active().value; var active := s.connections[at];
            var next := Merge(s, active.(models := models));
            next == Selection(WEB_SETUP_VERSION, s.connections[at := active.(models := models)], s.defaultConnection)
            && next.Active() == Some(at)
  {
    ActiveIsDefault(s);
    var at := s.Active().value;
    var next := Merge(s, s.connections[at].(models := models));
    assert next.connections[at] in next.connections;
    assert next.Find(next.defaultConnection) == Some(at);
  }

  /** What a successful registration computes. */
  lemma AddModelShape(s: Selection, entry: Model)
    requires WellFormed(s) && Apply(AddModel(entry), s).Ok?
    ensures s.Active().Some?
    ensures var at := s.Active().value; var active := s.connections[at];
            var next := Apply(AddModel(entry), s).value;
            && entry.id != active.model && (forall m | m in active.models :: m.id != entry.id)
            && next == Selection(WEB_SETUP_VERSION,
                                 s.connections[at := active.(models := SortModels(active.models + [entry]))],
                                 s.defaultConnection)
            && next.Active() == Some(at)
  {
    var active := s.connections[s.Active().value];
    assert FindModel(active.models, entry.id).None?;
    MergeActive(s, SortModels(active.models + [entry]));
  }

  /** What a successful removal computes. */
  lemma RemoveModelShape(s: Selection, at: nat, entry: Model)
    requires WellFormed(s) && s.Active() == Some(at)
    requires entry in s.connections[at].models && entry.id != ""
    ensures var active := s.connections[at];
            Apply(RemoveModel(entry.id), s) ==
            Ok(Selection(WEB_SETUP_VERSION,
                         s.connections[at := active.(models := WithoutModel(active.models, entry.id))],
                         s.defaultConnection))
  {
    var active := s.connections[at];
    assert active in s.connections;
    assert FindModel(active.models, entry.id).Some?;
    MergeActive(s, WithoutModel(active.models, entry.id));
  }

  lemma AppendedSorts(models: seq<Model>, entry: Model)
    ensures entry in SortModels(models + [entry])
  {
    assert entry in multiset(SortModels(models + [entry]));
  }

  /** Registering a model and removing it again restores the selection. */
  lemma AddThenRemoveModel(s: Selection, entry: Model)
    requires WellFormed(s) && s.version == WEB_SETUP_VERSION && entry.id != ""
    requires Apply(AddModel(entry), s).Ok?
    ensures Apply(RemoveModel(entry.id), Apply(AddModel(entry), s).value) == Ok(s)
  {
    AddModelShape(s, entry);
    var at := s.Active().value;
    var models := s.connections[at].models;
    assert s.connections[at] in s.connections;
    AppendedSorts(models, entry);
    hide WellFormed, MutateModel, Merge, MergeKeepDefault, SortModels, WithoutModel, Selection.Active;
    var next := Apply(AddModel(entry), s).value;
    ApplyWellFormed(AddModel(entry), s);
    RemoveModelShape(next, at, entry);
    InsertionUndone(models, entry);
    assert next.connections[at := s.connections[at]] == s.connections;
  }

  lemma {:induction false} StrictlySortedBy(models: seq<Model>)
    requires ModelsSorted(models)
    ensures SortedBy(ModelBefore, models)
  {
    if models != [] {
      forall y | y in models[1..] ensures !ModelBefore(y, models[0]) {
        var k :| 0 <= k < |models[1..]| && models[1..][k] == y;
        assert models[k + 1] == y;
        LessAsymmetric(models[0].id, y.id);
      }
      StrictlySortedBy(models[1..]);
    }
  }

  /** The models registered on the active connection. */
  function ActiveModels(s: Selection): seq<Model> {
    if s.Active().Some? then s.connections[s.Active().value].models else []
  }

  /** Registration adds exactly one model, to the active connection. */
  lemma RegisteredModels(s: Selection, entry: Model)
    requires WellFormed(s) && Apply(AddModel(entry), s).Ok?
    ensures var next := Apply(AddModel(entry), s).value;
            next.Active() == s.Active()
            && next.connections[next.Active().value].model == s.connections[s.Active().value].model
            && Elements(ActiveModels(next)) == Elements(ActiveModels(s)) + {entry}
  {
    AddModelShape(s, entry);
    var added := ActiveModels(s) + [entry];
    SameElements(added, SortModels(added));
    assert Elements(added) == Elements(ActiveModels(s)) + {entry};
  }

  lemma RegisteredExactlyWhen(s: Selection, entry: Model)
    ensures Apply(AddModel(entry), s).Ok? <==>
            s.Active().Some? && entry.id != s.connections[s.Active().value].model
            && forall m | m in ActiveModels(s) :: m.id != entry.id
  {
    if s.Active().Some? {
      var models := s.connections[s.Active().value].models;
      assert FindModel(models, entry.id).Some? ==> models[FindModel(models, entry.id).value] in models;
    }
  }

  /** What an operation asks of the selection it is applied to. */
  lemma AppliesExactlyWhen(op: Operation, s: Selection)
    ensures Apply(op, s).Ok? <==>
            match op
            case Setup(_) => true
            case AddConnection(_) => true
            case RemoveConnection(id) => (exists c :: c in s.connections && c.id == id) && id != s.defaultConnection
            case SetDefault(id) => exists c :: c in s.connections && c.id == id
            case AddModel(entry) =>
              s.connections != [] && entry.id != s.connections[s.Active().value].model
              && forall m | m in s.connections[s.Active().value].models :: m.id != entry.id
            case UpdateModel(entry) =>
              s.connections != [] && entry.id != s.connections[s.Active().value].model
              && exists m :: m in s.connections[s.Active().value].models && m.id == entry.id
            case RemoveModel(id) =>
              id != "" && s.connections != [] && id != s.connections[s.Active().value].model
              && exists m :: m in s.connections[s.Active().value].models && m.id == id
  {
    match op {
      case RemoveConnection(id) => FoundExactlyWhen(s, id);
      case SetDefault(id) => FoundExactlyWhen(s, id);
      case AddModel(entry) => RegisteredExactlyWhen(s, entry);
      case UpdateModel(entry) => ModelFoundExactlyWhen(ActiveModels(s), entry.id);
      case RemoveModel(id) => ModelFoundExactlyWhen(ActiveModels(s), id);
      case _ =>
    }
  }

  lemma FoundExactlyWhen(s: Selection, id: string)
    ensures s.Find(id).Some? <==> exists c :: c in s.connections && c.id == id
  {
    assert s.Find(id).Some? ==> s.connections[s.Find(id).value] in s.connections;
  }

  lemma ModelFoundExactlyWhen(models: seq<Model>, id: string)
    ensures FindModel(models, id).Some? <==> exists m :: m in models && m.id == id
  {
    assert FindModel(models, id).Some? ==> models[FindModel(models, id).value] in models;
  }

  /** Two registrations computed from one snapshot: the second commit drops the
      first, while the serial order keeps both. */
  lemma StaleRegistrationIsLost(s: Selection, first: Model, second: Model)
    requires WellFormed(s) && first.id != second.id
    requires Apply(AddModel(first), s).Ok? && Apply(AddModel(second), s).Ok?
    ensures first !in ActiveModels(Apply(AddModel(second), s).value)
    ensures var serial := Apply(AddModel(second), Apply(AddModel(first), s).value);
            serial.Ok? && first in ActiveModels(serial.value) && second in ActiveModels(serial.value)
  {
    RegisteredModels(s, first);
    RegisteredModels(s, second);
    ApplyWellFormed(AddModel(first), s);
    RegisteredExactlyWhen(s, first);
    RegisteredExactlyWhen(s, second);
    hide WellFormed, Apply, ActiveModels, Selection.Active;
    var once, stale := Apply(AddModel(first), s).value, Apply(AddModel(second), s).value;
    assert first !in Elements(ActiveModels(stale));
    forall m | m in ActiveModels(once) ensures m.id != second.id {
      assert m in Elements(ActiveModels(once));
    }
    RegisteredExactlyWhen(once, second);
    RegisteredModels(once, second);
    var serial := Apply(AddModel(second), once).value;
    assert first in Elements(ActiveModels(serial)) && second in Elements(ActiveModels(serial));
  }
}
