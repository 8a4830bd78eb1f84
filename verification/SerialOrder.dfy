/** The operations of internal/host/workspace_manager.go are computed from a snapshot read before
    the transaction: exactly when the result is that of the selection they replace. */
module SerialOrder {
  import opened Common
  import opened Ordering
  import opened Connections

  /** Stored selections that are not empty have been written by a merge. */
  predicate Current(s: Selection) { s.connections != [] ==> s.version == WEB_SETUP_VERSION }

  predicate Sound(s: Selection) { WellFormed(s) && Current(s) && forall c | c in s.connections :: c.id != "" }

  /** What request resolution yields: a bare connection with an ID. */
  predicate Proper(op: Operation) {
    Resolved(op) && ((op.Setup? || op.AddConnection?) ==> op.connection.id != "")
  }

  function Bare(id: string): Connection { Connection(id, "", "", "", [], None) }

  function WithoutActiveModel(s: Selection, id: string): Selection {
    if s.Active().None? then s
    else
      var at := s.Active().value;
      s.(connections := s.connections[at := s.connections[at].(models := WithoutModel(s.connections[at].models, id))])
  }

  /** What an operation leaves of a selection, with what it writes blanked: an entry but for its
      stored credential, the default, or one model of the active connection. */
  function Erased(op: Operation, s: Selection): Selection {
    match op
    case Setup(c) => Merge(s, Bare(c.id))
    case AddConnection(c) => MergeKeepDefault(s, Bare(c.id))
    case RemoveConnection(id) => s.(connections := WithoutConnection(s.connections, id))
    case SetDefault(id) => s.(defaultConnection := id)
    case AddModel(entry) => WithoutActiveModel(s, entry.id)
    case UpdateModel(entry) => WithoutActiveModel(s, entry.id)
    case RemoveModel(id) => WithoutActiveModel(s, id)
  }

  predicate Holds(s: Selection, c: Connection) {
    s.Find(c.id).Some? &&
    var stored := s.connections[s.Find(c.id).value];
    stored == c.(credential := stored.credential)
  }

  /** The selection already is as the operation would have it. */
  predicate Done(op: Operation, s: Selection) {
    match op
    case Setup(c) => Holds(s, c) && s.defaultConnection == c.id
    case AddConnection(c) => Holds(s, c)
    case RemoveConnection(id) => s.Find(id).None?
    case SetDefault(id) => s.defaultConnection == id
    case AddModel(entry) => entry in ActiveModels(s)
    case UpdateModel(entry) => entry in ActiveModels(s)
    case RemoveModel(id) => forall m | m in ActiveModels(s) :: m.id != id
  }

  // ------------------------------------------------------------ connections alone

  lemma {:induction false} FoundAt(cs: seq<Connection>, i: nat)
    requires UniqueIds(cs) && i < |cs|
    ensures FindFrom(cs, cs[i].id) == Some(i)
  {
    if i > 0 {
      forall p, q | 0 <= p < q < |cs[1..]| ensures cs[1..][p].id != cs[1..][q].id {
        assert cs[1..][p] == cs[p + 1] && cs[1..][q] == cs[q + 1];
      }
      assert cs[1..][i - 1] == cs[i];
      FoundAt(cs[1..], i - 1);
    }
  }

  lemma {:induction false} WithoutAbsent(cs: seq<Connection>, id: string)
    requires FindFrom(cs, id).None?
    ensures WithoutConnection(cs, id) == cs
  {
    if cs != [] {
      assert cs[0] in cs && cs == [cs[0]] + cs[1..];
      WithoutAbsent(cs[1..], id);
    }
  }

  // ---------------------------------------------------------------- models alone

  /** Strictly sorted models are determined by their members. */
  lemma SameMembers(a: seq<Model>, b: seq<Model>)
    requires ModelsSorted(a) && ModelsSorted(b) && forall m :: m in a <==> m in b
    ensures a == b
  {
    SortedModelsDistinct(a);
    SortedModelsDistinct(b);
    forall m ensures multiset(a)[m] == multiset(b)[m] {
      NoDuplicateCount(a, m);
      NoDuplicateCount(b, m);
      assert m in a <==> m in multiset(a);
      assert m in b <==> m in multiset(b);
    }
    SortedArrangementUnique(a, b);
  }

  /** An ID stands for one model. */
  lemma OneOfId(models: seq<Model>, m: Model, other: Model)
    requires ModelsSorted(models) && m in models && other in models && m.id == other.id
    ensures m == other
  {
    SortedModelsDistinct(models);
  }

  /** So they are determined by one of them and the others. */
  lemma ModelsDetermined(a: seq<Model>, b: seq<Model>, entry: Model)
    requires ModelsSorted(a) && ModelsSorted(b) && entry in a && entry in b
    requires WithoutModel(a, entry.id) == WithoutModel(b, entry.id)
    ensures a == b
  {
    WithoutModelMembers(a, entry.id);
    WithoutModelMembers(b, entry.id);
    forall m ensures m in a <==> m in b {
      if m in a && m.id == entry.id { OneOfId(a, m, entry); }
      if m in b && m.id == entry.id { OneOfId(b, m, entry); }
      assert m in WithoutModel(a, entry.id) <==> m in WithoutModel(b, entry.id);
    }
    SameMembers(a, b);
  }

  lemma {:induction false} WithoutAbsentModel(models: seq<Model>, id: string)
    requires forall m | m in models :: m.id != id
    ensures WithoutModel(models, id) == models
  {
    if models != [] {
      assert models[0] in models && models == [models[0]] + models[1..];
      WithoutAbsentModel(models[1..], id);
    }
  }

  /** Replacing an entry changes nothing but the entry. */
  lemma ReplacementErased(models: seq<Model>, i: nat, entry: Model)
    requires ModelsSorted(models) && i < |models| && models[i].id == entry.id
    ensures var replaced := SortModels(models[i := entry]);
            ModelsSorted(replaced) && entry in replaced
            && WithoutModel(replaced, entry.id) == WithoutModel(models, entry.id)
  {
    var list := models[i := entry];
    var replaced := SortModels(list);
    SortedModelsDistinct(models);
    SortModelsStrict(list);
    assert list[i] == entry && entry in replaced;
    WithoutModelSorted(replaced, entry.id);
    WithoutModelSorted(models, entry.id);
    WithoutModelMembers(replaced, entry.id);
    WithoutModelMembers(models, entry.id);
    forall m: Model | m.id != entry.id ensures m in replaced <==> m in models {
      ReplacedOthers(models, i, entry, m);
    }
    SameMembers(WithoutModel(replaced, entry.id), WithoutModel(models, entry.id));
  }

  lemma ReplacedOthers(models: seq<Model>, i: nat, entry: Model, m: Model)
    requires i < |models| && models[i].id == entry.id != m.id
    ensures m in models[i := entry] <==> m in models
  {
    var list := models[i := entry];
    if m in models {
      var k :| 0 <= k < |models| && models[k] == m;
      assert list[k] == m;
    }
  }

  // ------------------------------------------------- what each operation overwrites

  lemma ErasedModel(s: Selection, id: string)
    requires WellFormed(s) && s.Active().Some?
    ensures var at := s.Active().value; var t := WithoutActiveModel(s, id);
            t.Active() == Some(at) && t.version == s.version && t.defaultConnection == s.defaultConnection
  {
    var t := WithoutActiveModel(s, id);
    SameIds(s.connections, t.connections, s.defaultConnection);
  }

  /** A change of the active connection's models is erased with them. */
  lemma ModelsErased(s: Selection, models: seq<Model>, id: string)
    requires WellFormed(s) && s.Active().Some? && s.version == WEB_SETUP_VERSION
    requires WithoutModel(models, id) == WithoutModel(ActiveModels(s), id)
    ensures var at := s.Active().value;
            var t := Merge(s, s.connections[at].(models := models));
            ActiveModels(t) == models && WithoutActiveModel(t, id) == WithoutActiveModel(s, id)
  {
    MergeActive(s, models);
    var at := s.Active().value;
    var t := Merge(s, s.connections[at].(models := models));
    assert WithoutActiveModel(t, id).connections == WithoutActiveModel(s, id).connections;
  }

  lemma ModelPut(op: Operation, s: Selection)
    requires Sound(s) && (op.AddModel? || op.UpdateModel? || op.RemoveModel?) && Apply(op, s).Ok?
    ensures Done(op, Apply(op, s).value) && Erased(op, Apply(op, s).value) == Erased(op, s)
  {
    var active := s.connections[s.Active().value];
    assert active in s.connections;
    match op {
      case AddModel(entry) =>
        assert FindModel(active.models, entry.id).None?;
        InsertionUndone(active.models, entry);
        WithoutAbsentModel(active.models, entry.id);
        ModelsErased(s, SortModels(active.models + [entry]), entry.id);
        AppendedSorts(active.models, entry);
      case UpdateModel(entry) =>
        var i := FindModel(active.models, entry.id).value;
        ReplacementErased(active.models, i, entry);
        ModelsErased(s, SortModels(active.models[i := entry]), entry.id);
      case RemoveModel(id) =>
        WithoutModelMembers(active.models, id);
        WithoutAbsentModel(WithoutModel(active.models, id), id);
        ModelsErased(s, WithoutModel(active.models, id), id);
    }
  }

  lemma MergePut(s: Selection, c: Connection)
    requires Sound(s) && c.credential.None?
    ensures var t := MergeKeepDefault(s, c);
            Holds(t, c) && MergeKeepDefault(t, Bare(c.id)) == MergeKeepDefault(s, Bare(c.id))
  {
    var t := MergeKeepDefault(s, c);
    MergeShape(s, c);
    MergeShape(s, Bare(c.id));
    assert MergeKeepDefault(t, Bare(c.id)).connections == MergeKeepDefault(s, Bare(c.id)).connections;
  }

  lemma MergeNamed(s: Selection, c: Connection)
    requires Sound(s) && c.id != ""
    ensures forall d | d in Merge(s, c).connections :: d.id != ""
    ensures Merge(s, c).version == WEB_SETUP_VERSION
  {
    var t := Merge(s, c);
    forall k | 0 <= k < |t.connections| ensures t.connections[k].id != "" {
      assert k < |s.connections| ==> s.connections[k] in s.connections;
    }
  }

  lemma PutSound(op: Operation, s: Selection)
    requires Sound(s) && Proper(op) && Apply(op, s).Ok?
    ensures Sound(Apply(op, s).value)
  {
    ApplyWellFormed(op, s);
    hide WellFormed, Apply, Resolved;
    match op {
      case Setup(c) => SetupNamed(op, s);
      case AddConnection(c) => SetupNamed(op, s);
      case RemoveConnection(id) => RemovalNamed(op, s);
      case SetDefault(_) => RemovalNamed(op, s);
      case _ => ModelOpNamed(op, s);
    }
  }

  lemma SetupNamed(op: Operation, s: Selection)
    requires Sound(s) && Proper(op) && (op.Setup? || op.AddConnection?)
    ensures Apply(op, s).Ok? && Current(Apply(op, s).value)
    ensures forall d | d in Apply(op, s).value.connections :: d.id != ""
  {
    MergeNamed(s, op.connection);
    hide MergeKeepDefault, Sound, Proper;
    assert Merge(s, op.connection).connections == MergeKeepDefault(s, op.connection).connections;
  }

  lemma RemovalNamed(op: Operation, s: Selection)
    requires Sound(s) && (op.RemoveConnection? || op.SetDefault?) && Apply(op, s).Ok?
    ensures Current(Apply(op, s).value)
    ensures forall d | d in Apply(op, s).value.connections :: d.id != ""
  {
    hide WellFormed;
    if op.RemoveConnection? {
      WithoutConnectionMembers(s.connections, op.id);
    }
  }

  lemma ModelOpNamed(op: Operation, s: Selection)
    requires Sound(s) && (op.AddModel? || op.UpdateModel? || op.RemoveModel?) && Apply(op, s).Ok?
    ensures var t := Apply(op, s).value;
            t.version == WEB_SETUP_VERSION && forall d | d in t.connections :: d.id != ""
  {
    hide SortModels, WithoutModel;
    var active := s.connections[s.Active().value];
    assert active in s.connections;
    var index := FindModel(active.models, if op.RemoveModel? then op.id else op.entry.id);
    match op {
      case RemoveModel(id) => MergeNamed(s, active.(models := WithoutModel(active.models, id)));
      case AddModel(entry) => MergeNamed(s, active.(models := SortModels(active.models + [entry])));
      case UpdateModel(entry) => MergeNamed(s, active.(models := SortModels(active.models[index.value := entry])));
    }
  }

  /** What an operation writes is there afterwards, and everything else is as before. */
  lemma Put(op: Operation, s: Selection)
    requires Sound(s) && Proper(op) && Apply(op, s).Ok?
    ensures var t := Apply(op, s).value; Sound(t) && Done(op, t) && Erased(op, t) == Erased(op, s)
  {
    PutSound(op, s);
    hide Sound, Holds, WithoutActiveModel;
    match op {
      case Setup(c) => MergePut(s, c);
      case AddConnection(c) => MergePut(s, c);
      case RemoveConnection(id) => RemovePut(s, id);
      case SetDefault(_) =>
      case _ => ModelPut(op, s);
    }
  }

  lemma RemovePut(s: Selection, id: string)
    ensures FindFrom(WithoutConnection(s.connections, id), id).None?
    ensures WithoutConnection(WithoutConnection(s.connections, id), id) == WithoutConnection(s.connections, id)
  {
    var rest := WithoutConnection(s.connections, id);
    WithoutConnectionMembers(s.connections, id);
    WithoutAbsent(rest, id);
  }

  lemma ModelsAgree(s: Selection, t: Selection, id: string, entry: Option<Model>)
    requires Sound(s) && Sound(t) && WithoutActiveModel(s, id) == WithoutActiveModel(t, id)
    requires match entry
             case Some(e) => e.id == id && e in ActiveModels(s) && e in ActiveModels(t)
             case None => forall m | m in ActiveModels(s) + ActiveModels(t) :: m.id != id
    ensures s == t
  {
    if s.Active().Some? && t.Active().Some? {
      ErasedModel(s, id);
      ErasedModel(t, id);
      var at := s.Active().value;
      var a, b := s.connections[at], t.connections[at];
      assert a in s.connections && b in t.connections;
      var erased := WithoutActiveModel(s, id).connections;
      assert erased[at] == a.(models := WithoutModel(a.models, id)) == b.(models := WithoutModel(b.models, id));
      if entry.Some? {
        ModelsDetermined(a.models, b.models, entry.value);
      } else {
        WithoutAbsentModel(a.models, id);
        WithoutAbsentModel(b.models, id);
      }
      assert a == b;
      forall k | 0 <= k < |s.connections| ensures s.connections[k] == t.connections[k] {
        assert k != at ==> erased[k] == s.connections[k] == t.connections[k];
      }
    }
  }

  lemma HoldsAgree(s: Selection, t: Selection, c: Connection)
    requires Sound(s) && Sound(t) && Holds(s, c) && Holds(t, c)
    requires MergeKeepDefault(s, Bare(c.id)).connections == MergeKeepDefault(t, Bare(c.id)).connections
    ensures s.connections == t.connections && s.version == t.version
  {
    MergeShape(s, Bare(c.id));
    MergeShape(t, Bare(c.id));
  }

  /** Selections that already are as an operation would have them are determined by the rest. */
  lemma Determined(op: Operation, s: Selection, t: Selection)
    requires Sound(s) && Sound(t) && Done(op, s) && Done(op, t) && Erased(op, s) == Erased(op, t)
    ensures s == t
  {
    match op {
      case Setup(c) => HoldsAgree(s, t, c);
      case AddConnection(c) => HoldsAgree(s, t, c);
      case RemoveConnection(id) =>
        WithoutAbsent(s.connections, id);
        WithoutAbsent(t.connections, id);
      case SetDefault(_) =>
      case AddModel(entry) => ModelsAgree(s, t, entry.id, Some(entry));
      case UpdateModel(entry) => ModelsAgree(s, t, entry.id, Some(entry));
      case RemoveModel(id) => ModelsAgree(s, t, id, None);
    }
  }

  lemma BoundIds(s: Selection, i: nat, reference: Reference, id: string)
    requires i < |s.connections|
    ensures s.WithCredential(i, reference).Find(id) == s.Find(id)
    ensures s.WithCredential(i, reference).Active() == s.Active()
  {
    var t := s.WithCredential(i, reference);
    SameIds(s.connections, t.connections, id);
    SameIds(s.connections, t.connections, s.defaultConnection);
  }

  lemma BindMerged(s: Selection, c: Connection, i: nat, reference: Reference)
    requires Sound(s) && Holds(s, c) && i < |s.connections|
    ensures var t := s.WithCredential(i, reference);
            Holds(t, c)
            && MergeKeepDefault(t, Bare(c.id)) == Bind(MergeKeepDefault(s, Bare(c.id)), Some((i, reference)))
  {
    var t := s.WithCredential(i, reference);
    BoundIds(s, i, reference, c.id);
    assert MergeKeepDefault(t, Bare(c.id)).connections ==
           Bind(MergeKeepDefault(s, Bare(c.id)), Some((i, reference))).connections;
  }

  lemma BindModels(s: Selection, id: string, i: nat, reference: Reference)
    requires i < |s.connections|
    ensures var t := s.WithCredential(i, reference);
            ActiveModels(t) == ActiveModels(s)
            && WithoutActiveModel(t, id) == Bind(WithoutActiveModel(s, id), Some((i, reference)))
  {
    var t := s.WithCredential(i, reference);
    BoundIds(s, i, reference, "");
    assert WithoutActiveModel(t, id).connections ==
           Bind(WithoutActiveModel(s, id), Some((i, reference))).connections;
  }

  lemma BindSound(s: Selection, i: nat, reference: Reference)
    requires Sound(s) && i < |s.connections|
    ensures Sound(s.WithCredential(i, reference))
  {
    var t := s.WithCredential(i, reference);
    WithCredentialWellFormed(s, i, reference);
    forall c | c in t.connections ensures c.id != "" {
      assert s.connections[i] in s.connections;
    }
  }

  /** Binding a credential keeps what an operation wrote, and commutes with erasing. */
  lemma BindKeeps(op: Operation, s: Selection, b: Option<(nat, Reference)>)
    requires Sound(s) && Done(op, s)
    ensures Sound(Bind(s, b)) && Done(op, Bind(s, b)) && Erased(op, Bind(s, b)) == Bind(Erased(op, s), b)
  {
    hide Sound, Holds, WithoutActiveModel, MergeKeepDefault;
    if b.Some? {
      var (i, reference) := b.value;
      if i < |s.connections| {
        BindSound(s, i, reference);
        match op {
          case Setup(c) => BindMerged(s, c, i, reference);
          case AddConnection(c) => BindMerged(s, c, i, reference);
          case RemoveConnection(id) =>
            BoundIds(s, i, reference, id);
            WithoutAbsent(s.connections, id);
            WithoutAbsent(s.WithCredential(i, reference).connections, id);
          case SetDefault(_) =>
          case AddModel(entry) => BindModels(s, entry.id, i, reference);
          case UpdateModel(entry) => BindModels(s, entry.id, i, reference);
          case RemoveModel(id) => BindModels(s, id, i, reference);
        }
      } else {
        NothingBound(op, s, b);
      }
    }
  }

  lemma NothingBound(op: Operation, s: Selection, b: Option<(nat, Reference)>)
    requires Sound(s) && Done(op, s) && b.Some? && b.value.0 >= |s.connections|
    ensures Bind(Erased(op, s), b) == Erased(op, s)
  {
    match op {
      case RemoveConnection(id) => WithoutAbsent(s.connections, id);
      case _ =>
    }
  }

  // ------------------------------------------------------------------ the theorems

  /** Nothing is left to do: neither the operation nor its key would change the selection. */
  predicate Idle(op: Operation, b: Option<(nat, Reference)>, s: Selection) { Done(op, s) && Bind(s, b) == s }

  /** The snapshot differs from the last selection at most in what the operation and its key
      overwrite, and if only one of them lets the operation through it has no effect left. */
  predicate Serial(op: Operation, b: Option<(nat, Reference)>, base: Selection, last: Selection) {
    if Apply(op, base).Ok? then
      && Bind(Erased(op, base), b) == Bind(Erased(op, last), b)
      && (Apply(op, last).Ok? || Idle(op, b, last))
    else Apply(op, last).Err? || Idle(op, b, last)
  }

  /** What a change commits is idle for it. */
  lemma CommitIdle(op: Operation, b: Option<(nat, Reference)>, s: Selection)
    requires Sound(s) && Proper(op) && Apply(op, s).Ok?
    ensures var t := Bind(Apply(op, s).value, b);
            Sound(t) && Idle(op, b, t) && Erased(op, t) == Bind(Erased(op, s), b)
  {
    hide Sound, Done, Erased, Apply;
    Put(op, s);
    BindKeeps(op, Apply(op, s).value, b);
    BindTwice(Apply(op, s).value, b);
  }

  lemma BindTwice(s: Selection, b: Option<(nat, Reference)>)
    ensures Bind(Bind(s, b), b) == Bind(s, b)
  {
    if b.Some? && b.value.0 < |s.connections| {
      assert Bind(Bind(s, b), b).connections == Bind(s, b).connections;
    }
  }

  /** A result is the last selection exactly when that has nothing left to do and the rest agrees. */
  lemma CommitsLast(op: Operation, b: Option<(nat, Reference)>, base: Selection, last: Selection)
    requires Sound(base) && Sound(last) && Proper(op) && Apply(op, base).Ok?
    ensures Bind(Apply(op, base).value, b) == last <==>
            Idle(op, b, last) && Bind(Erased(op, base), b) == Bind(Erased(op, last), b)
  {
    hide Sound, Done, Erased, Apply;
    CommitIdle(op, b, base);
    BindTwice(Erased(op, base), b);
    if Idle(op, b, last) {
      BindKeeps(op, last, b);
      if Bind(Erased(op, base), b) == Bind(Erased(op, last), b) {
        Determined(op, Bind(Apply(op, base).value, b), last);
      }
    }
  }

  /** A commit computed from any snapshot is the one computed from the last selection exactly
      under that condition, whatever the operation and the key it binds. */
  lemma SerialExactlyWhen(change: Change, earlier: seq<Selection>)
    requires earlier != [] && Proper(change.op) && forall s | s in earlier :: Sound(s)
    ensures Commit(change, earlier) == Commit(change.(snapshot := |earlier|), earlier) <==>
            Serial(change.op, change.binding, Base(change, earlier), earlier[|earlier| - 1])
  {
    hide Sound, Done, Erased, Apply, Idle;
    var (op, b) := (change.op, change.binding);
    var base, last := Base(change, earlier), earlier[|earlier| - 1];
    assert base in earlier && last in earlier;
    if Apply(op, last).Ok? {
      var serial := Bind(Apply(op, last).value, b);
      CommitIdle(op, b, last);
      CommitsLast(op, b, last, last);
      BindTwice(Erased(op, last), b);
      if Apply(op, base).Ok? {
        CommitsLast(op, b, base, serial);
      }
    } else if Apply(op, base).Ok? {
      CommitsLast(op, b, base, last);
    }
  }

  /** Registrations that succeed on both agree exactly when snapshot and last selection do, up
      to the credential bound; updates and removals exactly when they do up to the one model. */
  lemma ModelChangeSerialExactlyWhen(op: Operation, b: Option<(nat, Reference)>, base: Selection, last: Selection)
    requires Sound(base) && Sound(last) && (op.AddModel? || op.UpdateModel? || op.RemoveModel?)
    requires Apply(op, base).Ok? && Apply(op, last).Ok?
    ensures Bind(Apply(op, base).value, b) == Bind(Apply(op, last).value, b) <==>
            match op
            case AddModel(_) => Bind(base, b) == Bind(last, b)
            case UpdateModel(entry) =>
              Bind(WithoutActiveModel(base, entry.id), b) == Bind(WithoutActiveModel(last, entry.id), b)
            case RemoveModel(id) => Bind(WithoutActiveModel(base, id), b) == Bind(WithoutActiveModel(last, id), b)
            case _ => false
  {
    CommitIdle(op, b, last);
    CommitsLast(op, b, base, Bind(Apply(op, last).value, b));
    BindTwice(Erased(op, last), b);
    if op.AddModel? {
      Unregistered(base, op.entry);
      Unregistered(last, op.entry);
    }
  }

  lemma Unregistered(s: Selection, entry: Model)
    requires Apply(AddModel(entry), s).Ok?
    ensures WithoutActiveModel(s, entry.id) == s
  {
    var at := s.Active().value;
    assert FindModel(s.connections[at].models, entry.id).None?;
    WithoutAbsentModel(s.connections[at].models, entry.id);
    assert WithoutActiveModel(s, entry.id).connections == s.connections;
  }

  /** Every change computed from the last selection. */
  function InSeries(changes: seq<Change>): seq<Change> {
    if changes == [] then []
    else
      var n := |changes| - 1;
      InSeries(changes[..n]) + [changes[n].(snapshot := |changes|)]
  }

  /** The condition for every change of a history at its own place. */
  ghost predicate AllSerial(changes: seq<Change>) {
    changes == [] ||
    var n := |changes| - 1;
    var earlier := History(changes[..n]);
    && AllSerial(changes[..n])
    && Serial(changes[n].op, changes[n].binding, Base(changes[n], earlier), earlier[|earlier| - 1])
  }

  lemma EmptySound()
    ensures Sound(EMPTY)
  {
  }

  lemma {:induction false} HistorySound(changes: seq<Change>)
    requires forall c | c in changes :: Proper(c.op)
    ensures forall s | s in History(changes) :: Sound(s)
  {
    hide Sound, Apply, Proper;
    if changes == [] {
      EmptySound();
    } else {
      var n := |changes| - 1;
      HistorySound(changes[..n]);
      var earlier := History(changes[..n]);
      assert changes[n] in changes && earlier[|earlier| - 1] in earlier && Base(changes[n], earlier) in earlier;
      if Apply(changes[n].op, Base(changes[n], earlier)).Ok? {
        CommitIdle(changes[n].op, changes[n].binding, Base(changes[n], earlier));
      }
    }
  }

  /** Concurrent changes have the effect of the same changes in series exactly when each of them
      meets the condition where it commits. */
  lemma {:induction false} HistoryIsSerialExactlyWhen(changes: seq<Change>)
    requires forall c | c in changes :: Proper(c.op)
    ensures |InSeries(changes)| == |changes|
    ensures History(changes) == History(InSeries(changes)) <==> AllSerial(changes)
  {
    hide Serial, Commit, Sound, Proper;
    if changes != [] {
      var n := |changes| - 1;
      HistoryIsSerialExactlyWhen(changes[..n]);
      HistorySound(changes[..n]);
      var earlier := History(changes[..n]);
      var series := InSeries(changes);
      assert series[..n] == InSeries(changes[..n]) && series[n] == changes[n].(snapshot := |changes|);
      assert History(changes)[..n + 1] == earlier && History(series)[..n + 1] == History(series[..n]);
      assert changes[n] in changes;
      SerialExactlyWhen(changes[n], earlier);
    }
  }
}
