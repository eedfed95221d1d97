/** The field cache of apps/common/cache.py: a handle's local snapshot, over a shared hash, over values
    that can be recomputed from the database. */
module FieldCache {
  import opened Wrappers

  type Field = string
  type Values = map<Field, string>

  // ---------- What each operation does ----------

  /** A handle's view of the world: the shared hash and its own snapshot. */
  datatype View = View(hash: Values, data: Option<Values>)

  /** `to_internal_value` drops entries of the hash that are not declared fields. */
  function Declared(hash: Values, fields: set<Field>): Values { map f | f in hash && f in fields :: hash[f] }

  /** `compute_values` */
  function Computed(source: Values, fields: set<Field>): Values { map f | f in fields && f in source :: source[f] }

  /** `load_data_from_db`: an empty hash leaves the snapshot alone. */
  function Load(v: View, fields: set<Field>): (View, Values) {
    if v.hash == map[] then (v, map[])
    else (v.(data := Some(Declared(v.hash, fields))), Declared(v.hash, fields))
  }

  function Save(v: View, fields: set<Field>, data: Values): View { Load(v.(hash := v.hash + data), fields).0 }

  function InitAll(v: View, fields: set<Field>, source: Values): View { Save(v, fields, Computed(source, fields)) }

  /** The `data` property. */
  function Ensure(v: View, fields: set<Field>, source: Values): View {
    if v.data.Some? then v
    else
      var (v1, data) := Load(v, fields);
      if data == map[] then InitAll(v1, fields, source) else v1
  }

  /** `refresh(*names)` */
  function Refresh(v: View, fields: set<Field>, source: Values, names: set<Field>): View {
    if names == {} then InitAll(v, fields, source)
    else
      var (v1, data) := Load(v, fields);
      if data == map[] then InitAll(v1, fields, source) else Save(v1, fields, Computed(source, names))
  }

  /** `expire(*names)` */
  function Expire(v: View, names: set<Field>): View {
    View(if names == {} then map[] else v.hash - names, None)
  }

  function Lookup(data: Option<Values>, f: Field): Option<string> {
    if data.Some? && f in data.value then Some(data.value[f]) else None
  }

  /** Reading a field through its descriptor. */
  function Read(v: View, fields: set<Field>, source: Values, f: Field): (View, Option<string>) {
    var v1 := Ensure(v, fields, source);
    var v2 := if Lookup(v1.data, f).Some? then v1 else Refresh(v1, fields, source, {f});
    var v3 := Ensure(v2, fields, source);
    (v3, Lookup(v3.data, f))
  }

  // ---------- Shared store and handles ----------

  /** The hash of one key in Redis, and the values the database would yield now. */
  class Store {
    var hash: Values
    var source: Values

    constructor (source: Values)
      ensures hash == map[] && this.source == source
    {
      hash, this.source := map[], source;
    }
  }

  class Cache {
    const store: Store
    const fields: set<Field>
    var data: Option<Values>

    function V(): View reads this, store { View(store.hash, data) }

    constructor (store: Store, fields: set<Field>)
      ensures this.store == store && this.fields == fields && data == None
    {
      this.store, this.fields, this.data := store, fields, None;
    }

    method LoadDataFromDb() returns (loaded: Values)
      modifies this
      ensures (V(), loaded) == Load(old(V()), fields)
      ensures store.hash == map[] ==> data == old(data) && loaded == map[]
    {
      loaded := map[];
      if store.hash != map[] {
        loaded := Declared(store.hash, fields);
        data := Some(loaded);
      }
    }

    method SaveDataToDb(values: Values)
      modifies this, store`hash
      ensures V() == Save(old(V()), fields, values)
    {
      store.hash := store.hash + values;
      var _ := LoadDataFromDb();
    }

    method InitAllValues()
      modifies this, store`hash
      ensures V() == InitAll(old(V()), fields, store.source)
    {
      SaveDataToDb(Computed(store.source, fields));
    }

    /** The property loads twice, the second time under the compute lock. */
    method Data() returns (values: Option<Values>)
      modifies this, store`hash
      ensures V() == Ensure(old(V()), fields, store.source) && values == data
    {
      if data.None? {
        var loaded := LoadDataFromDb();
        if loaded == map[] {
          loaded := LoadDataFromDb();
          if loaded == map[] { InitAllValues(); }
        }
      }
      values := data;
    }

    method RefreshFields(names: set<Field>)
      modifies this, store`hash
      ensures V() == Refresh(old(V()), fields, store.source, names)
    {
      if names == {} {
        InitAllValues();
        return;
      }
      var loaded := LoadDataFromDb();
      if loaded == map[] {
        InitAllValues();
        return;
      }
      SaveDataToDb(Computed(store.source, names));
    }

    method Reload()
      modifies this
      ensures V() == old(V()).(data := None)
    {
      data := None;
    }

    method ExpireFields(names: set<Field>)
      modifies this, store`hash
      ensures V() == Expire(old(V()), names)
    {
      data := None;
      if names == {} { store.hash := map[]; } else { store.hash := store.hash - names; }
    }

    method Get(f: Field) returns (value: Option<string>)
      modifies this, store`hash
      ensures (V(), value) == Read(old(V()), fields, store.source, f)
    {
      var values := Data();
      if Lookup(values, f).None? { RefreshFields({f}); }
      values := Data();
      value := Lookup(values, f);
    }
  }

  // ---------- One read ----------

  predicate Sources(fields: set<Field>, source: Values) { source.Keys == fields }

  /** Every declared entry, but for those of some fields, is what recomputation gives now. */
  predicate CoherentBut(values: Values, fields: set<Field>, source: Values, but: set<Field>) {
    forall f | f in values && f in fields && f in source && f !in but :: values[f] == source[f]
  }

  predicate HoldsSnapshot(v: View, f: Field) { v.data.Some? && f in v.data.value }

  /** What a read yields: the snapshot's value where the handle's snapshot has one; without a snapshot the
      hash's value where the hash has one; otherwise the recomputed value. */
  lemma ReadYields(v: View, fields: set<Field>, source: Values, f: Field)
    requires Sources(fields, source) && f in fields
    ensures Read(v, fields, source, f).1
            == Some(if HoldsSnapshot(v, f) then v.data.value[f]
                    else if v.data.None? && f in v.hash then v.hash[f]
                    else source[f])
  {
    var v1 := Ensure(v, fields, source);
    EnsureYields(v, fields, source, f);
    RefreshYields(v1, fields, source, f);
    hide Ensure, Refresh, Load;
    var v2 := if Lookup(v1.data, f).Some? then v1 else Refresh(v1, fields, source, {f});
    EnsureYields(v2, fields, source, f);
  }

  lemma EnsureYields(v: View, fields: set<Field>, source: Values, f: Field)
    requires Sources(fields, source) && f in fields
    ensures var v1 := Ensure(v, fields, source);
            && v1.data.Some?
            && (v.data.Some? ==> v1 == v)
            && (v.data.None? && f in v.hash ==> f in v1.data.value && v1.data.value[f] == v.hash[f])
            && (v.data.None? && f !in v.hash && f in v1.data.value ==> v1.data.value[f] == source[f])
  {
    if v.data.None? && f in v.hash { assert f in Declared(v.hash, fields); }
    if v.data.None? && Load(v, fields).1 == map[] { assert f in (v.hash + Computed(source, fields)); }
  }

  lemma RefreshYields(v: View, fields: set<Field>, source: Values, f: Field)
    requires Sources(fields, source) && f in fields
    ensures var v1 := Refresh(v, fields, source, {f});
            v1.data.Some? && f in v1.data.value && v1.data.value[f] == source[f]
  {
    assert f in Computed(source, fields) && f in Computed(source, {f});
    assert f in (v.hash + Computed(source, fields)) && f in (v.hash + Computed(source, {f}));
  }

  /** A field that the handle's own snapshot does not hold reads as recomputation gives it now if and only
      if the handle has a snapshot without it, or the hash lacks it or holds its current value. */
  lemma ReadIsCurrentIff(v: View, fields: set<Field>, source: Values, f: Field)
    requires Sources(fields, source) && f in fields && !HoldsSnapshot(v, f)
    ensures Read(v, fields, source, f).1 == Some(source[f])
            <==> v.data.Some? || f !in v.hash || v.hash[f] == source[f]
  {
    ReadYields(v, fields, source, f);
    hide Read;
  }

  /** A refresh of some fields on a hash with data changes no other entry. */
  lemma RefreshLeavesOthers(v: View, fields: set<Field>, source: Values, names: set<Field>, f: Field)
    requires names != {} && Declared(v.hash, fields) != map[] && f !in names
    ensures var v1 := Refresh(v, fields, source, names);
            (f in v1.hash <==> f in v.hash) && (f in v.hash ==> v1.hash[f] == v.hash[f])
  {
  }

  /** The hash has the current value of the recomputed fields, and is otherwise as before. */
  predicate Recomputed(before: Values, after: Values, source: Values, names: set<Field>) {
    && (forall f | f in after :: f in before || f in names)
    && (forall f | f in names :: f in after && f in source && after[f] == source[f])
    && (forall f | f in before && f !in names :: f in after && after[f] == before[f])
  }

  /** The snapshot is the part of the hash under declared fields. */
  predicate Mirrors(v: View, fields: set<Field>) {
    && v.data.Some?
    && (forall f | f in v.data.value :: f in fields && f in v.hash && v.data.value[f] == v.hash[f])
    && (forall f | f in v.hash && f in fields :: f in v.data.value)
  }

  predicate NoneDeclared(hash: Values, fields: set<Field>) { forall f | f in hash :: f !in fields }

  /** The fields that a refresh of some names recomputes: all when none are named or the hash holds nothing. */
  function Refreshed(v: View, fields: set<Field>, names: set<Field>): set<Field> {
    if names == {} || NoneDeclared(v.hash, fields) then fields else names
  }

  lemma DeclaredNone(hash: Values, fields: set<Field>)
    ensures Declared(hash, fields) == map[] <==> NoneDeclared(hash, fields)
  {
    if !NoneDeclared(hash, fields) {
      var f :| f in hash && f in fields;
      assert f in Declared(hash, fields);
    }
  }

  lemma SaveRecomputes(v: View, fields: set<Field>, source: Values, names: set<Field>)
    requires Sources(fields, source) && names <= fields && names != {}
    ensures var v1 := Save(v, fields, Computed(source, names));
            Recomputed(v.hash, v1.hash, source, names) && Mirrors(v1, fields)
  {
    var f :| f in names;
    assert f in (v.hash + Computed(source, names));
  }

  /** A refresh writes the current values of the fields it recomputes to the shared hash, changes nothing else
      there, and takes its snapshot from it. */
  lemma RefreshStores(v: View, fields: set<Field>, source: Values, names: set<Field>)
    requires Sources(fields, source) && names <= fields && fields != {}
    ensures var v1 := Refresh(v, fields, source, names);
            Recomputed(v.hash, v1.hash, source, Refreshed(v, fields, names)) && Mirrors(v1, fields)
  {
    DeclaredNone(v.hash, fields);
    var v0 := Load(v, fields).0;
    SaveRecomputes(v, fields, source, fields);
    SaveRecomputes(v0, fields, source, fields);
    if names != {} { SaveRecomputes(v0, fields, source, names); }
    hide Save, Mirrors, Recomputed, NoneDeclared;
  }

  /** What a read leaves: nothing changes when the snapshot has the field; the snapshot is loaded when there is
      none and the hash has it; otherwise the field, or every field when the hash holds none, is recomputed
      into the hash for all handles. */
  lemma ReadLeaves(v: View, fields: set<Field>, source: Values, f: Field)
    requires Sources(fields, source) && f in fields
    ensures var v1 := Read(v, fields, source, f).0;
            if HoldsSnapshot(v, f) then v1 == v
            else if v.data.None? && f in v.hash then v1.hash == v.hash && Mirrors(v1, fields)
            else Recomputed(v.hash, v1.hash, source, Refreshed(v, fields, {f})) && Mirrors(v1, fields)
  {
    var v1 := Ensure(v, fields, source);
    EnsureLeaves(v, fields, source, f);
    RefreshStores(v1, fields, source, {f});
    RefreshYields(v1, fields, source, f);
    hide Ensure, Refresh, Load, Mirrors, Recomputed, NoneDeclared;
    var v2 := if Lookup(v1.data, f).Some? then v1 else Refresh(v1, fields, source, {f});
    EnsureLeaves(v2, fields, source, f);
  }

  lemma EnsureLeaves(v: View, fields: set<Field>, source: Values, f: Field)
    requires Sources(fields, source) && f in fields
    ensures var v1 := Ensure(v, fields, source);
            && v1.data.Some?
            && (v.data.Some? ==> v1 == v)
            && (v.data.None? ==> Mirrors(v1, fields))
            && (v.data.None? && !NoneDeclared(v.hash, fields) ==>
                  v1.hash == v.hash && (f in v.hash <==> f in v1.data.value))
            && (v.data.None? && NoneDeclared(v.hash, fields) ==>
                  Recomputed(v.hash, v1.hash, source, fields) && f in v1.data.value)
  {
    DeclaredNone(v.hash, fields);
    SaveRecomputes(Load(v, fields).0, fields, source, fields);
    hide Save, NoneDeclared;
  }

  /** Expiring drops the handle's snapshot, and from the hash the named entries or, without names, all. */
  lemma ExpireForgets(v: View, names: set<Field>)
    ensures var v1 := Expire(v, names);
            && v1.data == None
            && (forall f :: f in v1.hash <==> f in v.hash && f !in names && names != {})
            && (forall f | f in v1.hash :: v1.hash[f] == v.hash[f])
  {
  }

  // ---------- Whole runs, with several handles ----------

  /** A change of the database and the expiry of fields are separate events: expiries are deferred until a
      transaction commits, or merged over half a minute. */
  datatype Event =
    | Change(source: Values)
    | ReadField(handle: nat, f: Field)
    | RefreshNames(handle: nat, names: set<Field>)
    | ExpireNames(handle: nat, names: set<Field>)
    | ReloadHandle(handle: nat)

  /** A handle's snapshot; `behind` is history: the fields that may have changed since its values were
      current. */
  datatype Handle = Handle(data: Option<Values>, behind: set<Field>)

  /** `pending` is history: the fields that changed and have not been expired or refreshed since. */
  datatype World = World(source: Values, hash: Values, handles: seq<Handle>, pending: set<Field>)

  function ViewOf(w: World, i: nat): View
    requires i < |w.handles|
  {
    View(w.hash, w.handles[i].data)
  }

  function Changed(fields: set<Field>, a: Values, b: Values): set<Field> {
    set f | f in fields && (f !in a || f !in b || a[f] != b[f])
  }

  predicate InOrder(w: World, fields: set<Field>, e: Event) {
    match e
    case Change(source) => Sources(fields, source)
    case ReadField(i, f) => i < |w.handles| && f in fields
    case RefreshNames(i, names) => i < |w.handles| && names <= fields
    case ExpireNames(i, _) => i < |w.handles|
    case ReloadHandle(i) => i < |w.handles|
  }

  /** The fields still pending after a refresh. */
  function StillPending(w: World, fields: set<Field>, names: set<Field>): set<Field> {
    if names == {} || Declared(w.hash, fields) == map[] then {} else w.pending - names
  }

  /** Handle i has another view; a snapshot that is new is as far behind as the hash. */
  function WithView(w: World, i: nat, v: View, kept: bool): World
    requires i < |w.handles|
  {
    w.(hash := v.hash, handles := w.handles[i := Handle(v.data, if kept then w.handles[i].behind else w.pending)])
  }

  function Step(w: World, fields: set<Field>, e: Event): World
    requires InOrder(w, fields, e)
  {
    match e
    case Change(source) =>
      var changed := Changed(fields, w.source, source);
      World(source, w.hash,
        seq(|w.handles|, i requires 0 <= i < |w.handles| => w.handles[i].(behind := w.handles[i].behind + changed)),
        w.pending + changed)
    case ReadField(i, f) =>
      WithView(w, i, Read(ViewOf(w, i), fields, w.source, f).0, HoldsSnapshot(ViewOf(w, i), f))
    case RefreshNames(i, names) =>
      WithView(w.(pending := StillPending(w, fields, names)), i, Refresh(ViewOf(w, i), fields, w.source, names), false)
    case ExpireNames(i, names) =>
      WithView(w.(pending := if names == {} then {} else w.pending - names), i, Expire(ViewOf(w, i), names), false)
    case ReloadHandle(i) => WithView(w, i, ViewOf(w, i).(data := None), false)
  }

  predicate Possible(w: World, fields: set<Field>, es: seq<Event>)
    decreases |es|
  {
    es == [] || (InOrder(w, fields, es[0]) && Possible(Step(w, fields, es[0]), fields, es[1..]))
  }

  function Run(w: World, fields: set<Field>, es: seq<Event>): World
    requires Possible(w, fields, es)
    decreases |es|
  {
    if es == [] then w else Run(Step(w, fields, es[0]), fields, es[1..])
  }

  predicate SnapshotSound(w: World, fields: set<Field>, i: nat)
    requires i < |w.handles|
  {
    w.handles[i].data.Some? ==> CoherentBut(w.handles[i].data.value, fields, w.source, w.handles[i].behind)
  }

  /** The hash is current but for the pending fields, and each snapshot but for those it is behind in. */
  predicate Sound(w: World, fields: set<Field>) {
    && fields != {} && Sources(fields, w.source)
    && CoherentBut(w.hash, fields, w.source, w.pending)
    && forall i: nat | i < |w.handles| :: SnapshotSound(w, fields, i)
  }

  lemma ViewSound(w: World, fields: set<Field>, i: nat, v: View, kept: bool)
    requires Sound(w, fields) && i < |w.handles| && CoherentBut(v.hash, fields, w.source, w.pending)
    requires v.data.Some? ==>
               if kept then v.data == w.handles[i].data else CoherentBut(v.data.value, fields, w.source, w.pending)
    ensures Sound(WithView(w, i, v, kept), fields)
  {
    var r := WithView(w, i, v, kept);
    forall j: nat | j < |r.handles| ensures SnapshotSound(r, fields, j) {
      assert SnapshotSound(w, fields, j);
    }
  }

  lemma SaveCoherent(v: View, fields: set<Field>, source: Values, names: set<Field>, but: set<Field>)
    requires Sources(fields, source) && names <= fields && CoherentBut(v.hash, fields, source, but)
    ensures var v1 := Save(v, fields, Computed(source, names));
            && CoherentBut(v1.hash, fields, source, but - names)
            && (names != {} ==> v1.data.Some? && CoherentBut(v1.data.value, fields, source, but - names))
  {
    if names != {} {
      var f :| f in names;
      assert f in (v.hash + Computed(source, names));
    }
  }

  lemma InitCurrent(v: View, fields: set<Field>, source: Values)
    requires Sources(fields, source) && fields != {}
    ensures var v1 := InitAll(v, fields, source);
            CoherentBut(v1.hash, fields, source, {}) && v1.data.Some? && CoherentBut(v1.data.value, fields, source, {})
  {
    var f :| f in fields;
    assert f in (v.hash + Computed(source, fields));
  }

  lemma EnsureCoherent(v: View, fields: set<Field>, source: Values, but: set<Field>)
    requires Sources(fields, source) && fields != {} && CoherentBut(v.hash, fields, source, but)
    ensures var v1 := Ensure(v, fields, source);
            && CoherentBut(v1.hash, fields, source, but) && v1.data.Some?
            && (v.data.Some? ==> v1 == v)
            && (v.data.None? ==> CoherentBut(v1.data.value, fields, source, but))
  {
    InitCurrent(Load(v, fields).0, fields, source);
    hide InitAll;
  }

  lemma RefreshCoherent(v: View, fields: set<Field>, source: Values, names: set<Field>, but: set<Field>)
    requires Sources(fields, source) && names <= fields && fields != {} && CoherentBut(v.hash, fields, source, but)
    ensures var v1 := Refresh(v, fields, source, names);
            var left := if names == {} || Declared(v.hash, fields) == map[] then {} else but - names;
            && CoherentBut(v1.hash, fields, source, left)
            && v1.data.Some? && CoherentBut(v1.data.value, fields, source, left)
  {
    InitCurrent(v, fields, source);
    InitCurrent(Load(v, fields).0, fields, source);
    SaveCoherent(Load(v, fields).0, fields, source, names, but);
    hide InitAll, Save;
  }

  lemma ReadCoherent(v: View, fields: set<Field>, source: Values, f: Field, but: set<Field>)
    requires Sources(fields, source) && f in fields && CoherentBut(v.hash, fields, source, but)
    ensures var v1 := Read(v, fields, source, f).0;
            && CoherentBut(v1.hash, fields, source, but) && v1.data.Some?
            && if HoldsSnapshot(v, f) then v1.data == v.data else CoherentBut(v1.data.value, fields, source, but)
  {
    var v1 := Ensure(v, fields, source);
    EnsureCoherent(v, fields, source, but);
    RefreshCoherent(v1, fields, source, {f}, but);
    hide Ensure, Refresh;
    var v2 := if Lookup(v1.data, f).Some? then v1 else Refresh(v1, fields, source, {f});
    EnsureCoherent(v2, fields, source, but);
  }

  lemma ChangeSound(w: World, fields: set<Field>, source: Values)
    requires Sound(w, fields) && Sources(fields, source)
    ensures Sound(Step(w, fields, Change(source)), fields)
  {
    var r := Step(w, fields, Change(source));
    forall i: nat | i < |r.handles| ensures SnapshotSound(r, fields, i) {
      assert SnapshotSound(w, fields, i);
    }
  }

  lemma StepSound(w: World, fields: set<Field>, e: Event)
    requires Sound(w, fields) && InOrder(w, fields, e)
    ensures Sound(Step(w, fields, e), fields)
  {
    hide Read, Refresh, SnapshotSound;
    match e
    case Change(source) => ChangeSound(w, fields, source);
    case ReadField(i, f) =>
      var v := ViewOf(w, i);
      ReadCoherent(v, fields, w.source, f, w.pending);
      ViewSound(w, fields, i, Read(v, fields, w.source, f).0, HoldsSnapshot(v, f));
    case RefreshNames(i, names) =>
      RefreshCoherent(ViewOf(w, i), fields, w.source, names, w.pending);
      LessPending(w, fields, i, StillPending(w, fields, names), Refresh(ViewOf(w, i), fields, w.source, names));
    case ExpireNames(i, names) =>
      LessPending(w, fields, i, if names == {} then {} else w.pending - names, Expire(ViewOf(w, i), names));
    case ReloadHandle(i) => ViewSound(w, fields, i, ViewOf(w, i).(data := None), false);
  }

  lemma LessPending(w: World, fields: set<Field>, i: nat, pending: set<Field>, v: View)
    requires Sound(w, fields) && i < |w.handles| && CoherentBut(v.hash, fields, w.source, pending)
    requires v.data.Some? ==> CoherentBut(v.data.value, fields, w.source, pending)
    ensures Sound(WithView(w.(pending := pending), i, v, false), fields)
  {
    var r := WithView(w.(pending := pending), i, v, false);
    forall j: nat | j < |r.handles| ensures SnapshotSound(r, fields, j) {
      assert SnapshotSound(w, fields, j);
    }
  }

  lemma {:induction false} RunSound(w: World, fields: set<Field>, es: seq<Event>)
    requires Sound(w, fields) && Possible(w, fields, es)
    ensures Sound(Run(w, fields, es), fields)
    decreases |es|
  {
    if es != [] {
      StepSound(w, fields, es[0]);
      hide Step, Sound, InOrder;
      RunSound(Step(w, fields, es[0]), fields, es[1..]);
    }
  }

  /** In every run, a field read through a handle without a snapshot is what recomputation gives now if it
      is not pending; and in any case exactly if the hash lacks it or holds its current value. */
  lemma CacheAgrees(w: World, fields: set<Field>, es: seq<Event>, i: nat, f: Field)
    requires Sound(w, fields) && Possible(w, fields, es) && f in fields
    requires i < |Run(w, fields, es).handles| && Run(w, fields, es).handles[i].data == None
    ensures var r := Run(w, fields, es);
            var value := Read(ViewOf(r, i), fields, r.source, f).1;
            && f in r.source
            && (f !in r.pending ==> value == Some(r.source[f]))
            && (value == Some(r.source[f]) <==> f !in r.hash || r.hash[f] == r.source[f])
  {
    RunSound(w, fields, es);
    var r := Run(w, fields, es);
    hide Read, Run;
    ReadIsCurrentIff(ViewOf(r, i), fields, r.source, f);
  }

  /** In every run, a field read through any handle is what recomputation gives now if it is not pending and
      the handle's snapshot is not behind in it. */
  lemma SnapshotAgrees(w: World, fields: set<Field>, es: seq<Event>, i: nat, f: Field)
    requires Sound(w, fields) && Possible(w, fields, es) && f in fields && i < |Run(w, fields, es).handles|
    ensures var r := Run(w, fields, es);
            f in r.source
            && (f !in r.pending && f !in r.handles[i].behind ==>
                  Read(ViewOf(r, i), fields, r.source, f).1 == Some(r.source[f]))
  {
    RunSound(w, fields, es);
    var r := Run(w, fields, es);
    hide Read, Run;
    assert SnapshotSound(r, fields, i);
    ReadYields(ViewOf(r, i), fields, r.source, f);
  }

  /** The gap is real: between a change and its expiry, a cached field reads as it was before. */
  lemma StaleUntilExpired(w: World, fields: set<Field>, source: Values, i: nat, f: Field)
    requires Sound(w, fields) && Sources(fields, source) && i < |w.handles| && w.handles[i].data == None
    requires f in fields && f in w.hash && f !in w.pending && source[f] != w.source[f]
    ensures var gap := Step(w, fields, Change(source));
            var late := Step(gap, fields, ExpireNames(i, {f}));
            && Read(ViewOf(gap, i), fields, source, f).1 == Some(w.source[f])
            && Read(ViewOf(late, i), fields, source, f).1 == Some(source[f])
  {
    hide Read;
    ReadYields(ViewOf(Step(w, fields, Change(source)), i), fields, source, f);
    var gap := Step(w, fields, Change(source));
    ReadYields(ViewOf(Step(gap, fields, ExpireNames(i, {f})), i), fields, source, f);
  }

  // ---------- The handle that expires ----------

  predicate ExpiresThrough(e: Event, i: nat) {
    (e.ExpireNames? ==> e.handle == i) && (e.RefreshNames? ==> e.handle == i)
  }

  lemma {:induction false} BehindIsPending(w: World, fields: set<Field>, es: seq<Event>, i: nat)
    requires Possible(w, fields, es) && i < |w.handles| && w.handles[i].behind <= w.pending
    requires forall e | e in es :: ExpiresThrough(e, i)
    ensures var r := Run(w, fields, es);
            |r.handles| == |w.handles| && r.handles[i].behind <= r.pending
    decreases |es|
  {
    if es != [] {
      assert es[0] in es;
      BehindStep(w, fields, es[0], i);
      hide Step, InOrder;
      BehindIsPending(Step(w, fields, es[0]), fields, es[1..], i);
    }
  }

  lemma BehindStep(w: World, fields: set<Field>, e: Event, i: nat)
    requires InOrder(w, fields, e) && i < |w.handles| && w.handles[i].behind <= w.pending && ExpiresThrough(e, i)
    ensures var r := Step(w, fields, e);
            |r.handles| == |w.handles| && r.handles[i].behind <= r.pending
  {
    hide Read, Refresh, Expire;
  }

  /** The handle through which all expiries and refreshes are made reads every field that is not pending as
      recomputation gives it, with or without a snapshot; only other handles can be further behind. */
  lemma ExpiringHandleNeverStale(w: World, fields: set<Field>, es: seq<Event>, i: nat, f: Field)
    requires Sound(w, fields) && Possible(w, fields, es) && f in fields
    requires i < |w.handles| && w.handles[i] == Handle(None, {})
    requires forall e | e in es :: ExpiresThrough(e, i)
    ensures var r := Run(w, fields, es);
            && i < |r.handles| && f in r.source
            && (f !in r.pending ==> Read(ViewOf(r, i), fields, r.source, f).1 == Some(r.source[f]))
  {
    BehindIsPending(w, fields, es, i);
    SnapshotAgrees(w, fields, es, i, f);
  }
}
