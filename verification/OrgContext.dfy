/** The current organization: a copy-on-write context store (apps/common/local.py), the registry of
    organizations (apps/orgs/models.py) and the brackets that switch organizations (apps/orgs/utils.py). */
module OrgContext {
  import opened Wrappers

  // ---------- The store ----------

  type Context = nat

  /** A dictionary object; several contexts may hold the same one. */
  class Data {
    var entries: map<string, string>

    constructor (entries: map<string, string>)
      ensures this.entries == entries
    {
      this.entries := entries;
    }
  }

  /** One context variable holding a dictionary; `empty` is its shared default. */
  class AsyncLocal {
    var storage: map<Context, Data>
    const empty: Data

    constructor ()
      ensures Valid() && fresh(empty) && forall c :: View(c) == map[]
    {
      storage := map[];
      empty := new Data(map[]);
    }

    ghost predicate Valid()
      reads this, empty
    {
      empty.entries == map[]
    }

    function Holder(c: Context): Data
      reads this
    {
      if c in storage then storage[c] else empty
    }

    /** What context c sees. */
    function View(c: Context): map<string, string>
      reads this, Holder(c)
    {
      Holder(c).entries
    }

    method Set(c: Context, key: string, value: string)
      requires Valid()
      modifies this
      ensures Valid()
      ensures View(c) == old(View(c))[key := value]
      ensures forall d | d != c :: View(d) == old(View(d))
    {
      var data := new Data(View(c)[key := value]);
      storage := storage[c := data];
    }

    method Get(c: Context, key: string) returns (value: Option<string>)
      ensures value == if key in View(c) then Some(View(c)[key]) else None
    {
      value := if key in View(c) then Some(View(c)[key]) else None;
    }

    method Delete(c: Context, key: string)
      requires Valid()
      modifies this
      ensures Valid()
      ensures View(c) == old(View(c)) - {key}
      ensures forall d | d != c :: View(d) == old(View(d))
    {
      if key in View(c) {
        var data := new Data(View(c) - {key});
        storage := storage[c := data];
      }
    }

    method Clear(c: Context)
      requires Valid()
      modifies this
      ensures Valid()
      ensures View(c) == map[]
      ensures forall d | d != c :: View(d) == old(View(d))
    {
      var data := new Data(map[]);
      storage := storage[c := data];
    }

    /** A task started in a copy of its parent's context shares the parent's dictionary object. */
    method Spawn(parent: Context, child: Context)
      requires Valid()
      modifies this
      ensures Valid()
      ensures View(child) == old(View(parent))
      ensures forall d | d != child :: View(d) == old(View(d))
    {
      if parent in storage {
        storage := storage[child := storage[parent]];
      } else {
        storage := storage - {child};
      }
    }
  }

  // ---------- The registry ----------

  datatype Org = Org(id: string, name: string)

  const RootId := "00000000-0000-0000-0000-000000000000"
  const SystemId := "00000000-0000-0000-0000-000000000004"
  const DefaultId := "00000000-0000-0000-0000-000000000002"
  const Root := Org(RootId, "GLOBAL")
  const RootKeys := {RootId, "GLOBAL", "\U{5168}\U{5C40}\U{7EC4}\U{7EC7}"}
  const Key := "current_org_id"

  /** Ids are a primary key in the form of a UUID and the root is never stored; names are unique. */
  predicate ValidRows(rows: seq<Org>) {
    && (forall i | 0 <= i < |rows| :: rows[i].id != "" && rows[i].id !in RootKeys)
    && (forall i, j | 0 <= i < j < |rows| :: rows[i].id != rows[j].id && rows[i].name != rows[j].name)
  }

  /** The loop of `construct_orgs_mapping` over the first rows. */
  function Listed(rows: seq<Org>): map<string, Org> {
    if rows == [] then map[] else
      var o := rows[|rows| - 1];
      Listed(rows[..|rows| - 1])[o.id := o][o.name := o]
  }

  function Registry(rows: seq<Org>): map<string, Org> {
    Listed(rows) + map k | k in RootKeys :: Root
  }

  function Lookup(reg: map<string, Org>, key: string): Option<Org> {
    if key in reg then Some(reg[key]) else None
  }

  /** `get_current_org`, from the stored raw id. */
  function Current(reg: map<string, Org>, raw: Option<string>): Org {
    if raw.None? || raw.value == "" || raw.value == RootId then Root
    else if raw.value in reg then reg[raw.value] else Root
  }

  // ---------- Programs ----------

  /** The argument of `set_current_org` and `tmp_to_org`. */
  datatype Target = Nothing | Object(org: Org) | ByKey(key: string)

  datatype Code =
    | Skip
    | Raise
    | SetOrg(target: Target)
    | Observe
    | Then(first: Code, second: Code)
    | Catch(body: Code)
    | ToOrg(target: Target, body: Code)
    | ToRoot(body: Code)
    | ToBuiltin(system: bool, default: bool, body: Code)

  /** `seen` is history: the organizations that the program's `Observe` steps found current, in order. */
  datatype State = State(raw: Option<string>, raised: bool, seen: seq<Org>)

  /** `set_current_org`: a name or id that is not known changes nothing, and no argument at all raises. */
  function SetTo(reg: map<string, Org>, raw: Option<string>, t: Target): Option<string> {
    match t
    case Nothing => raw
    case Object(o) => Some(o.id)
    case ByKey(k) => if k in reg then Some(reg[k].id) else raw
  }

  /** `tmp_to_org` tests the argument's truth first. */
  function Enter(reg: map<string, Org>, raw: Option<string>, t: Target): Option<string> {
    if t.ByKey? && t.key == "" then raw else SetTo(reg, raw, t)
  }

  function Exec(reg: map<string, Org>, raw: Option<string>, code: Code): State
    decreases code
  {
    match code
    case Skip => State(raw, false, [])
    case Raise => State(raw, true, [])
    case SetOrg(t) => State(SetTo(reg, raw, t), t.Nothing?, [])
    case Observe => State(raw, false, [Current(reg, raw)])
    case Then(a, b) =>
      var s := Exec(reg, raw, a);
      if s.raised then s else
        var s' := Exec(reg, s.raw, b);
        s'.(seen := s.seen + s'.seen)
    case Catch(body) => Exec(reg, raw, body).(raised := false)
    case ToOrg(t, body) => Exec(reg, Enter(reg, raw, t), body).(raw := Some(Current(reg, raw).id))
    case ToRoot(body) => Exec(reg, Some(RootId), body).(raw := Some(Current(reg, raw).id))
    case ToBuiltin(system, default, body) =>
      if !system && !default then State(raw, true, []) else
        var id := if system then SystemId else DefaultId;
        Exec(reg, SetTo(reg, raw, ByKey(id)), body).(raw := Some(Current(reg, raw).id))
  }

  /** One context of the process, with the registry's cache. */
  class Thread {
    const rows: seq<Org>
    const local: AsyncLocal
    const me: Context
    var mapping: Option<map<string, Org>>

    constructor (rows: seq<Org>, local: AsyncLocal, me: Context)
      requires local.Valid()
      ensures this.rows == rows && this.local == local && this.me == me && Valid()
    {
      this.rows := rows;
      this.local := local;
      this.me := me;
      this.mapping := None;
    }

    ghost predicate Valid()
      reads this, local, local.empty
    {
      local.Valid() && (mapping.Some? ==> mapping.value == Registry(rows))
    }

    function Raw(): Option<string>
      reads local, local.Holder(me)
    {
      if Key in local.View(me) then Some(local.View(me)[Key]) else None
    }

    /** `construct_orgs_mapping` */
    method ConstructOrgsMapping() returns (reg: map<string, Org>)
      ensures reg == Registry(rows)
    {
      reg := map[];
      var k := 0;
      while k < |rows|
        invariant 0 <= k <= |rows|
        invariant reg == Listed(rows[..k])
      {
        assert rows[..k + 1][..k] == rows[..k];
        reg := reg[rows[k].id := rows[k]];
        reg := reg[rows[k].name := rows[k]];
        k := k + 1;
      }
      assert rows[..k] == rows;
      reg := reg + map r | r in RootKeys :: Root;
    }

    /** `get_instance_from_memory` */
    method GetInstance(key: string) returns (o: Option<Org>)
      requires Valid()
      modifies `mapping
      ensures Valid()
      ensures o == Lookup(Registry(rows), key)
    {
      if mapping.None? {
        var built := ConstructOrgsMapping();
        mapping := Some(built);
      }
      if key !in mapping.value {
        var built := ConstructOrgsMapping();
        mapping := Some(built);
      }
      o := Lookup(mapping.value, key);
    }

    method GetCurrentOrg() returns (o: Org)
      requires Valid()
      modifies `mapping
      ensures Valid()
      ensures o == Current(Registry(rows), Raw())
    {
      var raw := local.Get(me, Key);
      if raw.None? || raw.value == "" || raw.value == RootId { return Root; }
      var found := GetInstance(raw.value);
      o := if found.Some? then found.value else Root;
    }

    /** `set_current_org`; other contexts do not notice. */
    method SetCurrentOrg(t: Target)
      requires Valid() && !t.Nothing?
      modifies local, `mapping
      ensures Valid()
      ensures Raw() == SetTo(Registry(rows), old(Raw()), t)
      ensures forall d | d != me :: local.View(d) == old(local.View(d))
    {
      var org: Org;
      match t {
        case Object(o) => org := o;
        case ByKey(k) =>
          var found := GetInstance(k);
          if found.None? { return; }
          org := found.value;
      }
      local.Set(me, Key, org.id);
    }

    /** The switch at the start of `tmp_to_org`, made only if there is something to switch to. */
    method EnterOrg(t: Target)
      requires Valid()
      modifies local, `mapping
      ensures Valid()
      ensures Raw() == Enter(Registry(rows), old(Raw()), t)
      ensures forall d | d != me :: local.View(d) == old(local.View(d))
    {
      if !t.Nothing? && !(t.ByKey? && t.key == "") { SetCurrentOrg(t); }
    }

    method TmpToOrg(t: Target, body: Code) returns (raised: bool, seen: seq<Org>)
      requires Valid()
      modifies local, `mapping
      ensures Valid()
      ensures State(Raw(), raised, seen) == Exec(Registry(rows), old(Raw()), ToOrg(t, body))
      ensures forall d | d != me :: local.View(d) == old(local.View(d))
      decreases body, 1
    {
      hide Registry, Listed, Current, Enter;
      var ori := GetCurrentOrg();
      EnterOrg(t);
      raised, seen := Execute(body);
      SetCurrentOrg(Object(ori));
    }

    method TmpToRootOrg(body: Code) returns (raised: bool, seen: seq<Org>)
      requires Valid()
      modifies local, `mapping
      ensures Valid()
      ensures State(Raw(), raised, seen) == Exec(Registry(rows), old(Raw()), ToRoot(body))
      ensures forall d | d != me :: local.View(d) == old(local.View(d))
      decreases body, 1
    {
      hide Registry, Listed, Current;
      var ori := GetCurrentOrg();
      SetCurrentOrg(Object(Root));
      raised, seen := Execute(body);
      SetCurrentOrg(Object(ori));
    }

    method TmpToBuiltinOrg(system: bool, default: bool, body: Code) returns (raised: bool, seen: seq<Org>)
      requires Valid()
      modifies local, `mapping
      ensures Valid()
      ensures State(Raw(), raised, seen) == Exec(Registry(rows), old(Raw()), ToBuiltin(system, default, body))
      ensures forall d | d != me :: local.View(d) == old(local.View(d))
      decreases body, 1
    {
      hide Registry, Listed, Current, RootKeys;
      var id: string;
      if system { id := SystemId; } else if default { id := DefaultId; } else { return true, []; }
      var ori := GetCurrentOrg();
      SetCurrentOrg(ByKey(id));
      raised, seen := Execute(body);
      SetCurrentOrg(Object(ori));
    }

    /** Any program over brackets, bare switches and exceptions. */
    method Execute(code: Code) returns (raised: bool, seen: seq<Org>)
      requires Valid()
      modifies local, `mapping
      ensures Valid()
      ensures State(Raw(), raised, seen) == Exec(Registry(rows), old(Raw()), code)
      ensures forall d | d != me :: local.View(d) == old(local.View(d))
      decreases code, 0
    {
      match code {
        case Skip => raised, seen := false, [];
        case Raise => raised, seen := true, [];
        case SetOrg(t) =>
          if !t.Nothing? { SetCurrentOrg(t); }
          raised, seen := t.Nothing?, [];
        case Observe =>
          var o := GetCurrentOrg();
          raised, seen := false, [o];
        case Then(a, b) =>
          raised, seen := Execute(a);
          if !raised {
            var more;
            raised, more := Execute(b);
            seen := seen + more;
          }
        case Catch(body) =>
          raised, seen := Execute(body);
          raised := false;
        case ToOrg(t, body) => raised, seen := TmpToOrg(t, body);
        case ToRoot(body) => raised, seen := TmpToRootOrg(body);
        case ToBuiltin(system, default, body) => raised, seen := TmpToBuiltinOrg(system, default, body);
      }
    }
  }

  // ---------- Brackets restore ----------

  predicate IsBracket(c: Code) { c.ToOrg? || c.ToRoot? || c.ToBuiltin? }

  /** What may be stored: nothing, the root's id, an organization's id, or an id that nothing has any more. */
  predicate Stored(rows: seq<Org>, raw: Option<string>) {
    || raw.None? || raw.value == RootId || raw.value !in Registry(rows)
    || exists i: nat :: i < |rows| && rows[i].id == raw.value
  }

  /** Every bracket, whatever is stored and whatever its body does, leaves the current organization as it was. */
  ghost predicate Restores(rows: seq<Org>) {
    forall raw: Option<string>, c: Code | Stored(rows, raw) && IsBracket(c) ::
      Current(Registry(rows), Exec(Registry(rows), raw, c).raw) == Current(Registry(rows), raw)
  }

  /** Row i is hidden behind a later row that has row i's id as its name. */
  predicate Shadowed(rows: seq<Org>, i: nat)
    requires i < |rows|
  {
    exists j: nat :: i < j < |rows| && rows[j].name == rows[i].id
  }

  /** Row j hides an earlier one and is hidden itself. */
  predicate Collides(rows: seq<Org>, i: nat, j: nat)
    requires j < |rows|
  {
    i < j && rows[j].name == rows[i].id && Shadowed(rows, j)
  }

  predicate Sound(rows: seq<Org>) {
    forall i: nat, j: nat | i < j < |rows| :: !Collides(rows, i, j)
  }

  predicate WritesKey(o: Org, key: string) { o.id == key || o.name == key }

  predicate LastWriter(rows: seq<Org>, key: string, i: nat)
    requires i < |rows|
  {
    WritesKey(rows[i], key) && forall j: nat | i < j < |rows| :: !WritesKey(rows[j], key)
  }

  /** The list holds, under a key, the last row with that id or name. */
  lemma {:induction false} ListedIs(rows: seq<Org>, key: string)
    ensures key in Listed(rows) ==>
              exists i: nat :: i < |rows| && LastWriter(rows, key, i) && Listed(rows)[key] == rows[i]
    ensures key !in Listed(rows) ==> forall i: nat | i < |rows| :: !WritesKey(rows[i], key)
  {
    if rows != [] {
      var n := |rows| - 1;
      var before := rows[..n];
      ListedIs(before, key);
      if WritesKey(rows[n], key) {
        assert LastWriter(rows, key, n) && Listed(rows)[key] == rows[n];
      } else if key in Listed(before) {
        var i: nat :| i < n && LastWriter(before, key, i) && Listed(before)[key] == before[i];
        forall j: nat | i < j < |rows| ensures !WritesKey(rows[j], key) {
          if j < n { assert !WritesKey(before[j], key); }
        }
        assert LastWriter(rows, key, i) && Listed(rows)[key] == rows[i];
      } else {
        forall i: nat | i < |rows| ensures !WritesKey(rows[i], key) {
          if i < n { assert !WritesKey(before[i], key); }
        }
      }
    }
  }

  /** Looking a row up by its id finds the row unless it is shadowed. */
  lemma ById(rows: seq<Org>, i: nat)
    requires ValidRows(rows) && i < |rows|
    ensures rows[i].id in Registry(rows)
    ensures Registry(rows)[rows[i].id] == rows[i] <==> !Shadowed(rows, i)
  {
    var key := rows[i].id;
    ListedIs(rows, key);
    assert WritesKey(rows[i], key);
    var k: nat :| k < |rows| && LastWriter(rows, key, k) && Listed(rows)[key] == rows[k];
    if k != i { assert k > i && rows[k].name == key && rows[k].id != rows[i].id; }
  }

  /** Whatever key finds a row other than the root, that row is the last writer of the key. */
  lemma FoundRow(rows: seq<Org>, key: string) returns (i: nat)
    requires key in Registry(rows) && key !in RootKeys
    ensures i < |rows| && Registry(rows)[key] == rows[i] && LastWriter(rows, key, i)
  {
    ListedIs(rows, key);
    i :| i < |rows| && LastWriter(rows, key, i) && Listed(rows)[key] == rows[i];
  }

  /** The registry finds the root under its id and both of its names, and any other key finds the last row with
      that id or name. */
  lemma RegistryFinds(rows: seq<Org>, key: string, i: nat)
    requires i < |rows|
    ensures Lookup(Registry(rows), RootId) == Some(Root) && Lookup(Registry(rows), "GLOBAL") == Some(Root)
    ensures Lookup(Registry(rows), "\U{5168}\U{5C40}\U{7EC4}\U{7EC7}") == Some(Root)
    ensures key !in RootKeys ==>
              && (LastWriter(rows, key, i) ==> Lookup(Registry(rows), key) == Some(rows[i]))
              && (Lookup(Registry(rows), key) == None <==> forall j: nat | j < |rows| :: !WritesKey(rows[j], key))
  {
    ListedIs(rows, key);
  }

  /** A hidden row's id finds the row that hides it. */
  lemma ByShadow(rows: seq<Org>, i: nat, j: nat)
    requires ValidRows(rows) && i < j < |rows| && rows[j].name == rows[i].id
    ensures rows[i].id in Registry(rows) && Registry(rows)[rows[i].id] == rows[j]
  {
    ById(rows, i);
    var k := FoundRow(rows, rows[i].id);
    assert WritesKey(rows[j], rows[i].id);
  }

  /** In a sound registry the current organization is found again under its own id. */
  lemma Settles(rows: seq<Org>, raw: Option<string>)
    requires ValidRows(rows) && Sound(rows) && Stored(rows, raw)
    ensures var reg := Registry(rows);
            Current(reg, Some(Current(reg, raw).id)) == Current(reg, raw)
    ensures Stored(rows, Some(Current(Registry(rows), raw).id))
  {
    var reg := Registry(rows);
    if Current(reg, raw) != Root {
      var i: nat :| i < |rows| && rows[i].id == raw.value;
      ById(rows, i);
      if Shadowed(rows, i) {
        var j: nat :| i < j < |rows| && rows[j].name == rows[i].id;
        ByShadow(rows, i, j);
        assert !Collides(rows, i, j);
        ById(rows, j);
      }
    }
  }

  /** Brackets restore the current organization, for whatever can be stored, every body and every
      exception, if and only if no organization hides another one by its name and is hidden itself. */
  lemma BracketsRestoreIff(rows: seq<Org>)
    requires ValidRows(rows)
    ensures Restores(rows) <==> Sound(rows)
  {
    if Sound(rows) {
      forall raw: Option<string>, c: Code | Stored(rows, raw) && IsBracket(c)
        ensures Current(Registry(rows), Exec(Registry(rows), raw, c).raw) == Current(Registry(rows), raw)
      {
        BracketRestores(rows, raw, c);
      }
    } else {
      var i: nat, j: nat :| i < j < |rows| && Collides(rows, i, j);
      CollisionSwitches(rows, i, j);
      hide Registry, Current, Exec, Collides;
    }
  }

  lemma BracketRestores(rows: seq<Org>, raw: Option<string>, c: Code)
    requires ValidRows(rows) && Sound(rows) && Stored(rows, raw) && IsBracket(c)
    ensures Current(Registry(rows), Exec(Registry(rows), raw, c).raw) == Current(Registry(rows), raw)
  {
    hide Registry, Current, Sound, Stored, ValidRows;
    Settles(rows, raw);
  }

  /** Leaving a bracket that was entered under the hidden row's id, the hiding row is not found again. */
  lemma CollisionSwitches(rows: seq<Org>, i: nat, j: nat)
    requires ValidRows(rows) && i < j < |rows| && Collides(rows, i, j)
    ensures var reg, raw := Registry(rows), Some(rows[i].id);
            && Stored(rows, raw)
            && Current(reg, Exec(reg, raw, ToRoot(Skip)).raw) != Current(reg, raw)
  {
    hide Registry;
    ById(rows, j);
    ByShadow(rows, i, j);
    assert Current(Registry(rows), Some(rows[i].id)) == rows[j];
  }

  /** Only organizations of the table, the root, and ones that are gone are switched to as objects. */
  predicate Known(rows: seq<Org>, c: Code) {
    match c
    case Skip => true
    case Raise => true
    case SetOrg(t) => t.Object? ==> Stored(rows, Some(t.org.id))
    case Observe => true
    case Then(a, b) => Known(rows, a) && Known(rows, b)
    case Catch(body) => Known(rows, body)
    case ToOrg(t, body) => (t.Object? ==> Stored(rows, Some(t.org.id))) && Known(rows, body)
    case ToRoot(body) => Known(rows, body)
    case ToBuiltin(_, _, body) => Known(rows, body)
  }

  /** What the registry finds has an id that may be stored. */
  lemma FoundIsStored(rows: seq<Org>, key: string)
    requires key in Registry(rows)
    ensures Stored(rows, Some(Registry(rows)[key].id))
  {
    if key !in RootKeys { var i := FoundRow(rows, key); }
  }

  /** Nothing else is ever stored: an organization's name never is. */
  lemma {:induction false} StoredStays(rows: seq<Org>, raw: Option<string>, c: Code)
    requires Stored(rows, raw) && Known(rows, c)
    ensures Stored(rows, Exec(Registry(rows), raw, c).raw)
    decreases c
  {
    var reg := Registry(rows);
    match c {
      case Then(a, b) =>
        StoredStays(rows, raw, a);
        StoredStays(rows, Exec(reg, raw, a).raw, b);
      case Catch(body) => StoredStays(rows, raw, body);
      case SetOrg(t) => if t.ByKey? && t.key in reg { FoundIsStored(rows, t.key); }
      case _ => if raw.Some? && raw.value in reg { FoundIsStored(rows, raw.value); }
    }
  }

  /** In particular when no organization is named with an earlier one's id. */
  lemma PlainNamesRestore(rows: seq<Org>)
    requires ValidRows(rows) && forall i, j | 0 <= i < j < |rows| :: rows[j].name != rows[i].id
    ensures Restores(rows)
  {
    BracketsRestoreIff(rows);
  }

  /** Bare switches only inside brackets. */
  predicate Bracketed(c: Code) {
    match c
    case Skip => true
    case Raise => true
    case SetOrg(_) => false
    case Observe => true
    case Then(a, b) => Bracketed(a) && Bracketed(b)
    case Catch(body) => Bracketed(body)
    case ToOrg(_, _) => true
    case ToRoot(_) => true
    case ToBuiltin(_, _, _) => true
  }

  /** Any program whose bare switches sit inside brackets leaves the current organization as it was,
      whether it ends normally or by an exception; the stored id may go from unset to the root's. */
  lemma {:induction false} BracketedProgramsRestore(rows: seq<Org>, raw: Option<string>, c: Code)
    requires ValidRows(rows) && Sound(rows) && Stored(rows, raw) && Bracketed(c)
    ensures var reg := Registry(rows);
            && Current(reg, Exec(reg, raw, c).raw) == Current(reg, raw)
            && (Exec(reg, raw, c).raw == raw || Exec(reg, raw, c).raw == Some(Current(reg, raw).id))
    decreases c
  {
    var reg := Registry(rows);
    Settles(rows, raw);
    match c {
      case Then(a, b) =>
        BracketedProgramsRestore(rows, raw, a);
        BracketedProgramsRestore(rows, Exec(reg, raw, a).raw, b);
      case Catch(body) => BracketedProgramsRestore(rows, raw, body);
      case _ =>
    }
  }

  /** The stored id of a bracket changes exactly when it was not the current organization's own id, as
      for an unset one, and the bracket was entered. */
  lemma StoredIdChangesIff(reg: map<string, Org>, raw: Option<string>, c: Code)
    requires IsBracket(c)
    ensures Exec(reg, raw, c).raw != raw <==>
            raw != Some(Current(reg, raw).id) && !(c.ToBuiltin? && !c.system && !c.default)
  {
  }

  /** The organization that `tmp_to_org` is asked for: an object's, or what a key finds. */
  function Asked(reg: map<string, Org>, t: Target): Option<Org> {
    match t
    case Nothing => None
    case Object(o) => Some(o)
    case ByKey(k) => if k != "" && k in reg then Some(reg[k]) else None
  }

  /** What a body sees first inside each bracket.  `tmp_to_org`: the organization asked for, by object, id or
      name, exactly when that one is not hidden; when nothing is asked for, or an unknown key, the one outside.
      `tmp_to_root_org`: the root.  `tmp_to_builtin_org`: the organization with the id of the argument that is
      given, the system's before the default's, exactly when it is not hidden. */
  lemma BracketSees(rows: seq<Org>, raw: Option<string>, t: Target, system: bool, default: bool, rest: Code)
    requires ValidRows(rows) && (system || default)
    ensures var reg, body := Registry(rows), Then(Observe, rest);
            var inOrg := Exec(reg, raw, ToOrg(t, body)).seen;
            var inRoot := Exec(reg, raw, ToRoot(body)).seen;
            var inBuiltin := Exec(reg, raw, ToBuiltin(system, default, body)).seen;
            && inOrg != [] && inRoot != [] && inBuiltin != []
            && (Asked(reg, t) == None ==> inOrg[0] == Current(reg, raw))
            && (Asked(reg, t) == Some(Root) ==> inOrg[0] == Root)
            && (forall i: nat | i < |rows| && Asked(reg, t) == Some(rows[i]) ::
                  inOrg[0] == rows[i] <==> !Shadowed(rows, i))
            && inRoot[0] == Root
            && (forall i: nat | i < |rows| && rows[i].id == (if system then SystemId else DefaultId) ::
                  inBuiltin[0] == rows[i] <==> !Shadowed(rows, i))
  {
    var reg := Registry(rows);
    var id := if system then SystemId else DefaultId;
    hide Registry, ValidRows, Current, Shadowed;
    RootIsStored(rows);
    SeenFirst(reg, Enter(reg, raw, t), rest);
    SeenFirst(reg, Some(RootId), rest);
    SeenFirst(reg, SetTo(reg, raw, ByKey(id)), rest);
    forall i: nat | i < |rows|
      ensures rows[i].id in reg && (reg[rows[i].id] == rows[i] <==> !Shadowed(rows, i))
      ensures Current(reg, Some(rows[i].id)) == reg[rows[i].id]
      ensures Shadowed(rows, i) ==> Current(reg, Some(reg[rows[i].id].id)) != rows[i]
    {
      ById(rows, i);
      OwnIdFinds(rows, i);
      if Shadowed(rows, i) { HiddenIsNotFound(rows, i); }
    }
  }

  lemma SeenFirst(reg: map<string, Org>, raw: Option<string>, rest: Code)
    ensures var seen := Exec(reg, raw, Then(Observe, rest)).seen;
            seen != [] && seen[0] == Current(reg, raw)
  {
  }

  /** Following a hidden row's id twice leads to a later row. */
  lemma HiddenIsNotFound(rows: seq<Org>, i: nat)
    requires ValidRows(rows) && i < |rows| && Shadowed(rows, i)
    ensures rows[i].id in Registry(rows)
    ensures Current(Registry(rows), Some(Registry(rows)[rows[i].id].id)) != rows[i]
  {
    hide Registry;
    var j: nat :| i < j < |rows| && rows[j].name == rows[i].id;
    ById(rows, i);
    var k := FoundRow(rows, rows[i].id);
    assert WritesKey(rows[j], rows[i].id);
    ById(rows, k);
    var m := FoundRow(rows, rows[k].id);
    assert WritesKey(rows[k], rows[k].id);
    assert m >= k > i && rows[m].id != rows[i].id;
  }

  lemma OwnIdFinds(rows: seq<Org>, i: nat)
    requires ValidRows(rows) && i < |rows| && rows[i].id in Registry(rows)
    ensures Current(Registry(rows), Some(rows[i].id)) == Registry(rows)[rows[i].id]
  {
    hide Registry;
  }

  // ---------- Programs see the innermost bracket ----------

  /** No bare switch anywhere. */
  predicate Scoped(c: Code) {
    match c
    case Skip => true
    case Raise => true
    case SetOrg(_) => false
    case Observe => true
    case Then(a, b) => Scoped(a) && Scoped(b)
    case Catch(body) => Scoped(body)
    case ToOrg(_, body) => Scoped(body)
    case ToRoot(body) => Scoped(body)
    case ToBuiltin(_, _, body) => Scoped(body)
  }

  /** Whether the program ends by an exception: organizations have no part in it. */
  predicate Fails(c: Code) {
    match c
    case Skip => false
    case Raise => true
    case SetOrg(t) => t.Nothing?
    case Observe => false
    case Then(a, b) => Fails(a) || Fails(b)
    case Catch(_) => false
    case ToOrg(_, body) => Fails(body)
    case ToRoot(body) => Fails(body)
    case ToBuiltin(system, default, body) => (!system && !default) || Fails(body)
  }

  /** What is current after switching to an organization that is asked for: what its id finds. */
  function Switched(reg: map<string, Org>, here: Org, asked: Option<Org>): Org {
    if asked.None? then here else Current(reg, Some(asked.value.id))
  }

  /** The reading of a program by its text alone: a step sees the organization of the innermost bracket around
      it, and the one given from outside if there is none. */
  function Lexical(reg: map<string, Org>, here: Org, c: Code): seq<Org>
    requires Scoped(c)
    decreases c
  {
    match c
    case Skip => []
    case Raise => []
    case Observe => [here]
    case Then(a, b) => Lexical(reg, here, a) + if Fails(a) then [] else Lexical(reg, here, b)
    case Catch(body) => Lexical(reg, here, body)
    case ToOrg(t, body) => Lexical(reg, Switched(reg, here, Asked(reg, t)), body)
    case ToRoot(body) => Lexical(reg, Root, body)
    case ToBuiltin(system, default, body) =>
      if !system && !default then [] else
        Lexical(reg, Switched(reg, here, Asked(reg, ByKey(if system then SystemId else DefaultId))), body)
  }

  /** Whatever is stored, every program without bare switches sees what its text says. */
  ghost predicate SeesByText(rows: seq<Org>) {
    forall raw: Option<string>, c: Code | Stored(rows, raw) && Known(rows, c) && Scoped(c) ::
      Exec(Registry(rows), raw, c).seen == Lexical(Registry(rows), Current(Registry(rows), raw), c)
  }

  lemma {:induction false} RaisedIsFails(reg: map<string, Org>, raw: Option<string>, c: Code)
    ensures Exec(reg, raw, c).raised == Fails(c)
    decreases c
  {
    hide Current, SetTo, Enter;
    match c {
      case Then(a, b) =>
        RaisedIsFails(reg, raw, a);
        RaisedIsFails(reg, Exec(reg, raw, a).raw, b);
      case Catch(body) =>
      case ToOrg(t, body) => RaisedIsFails(reg, Enter(reg, raw, t), body);
      case ToRoot(body) => RaisedIsFails(reg, Some(RootId), body);
      case ToBuiltin(system, default, body) =>
        RaisedIsFails(reg, SetTo(reg, raw, ByKey(if system then SystemId else DefaultId)), body);
      case _ =>
    }
  }

  lemma ScopedIsBracketed(c: Code)
    requires Scoped(c)
    ensures Bracketed(c)
  {
  }

  /** Entering leaves something that may be stored, and the organization asked for current. */
  lemma EnterSwitches(rows: seq<Org>, raw: Option<string>, t: Target)
    requires Stored(rows, raw) && (t.Object? ==> Stored(rows, Some(t.org.id)))
    ensures var reg := Registry(rows);
            && Stored(rows, Enter(reg, raw, t))
            && Current(reg, Enter(reg, raw, t)) == Switched(reg, Current(reg, raw), Asked(reg, t))
  {
    hide Stored, Registry, Current;
    if t.ByKey? && t.key in Registry(rows) { FoundIsStored(rows, t.key); }
  }

  lemma {:induction false} SeesLexically(rows: seq<Org>, raw: Option<string>, c: Code)
    requires ValidRows(rows) && Sound(rows) && Stored(rows, raw) && Known(rows, c) && Scoped(c)
    ensures Exec(Registry(rows), raw, c).seen == Lexical(Registry(rows), Current(Registry(rows), raw), c)
    decreases c
  {
    hide ValidRows, Sound, Stored, Registry, Current, Enter, Asked, Switched;
    var reg := Registry(rows);
    match c {
      case Then(a, b) =>
        ScopedIsBracketed(a);
        BracketedProgramsRestore(rows, raw, a);
        StoredStays(rows, raw, a);
        RaisedIsFails(reg, raw, a);
        SeesLexically(rows, raw, a);
        SeesLexically(rows, Exec(reg, raw, a).raw, b);
      case Catch(body) => SeesLexically(rows, raw, body);
      case ToOrg(t, body) =>
        EnterSwitches(rows, raw, t);
        SeesLexically(rows, Enter(reg, raw, t), body);
      case ToRoot(body) =>
        RootIsStored(rows);
        SeesLexically(rows, Some(RootId), body);
      case ToBuiltin(system, default, body) =>
        var id := if system then SystemId else DefaultId;
        EnterSwitches(rows, raw, ByKey(id));
        KeyEnters(reg, raw, id);
        SeesLexically(rows, SetTo(reg, raw, ByKey(id)), body);
      case _ =>
    }
  }

  lemma RootIsStored(rows: seq<Org>)
    ensures Stored(rows, Some(RootId)) && Current(Registry(rows), Some(RootId)) == Root
  {
  }

  lemma KeyEnters(reg: map<string, Org>, raw: Option<string>, key: string)
    requires key != ""
    ensures Enter(reg, raw, ByKey(key)) == SetTo(reg, raw, ByKey(key))
  {
  }

  /** Saving, setting and putting back is scoping by text, for whatever can be stored and every program over
      brackets and exceptions, if and only if no organization hides another one by its name and is hidden
      itself. */
  lemma SeesByTextIff(rows: seq<Org>)
    requires ValidRows(rows)
    ensures SeesByText(rows) <==> Sound(rows)
  {
    if Sound(rows) {
      forall raw: Option<string>, c: Code | Stored(rows, raw) && Known(rows, c) && Scoped(c)
        ensures Exec(Registry(rows), raw, c).seen == Lexical(Registry(rows), Current(Registry(rows), raw), c)
      {
        SeesLexically(rows, raw, c);
      }
    } else {
      var i: nat, j: nat :| i < j < |rows| && Collides(rows, i, j);
      CollisionSwitches(rows, i, j);
      CollisionSeen(Registry(rows), Some(rows[i].id));
      var c := Then(ToRoot(Skip), Observe);
      KnownThen(rows, ToRoot(Skip), Observe);
      assert Known(rows, Skip) && Scoped(Skip);
      hide Registry, Current, Exec, Lexical, Collides;
    }
  }

  lemma KnownThen(rows: seq<Org>, a: Code, b: Code)
    ensures Known(rows, Then(a, b)) == (Known(rows, a) && Known(rows, b))
    ensures Scoped(Then(a, b)) == (Scoped(a) && Scoped(b))
  {
  }

  lemma CollisionSeen(reg: map<string, Org>, raw: Option<string>)
    ensures var c := Then(ToRoot(Skip), Observe);
            && Exec(reg, raw, c).seen == [Current(reg, Exec(reg, raw, ToRoot(Skip)).raw)]
            && Lexical(reg, Current(reg, raw), c) == [Current(reg, raw)]
  {
    hide Current;
    assert Exec(reg, Some(RootId), Skip) == State(Some(RootId), false, []);
    assert Lexical(reg, Root, Skip) == [];
  }
}
