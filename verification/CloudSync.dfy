/** Cloud inventory reconciliation of apps/cloud_sync/sync.py for one account in one organization. */
module CloudSync {
  import opened Wrappers

  datatype Instance = Instance(id: string, name: string, privateIp: string, publicIp: string)

  datatype Account = Account(nameById: bool, usePublicIp: bool)

  datatype Asset = Asset(name: string, address: string)

  datatype Reason = MissingAddress | ImportFailed

  /** A quarantine record; `resolved` may have been set by an operator. */
  datatype Quarantined = Quarantined(reason: Reason, resolved: bool)

  /** The organization's assets, the next key for one, the account's instance mappings, and its
      quarantine by truncated id. */
  datatype Db = Db(
    assets: map<nat, Asset>,
    nextId: nat,
    mappings: map<string, nat>,
    quarantine: map<string, Quarantined>)

  /** Where, if anywhere, processing an instance raises. */
  datatype Fault = NoFault | LookupFails | SaveFails | CreateFails | MappingFails

  datatype Outcome = Created | Updated | Failed

  datatype Status = Success | Partial | Failure

  datatype Execution = Execution(status: Status, total: nat, created: nat, updated: nat, failed: nat)

  // ---------- Names and addresses ----------

  function Or(a: string, b: string): string { if a != "" then a else b }

  /** `_asset_name` */
  function AssetName(acc: Account, inst: Instance): string {
    if acc.nameById then inst.id else Or(inst.name, inst.id)
  }

  /** `_pick_address` */
  function PickAddress(acc: Account, inst: Instance): string {
    if acc.usePublicIp && inst.publicIp != "" then inst.publicIp else Or(inst.privateIp, inst.publicIp)
  }

  function LastSix(s: string): string { if |s| <= 6 then s else s[|s| - 6..] }

  function Suffixed(name: string, inst: Instance): string { name + "-" + LastSix(inst.id) }

  function ObjectId(inst: Instance): string { if |inst.id| <= 256 then inst.id else inst.id[..256] }

  predicate Taken(assets: map<nat, Asset>, name: string, but: Option<nat>) {
    exists a :: a in assets && assets[a].name == name && but != Some(a)
  }

  // ---------- One instance ----------

  function Quarantine(db: Db, inst: Instance, reason: Reason): Db {
    db.(quarantine := db.quarantine[ObjectId(inst) := Quarantined(reason, false)])
  }

  /** The asset that `_create_asset` saves, unless its serializer refuses both names. */
  function NewAsset(acc: Account, db: Db, inst: Instance): Option<Asset> {
    var name := AssetName(acc, inst);
    if !Taken(db.assets, name, None) then Some(Asset(name, PickAddress(acc, inst)))
    else if !Taken(db.assets, Suffixed(name, inst), None) then Some(Asset(Suffixed(name, inst), PickAddress(acc, inst)))
    else None
  }

  /** An instance that has a mapping: its asset takes over address and name. */
  function UpdateOne(acc: Account, db: Db, inst: Instance, fault: Fault): (Db, Outcome)
    requires inst.id in db.mappings && db.mappings[inst.id] in db.assets
  {
    var a := db.mappings[inst.id];
    var wanted := Asset(AssetName(acc, inst), PickAddress(acc, inst));
    if db.assets[a] == wanted then (db, Updated)
    else if fault == SaveFails || Taken(db.assets, wanted.name, Some(a)) then
      (Quarantine(db, inst, ImportFailed), Failed)
    else (db.(assets := db.assets[a := wanted]), Updated)
  }

  /** An instance without one.  When saving the mapping fails, the new asset stays without it. */
  function CreateOne(acc: Account, db: Db, inst: Instance, fault: Fault): (Db, Outcome) {
    var made := NewAsset(acc, db, inst);
    if fault == CreateFails || made.None? then (Quarantine(db, inst, ImportFailed), Failed)
    else
      var a := db.nextId;
      var db1 := db.(assets := db.assets[a := made.value], nextId := a + 1);
      if fault == MappingFails then (Quarantine(db1, inst, ImportFailed), Failed)
      else (db1.(mappings := db1.mappings[inst.id := a]), Created)
  }

  ghost predicate NamesUnique(assets: map<nat, Asset>) {
    forall a, b | a in assets && b in assets && assets[a].name == assets[b].name :: a == b
  }

  ghost predicate Valid(db: Db) {
    && (forall i | i in db.mappings :: db.mappings[i] in db.assets)
    && (forall a | a in db.assets :: a < db.nextId)
    && NamesUnique(db.assets)
  }

  function SyncOne(acc: Account, db: Db, inst: Instance, fault: Fault): (Db, Outcome)
    requires Valid(db)
  {
    if PickAddress(acc, inst) == "" then (Quarantine(db, inst, MissingAddress), Failed)
    else if fault == LookupFails then (Quarantine(db, inst, ImportFailed), Failed)
    else if inst.id in db.mappings then UpdateOne(acc, db, inst, fault)
    else CreateOne(acc, db, inst, fault)
  }

  // ---------- The whole list ----------

  /** What the loop accumulates over the first n instances. */
  datatype Tally = Tally(db: Db, created: nat, updated: nat, failed: nat)

  function Add(t: Tally, step: (Db, Outcome)): Tally {
    match step.1
    case Created => Tally(step.0, t.created + 1, t.updated, t.failed)
    case Updated => Tally(step.0, t.created, t.updated + 1, t.failed)
    case Failed => Tally(step.0, t.created, t.updated, t.failed + 1)
  }

  lemma UpdateStaysValid(acc: Account, db: Db, inst: Instance, fault: Fault)
    requires Valid(db) && inst.id in db.mappings
    ensures Valid(UpdateOne(acc, db, inst, fault).0)
  {
  }

  lemma CreateStaysValid(acc: Account, db: Db, inst: Instance, fault: Fault)
    requires Valid(db)
    ensures Valid(CreateOne(acc, db, inst, fault).0)
  {
    var made := NewAsset(acc, db, inst);
    if made.Some? { assert NamesUnique(db.assets[db.nextId := made.value]); }
  }

  lemma OneStaysValid(acc: Account, db: Db, inst: Instance, fault: Fault)
    requires Valid(db)
    ensures Valid(SyncOne(acc, db, inst, fault).0)
  {
    CreateStaysValid(acc, db, inst, fault);
    if inst.id in db.mappings { UpdateStaysValid(acc, db, inst, fault); }
    hide UpdateOne, CreateOne, NamesUnique;
  }

  function SyncAll(acc: Account, db: Db, insts: seq<Instance>, faults: seq<Fault>, n: nat): (t: Tally)
    requires Valid(db) && |faults| == |insts| && n <= |insts|
    ensures Valid(t.db)
  {
    if n == 0 then Tally(db, 0, 0, 0)
    else
      var t := SyncAll(acc, db, insts, faults, n - 1);
      OneStaysValid(acc, t.db, insts[n - 1], faults[n - 1]);
      Add(t, SyncOne(acc, t.db, insts[n - 1], faults[n - 1]))
  }

  function StatusOf(created: nat, updated: nat, failed: nat): Status {
    if failed > 0 && !(created > 0 || updated > 0) then Failure
    else if failed > 0 then Partial
    else Success
  }

  class CloudSyncer {
    const account: Account
    var db: Db

    constructor (account: Account, db: Db)
      ensures this.account == account && this.db == db
    {
      this.account, this.db := account, db;
    }

    method QuarantineInstance(inst: Instance, reason: Reason)
      modifies this
      ensures db == Quarantine(old(db), inst, reason)
    {
      db := db.(quarantine := db.quarantine[ObjectId(inst) := Quarantined(reason, false)]);
    }

    /** The body of the loop's try block; false when it raises. */
    method Import(inst: Instance, fault: Fault) returns (imported: bool, created: bool)
      requires Valid(db) && PickAddress(account, inst) != ""
      modifies this
      ensures var (db', o) := SyncOne(account, old(db), inst, fault);
              && imported == (o != Failed) && created == (o == Created)
              && (if imported then db else Quarantine(db, inst, ImportFailed)) == db'
    {
      if fault == LookupFails { return false, false; }
      var name, address := AssetName(account, inst), PickAddress(account, inst);
      if inst.id in db.mappings {
        var a := db.mappings[inst.id];
        var asset := db.assets[a];
        if asset.address != address { asset := asset.(address := address); }
        if asset.name != name { asset := asset.(name := name); }
        if asset != db.assets[a] {
          if fault == SaveFails || Taken(db.assets, asset.name, Some(a)) { return false, false; }
          db := db.(assets := db.assets[a := asset]);
        }
        return true, false;
      }
      var made := NewAsset(account, db, inst);
      if fault == CreateFails || made.None? { return false, false; }
      var a := db.nextId;
      db := db.(assets := db.assets[a := made.value], nextId := a + 1);
      if fault == MappingFails { return false, false; }
      db := db.(mappings := db.mappings[inst.id := a]);
      return true, true;
    }

    /** One turn of the loop. */
    method SyncInstance(inst: Instance, fault: Fault) returns (o: Outcome)
      requires Valid(db)
      modifies this
      ensures (db, o) == SyncOne(account, old(db), inst, fault)
    {
      hide Valid, UpdateOne, CreateOne, Taken;
      if PickAddress(account, inst) == "" {
        QuarantineInstance(inst, MissingAddress);
        return Failed;
      }
      var imported, isNew := Import(inst, fault);
      if imported { return if isNew then Created else Updated; }
      QuarantineInstance(inst, ImportFailed);
      o := Failed;
    }

    /** `_run_sync`; listing the instances may fail as a whole. */
    method RunSync(listed: Option<seq<Instance>>, faults: seq<Fault>) returns (e: Execution)
      requires Valid(db) && (listed.Some? ==> |faults| == |listed.value|)
      modifies this
      ensures Valid(db)
      ensures listed.None? ==> db == old(db) && e == Execution(Failure, 0, 0, 0, 0)
      ensures listed.Some? ==>
        var t := SyncAll(account, old(db), listed.value, faults, |listed.value|);
        var status := StatusOf(t.created, t.updated, t.failed);
        db == t.db && e == Execution(status, |listed.value|, t.created, t.updated, t.failed)
    {
      hide Valid, SyncOne;
      if listed.None? { return Execution(Failure, 0, 0, 0, 0); }
      var insts := listed.value;
      var created, updated, failed := 0, 0, 0;
      var n := 0;
      while n < |insts|
        invariant 0 <= n <= |insts| && Valid(db)
        invariant Tally(db, created, updated, failed) == SyncAll(account, old(db), insts, faults, n)
      {
        OneStaysValid(account, db, insts[n], faults[n]);
        var o := SyncInstance(insts[n], faults[n]);
        match o {
          case Created => created := created + 1;
          case Updated => updated := updated + 1;
          case Failed => failed := failed + 1;
        }
        n := n + 1;
      }
      var status;
      if failed > 0 && !(created > 0 || updated > 0) {
        status := Failure;
      } else if failed > 0 {
        status := Partial;
      } else {
        status := Success;
      }
      e := Execution(status, |insts|, created, updated, failed);
    }
  }

  // ---------- Conservation ----------

  /** Mappings are kept with their asset, and assets and quarantine records are not dropped. */
  predicate Extends(db: Db, db': Db) {
    && (forall i | i in db.mappings :: i in db'.mappings && db'.mappings[i] == db.mappings[i])
    && db.assets.Keys <= db'.assets.Keys && db.quarantine.Keys <= db'.quarantine.Keys
  }

  /** An instance is accounted for: mapped, or in quarantine and not resolved. */
  predicate Accounted(db: Db, inst: Instance) {
    || inst.id in db.mappings
    || (ObjectId(inst) in db.quarantine && !db.quarantine[ObjectId(inst)].resolved)
  }

  /** What one step, ending in a database and an outcome, must not lose. */
  predicate Conserves(db: Db, inst: Instance, step: (Db, Outcome)) {
    var (db', o) := step;
    && Extends(db, db') && Accounted(db', inst)
    && |db'.mappings| == |db.mappings| + (if o == Created then 1 else 0)
    && (o == Failed ==> ObjectId(inst) in db'.quarantine && db'.mappings == db.mappings)
    && (o != Failed ==> inst.id in db'.mappings && db'.quarantine == db.quarantine)
    && (forall q | q in db.quarantine ::
          db'.quarantine[q] == db.quarantine[q] || (q == ObjectId(inst) && !db'.quarantine[q].resolved))
  }

  lemma UpdateConserves(acc: Account, db: Db, inst: Instance, fault: Fault)
    requires Valid(db) && inst.id in db.mappings
    ensures Conserves(db, inst, UpdateOne(acc, db, inst, fault))
  {
    hide Taken, NamesUnique;
  }

  lemma CreateConserves(acc: Account, db: Db, inst: Instance, fault: Fault)
    requires Valid(db) && inst.id !in db.mappings
    ensures Conserves(db, inst, CreateOne(acc, db, inst, fault))
  {
    hide NewAsset, NamesUnique;
  }

  lemma StaysAccounted(db: Db, inst: Instance, step: (Db, Outcome), other: Instance)
    requires Conserves(db, inst, step) && Accounted(db, other)
    ensures Accounted(step.0, other)
  {
  }

  lemma OneConserves(acc: Account, db: Db, inst: Instance, fault: Fault)
    requires Valid(db)
    ensures Conserves(db, inst, SyncOne(acc, db, inst, fault))
    ensures forall other | Accounted(db, other) :: Accounted(SyncOne(acc, db, inst, fault).0, other)
  {
    hide UpdateOne, CreateOne, NamesUnique;
    if inst.id in db.mappings { UpdateConserves(acc, db, inst, fault); } else { CreateConserves(acc, db, inst, fault); }
    var step := SyncOne(acc, db, inst, fault);
    assert Conserves(db, inst, step);
    hide Conserves, SyncOne, Accounted;
    forall other | Accounted(db, other) ensures Accounted(step.0, other) {
      StaysAccounted(db, inst, step, other);
    }
  }

  lemma ExtendsTransitive(a: Db, b: Db, c: Db)
    requires Extends(a, b) && Extends(b, c)
    ensures Extends(a, c)
  {
  }

  /** The same, about the tally after one more instance. */
  lemma TallyConserves(acc: Account, t: Tally, inst: Instance, fault: Fault)
    requires Valid(t.db)
    ensures var t' := Add(t, SyncOne(acc, t.db, inst, fault));
            && t'.created + t'.updated + t'.failed == t.created + t.updated + t.failed + 1
            && |t'.db.mappings| + t.created == |t.db.mappings| + t'.created
            && t'.created >= t.created && t'.failed >= t.failed
            && Extends(t.db, t'.db) && Accounted(t'.db, inst)
            && (forall other | Accounted(t.db, other) :: Accounted(t'.db, other))
            && (inst.id in t.db.mappings || PickAddress(acc, inst) == "" ==> t'.created == t.created)
            && (PickAddress(acc, inst) == "" ==> t'.failed == t.failed + 1)
            && (t'.failed == t.failed ==> inst.id in t'.db.mappings)
  {
    OneConserves(acc, t.db, inst, fault);
    hide Extends, Accounted, CreateOne;
  }

  /** For any pattern of failures: the counters add up, the number of new mappings is the number of
      instances created, no mapping is dropped or redirected, every listed instance ends mapped or in
      quarantine, and asset names stay unique. */
  lemma {:induction false} ReconciliationConserves(acc: Account, db: Db, insts: seq<Instance>,
                                                   faults: seq<Fault>, n: nat)
    requires Valid(db) && |faults| == |insts| && n <= |insts|
    ensures var t := SyncAll(acc, db, insts, faults, n);
            && t.created + t.updated + t.failed == n
            && |t.db.mappings| == |db.mappings| + t.created
            && Extends(db, t.db)
            && forall k | 0 <= k < n :: Accounted(t.db, insts[k])
  {
    hide SyncOne, Valid, Extends, Accounted, Add;
    if n > 0 {
      ReconciliationConserves(acc, db, insts, faults, n - 1);
      var t := SyncAll(acc, db, insts, faults, n - 1);
      TallyConserves(acc, t, insts[n - 1], faults[n - 1]);
      ExtendsTransitive(db, t.db, SyncAll(acc, db, insts, faults, n).db);
    } else {
      ExtendsItself(db);
    }
  }

  lemma ExtendsItself(db: Db)
    ensures Extends(db, db)
  {
  }

  /** How the run ends for its k-th instance. */
  function OutcomeAt(acc: Account, db: Db, insts: seq<Instance>, faults: seq<Fault>, k: nat): Outcome
    requires Valid(db) && |faults| == |insts| && k < |insts|
  {
    SyncOne(acc, SyncAll(acc, db, insts, faults, k).db, insts[k], faults[k]).1
  }

  /** The instances among the first n for which the run ends in this way. */
  ghost function EndingIn(acc: Account, db: Db, insts: seq<Instance>, faults: seq<Fault>, n: nat, o: Outcome): set<int>
    requires Valid(db) && |faults| == |insts| && n <= |insts|
  {
    set k | 0 <= k < n && OutcomeAt(acc, db, insts, faults, k) == o
  }

  lemma OneMoreEnding(acc: Account, db: Db, insts: seq<Instance>, faults: seq<Fault>, n: nat, o: Outcome)
    requires Valid(db) && |faults| == |insts| && 0 < n <= |insts|
    ensures |EndingIn(acc, db, insts, faults, n, o)| == |EndingIn(acc, db, insts, faults, n - 1, o)|
              + if OutcomeAt(acc, db, insts, faults, n - 1) == o then 1 else 0
  {
    hide OutcomeAt, Valid;
    var before := EndingIn(acc, db, insts, faults, n - 1, o);
    assert n - 1 !in before;
    assert EndingIn(acc, db, insts, faults, n, o)
        == before + if OutcomeAt(acc, db, insts, faults, n - 1) == o then {n - 1} else {};
  }

  /** The counters of a run, with any faults, are the numbers of instances that were created, updated and
      failed. */
  lemma {:induction false} CountersCount(acc: Account, db: Db, insts: seq<Instance>, faults: seq<Fault>, n: nat)
    requires Valid(db) && |faults| == |insts| && n <= |insts|
    ensures var t := SyncAll(acc, db, insts, faults, n);
            && t.created == |EndingIn(acc, db, insts, faults, n, Created)|
            && t.updated == |EndingIn(acc, db, insts, faults, n, Updated)|
            && t.failed == |EndingIn(acc, db, insts, faults, n, Failed)|
  {
    hide Valid, SyncOne, EndingIn;
    if n == 0 {
      NothingEnds(acc, db, insts, faults);
    } else {
      CountersCount(acc, db, insts, faults, n - 1);
      OneMoreEnding(acc, db, insts, faults, n, Created);
      OneMoreEnding(acc, db, insts, faults, n, Updated);
      OneMoreEnding(acc, db, insts, faults, n, Failed);
    }
  }

  lemma NothingEnds(acc: Account, db: Db, insts: seq<Instance>, faults: seq<Fault>)
    requires Valid(db) && |faults| == |insts|
    ensures forall o :: EndingIn(acc, db, insts, faults, 0, o) == {}
  {
  }

  /** The status of a run with any faults: success exactly when no instance failed, failure exactly when there
      were instances and all of them failed, and partial exactly when some failed and some were created or
      updated. */
  lemma StatusIff(acc: Account, db: Db, insts: seq<Instance>, faults: seq<Fault>)
    requires Valid(db) && |faults| == |insts|
    ensures var t := SyncAll(acc, db, insts, faults, |insts|);
            var status := StatusOf(t.created, t.updated, t.failed);
            && (status == Success <==> t.failed == 0)
            && (status == Failure <==> insts != [] && t.failed == |insts|)
            && (status == Partial <==> t.failed > 0 && t.created + t.updated > 0)
            && (status == Success <==>
                  forall k | 0 <= k < |insts| :: OutcomeAt(acc, db, insts, faults, k) != Failed)
            && (status == Failure <==>
                  insts != [] && forall k | 0 <= k < |insts| :: OutcomeAt(acc, db, insts, faults, k) == Failed)
  {
    var n := |insts|;
    ReconciliationConserves(acc, db, insts, faults, n);
    CountersCount(acc, db, insts, faults, n);
    EndsSomehow(acc, db, insts, faults);
    hide Valid, SyncAll, OutcomeAt, EndingIn, Extends, Accounted;
  }

  lemma EndsSomehow(acc: Account, db: Db, insts: seq<Instance>, faults: seq<Fault>)
    requires Valid(db) && |faults| == |insts|
    ensures |EndingIn(acc, db, insts, faults, |insts|, Failed)| == 0
            <==> forall k | 0 <= k < |insts| :: OutcomeAt(acc, db, insts, faults, k) != Failed
    ensures |EndingIn(acc, db, insts, faults, |insts|, Created)|
              + |EndingIn(acc, db, insts, faults, |insts|, Updated)| == 0
            <==> forall k | 0 <= k < |insts| :: OutcomeAt(acc, db, insts, faults, k) == Failed
  {
    hide Valid, OutcomeAt;
    forall o ensures |EndingIn(acc, db, insts, faults, |insts|, o)| == 0
                     <==> forall k | 0 <= k < |insts| :: OutcomeAt(acc, db, insts, faults, k) != o
    {
      var s := EndingIn(acc, db, insts, faults, |insts|, o);
      if |s| == 0 {
        assert s == {};
        forall k | 0 <= k < |insts| ensures OutcomeAt(acc, db, insts, faults, k) != o { assert k !in s; }
      } else {
        var k :| k in s;
      }
    }
  }

  // ---------- What one instance leaves ----------

  /** Imported, an instance has an asset of its own with the address that the account prefers and the name that
      it asks for; a new asset whose name is held already gets the last six characters of the id appended.
      The other assets stay as they were. */
  lemma ImportedAs(acc: Account, db: Db, inst: Instance, fault: Fault)
    requires Valid(db) && SyncOne(acc, db, inst, fault).1 != Failed
    ensures var (db', o) := SyncOne(acc, db, inst, fault);
            var name := if acc.nameById || inst.name == "" then inst.id else inst.name;
            var held := exists a :: a in db.assets && db.assets[a].name == name;
            var lastSix := if |inst.id| <= 6 then inst.id else inst.id[|inst.id| - 6..];
            var public := inst.publicIp != "" && (acc.usePublicIp || inst.privateIp == "");
            && (o == Created <==> inst.id !in db.mappings)
            && inst.id in db'.mappings && db'.mappings[inst.id] in db'.assets
            && (o == Created ==> db'.mappings[inst.id] !in db.assets)
            && db'.assets[db'.mappings[inst.id]]
               == Asset(if o == Created && held then name + "-" + lastSix else name,
                        if public then inst.publicIp else inst.privateIp)
            && (forall a | a in db.assets && a != db'.mappings[inst.id] ::
                  a in db'.assets && db'.assets[a] == db.assets[a])
  {
    hide NamesUnique, UpdateOne, CreateOne, NewAsset, AssetName, PickAddress;
    Wanted(acc, inst);
    NewAssetIs(acc, db, inst);
    if inst.id in db.mappings { UpdatedAs(acc, db, inst, fault); } else { CreatedAs(acc, db, inst, fault); }
  }

  /** Failed, an instance is in quarantine under its id, cut to 256 characters, with its reason; the assets stay
      as they were, but for one that lost its mapping. */
  lemma QuarantinedAs(acc: Account, db: Db, inst: Instance, fault: Fault)
    requires Valid(db) && SyncOne(acc, db, inst, fault).1 == Failed
    ensures var db' := SyncOne(acc, db, inst, fault).0;
            var key := if |inst.id| <= 256 then inst.id else inst.id[..256];
            var reason := if inst.privateIp == "" && inst.publicIp == "" then MissingAddress else ImportFailed;
            && db'.quarantine == db.quarantine[key := Quarantined(reason, false)] && db'.mappings == db.mappings
            && (forall a | a in db.assets :: a in db'.assets && db'.assets[a] == db.assets[a])
  {
    hide NamesUnique, UpdateOne, CreateOne, NewAsset, AssetName, PickAddress;
    Wanted(acc, inst);
    if inst.id in db.mappings { UpdatedAs(acc, db, inst, fault); } else { CreatedAs(acc, db, inst, fault); }
  }

  /** An instance fails exactly for want of an address, because looking up its mapping raises, or, when it is
      mapped and its asset has to change, because saving raises or its name is on another asset, or, when it is
      not, because creating or mapping raises or both its name and the name with the suffix are held. */
  lemma FailsIff(acc: Account, db: Db, inst: Instance, fault: Fault)
    requires Valid(db)
    ensures var name, wanted := AssetName(acc, inst), Asset(AssetName(acc, inst), PickAddress(acc, inst));
            SyncOne(acc, db, inst, fault).1 == Failed <==>
              || (inst.privateIp == "" && inst.publicIp == "")
              || fault == LookupFails
              || (inst.id in db.mappings && db.assets[db.mappings[inst.id]] != wanted
                  && (fault == SaveFails
                      || exists a :: a in db.assets && a != db.mappings[inst.id] && db.assets[a].name == name))
              || (inst.id !in db.mappings
                  && (fault == CreateFails || fault == MappingFails
                      || ((exists a :: a in db.assets && db.assets[a].name == name)
                          && exists a :: a in db.assets && db.assets[a].name == Suffixed(name, inst))))
  {
    hide NamesUnique, AssetName, PickAddress;
    Wanted(acc, inst);
  }

  /** A failed instance leaves the assets alone, but for a mapping that could not be saved: then its new asset
      stays, and nothing is mapped to it. */
  lemma OrphanIff(acc: Account, db: Db, inst: Instance, fault: Fault)
    requires Valid(db) && SyncOne(acc, db, inst, fault).1 == Failed
    ensures var db' := SyncOne(acc, db, inst, fault).0;
            var made := inst.id !in db.mappings && fault == MappingFails && PickAddress(acc, inst) != ""
                        && NewAsset(acc, db, inst).Some?;
            && db'.mappings == db.mappings
            && db'.assets == (if made then db.assets[db.nextId := NewAsset(acc, db, inst).value] else db.assets)
            && (made ==> forall i | i in db'.mappings :: db'.mappings[i] != db.nextId)
  {
    hide NamesUnique, AssetName, PickAddress, NewAsset, Taken;
  }

  lemma Wanted(acc: Account, inst: Instance)
    ensures AssetName(acc, inst) == if acc.nameById || inst.name == "" then inst.id else inst.name
    ensures PickAddress(acc, inst) ==
            if inst.publicIp != "" && (acc.usePublicIp || inst.privateIp == "") then inst.publicIp
            else inst.privateIp
  {
  }

  lemma NewAssetIs(acc: Account, db: Db, inst: Instance)
    ensures var name, made := AssetName(acc, inst), NewAsset(acc, db, inst);
            var held := exists a :: a in db.assets && db.assets[a].name == name;
            var lastSix := if |inst.id| <= 6 then inst.id else inst.id[|inst.id| - 6..];
            made.Some? ==> made.value == Asset(if held then name + "-" + lastSix else name, PickAddress(acc, inst))
  {
    hide AssetName, PickAddress;
  }

  lemma UpdatedAs(acc: Account, db: Db, inst: Instance, fault: Fault)
    requires Valid(db) && inst.id in db.mappings
    ensures var (db', o) := UpdateOne(acc, db, inst, fault);
            && o != Created && db'.mappings == db.mappings
            && (o == Failed ==> db' == Quarantine(db, inst, ImportFailed))
            && (o == Updated ==>
                  db'.assets == db.assets[db.mappings[inst.id] := Asset(AssetName(acc, inst), PickAddress(acc, inst))])
  {
    hide NamesUnique, Taken;
  }

  lemma CreatedAs(acc: Account, db: Db, inst: Instance, fault: Fault)
    requires Valid(db) && inst.id !in db.mappings
    ensures var (db', o) := CreateOne(acc, db, inst, fault);
            && o != Updated && db.nextId !in db.assets
            && (forall a | a in db.assets :: a in db'.assets && db'.assets[a] == db.assets[a])
            && (o == Failed ==>
                  db'.quarantine == Quarantine(db, inst, ImportFailed).quarantine && db'.mappings == db.mappings)
            && (o == Created ==>
                  && NewAsset(acc, db, inst).Some?
                  && db'.mappings == db.mappings[inst.id := db.nextId]
                  && db'.assets == db.assets[db.nextId := NewAsset(acc, db, inst).value])
  {
    hide NamesUnique, NewAsset;
  }

  // ---------- Running again ----------

  /** Once every addressed instance of the list is mapped, no later run over it creates anything,
      whatever fails. */
  lemma {:induction false} MappedCreatesNothing(acc: Account, db: Db, insts: seq<Instance>, faults: seq<Fault>, n: nat)
    requires Valid(db) && |faults| == |insts| && n <= |insts|
    requires forall k | 0 <= k < |insts| && PickAddress(acc, insts[k]) != "" :: insts[k].id in db.mappings
    ensures SyncAll(acc, db, insts, faults, n).created == 0
  {
    hide SyncOne, Valid, Accounted, Add;
    if n > 0 {
      MappedCreatesNothing(acc, db, insts, faults, n - 1);
      ReconciliationConserves(acc, db, insts, faults, n - 1);
      TallyConserves(acc, SyncAll(acc, db, insts, faults, n - 1), insts[n - 1], faults[n - 1]);
    }
  }

  function AddressLess(acc: Account, insts: seq<Instance>, n: nat): nat
    requires n <= |insts|
  {
    if n == 0 then 0 else AddressLess(acc, insts, n - 1) + (if PickAddress(acc, insts[n - 1]) == "" then 1 else 0)
  }

  lemma {:induction false} CleanRunMaps(acc: Account, db: Db, insts: seq<Instance>, faults: seq<Fault>, n: nat)
    requires Valid(db) && |faults| == |insts| && n <= |insts|
    ensures var t := SyncAll(acc, db, insts, faults, n);
            && t.failed >= AddressLess(acc, insts, n)
            && (t.failed == AddressLess(acc, insts, n) ==>
                  forall k | 0 <= k < n && PickAddress(acc, insts[k]) != "" :: insts[k].id in t.db.mappings)
  {
    hide SyncOne, Valid, Accounted, Add;
    if n > 0 {
      CleanRunMaps(acc, db, insts, faults, n - 1);
      var t := SyncAll(acc, db, insts, faults, n - 1);
      TallyConserves(acc, t, insts[n - 1], faults[n - 1]);
    }
  }

  /** After a run in which nothing raised, running over the same list again creates nothing. */
  lemma RerunCreatesNothing(acc: Account, db: Db, insts: seq<Instance>, faults: seq<Fault>, again: seq<Fault>)
    requires Valid(db) && |faults| == |insts| == |again|
    requires SyncAll(acc, db, insts, faults, |insts|).failed == AddressLess(acc, insts, |insts|)
    ensures SyncAll(acc, SyncAll(acc, db, insts, faults, |insts|).db, insts, again, |insts|).created == 0
  {
    CleanRunMaps(acc, db, insts, faults, |insts|);
    MappedCreatesNothing(acc, SyncAll(acc, db, insts, faults, |insts|).db, insts, again, |insts|);
  }

  /** An instance is in sync: in quarantine for its missing address, or mapped to an asset that has
      its name and address. */
  ghost predicate InSync(acc: Account, db: Db, inst: Instance)
    requires Valid(db)
  {
    if PickAddress(acc, inst) == "" then
      ObjectId(inst) in db.quarantine && db.quarantine[ObjectId(inst)] == Quarantined(MissingAddress, false)
    else
      inst.id in db.mappings && db.assets[db.mappings[inst.id]] == Asset(AssetName(acc, inst), PickAddress(acc, inst))
  }

  /** Processing an instance changes nothing and raises nothing exactly when it is in sync. */
  lemma NoChangeIff(acc: Account, db: Db, inst: Instance)
    requires Valid(db)
    ensures var (db', o) := SyncOne(acc, db, inst, NoFault);
            (db' == db && (o == Failed ==> PickAddress(acc, inst) == "")) <==> InSync(acc, db, inst)
  {
    if PickAddress(acc, inst) == "" {
      assert ObjectId(inst) in Quarantine(db, inst, MissingAddress).quarantine;
    } else if inst.id in db.mappings {
      var a := db.mappings[inst.id];
      var wanted := Asset(AssetName(acc, inst), PickAddress(acc, inst));
      if db.assets[a] != wanted { assert db.assets[a := wanted][a] != db.assets[a]; }
    }
  }

  /** The run leaves the database as it is at every instance, and only missing addresses fail. */
  ghost predicate Settled(acc: Account, db: Db, insts: seq<Instance>, faults: seq<Fault>, n: nat)
    requires Valid(db) && |faults| == |insts| && n <= |insts|
  {
    SyncAll(acc, db, insts, faults, n).db == db
    && SyncAll(acc, db, insts, faults, n).failed == AddressLess(acc, insts, n)
  }

  /** Synchronising again is a complete no-op, as the mappings are there to ensure, if and only if every
      listed instance is in sync. */
  lemma {:induction false} NoOpIff(acc: Account, db: Db, insts: seq<Instance>, faults: seq<Fault>, n: nat)
    requires Valid(db) && |faults| == |insts| && n <= |insts|
    requires forall k | 0 <= k < |faults| :: faults[k] == NoFault
    ensures (forall m | 0 <= m <= n :: Settled(acc, db, insts, faults, m))
            <==> forall k | 0 <= k < n :: InSync(acc, db, insts[k])
  {
    hide Settled, InSync, Valid, SyncAll;
    if n == 0 {
      SettledAtFirst(acc, db, insts, faults);
    } else {
      NoOpIff(acc, db, insts, faults, n - 1);
      if forall m | 0 <= m <= n - 1 :: Settled(acc, db, insts, faults, m) {
        assert Settled(acc, db, insts, faults, n - 1);
        OneMoreSettled(acc, db, insts, faults, n);
      }
    }
  }

  lemma SettledAtFirst(acc: Account, db: Db, insts: seq<Instance>, faults: seq<Fault>)
    requires Valid(db) && |faults| == |insts|
    ensures Settled(acc, db, insts, faults, 0)
  {
  }

  lemma OneMoreSettled(acc: Account, db: Db, insts: seq<Instance>, faults: seq<Fault>, n: nat)
    requires Valid(db) && |faults| == |insts| && 0 < n <= |insts|
    requires faults[n - 1] == NoFault && Settled(acc, db, insts, faults, n - 1)
    ensures Settled(acc, db, insts, faults, n) <==> InSync(acc, db, insts[n - 1])
  {
    var inst := insts[n - 1];
    NoChangeIff(acc, db, inst);
    if PickAddress(acc, inst) == "" { FailsWithoutAddress(acc, db, inst, NoFault); }
    hide SyncOne, InSync, Valid;
  }

  lemma FailsWithoutAddress(acc: Account, db: Db, inst: Instance, fault: Fault)
    requires Valid(db) && PickAddress(acc, inst) == ""
    ensures SyncOne(acc, db, inst, fault).1 == Failed
  {
  }

  /** A mapped instance whose asset has another name than the wanted one fails to import, without any
      fault, exactly when another asset holds that name. */
  lemma NameClashIff(acc: Account, db: Db, inst: Instance)
    requires Valid(db) && PickAddress(acc, inst) != "" && inst.id in db.mappings
    ensures SyncOne(acc, db, inst, NoFault).1 == Failed
            <==> Taken(db.assets, AssetName(acc, inst), Some(db.mappings[inst.id]))
  {
  }
}
