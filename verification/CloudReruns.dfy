/** Running a cloud reconciliation again and again over one list of mapped instances
    (apps/cloud_sync/sync.py): which runs fail, and whether they ever stop failing.

    Each mapped instance wants its asset to take over its name and address; a name is held by one asset
    at a time.  The theory is about these goals; the last section ties it to `CloudSync.SyncAll`. */
module CloudReruns {
  import opened Wrappers
  import opened CloudSync

  type Assets = map<nat, Asset>

  /** What an instance wants of its asset. */
  datatype Goal = Goal(asset: nat, want: Asset)

  ghost predicate Fit(assets: Assets, goals: seq<Goal>) {
    && NamesUnique(assets)
    && (forall k | 0 <= k < |goals| :: goals[k].asset in assets)
    && (forall j, k | 0 <= j < k < |goals| :: goals[j].asset != goals[k].asset)
  }

  /** Another asset holds the wanted name. */
  predicate Blocked(assets: Assets, g: Goal) { Taken(assets, g.want.name, Some(g.asset)) }

  function MoveOne(assets: Assets, g: Goal): Assets {
    if Blocked(assets, g) then assets else assets[g.asset := g.want]
  }

  /** The assets after the first n goals, and how many of those were blocked. */
  function After(assets: Assets, goals: seq<Goal>, n: nat): Assets
    requires n <= |goals|
  {
    if n == 0 then assets else MoveOne(After(assets, goals, n - 1), goals[n - 1])
  }

  function Failures(assets: Assets, goals: seq<Goal>, n: nat): nat
    requires n <= |goals|
  {
    if n == 0 then 0
    else Failures(assets, goals, n - 1) + (if Blocked(After(assets, goals, n - 1), goals[n - 1]) then 1 else 0)
  }

  lemma MoveFits(assets: Assets, goals: seq<Goal>, k: nat)
    requires Fit(assets, goals) && k < |goals|
    ensures Fit(MoveOne(assets, goals[k]), goals) && MoveOne(assets, goals[k]).Keys == assets.Keys
  {
  }

  lemma {:induction false} AfterFits(assets: Assets, goals: seq<Goal>, n: nat)
    requires Fit(assets, goals) && n <= |goals|
    ensures Fit(After(assets, goals, n), goals) && After(assets, goals, n).Keys == assets.Keys
  {
    hide Fit, MoveOne;
    if n > 0 {
      AfterFits(assets, goals, n - 1);
      MoveFits(After(assets, goals, n - 1), goals, n - 1);
    }
  }

  // ---------- One run ----------

  /** Nobody earlier in the list wants the same name. */
  predicate FirstToWant(goals: seq<Goal>, k: nat)
    requires k < |goals|
  {
    forall j | 0 <= j < k :: goals[j].want.name != goals[k].want.name
  }

  /** Whoever else holds the wanted name belongs to an earlier instance. */
  predicate HolderMovesFirst(assets: Assets, goals: seq<Goal>, k: nat)
    requires k < |goals|
  {
    forall x | x in assets && x != goals[k].asset && assets[x].name == goals[k].want.name ::
      exists j: nat :: j < k && goals[j].asset == x
  }

  /** After n goals met without failure, those assets are as wanted and the others as they were. */
  predicate Shape(assets: Assets, goals: seq<Goal>, n: nat, now: Assets)
    requires n <= |goals|
  {
    && now.Keys == assets.Keys
    && (forall j | 0 <= j < n :: goals[j].asset in now && now[goals[j].asset] == goals[j].want)
    && (forall x | x in assets && (forall j | 0 <= j < n :: goals[j].asset != x) :: now[x] == assets[x])
  }

  lemma ShapeStep(assets: Assets, goals: seq<Goal>, k: nat, now: Assets)
    requires Fit(assets, goals) && k < |goals| && Shape(assets, goals, k, now) && !Blocked(now, goals[k])
    ensures Shape(assets, goals, k + 1, MoveOne(now, goals[k]))
  {
    hide NamesUnique, Taken;
  }

  lemma BlockedIff(assets: Assets, goals: seq<Goal>, k: nat, now: Assets)
    requires Fit(assets, goals) && k < |goals| && Shape(assets, goals, k, now)
    ensures Blocked(now, goals[k]) <==> !(FirstToWant(goals, k) && HolderMovesFirst(assets, goals, k))
  {
    hide NamesUnique;
    var g := goals[k];
    if Blocked(now, g) {
      var x :| x in now && now[x].name == g.want.name && x != g.asset;
      if !(exists j: nat :: j < k && goals[j].asset == x) { assert now[x] == assets[x]; }
    }
    if !FirstToWant(goals, k) {
      var j :| 0 <= j < k && goals[j].want.name == g.want.name;
      assert now[goals[j].asset] == goals[j].want;
    }
    if !HolderMovesFirst(assets, goals, k) {
      var x :| x in assets && x != g.asset && assets[x].name == g.want.name
               && !exists j: nat :: j < k && goals[j].asset == x;
      assert forall j | 0 <= j < k :: goals[j].asset != x;
      assert now[x] == assets[x];
    }
  }

  /** A run meets its first n goals without failure if and only if each is the first to want its name, and
      the other holder of that name, if any, was moved before it. */
  lemma {:induction false} NoFailureIff(assets: Assets, goals: seq<Goal>, n: nat)
    requires Fit(assets, goals) && n <= |goals|
    ensures Failures(assets, goals, n) == 0
            <==> forall k: nat | k < n :: FirstToWant(goals, k) && HolderMovesFirst(assets, goals, k)
    ensures Failures(assets, goals, n) == 0 ==> Shape(assets, goals, n, After(assets, goals, n))
  {
    hide Fit, Blocked, MoveOne, Shape, FirstToWant, HolderMovesFirst;
    if n == 0 {
      ShapeAtFirst(assets, goals);
    } else {
      NoFailureIff(assets, goals, n - 1);
      if Failures(assets, goals, n - 1) == 0 {
        var now := After(assets, goals, n - 1);
        BlockedIff(assets, goals, n - 1, now);
        if !Blocked(now, goals[n - 1]) { ShapeStep(assets, goals, n - 1, now); }
      }
    }
  }

  lemma ShapeAtFirst(assets: Assets, goals: seq<Goal>)
    ensures Shape(assets, goals, 0, assets)
  {
  }

  // ---------- Many runs ----------

  /** The assets after a number of runs over the whole list. */
  function Times(assets: Assets, goals: seq<Goal>, runs: nat): Assets {
    if runs == 0 then assets else After(Times(assets, goals, runs - 1), goals, |goals|)
  }

  predicate NoTwoWant(goals: seq<Goal>) { forall k: nat | k < |goals| :: FirstToWant(goals, k) }

  /** Goal k waits for a name that an asset of the set's own holds, or one that no run touches. */
  predicate HeldUp(assets: Assets, goals: seq<Goal>, s: set<nat>, k: nat)
    requires k < |goals|
  {
    exists x :: x in assets && x != goals[k].asset && assets[x].name == goals[k].want.name && Immovable(goals, s, x)
  }

  predicate Immovable(goals: seq<Goal>, s: set<nat>, x: nat) {
    || (exists j: nat :: j in s && j < |goals| && goals[j].asset == x)
    || forall j | 0 <= j < |goals| :: goals[j].asset != x
  }

  /** A set of instances that wait for each other, or for assets outside the list. */
  predicate Deadlocked(assets: Assets, goals: seq<Goal>, s: set<nat>) {
    s != {} && forall k | k in s :: k < |goals| && HeldUp(assets, goals, s, k)
  }

  ghost predicate NoDeadlock(assets: Assets, goals: seq<Goal>) {
    forall s: set<nat> :: !Deadlocked(assets, goals, s)
  }

  /** One goal more changes nothing about a deadlock, in either direction. */
  lemma DeadlockStep(assets: Assets, goals: seq<Goal>, i: nat, s: set<nat>)
    requires Fit(assets, goals) && i < |goals|
    ensures Deadlocked(assets, goals, s) <==> Deadlocked(MoveOne(assets, goals[i]), goals, s)
  {
    hide Fit, MoveOne, HeldUp, Blocked;
    var next := MoveOne(assets, goals[i]);
    if Blocked(assets, goals[i]) {
      BlockedStays(assets, goals[i]);
    } else if i in s {
      MovedIsFree(assets, goals, i, s);
    } else {
      forall k: nat | k < |goals| ensures HeldUp(assets, goals, s, k) <==> HeldUp(next, goals, s, k) {
        SameHolders(assets, goals, i, s, k);
      }
    }
  }

  lemma BlockedStays(assets: Assets, g: Goal)
    requires Blocked(assets, g)
    ensures MoveOne(assets, g) == assets
  {
  }

  lemma MovedIsFree(assets: Assets, goals: seq<Goal>, i: nat, s: set<nat>)
    requires Fit(assets, goals) && i < |goals| && !Blocked(assets, goals[i])
    ensures !HeldUp(assets, goals, s, i) && !HeldUp(MoveOne(assets, goals[i]), goals, s, i)
  {
  }

  lemma SameHolders(assets: Assets, goals: seq<Goal>, i: nat, s: set<nat>, k: nat)
    requires Fit(assets, goals) && i < |goals| && k < |goals| && i !in s && !Blocked(assets, goals[i])
    ensures HeldUp(assets, goals, s, k) <==> HeldUp(MoveOne(assets, goals[i]), goals, s, k)
  {
    var next := MoveOne(assets, goals[i]);
    hide NamesUnique, Blocked, Taken;
    assert next.Keys == assets.Keys;
    forall x | x in assets && Immovable(goals, s, x) ensures next[x] == assets[x] {
    }
  }

  lemma {:induction false} DeadlockStays(assets: Assets, goals: seq<Goal>, n: nat, s: set<nat>)
    requires Fit(assets, goals) && n <= |goals|
    ensures Deadlocked(assets, goals, s) <==> Deadlocked(After(assets, goals, n), goals, s)
  {
    hide Deadlocked, MoveOne, Fit;
    if n > 0 {
      DeadlockStays(assets, goals, n - 1, s);
      AfterFits(assets, goals, n - 1);
      DeadlockStep(After(assets, goals, n - 1), goals, n - 1, s);
    }
  }

  lemma Least(s: set<nat>) returns (k: nat)
    requires s != {}
    ensures k in s && forall j | j in s :: k <= j
  {
    k :| k in s;
    while exists j :: j in s && j < k
      invariant k in s
      decreases k
    {
      var j :| j in s && j < k;
      k := j;
    }
  }

  /** A deadlocked list fails: the first of the set in the list has nobody moved out of its way. */
  lemma DeadlockFails(assets: Assets, goals: seq<Goal>, s: set<nat>)
    requires Fit(assets, goals) && Deadlocked(assets, goals, s)
    ensures Failures(assets, goals, |goals|) > 0
  {
    var k := Least(s);
    NoFailureIff(assets, goals, |goals|);
    assert HeldUp(assets, goals, s, k);
    hide Failures, NamesUnique, FirstToWant;
    if HolderMovesFirst(assets, goals, k) {
      var x :| x in assets && x != goals[k].asset && assets[x].name == goals[k].want.name && Immovable(goals, s, x);
      var j: nat :| j < k && goals[j].asset == x;
      assert j !in s;
    }
  }

  /** The instances whose assets have the wanted names. */
  function Placed(assets: Assets, goals: seq<Goal>): set<nat> {
    set k: nat | k < |goals| && goals[k].asset in assets && assets[goals[k].asset].name == goals[k].want.name
  }

  predicate SameNames(a: Assets, b: Assets) {
    a.Keys == b.Keys && forall x | x in a :: a[x].name == b[x].name
  }

  lemma PlacedStep(assets: Assets, goals: seq<Goal>, i: nat)
    requires Fit(assets, goals) && i < |goals|
    ensures var next := MoveOne(assets, goals[i]);
            && Placed(assets, goals) <= Placed(next, goals)
            && (!Blocked(assets, goals[i]) ==> i in Placed(next, goals))
            && (Placed(assets, goals) == Placed(next, goals) ==> SameNames(assets, next))
  {
    hide NamesUnique, Blocked, Taken;
    if Placed(assets, goals) == Placed(MoveOne(assets, goals[i]), goals) && !Blocked(assets, goals[i]) {
      assert i in Placed(MoveOne(assets, goals[i]), goals);
      assert i in Placed(assets, goals);
    }
  }

  lemma {:induction false} PlacedGrows(assets: Assets, goals: seq<Goal>, m: nat, n: nat)
    requires Fit(assets, goals) && m <= n <= |goals|
    ensures Placed(After(assets, goals, m), goals) <= Placed(After(assets, goals, n), goals)
    ensures Placed(After(assets, goals, m), goals) == Placed(After(assets, goals, n), goals)
            ==> SameNames(After(assets, goals, m), After(assets, goals, n))
    decreases n
  {
    hide Fit, MoveOne, Placed;
    if m < n {
      PlacedGrows(assets, goals, m, n - 1);
      AfterFits(assets, goals, n - 1);
      PlacedStep(After(assets, goals, n - 1), goals, n - 1);
    }
  }

  lemma {:induction false} SomeBlocked(assets: Assets, goals: seq<Goal>, n: nat) returns (k: nat)
    requires n <= |goals| && Failures(assets, goals, n) > 0
    ensures k < n && Blocked(After(assets, goals, k), goals[k])
  {
    hide Blocked;
    k := n - 1;
    if !Blocked(After(assets, goals, n - 1), goals[n - 1]) { k := SomeBlocked(assets, goals, n - 1); }
  }

  lemma SameNamesBlocked(a: Assets, b: Assets, g: Goal)
    requires SameNames(a, b)
    ensures Blocked(a, g) <==> Blocked(b, g)
  {
  }

  /** While nothing is placed anew during a run, goals are blocked in it as they were at its start, and
      those that are not are placed. */
  lemma StandStill(assets: Assets, goals: seq<Goal>, k: nat)
    requires Fit(assets, goals) && k < |goals|
    requires Placed(assets, goals) == Placed(After(assets, goals, |goals|), goals)
    ensures Blocked(After(assets, goals, k), goals[k]) <==> Blocked(assets, goals[k])
    ensures Blocked(assets, goals[k]) || k in Placed(assets, goals)
  {
    hide Fit, MoveOne, Placed, Blocked, After, SameNames;
    AtFirst(assets, goals);
    AfterNext(assets, goals, k);
    PlacedGrows(assets, goals, 0, k);
    PlacedGrows(assets, goals, k, |goals|);
    PlacedGrows(assets, goals, k + 1, |goals|);
    AfterFits(assets, goals, k);
    PlacedStep(After(assets, goals, k), goals, k);
    SameNamesBlocked(assets, After(assets, goals, k), goals[k]);
  }

  /** A failing run over a list without deadlock and without a name wanted twice places another instance. */
  lemma FailingRunPlaces(assets: Assets, goals: seq<Goal>)
    requires Fit(assets, goals) && NoTwoWant(goals) && NoDeadlock(assets, goals)
    requires Failures(assets, goals, |goals|) > 0
    ensures Placed(assets, goals) < Placed(After(assets, goals, |goals|), goals)
  {
    hide After, Failures, Fit;
    PlacedGrows(assets, goals, 0, |goals|);
    AtFirst(assets, goals);
    if Placed(assets, goals) == Placed(After(assets, goals, |goals|), goals) {
      var s := set k: nat | k < |goals| && Blocked(assets, goals[k]);
      var k := SomeBlocked(assets, goals, |goals|);
      StandStill(assets, goals, k);
      assert k in s && !Deadlocked(assets, goals, s);
      forall i: nat | i in s ensures HeldUp(assets, goals, s, i) {
        WaitsInside(assets, goals, s, i);
      }
    }
  }

  lemma AtFirst(assets: Assets, goals: seq<Goal>)
    ensures After(assets, goals, 0) == assets
  {
  }

  lemma AfterNext(assets: Assets, goals: seq<Goal>, k: nat)
    requires k < |goals|
    ensures After(assets, goals, k + 1) == MoveOne(After(assets, goals, k), goals[k])
  {
  }

  lemma WaitsInside(assets: Assets, goals: seq<Goal>, s: set<nat>, i: nat)
    requires Fit(assets, goals) && NoTwoWant(goals) && i < |goals| && Blocked(assets, goals[i])
    requires Placed(assets, goals) == Placed(After(assets, goals, |goals|), goals)
    requires s == set k: nat | k < |goals| && Blocked(assets, goals[k])
    ensures HeldUp(assets, goals, s, i)
  {
    hide After, NamesUnique;
    var x :| x in assets && assets[x].name == goals[i].want.name && x != goals[i].asset;
    if j: nat :| j < |goals| && goals[j].asset == x {
      StandStill(assets, goals, j);
      if j !in s {
        assert j in Placed(assets, goals);
        assert FirstToWant(goals, if i < j then j else i);
      }
    }
    assert Immovable(goals, s, x);
  }

  lemma {:induction false} TimesShift(assets: Assets, goals: seq<Goal>, runs: nat)
    ensures Times(After(assets, goals, |goals|), goals, runs) == Times(assets, goals, runs + 1)
  {
    if runs > 0 { TimesShift(assets, goals, runs - 1); }
  }

  lemma NoDeadlockAfter(assets: Assets, goals: seq<Goal>)
    requires Fit(assets, goals) && NoDeadlock(assets, goals)
    ensures NoDeadlock(After(assets, goals, |goals|), goals)
  {
    hide Deadlocked, After, Fit;
    forall s: set<nat> ensures !Deadlocked(After(assets, goals, |goals|), goals, s) {
      DeadlockStays(assets, goals, |goals|, s);
    }
  }

  lemma PlacedBound(assets: Assets, goals: seq<Goal>)
    ensures |Placed(assets, goals)| <= |goals|
  {
    Bounded(Placed(assets, goals), |goals|);
  }

  lemma {:induction false} Bounded(s: set<nat>, n: nat)
    requires forall k | k in s :: k < n
    ensures |s| <= n
    decreases n
  {
    if n > 0 {
      Bounded(s - {n - 1}, n - 1);
    } else {
      assert s == {};
    }
  }

  lemma {:induction false} SettlesAfter(assets: Assets, goals: seq<Goal>) returns (runs: nat)
    requires Fit(assets, goals) && NoTwoWant(goals) && NoDeadlock(assets, goals)
    ensures Failures(Times(assets, goals, runs), goals, |goals|) == 0
    ensures runs <= |goals| - |Placed(assets, goals)|
    decreases |goals| - |Placed(assets, goals)|
  {
    hide Failures, Fit, NoDeadlock, NoTwoWant, After, Placed;
    PlacedBound(assets, goals);
    runs := 0;
    if Failures(assets, goals, |goals|) > 0 {
      var next := After(assets, goals, |goals|);
      FailingRunPlaces(assets, goals);
      AfterFits(assets, goals, |goals|);
      NoDeadlockAfter(assets, goals);
      PlacedBound(next, goals);
      Smaller(Placed(assets, goals), Placed(next, goals));
      var more := SettlesAfter(next, goals);
      TimesShift(assets, goals, more);
      runs := more + 1;
    }
  }

  lemma Smaller(a: set<nat>, b: set<nat>)
    requires a < b
    ensures |a| < |b|
  {
    assert b == a + (b - a);
    var x :| x in b - a;
    assert |b - a| > 0;
  }

  lemma {:induction false} TimesKeeps(assets: Assets, goals: seq<Goal>, runs: nat)
    requires Fit(assets, goals)
    ensures Fit(Times(assets, goals, runs), goals)
    ensures forall s :: Deadlocked(assets, goals, s) <==> Deadlocked(Times(assets, goals, runs), goals, s)
  {
    hide Fit, Deadlocked, After;
    if runs > 0 {
      TimesKeeps(assets, goals, runs - 1);
      var before := Times(assets, goals, runs - 1);
      AfterFits(before, goals, |goals|);
      forall s ensures Deadlocked(assets, goals, s) <==> Deadlocked(Times(assets, goals, runs), goals, s) {
        DeadlockStays(before, goals, |goals|, s);
      }
    }
  }

  /** With a name wanted twice, or a deadlock, every run fails, however many came before it. */
  lemma EveryRunFails(assets: Assets, goals: seq<Goal>, runs: nat)
    requires Fit(assets, goals) && !(NoTwoWant(goals) && NoDeadlock(assets, goals))
    ensures Failures(Times(assets, goals, runs), goals, |goals|) > 0
  {
    TimesKeeps(assets, goals, runs);
    var now := Times(assets, goals, runs);
    hide Failures, Times, Fit, Deadlocked, FirstToWant;
    if !NoTwoWant(goals) {
      NoFailureIff(now, goals, |goals|);
    } else {
      var s :| Deadlocked(assets, goals, s);
      DeadlockFails(now, goals, s);
    }
  }

  // ---------- The reconciliation meets these goals ----------

  /** Addressed and mapped instances, each with an asset of its own. */
  ghost predicate Ready(acc: Account, db: Db, insts: seq<Instance>) {
    && Valid(db)
    && (forall k | 0 <= k < |insts| :: PickAddress(acc, insts[k]) != "" && insts[k].id in db.mappings)
    && (forall j, k | 0 <= j < k < |insts| :: db.mappings[insts[j].id] != db.mappings[insts[k].id])
  }

  function GoalOf(acc: Account, mappings: map<string, nat>, inst: Instance): Goal {
    Goal(if inst.id in mappings then mappings[inst.id] else 0, Asset(AssetName(acc, inst), PickAddress(acc, inst)))
  }

  function Goals(acc: Account, mappings: map<string, nat>, insts: seq<Instance>): seq<Goal> {
    seq(|insts|, k requires 0 <= k < |insts| => GoalOf(acc, mappings, insts[k]))
  }

  /** A run in which nothing raises by itself. */
  function Calm(insts: seq<Instance>): seq<Fault> { seq(|insts|, _ => NoFault) }

  function CalmRun(acc: Account, db: Db, insts: seq<Instance>, n: nat): Tally
    requires Valid(db) && n <= |insts|
  {
    SyncAll(acc, db, insts, Calm(insts), n)
  }

  lemma OneIs(acc: Account, db: Db, inst: Instance)
    requires Valid(db) && PickAddress(acc, inst) != "" && inst.id in db.mappings
    ensures var g := GoalOf(acc, db.mappings, inst);
            var (db', o) := SyncOne(acc, db, inst, NoFault);
            && db'.mappings == db.mappings && db'.assets == MoveOne(db.assets, g)
            && o == (if Blocked(db.assets, g) then Failed else Updated)
  {
    NameClashIff(acc, db, inst);
    var a := db.mappings[inst.id];
    assert db.assets[a := db.assets[a]] == db.assets;
  }

  lemma {:induction false} RunIs(acc: Account, db: Db, insts: seq<Instance>, n: nat)
    requires Ready(acc, db, insts) && n <= |insts|
    ensures var goals := Goals(acc, db.mappings, insts);
            var t := CalmRun(acc, db, insts, n);
            && t.db.mappings == db.mappings && t.db.assets == After(db.assets, goals, n)
            && t.failed == Failures(db.assets, goals, n)
  {
    hide SyncOne, MoveOne, Blocked, Valid;
    if n > 0 {
      RunIs(acc, db, insts, n - 1);
      OneIs(acc, CalmRun(acc, db, insts, n - 1).db, insts[n - 1]);
    }
  }

  lemma ReadyValid(acc: Account, db: Db, insts: seq<Instance>)
    requires Ready(acc, db, insts)
    ensures Valid(db)
  {
  }

  lemma ReadyFits(acc: Account, db: Db, insts: seq<Instance>)
    requires Ready(acc, db, insts)
    ensures Fit(db.assets, Goals(acc, db.mappings, insts))
    ensures |Goals(acc, db.mappings, insts)| == |insts|
  {
  }

  /** No earlier instance of the list gets the same name. */
  predicate FirstToName(acc: Account, insts: seq<Instance>, k: nat)
    requires k < |insts|
  {
    forall j | 0 <= j < k :: AssetName(acc, insts[j]) != AssetName(acc, insts[k])
  }

  /** Any other asset that holds instance k's name belongs to an earlier instance. */
  predicate HolderEarlier(acc: Account, db: Db, insts: seq<Instance>, k: nat)
    requires k < |insts| && forall j | 0 <= j < |insts| :: insts[j].id in db.mappings
  {
    forall x | x in db.assets && x != db.mappings[insts[k].id] && db.assets[x].name == AssetName(acc, insts[k]) ::
      exists j: nat :: j < k && db.mappings[insts[j].id] == x
  }

  lemma SameConditions(acc: Account, db: Db, insts: seq<Instance>, k: nat)
    requires k < |insts| && forall j | 0 <= j < |insts| :: insts[j].id in db.mappings
    ensures var goals := Goals(acc, db.mappings, insts);
            && (FirstToWant(goals, k) <==> FirstToName(acc, insts, k))
            && (HolderMovesFirst(db.assets, goals, k) <==> HolderEarlier(acc, db, insts, k))
  {
    var goals := Goals(acc, db.mappings, insts);
    hide AssetName, PickAddress;
    assert forall j: nat | j < |insts| :: goals[j].asset == db.mappings[insts[j].id]
                                          && goals[j].want.name == AssetName(acc, insts[j]);
    if HolderMovesFirst(db.assets, goals, k) {
      forall x | x in db.assets && x != db.mappings[insts[k].id] && db.assets[x].name == AssetName(acc, insts[k])
        ensures exists j: nat :: j < k && db.mappings[insts[j].id] == x
      {
        var j: nat :| j < k && goals[j].asset == x;
        assert db.mappings[insts[j].id] == x;
      }
    }
    if HolderEarlier(acc, db, insts, k) {
      forall x | x in db.assets && x != goals[k].asset && db.assets[x].name == goals[k].want.name
        ensures exists j: nat :: j < k && goals[j].asset == x
      {
        var j: nat :| j < k && db.mappings[insts[j].id] == x;
        assert goals[j].asset == x;
      }
    }
  }

  /** One run over mapped instances has no failure if and only if each is the first in the list to want
      its name, and any other asset that holds this name at the start belongs to an earlier instance. */
  lemma NoFailureInRunIff(acc: Account, db: Db, insts: seq<Instance>, n: nat)
    requires Ready(acc, db, insts) && n <= |insts|
    ensures CalmRun(acc, db, insts, n).failed == 0 <==>
            forall k: nat | k < n :: FirstToName(acc, insts, k) && HolderEarlier(acc, db, insts, k)
  {
    var goals := Goals(acc, db.mappings, insts);
    hide CalmRun, Fit, Goals, FirstToWant, FirstToName, HolderMovesFirst, HolderEarlier, Shape;
    RunIs(acc, db, insts, n);
    ReadyFits(acc, db, insts);
    NoFailureIff(db.assets, goals, n);
    forall k: nat | k < n
      ensures FirstToWant(goals, k) <==> FirstToName(acc, insts, k)
      ensures HolderMovesFirst(db.assets, goals, k) <==> HolderEarlier(acc, db, insts, k)
    {
      SameConditions(acc, db, insts, k);
    }
  }

  // ---------- Reruns of the reconciliation ----------

  /** The database after a number of runs over the list. */
  function Reruns(acc: Account, db: Db, insts: seq<Instance>, runs: nat): (r: Db)
    requires Valid(db)
    ensures Valid(r)
  {
    if runs == 0 then db else CalmRun(acc, Reruns(acc, db, insts, runs - 1), insts, |insts|).db
  }

  lemma ReadyStays(acc: Account, db: Db, insts: seq<Instance>)
    requires Ready(acc, db, insts)
    ensures Ready(acc, CalmRun(acc, db, insts, |insts|).db, insts)
  {
    RunIs(acc, db, insts, |insts|);
    hide CalmRun, Goals, PickAddress, After, Failures;
  }

  lemma {:induction false} RerunsAre(acc: Account, db: Db, insts: seq<Instance>, runs: nat)
    requires Ready(acc, db, insts)
    ensures var goals := Goals(acc, db.mappings, insts);
            var r := Reruns(acc, db, insts, runs);
            && Ready(acc, r, insts) && r.mappings == db.mappings && r.assets == Times(db.assets, goals, runs)
            && CalmRun(acc, r, insts, |insts|).failed == Failures(r.assets, goals, |insts|)
  {
    hide Ready, CalmRun, Goals, After, Failures, Valid;
    ReadyValid(acc, db, insts);
    ReadyFits(acc, db, insts);
    if runs > 0 {
      RerunsAre(acc, db, insts, runs - 1);
      var before := Reruns(acc, db, insts, runs - 1);
      RunIs(acc, before, insts, |insts|);
      ReadyStays(acc, before, insts);
    }
    RunIs(acc, Reruns(acc, db, insts, runs), insts, |insts|);
  }

  /** No set of the instances waits for itself or for assets outside the list. */
  ghost predicate NoneWaitForever(acc: Account, db: Db, insts: seq<Instance>) {
    NoDeadlock(db.assets, Goals(acc, db.mappings, insts))
  }

  predicate NamesWantedOnce(acc: Account, insts: seq<Instance>) {
    forall k: nat | k < |insts| :: FirstToName(acc, insts, k)
  }

  lemma WantedOnce(acc: Account, db: Db, insts: seq<Instance>)
    requires Ready(acc, db, insts)
    ensures NoTwoWant(Goals(acc, db.mappings, insts)) <==> NamesWantedOnce(acc, insts)
  {
    var goals := Goals(acc, db.mappings, insts);
    ReadyFits(acc, db, insts);
    hide Goals, FirstToWant, FirstToName, HolderMovesFirst, HolderEarlier, Fit;
    forall k: nat | k < |insts| ensures FirstToWant(goals, k) <==> FirstToName(acc, insts, k) {
      SameConditions(acc, db, insts, k);
    }
  }

  /** With a name wanted twice, or instances that wait for each other or for assets outside the list, every
      run fails, whatever the number of runs before it. */
  lemma UnsettledFailsForever(acc: Account, db: Db, insts: seq<Instance>, runs: nat)
    requires Ready(acc, db, insts)
    requires !(NamesWantedOnce(acc, insts) && NoneWaitForever(acc, db, insts))
    ensures CalmRun(acc, Reruns(acc, db, insts, runs), insts, |insts|).failed > 0
  {
    ReadyValid(acc, db, insts);
    hide Ready, CalmRun, Reruns, Goals, Failures, Times, NoDeadlock, NoTwoWant, NamesWantedOnce, Fit;
    ReadyFits(acc, db, insts);
    WantedOnce(acc, db, insts);
    EveryRunFails(db.assets, Goals(acc, db.mappings, insts), runs);
    RerunsAre(acc, db, insts, runs);
  }

  /** The run after a number of reruns reports no failure. */
  ghost predicate CleanAfter(acc: Account, db: Db, insts: seq<Instance>, runs: nat)
    requires Valid(db)
  {
    CalmRun(acc, Reruns(acc, db, insts, runs), insts, |insts|).failed == 0
  }

  /** Rerunning a reconciliation over mapped instances ever comes to a run without failure if and only if
      no two of them get one name and no set of them waits for its own assets' names or for assets outside
      the list; and then it takes no more reruns than there are instances. */
  lemma ReconciliationSettlesIff(acc: Account, db: Db, insts: seq<Instance>)
    requires Ready(acc, db, insts)
    ensures (exists runs: nat :: CleanAfter(acc, db, insts, runs))
            <==> NamesWantedOnce(acc, insts) && NoneWaitForever(acc, db, insts)
    ensures NamesWantedOnce(acc, insts) && NoneWaitForever(acc, db, insts) ==>
            exists runs: nat :: runs <= |insts| && CleanAfter(acc, db, insts, runs)
  {
    ReadyValid(acc, db, insts);
    hide Ready, CalmRun, Reruns, Goals, Failures, Times, NoDeadlock, NoTwoWant, NamesWantedOnce, Fit;
    if NamesWantedOnce(acc, insts) && NoneWaitForever(acc, db, insts) {
      ReadyFits(acc, db, insts);
      WantedOnce(acc, db, insts);
      var runs := SettlesAfter(db.assets, Goals(acc, db.mappings, insts));
      RerunsAre(acc, db, insts, runs);
      assert CleanAfter(acc, db, insts, runs);
    } else {
      forall runs: nat ensures !CleanAfter(acc, db, insts, runs) {
        UnsettledFailsForever(acc, db, insts, runs);
      }
    }
  }

  // ---------- How a list comes to be mapped ----------

  /** No asset is mapped twice. */
  ghost predicate OwnAssets(db: Db) {
    forall i, j | i in db.mappings && j in db.mappings && db.mappings[i] == db.mappings[j] :: i == j
  }

  lemma OneKeepsOwn(acc: Account, db: Db, inst: Instance, fault: Fault)
    requires Valid(db) && OwnAssets(db)
    ensures OwnAssets(SyncOne(acc, db, inst, fault).0)
  {
    hide NamesUnique, NewAsset, Taken;
  }

  lemma {:induction false} SyncKeepsOwn(acc: Account, db: Db, insts: seq<Instance>, faults: seq<Fault>, n: nat)
    requires Valid(db) && OwnAssets(db) && |faults| == |insts| && n <= |insts|
    ensures OwnAssets(SyncAll(acc, db, insts, faults, n).db)
  {
    hide SyncOne, OwnAssets, Valid;
    if n > 0 {
      SyncKeepsOwn(acc, db, insts, faults, n - 1);
      OneKeepsOwn(acc, SyncAll(acc, db, insts, faults, n - 1).db, insts[n - 1], faults[n - 1]);
    }
  }

  predicate DistinctInstances(insts: seq<Instance>) {
    forall j, k | 0 <= j < k < |insts| :: insts[j].id != insts[k].id
  }

  /** A run, with whatever faults, that leaves every addressed instance of its list mapped makes the list
      ready; so does a run without failure, whatever was mapped before. */
  lemma MappingRunIsReady(acc: Account, db: Db, insts: seq<Instance>, faults: seq<Fault>)
    requires Valid(db) && OwnAssets(db) && |faults| == |insts| && DistinctInstances(insts)
    requires forall k | 0 <= k < |insts| :: PickAddress(acc, insts[k]) != ""
    ensures var t := SyncAll(acc, db, insts, faults, |insts|);
            && (t.failed == 0 ==> forall k | 0 <= k < |insts| :: insts[k].id in t.db.mappings)
            && ((forall k | 0 <= k < |insts| :: insts[k].id in t.db.mappings) ==> Ready(acc, t.db, insts))
  {
    hide SyncAll, PickAddress;
    SyncKeepsOwn(acc, db, insts, faults, |insts|);
    CleanRunMaps(acc, db, insts, faults, |insts|);
    AllAddressed(acc, insts, |insts|);
  }

  lemma {:induction false} AllAddressed(acc: Account, insts: seq<Instance>, n: nat)
    requires n <= |insts| && forall k | 0 <= k < |insts| :: PickAddress(acc, insts[k]) != ""
    ensures AddressLess(acc, insts, n) == 0
  {
    if n > 0 { AllAddressed(acc, insts, n - 1); }
  }

  /** Two mapped instances that swap their names want distinct ones, and fail both, in every run. */
  lemma SwapNeverSettles(acc: Account, db: Db, insts: seq<Instance>, runs: nat)
    requires Ready(acc, db, insts) && |insts| == 2
    requires AssetName(acc, insts[0]) != AssetName(acc, insts[1])
    requires db.assets[db.mappings[insts[0].id]].name == AssetName(acc, insts[1])
    requires db.assets[db.mappings[insts[1].id]].name == AssetName(acc, insts[0])
    ensures NamesWantedOnce(acc, insts)
    ensures var r := Reruns(acc, db, insts, runs);
            && r.assets == db.assets && r.mappings == db.mappings
            && CalmRun(acc, r, insts, 2).failed == 2
  {
    hide Reruns, CalmRun, Failures, Times, AssetName, PickAddress, HeldUp, After;
    var goals := Goals(acc, db.mappings, insts);
    RerunsAre(acc, db, insts, runs);
    BothBlocked(db.assets, goals, runs);
  }

  lemma {:induction false} BothBlocked(assets: Assets, goals: seq<Goal>, runs: nat)
    requires |goals| == 2 && goals[0].asset in assets && goals[1].asset in assets
    requires goals[0].asset != goals[1].asset
    requires assets[goals[0].asset].name == goals[1].want.name && assets[goals[1].asset].name == goals[0].want.name
    ensures Times(assets, goals, runs) == assets && Failures(assets, goals, 2) == 2
  {
    assert Blocked(assets, goals[0]) && Blocked(assets, goals[1]);
    assert After(assets, goals, 0) == assets && After(assets, goals, 1) == assets && After(assets, goals, 2) == assets;
    assert Failures(assets, goals, 0) == 0 && Failures(assets, goals, 1) == 1;
    if runs > 0 { BothBlocked(assets, goals, runs - 1); }
  }

  /** Two new instances of one name: the first run stores the second under a suffixed name and reports
      success, and every later run fails to rename it. */
  lemma SameNameNeverSettles(acc: Account, a: Instance, b: Instance, runs: nat)
    requires !acc.nameById && a.id != b.id && a.name == b.name != ""
    requires PickAddress(acc, a) != "" && PickAddress(acc, b) != ""
    ensures var first := CalmRun(acc, Db(map[], 0, map[], map[]), [a, b], 2);
            && first.created == 2 && first.failed == 0
            && CalmRun(acc, Reruns(acc, first.db, [a, b], runs), [a, b], 2).failed > 0
  {
    var first := CalmRun(acc, Db(map[], 0, map[], map[]), [a, b], 2);
    FirstImport(acc, a, b);
    assert AssetName(acc, [a, b][0]) == AssetName(acc, [a, b][1]);
    assert !FirstToName(acc, [a, b], 1);
    hide CalmRun, Reruns;
    UnsettledFailsForever(acc, first.db, [a, b], runs);
  }

  lemma FirstImport(acc: Account, a: Instance, b: Instance)
    requires !acc.nameById && a.id != b.id && a.name == b.name != ""
    requires PickAddress(acc, a) != "" && PickAddress(acc, b) != ""
    ensures var first := CalmRun(acc, Db(map[], 0, map[], map[]), [a, b], 2);
            first.created == 2 && first.failed == 0 && Ready(acc, first.db, [a, b])
  {
    var empty := Db(map[], 0, map[], map[]);
    var list, calm := [a, b], Calm([a, b]);
    assert calm == [NoFault, NoFault];
    assert SyncAll(acc, empty, list, calm, 0).db == empty;
    var t1 := SyncAll(acc, empty, list, calm, 1);
    assert t1.db == Db(map[0 := Asset(a.name, PickAddress(acc, a))], 1, map[a.id := 0], map[]);
    assert Taken(t1.db.assets, b.name, None);
    assert |Suffixed(b.name, b)| > |b.name|;
    var first := SyncAll(acc, empty, list, calm, 2);
    assert first.db.mappings[a.id] == 0 && first.db.mappings[b.id] == 1;
  }
}
