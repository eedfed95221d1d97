/** The debounce-and-merge scheduler of apps/common/decorators.py.

    Three dictionaries per cache key (task, merged arguments, first-run time) are updated by
    `delay`, and wiped by the end of any run of that key.  A class mirrors the dictionaries and is
    proved against the functions below; runs are sequences of events over those functions. */
module Debounce {
  import opened Wrappers

  /** Keyword names that collide with parameters of the scheduler's own functions. */
  const Reserved: set<string> := {"ttl", "cache_key", "org", "func", "key", "self"}

  type Name = n: string | n !in Reserved witness "p"

  /** A cache key names the function, which has exactly one parameter, and what the suffix callback adds. */
  datatype Key = Key(func: string, param: Name, suffix: string)
  type Org = string
  type Value = string
  type Kwargs = map<Name, set<Value>>

  /** What a caller may pass for a keyword: a tuple, list or set, or anything else. */
  datatype Arg = Collection(elems: set<Value>) | Scalar(v: Value)

  /** Waiting: asleep or queued, so still cancellable.  Dispatched: handed to the executor.  Finished: the
      function was called.  Rejected: the call raised because the arguments do not bind. */
  datatype Status = Waiting | Dispatched | Finished | Rejected | Cancelled

  /** `at` is the time the timer fires while the task waits, and the dispatch time afterwards. */
  datatype Task = Task(key: Key, org: Org, pos: seq<Value>, args: Kwargs, at: real, status: Status)

  datatype State = State(
    now: real,
    tasks: seq<Task>,
    taskOf: map<Key, nat>,
    argsOf: map<Key, Kwargs>,
    firstAt: map<Key, real>)

  const Empty := State(0.0, [], map[], map[], map[])

  datatype Event =
    | Delay(key: Key, org: Org, ttl: real, pos: seq<Value>, kwargs: seq<(Name, Arg)>)
    | TimerFires(id: nat)
    | Complete(id: nat)
    | Tick(to: real)

  // ---------- Specification of the single steps ----------

  /** Folds one keyword into the merged arguments. */
  function MergeOne(cached: Kwargs, name: Name, vs: set<Value>): Kwargs {
    cached[name := if name in cached then cached[name] + vs else vs]
  }

  /** Folds the keywords in order; stops at the first value that is not a collection. */
  function Merge(cached: Kwargs, kwargs: seq<(Name, Arg)>): (Kwargs, bool)
    decreases |kwargs|
  {
    if kwargs == [] then (cached, true)
    else match kwargs[0].1
      case Scalar(_) => (cached, false)
      case Collection(vs) => Merge(MergeOne(cached, kwargs[0].0, vs), kwargs[1..])
  }

  function Cached(s: State, key: Key): Kwargs {
    if key in s.argsOf then s.argsOf[key] else map[]
  }

  predicate Done(t: Task) { t.status == Finished || t.status == Rejected || t.status == Cancelled }

  /** The arguments fit a function of one parameter: one by position, or by its own name, not both. */
  predicate Binds(t: Task) {
    t.args.Keys <= {t.key.param} && (if t.args == map[] then |t.pos| <= 1 else t.pos == [])
  }

  predicate Valid(s: State) {
    forall k | k in s.taskOf :: s.taskOf[k] < |s.tasks| && s.tasks[s.taskOf[k]].key == k
  }

  function SetStatus(s: State, id: nat, status: Status): State
    requires id < |s.tasks|
  {
    s.(tasks := s.tasks[id := s.tasks[id].(status := status)])
  }

  /** Forgets a finished task, cancels a waiting one, leaves a dispatched one alone. */
  function CancelOrRemove(s: State, key: Key): (r: State)
    requires Valid(s)
    ensures Valid(r)
  {
    if key !in s.taskOf then s
    else
      var id := s.taskOf[key];
      if Done(s.tasks[id]) then s.(taskOf := s.taskOf - {key})
      else if s.tasks[id].status == Waiting then SetStatus(s, id, Cancelled)
      else s
  }

  function FirstAt(s: State, key: Key): real {
    if key in s.firstAt then s.firstAt[key] else s.now
  }

  lemma CancelKeeps(s: State, key: Key)
    requires Valid(s)
    ensures var c := CancelOrRemove(s, key);
            c.now == s.now && c.firstAt == s.firstAt && c.argsOf == s.argsOf
  {
  }

  lemma FirstRunNoted(m: map<Key, real>, key: Key, now: real)
    ensures key in m ==> m[key := m[key]] == m
    ensures m[key := now] - {key} == m - {key}
  {
  }

  predicate AtOnce(s: State, key: Key, ttl: real) { s.now - FirstAt(s, key) > ttl }

  function RunDebouncer(s: State, key: Key, org: Org, ttl: real, pos: seq<Value>, args: Kwargs): (r: State)
    requires Valid(s)
    ensures Valid(r)
  {
    var c := CancelOrRemove(s, key);
    if AtOnce(s, key, ttl) then
      c.(argsOf := c.argsOf - {key},
         firstAt := c.firstAt - {key},
         tasks := c.tasks + [Task(key, org, pos, args, s.now, Dispatched)])
    else
      c.(firstAt := c.firstAt[key := FirstAt(s, key)],
         taskOf := c.taskOf[key := |c.tasks|],
         tasks := c.tasks + [Task(key, org, pos, args, s.now + ttl, Waiting)])
  }

  /** `delay`.  When a keyword is rejected the call raises, but what it merged before stays in an
      argument dictionary that was already cached, because that dictionary is updated in place. */
  function DelayStep(s: State, key: Key, org: Org, ttl: real, pos: seq<Value>,
                     kwargs: seq<(Name, Arg)>): (r: (State, bool))
    requires Valid(s)
    ensures Valid(r.0)
  {
    var (merged, ok) := Merge(Cached(s, key), kwargs);
    if ok then
      (RunDebouncer(s.(argsOf := s.argsOf[key := merged]), key, org, ttl, pos, merged), true)
    else
      (if key in s.argsOf then s.(argsOf := s.argsOf[key := merged]) else s, false)
  }

  /** The end of a run pops all three entries of its key, whoever wrote them, and even when calling the
      function raised: that is logged and swallowed. */
  function CompleteStep(s: State, id: nat): State
    requires id < |s.tasks|
  {
    var key := s.tasks[id].key;
    SetStatus(s, id, if Binds(s.tasks[id]) then Finished else Rejected).(
      taskOf := s.taskOf - {key}, argsOf := s.argsOf - {key}, firstAt := s.firstAt - {key})
  }

  /** One event; an event that cannot happen in a state leaves it as it is. */
  function Step(s: State, e: Event): (r: State)
    requires Valid(s)
    ensures Valid(r)
  {
    match e
    case Delay(key, org, ttl, pos, kwargs) => DelayStep(s, key, org, ttl, pos, kwargs).0
    case TimerFires(id) =>
      if id < |s.tasks| && s.tasks[id].status == Waiting && s.tasks[id].at <= s.now
      then s.(tasks := s.tasks[id := s.tasks[id].(status := Dispatched, at := s.now)])
      else s
    case Complete(id) =>
      if id < |s.tasks| && s.tasks[id].status == Dispatched then CompleteStep(s, id) else s
    case Tick(to) => if s.now <= to then s.(now := to) else s
  }

  // ---------- The dictionaries, updated in place ----------

  class Caches {
    var now: real
    var tasks: seq<Task>
    var taskOf: map<Key, nat>
    var argsOf: map<Key, Kwargs>
    var firstAt: map<Key, real>

    function Abs(): State reads this { State(now, tasks, taskOf, argsOf, firstAt) }

    constructor ()
      ensures Abs() == Empty
    {
      now, tasks, taskOf, argsOf, firstAt := 0.0, [], map[], map[], map[];
    }

    method CancelOrRemoveTask(key: Key)
      requires Valid(Abs())
      modifies this
      ensures Abs() == CancelOrRemove(old(Abs()), key)
      ensures key in old(taskOf) && Done(old(tasks)[old(taskOf)[key]]) ==> taskOf == old(taskOf) - {key}
    {
      if key !in taskOf { return; }
      var id := taskOf[key];
      if Done(tasks[id]) {
        taskOf := taskOf - {key};
      } else if tasks[id].status == Waiting {
        tasks := tasks[id := tasks[id].(status := Cancelled)];
      }
    }

    method RunDebouncerFunc(key: Key, org: Org, ttl: real, pos: seq<Value>, args: Kwargs)
      requires Valid(Abs())
      modifies this
      ensures Abs() == RunDebouncer(old(Abs()), key, org, ttl, pos, args)
    {
      hide CancelOrRemove, Valid;
      CancelKeeps(Abs(), key);
      CancelOrRemoveTask(key);
      var current := now;
      FirstRunNoted(firstAt, key, current);
      if key !in firstAt { firstAt := firstAt[key := current]; }
      var firstRunTime := firstAt[key];
      if current - firstRunTime > ttl {
        argsOf := argsOf - {key};
        firstAt := firstAt - {key};
        tasks := tasks + [Task(key, org, pos, args, current, Dispatched)];
      } else {
        tasks := tasks + [Task(key, org, pos, args, current + ttl, Waiting)];
        taskOf := taskOf[key := |tasks| - 1];
      }
    }

    method DelayCall(key: Key, org: Org, ttl: real, pos: seq<Value>, kwargs: seq<(Name, Arg)>)
      returns (accepted: bool)
      requires Valid(Abs())
      modifies this
      ensures (Abs(), accepted) == DelayStep(old(Abs()), key, org, ttl, pos, kwargs)
    {
      var had := key in argsOf;
      var cached := if had then argsOf[key] else map[];
      var i := 0;
      while i < |kwargs|
        invariant 0 <= i <= |kwargs|
        invariant Merge(cached, kwargs[i..]) == Merge(Cached(old(Abs()), key), kwargs)
        invariant Abs() == if had then old(Abs()).(argsOf := old(argsOf)[key := cached]) else old(Abs())
        invariant had == (key in old(argsOf))
      {
        var (name, v) := kwargs[i];
        if v.Scalar? { return false; }
        cached := MergeOne(cached, name, v.elems);
        if had { argsOf := argsOf[key := cached]; }   // the cached dictionary is the same object
        i := i + 1;
      }
      argsOf := argsOf[key := cached];
      assert argsOf == old(argsOf)[key := cached];
      RunDebouncerFunc(key, org, ttl, pos, cached);
      accepted := true;
    }

    /** `called` is whether the function was entered. */
    method RunFuncWithOrg(id: nat) returns (called: bool)
      requires Valid(Abs()) && id < |tasks| && tasks[id].status == Dispatched
      modifies this
      ensures Abs() == CompleteStep(old(Abs()), id)
      ensures called == Binds(old(tasks[id]))
    {
      var key := tasks[id].key;
      called := Binds(tasks[id]);
      tasks := tasks[id := tasks[id].(status := if called then Finished else Rejected)];
      taskOf := taskOf - {key};
      argsOf := argsOf - {key};
      firstAt := firstAt - {key};
    }
  }

  // ---------- Runs ----------

  /** An accepted call: what it asked for, when, and how many tasks existed before it. */
  datatype Call = Call(key: Key, org: Org, pos: seq<Value>, kwargs: Kwargs, at: real, since: nat)

  datatype History = History(s: State, calls: seq<Call>)

  const Start := History(Empty, [])

  function CallOf(s: State, e: Event): Call
    requires e.Delay?
  {
    Call(e.key, e.org, e.pos, Merge(map[], e.kwargs).0, s.now, |s.tasks|)
  }

  function Next(h: History, e: Event): (r: History)
    requires Valid(h.s)
    ensures Valid(r.s)
  {
    History(
      Step(h.s, e),
      if e.Delay? && DelayStep(h.s, e.key, e.org, e.ttl, e.pos, e.kwargs).1
      then h.calls + [CallOf(h.s, e)] else h.calls)
  }

  function Exec(h: History, es: seq<Event>): (r: History)
    requires Valid(h.s)
    ensures Valid(r.s)
    decreases |es|
  {
    if es == [] then h else Exec(Next(h, es[0]), es[1..])
  }

  // ---------- Nothing passed by keyword is lost ----------

  predicate Live(t: Task) { t.status != Cancelled }

  ghost predicate Within(a: Kwargs, b: Kwargs) {
    forall n | n in a :: n in b && a[n] <= b[n]
  }

  /** Task j was made by this call or a later one, is alive, and carries all its keyword values. */
  ghost predicate Carries(s: State, c: Call, j: nat) {
    && c.since <= j < |s.tasks|
    && Live(s.tasks[j]) && s.tasks[j].key == c.key
    && Within(c.kwargs, s.tasks[j].args)
  }

  /** The heart of the scheduler: a task that is cached and still waiting has all its arguments in
      the argument cache, so the call that cancels it inherits them. */
  ghost predicate Attached(s: State, key: Key) {
    key in s.taskOf && s.taskOf[key] < |s.tasks| && s.tasks[s.taskOf[key]].status == Waiting
  }

  ghost predicate Inv(s: State) {
    && Valid(s)
    && forall k | Attached(s, k) :: k in s.argsOf && Within(s.tasks[s.taskOf[k]].args, s.argsOf[k])
  }

  lemma InvValid(s: State)
    requires Inv(s)
    ensures Valid(s)
  {
  }

  ghost predicate Kept(s: State, c: Call) { exists j: nat :: Carries(s, c, j) }

  ghost predicate NothingLost(h: History) {
    forall i | 0 <= i < |h.calls| :: Kept(h.s, h.calls[i])
  }

  lemma {:induction false} MergeGrows(cached: Kwargs, kwargs: seq<(Name, Arg)>)
    ensures Within(cached, Merge(cached, kwargs).0)
    decreases |kwargs|
  {
    if kwargs != [] && kwargs[0].1.Collection? {
      MergeGrows(MergeOne(cached, kwargs[0].0, kwargs[0].1.elems), kwargs[1..]);
    }
  }

  lemma {:induction false} MergeMonotone(a: Kwargs, b: Kwargs, kwargs: seq<(Name, Arg)>)
    requires Within(a, b)
    ensures Within(Merge(a, kwargs).0, Merge(b, kwargs).0)
    ensures Merge(a, kwargs).1 == Merge(b, kwargs).1
    decreases |kwargs|
  {
    if kwargs != [] && kwargs[0].1.Collection? {
      var (n, v) := kwargs[0];
      assert Within(MergeOne(a, n, v.elems), MergeOne(b, n, v.elems));
      MergeMonotone(MergeOne(a, n, v.elems), MergeOne(b, n, v.elems), kwargs[1..]);
    }
  }

  /** What one call does to the tasks: it cancels at most the attached one and adds at most one. */
  lemma DelayShape(s: State, e: Event)
    requires Valid(s) && e.Delay?
    ensures var r := Step(s, e);
            var (merged, ok) := Merge(Cached(s, e.key), e.kwargs);
            && |r.tasks| == |s.tasks| + (if ok then 1 else 0)
            && (ok ==> var t := r.tasks[|s.tasks|];
                  t == Task(e.key, e.org, e.pos, merged, t.at, t.status) && t.status in {Waiting, Dispatched})
            && forall j | 0 <= j < |s.tasks| ::
                 r.tasks[j] == if ok && Attached(s, e.key) && s.taskOf[e.key] == j
                               then s.tasks[j].(status := Cancelled) else s.tasks[j]
  {
    hide Merge, MergeOne, RunDebouncer, CancelOrRemove, AtOnce, FirstAt, Valid;
    var (merged, ok) := Merge(Cached(s, e.key), e.kwargs);
    if ok {
      var s1 := s.(argsOf := s.argsOf[e.key := merged]);
      SameCondition(s, s1, e.key, e.ttl);
      DebouncerTasks(s1, e.key, e.org, e.ttl, e.pos, merged);
    }
  }

  lemma DebouncerTasks(s: State, key: Key, org: Org, ttl: real, pos: seq<Value>, args: Kwargs)
    requires Valid(s)
    ensures var r := RunDebouncer(s, key, org, ttl, pos, args);
            && |r.tasks| == |s.tasks| + 1
            && (var t := r.tasks[|s.tasks|];
                t == Task(key, org, pos, args, t.at, t.status) && t.status in {Waiting, Dispatched})
            && forall j | 0 <= j < |s.tasks| ::
                 r.tasks[j] == if Attached(s, key) && s.taskOf[key] == j
                               then s.tasks[j].(status := Cancelled) else s.tasks[j]
  {
    hide CancelOrRemove, AtOnce, FirstAt, Valid;
    CancelledTasks(s, key);
  }

  lemma CancelledTasks(s: State, key: Key)
    requires Valid(s)
    ensures var c := CancelOrRemove(s, key);
            && |c.tasks| == |s.tasks|
            && forall j | 0 <= j < |s.tasks| ::
                 c.tasks[j] == if Attached(s, key) && s.taskOf[key] == j
                               then s.tasks[j].(status := Cancelled) else s.tasks[j]
  {
  }

  /** What one call does to the cached arguments. */
  lemma ArgsShape(s: State, e: Event)
    requires Valid(s) && e.Delay?
    ensures var r := Step(s, e);
            forall k | k in r.argsOf ::
              if k == e.key then r.argsOf[k] == Merge(Cached(s, e.key), e.kwargs).0
              else k in s.argsOf && r.argsOf[k] == s.argsOf[k]
  {
    var (merged, ok) := Merge(Cached(s, e.key), e.kwargs);
    hide Merge, MergeOne;
    if ok { ArgsAfterDebouncer(s.(argsOf := s.argsOf[e.key := merged]), e, merged); }
    hide RunDebouncer;
  }

  lemma ArgsAfterDebouncer(s: State, e: Event, args: Kwargs)
    requires Valid(s) && e.Delay?
    ensures RunDebouncer(s, e.key, e.org, e.ttl, e.pos, args).argsOf
            == if AtOnce(s, e.key, e.ttl) then s.argsOf - {e.key} else s.argsOf
  {
  }

  /** What one call does to the first-run times. */
  lemma FirstShape(s: State, e: Event)
    requires Valid(s) && e.Delay?
    ensures var r := Step(s, e);
            forall k | k in r.firstAt ::
              if k == e.key && Merge(Cached(s, e.key), e.kwargs).1 then r.firstAt[k] == FirstAt(s, k)
              else k in s.firstAt && r.firstAt[k] == s.firstAt[k]
  {
  }

  /** Which tasks are attached after one call.  Other keys are left alone; its own key is attached
      to the new task, due one ttl from now, exactly when the call does not dispatch at once. */
  lemma AttachShape(s: State, e: Event)
    requires Valid(s) && e.Delay?
    ensures var r := Step(s, e);
            var ok := Merge(Cached(s, e.key), e.kwargs).1;
            && (forall k | Attached(r, k) && (k != e.key || !ok) ::
                  Attached(s, k) && r.taskOf[k] == s.taskOf[k] && (k in s.firstAt ==> k in r.firstAt))
            && (ok ==>
                  var t := r.tasks[|s.tasks|];
                  if AtOnce(s, e.key, e.ttl) then t.status == Dispatched && t.at == s.now && !Attached(r, e.key)
                  else t.status == Waiting && t.at == s.now + e.ttl && Attached(r, e.key)
                       && r.taskOf[e.key] == |s.tasks| && e.key in r.firstAt)
            && r.now == s.now
  {
    hide Merge, MergeOne, RunDebouncer, CancelOrRemove, Valid, AtOnce;
    var (merged, ok) := Merge(Cached(s, e.key), e.kwargs);
    if ok {
      var s1 := s.(argsOf := s.argsOf[e.key := merged]);
      SameCondition(s, s1, e.key, e.ttl);
      DebouncerAttach(s1, e.key, e.org, e.ttl, e.pos, merged);
      DebouncerTasks(s1, e.key, e.org, e.ttl, e.pos, merged);
    }
  }

  lemma SameCondition(s: State, s1: State, key: Key, ttl: real)
    requires Valid(s) && s1 == s.(argsOf := s1.argsOf)
    ensures Valid(s1)
    ensures AtOnce(s1, key, ttl) == AtOnce(s, key, ttl)
    ensures forall k :: Attached(s1, k) == Attached(s, k)
  {
  }

  lemma DebouncerAttach(s: State, key: Key, org: Org, ttl: real, pos: seq<Value>, args: Kwargs)
    requires Valid(s)
    ensures var r := RunDebouncer(s, key, org, ttl, pos, args);
            && |r.tasks| == |s.tasks| + 1
            && (forall k | Attached(r, k) && k != key ::
                  Attached(s, k) && r.taskOf[k] == s.taskOf[k] && (k in s.firstAt ==> k in r.firstAt))
            && (var t := r.tasks[|s.tasks|];
                if AtOnce(s, key, ttl) then t.status == Dispatched && t.at == s.now && !Attached(r, key)
                else t.status == Waiting && t.at == s.now + ttl && Attached(r, key)
                     && r.taskOf[key] == |s.tasks| && key in r.firstAt)
            && r.now == s.now
  {
    hide CancelOrRemove, AtOnce;
    InvCancelled(s, key);
    CancelKeeps(s, key);
  }

  lemma InvCancelled(s: State, key: Key)
    requires Valid(s)
    ensures var c := CancelOrRemove(s, key);
            && !Attached(c, key) && |c.tasks| == |s.tasks| && c.firstAt == s.firstAt
            && forall k | k != key ::
                 Attached(c, k) == Attached(s, k) && (Attached(s, k) ==> c.taskOf[k] == s.taskOf[k])
  {
  }

  lemma InvCancel(s: State, key: Key)
    requires Inv(s)
    ensures Inv(CancelOrRemove(s, key)) && !Attached(CancelOrRemove(s, key), key)
  {
  }

  lemma InvDebouncer(s: State, key: Key, org: Org, ttl: real, pos: seq<Value>, args: Kwargs)
    requires Inv(s) && key in s.argsOf && s.argsOf[key] == args
    ensures Inv(RunDebouncer(s, key, org, ttl, pos, args))
  {
    var c, r := CancelOrRemove(s, key), RunDebouncer(s, key, org, ttl, pos, args);
    InvCancel(s, key);
    forall k | Attached(r, k) ensures k in r.argsOf && Within(r.tasks[r.taskOf[k]].args, r.argsOf[k]) {
      if k != key { assert Attached(c, k); }
    }
  }

  lemma InvDelay(s: State, e: Event)
    requires Inv(s) && e.Delay?
    ensures Inv(Step(s, e))
  {
    MergeGrows(Cached(s, e.key), e.kwargs);
    var (merged, ok) := Merge(Cached(s, e.key), e.kwargs);
    var s1 := s.(argsOf := s.argsOf[e.key := merged]);
    forall k | Attached(s1, k) ensures Within(s1.tasks[s1.taskOf[k]].args, s1.argsOf[k]) {
      assert Attached(s, k);
    }
    if ok { InvDebouncer(s1, e.key, e.org, e.ttl, e.pos, merged); }
  }

  lemma InvStep(s: State, e: Event)
    requires Inv(s)
    ensures Inv(Step(s, e))
  {
    if e.Delay? {
      InvDelay(s, e);
    } else {
      var r := Step(s, e);
      forall k | Attached(r, k) ensures k in r.argsOf && Within(r.tasks[r.taskOf[k]].args, r.argsOf[k]) {
        assert Attached(s, k);
      }
    }
  }

  /** The other events leave what a task was made with. */
  lemma OtherTask(s: State, e: Event, j: nat)
    requires Valid(s) && !e.Delay? && j < |s.tasks|
    ensures var r := Step(s, e);
            && |r.tasks| == |s.tasks|
            && r.tasks[j] == s.tasks[j].(status := r.tasks[j].status, at := r.tasks[j].at)
            && (Live(s.tasks[j]) ==> Live(r.tasks[j]))
  {
    hide DelayStep;
  }

  /** Who carries an earlier call's values after one more event. */
  lemma CarrierStep(s: State, e: Event, c: Call, j: nat) returns (k: nat)
    requires Inv(s) && Carries(s, c, j)
    ensures Carries(Step(s, e), c, k)
    ensures k == j || (e.Delay? && e.key == c.key && Attached(s, c.key) && j == s.taskOf[c.key] && k == |s.tasks|)
  {
    hide Step, Merge;
    k := j;
    if e.Delay? {
      MergeGrows(Cached(s, e.key), e.kwargs);
      DelayShape(s, e);
      if Merge(Cached(s, e.key), e.kwargs).1 && e.key == c.key && Attached(s, c.key) && s.taskOf[c.key] == j {
        k := |s.tasks|;
      }
    } else {
      OtherTask(s, e, j);
    }
  }

  /** A freshly accepted call is carried by the task it creates. */
  lemma NewCallCarried(s: State, e: Event)
    requires Inv(s) && e.Delay?
    requires DelayStep(s, e.key, e.org, e.ttl, e.pos, e.kwargs).1
    ensures Carries(Step(s, e), CallOf(s, e), |s.tasks|)
  {
    MergeMonotone(map[], Cached(s, e.key), e.kwargs);
  }

  lemma NothingLostStep(h: History, e: Event)
    requires Inv(h.s) && NothingLost(h)
    ensures Inv(Next(h, e).s) && NothingLost(Next(h, e))
  {
    InvStep(h.s, e);
    var h' := Next(h, e);
    forall i | 0 <= i < |h'.calls| ensures Kept(h'.s, h'.calls[i]) {
      if i < |h.calls| {
        var j :| Carries(h.s, h.calls[i], j);
        var k := CarrierStep(h.s, e, h.calls[i], j);
        assert Carries(h'.s, h'.calls[i], k);
      } else {
        NewCallCarried(h.s, e);
        assert Carries(h'.s, h'.calls[i], |h.s.tasks|);
      }
    }
  }

  lemma {:induction false} NothingLostExec(h: History, es: seq<Event>)
    requires Inv(h.s) && NothingLost(h)
    ensures Inv(Exec(h, es).s) && NothingLost(Exec(h, es))
    decreases |es|
  {
    assert Valid(h.s);
    hide Step, Inv, NothingLost;
    if es != [] {
      NothingLostStep(h, es[0]);
      NothingLostExec(Next(h, es[0]), es[1..]);
    }
  }

  /** In every run, all keyword values of every accepted call are together in one task made by that
      call or a later one, and that task has been dispatched or waits and is not cancelled. */
  lemma DebounceLosesNothing(es: seq<Event>)
    ensures NothingLost(Exec(Start, es))
  {
    NothingLostExec(Start, es);
  }

  // ---------- Nothing is invented ----------

  /** Some call for this key offered value v under this name. */
  ghost predicate Offered(all: seq<Event>, key: Key, name: Name, v: Value) {
    exists e, vs :: e in all && e.Delay? && e.key == key && (name, Collection(vs)) in e.kwargs && v in vs
  }

  ghost predicate AllOffered(all: seq<Event>, key: Key, args: Kwargs) {
    forall n, v | n in args && v in args[n] :: Offered(all, key, n, v)
  }

  /** Some call for this key had this organization and these positional arguments. */
  ghost predicate MadeByCall(all: seq<Event>, t: Task) {
    exists e :: e in all && e.Delay? && e.key == t.key && e.org == t.org && e.pos == t.pos
  }

  ghost predicate NothingInvented(all: seq<Event>, s: State) {
    && (forall j | 0 <= j < |s.tasks| ::
          AllOffered(all, s.tasks[j].key, s.tasks[j].args) && MadeByCall(all, s.tasks[j]))
    && (forall k | k in s.argsOf :: AllOffered(all, k, s.argsOf[k]))
  }

  lemma {:induction false} MergeOffered(all: seq<Event>, e: Event, cached: Kwargs, i: nat)
    requires e in all && e.Delay? && i <= |e.kwargs|
    requires AllOffered(all, e.key, cached)
    ensures AllOffered(all, e.key, Merge(cached, e.kwargs[i..]).0)
    decreases |e.kwargs| - i
  {
    if i < |e.kwargs| && e.kwargs[i].1.Collection? {
      var (name, vs) := (e.kwargs[i].0, e.kwargs[i].1.elems);
      var next := MergeOne(cached, name, vs);
      forall n, v | n in next && v in next[n] ensures Offered(all, e.key, n, v) {
        if n == name && v in vs { assert (n, Collection(vs)) in e.kwargs; }
      }
      assert e.kwargs[i..][1..] == e.kwargs[i + 1..];
      MergeOffered(all, e, next, i + 1);
    }
  }

  lemma NothingInventedDelay(all: seq<Event>, s: State, e: Event)
    requires Valid(s) && e in all && e.Delay? && NothingInvented(all, s)
    ensures NothingInvented(all, Step(s, e))
  {
    hide Offered, RunDebouncer, DelayStep, Step, Merge, MergeOne, Valid;
    MergeOffered(all, e, Cached(s, e.key), 0);
    assert e.kwargs[0..] == e.kwargs;
    DelayShape(s, e);
    var r := Step(s, e);
    forall j | 0 <= j < |r.tasks|
      ensures AllOffered(all, r.tasks[j].key, r.tasks[j].args) && MadeByCall(all, r.tasks[j])
    {
      if j < |s.tasks| { SameOrigin(all, s.tasks[j], r.tasks[j]); }
    }
    ArgsShape(s, e);
  }

  lemma NothingInventedStep(all: seq<Event>, s: State, e: Event)
    requires Valid(s) && e in all && NothingInvented(all, s)
    ensures NothingInvented(all, Step(s, e))
  {
    if e.Delay? {
      NothingInventedDelay(all, s, e);
    } else {
      var r := Step(s, e);
      hide Offered, DelayStep;
      forall j | 0 <= j < |r.tasks|
        ensures AllOffered(all, r.tasks[j].key, r.tasks[j].args) && MadeByCall(all, r.tasks[j])
      {
        OtherTask(s, e, j);
        SameOrigin(all, s.tasks[j], r.tasks[j]);
      }
    }
  }

  lemma SameOrigin(all: seq<Event>, t: Task, u: Task)
    requires MadeByCall(all, t) && AllOffered(all, t.key, t.args)
    requires u.key == t.key && u.org == t.org && u.pos == t.pos && u.args == t.args
    ensures MadeByCall(all, u) && AllOffered(all, u.key, u.args)
  {
  }

  lemma {:induction false} NothingInventedExec(all: seq<Event>, h: History, es: seq<Event>)
    requires Valid(h.s) && NothingInvented(all, h.s) && forall e | e in es :: e in all
    ensures NothingInvented(all, Exec(h, es).s)
    decreases |es|
  {
    hide Step, NothingInvented;
    if es != [] {
      NothingInventedStep(all, h.s, es[0]);
      NothingInventedExec(all, Next(h, es[0]), es[1..]);
    }
  }

  /** Conversely a task only carries values that calls for its own key offered, and its organization
      and positional arguments are those of one such call. */
  lemma DebounceInventsNothing(es: seq<Event>)
    ensures NothingInvented(es, Exec(Start, es).s)
  {
    NothingInventedExec(es, Start, es);
  }

  // ---------- Resetting the timer cannot starve a value ----------

  /** Timers fire when due, and every call's ttl is at most m. */
  ghost predicate Timely(s: State, e: Event, m: real) {
    && (e.Tick? ==> forall j | 0 <= j < |s.tasks| && s.tasks[j].status == Waiting :: e.to <= s.tasks[j].at)
    && (e.Delay? ==> 0.0 <= e.ttl <= m)
  }

  ghost predicate TimelyRun(h: History, es: seq<Event>, m: real)
    requires Valid(h.s)
    decreases |es|
  {
    es == [] || (Timely(h.s, es[0], m) && TimelyRun(Next(h, es[0]), es[1..], m))
  }

  ghost predicate TimeInv(s: State, m: real) {
    && Inv(s)
    && (forall j | 0 <= j < |s.tasks| && s.tasks[j].status == Waiting :: s.now <= s.tasks[j].at)
    && (forall k | k in s.firstAt :: s.firstAt[k] <= s.now)
    && (forall k | Attached(s, k) :: k in s.firstAt && s.tasks[s.taskOf[k]].at <= s.firstAt[k] + 2.0 * m)
  }

  /** Carried in time; and while the carrier can still be replaced, its key's first-run time is not
      later than the call, so the replacement is in time as well. */
  ghost predicate CarriesInTime(s: State, c: Call, j: nat, m: real) {
    && Carries(s, c, j)
    && s.tasks[j].at <= c.at + 2.0 * m
    && (Attached(s, c.key) && s.taskOf[c.key] == j ==> c.key in s.firstAt && s.firstAt[c.key] <= c.at)
  }

  ghost predicate KeptInTime(s: State, c: Call, m: real) { exists j: nat :: CarriesInTime(s, c, j, m) }

  ghost predicate AllInTime(h: History, m: real) {
    forall i | 0 <= i < |h.calls| :: KeptInTime(h.s, h.calls[i], m)
  }

  /** After a call, whatever task is attached to a key is due within two ttls of its first run. */
  lemma AttachedDue(s: State, e: Event, k: Key, m: real)
    requires TimeInv(s, m) && e.Delay? && Timely(s, e, m) && Attached(Step(s, e), k)
    ensures var r := Step(s, e);
            k in r.firstAt && r.tasks[r.taskOf[k]].at <= r.firstAt[k] + 2.0 * m
  {
    DelayShape(s, e);
    FirstShape(s, e);
    AttachShape(s, e);
    assert Valid(s);
    hide Step, Merge, Within, Inv;
    if k != e.key || !Merge(Cached(s, e.key), e.kwargs).1 {
      assert Attached(s, k);
    }
  }

  lemma TimeInvDelay(s: State, e: Event, m: real)
    requires TimeInv(s, m) && e.Delay? && Timely(s, e, m)
    ensures TimeInv(Step(s, e), m)
  {
    hide Step, Merge, Within, Inv;
    InvValid(s);
    InvStep(s, e);
    forall k | Attached(Step(s, e), k)
      ensures k in Step(s, e).firstAt && Step(s, e).tasks[Step(s, e).taskOf[k]].at <= Step(s, e).firstAt[k] + 2.0 * m
    {
      AttachedDue(s, e, k, m);
    }
    DelayShape(s, e);
    FirstShape(s, e);
    AttachShape(s, e);
  }

  lemma TimeInvStep(s: State, e: Event, m: real)
    requires TimeInv(s, m) && Timely(s, e, m)
    ensures TimeInv(Step(s, e), m)
  {
    hide Step, TimeInv;
    if e.Delay? { TimeInvDelay(s, e, m); } else { TimeInvOther(s, e, m); }
  }

  lemma TimeInvOther(s: State, e: Event, m: real)
    requires TimeInv(s, m) && !e.Delay? && Timely(s, e, m)
    ensures TimeInv(Step(s, e), m)
  {
    hide DelayStep, Within, Inv, Valid, Binds;
    InvValid(s);
    InvStep(s, e);
    var r := Step(s, e);
    forall k | Attached(r, k)
      ensures k in r.firstAt && r.tasks[r.taskOf[k]].at <= r.firstAt[k] + 2.0 * m
    {
      StillAttached(s, e, k);
    }
  }

  lemma StillAttached(s: State, e: Event, key: Key)
    requires Valid(s) && !e.Delay? && Attached(Step(s, e), key)
    ensures var r := Step(s, e);
            && Attached(s, key) && r.taskOf[key] == s.taskOf[key] && s.taskOf[key] < |r.tasks|
            && r.tasks[s.taskOf[key]].at == s.tasks[s.taskOf[key]].at
            && (key in s.firstAt ==> key in r.firstAt && r.firstAt[key] == s.firstAt[key])
  {
    hide DelayStep, Binds;
  }

  lemma InTimeStep(s: State, e: Event, c: Call, j: nat, m: real) returns (k: nat)
    requires TimeInv(s, m) && Timely(s, e, m) && CarriesInTime(s, c, j, m)
    ensures CarriesInTime(Step(s, e), c, k, m)
  {
    hide DelayStep, Within, Inv;
    InvValid(s);
    if e.Delay? {
      k := InTimeDelay(s, e, c, j, m);
    } else {
      k := CarrierStep(s, e, c, j);
      OtherTask(s, e, j);
    }
  }

  lemma InTimeDelay(s: State, e: Event, c: Call, j: nat, m: real) returns (k: nat)
    requires TimeInv(s, m) && e.Delay? && Timely(s, e, m) && CarriesInTime(s, c, j, m)
    ensures CarriesInTime(Step(s, e), c, k, m)
  {
    hide Step, Merge, Within, Inv;
    InvValid(s);
    k := CarrierStep(s, e, c, j);
    DelayShape(s, e);
    FirstShape(s, e);
    AttachShape(s, e);
    var r := Step(s, e);
    if k == j {
      if Attached(r, c.key) && r.taskOf[c.key] == j { assert Attached(s, c.key) && s.taskOf[c.key] == j; }
    } else {
      // the call replaced the carrier: it was due by firstAt + 2m, and firstAt is kept
      assert s.now <= s.tasks[j].at <= s.firstAt[c.key] + 2.0 * m;
    }
  }

  lemma NewCallInTime(s: State, e: Event, m: real)
    requires TimeInv(s, m) && e.Delay? && Timely(s, e, m)
    requires DelayStep(s, e.key, e.org, e.ttl, e.pos, e.kwargs).1
    ensures CarriesInTime(Step(s, e), CallOf(s, e), |s.tasks|, m)
  {
    NewCallCarried(s, e);
  }

  lemma AllInTimeStep(h: History, e: Event, m: real)
    requires TimeInv(h.s, m) && AllInTime(h, m) && Timely(h.s, e, m)
    ensures AllInTime(Next(h, e), m)
  {
    var h' := Next(h, e);
    forall i | 0 <= i < |h'.calls| ensures KeptInTime(h'.s, h'.calls[i], m) {
      if i < |h.calls| {
        var j: nat :| CarriesInTime(h.s, h.calls[i], j, m);
        var k := InTimeStep(h.s, e, h.calls[i], j, m);
        assert CarriesInTime(h'.s, h'.calls[i], k, m);
      } else {
        NewCallInTime(h.s, e, m);
        assert CarriesInTime(h'.s, h'.calls[i], |h.s.tasks|, m);
      }
    }
  }

  lemma {:induction false} InTimeExec(h: History, es: seq<Event>, m: real)
    requires TimeInv(h.s, m) && AllInTime(h, m) && TimelyRun(h, es, m)
    ensures TimeInv(Exec(h, es).s, m) && AllInTime(Exec(h, es), m)
    decreases |es|
  {
    assert Valid(h.s);
    hide Step, TimeInv, AllInTime, Timely;
    if es != [] {
      TimeInvStep(h.s, es[0], m);
      AllInTimeStep(h, es[0], m);
      InTimeExec(Next(h, es[0]), es[1..], m);
    }
  }

  /** With timers on time and every ttl at most m, the values of a call made at time c.at have been
      dispatched by c.at + 2m, however many later calls reset the timer. */
  lemma DebounceCannotStarve(es: seq<Event>, m: real, i: nat)
    requires TimelyRun(Start, es, m) && i < |Exec(Start, es).calls|
    requires Exec(Start, es).calls[i].at + 2.0 * m < Exec(Start, es).s.now
    ensures exists j: nat ::
      && Carries(Exec(Start, es).s, Exec(Start, es).calls[i], j)
      && Exec(Start, es).s.tasks[j].status != Waiting
      && Exec(Start, es).s.tasks[j].at <= Exec(Start, es).calls[i].at + 2.0 * m
  {
    InTimeExec(Start, es, m);
    var h := Exec(Start, es);
    var j :| CarriesInTime(h.s, h.calls[i], j, m);
  }

  lemma Four(h: History, a: Event, b: Event, c: Event, d: Event, m: real)
    requires Valid(h.s)
    ensures var h1 := Next(h, a);
            var h2 := Next(h1, b);
            var h3 := Next(h2, c);
            && Exec(h, [a, b, c, d]) == Next(h3, d)
            && (Timely(h.s, a, m) && Timely(h1.s, b, m) && Timely(h2.s, c, m) && Timely(h3.s, d, m)
                ==> TimelyRun(h, [a, b, c, d], m))
  {
    hide Next, Timely;
    assert [a, b, c, d][1..] == [b, c, d] && [b, c, d][1..] == [c, d] && [c, d][1..] == [d] && [d][1..] == [];
    var h1 := Next(h, a);
    var h2 := Next(h1, b);
    var h3 := Next(h2, c);
    assert Exec(h3, [d]) == Exec(Next(h3, d), []) && TimelyRun(Next(h3, d), [], m);
    assert Timely(h3.s, d, m) ==> TimelyRun(h3, [d], m);
    assert Exec(h2, [c, d]) == Exec(h3, [d]) && Exec(h1, [b, c, d]) == Exec(h2, [c, d]);
    assert TimelyRun(h2, [c, d], m) == (Timely(h2.s, c, m) && TimelyRun(h3, [d], m));
    assert TimelyRun(h1, [b, c, d], m) == (Timely(h1.s, b, m) && TimelyRun(h2, [c, d], m));
  }

  const AnyKey := Key("f", "p", "")

  lemma FirstReset(m: real)
    requires 0.0 < m
    ensures var call := Delay(AnyKey, "o", m, [], []);
            var h := Next(Next(Start, call), Tick(m));
            && Timely(Start.s, call, m) && Timely(Next(Start, call).s, Tick(m), m) && Timely(h.s, call, m)
            && |h.calls| == 1 && h.calls[0].at == 0.0 && |h.s.tasks| == 1 && h.s.now == m
            && Attached(h.s, AnyKey) && h.s.taskOf[AnyKey] == 0 && AnyKey in h.s.firstAt && h.s.firstAt[AnyKey] == 0.0
  {
    var call := Delay(AnyKey, "o", m, [], []);
    DelayShape(Start.s, call);
    AttachShape(Start.s, call);
    FirstShape(Start.s, call);
  }

  lemma SecondReset(h: History, m: real)
    requires Valid(h.s) && 0.0 < m && |h.s.tasks| == 1 && h.s.now == m
    requires Attached(h.s, AnyKey) && h.s.taskOf[AnyKey] == 0 && AnyKey in h.s.firstAt && h.s.firstAt[AnyKey] == 0.0
    ensures var h1 := Next(h, Delay(AnyKey, "o", m, [], []));
            && Timely(h1.s, Tick(2.0 * m), m)
            && |h1.calls| == |h.calls| + 1 && h.calls <= h1.calls
            && Next(h1, Tick(2.0 * m)) == h1.(s := h1.s.(now := 2.0 * m))
            && forall j | 0 <= j < |h1.s.tasks| :: h1.s.tasks[j].status in {Waiting, Cancelled}
  {
    var call := Delay(AnyKey, "o", m, [], []);
    DelayShape(h.s, call);
    AttachShape(h.s, call);
  }

  /** The bound is exact: a value offered at time 0 can be kept back until 2m. */
  lemma TwiceTheTtlIsReached(m: real)
    requires 0.0 < m
    ensures var call := Delay(AnyKey, "o", m, [], []);
            var es := [call, Tick(m), call, Tick(2.0 * m)];
            var h := Exec(Start, es);
            && TimelyRun(Start, es, m) && |h.calls| == 2 && h.calls[0].at == 0.0 && h.s.now == 2.0 * m
            && forall j | 0 <= j < |h.s.tasks| :: h.s.tasks[j].status in {Waiting, Cancelled}
  {
    var call := Delay(AnyKey, "o", m, [], []);
    Four(Start, call, Tick(m), call, Tick(2.0 * m), m);
    FirstReset(m);
    SecondReset(Next(Next(Start, call), Tick(m)), m);
    hide Next, Timely, Exec, TimelyRun;
  }

  // ---------- Which calls reach the function ----------

  /** The call is served: its values, positional argument and organization are those of one live task of
      its key, whose arguments the function accepts. */
  ghost predicate Served(s: State, c: Call, j: nat) {
    && Carries(s, c, j)
    && s.tasks[j].org == c.org && (c.pos == [] || s.tasks[j].pos == c.pos)
    && Binds(s.tasks[j])
  }

  ghost predicate ServedBySome(s: State, c: Call) { exists j: nat :: Served(s, c, j) }

  ghost function After(h: History, es: seq<Event>): State
    requires Valid(h.s)
  {
    Exec(h, es).s
  }

  /** All keywords are the parameter's name. */
  predicate Named(e: Event)
    requires e.Delay?
  {
    forall i | 0 <= i < |e.kwargs| :: e.kwargs[i].0 == e.key.param
  }

  /** An event that is no call of this key, or calls it by keyword only. */
  predicate ByKeyword(e: Event, key: Key) { e.Delay? && e.key == key ==> e.pos == [] && Named(e) }

  /** An event that is no call of this key, or calls it with at most one argument, by position. */
  predicate ByPosition(e: Event, key: Key) { e.Delay? && e.key == key ==> |e.pos| <= 1 && e.kwargs == [] }

  /** By keyword, and from this organization. */
  predicate Agrees(e: Event, key: Key, org: Org) {
    ByKeyword(e, key) && (e.Delay? && e.key == key ==> e.org == org)
  }

  /** The cached keywords of a key are its parameter's name. */
  predicate CachedNamed(s: State, key: Key) { Cached(s, key).Keys <= {key.param} }

  lemma {:induction false} MergeNames(cached: Kwargs, kwargs: seq<(Name, Arg)>, name: Name)
    requires cached.Keys <= {name} && forall i | 0 <= i < |kwargs| :: kwargs[i].0 == name
    ensures Merge(cached, kwargs).0.Keys <= {name}
    decreases |kwargs|
  {
    if kwargs != [] && kwargs[0].1.Collection? {
      MergeNames(MergeOne(cached, kwargs[0].0, kwargs[0].1.elems), kwargs[1..], name);
    }
  }

  lemma CachedNamedStep(s: State, e: Event, key: Key)
    requires Valid(s) && CachedNamed(s, key) && ByKeyword(e, key)
    ensures CachedNamed(Step(s, e), key)
  {
    if e.Delay? {
      ArgsShape(s, e);
      if e.key == key { MergeNames(Cached(s, key), e.kwargs, key.param); }
    }
  }

  function NamesOf(kwargs: seq<(Name, Arg)>): set<Name> { set a | a in kwargs :: a.0 }

  /** What a caller can see before the call: with the keywords cached so far, its arguments fit the function's
      one parameter. */
  predicate CallBinds(s: State, e: Event)
    requires e.Delay?
  {
    var names := Cached(s, e.key).Keys + NamesOf(e.kwargs);
    names <= {e.key.param} && (if names == {} then |e.pos| <= 1 else e.pos == [])
  }

  lemma {:induction false} MergedNames(cached: Kwargs, kwargs: seq<(Name, Arg)>)
    requires Merge(cached, kwargs).1
    ensures Merge(cached, kwargs).0.Keys == cached.Keys + NamesOf(kwargs)
    decreases |kwargs|
  {
    if kwargs != [] {
      MergedNames(MergeOne(cached, kwargs[0].0, kwargs[0].1.elems), kwargs[1..]);
      assert kwargs == [kwargs[0]] + kwargs[1..];
      assert NamesOf(kwargs) == {kwargs[0].0} + NamesOf(kwargs[1..]);
    }
  }

  lemma CallBindsTask(s: State, e: Event)
    requires Valid(s) && e.Delay? && DelayStep(s, e.key, e.org, e.ttl, e.pos, e.kwargs).1
    ensures CallBinds(s, e) <==> Binds(NewTask(s, e))
  {
    hide Merge, Step, CancelOrRemove, RunDebouncer;
    NewTaskIs(s, e);
    MergedNames(Cached(s, e.key), e.kwargs);
    var t := NewTask(s, e);
    assert t.args == map[] <==> t.args.Keys == {};
  }

  /** The task that an accepted call creates. */
  function NewTask(s: State, e: Event): Task
    requires Valid(s) && e.Delay? && DelayStep(s, e.key, e.org, e.ttl, e.pos, e.kwargs).1
  {
    Step(s, e).tasks[|s.tasks|]
  }

  lemma NewTaskIs(s: State, e: Event)
    requires Valid(s) && e.Delay? && DelayStep(s, e.key, e.org, e.ttl, e.pos, e.kwargs).1
    ensures var t := NewTask(s, e);
            && t.key == e.key && t.org == e.org && t.pos == e.pos && t.args == Merge(Cached(s, e.key), e.kwargs).0
            && |Step(s, e).tasks| == |s.tasks| + 1
            && t.status == (if AtOnce(s, e.key, e.ttl) then Dispatched else Waiting)
            && (!AtOnce(s, e.key, e.ttl) ==> Attached(Step(s, e), e.key) && Step(s, e).taskOf[e.key] == |s.tasks|)
  {
    DelayShape(s, e);
    AttachShape(s, e);
  }

  /** What stays of a task: everything it was made with, and that it was sent. */
  predicate Sent(t: Task) { t.status in {Dispatched, Finished, Rejected} }

  lemma TaskStays(s: State, e: Event, j: nat)
    requires Valid(s) && j < |s.tasks|
    ensures var r := Step(s, e);
            && j < |r.tasks|
            && r.tasks[j] == s.tasks[j].(status := r.tasks[j].status, at := r.tasks[j].at)
            && (Sent(s.tasks[j]) ==> Sent(r.tasks[j]))
  {
    if e.Delay? { DelayShape(s, e); } else { OtherTask(s, e, j); }
  }

  /** A task that has been sent stays as it is for ever. */
  lemma {:induction false} SentForever(h: History, es: seq<Event>, j: nat)
    requires Valid(h.s) && j < |h.s.tasks| && Sent(h.s.tasks[j])
    ensures var r := After(h, es);
            && j < |r.tasks| && Sent(r.tasks[j])
            && r.tasks[j] == h.s.tasks[j].(status := r.tasks[j].status, at := r.tasks[j].at)
    decreases |es|
  {
    if es != [] {
      TaskStays(h.s, es[0], j);
      hide Step;
      SentForever(Next(h, es[0]), es[1..], j);
    }
  }

  /** Among calls by keyword, from one organization, a call without positional arguments stays served. */
  lemma {:induction false} AgreeingServed(h: History, es: seq<Event>, c: Call, j: nat) returns (k: nat)
    requires Inv(h.s) && Served(h.s, c, j) && c.pos == [] && CachedNamed(h.s, c.key)
    requires forall e | e in es :: Agrees(e, c.key, c.org)
    ensures Served(After(h, es), c, k)
    decreases |es|
  {
    k := j;
    if es != [] {
      assert es[0] in es;
      k := ServedStep(h.s, es[0], c, j);
      InvStep(h.s, es[0]);
      CachedNamedStep(h.s, es[0], c.key);
      hide Step, Served, Inv, CachedNamed;
      k := AgreeingServed(Next(h, es[0]), es[1..], c, k);
    }
  }

  lemma ServedStep(s: State, e: Event, c: Call, j: nat) returns (k: nat)
    requires Inv(s) && Served(s, c, j) && c.pos == [] && CachedNamed(s, c.key) && Agrees(e, c.key, c.org)
    ensures Served(Step(s, e), c, k)
  {
    hide RunDebouncer, Merge, CancelOrRemove, Within;
    k := CarrierStep(s, e, c, j);
    TaskStays(s, e, j);
    if k != j {
      DelayShape(s, e);
      MergeNames(Cached(s, c.key), e.kwargs, c.key.param);
    }
  }

  /** The next call for a key, with no arguments at all, cancels the waiting task and drops its positional
      arguments; from another organization, it takes the organization too. */
  lemma ReplacedByNext(h: History, e: Event, next: Event)
    requires Inv(h.s) && e.Delay? && DelayStep(h.s, e.key, e.org, e.ttl, e.pos, e.kwargs).1
    requires !AtOnce(h.s, e.key, e.ttl)
    requires next.Delay? && next.key == e.key && next.kwargs == []
    ensures var s1 := Next(h, e).s;
            var r := After(Next(h, e), [next]);
            && DelayStep(s1, next.key, next.org, next.ttl, next.pos, next.kwargs).1
            && (forall j: nat :: Carries(r, CallOf(h.s, e), j) ==> j == |h.s.tasks| + 1)
            && |r.tasks| == |h.s.tasks| + 2
            && r.tasks[|h.s.tasks| + 1].org == next.org && r.tasks[|h.s.tasks| + 1].pos == next.pos
            && r.tasks[|h.s.tasks| + 1].args == Cached(s1, e.key)
            && Cached(s1, e.key) == Merge(Cached(h.s, e.key), e.kwargs).0
  {
    var h1 := Next(h, e);
    NewTaskIs(h.s, e);
    DelayShape(h1.s, next);
    assert Merge(Cached(h1.s, e.key), []) == (Cached(h1.s, e.key), true);
    CachedAfter(h.s, e);
    hide DelayStep, Merge, Within;
    assert Exec(h1, [next]) == Exec(Next(h1, next), []) == Next(h1, next);
  }

  lemma CachedAfter(s: State, e: Event)
    requires Valid(s) && e.Delay? && DelayStep(s, e.key, e.org, e.ttl, e.pos, e.kwargs).1
    requires !AtOnce(s, e.key, e.ttl)
    ensures Cached(Step(s, e), e.key) == Merge(Cached(s, e.key), e.kwargs).0
  {
    hide Merge, CancelOrRemove;
    var merged := Merge(Cached(s, e.key), e.kwargs).0;
    ArgsAfterDebouncer(s.(argsOf := s.argsOf[e.key := merged]), e, merged);
  }

  /** Right after a call, only its own task can serve it. */
  lemma JustCalled(h: History, e: Event)
    requires Inv(h.s) && e.Delay? && DelayStep(h.s, e.key, e.org, e.ttl, e.pos, e.kwargs).1
    ensures var r := Next(h, e).s;
            && r == Step(h.s, e) && |r.tasks| == |h.s.tasks| + 1 && r.tasks[|h.s.tasks|] == NewTask(h.s, e)
            && Carries(r, CallOf(h.s, e), |h.s.tasks|)
            && forall j: nat :: Carries(r, CallOf(h.s, e), j) ==> j == |h.s.tasks|
  {
    NewCallCarried(h.s, e);
    NewTaskIs(h.s, e);
  }

  lemma SameTaskServes(s: State, r: State, c: Call, j: nat)
    requires Served(s, c, j) && j < |r.tasks| && Sent(r.tasks[j])
    requires r.tasks[j] == s.tasks[j].(status := r.tasks[j].status, at := r.tasks[j].at)
    ensures Served(r, c, j)
  {
  }

  /** Dispatched at once, a call that binds is served for ever. */
  lemma ServedAtOnce(h: History, e: Event, es: seq<Event>)
    requires Inv(h.s) && e.Delay? && DelayStep(h.s, e.key, e.org, e.ttl, e.pos, e.kwargs).1
    requires Binds(NewTask(h.s, e)) && AtOnce(h.s, e.key, e.ttl)
    ensures ServedBySome(After(Next(h, e), es), CallOf(h.s, e))
  {
    InvValid(h.s);
    hide Step, Inv, DelayStep, Within;
    JustCalled(h, e);
    NewTaskIs(h.s, e);
    SentForever(Next(h, e), es, |h.s.tasks|);
    SameTaskServes(Next(h, e).s, After(Next(h, e), es), CallOf(h.s, e), |h.s.tasks|);
  }

  /** A call that does not bind is not served even before anything follows. */
  lemma NotServedUnlessBinding(h: History, e: Event)
    requires Inv(h.s) && e.Delay? && DelayStep(h.s, e.key, e.org, e.ttl, e.pos, e.kwargs).1
    requires !Binds(NewTask(h.s, e))
    ensures !ServedBySome(After(Next(h, e), []), CallOf(h.s, e))
  {
    hide Step, Inv, DelayStep, Within;
    JustCalled(h, e);
  }

  /** Nor when another call takes its place with other positional arguments or another organization. */
  lemma NotServedWhenReplaced(h: History, e: Event, next: Event)
    requires Inv(h.s) && e.Delay? && DelayStep(h.s, e.key, e.org, e.ttl, e.pos, e.kwargs).1
    requires !AtOnce(h.s, e.key, e.ttl) && next.Delay? && next.key == e.key && next.kwargs == []
    requires next.org != e.org || (e.pos != [] && next.pos != e.pos)
    ensures !ServedBySome(After(Next(h, e), [next]), CallOf(h.s, e))
  {
    hide Step, Inv, DelayStep, Within, Merge;
    ReplacedByNext(h, e, next);
  }

  /** Within calls of the same key by keyword and from the same organization, a call is served in every
      continuation if and only if its arguments and the cached ones bind, and it passed nothing by position or
      was dispatched at once. */
  lemma ServedAmongAgreeingIff(h: History, e: Event)
    requires Inv(h.s) && e.Delay? && DelayStep(h.s, e.key, e.org, e.ttl, e.pos, e.kwargs).1
    ensures (forall es | (forall x | x in es :: Agrees(x, e.key, e.org)) ::
               ServedBySome(After(Next(h, e), es), CallOf(h.s, e)))
            <==> CallBinds(h.s, e) && (e.pos == [] || AtOnce(h.s, e.key, e.ttl))
  {
    InvValid(h.s);
    CallBindsTask(h.s, e);
    hide Step, Inv, DelayStep, ServedBySome, Exec, After, Merge, CallBinds, Binds;
    var h1, c := Next(h, e), CallOf(h.s, e);
    if !Binds(NewTask(h.s, e)) {
      NotServedUnlessBinding(h, e);
    } else if AtOnce(h.s, e.key, e.ttl) {
      forall es ensures ServedBySome(After(h1, es), c) { ServedAtOnce(h, e, es); }
    } else if e.pos == [] {
      forall es | forall x | x in es :: Agrees(x, e.key, e.org) ensures ServedBySome(After(h1, es), c) {
        ServedWaiting(h, e, es);
      }
    } else {
      var next := Delay(e.key, e.org, e.ttl, [], []);
      NotServedWhenReplaced(h, e, next);
      assert forall x | x in [next] :: Agrees(x, e.key, e.org);
    }
  }

  lemma ServedWaiting(h: History, e: Event, es: seq<Event>)
    requires Inv(h.s) && e.Delay? && DelayStep(h.s, e.key, e.org, e.ttl, e.pos, e.kwargs).1
    requires Binds(NewTask(h.s, e)) && e.pos == [] && !AtOnce(h.s, e.key, e.ttl)
    requires forall x | x in es :: Agrees(x, e.key, e.org)
    ensures ServedBySome(After(Next(h, e), es), CallOf(h.s, e))
  {
    JustCalled(h, e);
    NewTaskIs(h.s, e);
    CachedAfter(h.s, e);
    InvStep(h.s, e);
    hide Step, Inv, DelayStep, Within, Merge;
    var k := AgreeingServed(Next(h, e), es, CallOf(h.s, e), |h.s.tasks|);
  }

  /** A call that could be made by itself. */
  predicate Proper(e: Event) { e.Delay? ==> ByKeyword(e, e.key) || ByPosition(e, e.key) }

  /** Whatever proper calls follow, a call is served if and only if its arguments and the cached ones bind and
      it was dispatched at once. */
  lemma ServedWhateverFollowsIff(h: History, e: Event)
    requires Inv(h.s) && e.Delay? && DelayStep(h.s, e.key, e.org, e.ttl, e.pos, e.kwargs).1
    ensures (forall es | (forall x | x in es :: Proper(x)) :: ServedBySome(After(Next(h, e), es), CallOf(h.s, e)))
            <==> CallBinds(h.s, e) && AtOnce(h.s, e.key, e.ttl)
  {
    InvValid(h.s);
    CallBindsTask(h.s, e);
    hide Step, Inv, DelayStep, ServedBySome, Exec, After, Merge, CallBinds, Binds;
    var h1, c := Next(h, e), CallOf(h.s, e);
    if !Binds(NewTask(h.s, e)) {
      NotServedUnlessBinding(h, e);
    } else if AtOnce(h.s, e.key, e.ttl) {
      forall es ensures ServedBySome(After(h1, es), c) { ServedAtOnce(h, e, es); }
    } else {
      var next := Delay(e.key, e.org + "x", e.ttl, [], []);
      NotServedWhenReplaced(h, e, next);
      assert forall x | x in [next] :: Proper(x);
    }
  }

  /** The call's values are in a live task of its own organization. */
  ghost predicate UnderOwnOrg(s: State, c: Call) { exists j: nat :: Carries(s, c, j) && s.tasks[j].org == c.org }

  /** A call's values stay under its organization in every continuation if and only if it was dispatched at
      once; otherwise they move to whichever organization calls next. */
  lemma OrganizationKeptIff(h: History, e: Event)
    requires Inv(h.s) && e.Delay? && DelayStep(h.s, e.key, e.org, e.ttl, e.pos, e.kwargs).1
    ensures (forall es :: UnderOwnOrg(After(Next(h, e), es), CallOf(h.s, e))) <==> AtOnce(h.s, e.key, e.ttl)
  {
    var h1, c, n := Next(h, e), CallOf(h.s, e), |h.s.tasks|;
    JustCalled(h, e);
    NewTaskIs(h.s, e);
    hide Step, Inv, DelayStep;
    if AtOnce(h.s, e.key, e.ttl) {
      forall es ensures UnderOwnOrg(After(h1, es), c) {
        SentForever(h1, es, n);
        assert Carries(After(h1, es), c, n);
      }
    } else {
      var next := Delay(e.key, e.org + "x", e.ttl, [], []);
      ReplacedByNext(h, e, next);
      assert !UnderOwnOrg(After(h1, [next]), c);
    }
  }

  /** The failing mixture: a call by keyword and then one by position share a task that cannot be called,
      so neither is served. */
  lemma MixedCallsLoseBoth(h: History, e: Event, next: Event)
    requires Inv(h.s) && e.Delay? && DelayStep(h.s, e.key, e.org, e.ttl, e.pos, e.kwargs).1
    requires !AtOnce(h.s, e.key, e.ttl) && e.kwargs != []
    requires next.Delay? && next.key == e.key && next.pos != [] && next.kwargs == []
    ensures var h1 := Next(h, e);
            var r := After(h1, [next]);
            && !ServedBySome(r, CallOf(h.s, e)) && !ServedBySome(r, CallOf(h1.s, next))
            && |r.tasks| == |h.s.tasks| + 2 && !Binds(r.tasks[|h.s.tasks| + 1])
  {
    hide Step, Inv, DelayStep, Merge, Within, Exec, AtOnce;
    InvValid(h.s);
    AcceptedMerges(h.s, e);
    NewTaskIs(h.s, e);
    ReplacedByNext(h, e, next);
    FirstNameMerged(Cached(h.s, e.key), e.kwargs);
  }

  lemma AcceptedMerges(s: State, e: Event)
    requires Valid(s) && e.Delay? && DelayStep(s, e.key, e.org, e.ttl, e.pos, e.kwargs).1
    ensures Merge(Cached(s, e.key), e.kwargs).1
  {
    hide Merge, RunDebouncer;
  }

  lemma FirstNameMerged(cached: Kwargs, kwargs: seq<(Name, Arg)>)
    requires kwargs != [] && Merge(cached, kwargs).1
    ensures Merge(cached, kwargs).0 != map[]
  {
    var (name, v) := kwargs[0];
    MergeGrows(MergeOne(cached, name, v.elems), kwargs[1..]);
    assert name in MergeOne(cached, name, v.elems);
  }

  // ---------- Runs in which no key mixes the two ways ----------

  /** Every task of a key can be called, and the cached arguments keep it so. */
  predicate KeyCallable(s: State, key: Key, byKeyword: bool) {
    && (forall j | 0 <= j < |s.tasks| && s.tasks[j].key == key ::
          if byKeyword then s.tasks[j].pos == [] && s.tasks[j].args.Keys <= {key.param}
          else |s.tasks[j].pos| <= 1 && s.tasks[j].args == map[])
    && (if byKeyword then CachedNamed(s, key) else Cached(s, key) == map[])
  }

  lemma KeyCallableStep(s: State, e: Event, key: Key, byKeyword: bool)
    requires Valid(s) && KeyCallable(s, key, byKeyword)
    requires if byKeyword then ByKeyword(e, key) else ByPosition(e, key)
    ensures KeyCallable(Step(s, e), key, byKeyword)
  {
    hide DelayStep, Binds, Merge, MergeOne, Valid;
    if e.Delay? {
      KeyCallableDelay(s, e, key, byKeyword);
    } else {
      var r := Step(s, e);
      forall j | 0 <= j < |r.tasks|
        ensures r.tasks[j] == s.tasks[j].(status := r.tasks[j].status, at := r.tasks[j].at)
      {
        OtherTask(s, e, j);
      }
      OtherCached(s, e, key);
      hide Step, Cached;
    }
  }

  lemma OtherCached(s: State, e: Event, key: Key)
    requires Valid(s) && !e.Delay?
    ensures |Step(s, e).tasks| == |s.tasks|
    ensures Cached(Step(s, e), key) == Cached(s, key) || Cached(Step(s, e), key) == map[]
  {
    hide DelayStep, Valid;
  }

  lemma KeyCallableDelay(s: State, e: Event, key: Key, byKeyword: bool)
    requires Valid(s) && KeyCallable(s, key, byKeyword) && e.Delay?
    requires if byKeyword then ByKeyword(e, key) else ByPosition(e, key)
    ensures KeyCallable(Step(s, e), key, byKeyword)
  {
    hide Step, MergeOne, Valid, Attached;
    DelayShape(s, e);
    ArgsShape(s, e);
    if byKeyword && e.key == key { MergeNames(Cached(s, key), e.kwargs, key.param); }
  }

  lemma {:induction false} KeyCallableExec(h: History, es: seq<Event>, key: Key, byKeyword: bool)
    requires Valid(h.s) && KeyCallable(h.s, key, byKeyword)
    requires forall e | e in es :: if byKeyword then ByKeyword(e, key) else ByPosition(e, key)
    ensures KeyCallable(Exec(h, es).s, key, byKeyword)
    decreases |es|
  {
    hide Step, KeyCallable;
    if es != [] {
      assert es[0] in es;
      KeyCallableStep(h.s, es[0], key, byKeyword);
      KeyCallableExec(Next(h, es[0]), es[1..], key, byKeyword);
    }
  }

  /** The run calls a key in one way only. */
  predicate Unmixed(es: seq<Event>, key: Key) {
    (forall e | e in es :: ByKeyword(e, key)) || (forall e | e in es :: ByPosition(e, key))
  }

  /** In a run that calls a key in one way only, no keyword value of an accepted call is lost: with timers
      on time and ttls at most m it has been sent by 2m after the call, in a task the function accepts. */
  lemma UnmixedLosesNothing(es: seq<Event>, m: real, i: nat)
    requires i < |Exec(Start, es).calls| && Unmixed(es, Exec(Start, es).calls[i].key)
    ensures var h := Exec(Start, es);
            && (exists j: nat :: Carries(h.s, h.calls[i], j) && Binds(h.s.tasks[j]))
            && (TimelyRun(Start, es, m) && h.calls[i].at + 2.0 * m < h.s.now ==>
                  exists j: nat :: Carries(h.s, h.calls[i], j) && Binds(h.s.tasks[j])
                                   && h.s.tasks[j].status != Waiting && h.s.tasks[j].at <= h.calls[i].at + 2.0 * m)
  {
    var h := Exec(Start, es);
    var key := h.calls[i].key;
    KeyCallableExec(Start, es, key, forall e | e in es :: ByKeyword(e, key));
    DebounceLosesNothing(es);
    hide Exec, TimelyRun;
    var j: nat :| Carries(h.s, h.calls[i], j);
    assert Binds(h.s.tasks[j]);
    if TimelyRun(Start, es, m) && h.calls[i].at + 2.0 * m < h.s.now {
      DebounceCannotStarve(es, m, i);
    }
  }

  // ---------- When a value is handled more than once ----------

  predicate Holds(t: Task, key: Key, name: Name, v: Value) {
    t.key == key && name in t.args && v in t.args[name]
  }

  predicate InCache(s: State, key: Key, name: Name, v: Value) {
    name in Cached(s, key) && v in Cached(s, key)[name]
  }

  /** The event offers the value, in a call that is accepted or not. */
  predicate OffersIt(e: Event, key: Key, name: Name, v: Value) {
    e.Delay? && e.key == key && exists i: nat :: i < |e.kwargs| && e.kwargs[i].0 == name
                                                  && e.kwargs[i].1.Collection? && v in e.kwargs[i].1.elems
  }

  predicate IsHolder(s: State, key: Key, name: Name, v: Value, j: nat) {
    j < |s.tasks| && Live(s.tasks[j]) && Holds(s.tasks[j], key, name, v)
  }

  /** At most one live task hands the value to the function. */
  ghost predicate Once(s: State, key: Key, name: Name, v: Value) {
    forall i: nat, j: nat | IsHolder(s, key, name, v, i) && IsHolder(s, key, name, v, j) :: i == j
  }

  /** While the value is cached some live task holds it, and the attached task if there is one. */
  ghost predicate Held(s: State, key: Key, name: Name, v: Value) {
    InCache(s, key, name, v) ==>
      (exists j: nat :: IsHolder(s, key, name, v, j))
      && (Attached(s, key) ==> Holds(s.tasks[s.taskOf[key]], key, name, v))
  }

  /** The call hands the value over again: it is still cached although no waiting task is attached that the
      call would replace, because that task was dispatched and has not completed. */
  ghost predicate Repeats(s: State, e: Event, key: Key, name: Name, v: Value) {
    && e.Delay? && e.key == key && Merge(Cached(s, key), e.kwargs).1
    && InCache(s, key, name, v) && !Attached(s, key)
  }

  lemma {:induction false} MergeValue(cached: Kwargs, kwargs: seq<(Name, Arg)>, name: Name, v: Value)
    requires forall i: nat | i < |kwargs| && kwargs[i].0 == name && kwargs[i].1.Collection? :: v !in kwargs[i].1.elems
    ensures var merged := Merge(cached, kwargs).0;
            (name in merged && v in merged[name]) <==> (name in cached && v in cached[name])
    decreases |kwargs|
  {
    if kwargs != [] && kwargs[0].1.Collection? {
      var (n, a) := kwargs[0];
      assert n == name ==> v !in a.elems;
      forall i: nat | i < |kwargs[1..]| && kwargs[1..][i].0 == name && kwargs[1..][i].1.Collection?
        ensures v !in kwargs[1..][i].1.elems
      {
        assert kwargs[1..][i] == kwargs[i + 1];
      }
      MergeValue(MergeOne(cached, n, a.elems), kwargs[1..], name, v);
    }
  }

  /** What one call does to the holders: it cancels at most the attached one, and its own task is a holder if
      the value was cached. */
  lemma CallHolders(s: State, e: Event, key: Key, name: Name, v: Value, j: nat)
    requires Valid(s) && e.Delay? && !OffersIt(e, key, name, v)
    ensures var r := Step(s, e);
            var ok := Merge(Cached(s, e.key), e.kwargs).1;
            && (IsHolder(r, key, name, v, j) <==>
                  (IsHolder(s, key, name, v, j) && !(ok && Attached(s, e.key) && s.taskOf[e.key] == j))
                  || (ok && j == |s.tasks| && e.key == key && InCache(s, key, name, v)))
            && (InCache(r, key, name, v) ==> InCache(s, key, name, v))
  {
    hide Step, Merge;
    DelayShape(s, e);
    ArgsShape(s, e);
    if e.key == key { MergeValue(Cached(s, key), e.kwargs, name, v); }
  }

  /** What the other events do to them: nothing, except that an end of a run empties the cache. */
  lemma OtherHolders(s: State, e: Event, key: Key, name: Name, v: Value, j: nat)
    requires Valid(s) && !e.Delay?
    ensures var r := Step(s, e);
            && (IsHolder(r, key, name, v, j) <==> IsHolder(s, key, name, v, j))
            && (InCache(r, key, name, v) ==> InCache(s, key, name, v))
            && (Attached(r, key) ==> Attached(s, key) && r.taskOf[key] == s.taskOf[key])
  {
    hide DelayStep;
    if j < |s.tasks| { OtherTask(s, e, j); }
  }

  /** A value that is held once stays so, unless a call repeats it; then it is held twice. */
  lemma OnceStep(s: State, e: Event, key: Key, name: Name, v: Value)
    requires Inv(s) && !OffersIt(e, key, name, v) && Held(s, key, name, v) && Once(s, key, name, v)
    ensures Once(Step(s, e), key, name, v) <==> !Repeats(s, e, key, name, v)
    ensures Held(Step(s, e), key, name, v)
  {
    if e.Delay? { OnceCall(s, e, key, name, v); } else { OnceOther(s, e, key, name, v); }
  }

  lemma OnceOther(s: State, e: Event, key: Key, name: Name, v: Value)
    requires Inv(s) && !e.Delay? && Held(s, key, name, v) && Once(s, key, name, v)
    ensures Once(Step(s, e), key, name, v) && Held(Step(s, e), key, name, v)
  {
    hide Step, Inv, IsHolder, InCache;
    InvValid(s);
    var r := Step(s, e);
    forall j: nat ensures IsHolder(r, key, name, v, j) <==> IsHolder(s, key, name, v, j) {
      OtherHolders(s, e, key, name, v, j);
    }
    OtherHolders(s, e, key, name, v, 0);
    if Attached(r, key) { OtherTask(s, e, s.taskOf[key]); }
  }

  lemma OnceCall(s: State, e: Event, key: Key, name: Name, v: Value)
    requires Inv(s) && e.Delay? && !OffersIt(e, key, name, v) && Held(s, key, name, v) && Once(s, key, name, v)
    ensures Once(Step(s, e), key, name, v) <==> !Repeats(s, e, key, name, v)
    ensures Held(Step(s, e), key, name, v)
  {
    hide Step, Merge, Inv, OffersIt;
    InvValid(s);
    var r, n := Step(s, e), |s.tasks|;
    forall j: nat
      ensures IsHolder(r, key, name, v, j) <==>
                (IsHolder(s, key, name, v, j)
                 && !(Merge(Cached(s, e.key), e.kwargs).1 && Attached(s, e.key) && s.taskOf[e.key] == j))
                || (Merge(Cached(s, e.key), e.kwargs).1 && j == n && e.key == key && InCache(s, key, name, v))
    {
      CallHolders(s, e, key, name, v, j);
    }
    CallHolders(s, e, key, name, v, 0);
    AttachShape(s, e);
    DelayShape(s, e);
    if InCache(s, key, name, v) && Attached(s, key) { assert IsHolder(s, key, name, v, s.taskOf[key]); }
    if Repeats(s, e, key, name, v) {
      var j: nat :| IsHolder(s, key, name, v, j);
      assert IsHolder(r, key, name, v, j) && IsHolder(r, key, name, v, n) && j != n;
    } else if InCache(s, key, name, v) && !IsHolder(r, key, name, v, n) {
      var j: nat :| IsHolder(s, key, name, v, j);
      assert IsHolder(r, key, name, v, j);
    }
  }

  /** Held twice, it stays held twice. */
  lemma TwiceStep(s: State, e: Event, key: Key, name: Name, v: Value)
    requires Inv(s) && !OffersIt(e, key, name, v) && !Once(s, key, name, v)
    ensures !Once(Step(s, e), key, name, v)
  {
    hide Step, Merge, OffersIt;
    var i: nat, j: nat :| IsHolder(s, key, name, v, i) && IsHolder(s, key, name, v, j) && i != j;
    if e.Delay? {
      CallHolders(s, e, key, name, v, i);
      CallHolders(s, e, key, name, v, j);
      CallHolders(s, e, key, name, v, |s.tasks|);
    } else {
      OtherHolders(s, e, key, name, v, i);
      OtherHolders(s, e, key, name, v, j);
    }
  }

  /** No call of the run repeats the value. */
  ghost predicate NeverRepeated(h: History, es: seq<Event>, key: Key, name: Name, v: Value)
    requires Valid(h.s)
    decreases |es|
  {
    es == [] || (!Repeats(h.s, es[0], key, name, v) && NeverRepeated(Next(h, es[0]), es[1..], key, name, v))
  }

  lemma {:induction false} TwiceForever(h: History, es: seq<Event>, key: Key, name: Name, v: Value)
    requires Inv(h.s) && !Once(h.s, key, name, v) && forall e | e in es :: !OffersIt(e, key, name, v)
    ensures !Once(After(h, es), key, name, v)
    decreases |es|
  {
    if es != [] {
      assert es[0] in es;
      InvStep(h.s, es[0]);
      TwiceStep(h.s, es[0], key, name, v);
      hide Step, Once, Inv;
      TwiceForever(Next(h, es[0]), es[1..], key, name, v);
    }
  }

  /** In every run that does not offer the value anew, at most one live task hands it to the function if and
      only if no accepted call of its key comes while its dispatched task has not completed. */
  lemma {:induction false} HandedOverOnceIff(h: History, es: seq<Event>, key: Key, name: Name, v: Value)
    requires Inv(h.s) && Held(h.s, key, name, v) && Once(h.s, key, name, v)
    requires forall e | e in es :: !OffersIt(e, key, name, v)
    ensures Once(After(h, es), key, name, v) <==> NeverRepeated(h, es, key, name, v)
    decreases |es|
  {
    if es != [] {
      assert es[0] in es;
      OnceStep(h.s, es[0], key, name, v);
      InvStep(h.s, es[0]);
      hide Step, Once, Inv, Held, Repeats;
      if Repeats(h.s, es[0], key, name, v) {
        TwiceForever(Next(h, es[0]), es[1..], key, name, v);
      } else {
        HandedOverOnceIff(Next(h, es[0]), es[1..], key, name, v);
      }
    }
  }

  /** It applies from any accepted call on that offers a value which nothing holds yet. */
  lemma FirstOffer(h: History, e: Event, name: Name, v: Value)
    requires Inv(h.s) && e.Delay? && DelayStep(h.s, e.key, e.org, e.ttl, e.pos, e.kwargs).1
    requires !InCache(h.s, e.key, name, v) && forall j: nat :: !IsHolder(h.s, e.key, name, v, j)
    requires OffersIt(e, e.key, name, v)
    ensures var r := Next(h, e).s;
            Inv(r) && Held(r, e.key, name, v) && Once(r, e.key, name, v) && IsHolder(r, e.key, name, v, |h.s.tasks|)
  {
    var s, r, n := h.s, Next(h, e).s, |h.s.tasks|;
    InvStep(s, e);
    NewTaskIs(s, e);
    DelayShape(s, e);
    OfferedMerged(Cached(s, e.key), e.kwargs, name, v);
    hide Step, Merge, Inv, DelayStep;
    assert IsHolder(r, e.key, name, v, n);
    AttachShape(s, e);
    var key := e.key;
    forall j: nat ensures IsHolder(r, key, name, v, j) ==> j == n {
      var before := IsHolder(s, key, name, v, j);
    }
  }

  lemma {:induction false} OfferedMerged(cached: Kwargs, kwargs: seq<(Name, Arg)>, name: Name, v: Value)
    requires Merge(cached, kwargs).1
    requires exists i: nat :: i < |kwargs| && kwargs[i].0 == name && kwargs[i].1.Collection? && v in kwargs[i].1.elems
    ensures var merged := Merge(cached, kwargs).0; name in merged && v in merged[name]
    decreases |kwargs|
  {
    var i: nat :| i < |kwargs| && kwargs[i].0 == name && kwargs[i].1.Collection? && v in kwargs[i].1.elems;
    var next := MergeOne(cached, kwargs[0].0, kwargs[0].1.elems);
    if i == 0 {
      MergeGrows(next, kwargs[1..]);
      assert name in next && v in next[name];
    } else {
      assert kwargs[1..][i - 1] == kwargs[i];
      OfferedMerged(next, kwargs[1..], name, v);
    }
  }

  // ---------- What a call's task is, said from the events alone ----------

  predicate AllCollections(kwargs: seq<(Name, Arg)>) {
    forall i: nat | i < |kwargs| :: kwargs[i].1.Collection?
  }

  /** The keyword is given, with this value, before any keyword that is rejected. */
  predicate GivenAt(kwargs: seq<(Name, Arg)>, name: Name, v: Value, i: nat) {
    i < |kwargs| && kwargs[i].0 == name && AllCollections(kwargs[..i + 1]) && v in kwargs[i].1.elems
  }

  predicate Gives(kwargs: seq<(Name, Arg)>, name: Name, v: Value) {
    exists i: nat :: i < |kwargs| && GivenAt(kwargs, name, v, i)
  }

  predicate Given(offers: seq<Event>, name: Name, v: Value) {
    exists e :: e in offers && e.Delay? && Gives(e.kwargs, name, v)
  }

  /** The calls of a key since its last completion or immediate dispatch, the time of the first accepted one,
      and the task of the last. */
  datatype Window = Closed | Open(offers: seq<Event>, first: real, last: nat)

  predicate Completes(s: State, e: Event, key: Key) {
    e.Complete? && e.id < |s.tasks| && s.tasks[e.id].status == Dispatched && s.tasks[e.id].key == key
  }

  function FirstOf(w: Window, now: real): real { if w.Open? then w.first else now }

  function OffersOf(w: Window): seq<Event> { if w.Open? then w.offers else [] }

  /** The window after one more event.  An accepted call more than its ttl after the first one is dispatched
      at once, which closes the window, as the end of any run of the key does. */
  function Grow(w: Window, s: State, e: Event, key: Key): Window {
    if Completes(s, e, key) then Closed
    else if !(e.Delay? && e.key == key) then w
    else if AllCollections(e.kwargs) then
      if s.now - FirstOf(w, s.now) > e.ttl then Closed
      else Open(OffersOf(w) + [e], FirstOf(w, s.now), |s.tasks|)
    else if w.Closed? then Closed else w.(offers := w.offers + [e])
  }

  function WindowAfter(h: History, w: Window, es: seq<Event>, key: Key): Window
    requires Valid(h.s)
    decreases |es|
  {
    if es == [] then w else WindowAfter(Next(h, es[0]), Grow(w, h.s, es[0], key), es[1..], key)
  }

  /** The arguments hold exactly the values given by these calls. */
  ghost predicate ArgsFrom(args: Kwargs, offers: seq<Event>) {
    forall name: Name, v :: (name in args && v in args[name]) <==> Given(offers, name, v)
  }

  /** How the dictionaries represent a window. */
  ghost predicate WindowIs(s: State, key: Key, w: Window) {
    match w
    case Closed => key !in s.argsOf && key !in s.firstAt && !Attached(s, key)
    case Open(offers, first, last) =>
      && key in s.argsOf && ArgsFrom(s.argsOf[key], offers)
      && key in s.firstAt && s.firstAt[key] == first
      && key in s.taskOf && s.taskOf[key] == last
  }

  lemma {:induction false} MergeAccepts(cached: Kwargs, kwargs: seq<(Name, Arg)>)
    ensures Merge(cached, kwargs).1 <==> AllCollections(kwargs)
    decreases |kwargs|
  {
    if kwargs != [] && kwargs[0].1.Collection? {
      MergeAccepts(MergeOne(cached, kwargs[0].0, kwargs[0].1.elems), kwargs[1..]);
      if AllCollections(kwargs[1..]) {
        forall i: nat | i < |kwargs| ensures kwargs[i].1.Collection? {
          if i > 0 { assert kwargs[i] == kwargs[1..][i - 1]; }
        }
      }
    }
  }

  lemma PrefixCollections(kwargs: seq<(Name, Arg)>, i: nat)
    requires i + 1 < |kwargs| && kwargs[0].1.Collection?
    ensures AllCollections(kwargs[..i + 2]) <==> AllCollections(kwargs[1..][..i + 1])
  {
    var a, b := kwargs[..i + 2], kwargs[1..][..i + 1];
    assert a == [kwargs[0]] + b;
    if AllCollections(a) {
      forall j: nat | j < |b| ensures b[j].1.Collection? { assert b[j] == a[j + 1]; }
    }
  }

  lemma GivesRest(kwargs: seq<(Name, Arg)>, name: Name, v: Value)
    requires kwargs != [] && kwargs[0].1.Collection?
    ensures Gives(kwargs, name, v) <==>
              (kwargs[0].0 == name && v in kwargs[0].1.elems) || Gives(kwargs[1..], name, v)
  {
    var rest := kwargs[1..];
    if kwargs[0].0 == name && v in kwargs[0].1.elems { assert GivenAt(kwargs, name, v, 0); }
    forall i: nat ensures GivenAt(rest, name, v, i) <==> GivenAt(kwargs, name, v, i + 1) {
      if i < |rest| { PrefixCollections(kwargs, i); }
    }
    if Gives(kwargs, name, v) {
      var i: nat :| i < |kwargs| && GivenAt(kwargs, name, v, i);
      if i > 0 { assert GivenAt(rest, name, v, i - 1); }
    }
    if Gives(rest, name, v) {
      var i: nat :| i < |rest| && GivenAt(rest, name, v, i);
      assert GivenAt(kwargs, name, v, i + 1);
    }
  }

  /** Merging adds exactly what is given before the first rejected keyword. */
  lemma {:induction false} MergeIs(cached: Kwargs, kwargs: seq<(Name, Arg)>, name: Name, v: Value)
    ensures var merged := Merge(cached, kwargs).0;
            (name in merged && v in merged[name]) <==>
              (name in cached && v in cached[name]) || Gives(kwargs, name, v)
    decreases |kwargs|
  {
    if kwargs == [] || kwargs[0].1.Scalar? {
      forall i: nat ensures !GivenAt(kwargs, name, v, i) {
        if i < |kwargs| { assert kwargs[..i + 1][0] == kwargs[0]; }
      }
    } else {
      MergeIs(MergeOne(cached, kwargs[0].0, kwargs[0].1.elems), kwargs[1..], name, v);
      GivesRest(kwargs, name, v);
    }
  }

  lemma ArgsGrow(args: Kwargs, offers: seq<Event>, e: Event)
    requires ArgsFrom(args, offers) && e.Delay?
    ensures ArgsFrom(Merge(args, e.kwargs).0, offers + [e])
  {
    hide Merge, Gives;
    forall name: Name, v
      ensures (name in Merge(args, e.kwargs).0 && v in Merge(args, e.kwargs).0[name]) <==> Given(offers + [e], name, v)
    {
      MergeIs(args, e.kwargs, name, v);
      GivenMore(offers, e, name, v);
    }
  }

  lemma GivenMore(offers: seq<Event>, e: Event, name: Name, v: Value)
    requires e.Delay?
    ensures Given(offers + [e], name, v) <==> Given(offers, name, v) || Gives(e.kwargs, name, v)
  {
    hide Gives;
    assert e in offers + [e];
    if Given(offers, name, v) {
      var x :| x in offers && x.Delay? && Gives(x.kwargs, name, v);
      assert x in offers + [e];
    }
  }

  lemma WindowCall(s: State, e: Event, key: Key, w: Window)
    requires Valid(s) && WindowIs(s, key, w) && e.Delay? && e.key == key
    ensures WindowIs(Step(s, e), key, Grow(w, s, e, key))
  {
    hide Step, Merge, ArgsFrom, Valid;
    MergeAccepts(Cached(s, key), e.kwargs);
    EmptyArgs();
    ArgsGrow(Cached(s, key), OffersOf(w), e);
    AttachShape(s, e);
    CallDictionaries(s, e);
    if Merge(Cached(s, key), e.kwargs).1 { DelayShape(s, e); } else { RejectedKeeps(s, e); }
  }

  lemma EmptyArgs()
    ensures ArgsFrom(map[], [])
  {
  }

  /** What one call does to the dictionaries of its key. */
  lemma CallDictionaries(s: State, e: Event)
    requires Valid(s) && e.Delay?
    ensures var r := Step(s, e);
            var (merged, ok) := Merge(Cached(s, e.key), e.kwargs);
            && (ok && AtOnce(s, e.key, e.ttl) ==> e.key !in r.argsOf && e.key !in r.firstAt)
            && (ok && !AtOnce(s, e.key, e.ttl) ==>
                  && e.key in r.argsOf && r.argsOf[e.key] == merged
                  && e.key in r.firstAt && r.firstAt[e.key] == FirstAt(s, e.key)
                  && e.key in r.taskOf && r.taskOf[e.key] == |s.tasks|)
  {
    hide Merge, MergeOne;
    var (merged, ok) := Merge(Cached(s, e.key), e.kwargs);
    if ok {
      var s1 := s.(argsOf := s.argsOf[e.key := merged]);
      CancelKeeps(s1, e.key);
      CancelledTasks(s1, e.key);
      hide CancelOrRemove;
    }
  }

  lemma RejectedKeeps(s: State, e: Event)
    requires Valid(s) && e.Delay? && !Merge(Cached(s, e.key), e.kwargs).1
    ensures var r := Step(s, e);
            && r.tasks == s.tasks && r.taskOf == s.taskOf && r.firstAt == s.firstAt
            && (if e.key in s.argsOf then e.key in r.argsOf && r.argsOf[e.key] == Merge(s.argsOf[e.key], e.kwargs).0
                else e.key !in r.argsOf)
  {
    hide Merge, RunDebouncer;
  }

  lemma WindowOther(s: State, e: Event, key: Key, w: Window)
    requires Valid(s) && WindowIs(s, key, w) && !(e.Delay? && e.key == key)
    ensures WindowIs(Step(s, e), key, Grow(w, s, e, key))
  {
    hide Merge, ArgsFrom, Binds;
    if e.Delay? {
      OtherKeyKept(s, e, key);
      hide DelayStep, RunDebouncer;
    } else {
      hide DelayStep;
    }
  }

  lemma OtherKeyKept(s: State, e: Event, key: Key)
    requires Valid(s) && e.Delay? && e.key != key
    ensures var r := Step(s, e);
            && (key in r.argsOf <==> key in s.argsOf) && (key in s.argsOf ==> r.argsOf[key] == s.argsOf[key])
            && (key in r.firstAt <==> key in s.firstAt) && (key in s.firstAt ==> r.firstAt[key] == s.firstAt[key])
            && (key in r.taskOf <==> key in s.taskOf) && (key in s.taskOf ==> r.taskOf[key] == s.taskOf[key])
            && (Attached(r, key) ==> Attached(s, key))
  {
    hide Merge, MergeOne, RunDebouncer, CancelOrRemove, Valid, AtOnce, Attached;
    AttachShape(s, e);
    var (merged, ok) := Merge(Cached(s, e.key), e.kwargs);
    if ok {
      var s1 := s.(argsOf := s.argsOf[e.key := merged]);
      SameCondition(s, s1, e.key, e.ttl);
      DebouncerOtherKey(s1, e.key, e.org, e.ttl, e.pos, merged, key);
    }
  }

  lemma DebouncerOtherKey(s: State, own: Key, org: Org, ttl: real, pos: seq<Value>, args: Kwargs, key: Key)
    requires Valid(s) && own != key
    ensures var r := RunDebouncer(s, own, org, ttl, pos, args);
            && (key in r.argsOf <==> key in s.argsOf) && (key in s.argsOf ==> r.argsOf[key] == s.argsOf[key])
            && (key in r.firstAt <==> key in s.firstAt) && (key in s.firstAt ==> r.firstAt[key] == s.firstAt[key])
            && (key in r.taskOf <==> key in s.taskOf) && (key in s.taskOf ==> r.taskOf[key] == s.taskOf[key])
  {
    hide Valid, AtOnce;
  }

  lemma {:induction false} WindowRun(h: History, w: Window, es: seq<Event>, key: Key)
    requires Valid(h.s) && WindowIs(h.s, key, w)
    ensures WindowIs(After(h, es), key, WindowAfter(h, w, es, key))
    decreases |es|
  {
    if es != [] {
      if es[0].Delay? && es[0].key == key { WindowCall(h.s, es[0], key, w); } else { WindowOther(h.s, es[0], key, w); }
      hide Step, WindowIs, Grow;
      WindowRun(Next(h, es[0]), Grow(w, h.s, es[0], key), es[1..], key);
    }
  }

  /** Some call among these gives the value. */
  lemma CachedIsOffers(s: State, key: Key, w: Window)
    requires WindowIs(s, key, w)
    ensures ArgsFrom(Cached(s, key), OffersOf(w))
  {
    EmptyArgs();
  }

  /** In every run, said from its events alone: the task of an accepted call carries exactly the values given
      since the last completion or immediate dispatch of its key, its own included; it is dispatched at once
      if the first of those calls is more than its ttl ago and waits for its ttl otherwise; and of the earlier
      tasks only that of the last of those calls is cancelled, if it still waits. */
  lemma TaskOfCall(es: seq<Event>, e: Event)
    requires e.Delay? && AllCollections(e.kwargs)
    ensures var s := After(Start, es);
            var w := WindowAfter(Start, Closed, es, e.key);
            var r := After(Start, es + [e]);
            && |r.tasks| == |s.tasks| + 1
            && (var t := r.tasks[|s.tasks|];
                && t.key == e.key && t.org == e.org && t.pos == e.pos && ArgsFrom(t.args, OffersOf(w) + [e])
                && if s.now - FirstOf(w, s.now) > e.ttl then t.status == Dispatched && t.at == s.now
                   else t.status == Waiting && t.at == s.now + e.ttl)
            && forall j | 0 <= j < |s.tasks| ::
                 r.tasks[j] == if w.Open? && w.last == j && s.tasks[j].status == Waiting
                               then s.tasks[j].(status := Cancelled) else s.tasks[j]
  {
    var h, w := Exec(Start, es), WindowAfter(Start, Closed, es, e.key);
    WindowRun(Start, Closed, es, e.key);
    ExecLast(Start, es, e);
    hide Step, Exec, Merge, ArgsFrom, WindowAfter;
    MergeAccepts(Cached(h.s, e.key), e.kwargs);
    CachedIsOffers(h.s, e.key, w);
    ArgsGrow(Cached(h.s, e.key), OffersOf(w), e);
    DelayShape(h.s, e);
    AttachShape(h.s, e);
  }

  lemma {:induction false} ExecLast(h: History, es: seq<Event>, e: Event)
    requires Valid(h.s)
    ensures Exec(h, es + [e]) == Next(Exec(h, es), e)
    decreases |es|
  {
    hide Step, Next;
    if es == [] {
      assert es + [e] == [e] && [e][1..] == [];
      assert Exec(Next(h, e), []) == Next(h, e);
    } else {
      assert (es + [e])[1..] == es[1..] + [e];
      ExecLast(Next(h, es[0]), es[1..], e);
    }
  }

  /** No accepted call of the key. */
  predicate NoCallOf(es: seq<Event>, key: Key) {
    forall e | e in es :: !(e.Delay? && e.key == key && AllCollections(e.kwargs))
  }

  lemma {:induction false} StaysClosed(h: History, es: seq<Event>, key: Key)
    requires Valid(h.s) && NoCallOf(es, key)
    ensures WindowAfter(h, Closed, es, key) == Closed
    decreases |es|
  {
    hide Step, Next;
    if es != [] {
      assert es[0] in es;
      StaysClosed(Next(h, es[0]), es[1..], key);
    }
  }

  lemma {:induction false} WindowConcat(h: History, w: Window, a: seq<Event>, b: seq<Event>, key: Key)
    requires Valid(h.s)
    ensures WindowAfter(h, w, a + b, key) == WindowAfter(Exec(h, a), WindowAfter(h, w, a, key), b, key)
    decreases |a|
  {
    hide Step, Next, Grow;
    if a == [] {
      assert a + b == b;
    } else {
      assert (a + b)[1..] == a[1..] + b;
      WindowConcat(Next(h, a[0]), Grow(w, h.s, a[0], key), a[1..], b, key);
    }
  }

  /** The first accepted call after a completion of its key starts afresh: its task carries exactly its own
      values, waits for its whole ttl, and replaces no other task. */
  lemma FirstAfterCompletion(before: seq<Event>, done: Event, between: seq<Event>, e: Event)
    requires e.Delay? && AllCollections(e.kwargs) && e.ttl >= 0.0
    requires Completes(After(Start, before), done, e.key) && NoCallOf(between, e.key)
    ensures var es := before + ([done] + between);
            var s := After(Start, es);
            var r := After(Start, es + [e]);
            && |r.tasks| == |s.tasks| + 1 && r.tasks[..|s.tasks|] == s.tasks
            && ArgsFrom(r.tasks[|s.tasks|].args, [e])
            && r.tasks[|s.tasks|].status == Waiting && r.tasks[|s.tasks|].at == s.now + e.ttl
  {
    var es, key := before + ([done] + between), e.key;
    var h, w := Exec(Start, before), WindowAfter(Start, Closed, before, key);
    WindowConcat(Start, Closed, before, [done] + between, key);
    assert ([done] + between)[1..] == between;
    StaysClosed(Next(h, done), between, key);
    assert WindowAfter(h, w, [done] + between, key) == WindowAfter(Next(h, done), Closed, between, key);
    hide Exec, WindowAfter, ArgsFrom;
    TaskOfCall(es, e);
    assert [] + [e] == [e];
  }

  // ---------- Timers ----------

  /** A task was due at d: it still waits for then, or was sent no earlier, or was cancelled. */
  predicate DueAt(t: Task, d: real) {
    match t.status
    case Waiting => t.at == d
    case Cancelled => true
    case _ => t.at >= d
  }

  lemma DueStep(s: State, e: Event, j: nat, d: real)
    requires Valid(s) && j < |s.tasks| && DueAt(s.tasks[j], d)
    ensures j < |Step(s, e).tasks| && DueAt(Step(s, e).tasks[j], d)
  {
    hide DelayStep, Merge, Valid, Binds;
    if e.Delay? { DelayShape(s, e); }
  }

  /** No task is sent before it is due, in any continuation. */
  lemma {:induction false} NeverEarly(h: History, es: seq<Event>, j: nat, d: real)
    requires Valid(h.s) && j < |h.s.tasks| && DueAt(h.s.tasks[j], d)
    ensures j < |After(h, es).tasks| && DueAt(After(h, es).tasks[j], d)
    decreases |es|
  {
    if es != [] {
      DueStep(h.s, es[0], j, d);
      hide Step, DueAt;
      NeverEarly(Next(h, es[0]), es[1..], j, d);
    }
  }

  /** And a task that waits can be sent when it is due and completed: the function is called if the arguments
      fit, and the key is clean again. */
  lemma WaitingCompletes(h: History, j: nat)
    requires Valid(h.s) && j < |h.s.tasks| && h.s.tasks[j].status == Waiting && h.s.now <= h.s.tasks[j].at
    ensures var t, es := h.s.tasks[j], [Tick(h.s.tasks[j].at), TimerFires(j), Complete(j)];
            var r := After(h, es);
            && |r.tasks| == |h.s.tasks| && r.now == t.at
            && r.tasks[j] == t.(status := if Binds(t) then Finished else Rejected)
            && t.key !in r.argsOf && t.key !in r.firstAt && t.key !in r.taskOf
  {
    var t := h.s.tasks[j];
    var tick, fire, end := Tick(t.at), TimerFires(j), Complete(j);
    var es := [tick, fire, end];
    var h1 := Next(h, tick);
    var h2 := Next(h1, fire);
    var h3 := Next(h2, end);
    assert es[1..] == [fire, end] && [fire, end][1..] == [end] && [end][1..] == [];
    assert Exec(h3, []) == h3 && Exec(h2, [end]) == h3 && Exec(h1, [fire, end]) == h3 && Exec(h, es) == h3;
    hide DelayStep, Exec;
  }
}
