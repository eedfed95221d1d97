/** The batching decorator `bulk_handle` of apps/common/decorators.py: instances are collected and
    handed over in batches, each under the organization its members were made in. */
module BatchBuffer {
  import opened Wrappers

  type Org = string
  type Instance = string

  /** A hand-over: the organization current inside the handler, and the instances. */
  datatype Batch = Batch(org: Option<Org>, items: seq<Instance>)

  /** The organizations that the registry finds, the decorator's closure, and the hand-overs so far. */
  datatype State = State(known: set<Org>, cache: seq<Instance>, org: Option<Org>, handled: seq<Batch>)

  function Initial(known: set<Org>): State { State(known, [], None, []) }

  /** A call of the decorated function under a current organization, with what it returned; or `finish`. */
  datatype Event = Call(cur: Option<Org>, made: Option<Instance>) | Finish(cur: Option<Org>)

  /** Not to be switched to: no organization, or one that the registry does not find. */
  predicate Loose(known: set<Org>, org: Option<Org>) { org.None? || org.value !in known }

  /** `handle_it`: when the remembered organization cannot be switched to, the handler runs under the
      current one. */
  function HandleIt(s: State, cur: Option<Org>): State {
    if s.cache == [] then s
    else s.(cache := [], handled := s.handled + [Batch(if Loose(s.known, s.org) then cur else s.org, s.cache)])
  }

  function OnOrgChanged(s: State, cur: Option<Org>): State {
    if s.org.None? then s.(org := cur)
    else if s.org != cur then HandleIt(s, cur).(org := cur)
    else s
  }

  function Step(s: State, e: Event, size: int): State {
    match e
    case Finish(cur) => HandleIt(s, cur)
    case Call(cur, made) =>
      var s1 := OnOrgChanged(s, cur);
      if made.None? then s1
      else
        var s2 := s1.(cache := s1.cache + [made.value]);
        if |s2.cache| >= size then HandleIt(s2, cur) else s2
  }

  function Run(s: State, es: seq<Event>, size: int): State
    decreases |es|
  {
    if es == [] then s else Run(Step(s, es[0], size), es[1..], size)
  }

  class BulkHandler {
    const batchSize: int
    const known: set<Org>
    var cache: seq<Instance>
    var orgId: Option<Org>
    var handled: seq<Batch>

    function Abs(): State reads this { State(known, cache, orgId, handled) }

    constructor (batchSize: int, known: set<Org>)
      ensures Abs() == Initial(known) && this.batchSize == batchSize
    {
      this.batchSize, this.known, cache, orgId, handled := batchSize, known, [], None, [];
    }

    method Handle(cur: Option<Org>)
      modifies this
      ensures Abs() == HandleIt(old(Abs()), cur)
    {
      if cache == [] { return; }
      var inside := if orgId.Some? && orgId.value in known then orgId else cur;
      handled := handled + [Batch(inside, cache)];
      cache := [];
    }

    method HandleOnOrgChanged(cur: Option<Org>)
      modifies this
      ensures Abs() == OnOrgChanged(old(Abs()), cur)
      ensures orgId == cur && (old(orgId) in {None, cur} ==> cache == old(cache) && handled == old(handled))
    {
      if orgId.None? {
        orgId := cur;
      } else if orgId != cur {
        Handle(cur);
        orgId := cur;
      }
    }

    /** The wrapper around the decorated function, which returned `made`. */
    method Wrapper(cur: Option<Org>, made: Option<Instance>)
      modifies this
      ensures Abs() == Step(old(Abs()), Call(cur, made), batchSize)
    {
      HandleOnOrgChanged(cur);
      if made.None? { return; }
      cache := cache + [made.value];
      if |cache| >= batchSize { Handle(cur); }
    }

    method FinishAll(cur: Option<Org>)
      modifies this
      ensures Abs() == Step(old(Abs()), Finish(cur), batchSize)
    {
      if cache == [] { return; }
      Handle(cur);
    }
  }

  // ---------- Conservation ----------

  function Flatten(bs: seq<Batch>): seq<Instance> {
    if bs == [] then [] else Flatten(bs[..|bs| - 1]) + bs[|bs| - 1].items
  }

  function MadeBy(e: Event): seq<Instance> {
    if e.Call? && e.made.Some? then [e.made.value] else []
  }

  function Made(es: seq<Event>): seq<Instance> {
    if es == [] then [] else MadeBy(es[0]) + Made(es[1..])
  }

  predicate Sized(s: State, size: int) {
    && (|s.cache| < size || s.cache == [])
    && forall b | b in s.handled :: 1 <= |b.items| && (|b.items| <= size || |b.items| == 1)
  }

  function Held(s: State): seq<Instance> { Flatten(s.handled) + s.cache }

  lemma HandleItHolds(s: State, cur: Option<Org>)
    ensures Held(HandleIt(s, cur)) == Held(s)
  {
    if s.cache != [] {
      var h := HandleIt(s, cur).handled;
      assert h[..|h| - 1] == s.handled;
    }
  }

  lemma AppendHolds(s: State, v: Instance)
    ensures Held(s.(cache := s.cache + [v])) == Held(s) + [v]
  {
  }

  lemma StepConserves(s: State, e: Event, size: int)
    ensures Held(Step(s, e, size)) == Held(s) + MadeBy(e)
  {
    HandleItHolds(s, e.cur);
    if e.Call? {
      var s1 := OnOrgChanged(s, e.cur);
      assert Held(s1) == Held(s);
      if e.made.Some? {
        var s2 := s1.(cache := s1.cache + [e.made.value]);
        AppendHolds(s1, e.made.value);
        HandleItHolds(s2, e.cur);
      }
    }
    hide Held, HandleIt;
  }

  lemma StepSized(s: State, e: Event, size: int)
    requires Sized(s, size)
    ensures Sized(Step(s, e, size), size)
  {
  }

  lemma {:induction false} RunConserves(s: State, es: seq<Event>, size: int)
    requires Sized(s, size)
    ensures Held(Run(s, es, size)) == Held(s) + Made(es) && Sized(Run(s, es, size), size)
    decreases |es|
  {
    hide Sized, Held, Step;
    if es != [] {
      StepConserves(s, es[0], size);
      StepSized(s, es[0], size);
      RunConserves(Step(s, es[0], size), es[1..], size);
      assert (Held(s) + MadeBy(es[0])) + Made(es[1..]) == Held(s) + (MadeBy(es[0]) + Made(es[1..]));
    }
  }

  /** Every call sequence that ends with `finish` hands over all instances made, in order and once
      each, in batches of 1 to batch_size, with fewer than batch_size kept back at any time. */
  lemma BatchesConserve(known: set<Org>, es: seq<Event>, size: int, last: Option<Org>)
    ensures var s := Run(Initial(known), es, size);
            && Sized(s, size) && Held(s) == Made(es)
            && Step(s, Finish(last), size).cache == []
            && Flatten(Step(s, Finish(last), size).handled) == Made(es)
  {
    hide Sized, Run, Made, Held, Flatten, Step;
    InitiallyEmpty(known, size);
    RunConserves(Initial(known), es, size);
    FinishHolds(Run(Initial(known), es, size), last, size);
    assert [] + Made(es) == Made(es);
  }

  lemma InitiallyEmpty(known: set<Org>, size: int)
    ensures Sized(Initial(known), size) && Held(Initial(known)) == []
  {
  }

  lemma FinishHolds(s: State, last: Option<Org>, size: int)
    ensures Step(s, Finish(last), size).cache == [] && Flatten(Step(s, Finish(last), size).handled) == Held(s)
  {
    HandleItHolds(s, last);
    hide Flatten;
    var f := HandleIt(s, last);
    assert f.cache == [] && Held(f) == Flatten(f.handled);
  }

  // ---------- Whole batches ----------

  predicate CallsUnder(es: seq<Event>, cur: Option<Org>) { forall e | e in es :: e.Call? && e.cur == cur }

  /** Batches of n under this organization, a shorter rest in the buffer. */
  predicate Whole(s: State, cur: Option<Org>, n: nat) {
    && |s.cache| < n && (s.cache != [] ==> s.org == cur)
    && forall b | b in s.handled :: b.org == cur && |b.items| == n
  }

  lemma {:induction false} StaysWhole(s: State, es: seq<Event>, cur: Option<Org>, size: int, n: nat)
    requires CallsUnder(es, cur) && Whole(s, cur, n) && n == (if size < 1 then 1 else size)
    ensures Whole(Run(s, es, size), cur, n)
    decreases |es|
  {
    if es != [] {
      assert es[0] in es;
      hide Run, CallsUnder;
      assert Whole(Step(s, es[0], size), cur, n);
      RestUnder(es, cur);
      StaysWhole(Step(s, es[0], size), es[1..], cur, size, n);
      RunFirst(s, es, size);
    }
  }

  lemma RestUnder(es: seq<Event>, cur: Option<Org>)
    requires es != [] && CallsUnder(es, cur)
    ensures CallsUnder(es[1..], cur)
  {
  }

  lemma RunFirst(s: State, es: seq<Event>, size: int)
    requires es != []
    ensures Run(s, es, size) == Run(Step(s, es[0], size), es[1..], size)
  {
  }

  /** As long as the current organization does not change, what was made is handed over in order, under it, in
      batches of exactly batch_size (of one when this is not positive), and only a shorter rest is held. */
  lemma OneOrganizationWholeBatches(known: set<Org>, es: seq<Event>, cur: Option<Org>, size: int)
    requires CallsUnder(es, cur)
    ensures var s := Run(Initial(known), es, size);
            var n := if size < 1 then 1 else size;
            && Flatten(s.handled) + s.cache == Made(es) && |s.cache| < n
            && forall b | b in s.handled :: b.org == cur && |b.items| == n
  {
    StaysWhole(Initial(known), es, cur, size, if size < 1 then 1 else size);
    BatchesConserve(known, es, size, cur);
    hide Run, Made, Flatten, Step;
  }

  lemma {:induction false} NoOrganizationHolds(s: State, es: seq<Event>, size: int)
    requires CallsUnder(es, None) && s.org == None && s.handled == [] && |s.cache| + |Made(es)| < size
    ensures var r := Run(s, es, size);
            r.known == s.known && r.org == None && r.handled == [] && r.cache == s.cache + Made(es)
    decreases |es|
  {
    if es != [] {
      assert es[0] in es;
      RestUnder(es, None);
      MadeFirst(es);
      var s1 := Step(s, es[0], size);
      assert s1.org == None && s1.handled == [] && s1.cache == s.cache + MadeBy(es[0]);
      hide Run, Step, CallsUnder, Made;
      NoOrganizationHolds(s1, es[1..], size);
      RunFirst(s, es, size);
      assert (s.cache + MadeBy(es[0])) + Made(es[1..]) == s.cache + Made(es);
    }
  }

  lemma MadeFirst(es: seq<Event>)
    requires es != []
    ensures Made(es) == MadeBy(es[0]) + Made(es[1..])
  {
  }

  /** What is made before any organization is current is adopted by the first one that is: it is handed over
      together with that one's instances, and under it when it can be switched to. */
  lemma FirstOrganizationAdopts(known: set<Org>, es: seq<Event>, org: Org, v: Instance, size: int, last: Option<Org>)
    requires CallsUnder(es, None) && |Made(es)| + 1 < size
    ensures var s := Step(Run(Initial(known), es, size), Call(Some(org), Some(v)), size);
            && s.handled == [] && s.cache == Made(es) + [v]
            && Step(s, Finish(last), size).handled
               == [Batch(if org in known then Some(org) else last, Made(es) + [v])]
  {
    hide Run, CallsUnder, Made;
    NoOrganizationHolds(Initial(known), es, size);
    assert [] + Made(es) == Made(es);
  }

  // ---------- Each batch under its own organization ----------

  type Tagged = (Option<Org>, Instance)

  function Tag(org: Option<Org>, items: seq<Instance>): seq<Tagged> {
    seq(|items|, i requires 0 <= i < |items| => (org, items[i]))
  }

  function TaggedBy(e: Event): seq<Tagged> {
    if e.Call? && e.made.Some? then [(e.cur, e.made.value)] else []
  }

  /** Instances with the organization current when each was made, in order. */
  function MadeTagged(es: seq<Event>): seq<Tagged> {
    if es == [] then [] else TaggedBy(es[0]) + MadeTagged(es[1..])
  }

  /** Instances with the organization each was handed over under, in order. */
  function HandledTagged(bs: seq<Batch>): seq<Tagged> {
    if bs == [] then [] else HandledTagged(bs[..|bs| - 1]) + Tag(bs[|bs| - 1].org, bs[|bs| - 1].items)
  }

  function HeldTagged(s: State): seq<Tagged> { HandledTagged(s.handled) + Tag(s.org, s.cache) }

  /** What is buffered for an organization that cannot be switched to is only handled while it is current. */
  predicate Settled(s: State, cur: Option<Org>) { s.cache != [] && Loose(s.known, s.org) ==> cur == s.org }

  lemma HandleItTagged(s: State, cur: Option<Org>)
    requires Settled(s, cur)
    ensures HeldTagged(HandleIt(s, cur)) == HeldTagged(s)
  {
    if s.cache != [] {
      var h := HandleIt(s, cur).handled;
      assert h[..|h| - 1] == s.handled;
    }
  }

  lemma OrgChangedTagged(s: State, cur: Option<Org>)
    requires Settled(s, cur)
    ensures HeldTagged(OnOrgChanged(s, cur)) == HeldTagged(s) && OnOrgChanged(s, cur).org == cur
  {
    HandleItTagged(s, cur);
    assert Tag(s.org, []) == Tag(cur, []) == [];
  }

  lemma AppendTagged(s: State, v: Instance)
    ensures HeldTagged(s.(cache := s.cache + [v])) == HeldTagged(s) + [(s.org, v)]
  {
    assert Tag(s.org, s.cache + [v]) == Tag(s.org, s.cache) + [(s.org, v)];
  }

  lemma StepTagged(s: State, e: Event, size: int)
    requires Settled(s, e.cur)
    ensures HeldTagged(Step(s, e, size)) == HeldTagged(s) + TaggedBy(e)
    ensures Step(s, e, size).known == s.known
    ensures forall cur: Option<Org> :: (Loose(s.known, e.cur) ==> cur == e.cur) ==> Settled(Step(s, e, size), cur)
  {
    match e
    case Finish(cur) => HandleItTagged(s, cur);
    case Call(cur, made) =>
      OrgChangedTagged(s, cur);
      if made.Some? {
        var s1 := OnOrgChanged(s, cur);
        AppendTagged(s1, made.value);
        HandleItTagged(s1.(cache := s1.cache + [made.value]), cur);
      }
      hide HeldTagged;
  }

  /** An organization that cannot be switched to is only followed by itself. */
  predicate Steady(known: set<Org>, curs: seq<Option<Org>>) {
    forall k: nat | k + 1 < |curs| && Loose(known, curs[k]) :: curs[k + 1] == curs[k]
  }

  function Curs(es: seq<Event>): seq<Option<Org>> {
    seq(|es|, i requires 0 <= i < |es| => es[i].cur)
  }

  lemma Assoc(a: seq<Tagged>, b: seq<Tagged>, c: seq<Tagged>)
    ensures (a + b) + c == a + (b + c)
  {
  }

  lemma SteadyTail(known: set<Org>, es: seq<Event>)
    requires es != [] && Steady(known, Curs(es))
    ensures Steady(known, Curs(es[1..]))
    ensures |es| > 1 && Loose(known, es[0].cur) ==> es[1].cur == es[0].cur
  {
    var c, d := Curs(es), Curs(es[1..]);
    assert c[1..] == d;
    forall k: nat | k + 1 < |d| && Loose(known, d[k]) ensures d[k + 1] == d[k] {
      assert c[k + 1] == d[k] && c[k + 2] == d[k + 1];
    }
    if |es| > 1 { assert c[0] == es[0].cur && c[0 + 1] == es[1].cur; }
  }

  lemma {:induction false} RunTagged(s: State, es: seq<Event>, size: int)
    requires Steady(s.known, Curs(es)) && (es != [] ==> Settled(s, es[0].cur))
    ensures HeldTagged(Run(s, es, size)) == HeldTagged(s) + MadeTagged(es)
    decreases |es|
  {
    hide Steady, Curs, HeldTagged, Step, Settled;
    if es != [] {
      StepTagged(s, es[0], size);
      SteadyTail(s.known, es);
      RunTagged(Step(s, es[0], size), es[1..], size);
      Assoc(HeldTagged(s), TaggedBy(es[0]), MadeTagged(es[1..]));
    }
  }

  /** The calls made under these organizations, with what they returned, and the closing `finish`. */
  function Session(curs: seq<Option<Org>>, made: seq<Option<Instance>>, last: Option<Org>): (es: seq<Event>)
    requires |curs| == |made|
    ensures |es| == |curs| + 1
  {
    seq(|curs|, i requires 0 <= i < |curs| => Call(curs[i], made[i])) + [Finish(last)]
  }

  /** Every instance is handed over under the organization that was current when it was made. */
  predicate Kept(known: set<Org>, curs: seq<Option<Org>>, made: seq<Option<Instance>>, last: Option<Org>, size: int)
    requires |curs| == |made|
  {
    var es := Session(curs, made, last);
    HandledTagged(Run(Initial(known), es, size).handled) == MadeTagged(es)
  }

  lemma {:induction false} RunLast(s: State, es: seq<Event>, e: Event, size: int)
    ensures Run(s, es + [e], size) == Step(Run(s, es, size), e, size)
    decreases |es|
  {
    if es == [] {
      assert es + [e] == [e];
    } else {
      assert (es + [e])[1..] == es[1..] + [e];
      RunLast(Step(s, es[0], size), es[1..], e, size);
    }
  }

  lemma KeptWhenSteady(known: set<Org>, curs: seq<Option<Org>>, made: seq<Option<Instance>>, last: Option<Org>,
                       size: int)
    requires |curs| == |made| && Steady(known, curs + [last])
    ensures Kept(known, curs, made, last, size)
  {
    var es := Session(curs, made, last);
    assert Curs(es) == curs + [last];
    RunTagged(Initial(known), es, size);
    FinishedEmpty(Initial(known), es, size);
    NothingHeld(Run(Initial(known), es, size));
    NothingHeld(Initial(known));
    hide Run, HandledTagged;
    assert [] + MadeTagged(es) == MadeTagged(es);
  }

  lemma NothingHeld(s: State)
    requires s.cache == []
    ensures HeldTagged(s) == HandledTagged(s.handled)
    ensures s.handled == [] ==> HeldTagged(s) == []
  {
    assert Tag(s.org, s.cache) == [];
  }

  /** With batches of one, nothing stays in the buffer. */
  lemma {:induction false} AtOnceTagged(s: State, es: seq<Event>, size: int)
    requires size <= 1 && s.cache == []
    ensures var r := Run(s, es, size); r.cache == [] && HeldTagged(r) == HeldTagged(s) + MadeTagged(es)
    decreases |es|
  {
    hide HeldTagged;
    if es != [] {
      StepTagged(s, es[0], size);
      AtOnceTagged(Step(s, es[0], size), es[1..], size);
      Assoc(HeldTagged(s), TaggedBy(es[0]), MadeTagged(es[1..]));
    }
  }

  lemma KeptAtOnce(known: set<Org>, curs: seq<Option<Org>>, made: seq<Option<Instance>>, last: Option<Org>, size: int)
    requires |curs| == |made| && size <= 1
    ensures Kept(known, curs, made, last, size)
  {
    var es := Session(curs, made, last);
    AtOnceTagged(Initial(known), es, size);
    NothingHeld(Run(Initial(known), es, size));
    NothingHeld(Initial(known));
    hide Run, HandledTagged;
    assert [] + MadeTagged(es) == MadeTagged(es);
  }

  // ---------- And only then ----------

  predicate Idle(es: seq<Event>) { forall e | e in es :: TaggedBy(e) == [] }

  lemma {:induction false} IdleFromEmpty(s: State, es: seq<Event>, size: int)
    requires Idle(es) && s.cache == []
    ensures var r := Run(s, es, size); r.cache == [] && r.handled == s.handled && r.known == s.known
    decreases |es|
  {
    if es != [] {
      assert es[0] in es;
      IdleFromEmpty(Step(s, es[0], size), es[1..], size);
    }
  }

  lemma {:induction false} IdleMakesNothing(es: seq<Event>)
    requires Idle(es)
    ensures MadeTagged(es) == []
  {
    if es != [] {
      assert es[0] in es;
      IdleMakesNothing(es[1..]);
    }
  }

  lemma {:induction false} MadeTaggedConcat(a: seq<Event>, b: seq<Event>)
    ensures MadeTagged(a + b) == MadeTagged(a) + MadeTagged(b)
  {
    if a == [] {
      assert a + b == b;
    } else {
      assert (a + b)[1..] == a[1..] + b;
      MadeTaggedConcat(a[1..], b);
    }
  }

  lemma {:induction false} RunConcat(s: State, a: seq<Event>, b: seq<Event>, size: int)
    ensures Run(s, a + b, size) == Run(Run(s, a, size), b, size)
    decreases |a|
  {
    if a == [] {
      assert a + b == b;
    } else {
      assert (a + b)[1..] == a[1..] + b;
      RunConcat(Step(s, a[0], size), a[1..], b, size);
    }
  }

  /** Something made under an organization that cannot be switched to, then an event under another: it is
      handed over under that one. */
  lemma Mixed(known: set<Org>, before: seq<Event>, o: Option<Org>, v: Instance, e: Event, after: seq<Event>, size: int)
    requires size >= 2 && Idle(before) && Idle([e] + after) && Loose(known, o) && e.cur != o
    requires Steady(known, Curs([e] + after)) && ([e] + after)[|after|].Finish? && (e.Finish? ==> after == [])
    ensures var es := before + ([Call(o, Some(v))] + ([e] + after));
            HandledTagged(Run(Initial(known), es, size).handled) == [(e.cur, v)]
  {
    hide HandledTagged, Idle, Steady, Curs, HeldTagged, Run;
    var call, tail := Call(o, Some(v)), [e] + after;
    BufferedOne(known, before, o, v, size);
    var s1 := Run(Initial(known), before + [call], size);
    assert before + ([call] + tail) == (before + [call]) + tail;
    RunConcat(Initial(known), before + [call], tail, size);
    HandedOver(s1, v, e, after, size);
  }

  lemma BufferedOne(known: set<Org>, before: seq<Event>, o: Option<Org>, v: Instance, size: int)
    requires size >= 2 && Idle(before)
    ensures Run(Initial(known), before + [Call(o, Some(v))], size) == State(known, [v], o, [])
  {
    RunLast(Initial(known), before, Call(o, Some(v)), size);
    IdleFromEmpty(Initial(known), before, size);
  }

  lemma HandedOver(s1: State, v: Instance, e: Event, after: seq<Event>, size: int)
    requires s1 == State(s1.known, [v], s1.org, []) && Loose(s1.known, s1.org) && e.cur != s1.org
    requires Idle([e] + after) && Steady(s1.known, Curs([e] + after)) && ([e] + after)[|after|].Finish?
    requires e.Finish? ==> after == []
    ensures HandledTagged(Run(s1, [e] + after, size).handled) == [(e.cur, v)]
  {
    var tail := [e] + after;
    assert tail[0] == e && tail[1..] == after && e in tail;
    SteadyTail(s1.known, tail);
    var s2 := Step(s1, e, size);
    MixedStep(s1, v, e, size);
    FinishedEmpty(s1, tail, size);
    NothingHeld(Run(s1, tail, size));
    assert Idle(after) by { assert forall x | x in after :: x in tail; }
    IdleMakesNothing(after);
    hide HandledTagged, Idle, Steady, Curs, HeldTagged, Step;
    assert Run(s1, tail, size) == Run(s2, after, size);
    RunTagged(s2, after, size);
  }

  lemma MixedStep(s1: State, v: Instance, e: Event, size: int)
    requires s1 == State(s1.known, [v], s1.org, []) && Loose(s1.known, s1.org) && e.cur != s1.org
    requires TaggedBy(e) == []
    ensures var s2 := Step(s1, e, size);
            && HeldTagged(s2) == [(e.cur, v)] && s2.known == s1.known
            && forall cur: Option<Org> :: (Loose(s1.known, e.cur) ==> cur == e.cur) ==> Settled(s2, cur)
  {
    var b := [Batch(e.cur, [v])];
    assert b[..0] == [] && Tag(e.cur, [v]) == [(e.cur, v)];
    assert HandledTagged(b) == [(e.cur, v)] && HandledTagged([]) == [];
    assert Tag(e.cur, []) == [] && Tag(s1.org, []) == [];
  }

  lemma MixedMade(before: seq<Event>, call: Event, tail: seq<Event>)
    requires Idle(before) && Idle(tail)
    ensures MadeTagged(before + ([call] + tail)) == TaggedBy(call)
  {
    MadeTaggedConcat(before, [call] + tail);
    IdleMakesNothing(before);
    IdleMakesNothing(tail);
    assert ([call] + tail)[1..] == tail;
  }

  lemma FinishedEmpty(s: State, es: seq<Event>, size: int)
    requires es == [] ==> s.cache == []
    requires es != [] ==> es[|es| - 1].Finish?
    ensures Run(s, es, size).cache == []
  {
    if es != [] {
      var n := |es| - 1;
      assert es == es[..n] + [es[n]];
      RunLast(s, es[..n], es[n], size);
    }
  }

  /** The last change away from an organization that cannot be switched to; after it there is none. */
  lemma {:induction false} LastChange(known: set<Org>, curs: seq<Option<Org>>) returns (k: nat)
    requires !Steady(known, curs)
    ensures k + 1 < |curs| && Loose(known, curs[k]) && curs[k + 1] != curs[k]
    ensures Steady(known, curs[k + 1..])
    decreases |curs|
  {
    if Steady(known, curs[1..]) {
      k := 0;
      assert forall m: nat | 0 < m && m + 1 < |curs| :: curs[1..][m - 1] == curs[m] && curs[1..][m] == curs[m + 1];
      assert Loose(known, curs[0]) && curs[0 + 1] != curs[0];
    } else {
      var m := LastChange(known, curs[1..]);
      k := m + 1;
      assert curs[1..][m + 1..] == curs[k + 1..];
    }
  }

  /** One instance, made just before such a change, ends up under another organization. */
  lemma OneMade(known: set<Org>, curs: seq<Option<Org>>, last: Option<Org>, size: int)
    returns (made: seq<Option<Instance>>)
    requires size >= 2 && !Steady(known, curs + [last])
    ensures |made| == |curs| && !Kept(known, curs, made, last, size)
  {
    hide Session, Steady, Curs, Idle, OnlyAt, HandledTagged, MadeTagged, Run, Loose;
    var all := curs + [last];
    var k := LastChange(known, all);
    made := OnlyAt(|curs|, k);
    var es := Session(curs, made, last);
    var before, e, after := es[..k], es[k + 1], es[k + 2..];
    SessionAround(curs, last, k);
    Mixed(known, before, all[k], "v", e, after, size);
    MixedMade(before, Call(all[k], Some("v")), [e] + after);
  }

  function OnlyAt(n: nat, k: nat): (made: seq<Option<Instance>>)
    ensures |made| == n
  {
    seq(n, m => if m == k then Some("v") else None)
  }

  /** The session that makes one instance, in call k. */
  lemma SessionAround(curs: seq<Option<Org>>, last: Option<Org>, k: nat)
    requires k < |curs|
    ensures var all, es := curs + [last], Session(curs, OnlyAt(|curs|, k), last);
            var before, e, after := es[..k], es[k + 1], es[k + 2..];
            && es == before + ([Call(all[k], Some("v"))] + ([e] + after))
            && Idle(before) && Idle([e] + after) && Curs([e] + after) == all[k + 1..]
            && e.cur == all[k + 1] && ([e] + after)[|after|].Finish? && (e.Finish? ==> after == [])
  {
    var es := Session(curs, OnlyAt(|curs|, k), last);
    var tail := [es[k + 1]] + es[k + 2..];
    SessionAt(curs, last, k);
    hide Session, OnlyAt;
    assert tail == es[k + 1..] && es == es[..k] + ([es[k]] + tail);
    assert Curs(tail) == (curs + [last])[k + 1..];
  }

  lemma SessionAt(curs: seq<Option<Org>>, last: Option<Org>, k: nat)
    requires k < |curs|
    ensures var es := Session(curs, OnlyAt(|curs|, k), last);
            && |es| == |curs| + 1 && es[k] == Call(curs[k], Some("v")) && es[|curs|] == Finish(last)
            && (forall i | 0 <= i < |curs| :: es[i].Call? && es[i].cur == curs[i])
            && (forall i | 0 <= i < |es| && i != k :: TaggedBy(es[i]) == [])
  {
  }

  /** Whatever the calls return is handed over under its own organization if and only if batches hold one,
      or every call under no organization, or one that the registry does not find, is followed only by
      events under the same. */
  lemma OrganizationsKeptIff(known: set<Org>, curs: seq<Option<Org>>, last: Option<Org>, size: int)
    ensures (forall made: seq<Option<Instance>> | |made| == |curs| :: Kept(known, curs, made, last, size))
            <==> size <= 1 || Steady(known, curs + [last])
  {
    hide Kept, Steady;
    if size <= 1 {
      forall made: seq<Option<Instance>> | |made| == |curs| ensures Kept(known, curs, made, last, size) {
        KeptAtOnce(known, curs, made, last, size);
      }
    } else if Steady(known, curs + [last]) {
      forall made: seq<Option<Instance>> | |made| == |curs| ensures Kept(known, curs, made, last, size) {
        KeptWhenSteady(known, curs, made, last, size);
      }
    } else {
      var made := OneMade(known, curs, last, size);
    }
  }
}
