/** Customer-tenant context from request to published task to worker: apps/tenants/context.py,
    apps/tenants/middleware.py, apps/tenants/celery.py and the stamping of task messages in
    apps/ops/signal_handlers.py.

    Request handlers and task bodies are arbitrary `Code`: they publish tasks, change organization,
    enter tenant contexts, see the database change and may raise at any point. */
module Tenancy {
  import opened Wrappers

  type User = string
  type Org = string
  type Tenant = t: string | t != "" witness "t"
  type Kwargs = map<string, Option<string>>

  const TenantTaskKey := "__customer_tenant_id"
  const TenantOrgTaskKey := "__customer_tenant_org_id"
  const LangKey := "__current_lang"
  const OrgKey := "__current_org_id"
  const InternalKeys: set<string> := {TenantTaskKey, TenantOrgTaskKey, LangKey, OrgKey}

  /** Active tenants, memberships, the one tenant an organization is linked to, and known organizations. */
  datatype Db = Db(active: set<Tenant>, members: set<(User, Tenant)>, owner: map<Org, Tenant>, orgs: set<Org>)

  /** The context variables of one thread of a web process or worker. */
  datatype Thread = Thread(tenant: Option<Tenant>, org: Option<Org>, lang: Option<string>)

  datatype Code =
    | Done
    | Raise
    | Publish(kwargs: Kwargs, next: Code)
    | SetOrg(org: Org, next: Code)
    | WithTenant(tenant: Option<Tenant>, body: Code, next: Code)
    | DbChanges(db: Db, next: Code)

  /** A message as the broker holds it.  `given` and `origin` are history: what the caller passed and
      the publishing thread's context at that moment. */
  datatype Message = Message(kwargs: Kwargs, given: Kwargs, origin: Thread)

  datatype Backend = Backend(db: Db, sent: seq<Message>)

  predicate Truthy(v: Option<string>) { v.Some? && v.value != "" }

  function Get(kw: Kwargs, k: string): Option<string> { if k in kw then kw[k] else None }

  // ---------- Publishing ----------

  /** `before_task_publish` */
  function Stamp(kw: Kwargs, th: Thread): Kwargs {
    kw[LangKey := th.lang][OrgKey := th.org][TenantTaskKey := th.tenant]
      [TenantOrgTaskKey := if th.tenant.Some? then th.org else None]
  }

  /** The keyword arguments `task_sent_handler` stores, from which a task can be run again. */
  function StoredKwargs(kw: Kwargs): Kwargs { kw - InternalKeys }

  // ---------- Running code inside nested contexts ----------

  function SetCurrentOrg(th: Thread, db: Db, org: Org): Thread {
    if org in db.orgs then th.(org := Some(org)) else th
  }

  /** The thread and backend after the code, and whether it ended without raising. */
  function Exec(code: Code, th: Thread, b: Backend): (Thread, Backend, bool) {
    match code
    case Done => (th, b, true)
    case Raise => (th, b, false)
    case Publish(kw, next) => Exec(next, th, b.(sent := b.sent + [Message(Stamp(kw, th), kw, th)]))
    case SetOrg(org, next) => Exec(next, SetCurrentOrg(th, b.db, org), b)
    case WithTenant(t, body, next) =>
      var (th1, b1, ok) := Exec(body, th.(tenant := t), b);
      var th2 := th1.(tenant := th.tenant);
      if ok then Exec(next, th2, b1) else (th2, b1, false)
    case DbChanges(db, next) => Exec(next, th, b.(db := db))
  }

  // ---------- The worker ----------

  /** `on_celery_task_pre_run` */
  function PreRun(th: Thread, db: Db, kw: Kwargs): (Thread, Kwargs) {
    var lang, org := Get(kw, LangKey), Get(kw, OrgKey);
    var th1 := if Truthy(lang) then th.(lang := lang) else th;
    (if Truthy(org) then SetCurrentOrg(th1, db, org.value) else th1, kw - {LangKey, OrgKey})
  }

  datatype Verdict = RunIn(tenant: Option<Tenant>) | Denied

  /** The checks of `TenantAwareTask.__call__`; without a tenant id the ambient tenant stays. */
  function Admit(th: Thread, db: Db, kw: Kwargs): Verdict {
    var tenantId, orgId := Get(kw, TenantTaskKey), Get(kw, TenantOrgTaskKey);
    if !Truthy(tenantId) then RunIn(th.tenant)
    else if tenantId.value !in db.active then Denied
    else if Truthy(orgId) && !(orgId.value in db.owner && db.owner[orgId.value] == tenantId.value) then Denied
    else RunIn(Some(tenantId.value))
  }

  // ---------- The request middleware ----------

  datatype Resolution = Resolved(tenant: Option<Tenant>) | AccessDenied | SelectionRequired

  function ActiveTenants(db: Db, user: User): set<Tenant> {
    set m | m in db.members && m.0 == user && m.1 in db.active :: m.1
  }

  /** The only member of a singleton. */
  function TheOne(s: set<Tenant>): (t: Tenant)
    requires |s| == 1
    ensures s == {t}
  {
    Singleton(s);
    var t :| t in s;
    t
  }

  lemma Singleton(s: set<Tenant>)
    requires |s| == 1
    ensures exists t :: t in s
    ensures forall t, u | t in s && u in s :: t == u
  {
    var t :| t in s;
    var rest := s - {t};
    assert |rest| == 0;
    forall u | u in s ensures u == t { assert u !in rest; }
  }

  /** `resolve_tenant_for_user` */
  function Resolve(db: Db, user: User, requested: Option<string>, org: Option<Org>): Resolution {
    var mine := ActiveTenants(db, user);
    if Truthy(requested) then
      if requested.value in mine then Resolved(Some(requested.value)) else AccessDenied
    else if org.Some? && org.value in db.owner && db.owner[org.value] in mine then Resolved(Some(db.owner[org.value]))
    else if mine == {} then Resolved(None)
    else if |mine| > 1 then SelectionRequired
    else assert mine != {}; Resolved(Some(TheOne(mine)))
  }

  /** `validate_organization_ownership` */
  predicate Owns(db: Db, tenant: Option<Tenant>, org: Option<Org>) {
    tenant.None? || org.None? || (org.value in db.owner && db.owner[org.value] == tenant.value)
  }

  // ---------- The same, as objects that update their context ----------

  class Store {
    var db: Db
    var sent: seq<Message>

    constructor (db: Db)
      ensures this.db == db && sent == []
    {
      this.db, sent := db, [];
    }
  }

  datatype TaskOutcome = Returned | Raised | TenantAccessDenied

  class Context {
    var tenant: Option<Tenant>
    var org: Option<Org>
    var lang: Option<string>
    const store: Store

    function Here(): Thread reads this { Thread(tenant, org, lang) }
    function There(): Backend reads store { Backend(store.db, store.sent) }

    constructor (store: Store)
      ensures this.store == store && Here() == Thread(None, None, None)
    {
      tenant, org, lang, this.store := None, None, None, store;
    }

    /** Sets the context variable and returns the token that undoes it. */
    method SetCurrentTenant(t: Option<Tenant>) returns (token: Option<Tenant>)
      modifies this`tenant
      ensures token == old(tenant) && tenant == t
    {
      token := tenant;
      tenant := t;
    }

    method ResetCurrentTenant(token: Option<Tenant>)
      modifies this`tenant
      ensures tenant == token
    {
      tenant := token;
    }

    method BeforeTaskPublish(kw: Kwargs) returns (stamped: Kwargs)
      ensures stamped == Stamp(kw, Here())
    {
      stamped := kw[LangKey := lang];
      stamped := stamped[OrgKey := org];
      stamped := stamped[TenantTaskKey := tenant];
      stamped := stamped[TenantOrgTaskKey := if tenant.Some? then org else None];
    }

    method SetOrgById(o: Org)
      modifies this`org
      ensures Here() == SetCurrentOrg(old(Here()), store.db, o)
    {
      if o in store.db.orgs { org := Some(o); }
    }

    /** Runs handler or task code; a `with` block resets the tenant whether or not its body raises. */
    method Run(code: Code) returns (ok: bool)
      modifies this, store
      ensures (Here(), There(), ok) == Exec(code, old(Here()), old(There()))
      decreases code
    {
      match code
      case Done => ok := true;
      case Raise => ok := false;
      case Publish(kw, next) =>
        var stamped := BeforeTaskPublish(kw);
        store.sent := store.sent + [Message(stamped, kw, Here())];
        ok := Run(next);
      case SetOrg(o, next) =>
        SetOrgById(o);
        ok := Run(next);
      case WithTenant(t, body, next) =>
        var token := SetCurrentTenant(t);
        ok := Run(body);
        ResetCurrentTenant(token);
        if ok { ok := Run(next); }
      case DbChanges(db, next) =>
        store.db := db;
        ok := Run(next);
    }

    method OnTaskPreRun(kw: Kwargs) returns (rest: Kwargs)
      modifies this
      ensures (Here(), rest) == PreRun(old(Here()), store.db, kw)
    {
      var lang', org' := Get(kw, LangKey), Get(kw, OrgKey);
      rest := kw - {LangKey, OrgKey};
      if Truthy(lang') { lang := lang'; }
      if Truthy(org') { SetOrgById(org'.value); }
    }

    /** `TenantAwareTask.__call__` on a body. */
    method CallTask(kw: Kwargs, body: Code) returns (outcome: TaskOutcome)
      modifies this, store
      ensures match Admit(old(Here()), old(store.db), kw)
        case Denied => outcome == TenantAccessDenied && Here() == old(Here()) && There() == old(There())
        case RunIn(t) =>
          && (Here(), There(), outcome == Returned) == Exec(WithTenant(t, body, Done), old(Here()), old(There()))
          && outcome != TenantAccessDenied
    {
      var tenantId, orgId := Get(kw, TenantTaskKey), Get(kw, TenantOrgTaskKey);
      if !Truthy(tenantId) {
        ContextRestored(body, Here(), There());
        var ok := Run(body);
        return if ok then Returned else Raised;
      }
      if tenantId.value !in store.db.active { return TenantAccessDenied; }
      if Truthy(orgId) && !(orgId.value in store.db.owner && store.db.owner[orgId.value] == tenantId.value) {
        return TenantAccessDenied;
      }
      var token := SetCurrentTenant(Some(tenantId.value));
      var ok := Run(body);
      ResetCurrentTenant(token);
      outcome := if ok then Returned else Raised;
    }

    /** `CustomerTenantMiddleware.__call__`; `resolves` is whether the path is a tenant API path and the
        user is signed in. */
    method HandleRequest(resolves: bool, user: User, requested: Option<string>, currentOrg: Option<Org>, view: Code)
      returns (answered: bool, bound: Option<Tenant>)
      modifies this, store
      ensures var r := Resolve(old(store.db), user, requested, currentOrg);
        if !resolves then
          var e := Exec(view, old(Here()), old(There()));
          answered && bound == None && Here() == e.0 && There() == e.1
        else if !r.Resolved? || !Owns(old(store.db), r.tenant, currentOrg) then
          !answered && Here() == old(Here()) && There() == old(There())
        else
          var e := Exec(WithTenant(r.tenant, view, Done), old(Here()), old(There()));
          answered && bound == r.tenant && Here() == e.0 && There() == e.1
    {
      bound := None;
      if !resolves {
        var _ := Run(view);
        return true, None;
      }
      var r := Resolve(store.db, user, requested, currentOrg);
      if !r.Resolved? || !Owns(store.db, r.tenant, currentOrg) { return false, None; }
      bound := r.tenant;
      var token := SetCurrentTenant(r.tenant);
      var _ := Run(view);
      ResetCurrentTenant(token);
      answered := true;
    }
  }

  /** However code nests contexts and wherever it raises, the tenant is afterwards what it was. */
  lemma {:induction false} ContextRestored(code: Code, th: Thread, b: Backend)
    ensures Exec(code, th, b).0.tenant == th.tenant
  {
    match code
    case Done =>
    case Raise =>
    case Publish(kw, next) => ContextRestored(next, th, b.(sent := b.sent + [Message(Stamp(kw, th), kw, th)]));
    case SetOrg(org, next) => ContextRestored(next, SetCurrentOrg(th, b.db, org), b);
    case WithTenant(t, body, next) =>
      var (th1, b1, ok) := Exec(body, th.(tenant := t), b);
      if ok { ContextRestored(next, th1.(tenant := th.tenant), b1); }
    case DbChanges(db, next) => ContextRestored(next, th, b.(db := db));
  }

  // ---------- What resolution and admission decide ----------

  predicate ActiveMember(db: Db, user: User, t: Tenant) { (user, t) in db.members && t in db.active }

  /** The middleware binds exactly these: the requested tenant, else the tenant of the current
      organization, else the only one, always an active tenant of the user; and it fails only when the
      request names a foreign tenant, or names none and several remain. */
  lemma ResolveMeans(db: Db, user: User, requested: Option<string>, org: Option<Org>)
    ensures var r := Resolve(db, user, requested, org);
            var byOrg := !Truthy(requested) && org.Some? && org.value in db.owner
                         && ActiveMember(db, user, db.owner[org.value]);
            && (r == AccessDenied <==> Truthy(requested) && !ActiveMember(db, user, requested.value))
            && (r == SelectionRequired <==>
                  (!Truthy(requested) && !byOrg
                   && exists t, u :: t != u && ActiveMember(db, user, t) && ActiveMember(db, user, u)))
            && (r == Resolved(None) <==> !Truthy(requested) && forall t :: !ActiveMember(db, user, t))
            && (r.Resolved? && r.tenant.Some? ==>
                  && ActiveMember(db, user, r.tenant.value)
                  && (Truthy(requested) ==> r.tenant == requested)
                  && (byOrg ==> r.tenant.value == db.owner[org.value])
                  && (!Truthy(requested) && !byOrg ==> forall t | ActiveMember(db, user, t) :: t == r.tenant.value))
  {
    var mine := ActiveTenants(db, user);
    assert forall t: Tenant :: ActiveMember(db, user, t) <==> t in mine by {
      forall t: Tenant | ActiveMember(db, user, t) ensures t in mine { assert (user, t) in db.members; }
    }
    if |mine| > 1 {
      var t :| t in mine;
      assert |mine - {t}| == |mine| - 1;
      var u :| u in mine - {t};
      assert ActiveMember(db, user, t) && ActiveMember(db, user, u);
    } else if mine != {} {
      assert |mine| == 1;
      Singleton(mine);
    }
  }

  /** A stamped message is refused exactly when its publisher had a tenant that is no longer active,
      or that does not own the publisher's organization. */
  lemma AdmitStamped(th: Thread, db: Db, given: Kwargs, origin: Thread)
    ensures var kw := PreRun(th, db, Stamp(given, origin)).1;
            var v := Admit(th, db, kw);
            && kw - {TenantTaskKey, TenantOrgTaskKey} == given - InternalKeys
            && (v == Denied <==>
                  && origin.tenant.Some?
                  && !(&& origin.tenant.value in db.active
                       && (Truthy(origin.org) ==> Owns(db, origin.tenant, origin.org))))
            && (v.RunIn? ==> v.tenant == if origin.tenant.Some? then origin.tenant else th.tenant)
  {
    var kw := PreRun(th, db, Stamp(given, origin)).1;
    assert Get(kw, TenantTaskKey) == origin.tenant;
    assert Get(kw, TenantOrgTaskKey) == if origin.tenant.Some? then origin.org else None;
    assert kw - {TenantTaskKey, TenantOrgTaskKey} == given - InternalKeys;
  }

  /** What a caller puts under the internal keys never matters: neither to the message, nor to what is
      stored for running the task again. */
  lemma ForgedKeysIgnored(kw: Kwargs, forged: Kwargs, th: Thread)
    requires kw - InternalKeys == forged - InternalKeys
    ensures Stamp(kw, th) == Stamp(forged, th)
    ensures StoredKwargs(Stamp(kw, th)) == kw - InternalKeys
  {
    var a, b := Stamp(kw, th), Stamp(forged, th);
    forall k | k in a || k in b ensures k in a && k in b && a[k] == b[k] {
      if k !in InternalKeys {
        assert (k in kw) == (k in kw - InternalKeys) && (k in forged) == (k in forged - InternalKeys);
        assert k in kw ==> kw[k] == (kw - InternalKeys)[k];
      }
    }
    assert a.Keys == b.Keys;
  }

  // ---------- Whole runs ----------

  /** A body that ran: which message, the tenant and organization it started under, its arguments, and
      the database at its start. */
  datatype Observation = Observation(message: nat, tenant: Option<Tenant>, org: Option<Org>, kwargs: Kwargs, db: Db)

  datatype Event =
    | Request(thread: nat, resolves: bool, user: User, requested: Option<string>, currentOrg: Option<Org>, view: Code)
    | Worker(thread: nat, message: nat, body: Code)
    | Plain(thread: nat, code: Code)
    | DbEvent(db: Db)

  /** A tenant that the middleware bound, for which request, and under which database. */
  datatype Grant = Grant(tenant: Tenant, user: User, requested: Option<string>, currentOrg: Option<Org>, db: Db)

  /** `grants` and `log` are history: the tenants the middleware bound, and the bodies that ran. */
  datatype World = World(b: Backend, threads: seq<Thread>, log: seq<Observation>, grants: seq<Grant>)

  function Ran(w: World, i: nat, code: Code): World
    requires i < |w.threads|
  {
    var (th, b, _) := Exec(code, w.threads[i], w.b);
    w.(b := b, threads := w.threads[i := th])
  }

  function RequestStep(w: World, e: Event): World
    requires e.Request? && e.thread < |w.threads|
  {
    var r := Resolve(w.b.db, e.user, e.requested, e.currentOrg);
    if !e.resolves then Ran(w, e.thread, e.view)
    else if !r.Resolved? || !Owns(w.b.db, r.tenant, e.currentOrg) then w
    else
      var w1 := Ran(w, e.thread, WithTenant(r.tenant, e.view, Done));
      if r.tenant.None? then w1
      else w1.(grants := w.grants + [Grant(r.tenant.value, e.user, e.requested, e.currentOrg, w.b.db)])
  }

  /** A broker may deliver a message late, repeatedly, and to any worker. */
  function WorkerStep(w: World, e: Event): World
    requires e.Worker? && e.thread < |w.threads| && e.message < |w.b.sent|
  {
    var (th, kw) := PreRun(w.threads[e.thread], w.b.db, w.b.sent[e.message].kwargs);
    var w1 := w.(threads := w.threads[e.thread := th]);
    match Admit(th, w.b.db, kw)
    case Denied => w1
    case RunIn(t) =>
      Ran(w1, e.thread, WithTenant(t, e.body, Done)).(
        log := w.log + [Observation(e.message, t, th.org, kw - {TenantTaskKey, TenantOrgTaskKey}, w.b.db)])
  }

  function Step(w: World, e: Event): World {
    match e
    case Request(i, _, _, _, _, _) => if i < |w.threads| then RequestStep(w, e) else w
    case Worker(i, m, _) => if i < |w.threads| && m < |w.b.sent| then WorkerStep(w, e) else w
    case Plain(i, code) => if i < |w.threads| then Ran(w, i, code) else w
    case DbEvent(db) => w.(b := w.b.(db := db))
  }

  function RunAll(w: World, es: seq<Event>): World
    decreases |es|
  {
    if es == [] then w else RunAll(Step(w, es[0]), es[1..])
  }

  predicate Fresh(w: World) {
    && w.b.sent == [] && w.log == [] && w.grants == []
    && forall i | 0 <= i < |w.threads| :: w.threads[i].tenant == None
  }

  predicate WellStamped(m: Message) { m.kwargs == Stamp(m.given, m.origin) }

  /** What the run guarantees about one body that ran. */
  predicate Faithful(sent: seq<Message>, o: Observation) {
    && o.message < |sent|
    && o.tenant == sent[o.message].origin.tenant
    && o.kwargs == sent[o.message].given - InternalKeys
    && (o.tenant.Some? ==>
          && o.tenant.value in o.db.active
          && (Truthy(sent[o.message].origin.org) ==> Owns(o.db, o.tenant, sent[o.message].origin.org)))
    && (Truthy(sent[o.message].origin.org) && sent[o.message].origin.org.value in o.db.orgs ==>
          o.org == sent[o.message].origin.org && Owns(o.db, o.tenant, o.org))
  }

  predicate Inv(w: World) {
    && (forall i | 0 <= i < |w.threads| :: w.threads[i].tenant == None)
    && (forall i | 0 <= i < |w.b.sent| :: WellStamped(w.b.sent[i]))
    && (forall i | 0 <= i < |w.log| :: Faithful(w.b.sent, w.log[i]))
  }

  /** Code only appends well-stamped messages. */
  lemma {:induction false} ExecAppends(code: Code, th: Thread, b: Backend)
    requires forall i | 0 <= i < |b.sent| :: WellStamped(b.sent[i])
    ensures var b' := Exec(code, th, b).1;
            b.sent <= b'.sent && forall i | 0 <= i < |b'.sent| :: WellStamped(b'.sent[i])
  {
    match code
    case Done =>
    case Raise =>
    case Publish(kw, next) => ExecAppends(next, th, b.(sent := b.sent + [Message(Stamp(kw, th), kw, th)]));
    case SetOrg(org, next) => ExecAppends(next, SetCurrentOrg(th, b.db, org), b);
    case WithTenant(t, body, next) =>
      ExecAppends(body, th.(tenant := t), b);
      var (th1, b1, ok) := Exec(body, th.(tenant := t), b);
      if ok { ExecAppends(next, th1.(tenant := th.tenant), b1); }
    case DbChanges(db, next) => ExecAppends(next, th, b.(db := db));
  }

  lemma RanKeeps(w: World, i: nat, code: Code)
    requires Inv(w) && i < |w.threads|
    ensures Inv(Ran(w, i, code)) && w.b.sent <= Ran(w, i, code).b.sent
  {
    ContextRestored(code, w.threads[i], w.b);
    ExecAppends(code, w.threads[i], w.b);
    hide Exec, WellStamped;
    var w' := Ran(w, i, code);
    forall j | 0 <= j < |w'.log| ensures Faithful(w'.b.sent, w'.log[j]) {
      assert Faithful(w.b.sent, w.log[j]);
    }
  }

  lemma WorkerKeeps(w: World, e: Event)
    requires Inv(w) && e.Worker? && e.thread < |w.threads| && e.message < |w.b.sent|
    ensures Inv(WorkerStep(w, e))
  {
    var m := w.b.sent[e.message];
    assert WellStamped(m);
    var (th, kw) := PreRun(w.threads[e.thread], w.b.db, m.kwargs);
    AdmitStamped(th, w.b.db, m.given, m.origin);
    PreRunPops(w.threads[e.thread], th, w.b.db, m.kwargs);
    PreRunOrg(w.threads[e.thread], w.b.db, m.given, m.origin);
    var w1 := w.(threads := w.threads[e.thread := th]);
    hide Stamp, PreRun, Exec;
    match Admit(th, w.b.db, kw)
    case Denied =>
    case RunIn(t) =>
      var code := WithTenant(t, e.body, Done);
      RanKeeps(w1, e.thread, code);
      var o := Observation(e.message, t, th.org, kw - {TenantTaskKey, TenantOrgTaskKey}, w.b.db);
      assert Faithful(w.b.sent, o);
      assert Faithful(Ran(w1, e.thread, code).b.sent, o);
  }

  /** The organization after the hook: the publisher's when it was set and is known, else what was there. */
  lemma PreRunOrg(th: Thread, db: Db, given: Kwargs, origin: Thread)
    ensures PreRun(th, db, Stamp(given, origin)).0.org
            == if Truthy(origin.org) && origin.org.value in db.orgs then origin.org else th.org
  {
    assert Get(Stamp(given, origin), OrgKey) == origin.org;
  }

  lemma PreRunPops(th: Thread, th': Thread, db: Db, kw: Kwargs)
    ensures PreRun(th, db, kw).1 == PreRun(th', db, kw).1 && PreRun(th, db, kw).0.tenant == th.tenant
  {
  }

  lemma {:induction false} RunKeeps(w: World, es: seq<Event>)
    requires Inv(w)
    ensures Inv(RunAll(w, es))
    decreases |es|
  {
    if es != [] {
      StepKeeps(w, es[0]);
      RunKeeps(Step(w, es[0]), es[1..]);
    }
  }

  lemma StepKeeps(w: World, e: Event)
    requires Inv(w)
    ensures Inv(Step(w, e))
  {
    hide Exec, Faithful, WellStamped, Ran, Resolve, Owns, WorkerStep;
    match e
    case Request(i, _, _, requested, org, view) =>
      if i < |w.threads| {
        var r := Resolve(w.b.db, e.user, requested, org);
        RanKeeps(w, i, view);
        if r.Resolved? { RanKeeps(w, i, WithTenant(r.tenant, view, Done)); }
      }
    case Worker(i, m, _) => if i < |w.threads| && m < |w.b.sent| { WorkerKeeps(w, e); }
    case Plain(i, code) => if i < |w.threads| { RanKeeps(w, i, code); }
    case DbEvent(_) =>
  }

  /** In every run: a body observes tenant t only if it was published from a context whose tenant was t,
      and at its start t was active and owned the publisher's organization, which the body starts under if
      it was set and is known; a task published outside any tenant runs under none; its arguments are the
      caller's without the internal keys; and every thread is outside any tenant between events. */
  lemma TenantPropagation(w: World, es: seq<Event>, i: nat)
    requires Fresh(w) && i < |RunAll(w, es).log|
    ensures Faithful(RunAll(w, es).b.sent, RunAll(w, es).log[i])
    ensures forall j | 0 <= j < |RunAll(w, es).threads| :: RunAll(w, es).threads[j].tenant == None
  {
    RunKeeps(w, es);
  }

  // ---------- What code publishes ----------

  /** The tenants of the innermost contexts around the publications that code makes when it starts in a
      tenant, in order, and whether it ends without raising. */
  function Contexts(code: Code, t: Option<Tenant>): (seq<Option<Tenant>>, bool) {
    match code
    case Done => ([], true)
    case Raise => ([], false)
    case Publish(_, next) => ([t] + Contexts(next, t).0, Contexts(next, t).1)
    case SetOrg(_, next) => Contexts(next, t)
    case WithTenant(inner, body, next) =>
      var (ts, ok) := Contexts(body, inner);
      if ok then (ts + Contexts(next, t).0, Contexts(next, t).1) else (ts, false)
    case DbChanges(_, next) => Contexts(next, t)
  }

  /** New messages, one for each tenant, in order, made and stamped in it. */
  predicate SentIn(before: seq<Message>, after: seq<Message>, ts: seq<Option<Tenant>>) {
    && before <= after && |after| == |before| + |ts|
    && forall k | 0 <= k < |ts| ::
         var m := after[|before| + k];
         m.origin.tenant == ts[k] && TenantTaskKey in m.kwargs && m.kwargs[TenantTaskKey] == ts[k]
  }

  lemma SentConcat(a: seq<Message>, b: seq<Message>, c: seq<Message>, ts: seq<Option<Tenant>>, us: seq<Option<Tenant>>)
    requires SentIn(a, b, ts) && SentIn(b, c, us)
    ensures SentIn(a, c, ts + us)
  {
    forall k | 0 <= k < |ts + us|
      ensures var m := c[|a| + k];
              m.origin.tenant == (ts + us)[k] && TenantTaskKey in m.kwargs && m.kwargs[TenantTaskKey] == (ts + us)[k]
    {
      if k < |ts| { assert c[|a| + k] == b[|a| + k]; } else { assert c[|a| + k] == c[|b| + (k - |ts|)]; }
    }
  }

  lemma SentOne(sent: seq<Message>, kw: Kwargs, th: Thread)
    ensures SentIn(sent, sent + [Message(Stamp(kw, th), kw, th)], [th.tenant])
  {
  }

  /** Code publishes in exactly these contexts: a body runs in the tenant of the context around it. */
  lemma {:induction false} CodePublishesIn(code: Code, th: Thread, b: Backend)
    ensures SentIn(b.sent, Exec(code, th, b).1.sent, Contexts(code, th.tenant).0)
    ensures Exec(code, th, b).2 == Contexts(code, th.tenant).1
  {
    hide SentIn, Stamp;
    match code
    case Done => NothingSent(b.sent);
    case Raise => NothingSent(b.sent);
    case Publish(kw, next) =>
      var b1 := b.(sent := b.sent + [Message(Stamp(kw, th), kw, th)]);
      SentOne(b.sent, kw, th);
      CodePublishesIn(next, th, b1);
      SentConcat(b.sent, b1.sent, Exec(next, th, b1).1.sent, [th.tenant], Contexts(next, th.tenant).0);
    case SetOrg(org, next) => CodePublishesIn(next, SetCurrentOrg(th, b.db, org), b);
    case WithTenant(t, body, next) =>
      CodePublishesIn(body, th.(tenant := t), b);
      var (th1, b1, ok) := Exec(body, th.(tenant := t), b);
      if ok {
        var th2 := th1.(tenant := th.tenant);
        CodePublishesIn(next, th2, b1);
        SentConcat(b.sent, b1.sent, Exec(next, th2, b1).1.sent, Contexts(body, t).0, Contexts(next, th.tenant).0);
      }
    case DbChanges(db, next) => CodePublishesIn(next, th, b.(db := db));
  }

  lemma NothingSent(sent: seq<Message>)
    ensures SentIn(sent, sent, [])
  {
  }

  /** Code without contexts of its own. */
  predicate Flat(code: Code) {
    match code
    case Done => true
    case Raise => true
    case Publish(_, next) => Flat(next)
    case SetOrg(_, next) => Flat(next)
    case WithTenant(_, _, _) => false
    case DbChanges(_, next) => Flat(next)
  }

  lemma {:induction false} FlatContexts(code: Code, t: Option<Tenant>)
    requires Flat(code)
    ensures forall k | 0 <= k < |Contexts(code, t).0| :: Contexts(code, t).0[k] == t
  {
    match code
    case Done =>
    case Raise =>
    case Publish(_, next) => FlatContexts(next, t);
    case SetOrg(_, next) => FlatContexts(next, t);
    case DbChanges(_, next) => FlatContexts(next, t);
  }

  /** What code publishes carries the organization it switched to last, if that is known. */
  lemma PublishedUnderOrg(th: Thread, b: Backend, org: Org, kw: Kwargs, next: Code)
    ensures var sent := Exec(SetOrg(org, Publish(kw, next)), th, b).1.sent;
            && |b.sent| < |sent|
            && (var m := sent[|b.sent|];
                && m.origin.org == (if org in b.db.orgs then Some(org) else th.org)
                && OrgKey in m.kwargs && m.kwargs[OrgKey] == m.origin.org)
  {
    hide Stamp;
    var th1 := SetCurrentOrg(th, b.db, org);
    var m := Message(Stamp(kw, th1), kw, th1);
    var b1 := b.(sent := b.sent + [m]);
    assert Exec(Publish(kw, next), th1, b) == Exec(next, th1, b1);
    CodePublishesIn(next, th1, b1);
    StampedOrg(kw, th1);
    assert Exec(next, th1, b1).1.sent[|b.sent|] == b1.sent[|b.sent|];
  }

  lemma StampedOrg(kw: Kwargs, th: Thread)
    ensures OrgKey in Stamp(kw, th) && Stamp(kw, th)[OrgKey] == th.org
  {
  }

  /** In every run, what a worker's body publishes is published in the tenant of the running message, but for
      contexts of the body's own; a refused message publishes nothing. */
  lemma WorkerPublishes(w: World, es: seq<Event>, i: nat, m: nat, body: Code)
    requires Fresh(w) && i < |RunAll(w, es).threads| && m < |RunAll(w, es).b.sent|
    ensures var now := RunAll(w, es);
            var next := Step(now, Worker(i, m, body));
            var t := now.b.sent[m].origin.tenant;
            && (next.b.sent == now.b.sent || SentIn(now.b.sent, next.b.sent, Contexts(body, t).0))
            && (|next.log| > |now.log| ==> SentIn(now.b.sent, next.b.sent, Contexts(body, t).0))
            && (Flat(body) ==> forall k | |now.b.sent| <= k < |next.b.sent| :: next.b.sent[k].origin.tenant == t)
  {
    RunKeeps(w, es);
    var now := RunAll(w, es);
    var msg := now.b.sent[m];
    hide Exec, Stamp, PreRun, RunAll, Faithful;
    assert WellStamped(msg);
    var th := PreRun(now.threads[i], now.b.db, msg.kwargs).0;
    AdmitStamped(th, now.b.db, msg.given, msg.origin);
    PreRunPops(now.threads[i], th, now.b.db, msg.kwargs);
    ContextPublishes(msg.origin.tenant, body, th, now.b);
    FlatPublishes(msg.origin.tenant, body, now.b.sent,
                  Exec(WithTenant(msg.origin.tenant, body, Done), th, now.b).1.sent);
  }

  lemma FlatPublishes(t: Option<Tenant>, body: Code, before: seq<Message>, after: seq<Message>)
    requires SentIn(before, after, Contexts(body, t).0)
    ensures Flat(body) ==> forall k | |before| <= k < |after| :: after[k].origin.tenant == t
  {
    if Flat(body) {
      FlatContexts(body, t);
      var ts := Contexts(body, t).0;
      forall k | |before| <= k < |after| ensures after[k].origin.tenant == t {
        var j := k - |before|;
        assert after[|before| + j].origin.tenant == ts[j];
      }
    }
  }

  /** A body in a context of t publishes as code that starts in t. */
  lemma ContextPublishes(t: Option<Tenant>, body: Code, th: Thread, b: Backend)
    ensures SentIn(b.sent, Exec(WithTenant(t, body, Done), th, b).1.sent, Contexts(body, t).0)
  {
    CodePublishesIn(WithTenant(t, body, Done), th, b);
    assert Contexts(body, t).0 + [] == Contexts(body, t).0;
    assert Contexts(Done, th.tenant) == ([], true);
  }

  /** In every run, what a view publishes is published in the tenant that the middleware resolved for its
      request, but for contexts of the view's own; a request that is refused publishes nothing, and one that is
      exempt publishes outside tenants. */
  lemma RequestPublishes(w: World, es: seq<Event>, e: Event)
    requires Fresh(w) && e.Request? && e.thread < |RunAll(w, es).threads|
    ensures var now := RunAll(w, es);
            var next := Step(now, e);
            var r := Resolve(now.b.db, e.user, e.requested, e.currentOrg);
            if !e.resolves then SentIn(now.b.sent, next.b.sent, Contexts(e.view, None).0)
            else if r.Resolved? && Owns(now.b.db, r.tenant, e.currentOrg) then
              && SentIn(now.b.sent, next.b.sent, Contexts(e.view, r.tenant).0)
              && (Flat(e.view) ==>
                    forall k | |now.b.sent| <= k < |next.b.sent| :: next.b.sent[k].origin.tenant == r.tenant)
            else next == now
  {
    RunKeeps(w, es);
    var now := RunAll(w, es);
    hide Exec, RunAll, Faithful, Resolve, Owns, SentIn, Contexts;
    var r := Resolve(now.b.db, e.user, e.requested, e.currentOrg);
    CodePublishesIn(e.view, now.threads[e.thread], now.b);
    if r.Resolved? {
      ContextPublishes(r.tenant, e.view, now.threads[e.thread], now.b);
      FlatPublishes(r.tenant, e.view, now.b.sent,
                    Exec(WithTenant(r.tenant, e.view, Done), now.threads[e.thread], now.b).1.sent);
    }
  }

  /** The language after the hook: the publisher's when it was set, else what was there. */
  lemma PreRunLang(th: Thread, db: Db, given: Kwargs, origin: Thread)
    ensures PreRun(th, db, Stamp(given, origin)).0.lang == if Truthy(origin.lang) then origin.lang else th.lang
  {
    assert Get(Stamp(given, origin), LangKey) == origin.lang;
  }

  // ---------- Where tenants come from ----------

  /** The tenants that code enters by itself. */
  function Entered(code: Code): set<Tenant> {
    match code
    case Done => {}
    case Raise => {}
    case Publish(_, next) => Entered(next)
    case SetOrg(_, next) => Entered(next)
    case WithTenant(t, body, next) => (if t.Some? then {t.value} else {}) + Entered(body) + Entered(next)
    case DbChanges(_, next) => Entered(next)
  }

  function EventCode(e: Event): Code {
    match e
    case Request(_, _, _, _, _, view) => view
    case Worker(_, _, body) => body
    case Plain(_, code) => code
    case DbEvent(_) => Done
  }

  /** Every message published inside a tenant was published inside one of these. */
  predicate OriginsIn(sent: seq<Message>, ts: set<Tenant>) {
    forall i | 0 <= i < |sent| && sent[i].origin.tenant.Some? :: sent[i].origin.tenant.value in ts
  }

  lemma {:induction false} ExecOrigins(code: Code, th: Thread, b: Backend, ts: set<Tenant>)
    requires OriginsIn(b.sent, ts) && (th.tenant.Some? ==> th.tenant.value in ts) && Entered(code) <= ts
    ensures OriginsIn(Exec(code, th, b).1.sent, ts)
  {
    match code
    case Done =>
    case Raise =>
    case Publish(kw, next) => ExecOrigins(next, th, b.(sent := b.sent + [Message(Stamp(kw, th), kw, th)]), ts);
    case SetOrg(org, next) => ExecOrigins(next, SetCurrentOrg(th, b.db, org), b, ts);
    case WithTenant(t, body, next) =>
      ExecOrigins(body, th.(tenant := t), b, ts);
      var (th1, b1, ok) := Exec(body, th.(tenant := t), b);
      if ok { ExecOrigins(next, th1.(tenant := th.tenant), b1, ts); }
    case DbChanges(db, next) => ExecOrigins(next, th, b.(db := db), ts);
  }

  function Granted(grants: seq<Grant>): set<Tenant> { set g | g in grants :: g.tenant }

  lemma StepOrigins(w: World, e: Event, own: set<Tenant>)
    requires Inv(w) && OriginsIn(w.b.sent, Granted(w.grants) + own) && Entered(EventCode(e)) <= own
    ensures OriginsIn(Step(w, e).b.sent, Granted(Step(w, e).grants) + own)
  {
    var ts := Granted(Step(w, e).grants) + own;
    GrantsGrow(w, e);
    match e
    case Request(i, _, _, requested, org, view) =>
      if i < |w.threads| {
        var r := Resolve(w.b.db, e.user, requested, org);
        var code := if e.resolves && r.Resolved? then WithTenant(r.tenant, view, Done) else view;
        hide Resolve;
        if !e.resolves || (r.Resolved? && Owns(w.b.db, r.tenant, org)) {
          ExecOrigins(code, w.threads[i], w.b, ts);
        }
      }
    case Worker(i, m, body) =>
      if i < |w.threads| && m < |w.b.sent| {
        var msg := w.b.sent[m];
        assert WellStamped(msg);
        var (th, kw) := PreRun(w.threads[i], w.b.db, msg.kwargs);
        AdmitStamped(th, w.b.db, msg.given, msg.origin);
        PreRunPops(w.threads[i], th, w.b.db, msg.kwargs);
        hide Stamp, PreRun;
        var v := Admit(th, w.b.db, kw);
        if v.RunIn? { ExecOrigins(WithTenant(v.tenant, body, Done), th, w.b, ts); }
      }
    case Plain(i, code) => if i < |w.threads| { ExecOrigins(code, w.threads[i], w.b, ts); }
    case DbEvent(_) =>
  }

  lemma GrantsGrow(w: World, e: Event)
    ensures Granted(w.grants) <= Granted(Step(w, e).grants)
    ensures e.Request? && e.thread < |w.threads| && e.resolves ==>
              var r := Resolve(w.b.db, e.user, e.requested, e.currentOrg);
              r.Resolved? && Owns(w.b.db, r.tenant, e.currentOrg) && r.tenant.Some? ==>
                r.tenant.value in Granted(Step(w, e).grants)
  {
    hide Exec, Resolve, Owns, PreRun, Admit;
  }

  lemma {:induction false} RunOrigins(w: World, es: seq<Event>, own: set<Tenant>)
    requires Inv(w) && OriginsIn(w.b.sent, Granted(w.grants) + own)
    requires forall e | e in es :: Entered(EventCode(e)) <= own
    ensures OriginsIn(RunAll(w, es).b.sent, Granted(RunAll(w, es).grants) + own)
    decreases |es|
  {
    if es != [] {
      assert es[0] in es;
      StepKeeps(w, es[0]);
      StepOrigins(w, es[0], own);
      hide Step, Inv;
      RunOrigins(Step(w, es[0]), es[1..], own);
    }
  }

  /** A grant answers a request of the run, for which the middleware resolved the tenant: an active one of
      the user, the one asked for if one was, and the owner of the current organization if there was one. */
  predicate GrantRight(all: seq<Event>, g: Grant) {
    && (exists e :: e in all && e.Request? && e.resolves && e.user == g.user && e.requested == g.requested
                    && e.currentOrg == g.currentOrg)
    && ActiveMember(g.db, g.user, g.tenant)
    && (Truthy(g.requested) ==> g.requested == Some(g.tenant))
    && Owns(g.db, Some(g.tenant), g.currentOrg)
  }

  /** Every request that binds a tenant, for the first time or again, is granted it rightly. */
  lemma GrantStep(all: seq<Event>, w: World, e: Event)
    requires e in all && forall g | g in w.grants :: GrantRight(all, g)
    ensures forall g | g in Step(w, e).grants :: GrantRight(all, g)
  {
    hide Exec, Resolve, PreRun, Admit;
    if e.Request? && e.thread < |w.threads| && e.resolves {
      ResolveMeans(w.b.db, e.user, e.requested, e.currentOrg);
      var r := Resolve(w.b.db, e.user, e.requested, e.currentOrg);
      if r.Resolved? && Owns(w.b.db, r.tenant, e.currentOrg) && r.tenant.Some? {
        assert GrantRight(all, Grant(r.tenant.value, e.user, e.requested, e.currentOrg, w.b.db));
      }
    }
  }

  lemma {:induction false} GrantsAreRight(all: seq<Event>, w: World, es: seq<Event>)
    requires (forall e | e in es :: e in all) && forall g | g in w.grants :: GrantRight(all, g)
    ensures forall g | g in RunAll(w, es).grants :: GrantRight(all, g)
    decreases |es|
  {
    hide Step, GrantRight;
    if es != [] {
      assert es[0] in es;
      GrantStep(all, w, es[0]);
      GrantsAreRight(all, Step(w, es[0]), es[1..]);
    }
  }

  /** Some request of the run was rightly granted this tenant. */
  predicate GrantedIn(es: seq<Event>, grants: seq<Grant>, t: Tenant) {
    exists g :: g in grants && g.tenant == t && GrantRight(es, g)
  }

  /** Tenants do not come out of message contents: over any run, a message published inside a tenant, and a
      body that observes one, goes back to a request of the run that was rightly granted this tenant, unless
      trusted code entered it by itself. */
  lemma TenantsAreGranted(w: World, es: seq<Event>, own: set<Tenant>, t: Tenant)
    requires Fresh(w) && t !in own
    requires forall e | e in es :: Entered(EventCode(e)) <= own
    ensures var r := RunAll(w, es);
            && ((exists i :: 0 <= i < |r.b.sent| && r.b.sent[i].origin.tenant == Some(t)) ==>
                  GrantedIn(es, r.grants, t))
            && ((exists i :: 0 <= i < |r.log| && r.log[i].tenant == Some(t)) ==> GrantedIn(es, r.grants, t))
  {
    RunOrigins(w, es, own);
    GrantsAreRight(es, w, es);
    var r := RunAll(w, es);
    hide RunAll, GrantRight, Faithful;
    if t in Granted(r.grants) {
      var g :| g in r.grants && g.tenant == t;
    }
    forall i | 0 <= i < |r.log| && r.log[i].tenant == Some(t) ensures GrantedIn(es, r.grants, t) {
      LoggedFromSent(w, es, i);
    }
  }

  /** What a body observes is its publisher's tenant. */
  lemma LoggedFromSent(w: World, es: seq<Event>, i: nat)
    requires Fresh(w) && i < |RunAll(w, es).log|
    ensures var r := RunAll(w, es);
            r.log[i].message < |r.b.sent| && r.b.sent[r.log[i].message].origin.tenant == r.log[i].tenant
  {
    TenantPropagation(w, es, i);
  }

  // ---------- Organizations, unlike tenants, are not put back ----------

  /** The failing input: on one worker, a task of tenant t published under organization a, and then one that
      tenant u published under none.  The second body runs as u, in the organization of t. */
  lemma LeftoverOrganization(w: World, i: nat, m: nat, n: nat, t: Tenant, u: Tenant, a: Org, body: Code)
    requires Inv(w) && i < |w.threads| && m < |w.b.sent| && n < |w.b.sent| && t != u && a != ""
    requires w.b.sent[m].origin.tenant == Some(t) && w.b.sent[m].origin.org == Some(a)
    requires w.b.sent[n].origin.tenant == Some(u) && w.b.sent[n].origin.org == None
    requires t in w.b.db.active && u in w.b.db.active && a in w.b.db.orgs
    requires a in w.b.db.owner && w.b.db.owner[a] == t
    ensures var r := Step(Step(w, Worker(i, m, Done)), Worker(i, n, body));
            && |r.log| == |w.log| + 2
            && (var o := r.log[|w.log| + 1];
                && o.message == n && o.tenant == Some(u) && o.org == Some(a)
                && !Owns(o.db, o.tenant, o.org))
  {
    hide Stamp, Faithful;
    assert WellStamped(w.b.sent[m]) && WellStamped(w.b.sent[n]);
    WorkerLogs(w, i, m, Done);
    DoneLeaves(w, i, m);
    var w1 := Step(w, Worker(i, m, Done));
    WorkerLogs(w1, i, n, body);
  }

  /** What a worker logs for a stamped message that is admitted. */
  lemma WorkerLogs(w: World, i: nat, m: nat, body: Code)
    requires i < |w.threads| && m < |w.b.sent| && WellStamped(w.b.sent[m])
    requires var origin := w.b.sent[m].origin;
             origin.tenant.Some? && origin.tenant.value in w.b.db.active
             && (Truthy(origin.org) ==> Owns(w.b.db, origin.tenant, origin.org))
    ensures var r, origin := Step(w, Worker(i, m, body)), w.b.sent[m].origin;
            && |r.log| == |w.log| + 1
            && (var o := r.log[|w.log|];
                && o.message == m && o.tenant == origin.tenant && o.db == w.b.db
                && o.org == if Truthy(origin.org) && origin.org.value in w.b.db.orgs then origin.org
                            else w.threads[i].org)
  {
    hide Stamp, PreRun, Exec;
    var msg := w.b.sent[m];
    var th := PreRun(w.threads[i], w.b.db, msg.kwargs).0;
    AdmitStamped(th, w.b.db, msg.given, msg.origin);
    PreRunPops(w.threads[i], th, w.b.db, msg.kwargs);
    PreRunOrg(w.threads[i], w.b.db, msg.given, msg.origin);
  }

  /** A body that does nothing leaves its organization on the worker. */
  lemma DoneLeaves(w: World, i: nat, m: nat)
    requires i < |w.threads| && m < |w.b.sent| && WellStamped(w.b.sent[m])
    requires var origin := w.b.sent[m].origin;
             origin.tenant.Some? && origin.tenant.value in w.b.db.active
             && (Truthy(origin.org) ==> Owns(w.b.db, origin.tenant, origin.org))
    requires Truthy(w.b.sent[m].origin.org) && w.b.sent[m].origin.org.value in w.b.db.orgs
    ensures var r := Step(w, Worker(i, m, Done));
            r.b == w.b && |r.threads| == |w.threads| && r.threads[i].org == w.b.sent[m].origin.org
  {
    hide Stamp, PreRun;
    var msg := w.b.sent[m];
    var th := PreRun(w.threads[i], w.b.db, msg.kwargs).0;
    AdmitStamped(th, w.b.db, msg.given, msg.origin);
    PreRunPops(w.threads[i], th, w.b.db, msg.kwargs);
    PreRunOrg(w.threads[i], w.b.db, msg.given, msg.origin);
    NothingRuns(msg.origin.tenant, th, w.b);
  }

  lemma NothingRuns(t: Option<Tenant>, th: Thread, b: Backend)
    ensures Exec(WithTenant(t, Done, Done), th, b) == (th, b, true)
  {
    assert Exec(Done, th.(tenant := t), b) == (th.(tenant := t), b, true);
    assert Exec(Done, th, b) == (th, b, true);
  }

  /** A body starts under its publisher's organization, whatever the worker ran before, exactly when
      that organization was set and is known to the worker. */
  lemma BodyOrganizationIff(db: Db, given: Kwargs, origin: Thread)
    ensures (forall th: Thread :: PreRun(th, db, Stamp(given, origin)).0.org == origin.org)
            <==> Truthy(origin.org) && origin.org.value in db.orgs
  {
    var kw := Stamp(given, origin);
    assert Get(kw, OrgKey) == origin.org;
    if !(Truthy(origin.org) && origin.org.value in db.orgs) {
      var other := if origin.org == Some("x") then Some("y") else Some("x");
      var th := Thread(None, other, None);
      assert PreRun(th, db, kw).0.org == other;
    }
  }
}
