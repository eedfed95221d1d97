/** Signed service requests: ServiceAccountSignaturePermission of apps/common/permissions.py.

    Keyed hashing, the body digest and AES are parameters (`Crypto`).  The nonce store is the shared
    cache with its `add` operation.  Time is real and truncated where the source truncates it; a request
    has one time at which the window is checked and a later one at which its nonce is added. */
module Signature {
  import opened Wrappers
  import opened Strings

  type Body = seq<bv8>

  datatype AccessKey = AccessKey(id: string, secret: string, active: bool, usable: bool)

  datatype Crypto = Crypto(
    sha256: Body -> string,
    hmac: (string, string) -> string,
    decrypt: (string, string) -> Option<string>)

  /** What a query for an access key gives; a key may be found under several spellings of its id. */
  datatype Lookup = Found(key: AccessKey) | Missing | Malformed

  /** allowLegacy: SECURITY_SERVICE_SIGNATURE_ALLOW_LEGACY. */
  datatype Config = Config(crypto: Crypto, lookup: string -> Lookup, allowLegacy: bool)

  /** `tenant` is the verified customer tenant of the request, if the middleware bound one. */
  datatype Request = Request(header: string, method_: string, path: string, body: Body, tenant: Option<string>)

  const WindowSeconds := 30

  /** Nonce keys and the time each expires. */
  type Store = map<string, real>

  // ---------- Parsing and the canonical form ----------

  function Canonical(c: Crypto, r: Request, timestamp: string, nonce: string, tenantId: string): string {
    Join([Upper(r.method_), r.path, c.sha256(r.body), timestamp, nonce, tenantId], '\n')
  }

  /** Each clear-text part of the header, in the order the header lists them. */
  datatype Fields = Fields(
    ak: string,
    timestamp: string,
    nonce: string,
    tenant: string,
    algorithm: string,
    signature: string)

  function ParseV2(data: string): Option<Fields> {
    var parts := Split(data, ':', 5);
    if |parts| != 6 then None
    else Some(Fields(parts[0], parts[1], parts[2], parts[3], parts[4], parts[5]))
  }

  function FormatV2(f: Fields): string {
    Join([f.ak, f.timestamp, f.nonce, f.tenant, f.algorithm, f.signature], ':')
  }

  function NonceKeyV2(ak: string, nonce: string): string {
    "jms-service-signature:v2:" + ak + ":" + nonce
  }

  function NonceKeyLegacy(ak: string, timeSign: string): string {
    "jms-service-signature:" + ak + ":" + timeSign
  }

  function Abs(x: int): int { if x < 0 then -x else x }

  predicate InWindow(now: real, timestamp: string)
    requires Digits(timestamp)
  {
    Abs(now.Floor - ToNat(timestamp)) <= WindowSeconds
  }

  /** Everything `_verify_v2` checks before it consumes the nonce. */
  predicate ChecksV2(cfg: Config, r: Request, key: AccessKey, f: Fields, now: real) {
    && f.ak == key.id
    && Lower(f.algorithm) == "hmac-sha256"
    && Digits(f.timestamp) && f.nonce != "" && f.tenant != "" && f.signature != ""
    && InWindow(now, f.timestamp)
    && f.tenant == (if r.tenant.Some? then r.tenant.value else "-")
    && Lower(f.signature) == cfg.crypto.hmac(key.secret, Canonical(cfg.crypto, r, f.timestamp, f.nonce, f.tenant))
  }

  /** The data after a header's prefix, when it has one and names a key. */
  function DataOf(header: string): Option<string> {
    if !(StartsWith(header, "SignV2 ") || StartsWith(header, "Sign ")) then None
    else
      var data := if StartsWith(header, "SignV2 ") then Strip(header[7..]) else Strip(header[5..]);
      if ':' !in data || Split(data, ':', 1)[0] == "" then None else Some(data)
  }

  function KeyId(data: string): string { Split(data, ':', 1)[0] }

  /** Which nonce key a request presents at a time, if it passes all other checks. */
  function Presents(cfg: Config, r: Request, now: real): Option<string> {
    var data := DataOf(r.header);
    if data.None? then None
    else
      var ak := KeyId(data.value);
      var found := cfg.lookup(ak);
      if !found.Found? || !found.key.active || !found.key.usable then None
      else if StartsWith(r.header, "SignV2 ") then
        var f := ParseV2(data.value);
        if f.Some? && ChecksV2(cfg, r, found.key, f.value, now)
        then Some(NonceKeyV2(f.value.ak, f.value.nonce)) else None
      else
        LegacyPresents(cfg, ak, found.key, data.value[Find(data.value, ':') + 1..], now)
  }

  /** The query for the key raises, outside the block that turns exceptions into a refusal. */
  predicate LookupRaises(cfg: Config, r: Request) {
    DataOf(r.header).Some? && cfg.lookup(KeyId(DataOf(r.header).value)).Malformed?
  }

  function LegacyPresents(cfg: Config, ak: string, key: AccessKey, timeSign: string, now: real): Option<string> {
    if !cfg.allowLegacy then None
    else
      var timestamp := cfg.crypto.decrypt(key.secret, timeSign);
      if timestamp.Some? && Digits(timestamp.value) && InWindow(now, timestamp.value)
      then Some(NonceKeyLegacy(ak, timeSign)) else None
  }

  /** `cache.add`: succeeds when the key is absent or its entry has expired. */
  predicate CanAdd(store: Store, k: string, now: real) { k !in store || store[k] <= now }

  /** A request whose window is checked at `now` and whose nonce is added at `added`. */
  datatype Arrival = Arrival(r: Request, now: real, added: real)

  predicate Accepted(cfg: Config, store: Store, a: Arrival) {
    var k := Presents(cfg, a.r, a.now);
    k.Some? && CanAdd(store, k.value, a.added)
  }

  function StoreAfter(cfg: Config, store: Store, a: Arrival): Store {
    if Accepted(cfg, store, a)
    then store[Presents(cfg, a.r, a.now).value := a.added + (WindowSeconds + 1) as real] else store
  }

  // ---------- The permission class, which writes the shared store ----------

  class NonceCache {
    var entries: Store

    constructor ()
      ensures entries == map[]
    {
      entries := map[];
    }

    method Add(k: string, timeout: real, now: real) returns (added: bool)
      modifies this
      ensures added == CanAdd(old(entries), k, now)
      ensures entries == if added then old(entries)[k := now + timeout] else old(entries)
    {
      added := !(k in entries && entries[k] > now);
      if added { entries := entries[k := now + timeout]; }
    }
  }

  class SignaturePermission {
    const cfg: Config
    const cache: NonceCache

    constructor (cfg: Config, cache: NonceCache)
      ensures this.cfg == cfg && this.cache == cache
    {
      this.cfg, this.cache := cfg, cache;
    }

    method VerifyV2(r: Request, key: AccessKey, data: string, now: real, added: real) returns (ok: bool)
      modifies cache
      ensures var f := ParseV2(data);
              var passes := f.Some? && ChecksV2(cfg, r, key, f.value, now);
              && ok == (passes && CanAdd(old(cache.entries), NonceKeyV2(f.value.ak, f.value.nonce), added))
              && cache.entries == if ok then old(cache.entries)[NonceKeyV2(f.value.ak, f.value.nonce) := added + 31.0]
                                  else old(cache.entries)
    {
      hide Split, Join, ToNat, Lower;
      var parts := Split(data, ':', 5);
      if |parts| != 6 { return false; }
      var akId, timestamp, nonce, tenantId, algorithm, signature :=
        parts[0], parts[1], parts[2], parts[3], parts[4], parts[5];
      if key.id != akId || Lower(algorithm) != "hmac-sha256" { return false; }
      if !Digits(timestamp) || nonce == "" || tenantId == "" || signature == "" { return false; }
      if Abs(now.Floor - ToNat(timestamp)) > WindowSeconds { return false; }
      var expectedTenant := if r.tenant.Some? then r.tenant.value else "-";
      if expectedTenant != tenantId { return false; }
      var expected := cfg.crypto.hmac(key.secret, Canonical(cfg.crypto, r, timestamp, nonce, tenantId));
      if expected != Lower(signature) { return false; }
      ok := cache.Add(NonceKeyV2(akId, nonce), (WindowSeconds + 1) as real, added);
    }

    method VerifyLegacy(akId: string, key: AccessKey, timeSign: string, now: real, added: real) returns (ok: bool)
      modifies cache
      ensures var k := LegacyPresents(cfg, akId, key, timeSign, now);
              && ok == (k.Some? && CanAdd(old(cache.entries), k.value, added))
              && cache.entries == if ok then old(cache.entries)[k.value := added + 31.0] else old(cache.entries)
    {
      if !cfg.allowLegacy { return false; }
      var timestamp := cfg.crypto.decrypt(key.secret, timeSign);
      if timestamp.None? || !Digits(timestamp.value) { return false; }
      if Abs(now.Floor - ToNat(timestamp.value)) > WindowSeconds { return false; }
      ok := cache.Add(NonceKeyLegacy(akId, timeSign), (WindowSeconds + 1) as real, added);
    }

    method HasPermission(r: Request, now: real, added: real) returns (ok: bool, raised: bool)
      modifies cache
      ensures ok == Accepted(cfg, old(cache.entries), Arrival(r, now, added))
      ensures cache.entries == StoreAfter(cfg, old(cache.entries), Arrival(r, now, added))
      ensures raised <==> LookupRaises(cfg, r)
    {
      hide Split, Strip, Find, ChecksV2, LegacyPresents;
      if !(StartsWith(r.header, "SignV2 ") || StartsWith(r.header, "Sign ")) { return false, false; }
      var isV2 := StartsWith(r.header, "SignV2 ");
      var data := if isV2 then Strip(r.header[7..]) else Strip(r.header[5..]);
      if data == "" || ':' !in data { return false, false; }
      var ak := Split(data, ':', 1)[0];
      if ak == "" { return false, false; }
      assert DataOf(r.header) == Some(data) && KeyId(data) == ak;
      var found := cfg.lookup(ak);
      if found.Malformed? { return false, true; }
      if found.Missing? || !found.key.active || !found.key.usable { return false, false; }
      raised := false;
      if isV2 {
        ok := VerifyV2(r, found.key, data, now, added);
      } else {
        ok := VerifyLegacy(ak, found.key, data[Find(data, ':') + 1..], now, added);
      }
    }
  }

  // ---------- What the signature binds ----------

  /** The header format and its parser are inverse to each other. */
  lemma ParseFormat(f: Fields)
    requires ':' !in f.ak && ':' !in f.timestamp && ':' !in f.nonce && ':' !in f.tenant && ':' !in f.algorithm
    ensures ParseV2(FormatV2(f)) == Some(f)
  {
    SplitJoin([f.ak, f.timestamp, f.nonce, f.tenant, f.algorithm, f.signature], ':');
  }

  lemma FormatParse(data: string)
    requires ParseV2(data).Some?
    ensures FormatV2(ParseV2(data).value) == data
  {
    JoinSplit(data, ':', 5);
    Six(Split(data, ':', 5));
    hide Split, Join;
  }

  lemma Six(p: seq<string>)
    requires |p| == 6
    ensures p == [p[0], p[1], p[2], p[3], p[4], p[5]]
  {
  }

  predicate OneLine(s: string) { '\n' !in s }

  /** Two requests have the same canonical form only when method, path with query, body digest,
      timestamp, nonce and tenant all agree, newlines being absent from all but the tenant. */
  lemma CanonicalBindsEverything(c: Crypto, r: Request, t: string, n: string, o: string,
                                 r': Request, t': string, n': string, o': string)
    requires OneLine(r.method_) && OneLine(r.path) && OneLine(c.sha256(r.body)) && OneLine(t) && OneLine(n)
    requires OneLine(r'.method_) && OneLine(r'.path) && OneLine(c.sha256(r'.body)) && OneLine(t') && OneLine(n')
    requires Canonical(c, r, t, n, o) == Canonical(c, r', t', n', o')
    ensures Upper(r.method_) == Upper(r'.method_) && r.path == r'.path
    ensures c.sha256(r.body) == c.sha256(r'.body) && t == t' && n == n' && o == o'
  {
    var a := [Upper(r.method_), r.path, c.sha256(r.body), t, n, o];
    var b := [Upper(r'.method_), r'.path, c.sha256(r'.body), t', n', o'];
    JoinInjective(a, b, '\n');
    assert a[0] == b[0] && a[1] == b[1] && a[2] == b[2] && a[3] == b[3] && a[4] == b[4] && a[5] == b[5];
  }

  /** Different key and nonce pairs never share a nonce entry, because a key id has no colon. */
  lemma NonceKeyInjective(ak: string, nonce: string, ak': string, nonce': string)
    requires ':' !in ak && ':' !in ak'
    ensures NonceKeyV2(ak, nonce) == NonceKeyV2(ak', nonce') <==> ak == ak' && nonce == nonce'
  {
    var p := "jms-service-signature:v2:";
    if NonceKeyV2(ak, nonce) == NonceKeyV2(ak', nonce') {
      assert NonceKeyV2(ak, nonce) == p + (ak + [':'] + nonce);
      assert NonceKeyV2(ak', nonce') == p + (ak' + [':'] + nonce');
      assert NonceKeyV2(ak, nonce)[|p|..] == ak + [':'] + nonce;
      assert ak + [':'] + nonce == ak' + [':'] + nonce';
      FindAfter(ak, ':', nonce);
      FindAfter(ak', ':', nonce');
      assert (ak + [':'] + nonce)[..|ak|] == ak && (ak' + [':'] + nonce')[..|ak|] == ak';
      assert (ak + [':'] + nonce)[|ak| + 1..] == nonce && (ak' + [':'] + nonce')[|ak| + 1..] == nonce';
    }
  }

  /** The header fields of a v2 request. */
  function HeaderFields(r: Request): Option<Fields> {
    if StartsWith(r.header, "SignV2 ") then ParseV2(Strip(r.header[7..])) else None
  }

  /** An accepted v2 request carries, under the secret of an active key that the header names by its own
      id, a signature of exactly this method, path, body, timestamp, nonce and verified tenant. */
  lemma AcceptedIsBound(cfg: Config, store: Store, a: Arrival)
    requires Accepted(cfg, store, a) && StartsWith(a.r.header, "SignV2 ")
    ensures var f := HeaderFields(a.r);
            && f.Some? && ':' !in f.value.ak && cfg.lookup(f.value.ak).Found?
            && cfg.lookup(f.value.ak).key.active && cfg.lookup(f.value.ak).key.usable
            && ChecksV2(cfg, a.r, cfg.lookup(f.value.ak).key, f.value, a.now)
            && Presents(cfg, a.r, a.now) == Some(NonceKeyV2(f.value.ak, f.value.nonce))
  {
    hide ChecksV2, Strip, LegacyPresents;
    var data := Strip(a.r.header[7..]);
    SplitClean(data, ':', 5, 0);
    assert Split(data, ':', 1)[0] == data[..Find(data, ':')] == Split(data, ':', 5)[0];
  }

  lemma Assoc(a: string, b: string, c: string)
    ensures (a + b) + c == a + (b + c)
  {
  }

  /** Six lines joined by newlines, written out. */
  lemma SixLines(a: string, b: string, c: string, d: string, e: string, f: string)
    ensures Join([a, b, c, d, e, f], '\n') == a + "\n" + b + "\n" + c + "\n" + d + "\n" + e + "\n" + f
  {
    JoinStep(e, [f]);
    JoinStep(d, [e, f]);
    JoinStep(c, [d, e, f]);
    JoinStep(b, [c, d, e, f]);
    JoinStep(a, [b, c, d, e, f]);
    assert Join([f], '\n') == f;
    hide Join;
    Glue(a, b, Join([c, d, e, f], '\n'));
    Glue(a + "\n" + b, c, Join([d, e, f], '\n'));
    Glue(a + "\n" + b + "\n" + c, d, Join([e, f], '\n'));
    Glue(a + "\n" + b + "\n" + c + "\n" + d, e, f);
  }

  lemma JoinStep(a: string, rest: seq<string>)
    requires rest != []
    ensures Join([a] + rest, '\n') == a + "\n" + Join(rest, '\n')
  {
    assert ([a] + rest)[1..] == rest;
  }

  lemma Glue(a: string, b: string, c: string)
    ensures a + "\n" + (b + "\n" + c) == a + "\n" + b + "\n" + c
  {
    Assoc(a + "\n", b + "\n", c);
    Assoc(a + "\n", b, "\n");
  }

  /** The newline join of the upper-case method, path, body digest, timestamp, nonce and tenant. */
  lemma CanonicalIs(c: Crypto, r: Request, timestamp: string, nonce: string, tenant: string)
    ensures Canonical(c, r, timestamp, nonce, tenant)
            == Upper(r.method_) + "\n" + r.path + "\n" + c.sha256(r.body) + "\n"
               + timestamp + "\n" + nonce + "\n" + tenant
  {
    SixLines(Upper(r.method_), r.path, c.sha256(r.body), timestamp, nonce, tenant);
    hide Join, Upper;
  }

  /** A v2 request is accepted if and only if its header has six fields, the first being the id of an active
      key of a usable account, the algorithm and the shape of the fields are right, the timestamp is within
      30 of the truncated clock, the tenant is the bound one or "-", the signature is the keyed hash of these
      very lines under the key's secret, and the nonce of the key is free. */
  lemma AcceptedV2Iff(cfg: Config, store: Store, a: Arrival)
    requires StartsWith(a.r.header, "SignV2 ")
    ensures Accepted(cfg, store, a) <==>
            && HeaderFields(a.r).Some?
            && var f := HeaderFields(a.r).value;
               && f.ak != "" && cfg.lookup(f.ak).Found?
               && var key := cfg.lookup(f.ak).key;
                  && key.id == f.ak && key.active && key.usable
                  && Lower(f.algorithm) == "hmac-sha256"
                  && Digits(f.timestamp) && f.nonce != "" && f.tenant != "" && f.signature != ""
                  && ToNat(f.timestamp) - 30 <= a.now.Floor <= ToNat(f.timestamp) + 30
                  && (if a.r.tenant.Some? then f.tenant == a.r.tenant.value else f.tenant == "-")
                  && Lower(f.signature) == cfg.crypto.hmac(key.secret,
                       Upper(a.r.method_) + "\n" + a.r.path + "\n" + cfg.crypto.sha256(a.r.body) + "\n"
                       + f.timestamp + "\n" + f.nonce + "\n" + f.tenant)
                  && var entry := "jms-service-signature:v2:" + f.ak + ":" + f.nonce;
                     entry in store ==> store[entry] <= a.added
  {
    hide Presents, HeaderFields, ChecksV2, Digits, ToNat, Lower, Upper;
    PresentsV2(cfg, a.r, a.now);
    if HeaderFields(a.r).Some? && cfg.lookup(HeaderFields(a.r).value.ak).Found? {
      var f := HeaderFields(a.r).value;
      ChecksAre(cfg, a.r, cfg.lookup(f.ak).key, f, a.now);
    }
  }

  lemma PresentsV2(cfg: Config, r: Request, now: real)
    requires StartsWith(r.header, "SignV2 ")
    ensures Presents(cfg, r, now) ==
            var f := HeaderFields(r);
            if f.Some? && f.value.ak != "" && cfg.lookup(f.value.ak).Found?
               && cfg.lookup(f.value.ak).key.active && cfg.lookup(f.value.ak).key.usable
               && ChecksV2(cfg, r, cfg.lookup(f.value.ak).key, f.value, now)
            then Some(NonceKeyV2(f.value.ak, f.value.nonce)) else None
  {
    hide Strip, LegacyPresents, ChecksV2, Split, Find, KeyId, ParseV2;
    HeaderNamesKey(r);
  }

  lemma ChecksAre(cfg: Config, r: Request, key: AccessKey, f: Fields, now: real)
    ensures ChecksV2(cfg, r, key, f, now) <==>
            && key.id == f.ak
            && Lower(f.algorithm) == "hmac-sha256"
            && Digits(f.timestamp) && f.nonce != "" && f.tenant != "" && f.signature != ""
            && ToNat(f.timestamp) - 30 <= now.Floor <= ToNat(f.timestamp) + 30
            && (if r.tenant.Some? then f.tenant == r.tenant.value else f.tenant == "-")
            && Lower(f.signature) == cfg.crypto.hmac(key.secret,
                 Upper(r.method_) + "\n" + r.path + "\n" + cfg.crypto.sha256(r.body) + "\n"
                 + f.timestamp + "\n" + f.nonce + "\n" + f.tenant)
  {
    hide Canonical, Upper, Lower, ToNat;
    CanonicalIs(cfg.crypto, r, f.timestamp, f.nonce, f.tenant);
  }

  /** The key that a v2 header is looked up by is its first field. */
  lemma HeaderNamesKey(r: Request)
    requires StartsWith(r.header, "SignV2 ")
    ensures HeaderFields(r).Some? ==>
              var ak := HeaderFields(r).value.ak;
              if ak == "" then DataOf(r.header) == None
              else DataOf(r.header) == Some(Strip(r.header[7..])) && KeyId(Strip(r.header[7..])) == ak
    ensures HeaderFields(r).None? && DataOf(r.header).Some? ==> ParseV2(DataOf(r.header).value) == None
  {
    hide Strip;
    var data := Strip(r.header[7..]);
    assert Split(data, ':', 1)[0] == data[..Find(data, ':')] == Split(data, ':', 5)[0];
  }

  /** The query for the access key raises if and only if the header names one, before the first colon, that is no
      key's id in form. */
  lemma LookupRaisesIff(cfg: Config, r: Request)
    ensures var data := if StartsWith(r.header, "SignV2 ") then Strip(r.header[7..])
                        else if StartsWith(r.header, "Sign ") then Strip(r.header[5..]) else "";
            var i := Find(data, ':');
            LookupRaises(cfg, r) <==> 0 < i < |data| && cfg.lookup(data[..i]).Malformed?
  {
    hide Strip;
    var data := if StartsWith(r.header, "SignV2 ") then Strip(r.header[7..])
                else if StartsWith(r.header, "Sign ") then Strip(r.header[5..]) else "";
    var i := Find(data, ':');
    FindIs(data, ':');
    assert i < |data| ==> Split(data, ':', 1)[0] == data[..i];
    hide Split, Find;
  }

  /** A legacy request is accepted if and only if legacy signatures are allowed, the header names an active
      key of a usable account, what follows decrypts under its secret to a timestamp within 30 of the
      truncated clock, and it has not been used. */
  lemma AcceptedLegacyIff(cfg: Config, store: Store, a: Arrival)
    requires StartsWith(a.r.header, "Sign ")
    ensures var data := Strip(a.r.header[5..]);
            var i := Find(data, ':');
            Accepted(cfg, store, a) <==>
            && cfg.allowLegacy && 0 < i < |data| && cfg.lookup(data[..i]).Found?
            && var key := cfg.lookup(data[..i]).key;
               var clear := cfg.crypto.decrypt(key.secret, data[i + 1..]);
               && key.active && key.usable
               && clear.Some? && Digits(clear.value)
               && ToNat(clear.value) - 30 <= a.now.Floor <= ToNat(clear.value) + 30
               && var entry := "jms-service-signature:" + data[..i] + ":" + data[i + 1..];
                  entry in store ==> store[entry] <= a.added
  {
    hide Strip, ToNat, ParseV2, ChecksV2;
    assert a.r.header[4] == ' ' && !StartsWith(a.r.header, "SignV2 ");
    var data := Strip(a.r.header[5..]);
    var i := Find(data, ':');
    FindIs(data, ':');
    assert i < |data| ==> Split(data, ':', 1)[0] == data[..i];
    hide Split, Find;
  }

  lemma FindIs(s: string, c: char)
    ensures Find(s, c) < |s| <==> c in s
  {
    var i := Find(s, c);
    if i == |s| { assert s[..i] == s; }
  }

  // ---------- Replay, over whole runs ----------

  /** Nonces are added in order of time, each at most `delay` after its window was checked. */
  predicate Timed(run: seq<Arrival>, delay: real) {
    && (forall i | 0 <= i < |run| :: run[i].now <= run[i].added <= run[i].now + delay)
    && (forall i, j | 0 <= i < j < |run| :: run[i].added <= run[j].added)
  }

  /** The store before arrival i of a run that starts with the given store. */
  function StoreAt(cfg: Config, store: Store, run: seq<Arrival>, i: nat): Store
    requires i <= |run|
  {
    if i == 0 then store else StoreAfter(cfg, StoreAt(cfg, store, run, i - 1), run[i - 1])
  }

  predicate AcceptedAt(cfg: Config, store: Store, run: seq<Arrival>, i: nat)
    requires i < |run|
  {
    Accepted(cfg, StoreAt(cfg, store, run, i), run[i])
  }

  /** Once consumed, a nonce entry only ever moves later. */
  lemma {:induction false} EntryStays(cfg: Config, store: Store, run: seq<Arrival>, i: nat, j: nat, k: string,
                                      delay: real)
    requires Timed(run, delay) && i < j <= |run|
    requires AcceptedAt(cfg, store, run, i) && Presents(cfg, run[i].r, run[i].now) == Some(k)
    ensures k in StoreAt(cfg, store, run, j) && run[i].added + 31.0 <= StoreAt(cfg, store, run, j)[k]
    decreases j
  {
    hide Presents;
    if j > i + 1 { EntryStays(cfg, store, run, i, j - 1, k, delay); }
  }

  /** In every run, two accepted requests that present the same nonce entry are added at least 31 seconds
      apart. */
  lemma ReplaySpacing(cfg: Config, store: Store, run: seq<Arrival>, i: nat, j: nat, delay: real)
    requires Timed(run, delay) && i < j < |run|
    requires AcceptedAt(cfg, store, run, i) && AcceptedAt(cfg, store, run, j)
    requires Presents(cfg, run[i].r, run[i].now) == Presents(cfg, run[j].r, run[j].now)
    ensures run[i].added + 31.0 <= run[j].added
  {
    hide Presents;
    EntryStays(cfg, store, run, i, j, Presents(cfg, run[i].r, run[i].now).value, delay);
  }

  /** The same access key, timestamp and nonce, in whatever spelling of the rest of the header. */
  predicate SameSigned(r: Request, r': Request) {
    var f, f' := HeaderFields(r), HeaderFields(r');
    && f.Some? && f'.Some?
    && f.value.ak == f'.value.ak && f.value.timestamp == f'.value.timestamp && f.value.nonce == f'.value.nonce
  }

  /** The same, said about access key and nonce. */
  lemma NonceSpacing(cfg: Config, store: Store, run: seq<Arrival>, i: nat, j: nat, delay: real)
    requires Timed(run, delay) && i < j < |run|
    requires AcceptedAt(cfg, store, run, i) && AcceptedAt(cfg, store, run, j)
    requires HeaderFields(run[i].r).Some? && HeaderFields(run[j].r).Some?
    requires HeaderFields(run[i].r).value.ak == HeaderFields(run[j].r).value.ak
    requires HeaderFields(run[i].r).value.nonce == HeaderFields(run[j].r).value.nonce
    ensures run[i].added + 31.0 <= run[j].added
  {
    hide Presents, ChecksV2, ParseV2;
    AcceptedIsBound(cfg, StoreAt(cfg, store, run, i), run[i]);
    AcceptedIsBound(cfg, StoreAt(cfg, store, run, j), run[j]);
    ReplaySpacing(cfg, store, run, i, j, delay);
  }

  /** The timestamp a v2 header carries. */
  function Stamp(r: Request): nat {
    var f := HeaderFields(r);
    if f.Some? && Digits(f.value.timestamp) then ToNat(f.value.timestamp) else 0
  }

  /** The window in real time. */
  lemma AcceptedInWindow(cfg: Config, store: Store, a: Arrival)
    requires Accepted(cfg, store, a) && StartsWith(a.r.header, "SignV2 ")
    ensures HeaderFields(a.r).Some? && Digits(HeaderFields(a.r).value.timestamp)
    ensures Stamp(a.r) as real - 30.0 <= a.now < Stamp(a.r) as real + 31.0
  {
    hide Presents, HeaderFields, ToNat;
    AcceptedIsBound(cfg, store, a);
    WindowIs(a.now, Stamp(a.r));
  }

  lemma WindowIs(now: real, stamp: nat)
    ensures Abs(now.Floor - stamp) <= WindowSeconds <==> stamp as real - 30.0 <= now < stamp as real + 31.0
  {
    assert now.Floor as real <= now < now.Floor as real + 1.0;
  }

  /** Positions of a run at which one signed request is accepted, in order. */
  predicate AcceptedAll(cfg: Config, store: Store, run: seq<Arrival>, at: seq<nat>) {
    && (forall n | 0 <= n < |at| :: at[n] < |run| && AcceptedAt(cfg, store, run, at[n]))
    && (forall m, n | 0 <= m < n < |at| :: at[m] < at[n])
    && (forall n | 0 <= n < |at| :: SameSigned(run[at[0]].r, run[at[n]].r))
  }

  lemma {:induction false} SpacingAdds(cfg: Config, store: Store, run: seq<Arrival>, delay: real, at: seq<nat>, n: nat)
    requires Timed(run, delay) && AcceptedAll(cfg, store, run, at) && n < |at|
    ensures run[at[0]].added + 31.0 * n as real <= run[at[n]].added
    decreases n
  {
    hide AcceptedAt, HeaderFields, Timed;
    if n > 0 {
      SpacingAdds(cfg, store, run, delay, at, n - 1);
      assert SameSigned(run[at[0]].r, run[at[n - 1]].r) && SameSigned(run[at[0]].r, run[at[n]].r);
      NonceSpacing(cfg, store, run, at[n - 1], at[n], delay);
    }
  }

  /** How often one signed request can be accepted, whatever else arrives: m acceptances need the 61
      seconds of its window, and the delay, to hold m - 1 nonce lifetimes. */
  lemma AcceptancesBounded(cfg: Config, store: Store, run: seq<Arrival>, delay: real, at: seq<nat>)
    requires Timed(run, delay) && AcceptedAll(cfg, store, run, at) && at != []
    requires StartsWith(run[at[0]].r.header, "SignV2 ")
    ensures 31.0 * (|at| - 1) as real < 61.0 + delay
  {
    var n := |at| - 1;
    SpacingAdds(cfg, store, run, delay, at, n);
    assert SameSigned(run[at[0]].r, run[at[n]].r);
    V2Header(run[at[n]].r);
    AcceptedInWindow(cfg, StoreAt(cfg, store, run, at[0]), run[at[0]]);
    AcceptedInWindow(cfg, StoreAt(cfg, store, run, at[n]), run[at[n]]);
    assert Stamp(run[at[0]].r) == Stamp(run[at[n]].r);
    assert run[at[n]].added <= run[at[n]].now + delay && run[at[0]].now <= run[at[0]].added;
  }

  lemma V2Header(r: Request)
    requires HeaderFields(r).Some?
    ensures StartsWith(r.header, "SignV2 ")
  {
  }

  /** So with delays up to a second it is never accepted three times. */
  lemma AcceptedAtMostTwice(cfg: Config, store: Store, run: seq<Arrival>, delay: real, at: seq<nat>)
    requires Timed(run, delay) && delay <= 1.0 && AcceptedAll(cfg, store, run, at) && at != []
    requires StartsWith(run[at[0]].r.header, "SignV2 ")
    ensures |at| <= 2
  {
    AcceptancesBounded(cfg, store, run, delay, at);
  }

  /** No continuation after an acceptance accepts the same signed request again. */
  ghost predicate NeverAgain(cfg: Config, store: Store, a: Arrival, delay: real) {
    forall run: seq<Arrival>, i: nat ::
      i < |run| && Timed(run, delay) && run[0].added >= a.added && SameSigned(a.r, run[i].r)
      ==> !AcceptedAt(cfg, StoreAfter(cfg, store, a), run, i)
  }

  /** A first arrival and the run after it, as one run. */
  lemma WholeRun(cfg: Config, store: Store, a: Arrival, run: seq<Arrival>, i: nat, delay: real)
    requires i < |run| && Timed(run, delay) && run[0].added >= a.added && a.now <= a.added <= a.now + delay
    ensures var whole := [a] + run;
            && Timed(whole, delay) && whole[0] == a && whole[i + 1] == run[i]
            && AcceptedAt(cfg, store, whole, 0) == Accepted(cfg, store, a)
            && AcceptedAt(cfg, store, whole, i + 1) == AcceptedAt(cfg, StoreAfter(cfg, store, a), run, i)
  {
    hide Accepted, StoreAfter;
    ShiftStore(cfg, store, a, run, i);
  }

  lemma {:induction false} ShiftStore(cfg: Config, store: Store, a: Arrival, run: seq<Arrival>, k: nat)
    requires k <= |run|
    ensures StoreAt(cfg, store, [a] + run, k + 1) == StoreAt(cfg, StoreAfter(cfg, store, a), run, k)
  {
    hide StoreAfter;
    if k > 0 {
      ShiftStore(cfg, store, a, run, k - 1);
      assert ([a] + run)[k] == run[k - 1];
    } else {
      assert StoreAt(cfg, store, [a] + run, 0) == store;
    }
  }

  lemma SingleUse(cfg: Config, store: Store, a: Arrival, delay: real, run: seq<Arrival>, i: nat)
    requires Accepted(cfg, store, a) && StartsWith(a.r.header, "SignV2 ") && a.now <= a.added <= a.now + delay
    requires a.added >= Stamp(a.r) as real + delay
    requires i < |run| && Timed(run, delay) && run[0].added >= a.added && SameSigned(a.r, run[i].r)
    ensures !AcceptedAt(cfg, StoreAfter(cfg, store, a), run, i)
  {
    var store1 := StoreAfter(cfg, store, a);
    if AcceptedAt(cfg, store1, run, i) {
      WholeRun(cfg, store, a, run, i, delay);
      V2Header(run[i].r);
      AcceptedInWindow(cfg, StoreAt(cfg, store1, run, i), run[i]);
      assert Stamp(run[i].r) == Stamp(a.r);
      assert run[i].added <= run[i].now + delay;
      var whole := [a] + run;
      hide Presents, HeaderFields, AcceptedAt, StoreAfter, Stamp, Timed;
      NonceSpacing(cfg, store, whole, 0, i + 1, delay);
      assert false;
    }
  }

  /** Time matters to the checks only through the clock window. */
  lemma PresentsLater(cfg: Config, r: Request, now: real, t: real)
    requires Presents(cfg, r, now).Some? && StartsWith(r.header, "SignV2 ")
    requires HeaderFields(r).Some? && Digits(HeaderFields(r).value.timestamp)
    ensures Presents(cfg, r, t)
            == if InWindow(t, HeaderFields(r).value.timestamp) then Presents(cfg, r, now) else None
  {
    hide Split, Strip, Find, Lower, Join, ToNat, InWindow;
  }

  /** When to come again: check as late as the window allows, add once the nonce has expired. */
  lemma ReplayTimes(first: real, stamp: nat, delay: real) returns (now: real, added: real)
    requires first < stamp as real + delay && 0.0 <= delay
    ensures now <= added <= now + delay && first + 31.0 <= added
    ensures Abs(now.Floor - stamp) <= WindowSeconds
  {
    now := if first + 31.0 - delay > stamp as real + 30.0 then first + 31.0 - delay else stamp as real + 30.0;
    added := if first + 31.0 > now then first + 31.0 else now;
    WindowIs(now, stamp);
  }

  lemma AcceptedAgain(cfg: Config, store: Store, a: Arrival, again: Arrival)
    requires Accepted(cfg, store, a) && a.added + 31.0 <= again.added
    requires Presents(cfg, again.r, again.now) == Presents(cfg, a.r, a.now)
    ensures AcceptedAt(cfg, StoreAfter(cfg, store, a), [again], 0)
  {
    hide Presents;
    assert StoreAt(cfg, StoreAfter(cfg, store, a), [again], 0) == StoreAfter(cfg, store, a);
  }

  lemma AcceptedPresents(cfg: Config, store: Store, a: Arrival)
    requires Accepted(cfg, store, a)
    ensures Presents(cfg, a.r, a.now).Some?
  {
  }

  /** Otherwise it can be replayed once its nonce has expired, having been checked within the window. */
  lemma ReplayedOnce(cfg: Config, store: Store, a: Arrival, delay: real) returns (again: Arrival)
    requires Accepted(cfg, store, a) && StartsWith(a.r.header, "SignV2 ") && a.now <= a.added <= a.now + delay
    requires a.added < Stamp(a.r) as real + delay
    ensures again.r == a.r && Timed([again], delay) && again.added >= a.added
    ensures AcceptedAt(cfg, StoreAfter(cfg, store, a), [again], 0)
  {
    hide Presents, HeaderFields, Digits, ToNat, Accepted, StoreAfter, AcceptedAt;
    AcceptedInWindow(cfg, store, a);
    AcceptedPresents(cfg, store, a);
    var now, added := ReplayTimes(a.added, Stamp(a.r), delay);
    again := Arrival(a.r, now, added);
    PresentsLater(cfg, a.r, a.now, now);
    AcceptedAgain(cfg, store, a, again);
  }

  /** With delays up to some bound between check and nonce, a signed request is consumed once, as
      documented, exactly when its nonce was added no earlier than that bound after its timestamp; without
      delays, when its timestamp was not ahead of the clock. */
  lemma ConsumedOnceIff(cfg: Config, store: Store, a: Arrival, delay: real)
    requires Accepted(cfg, store, a) && StartsWith(a.r.header, "SignV2 ") && a.now <= a.added <= a.now + delay
    ensures HeaderFields(a.r).Some? && Digits(HeaderFields(a.r).value.timestamp)
    ensures NeverAgain(cfg, store, a, delay) <==> a.added >= Stamp(a.r) as real + delay
  {
    hide Presents, ParseV2, Accepted, StoreAfter;
    AcceptedInWindow(cfg, store, a);
    if a.added >= Stamp(a.r) as real + delay {
      forall run: seq<Arrival>, i: nat
        | i < |run| && Timed(run, delay) && run[0].added >= a.added && SameSigned(a.r, run[i].r)
        ensures !AcceptedAt(cfg, StoreAfter(cfg, store, a), run, i)
      {
        SingleUse(cfg, store, a, delay, run, i);
      }
    } else {
      var again := ReplayedOnce(cfg, store, a, delay);
      assert SameSigned(a.r, [again][0].r);
      assert !NeverAgain(cfg, store, a, delay);
    }
  }

  /** A refused request leaves the nonce store as it was; an accepted one adds its own entry only. */
  lemma OnlyAcceptanceConsumes(cfg: Config, store: Store, a: Arrival, k: string)
    ensures var s := StoreAfter(cfg, store, a);
            if Accepted(cfg, store, a) && Presents(cfg, a.r, a.now) == Some(k)
            then k in s && s[k] == a.added + 31.0 && !CanAdd(s, k, a.added)
            else (k in s <==> k in store) && (k in s ==> s[k] == store[k])
  {
  }
}
