// Request authentication of the ingestion service, with its replay table that is purged over time.
//
// Digest, canonical message, signature verification and integer parsing are arbitrary functions; the
// clock is an input that never runs backwards.
module Replay {
  import opened Basics

  type Bytes = seq<bv8>

  datatype Headers = Headers(
    tenant: Option<string>,
    node: Option<string>,
    keyId: Option<string>,
    timestamp: Option<string>,
    nonce: Option<string>,
    digest: Option<string>,
    signature: Option<string>)

  datatype Request = Request(headers: Headers, verb: string, target: string, body: Bytes)

  // What a signature covers.
  datatype Message = Message(
    tenant: string, node: string, keyId: string, verb: string, target: string,
    timestamp: string, nonce: string, digest: string)

  datatype Crypto = Crypto(
    digest: Bytes -> string,
    upper: string -> string,
    verify: (string, Message, string) -> bool,
    parseTime: string -> Option<int>)

  datatype Credential = Credential(publicKey: string, status: string, expiresAt: Option<real>)

  // Tenants by id with their status, credentials by (tenant, node, key id).
  datatype Directory = Directory(tenants: map<Id, string>, credentials: map<(Id, Id, string), Credential>)

  datatype Config = Config(skew: int, retention: int)

  datatype Code =
    | Ok | MissingAuthHeader | UnknownTenant | UnknownKeyId | KeyRevoked | KeyExpired
    | BadTimestamp | TimestampOutOfWindow | BodyDigestMismatch | InvalidSignature | NonceReplayed

  type Nonces = map<(Id, Id, string), real>

  predicate Present(h: Option<string>) { h.Some? && h.value != "" }

  predicate AllPresent(h: Headers) {
    && Present(h.tenant) && Present(h.node) && Present(h.keyId) && Present(h.timestamp)
    && Present(h.nonce) && Present(h.digest) && Present(h.signature)
  }

  function MessageOf(cr: Crypto, r: Request): Message
    requires AllPresent(r.headers)
  {
    var h := r.headers;
    Message(h.tenant.value, h.node.value, h.keyId.value, cr.upper(r.verb), r.target, h.timestamp.value, h.nonce.value,
            h.digest.value)
  }

  function NonceKey(r: Request): (Id, Id, string)
    requires AllPresent(r.headers)
  {
    (r.headers.tenant.value, r.headers.node.value, r.headers.nonce.value)
  }

  // Every check but the replay table's.
  function Admit(cfg: Config, cr: Crypto, dir: Directory, now: real, r: Request): Code {
    if !AllPresent(r.headers) then MissingAuthHeader
    else
      var h := r.headers;
      var key := (h.tenant.value, h.node.value, h.keyId.value);
      if h.tenant.value !in dir.tenants || dir.tenants[h.tenant.value] != "active" then UnknownTenant
      else if key !in dir.credentials then UnknownKeyId
      else if dir.credentials[key].status != "active" then KeyRevoked
      else if dir.credentials[key].expiresAt.Some? && dir.credentials[key].expiresAt.value < now then KeyExpired
      else
        var ts := cr.parseTime(h.timestamp.value);
        if ts.None? then BadTimestamp
        else if Abs(now - ts.value as real) > cfg.skew as real then TimestampOutOfWindow
        else if h.digest.value != cr.digest(r.body) then BodyDigestMismatch
        else if !cr.verify(dir.credentials[key].publicKey, MessageOf(cr, r), h.signature.value) then InvalidSignature
        else Ok
  }

  function Purge(ns: Nonces, now: real): Nonces {
    map k | k in ns && ns[k] >= now :: ns[k]
  }

  function Authenticate(cfg: Config, cr: Crypto, dir: Directory, ns: Nonces, now: real, r: Request): (Nonces, Code) {
    var code := Admit(cfg, cr, dir, now, r);
    if code != Ok then (ns, code)
    else if NonceKey(r) in ns then (ns, NonceReplayed)
    else (Purge(ns[NonceKey(r) := now + cfg.retention as real], now), Ok)
  }

  // -- what the answers mean ------------------------------------------------------------------------

  function Text(h: Option<string>): string { if h.Some? then h.value else "" }

  // The condition whose failure the code reports.
  ghost predicate Passes(cfg: Config, cr: Crypto, dir: Directory, ns: Nonces, now: real, r: Request, c: Code) {
    var h := r.headers;
    var tenant, node, keyId, ts, nonce := Text(h.tenant), Text(h.node), Text(h.keyId), Text(h.timestamp), Text(h.nonce);
    var key, time := (tenant, node, keyId), cr.parseTime(ts);
    match c
    case MissingAuthHeader => "" !in {tenant, node, keyId, ts, nonce, Text(h.digest), Text(h.signature)}
    case UnknownTenant => tenant in dir.tenants && dir.tenants[tenant] == "active"
    case UnknownKeyId => key in dir.credentials
    case KeyRevoked => key in dir.credentials && dir.credentials[key].status == "active"
    case KeyExpired =>
      key in dir.credentials && (dir.credentials[key].expiresAt.Some? ==> dir.credentials[key].expiresAt.value >= now)
    case BadTimestamp => time.Some?
    case TimestampOutOfWindow =>
      time.Some? && time.value as real - cfg.skew as real <= now <= time.value as real + cfg.skew as real
    case BodyDigestMismatch => Text(h.digest) == cr.digest(r.body)
    case InvalidSignature =>
      && key in dir.credentials
      && cr.verify(dir.credentials[key].publicKey,
                   Message(tenant, node, keyId, cr.upper(r.verb), r.target, ts, nonce, Text(h.digest)),
                   Text(h.signature))
    case NonceReplayed => (tenant, node, nonce) !in ns
    case Ok => true
  }

  // The checks are made in this order.
  function Place(c: Code): nat {
    match c
    case MissingAuthHeader => 0 case UnknownTenant => 1 case UnknownKeyId => 2 case KeyRevoked => 3
    case KeyExpired => 4 case BadTimestamp => 5 case TimestampOutOfWindow => 6 case BodyDigestMismatch => 7
    case InvalidSignature => 8 case NonceReplayed => 9 case Ok => 10
  }

  // The code of the first check that fails, Ok if none does.
  ghost predicate IsFirstFailure(cfg: Config, cr: Crypto, dir: Directory, ns: Nonces, now: real, r: Request, c: Code) {
    && (c != Ok ==> !Passes(cfg, cr, dir, ns, now, r, c))
    && forall d: Code :: Place(d) < Place(c) ==> Passes(cfg, cr, dir, ns, now, r, d)
  }

  // The table after an accept: the new nonce with its expiry, and of the old ones those that have not expired.
  ghost predicate Remembers(cfg: Config, ns: Nonces, now: real, r: Request, after: Nonces) {
    var key := (Text(r.headers.tenant), Text(r.headers.node), Text(r.headers.nonce));
    var expiry := now + cfg.retention as real;
    forall k :: if k == key then (k in after <==> expiry >= now) && (k in after ==> after[k] == expiry)
                else (k in after <==> k in ns && ns[k] >= now) && (k in after ==> after[k] == ns[k])
  }

  lemma EarlierChecksPass(cfg: Config, cr: Crypto, dir: Directory, ns: Nonces, now: real, r: Request, d: Code)
    ensures var c := Authenticate(cfg, cr, dir, ns, now, r).1;
      && (Place(d) < Place(c) ==> Passes(cfg, cr, dir, ns, now, r, d))
      && (d == c && c != Ok ==> !Passes(cfg, cr, dir, ns, now, r, d))
  {
    var h, admitted := r.headers, Admit(cfg, cr, dir, now, r);
    if admitted != MissingAuthHeader {
      assert Text(h.tenant) == h.tenant.value && Text(h.node) == h.node.value && Text(h.nonce) == h.nonce.value;
    }
  }

  // The answer to a request is Ok exactly when every check passes, and else the code of the first that does
  // not. Only an accept changes the table.
  lemma AnswerIsFirstFailure(cfg: Config, cr: Crypto, dir: Directory, ns: Nonces, now: real, r: Request, code: Code)
    ensures Authenticate(cfg, cr, dir, ns, now, r).1 == code <==> IsFirstFailure(cfg, cr, dir, ns, now, r, code)
    ensures var (after, c) := Authenticate(cfg, cr, dir, ns, now, r);
      if c == Ok then Remembers(cfg, ns, now, r, after) else after == ns
  {
    var c := Authenticate(cfg, cr, dir, ns, now, r).1;
    forall d: Code | Place(d) <= Place(c)
      ensures Place(d) < Place(c) ==> Passes(cfg, cr, dir, ns, now, r, d)
      ensures d == c && c != Ok ==> !Passes(cfg, cr, dir, ns, now, r, d)
    {
      EarlierChecksPass(cfg, cr, dir, ns, now, r, d);
    }
    assert IsFirstFailure(cfg, cr, dir, ns, now, r, c);
    if IsFirstFailure(cfg, cr, dir, ns, now, r, code) {
      OnlyOneIsFirst(cfg, cr, dir, ns, now, r, c, code);
    }
  }

  lemma OnlyOneIsFirst(cfg: Config, cr: Crypto, dir: Directory, ns: Nonces, now: real, r: Request, c: Code, d: Code)
    requires IsFirstFailure(cfg, cr, dir, ns, now, r, c) && IsFirstFailure(cfg, cr, dir, ns, now, r, d)
    ensures c == d
  {
    assert Place(c) < Place(d) ==> Passes(cfg, cr, dir, ns, now, r, c);
    assert Place(d) < Place(c) ==> Passes(cfg, cr, dir, ns, now, r, d);
  }

  // The service's table, updated in place.
  class Authenticator {
    const cfg: Config
    const cr: Crypto
    var directory: Directory
    var nonces: Nonces

    constructor (cfg: Config, cr: Crypto, directory: Directory)
      ensures this.cfg == cfg && this.cr == cr && this.directory == directory && nonces == map[]
    {
      this.cfg, this.cr, this.directory, nonces := cfg, cr, directory, map[];
    }

    method AuthenticateRequest(now: real, r: Request) returns (code: Code)
      modifies `nonces
      ensures (nonces, code) == Authenticate(cfg, cr, directory, old(nonces), now, r)
      ensures IsFirstFailure(cfg, cr, directory, old(nonces), now, r, code)
      ensures if code == Ok then Remembers(cfg, old(nonces), now, r, nonces) else nonces == old(nonces)
    {
      AnswerIsFirstFailure(cfg, cr, directory, nonces, now, r, Authenticate(cfg, cr, directory, nonces, now, r).1);
      var h := r.headers;
      if !AllPresent(h) {
        return MissingAuthHeader;
      }
      if h.tenant.value !in directory.tenants || directory.tenants[h.tenant.value] != "active" {
        return UnknownTenant;
      }
      var key := (h.tenant.value, h.node.value, h.keyId.value);
      if key !in directory.credentials {
        return UnknownKeyId;
      }
      var cred := directory.credentials[key];
      if cred.status != "active" {
        return KeyRevoked;
      }
      if cred.expiresAt.Some? && cred.expiresAt.value < now {
        return KeyExpired;
      }
      var ts := cr.parseTime(h.timestamp.value);
      if ts.None? {
        return BadTimestamp;
      }
      if Abs(now - ts.value as real) > cfg.skew as real {
        return TimestampOutOfWindow;
      }
      if h.digest.value != cr.digest(r.body) {
        return BodyDigestMismatch;
      }
      if !cr.verify(cred.publicKey, MessageOf(cr, r), h.signature.value) {
        return InvalidSignature;
      }
      if NonceKey(r) in nonces {
        return NonceReplayed;
      }
      nonces := nonces[NonceKey(r) := now + cfg.retention as real];
      nonces := map k | k in nonces && nonces[k] >= now :: nonces[k];
      return Ok;
    }
  }

  // -- whole runs -------------------------------------------------------------------------------------

  // One request, at a time and with whatever tenants and credentials administrators have left.
  datatype Call = Call(now: real, dir: Directory, request: Request)

  ghost predicate Ordered(calls: seq<Call>) {
    forall i, j :: 0 <= i < j < |calls| ==> calls[i].now <= calls[j].now
  }

  ghost function Table(cfg: Config, cr: Crypto, calls: seq<Call>, n: nat): Nonces
    requires n <= |calls|
  {
    if n == 0 then map[]
    else Authenticate(cfg, cr, calls[n - 1].dir, Table(cfg, cr, calls, n - 1), calls[n - 1].now, calls[n - 1].request).0
  }

  ghost predicate Accepted(cfg: Config, cr: Crypto, calls: seq<Call>, n: nat)
    requires n < |calls|
  {
    Authenticate(cfg, cr, calls[n].dir, Table(cfg, cr, calls, n), calls[n].now, calls[n].request).1 == Ok
  }

  lemma AcceptedMeans(cfg: Config, cr: Crypto, calls: seq<Call>, n: nat)
    requires n < |calls| && Accepted(cfg, cr, calls, n)
    ensures var r := calls[n].request;
      && AllPresent(r.headers)
      && NonceKey(r) !in Table(cfg, cr, calls, n)
      && cr.parseTime(r.headers.timestamp.value).Some?
      && Abs(calls[n].now - cr.parseTime(r.headers.timestamp.value).value as real) <= cfg.skew as real
  {
  }

  // What one call does to the entry of one nonce.
  lemma EntryAfter(cfg: Config, cr: Crypto, dir: Directory, ns: Nonces, now: real, r: Request, k: (Id, Id, string))
    ensures var (after, code) := Authenticate(cfg, cr, dir, ns, now, r);
      && (code == Ok ==> AllPresent(r.headers))
      && (k in ns && ns[k] >= now ==> k in after && after[k] == ns[k])
      && (code == Ok && NonceKey(r) == k && cfg.retention >= 0 ==>
            k in after && after[k] == now + cfg.retention as real)
      && (code == Ok && k in after ==> after[k] >= now)
      && (k in after ==>
            || (k in ns && after[k] == ns[k])
            || (code == Ok && NonceKey(r) == k && after[k] == now + cfg.retention as real))
  {
  }

  // An accepted nonce stays in the table until its retention has passed.
  lemma {:induction false} NonceStays(cfg: Config, cr: Crypto, calls: seq<Call>, i: nat, j: nat)
    requires Ordered(calls) && i < j <= |calls| && Accepted(cfg, cr, calls, i)
    requires calls[j - 1].now <= calls[i].now + cfg.retention as real
    ensures AllPresent(calls[i].request.headers)
    ensures NonceKey(calls[i].request) in Table(cfg, cr, calls, j)
    ensures Table(cfg, cr, calls, j)[NonceKey(calls[i].request)] == calls[i].now + cfg.retention as real
  {
    AcceptedMeans(cfg, cr, calls, i);
    var k, c := NonceKey(calls[i].request), calls[j - 1];
    assert calls[i].now <= c.now;
    EntryAfter(cfg, cr, c.dir, Table(cfg, cr, calls, j - 1), c.now, c.request, k);
    if i < j - 1 {
      assert calls[j - 2].now <= c.now;
      NonceStays(cfg, cr, calls, i, j - 1);
    }
  }

  // Two requests are the same signed request when a signature of one covers the other.
  ghost predicate SameMessage(cr: Crypto, a: Request, b: Request) {
    AllPresent(a.headers) && AllPresent(b.headers) && MessageOf(cr, a) == MessageOf(cr, b)
  }

  // When the retention is at least twice the clock skew no signed request is accepted twice.
  lemma NeverTwice(cfg: Config, cr: Crypto, calls: seq<Call>, i: nat, j: nat)
    requires cfg.skew < 0 || cfg.retention >= 2 * cfg.skew
    requires Ordered(calls) && i < j < |calls|
    requires Accepted(cfg, cr, calls, i) && Accepted(cfg, cr, calls, j)
    ensures !SameMessage(cr, calls[i].request, calls[j].request)
  {
    if SameMessage(cr, calls[i].request, calls[j].request) {
      AcceptedMeans(cfg, cr, calls, i);
      AcceptedMeans(cfg, cr, calls, j);
      assert calls[j].now <= calls[i].now + (2 * cfg.skew) as real;
      assert calls[j - 1].now <= calls[j].now;
      NonceStays(cfg, cr, calls, i, j);
    }
  }

  ghost predicate ReplaySafe(cfg: Config) {
    forall cr: Crypto, calls: seq<Call>, i: nat, j: nat ::
      (Ordered(calls) && i < j < |calls| && Accepted(cfg, cr, calls, i) && Accepted(cfg, cr, calls, j)) ==>
        !SameMessage(cr, calls[i].request, calls[j].request)
  }

  // Everything is signed, and every timestamp reads as 0.
  function Lenient(): Crypto { Crypto(_ => "d", s => s, (_, _, _) => true, _ => Some(0)) }

  function OneKey(): Directory {
    Directory(map["t" := "active"], map[("t", "n", "k") := Credential("p", "active", None)])
  }

  function Signed(nonce: string): Request {
    Request(Headers(Some("t"), Some("n"), Some("k"), Some("0"), Some(nonce), Some("d"), Some("s")), "POST", "/", [])
  }

  lemma LenientAccepts(cfg: Config, ns: Nonces, now: real, nonce: string)
    requires nonce != "" && Abs(now) <= cfg.skew as real && ("t", "n", nonce) !in ns
    ensures Authenticate(cfg, Lenient(), OneKey(), ns, now, Signed(nonce))
      == (Purge(ns[("t", "n", nonce) := now + cfg.retention as real], now), Ok)
  {
    assert Admit(cfg, Lenient(), OneKey(), now, Signed(nonce)) == Ok;
  }

  // A run that shows why less retention does not do: a request is accepted as early as its timestamp
  // allows, its nonce is purged by somebody else's accept, and it comes back as late as allowed.
  lemma ReplayWhenShort(cfg: Config, a: string, b: string) returns (calls: seq<Call>)
    requires 0 <= cfg.skew && cfg.retention < 2 * cfg.skew && a != "" && b != "" && a != b
    ensures Ordered(calls) && |calls| == 3 && calls[0].request == calls[2].request == Signed(a)
    ensures Accepted(cfg, Lenient(), calls, 0) && Accepted(cfg, Lenient(), calls, 2)
  {
    var cr := Lenient();
    var early, late := -(cfg.skew as real), cfg.skew as real;
    calls := [Call(early, OneKey(), Signed(a)), Call(late, OneKey(), Signed(b)), Call(late, OneKey(), Signed(a))];
    assert Table(cfg, cr, calls, 0) == map[];
    LenientAccepts(cfg, map[], early, a);
    var t1 := Table(cfg, cr, calls, 1);
    assert ("t", "n", b) !in t1;
    LenientAccepts(cfg, t1, late, b);
    var t2 := Table(cfg, cr, calls, 2);
    assert ("t", "n", a) !in t2;
    LenientAccepts(cfg, t2, late, a);
  }

  // Retention of at least twice the skew is exactly what replay safety takes (with a negative skew
  // nothing is ever accepted).
  lemma ReplaySafeIff(cfg: Config)
    ensures ReplaySafe(cfg) <==> cfg.skew < 0 || cfg.retention >= 2 * cfg.skew
  {
    if cfg.skew < 0 || cfg.retention >= 2 * cfg.skew {
      forall cr: Crypto, calls: seq<Call>, i: nat, j: nat | Ordered(calls) && i < j < |calls|
        && Accepted(cfg, cr, calls, i) && Accepted(cfg, cr, calls, j)
        ensures !SameMessage(cr, calls[i].request, calls[j].request)
      {
        NeverTwice(cfg, cr, calls, i, j);
      }
    } else {
      var cr := Lenient();
      var calls := ReplayWhenShort(cfg, "one", "other");
      assert SameMessage(cr, calls[0].request, calls[2].request);
    }
  }

  // The defaults the service ships with.
  lemma DefaultsAreSafe()
    ensures ReplaySafe(Config(60, 600))
  {
    ReplaySafeIff(Config(60, 600));
  }

  // Call i was accepted and gave the nonce k its expiry.
  ghost predicate PutBy(cfg: Config, cr: Crypto, calls: seq<Call>, i: nat, k: (Id, Id, string), expiry: real)
    requires i < |calls|
  {
    && Accepted(cfg, cr, calls, i) && AllPresent(calls[i].request.headers)
    && NonceKey(calls[i].request) == k && expiry == calls[i].now + cfg.retention as real
  }

  // Whatever is in the table was put there by an accept, and after an accept nothing older than one
  // retention is left.
  lemma {:induction false} TableHoldsRecent(cfg: Config, cr: Crypto, calls: seq<Call>, n: nat, k: (Id, Id, string))
    requires n <= |calls| && k in Table(cfg, cr, calls, n)
    ensures exists i: nat :: i < n && PutBy(cfg, cr, calls, i, k, Table(cfg, cr, calls, n)[k])
    ensures n > 0 && Accepted(cfg, cr, calls, n - 1) ==> Table(cfg, cr, calls, n)[k] >= calls[n - 1].now
  {
    var c, ns := calls[n - 1], Table(cfg, cr, calls, n - 1);
    EntryAfter(cfg, cr, c.dir, ns, c.now, c.request, k);
    if k in ns && Table(cfg, cr, calls, n)[k] == ns[k] {
      TableHoldsRecent(cfg, cr, calls, n - 1, k);
      var i: nat :| i < n - 1 && PutBy(cfg, cr, calls, i, k, ns[k]);
      assert PutBy(cfg, cr, calls, i, k, Table(cfg, cr, calls, n)[k]);
    } else {
      assert PutBy(cfg, cr, calls, n - 1, k, Table(cfg, cr, calls, n)[k]);
    }
  }
}
