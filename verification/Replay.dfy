// Nonce store and timestamp window of request verification (auth/nonce.go:49-105,
// auth/aksk.go:195-255, auth/aksk.go:432-457). Instants and durations are in
// nanoseconds; durations are 64-bit as in the source.
module Replay {
  import opened Wrappers

  const MAX_DURATION := 0x7FFF_FFFF_FFFF_FFFF
  const MIN_DURATION := -0x8000_0000_0000_0000
  const SECOND := 1_000_000_000

  type Int64 = x: int | MIN_DURATION <= x <= MAX_DURATION

  // A configured duration is positive or falls back to a default.
  type Duration = d: int | 0 <= d <= MAX_DURATION

  function Wrap(x: int): (r: Int64)
    ensures MIN_DURATION <= x <= MAX_DURATION ==> r == x
  {
    (x + 0x8000_0000_0000_0000) % 0x1_0000_0000_0000_0000 - 0x8000_0000_0000_0000
  }

  // ---------- nonces ----------

  type Nonces = map<string, int>   // expiry per nonce

  // How long a nonce is kept: twice the TTL, in 64 bits.
  function Kept(ttl: Duration): Int64 {
    Wrap(2 * ttl)
  }

  // A known nonce is refused even when it has expired.
  function Stored(m: Nonces, nonce: string, now: int, ttl: Duration): Nonces {
    if nonce in m then m else m[nonce := now + Kept(ttl)]
  }

  function Cleaned(m: Nonces, now: int): Nonces {
    map n | n in m && !(now > m[n]) :: m[n]
  }

  class MemoryNonceStore {
    var nonces: Nonces

    constructor ()
      ensures nonces == map[]
    {
      nonces := map[];
    }

    method CheckAndStore(nonce: string, ttl: Duration, now: int) returns (used: bool)
      modifies this
      ensures used <==> nonce in old(nonces)
      ensures nonces == Stored(old(nonces), nonce, now, ttl)
    {
      if nonce in nonces {
        return true;
      }
      nonces := nonces[nonce := now + Wrap(ttl * 2)];
      return false;
    }

    // Ranges over the entries in an arbitrary order while deleting from the map.
    method Cleanup(now: int)
      modifies this
      ensures nonces == Cleaned(old(nonces), now)
    {
      var left := nonces.Keys;
      while left != {}
        invariant left <= nonces.Keys <= old(nonces).Keys
        invariant forall n :: n in nonces ==> nonces[n] == old(nonces)[n]
        invariant forall n :: n in old(nonces) && n !in left ==> (n in nonces <==> !(now > old(nonces)[n]))
        decreases left
      {
        var n :| n in left;
        left := left - {n};
        if now > nonces[n] {
          nonces := nonces - {n};
        }
      }
    }
  }

  // ---------- the timestamp window ----------

  // Seconds from year 1 to 1970; time.Unix adds them in 64 bits.
  const UNIX_TO_INTERNAL := 62_135_596_800

  // The instant of a timestamp header, which holds whole seconds.
  function RequestTime(seconds: Int64): int {
    (Wrap(seconds + UNIX_TO_INTERNAL) - UNIX_TO_INTERNAL) * SECOND
  }

  // time.Time.Sub saturates.
  function Sub(a: int, b: int): int {
    if a - b > MAX_DURATION then MAX_DURATION
    else if a - b < MIN_DURATION then MIN_DURATION
    else a - b
  }

  // Negation of a 64-bit duration wraps at the minimum.
  function Negated(d: int): int {
    if d == MIN_DURATION then MIN_DURATION else -d
  }

  predicate InWindow(requestTime: int, now: int, tolerance: Duration) {
    var diff := Sub(now, requestTime);
    var dist := if diff < 0 then Negated(diff) else diff;
    !(dist > tolerance)
  }

  function Distance(a: int, b: int): nat {
    if a < b then b - a else a - b
  }

  // The check means "within tolerance" exactly while the request time is less than
  // 2^63 ns ahead of the clock; beyond that the saturated difference has no negation
  // and the check passes. (A tolerance of the maximum duration accepts any past.)
  lemma WindowMeans(requestTime: int, now: int, tolerance: Duration)
    requires tolerance < MAX_DURATION
    ensures InWindow(requestTime, now, tolerance) <==>
      Distance(requestTime, now) <= tolerance || requestTime - now >= -MIN_DURATION
  {
  }

  // For a header within 2^63 ns of the clock: accepted exactly when its second lies
  // within the tolerance on either side, in particular when it is the clock's own.
  lemma HeaderMeans(seconds: int, now: int, tolerance: Duration)
    requires tolerance < MAX_DURATION
    requires -0x8000_0000_0000_0000 <= seconds && seconds + 62_135_596_800 < 0x8000_0000_0000_0000
    requires seconds * 1_000_000_000 - now < 0x8000_0000_0000_0000
    ensures InWindow(RequestTime(seconds), now, tolerance) <==>
      now - tolerance <= seconds * 1_000_000_000 <= now + tolerance
  {
    assert RequestTime(seconds) == seconds * 1_000_000_000;
    WindowMeans(RequestTime(seconds), now, tolerance);
  }

  // A new nonce outlives exactly the cleanups until twice its TTL has passed; older
  // nonces keep their own expiry.
  lemma KeptTwice(m: Nonces, nonce: string, now: int, ttl: Duration, cleaned: int, n: string)
    requires nonce !in m && 2 * ttl < 0x8000_0000_0000_0000
    ensures n in Cleaned(Stored(m, nonce, now, ttl), cleaned) <==>
      if n == nonce then cleaned <= now + 2 * ttl else n in m && cleaned <= m[n]
  {
  }

  // ---------- one Verify call ----------

  datatype AuthError =
    | BadHeader | MissingTimestamp | TimestampExpired | MissingNonce | NonceReused | LaterFailure

  // header: the Authorization header parses; rest: credential, body and signature pass.
  // timestamp: None if missing or no 64-bit number, else seconds. checkedAt and
  // storedAt are the clock readings of the two steps.
  datatype Request = Request(
    header: bool, timestamp: Option<Int64>, nonce: string, rest: bool, checkedAt: int, storedAt: int)

  datatype Config = Config(tolerance: Duration, ttl: Duration)

  predicate ReachesNonce(r: Request, cfg: Config) {
    && r.header && r.timestamp.Some? && r.nonce != ""
    && InWindow(RequestTime(r.timestamp.value), r.checkedAt, cfg.tolerance)
  }

  // The nonce check is passed.
  predicate Passes(m: Nonces, r: Request, cfg: Config) {
    ReachesNonce(r, cfg) && r.nonce !in m
  }

  class Verifier {
    const nonces: MemoryNonceStore
    const cfg: Config

    constructor (nonces: MemoryNonceStore, cfg: Config)
      ensures this.nonces == nonces && this.cfg == cfg
    {
      this.nonces := nonces;
      this.cfg := cfg;
    }

    method Verify(r: Request) returns (res: Result<(), AuthError>)
      modifies nonces
      ensures res == Err(BadHeader) <==> !r.header
      ensures res == Err(MissingTimestamp) <==> r.header && r.timestamp.None?
      ensures res == Err(TimestampExpired) <==>
        r.header && r.timestamp.Some? && !InWindow(RequestTime(r.timestamp.value), r.checkedAt, cfg.tolerance)
      ensures res == Err(MissingNonce) <==> (r.nonce == "" &&
        r.header && r.timestamp.Some? && InWindow(RequestTime(r.timestamp.value), r.checkedAt, cfg.tolerance))
      ensures res.Ok? <==> Passes(old(nonces.nonces), r, cfg) && r.rest
      ensures res == Err(NonceReused) <==> ReachesNonce(r, cfg) && r.nonce in old(nonces.nonces)
      ensures res == Err(LaterFailure) <==> Passes(old(nonces.nonces), r, cfg) && !r.rest
      ensures nonces.nonces == if ReachesNonce(r, cfg) then Stored(old(nonces.nonces), r.nonce, r.storedAt, cfg.ttl)
                               else old(nonces.nonces)
    {
      if !r.header {
        return Err(BadHeader);
      }
      if r.timestamp.None? {
        return Err(MissingTimestamp);
      }
      var diff := Sub(r.checkedAt, RequestTime(r.timestamp.value));
      if diff < 0 {
        diff := Negated(diff);
      }
      if diff > cfg.tolerance {
        return Err(TimestampExpired);
      }
      if r.nonce == "" {
        return Err(MissingNonce);
      }
      var used := nonces.CheckAndStore(r.nonce, cfg.ttl, r.storedAt);
      if used {
        return Err(NonceReused);
      }
      if !r.rest {
        return Err(LaterFailure);
      }
      return Ok(());
    }
  }

  // ---------- runs ----------

  datatype Event = Call(r: Request) | CleanupAt(now: int)

  function Time(e: Event): int {
    if e.Call? then e.r.storedAt else e.now
  }

  function Step(m: Nonces, e: Event, cfg: Config): Nonces {
    match e
    case Call(r) => if ReachesNonce(r, cfg) then Stored(m, r.nonce, r.storedAt, cfg.ttl) else m
    case CleanupAt(now) => Cleaned(m, now)
  }

  function Run(es: seq<Event>, cfg: Config): Nonces {
    if es == [] then map[] else Step(Run(es[..|es| - 1], cfg), es[|es| - 1], cfg)
  }

  // The k-th event is a call that passes the nonce check.
  predicate PassedAt(es: seq<Event>, k: nat, cfg: Config) {
    k < |es| && es[k].Call? && Passes(Run(es[..k], cfg), es[k].r, cfg)
  }

  // Two calls with the same timestamp and nonce both pass.
  predicate PassedTwice(es: seq<Event>, j: nat, k: nat, cfg: Config) {
    j < k && PassedAt(es, j, cfg) && PassedAt(es, k, cfg)
    && es[j].r.nonce == es[k].r.nonce && es[j].r.timestamp == es[k].r.timestamp
  }

  // Store operations happen in clock order; a call stores its nonce at most delay
  // after checking its timestamp, and no request time is out of range.
  ghost predicate Timed(es: seq<Event>, delay: nat) {
    && (forall j, k :: 0 <= j < k < |es| ==> Time(es[j]) <= Time(es[k]))
    && (forall k :: 0 <= k < |es| && es[k].Call? ==>
          es[k].r.checkedAt <= es[k].r.storedAt <= es[k].r.checkedAt + delay)
  }

  ghost predicate InRange(es: seq<Event>) {
    forall k :: 0 <= k < |es| && es[k].Call? && es[k].r.timestamp.Some? ==>
      RequestTime(es[k].r.timestamp.value) - es[k].r.checkedAt < -MIN_DURATION
  }

  // Once stored, a nonce stays at least as long as it is kept.
  lemma {:induction false} NonceKept(es: seq<Event>, j: nat, k: nat, cfg: Config)
    requires j < k <= |es| && PassedAt(es, j, cfg)
    requires forall m :: j < m < k ==> Time(es[m]) <= Time(es[j]) + Kept(cfg.ttl)
    ensures es[j].r.nonce in Run(es[..k], cfg)
    ensures Run(es[..k], cfg)[es[j].r.nonce] >= Time(es[j]) + Kept(cfg.ttl)
    decreases k
  {
    assert es[..k][..k - 1] == es[..k - 1];
    if k > j + 1 {
      NonceKept(es, j, k - 1, cfg);
    }
  }

  // At most one of any number of Verify calls with the same timestamp and nonce gets
  // past the nonce check, however the cleanups fall.
  lemma AtMostOnce(es: seq<Event>, j: nat, k: nat, delay: nat, cfg: Config)
    requires cfg.tolerance < MAX_DURATION && Kept(cfg.ttl) >= 2 * cfg.tolerance + delay
    requires Timed(es, delay) && InRange(es)
    ensures !PassedTwice(es, j, k, cfg)
  {
    if PassedTwice(es, j, k, cfg) {
      WindowMeans(RequestTime(es[j].r.timestamp.value), es[j].r.checkedAt, cfg.tolerance);
      WindowMeans(RequestTime(es[k].r.timestamp.value), es[k].r.checkedAt, cfg.tolerance);
      assert Time(es[k]) <= Time(es[j]) + Kept(cfg.ttl);
      NonceKept(es, j, k, cfg);
    }
  }

  // With five minutes of tolerance and fifteen of TTL, as where nothing is configured,
  // that holds while storing lags checking by at most twenty minutes.
  lemma DefaultsStopReplays(es: seq<Event>, j: nat, k: nat, delay: nat)
    requires delay <= 20 * 60 * 1_000_000_000 && Timed(es, delay) && InRange(es)
    ensures !PassedTwice(es, j, k, Config(5 * 60 * 1_000_000_000, 15 * 60 * 1_000_000_000))
  {
    AtMostOnce(es, j, k, delay, Config(5 * 60 * 1_000_000_000, 15 * 60 * 1_000_000_000));
  }

  // Two calls for one request, sent at the given second, with a cleanup in between.
  function Twice(seconds: Int64, first: int, second: int, stored: int): seq<Event> {
    [Call(Request(true, Some(seconds), "n", true, first, first)),
     CleanupAt(stored),
     Call(Request(true, Some(seconds), "n", true, second, stored))]
  }

  lemma TwiceRuns(seconds: Int64, first: int, second: int, stored: int, cfg: Config)
    requires InWindow(RequestTime(seconds), first, cfg.tolerance)
    requires InWindow(RequestTime(seconds), second, cfg.tolerance)
    requires stored > first + Kept(cfg.ttl)
    ensures PassedAt(Twice(seconds, first, second, stored), 0, cfg)
    ensures PassedAt(Twice(seconds, first, second, stored), 2, cfg)
  {
    var es := Twice(seconds, first, second, stored);
    assert es[..0] == [];
    assert es[..1] == [es[0]] && es[..1][..0] == [];
    assert es[..2] == [es[0], es[1]] && es[..2][..1] == es[..1];
    assert Run(es[..1], cfg) == map["n" := first + Kept(cfg.ttl)];
    assert Run(es[..2], cfg) == Cleaned(Run(es[..1], cfg), stored);
  }

  // The bound on the delay is exact: as soon as it is exceeded, some run lets the same
  // request through twice.
  lemma DelayBoundIsExact(delay: nat, cfg: Config)
    requires cfg.tolerance < MAX_DURATION
    ensures Kept(cfg.ttl) >= 2 * cfg.tolerance + delay <==>
      !exists es: seq<Event>, j: nat, k: nat ::
        Timed(es, delay) && InRange(es) && PassedTwice(es, j, k, cfg)
  {
    if Kept(cfg.ttl) >= 2 * cfg.tolerance + delay {
      forall es: seq<Event>, j: nat, k: nat | Timed(es, delay) && InRange(es) && PassedTwice(es, j, k, cfg)
        ensures false
      {
        AtMostOnce(es, j, k, delay, cfg);
      }
    } else {
      var seconds := cfg.tolerance / SECOND + 1;
      var sent: int := seconds * SECOND;
      var es := Twice(seconds, sent - cfg.tolerance, sent + cfg.tolerance, sent + cfg.tolerance + delay);
      TwiceRuns(seconds, sent - cfg.tolerance, sent + cfg.tolerance, sent + cfg.tolerance + delay, cfg);
      assert Timed(es, delay) && InRange(es) && PassedTwice(es, 0, 2, cfg);
    }
  }

  // A whole second at least 2^63 ns after the second of two checks, the first of which
  // is at 0 and the second after the nonce has been cleaned up.
  function FarSecond(later: nat): int {
    (later - MIN_DURATION) / SECOND + 1
  }

  // Without the range condition the bound does not help: a request time 2^63 ns ahead
  // of both checks passes the window each time, although nothing is delayed.
  lemma OutOfRangeRepeats(cfg: Config)
    requires cfg.tolerance < MAX_DURATION
    ensures var later := if Kept(cfg.ttl) < 0 then 0 else Kept(cfg.ttl) + 1;
      && FarSecond(later) <= MAX_DURATION
      && var es := Twice(FarSecond(later), 0, later, later);
         Timed(es, 0) && PassedTwice(es, 0, 2, cfg)
  {
    var later := if Kept(cfg.ttl) < 0 then 0 else Kept(cfg.ttl) + 1;
    TwiceRuns(FarSecond(later), 0, later, later, cfg);
  }
}
