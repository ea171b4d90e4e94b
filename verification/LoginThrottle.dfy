/** The login throttle (`core/login_throttle.py`): failure counters in Redis per email and per
    source address. The email counter lives for a fixed window after its first failure; the address
    counter is re-armed by every failure. Time is in whole seconds. */
module LoginThrottle {
  import opened Options

  datatype Key = EmailKey(email: string) | IpKey(ip: string)

  /** A counter and the second at which it expires; `None` would be a key without expiry. */
  datatype Bucket = Bucket(count: int, exp: Option<int>)

  type Store = map<Key, Bucket>

  /** `LOGIN_THROTTLE_MAX_ATTEMPTS` and `LOGIN_THROTTLE_WINDOW_SECONDS`. */
  datatype Config = Config(max: int, window: int)

  predicate Enabled(cfg: Config) { cfg.max > 0 }

  /** An absent or empty address counts as none. */
  predicate HasIp(ip: Option<string>) { ip.Some? && ip.value != "" }

  // ----- Redis commands ------------------------------------------------------------------

  predicate Live(s: Store, now: int, k: Key) {
    k in s && (s[k].exp.Some? ==> now < s[k].exp.value)
  }

  function Count(s: Store, now: int, k: Key): int { if Live(s, now, k) then s[k].count else 0 }

  /** -2 without the key, -1 without an expiry. */
  function Ttl(s: Store, now: int, k: Key): int {
    if !Live(s, now, k) then -2
    else match s[k].exp case None => -1 case Some(x) => x - now
  }

  function Incr(s: Store, now: int, k: Key): Store {
    s[k := if Live(s, now, k) then s[k].(count := s[k].count + 1) else Bucket(1, None)]
  }

  function Expire(s: Store, now: int, k: Key, seconds: int, nx: bool): Store {
    if Live(s, now, k) && (nx ==> s[k].exp.None?) then s[k := s[k].(exp := Some(now + seconds))] else s
  }

  // ----- The functions of the module -----------------------------------------------------

  datatype Lockout = Lockout(retryAfter: int, byEmail: bool, byIp: bool)

  function Max(a: int, b: int): int { if a < b then b else a }

  function Check(cfg: Config, s: Store, now: int, email: string, ip: Option<string>): Option<Lockout> {
    if !Enabled(cfg) then None
    else
      var emailLocked := Count(s, now, EmailKey(email)) >= cfg.max;
      var ipLocked := HasIp(ip) && Count(s, now, IpKey(ip.value)) >= cfg.max;
      if !emailLocked && !ipLocked then None
      else
        Some(Lockout(
          Max(0, Max(if emailLocked then Ttl(s, now, EmailKey(email)) else 0,
                     if ipLocked then Ttl(s, now, IpKey(ip.value)) else 0)),
          emailLocked, ipLocked))
  }

  function CheckIp(cfg: Config, s: Store, now: int, ip: Option<string>): Option<Lockout> {
    if !Enabled(cfg) || !HasIp(ip) || Count(s, now, IpKey(ip.value)) < cfg.max then None
    else Some(Lockout(Max(0, Ttl(s, now, IpKey(ip.value))), false, true))
  }

  function IpFailure(cfg: Config, s: Store, now: int, ip: Option<string>): Store {
    if !Enabled(cfg) || !HasIp(ip) then s
    else Expire(Incr(s, now, IpKey(ip.value)), now, IpKey(ip.value), cfg.window, false)
  }

  function EmailFailure(cfg: Config, s: Store, now: int, email: string): Store {
    if !Enabled(cfg) then s
    else Expire(Incr(s, now, EmailKey(email)), now, EmailKey(email), cfg.window, true)
  }

  function Failure(cfg: Config, s: Store, now: int, email: string, ip: Option<string>): Store {
    IpFailure(cfg, EmailFailure(cfg, s, now, email), now, ip)
  }

  function IpReset(cfg: Config, s: Store, ip: Option<string>): Store {
    if !Enabled(cfg) || !HasIp(ip) then s else s - {IpKey(ip.value)}
  }

  function Reset(cfg: Config, s: Store, email: string, ip: Option<string>): Store {
    if !Enabled(cfg) then s else IpReset(cfg, s - {EmailKey(email)}, ip)
  }

  // ----- Traces --------------------------------------------------------------------------

  /** A request: it checks for a lockout, and unless locked it fails and is recorded, or succeeds
      and resets. Logins carry an email; token refreshes only an address. */
  datatype Attempt =
    | Login(at: int, email: string, ip: Option<string>, success: bool)
    | Refresh(at: int, ip: Option<string>, success: bool)

  predicate LockedOut(cfg: Config, s: Store, a: Attempt) {
    match a
    case Login(at, email, ip, _) => Check(cfg, s, at, email, ip).Some?
    case Refresh(at, ip, _) => CheckIp(cfg, s, at, ip).Some?
  }

  function Attempted(cfg: Config, s: Store, a: Attempt): Store {
    if LockedOut(cfg, s, a) then s
    else
      match a
      case Login(at, email, ip, success) => if success then Reset(cfg, s, email, ip) else Failure(cfg, s, at, email, ip)
      case Refresh(at, ip, success) => if success then IpReset(cfg, s, ip) else IpFailure(cfg, s, at, ip)
  }

  function After(cfg: Config, trace: seq<Attempt>): Store {
    if trace == [] then map[] else Attempted(cfg, After(cfg, trace[..|trace| - 1]), trace[|trace| - 1])
  }

  // ----- What a caller sees --------------------------------------------------------------

  predicate Reached(cfg: Config, s: Store, now: int, k: Key) { Count(s, now, k) >= cfg.max }

  predicate IpReached(cfg: Config, s: Store, now: int, ip: Option<string>) {
    HasIp(ip) && Reached(cfg, s, now, IpKey(ip.value))
  }

  function IpKeys(ip: Option<string>): set<Key> { if HasIp(ip) then {IpKey(ip.value)} else {} }

  function KeysOf(email: string, ip: Option<string>): set<Key> { {EmailKey(email)} + IpKeys(ip) }

  /** When the window ends that the counter is in, or that opens now. */
  function WindowEnd(s: Store, now: int, k: Key, window: int): Option<int> {
    if Live(s, now, k) && s[k].exp.Some? then s[k].exp else Some(now + window)
  }

  /** The counter went up by one, from zero if it had expired. */
  predicate CountsOnce(before: Store, after: Store, now: int, k: Key, exp: Option<int>) {
    k in after && after[k] == Bucket(Count(before, now, k) + 1, exp)
  }

  ghost predicate OthersKept(before: Store, after: Store, keys: set<Key>) {
    forall k :: k !in keys ==> (k in after <==> k in before) && (k in before ==> after[k] == before[k])
  }

  /** Every counter has an expiry, so TTL never answers -1. */
  ghost predicate Armed(s: Store) { forall k :: k in s ==> s[k].exp.Some? && s[k].count >= 1 }

  class Throttle {
    const cfg: Config
    var store: Store

    constructor (cfg: Config)
      ensures this.cfg == cfg && store == map[]
    {
      this.cfg, store := cfg, map[];
    }

    method CheckLockout(now: int, email: string, ip: Option<string>) returns (r: Option<Lockout>)
      ensures r.Some? <==> Enabled(cfg) && (Reached(cfg, store, now, EmailKey(email)) || IpReached(cfg, store, now, ip))
      ensures r.Some? ==> (r.value.byEmail <==> Reached(cfg, store, now, EmailKey(email)))
                          && (r.value.byIp <==> IpReached(cfg, store, now, ip))
      // The answer lasts as long as one of the counters that lock.
      ensures r.Some? && Armed(store) ==>
                forall t :: now <= t ==>
                  (t < now + r.value.retryAfter <==>
                     (r.value.byEmail && Live(store, t, EmailKey(email))) || (r.value.byIp && Live(store, t, IpKey(ip.value))))
      ensures r == Check(cfg, store, now, email, ip)
    {
      if !Enabled(cfg) { return None; }
      var emailCount, emailTtl := Count(store, now, EmailKey(email)), Ttl(store, now, EmailKey(email));
      var ipCount, ipTtl := 0, 0;
      if HasIp(ip) {
        ipCount, ipTtl := Count(store, now, IpKey(ip.value)), Ttl(store, now, IpKey(ip.value));
      }
      var emailLocked, ipLocked := emailCount >= cfg.max, ipCount >= cfg.max;
      if !emailLocked && !ipLocked { return None; }
      var retryAfter := Max(0, Max(if emailLocked then emailTtl else 0, if ipLocked then ipTtl else 0));
      return Some(Lockout(retryAfter, emailLocked, ipLocked));
    }

    method RecordFailure(now: int, email: string, ip: Option<string>)
      modifies this`store
      ensures !Enabled(cfg) ==> store == old(store)
      // The email's window is not prolonged while it runs; the address's always is.
      ensures Enabled(cfg) ==> CountsOnce(old(store), store, now, EmailKey(email),
                                          WindowEnd(old(store), now, EmailKey(email), cfg.window))
      ensures Enabled(cfg) && HasIp(ip) ==> CountsOnce(old(store), store, now, IpKey(ip.value), Some(now + cfg.window))
      ensures OthersKept(old(store), store, KeysOf(email, ip))
      ensures store == Failure(cfg, old(store), now, email, ip)
    {
      if !Enabled(cfg) { return; }
      store := Incr(store, now, EmailKey(email));
      store := Expire(store, now, EmailKey(email), cfg.window, true);
      if HasIp(ip) {
        store := Incr(store, now, IpKey(ip.value));
        store := Expire(store, now, IpKey(ip.value), cfg.window, false);
      }
    }

    method CheckIpLockout(now: int, ip: Option<string>) returns (r: Option<Lockout>)
      ensures r.Some? <==> Enabled(cfg) && IpReached(cfg, store, now, ip)
      ensures r.Some? && Armed(store) ==>
                forall t :: now <= t ==> (t < now + r.value.retryAfter <==> Live(store, t, IpKey(ip.value)))
      ensures r == CheckIp(cfg, store, now, ip)
    {
      if !Enabled(cfg) || !HasIp(ip) { return None; }
      if Count(store, now, IpKey(ip.value)) < cfg.max { return None; }
      return Some(Lockout(Max(0, Ttl(store, now, IpKey(ip.value))), false, true));
    }

    method RecordIpFailure(now: int, ip: Option<string>)
      modifies this`store
      ensures !Enabled(cfg) ==> store == old(store)
      ensures Enabled(cfg) && HasIp(ip) ==> CountsOnce(old(store), store, now, IpKey(ip.value), Some(now + cfg.window))
      ensures OthersKept(old(store), store, IpKeys(ip))
      ensures store == IpFailure(cfg, old(store), now, ip)
    {
      if !Enabled(cfg) || !HasIp(ip) { return; }
      store := Incr(store, now, IpKey(ip.value));
      store := Expire(store, now, IpKey(ip.value), cfg.window, false);
    }

    method ResetIp(ip: Option<string>)
      modifies this`store
      ensures !Enabled(cfg) ==> store == old(store)
      ensures Enabled(cfg) ==> store.Keys !! IpKeys(ip) && forall t :: CheckIp(cfg, store, t, ip).None?
      ensures OthersKept(old(store), store, IpKeys(ip))
      ensures store == IpReset(cfg, old(store), ip)
    {
      if !Enabled(cfg) || !HasIp(ip) { return; }
      store := store - {IpKey(ip.value)};
    }

    method ResetBoth(email: string, ip: Option<string>)
      modifies this`store
      ensures !Enabled(cfg) ==> store == old(store)
      ensures Enabled(cfg) ==> store.Keys !! KeysOf(email, ip) && forall t :: Check(cfg, store, t, email, ip).None?
      ensures OthersKept(old(store), store, KeysOf(email, ip))
      ensures store == Reset(cfg, old(store), email, ip)
    {
      if !Enabled(cfg) { return; }
      store := store - {EmailKey(email)};
      if HasIp(ip) { store := store - {IpKey(ip.value)}; }
    }

    /** A login or a token refresh as its endpoint serves it; `a.success` is what the check of the
        credentials would say, and counts only if the throttle lets the request through. */
    method Serve(a: Attempt) returns (lock: Option<Lockout>)
      modifies this`store
      ensures lock.Some? <==> LockedOut(cfg, old(store), a)
      ensures lock.Some? ==> store == old(store)
      ensures store == Attempted(cfg, old(store), a)
    {
      match a
      case Login(at, email, ip, success) =>
        lock := CheckLockout(at, email, ip);
        if lock.Some? { return; }
        if success { ResetBoth(email, ip); } else { RecordFailure(at, email, ip); }
      case Refresh(at, ip, success) =>
        lock := CheckIpLockout(at, ip);
        if lock.Some? { return; }
        if success { ResetIp(ip); } else { RecordIpFailure(at, ip); }
    }
  }

  ghost predicate InTime(trace: seq<Attempt>) {
    forall i, j :: 0 <= i < j < |trace| ==> trace[i].at <= trace[j].at
  }

  /** The attempt concerns the counter `k`. */
  predicate Concerns(a: Attempt, k: Key) {
    match k
    case EmailKey(e) => a.Login? && a.email == e
    case IpKey(p) => HasIp(a.ip) && a.ip.value == p
  }

  /** The attempt was let through, failed, and was counted under `k`. */
  predicate Fails(cfg: Config, s: Store, a: Attempt, k: Key) {
    Concerns(a, k) && !a.success && !LockedOut(cfg, s, a)
  }

  /** How many failures of the trace are counted under `k` within the `window` seconds from `from` on. */
  function FailuresWithin(cfg: Config, trace: seq<Attempt>, k: Key, from: int): nat {
    if trace == [] then 0
    else
      var a := trace[|trace| - 1];
      var before := trace[..|trace| - 1];
      FailuresWithin(cfg, before, k, from)
      + (if Fails(cfg, After(cfg, before), a, k) && from <= a.at < from + cfg.window then 1 else 0)
  }

  ghost predicate NoReset(trace: seq<Attempt>, k: Key) {
    forall i :: 0 <= i < |trace| && Concerns(trace[i], k) ==> !trace[i].success
  }

  lemma AttemptArmed(cfg: Config, s: Store, a: Attempt)
    requires Enabled(cfg) && cfg.window > 0 && Armed(s)
    ensures Armed(Attempted(cfg, s, a))
  {
  }

  lemma {:induction false} AlwaysArmed(cfg: Config, trace: seq<Attempt>)
    requires Enabled(cfg) && cfg.window > 0
    ensures Armed(After(cfg, trace))
  {
    if trace == [] {
    } else {
      AlwaysArmed(cfg, trace[..|trace| - 1]);
      AttemptArmed(cfg, After(cfg, trace[..|trace| - 1]), trace[|trace| - 1]);
    }
  }

  /** What one attempt does to the counter `k`. */
  lemma BucketStep(cfg: Config, s: Store, a: Attempt, k: Key)
    requires Enabled(cfg) && cfg.window > 0 && Armed(s) && (Concerns(a, k) ==> !a.success)
    ensures var s' := Attempted(cfg, s, a);
            if Fails(cfg, s, a, k) then
              Live(s', a.at, k) && Count(s, a.at, k) < cfg.max && s'[k].count == Count(s, a.at, k) + 1
              && s'[k].exp == if k.EmailKey? && Live(s, a.at, k) then s[k].exp else Some(a.at + cfg.window)
            else (k in s' <==> k in s) && (k in s ==> s'[k] == s[k])
  {
  }

  /** A successful login that is let through clears exactly its own counters. */
  lemma SuccessClears(cfg: Config, s: Store, at: int, email: string, ip: Option<string>, later: int)
    requires Enabled(cfg) && Check(cfg, s, at, email, ip).None?
    ensures var s' := Attempted(cfg, s, Login(at, email, ip, true));
            Check(cfg, s', later, email, ip).None? && CheckIp(cfg, s', later, ip).None?
            && forall k :: k != EmailKey(email) && (HasIp(ip) ==> k != IpKey(ip.value)) ==>
                 (k in s' <==> k in s) && (k in s ==> s'[k] == s[k])
  {
    var s' := Attempted(cfg, s, Login(at, email, ip, true));
    assert Count(s', later, EmailKey(email)) == 0;
    if HasIp(ip) { assert Count(s', later, IpKey(ip.value)) == 0; }
  }

  /** A token refresh that is let through and succeeds clears exactly the counter of its address; without an
      address, or with an empty one, it clears nothing. */
  lemma RefreshClears(cfg: Config, s: Store, at: int, ip: Option<string>, later: int)
    requires cfg.max > 0 && CheckIp(cfg, s, at, ip).None?
    ensures var s' := Attempted(cfg, s, Refresh(at, ip, true));
            if ip == None || ip == Some("") then s' == s
            else IpKey(ip.value) !in s' && CheckIp(cfg, s', later, ip).None?
                 && forall k :: k != IpKey(ip.value) ==> (k in s' <==> k in s) && (k in s ==> s'[k] == s[k])
  {
  }

  /** A failed request counts once for its email, if it has one, and once for its address, if it has one; no
      other counter changes. */
  lemma FailureCounts(cfg: Config, s: Store, a: Attempt)
    requires cfg.max > 0 && !a.success && !LockedOut(cfg, s, a)
    ensures var s' := Attempted(cfg, s, a);
            (a.Login? ==> EmailKey(a.email) in s' && s'[EmailKey(a.email)].count == Count(s, a.at, EmailKey(a.email)) + 1)
            && (a.ip.Some? && a.ip.value != "" ==>
                  IpKey(a.ip.value) in s'
                  && s'[IpKey(a.ip.value)] == Bucket(Count(s, a.at, IpKey(a.ip.value)) + 1, Some(a.at + cfg.window)))
            && forall k :: !(a.Login? && k == EmailKey(a.email)) && !(a.ip.Some? && a.ip.value != "" && k == IpKey(a.ip.value)) ==>
                 (k in s' <==> k in s) && (k in s ==> s'[k] == s[k])
  {
  }

  /** A throttle with a limit of zero or less is switched off. */
  lemma SwitchedOff(cfg: Config, s: Store, a: Attempt)
    requires cfg.max <= 0
    ensures !LockedOut(cfg, s, a) && Attempted(cfg, s, a) == s
  {
  }

  // ----- The email bound -----------------------------------------------------------------

  /** The most failures that can still be counted in `[from, from + window)` from second `now` on. */
  function EmailAllowance(cfg: Config, s: Store, now: int, k: Key, from: int): int {
    if now >= from + cfg.window then 0
    else if !Live(s, now, k) || s[k].exp.None? then if now < from then 2 * cfg.max - 1 else cfg.max
    else if s[k].exp.value >= from + cfg.window then Max(0, cfg.max - s[k].count)
    else if s[k].exp.value >= from then Max(0, cfg.max - s[k].count) + cfg.max
    else 2 * cfg.max - 1
  }

  lemma EmailAllowanceStep(cfg: Config, s: Store, now: int, a: Attempt, k: Key, from: int)
    requires Enabled(cfg) && cfg.window > 0 && Armed(s) && k.EmailKey? && now <= a.at
    requires Concerns(a, k) ==> !a.success
    ensures var counted := if Fails(cfg, s, a, k) && from <= a.at < from + cfg.window then 1 else 0;
            counted + EmailAllowance(cfg, Attempted(cfg, s, a), a.at, k, from) <= EmailAllowance(cfg, s, now, k, from)
  {
    BucketStep(cfg, s, a, k);
    assert EmailAllowance(cfg, s, a.at, k, from) <= EmailAllowance(cfg, s, now, k, from);
  }

  lemma {:induction false} EmailBudget(cfg: Config, trace: seq<Attempt>, k: Key, from: int)
    requires Enabled(cfg) && cfg.window > 0 && k.EmailKey? && InTime(trace) && NoReset(trace, k) && trace != []
    ensures FailuresWithin(cfg, trace, k, from)
            + EmailAllowance(cfg, After(cfg, trace), trace[|trace| - 1].at, k, from) <= 2 * cfg.max - 1
  {
    var before, a := trace[..|trace| - 1], trace[|trace| - 1];
    AlwaysArmed(cfg, before);
    if before == [] {
      EmailAllowanceStep(cfg, map[], a.at, a, k, from);
    } else {
      EmailBudget(cfg, before, k, from);
      EmailAllowanceStep(cfg, After(cfg, before), before[|before| - 1].at, a, k, from);
    }
  }

  /** Fixed window: any half-open interval of `window` seconds admits at most 2 * max - 1 failures
      for one email that is not reset, whatever the other attempts are. */
  lemma EmailRateBound(cfg: Config, trace: seq<Attempt>, email: string, from: int)
    requires Enabled(cfg) && cfg.window > 0 && InTime(trace) && NoReset(trace, EmailKey(email))
    ensures FailuresWithin(cfg, trace, EmailKey(email), from) <= 2 * cfg.max - 1
  {
    if trace != [] {
      EmailBudget(cfg, trace, EmailKey(email), from);
      assert EmailAllowance(cfg, After(cfg, trace), trace[|trace| - 1].at, EmailKey(email), from) >= 0;
    }
  }

  // ----- The address bound ---------------------------------------------------------------

  function IpAllowance(cfg: Config, s: Store, now: int, k: Key, from: int): int {
    if now >= from + cfg.window then 0
    else if Live(s, now, k) && s[k].exp.Some? && s[k].exp.value >= from + cfg.window then Max(0, cfg.max - s[k].count)
    else cfg.max
  }

  /** No counter lives longer than one window from second `now` on. */
  ghost predicate Timely(cfg: Config, s: Store, now: int) {
    forall k :: k in s ==> s[k].exp.Some? && s[k].exp.value <= now + cfg.window
  }

  lemma AttemptTimely(cfg: Config, s: Store, now: int, a: Attempt)
    requires Enabled(cfg) && cfg.window > 0 && Armed(s) && Timely(cfg, s, now) && now <= a.at
    ensures Timely(cfg, Attempted(cfg, s, a), a.at)
  {
  }

  lemma {:induction false} AlwaysTimely(cfg: Config, trace: seq<Attempt>)
    requires Enabled(cfg) && cfg.window > 0 && InTime(trace) && trace != []
    ensures Timely(cfg, After(cfg, trace), trace[|trace| - 1].at)
  {
    var before, a := trace[..|trace| - 1], trace[|trace| - 1];
    AlwaysArmed(cfg, before);
    if before == [] {
    } else {
      AlwaysTimely(cfg, before);
    }
    AttemptTimely(cfg, After(cfg, before), if before == [] then a.at else before[|before| - 1].at, a);
  }

  lemma IpAllowanceStep(cfg: Config, s: Store, now: int, a: Attempt, k: Key, from: int)
    requires Enabled(cfg) && cfg.window > 0 && Armed(s) && Timely(cfg, s, now) && k.IpKey? && now <= a.at
    requires Concerns(a, k) ==> !a.success
    ensures var counted := if Fails(cfg, s, a, k) && from <= a.at < from + cfg.window then 1 else 0;
            counted + IpAllowance(cfg, Attempted(cfg, s, a), a.at, k, from) <= IpAllowance(cfg, s, now, k, from)
  {
    BucketStep(cfg, s, a, k);
    assert IpAllowance(cfg, s, a.at, k, from) <= IpAllowance(cfg, s, now, k, from);
  }

  lemma {:induction false} IpBudget(cfg: Config, trace: seq<Attempt>, k: Key, from: int)
    requires Enabled(cfg) && cfg.window > 0 && k.IpKey? && InTime(trace) && NoReset(trace, k) && trace != []
    ensures FailuresWithin(cfg, trace, k, from)
            + IpAllowance(cfg, After(cfg, trace), trace[|trace| - 1].at, k, from) <= cfg.max
  {
    var before, a := trace[..|trace| - 1], trace[|trace| - 1];
    AlwaysArmed(cfg, before);
    if before == [] {
      IpAllowanceStep(cfg, map[], a.at, a, k, from);
    } else {
      IpBudget(cfg, before, k, from);
      AlwaysTimely(cfg, before);
      IpAllowanceStep(cfg, After(cfg, before), before[|before| - 1].at, a, k, from);
    }
  }

  /** Re-armed window: at most max failures for one address that is not reset. */
  lemma IpRateBound(cfg: Config, trace: seq<Attempt>, ip: string, from: int)
    requires Enabled(cfg) && cfg.window > 0 && InTime(trace) && NoReset(trace, IpKey(ip))
    ensures FailuresWithin(cfg, trace, IpKey(ip), from) <= cfg.max
  {
    if trace != [] {
      IpBudget(cfg, trace, IpKey(ip), from);
      assert IpAllowance(cfg, After(cfg, trace), trace[|trace| - 1].at, IpKey(ip), from) >= 0;
    }
  }

  // ----- The bounds are attained ---------------------------------------------------------

  /** `n` failed logins in the same second, without an address. */
  function Burst(n: nat, at: int, email: string): seq<Attempt> {
    seq(n, _ => Login(at, email, None, false))
  }

  lemma {:induction false} BurstAdds(cfg: Config, trace: seq<Attempt>, n: nat, at: int, email: string, from: int)
    requires Enabled(cfg) && cfg.window > 0 && from <= at < from + cfg.window
    requires Count(After(cfg, trace), at, EmailKey(email)) + n <= cfg.max
    ensures var k := EmailKey(email);
            var s, s' := After(cfg, trace), After(cfg, trace + Burst(n, at, email));
            FailuresWithin(cfg, trace + Burst(n, at, email), k, from) == FailuresWithin(cfg, trace, k, from) + n
            && Count(s', at, k) == Count(s, at, k) + n
            && (n > 0 ==> Live(s', at, k) && s'[k].exp == if Live(s, at, k) then s[k].exp else Some(at + cfg.window))
  {
    if n == 0 {
      assert trace + Burst(0, at, email) == trace;
    } else {
      BurstAdds(cfg, trace, n - 1, at, email, from);
      assert trace + Burst(n, at, email) == (trace + Burst(n - 1, at, email)) + [Login(at, email, None, false)];
      FailureAdds(cfg, trace + Burst(n - 1, at, email), at, email, from);
    }
  }

  lemma FailureAdds(cfg: Config, trace: seq<Attempt>, at: int, email: string, from: int)
    requires Enabled(cfg) && cfg.window > 0 && from <= at < from + cfg.window
    requires Count(After(cfg, trace), at, EmailKey(email)) < cfg.max
    ensures var k := EmailKey(email);
            var t := trace + [Login(at, email, None, false)];
            var s, s' := After(cfg, trace), After(cfg, t);
            FailuresWithin(cfg, t, k, from) == FailuresWithin(cfg, trace, k, from) + 1
            && Count(s', at, k) == Count(s, at, k) + 1
            && Live(s', at, k) && s'[k].exp == if Live(s, at, k) then s[k].exp else Some(at + cfg.window)
  {
    var a := Login(at, email, None, false);
    assert (trace + [a])[..|trace|] == trace;
    AlwaysArmed(cfg, trace);
    BucketStep(cfg, After(cfg, trace), a, EmailKey(email));
  }

  /** One failure in second 0, max - 1 more in the last second of its window, and max in the next
      second: 2 * max - 1 of them lie within `window` seconds. */
  function WorstTrace(cfg: Config, email: string): seq<Attempt>
    requires Enabled(cfg)
  {
    Burst(1, 0, email) + Burst(cfg.max - 1, cfg.window - 1, email) + Burst(cfg.max, cfg.window, email)
  }

  lemma FirstFailure(cfg: Config, email: string)
    requires Enabled(cfg) && cfg.window > 0
    ensures var t, k := Burst(1, 0, email), EmailKey(email);
            FailuresWithin(cfg, t, k, 1) == 0 && k in After(cfg, t) && After(cfg, t)[k] == Bucket(1, Some(cfg.window))
  {
    var t := Burst(1, 0, email);
    assert t[..0] == [];
    BucketStep(cfg, map[], t[0], EmailKey(email));
  }

  lemma FullWindow(cfg: Config, email: string)
    requires Enabled(cfg) && cfg.window >= 2
    ensures var t, k := Burst(1, 0, email) + Burst(cfg.max - 1, cfg.window - 1, email), EmailKey(email);
            FailuresWithin(cfg, t, k, 1) == cfg.max - 1
            && k in After(cfg, t) && After(cfg, t)[k].exp == Some(cfg.window)
  {
    FirstFailure(cfg, email);
    BurstAdds(cfg, Burst(1, 0, email), cfg.max - 1, cfg.window - 1, email, 1);
    if cfg.max == 1 {
      assert Burst(1, 0, email) + Burst(0, cfg.window - 1, email) == Burst(1, 0, email);
    }
  }

  lemma BurstIntoNextWindow(cfg: Config, trace: seq<Attempt>, email: string)
    requires Enabled(cfg) && cfg.window >= 2
    requires EmailKey(email) in After(cfg, trace) && After(cfg, trace)[EmailKey(email)].exp == Some(cfg.window)
    ensures FailuresWithin(cfg, trace + Burst(cfg.max, cfg.window, email), EmailKey(email), 1)
            == FailuresWithin(cfg, trace, EmailKey(email), 1) + cfg.max
  {
    assert Count(After(cfg, trace), cfg.window, EmailKey(email)) == 0;
    BurstAdds(cfg, trace, cfg.max, cfg.window, email, 1);
  }

  lemma WorstTraceCounts(cfg: Config, email: string)
    requires Enabled(cfg) && cfg.window >= 2
    ensures FailuresWithin(cfg, WorstTrace(cfg, email), EmailKey(email), 1) == 2 * cfg.max - 1
  {
    FullWindow(cfg, email);
    BurstIntoNextWindow(cfg, Burst(1, 0, email) + Burst(cfg.max - 1, cfg.window - 1, email), email);
  }

  lemma EmailBoundIsTight(cfg: Config, email: string)
    requires Enabled(cfg) && cfg.window >= 2
    ensures var t := WorstTrace(cfg, email);
            InTime(t) && NoReset(t, EmailKey(email)) && FailuresWithin(cfg, t, EmailKey(email), 1) == 2 * cfg.max - 1
  {
    WorstTraceCounts(cfg, email);
  }

  lemma IpBoundIsTight(cfg: Config, ip: string)
    requires Enabled(cfg) && cfg.window > 0 && ip != ""
    ensures var t := seq(cfg.max, _ => Refresh(0, Some(ip), false));
            FailuresWithin(cfg, t, IpKey(ip), 0) == cfg.max
  {
    IpBurst(cfg, cfg.max, ip);
  }

  lemma {:induction false} IpBurst(cfg: Config, n: nat, ip: string)
    requires Enabled(cfg) && cfg.window > 0 && ip != "" && n <= cfg.max
    ensures var t := seq(n, _ => Refresh(0, Some(ip), false));
            FailuresWithin(cfg, t, IpKey(ip), 0) == n && Count(After(cfg, t), 0, IpKey(ip)) == n
  {
    if n == 0 {
    } else {
      var t := seq(n, _ => Refresh(0, Some(ip), false));
      IpBurst(cfg, n - 1, ip);
      assert t[..n - 1] == seq(n - 1, _ => Refresh(0, Some(ip), false));
      AlwaysArmed(cfg, t[..n - 1]);
      BucketStep(cfg, After(cfg, t[..n - 1]), t[n - 1], IpKey(ip));
    }
  }

  // ----- Lifetime of a lock --------------------------------------------------------------

  /** Attempt `i` of the trace is a counted failure that found no live counter: it opens a window. */
  predicate OpensWindow(cfg: Config, trace: seq<Attempt>, i: nat, k: Key)
    requires i < |trace|
  {
    var s := After(cfg, trace[..i]);
    Fails(cfg, s, trace[i], k) && !Live(s, trace[i].at, k)
  }

  lemma WindowStaysOpen(cfg: Config, s: Store, a: Attempt, now: int, k: Key)
    requires Enabled(cfg) && cfg.window > 0 && Armed(s) && k.EmailKey? && a.at <= now
    requires Live(Attempted(cfg, s, a), now, k) && !(Fails(cfg, s, a, k) && !Live(s, a.at, k))
    ensures Live(s, a.at, k) && s[k].exp == Attempted(cfg, s, a)[k].exp
  {
    if !Concerns(a, k) || !a.success { BucketStep(cfg, s, a, k); }
  }

  /** Some failure opened the window that ends at `end`. */
  ghost predicate WindowUntil(cfg: Config, trace: seq<Attempt>, k: Key, end: Option<int>) {
    exists first: nat :: first < |trace| && OpensWindow(cfg, trace, first, k) && end == Some(trace[first].at + cfg.window)
  }

  lemma WindowKept(cfg: Config, before: seq<Attempt>, a: Attempt, k: Key, end: Option<int>)
    requires WindowUntil(cfg, before, k, end)
    ensures WindowUntil(cfg, before + [a], k, end)
  {
    var first: nat :| first < |before| && OpensWindow(cfg, before, first, k) && end == Some(before[first].at + cfg.window);
    assert (before + [a])[..first] == before[..first];
    assert OpensWindow(cfg, before + [a], first, k);
  }

  lemma WindowOpened(cfg: Config, before: seq<Attempt>, a: Attempt, k: Key)
    requires Enabled(cfg) && cfg.window > 0 && Armed(After(cfg, before)) && k.EmailKey?
    requires Fails(cfg, After(cfg, before), a, k) && !Live(After(cfg, before), a.at, k)
    ensures WindowUntil(cfg, before + [a], k, Attempted(cfg, After(cfg, before), a)[k].exp)
  {
    BucketStep(cfg, After(cfg, before), a, k);
    assert (before + [a])[..|before|] == before;
    assert OpensWindow(cfg, before + [a], |before|, k);
  }

  lemma WindowStep(cfg: Config, before: seq<Attempt>, a: Attempt, now: int, k: Key)
    requires Enabled(cfg) && cfg.window > 0 && Armed(After(cfg, before)) && k.EmailKey? && a.at <= now
    requires Live(Attempted(cfg, After(cfg, before), a), now, k)
    requires Live(After(cfg, before), a.at, k) ==> WindowUntil(cfg, before, k, After(cfg, before)[k].exp)
    ensures WindowUntil(cfg, before + [a], k, Attempted(cfg, After(cfg, before), a)[k].exp)
  {
    var s := After(cfg, before);
    if Fails(cfg, s, a, k) && !Live(s, a.at, k) {
      WindowOpened(cfg, before, a, k);
    } else {
      WindowStaysOpen(cfg, s, a, now, k);
      WindowKept(cfg, before, a, k, s[k].exp);
    }
  }

  /** A live email counter expires one window after the failure that opened it; failures in between
      do not prolong it. */
  lemma {:induction false} EmailWindowIsFixed(cfg: Config, trace: seq<Attempt>, now: int, email: string)
    requires Enabled(cfg) && cfg.window > 0 && InTime(trace) && (trace != [] ==> trace[|trace| - 1].at <= now)
    requires Live(After(cfg, trace), now, EmailKey(email))
    ensures WindowUntil(cfg, trace, EmailKey(email), After(cfg, trace)[EmailKey(email)].exp)
  {
    var before, a := trace[..|trace| - 1], trace[|trace| - 1];
    AlwaysArmed(cfg, before);
    if Live(After(cfg, before), a.at, EmailKey(email)) {
      EmailWindowIsFixed(cfg, before, a.at, email);
    }
    WindowStep(cfg, before, a, now, EmailKey(email));
    assert trace == before + [a];
  }

  /** An email lock never outlives `window` seconds after the first failure of its window, whatever
      came after that failure. */
  lemma {:induction false} EmailLockIsShort(cfg: Config, trace: seq<Attempt>, now: int, email: string, ip: Option<string>)
    requires Enabled(cfg) && cfg.window > 0 && InTime(trace) && (trace != [] ==> trace[|trace| - 1].at <= now)
    requires Check(cfg, After(cfg, trace), now, email, ip).Some? && Check(cfg, After(cfg, trace), now, email, ip).value.byEmail
    ensures exists first: nat :: first < |trace| && OpensWindow(cfg, trace, first, EmailKey(email))
              && trace[first].at <= now < trace[first].at + cfg.window
  {
    EmailWindowIsFixed(cfg, trace, now, email);
  }

  /** `retry_after_seconds` is exact: while neither counter changes, the request stays locked out
      before that many seconds have passed, and is let through from then on. */
  lemma RetryAfterIsExact(cfg: Config, trace: seq<Attempt>, now: int, email: string, ip: Option<string>, later: Store, d: nat)
    requires cfg.window > 0
    requires var s := After(cfg, trace);
             forall k :: k == EmailKey(email) || (HasIp(ip) && k == IpKey(ip.value)) ==>
               (k in later <==> k in s) && (k in s ==> later[k] == s[k])
    ensures var lock := Check(cfg, After(cfg, trace), now, email, ip);
            lock.Some? ==>
              lock.value.retryAfter > 0
              && (Check(cfg, later, now + d, email, ip).Some? <==> d < lock.value.retryAfter)
  {
    if Enabled(cfg) { AlwaysArmed(cfg, trace); }
  }
}
