/** The per-domain registry of token buckets and the three operations the
    service exposes on it: configure a domain, check (admit or refuse one
    request to a domain) and report the number of tracked domains.

    The registry's state transitions are first given as functions on the map
    (Configured, RefillAt, CheckStep, CheckRun) with the properties the
    service promises proved about them; the class Registry then holds the
    map as a field and its methods update it in place, each proved to
    perform exactly the corresponding transition. */
module Throttle {
  import opened BucketMath

  datatype Option<T> = None | Some(value: T) {
    function GetOr(default: T): T {
      match this
      case Some(v) => v
      case None => default
    }
  }

  /** Outcome of one check: the admission decision and the new registry. */
  datatype Step = Step(allowed: bool, buckets: map<string, Bucket>)

  /** Outcomes of consecutive checks on one domain, and the final registry. */
  datatype Run = Run(outcomes: seq<bool>, buckets: map<string, Bucket>)

  /** Every bucket in the registry has a usable configuration and holds no
      more tokens than its cap. */
  predicate AllConfigured(m: map<string, Bucket>) {
    forall d :: d in m ==> WellConfigured(m[d]) && m[d].tokens <= m[d].cap
  }

  /** Every bucket in the registry holds between zero and `cap` tokens. */
  predicate AllInRange(m: map<string, Bucket>) {
    forall d :: d in m ==> InRange(m[d])
  }

  /** The clock has not run backwards since the domain's last refill. */
  predicate ClockForward(m: map<string, Bucket>, domain: string, now: int) {
    domain in m ==> m[domain].last <= now
  }

  /** The bucket of `domain`, or a fresh default one when the domain is new. */
  function Lookup(m: map<string, Bucket>, domain: string, now: int): Bucket {
    if domain in m then m[domain] else Default(now)
  }

  /** Get-or-create followed by refill: the registry after the domain's
      bucket has been brought up to date at `now`. */
  function RefillAt(m: map<string, Bucket>, domain: string, now: int): (r: map<string, Bucket>)
    requires AllConfigured(m)
    ensures r.Keys == m.Keys + {domain}
    ensures forall d :: d in m && d != domain ==> r[d] == m[d]
    ensures r[domain] == Refilled(Lookup(m, domain, now), now)
    ensures domain !in m ==> r[domain] == Default(now)
    ensures AllConfigured(r)
  {
    m[domain := Refilled(Lookup(m, domain, now), now)]
  }

  /** One check of `domain` at `now`. */
  function CheckStep(m: map<string, Bucket>, domain: string, now: int): (s: Step)
    requires AllConfigured(m)
    ensures s.buckets.Keys == m.Keys + {domain}
    ensures forall d :: d in m && d != domain ==> s.buckets[d] == m[d]
    ensures var b := RefillAt(m, domain, now)[domain];
      && s.allowed == (b.tokens >= 1.0)
      && s.buckets[domain] == (if s.allowed then b.(tokens := b.tokens - 1.0) else b)
    ensures AllConfigured(s.buckets)
  {
    var r := RefillAt(m, domain, now);
    var b := r[domain];
    if b.tokens >= 1.0 then Step(true, r[domain := b.(tokens := b.tokens - 1.0)])
    else Step(false, r)
  }

  /** The registry after configuring `domain`: a full bucket with the given
      policy, stamped `now`, replacing whatever was there. */
  function Configured(m: map<string, Bucket>, domain: string, cap: real, periodMs: real, now: int)
    : (r: map<string, Bucket>)
    requires cap >= 0.0 && periodMs > 0.0
    ensures r.Keys == m.Keys + {domain}
    ensures r[domain].tokens == r[domain].cap == cap
    ensures r[domain].periodMs == periodMs && r[domain].last == now
    ensures forall d :: d in m && d != domain ==> r[d] == m[d]
    ensures AllConfigured(m) ==> AllConfigured(r)
  {
    m[domain := Bucket(cap, cap, periodMs, now)]
  }

  /** `n` consecutive checks of `domain`, all at time `now`. */
  function CheckRun(m: map<string, Bucket>, domain: string, now: int, n: nat): (r: Run)
    requires AllConfigured(m)
    ensures |r.outcomes| == n
    ensures AllConfigured(r.buckets)
    ensures n > 0 ==> r.buckets.Keys == m.Keys + {domain}
    decreases n
  {
    if n == 0 then Run([], m)
    else
      var s := CheckStep(m, domain, now);
      var rest := CheckRun(s.buckets, domain, now, n - 1);
      Run([s.allowed] + rest.outcomes, rest.buckets)
  }

  /** With a clock that does not run backwards, a check keeps every bucket's
      tokens between zero and its cap, whatever it answers. */
  lemma CheckKeepsRange(m: map<string, Bucket>, domain: string, now: int)
    requires AllConfigured(m) && AllInRange(m) && ClockForward(m, domain, now)
    ensures AllInRange(CheckStep(m, domain, now).buckets)
  {
    var b := Lookup(m, domain, now);
    RefillKeepsRange(b, now);
  }

  /** The first check of a domain never seen before creates exactly one
      default bucket, admits the request and leaves 29 of its 30 tokens. */
  lemma FirstCheckOfNewDomain(m: map<string, Bucket>, domain: string, now: int)
    requires AllConfigured(m) && domain !in m
    ensures var s := CheckStep(m, domain, now);
      && s.allowed
      && s.buckets.Keys == m.Keys + {domain}
      && |s.buckets| == |m| + 1
      && s.buckets[domain] == Bucket(29.0, 30.0, 60000.0, now)
  {
    RefillSameInstant(Default(now));
  }

  /** A check adds a key only when the domain is new, and never removes one. */
  lemma CheckKeyCount(m: map<string, Bucket>, domain: string, now: int)
    requires AllConfigured(m)
    ensures m.Keys <= CheckStep(m, domain, now).buckets.Keys
    ensures |CheckStep(m, domain, now).buckets| == if domain in m then |m| else |m| + 1
  {
  }

  /** Configuring adds a key only when the domain is new, and never removes
      one. */
  lemma ConfigureKeyCount(m: map<string, Bucket>, domain: string, cap: real, periodMs: real, now: int)
    requires cap >= 0.0 && periodMs > 0.0
    ensures m.Keys <= Configured(m, domain, cap, periodMs, now).Keys
    ensures |Configured(m, domain, cap, periodMs, now)| == if domain in m then |m| else |m| + 1
  {
  }

  /** Configuring twice with the same arguments and the same time gives the
      same registry as configuring once. */
  lemma ConfigureIdempotent(m: map<string, Bucket>, domain: string, cap: real, periodMs: real, now: int)
    requires cap >= 0.0 && periodMs > 0.0
    ensures var once := Configured(m, domain, cap, periodMs, now);
      Configured(once, domain, cap, periodMs, now) == once
  {
  }

  /** Configuring resets the domain regardless of its previous bucket: two
      registries that differ only in that domain's bucket agree afterwards. */
  lemma ConfigureForgetsPrevious(m: map<string, Bucket>, b1: Bucket, b2: Bucket, domain: string,
                                 cap: real, periodMs: real, now: int)
    requires cap >= 0.0 && periodMs > 0.0
    ensures Configured(m[domain := b1], domain, cap, periodMs, now)
         == Configured(m[domain := b2], domain, cap, periodMs, now)
  {
  }

  /** A bucket refilled at `now` that holds less than one token refuses
      every check at `now`, and each refusal leaves the registry as it was. */
  lemma {:induction false} DeniedAtInstant(m: map<string, Bucket>, domain: string, now: int, n: nat)
    requires AllConfigured(m) && domain in m
    requires m[domain].last == now && 0.0 <= m[domain].tokens < 1.0
    ensures forall i :: 0 <= i < n ==> !CheckRun(m, domain, now, n).outcomes[i]
    decreases n
  {
    if n > 0 {
      var s := CheckStep(m, domain, now);
      var r := CheckRun(m, domain, now, n);
      RefillSameInstant(m[domain]);
      assert !s.allowed && s.buckets == m;
      DeniedAtInstant(m, domain, now, n - 1);
      var rest := CheckRun(m, domain, now, n - 1);
      assert r.outcomes == [false] + rest.outcomes;
      forall i | 0 <= i < n
        ensures !r.outcomes[i]
      {
        if i > 0 { assert r.outcomes[i] == rest.outcomes[i - 1]; }
      }
    }
  }

  /** A bucket refilled at `now` that holds exactly `t` whole tokens, checked
      `n >= t` times at `now`, admits the first `t` checks and refuses all
      the others. */
  lemma {:induction false} DrainAtInstant(m: map<string, Bucket>, domain: string, now: int, t: nat, n: nat)
    requires AllConfigured(m) && domain in m
    requires m[domain].last == now && m[domain].tokens == t as real
    requires t <= n
    ensures forall i :: 0 <= i < n ==> CheckRun(m, domain, now, n).outcomes[i] == (i < t)
    decreases t
  {
    if t == 0 {
      DeniedAtInstant(m, domain, now, n);
    } else {
      var b := m[domain];
      var s := CheckStep(m, domain, now);
      var r := CheckRun(m, domain, now, n);
      RefillSameInstant(b);
      assert s.allowed && s.buckets[domain] == b.(tokens := b.tokens - 1.0);
      DrainAtInstant(s.buckets, domain, now, t - 1, n - 1);
      var rest := CheckRun(s.buckets, domain, now, n - 1);
      assert r.outcomes == [true] + rest.outcomes;
      forall i | 0 <= i < n
        ensures r.outcomes[i] == (i < t)
      {
        if i > 0 { assert r.outcomes[i] == rest.outcomes[i - 1]; }
      }
    }
  }

  /** Burst: right after configuring a domain with a whole-number cap `c`,
      any `n >= c` consecutive checks at the same instant admit exactly the
      first `c` and refuse every one after them. */
  lemma BurstAfterConfigure(m: map<string, Bucket>, domain: string, c: nat, periodMs: real, now: int, n: nat)
    requires AllConfigured(m) && periodMs > 0.0 && c <= n
    ensures var r := CheckRun(Configured(m, domain, c as real, periodMs, now), domain, now, n);
      forall i :: 0 <= i < n ==> r.outcomes[i] == (i < c)
  {
    DrainAtInstant(Configured(m, domain, c as real, periodMs, now), domain, now, c, n);
  }

  /** Refill: once a full period has passed since a domain's last refill, a
      check of a domain whose cap is at least one is admitted, and leaves
      `cap - 1` tokens, even if the bucket had been exhausted. */
  lemma CheckAdmitsAfterFullPeriod(m: map<string, Bucket>, domain: string, now: int)
    requires AllConfigured(m) && AllInRange(m) && domain in m
    requires m[domain].cap >= 1.0
    requires (now - m[domain].last) as real >= m[domain].periodMs
    ensures CheckStep(m, domain, now).allowed
    ensures CheckStep(m, domain, now).buckets[domain].tokens == m[domain].cap - 1.0
  {
    RefillFullAfterPeriod(m[domain], now);
  }

  /** The registry object of the service: one map from domain to bucket,
      updated in place by the service's operations. */
  class Registry {
    var buckets: map<string, Bucket>

    ghost predicate Valid()
      reads this
    {
      AllConfigured(buckets)
    }

    /** An empty registry, as at process start. */
    constructor ()
      ensures Valid() && buckets == map[]
    {
      buckets := map[];
    }

    /** Get-or-create the domain's bucket, refill it at `now`, store it and
        return it. */
    method Refill(domain: string, now: int) returns (b: Bucket)
      requires Valid()
      modifies this
      ensures Valid()
      ensures buckets == RefillAt(old(buckets), domain, now)
      ensures b == buckets[domain]
    {
      var current := if domain in buckets then buckets[domain] else Default(now);
      b := Refilled(current, now);
      buckets := buckets[domain := b];
    }

    /** Replace the domain's bucket by a full one with the given policy;
        an omitted cap or period takes the default. */
    method Configure(domain: string, cap: Option<real>, periodMs: Option<real>, now: int)
      requires Valid()
      requires cap.GetOr(CAP) >= 0.0 && periodMs.GetOr(PERIOD) > 0.0
      modifies this
      ensures Valid()
      ensures buckets == Configured(old(buckets), domain, cap.GetOr(CAP), periodMs.GetOr(PERIOD), now)
    {
      var c := cap.GetOr(CAP);
      var p := periodMs.GetOr(PERIOD);
      buckets := buckets[domain := Bucket(c, c, p, now)];
    }

    /** Admit or refuse one request to `domain` at `now`. */
    method Check(domain: string, now: int) returns (allowed: bool)
      requires Valid()
      modifies this
      ensures Valid()
      ensures Step(allowed, buckets) == CheckStep(old(buckets), domain, now)
      ensures old(AllInRange(buckets)) && old(ClockForward(buckets, domain, now)) ==> AllInRange(buckets)
    {
      ghost var before := buckets;
      var b := Refill(domain, now);
      if b.tokens >= 1.0 {
        b := b.(tokens := b.tokens - 1.0);
        buckets := buckets[domain := b];
        allowed := true;
      } else {
        allowed := false;
      }
      if AllInRange(before) && ClockForward(before, domain, now) {
        CheckKeepsRange(before, domain, now);
      }
    }

    /** The number of domains currently tracked. */
    method Status() returns (count: nat)
      ensures count == |buckets.Keys|
    {
      count := |buckets|;
    }
  }

  /** A registry configured for one domain with a burst of two admits two
      checks at the same instant, refuses the third, and tracks one domain. */
  method BurstOfTwo(now: int) returns (outcomes: seq<bool>, count: nat)
    ensures outcomes == [true, true, false] && count == 1
  {
    var registry := new Registry();
    var key := "example.com";
    registry.Configure(key, Some(2.0), Some(1000.0), now);
    assert registry.buckets[key] == Bucket(2.0, 2.0, 1000.0, now);
    RefillSameInstant(registry.buckets[key]);
    var first := registry.Check(key, now);
    assert registry.buckets[key] == Bucket(1.0, 2.0, 1000.0, now);
    RefillSameInstant(registry.buckets[key]);
    var second := registry.Check(key, now);
    assert registry.buckets[key] == Bucket(0.0, 2.0, 1000.0, now);
    RefillSameInstant(registry.buckets[key]);
    var third := registry.Check(key, now);
    assert registry.buckets.Keys == {key};
    outcomes := [first, second, third];
    count := registry.Status();
  }
}
