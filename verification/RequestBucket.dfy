/** The request bucket of the composite client: filled every second, drawn on by requests, cut back by 429 responses. */
module RequestBucket {
  import opened Integers

  datatype Event = Tick | Admit | Penalty(attempt: nat)

  function Pow2(n: nat): (p: nat)
    ensures p > n
  {
    if n == 0 then 1 else 2 * Pow2(n - 1)
  }

  /** The filler adds a second's worth unless the bucket already holds more than 300 of them. */
  function Fill(bucket: int, rate: nat): int {
    if bucket <= rate * 300 then bucket + rate else bucket
  }

  function Apply(bucket: int, rate: nat, e: Event): int {
    match e
    case Tick => Fill(bucket, rate)
    case Admit => bucket - 1
    case Penalty(attempt) => bucket - Pow2(attempt)
  }

  function Run(bucket: int, rate: nat, es: seq<Event>): int {
    if es == [] then bucket else Apply(Run(bucket, rate, es[..|es| - 1]), rate, es[|es| - 1])
  }

  /** Requests are admitted only from a positive bucket. */
  predicate Allowed(bucket: int, rate: nat, es: seq<Event>) {
    es == [] ||
    (Allowed(bucket, rate, es[..|es| - 1]) && (es[|es| - 1] == Admit ==> Run(bucket, rate, es[..|es| - 1]) > 0))
  }

  function Count(es: seq<Event>, e: Event): nat {
    if es == [] then 0 else Count(es[..|es| - 1], e) + if es[|es| - 1] == e then 1 else 0
  }

  lemma OneMoreTick(n: nat, rate: nat)
    ensures (n + 1) * rate == n * rate + rate
  {
  }

  /** One event keeps the account; `filled` is what all the ticks so far could add. */
  lemma OneEvent(start: int, content: int, admitted: nat, filled: int, rate: nat, e: Event)
    requires admitted + Max(content, 0) <= start + filled && (e == Admit ==> content > 0)
    ensures (admitted + if e == Admit then 1 else 0) + Max(Apply(content, rate, e), 0)
      <= start + filled + if e == Tick then rate else 0
  {
  }

  /** What was admitted and what is left never exceed what was there and what was filled in. */
  lemma {:induction false} Accounted(bucket: int, rate: nat, es: seq<Event>)
    requires Allowed(bucket, rate, es)
    ensures Count(es, Admit) + Max(Run(bucket, rate, es), 0) <= Max(bucket, 0) + Count(es, Tick) * rate
  {
    if es != [] {
      var init := es[..|es| - 1];
      Accounted(bucket, rate, init);
      OneEvent(Max(bucket, 0), Run(bucket, rate, init), Count(init, Admit), Count(init, Tick) * rate, rate,
        es[|es| - 1]);
      OneMoreTick(Count(init, Tick), rate);
    }
  }

  /** In a window of `k` ticks at most the bucket's content and `k` seconds' worth of requests are admitted. */
  lemma WindowIsBounded(bucket: int, rate: nat, es: seq<Event>, from: nat, to: nat)
    requires from <= to <= |es| && Allowed(bucket, rate, es)
    ensures var window := es[from..to];
      Count(window, Admit) <= Max(Run(bucket, rate, es[..from]), 0) + Count(window, Tick) * rate
  {
    AllowedPart(bucket, rate, es, to);
    AllowedSuffix(bucket, rate, es[..to], from);
    assert es[..to][from..] == es[from..to] && es[..to][..from] == es[..from];
    Accounted(Run(bucket, rate, es[..from]), rate, es[from..to]);
  }

  lemma {:induction false} AllowedPart(bucket: int, rate: nat, es: seq<Event>, k: nat)
    requires Allowed(bucket, rate, es) && k <= |es|
    ensures Allowed(bucket, rate, es[..k])
    decreases |es|
  {
    if k == |es| {
      assert es[..k] == es;
    } else {
      assert es[..|es| - 1][..k] == es[..k];
      AllowedPart(bucket, rate, es[..|es| - 1], k);
    }
  }

  lemma {:induction false} AllowedSuffix(bucket: int, rate: nat, es: seq<Event>, k: nat)
    requires Allowed(bucket, rate, es) && k <= |es|
    ensures Allowed(Run(bucket, rate, es[..k]), rate, es[k..])
    ensures Run(Run(bucket, rate, es[..k]), rate, es[k..]) == Run(bucket, rate, es)
    decreases |es|
  {
    if k == |es| {
      assert es[..k] == es && es[k..] == [];
    } else {
      var init := es[..|es| - 1];
      AllowedSuffix(bucket, rate, init, k);
      assert init[..k] == es[..k] && es[k..][..|es[k..]| - 1] == init[k..] && es[k..][|es[k..]| - 1] == es[|es| - 1];
    }
  }

  /** The seconds at which the bucket was not yet too full to be filled. */
  function Filled(bucket: int, rate: nat, es: seq<Event>): nat {
    if es == [] then 0
    else
      var init := es[..|es| - 1];
      Filled(bucket, rate, init) + if es[|es| - 1] == Tick && Run(bucket, rate, init) <= 300 * rate then 1 else 0
  }

  /** What the 429 responses cost: two to the power of the attempt each. */
  function Penalties(es: seq<Event>): nat {
    if es == [] then 0
    else Penalties(es[..|es| - 1]) + if es[|es| - 1].Penalty? then Pow2(es[|es| - 1].attempt) else 0
  }

  /** The bucket is what was there and was filled in, less one for each request admitted and the cost of each 429. */
  lemma {:induction false} Balanced(bucket: int, rate: nat, es: seq<Event>)
    ensures Run(bucket, rate, es) == bucket + Filled(bucket, rate, es) * rate - Count(es, Admit) - Penalties(es)
  {
    if es != [] {
      Balanced(bucket, rate, es[..|es| - 1]);
      OneMoreTick(Filled(bucket, rate, es[..|es| - 1]), rate);
    }
  }

  /** From a bucket within the cap, no run takes it over 301 seconds' worth. */
  lemma {:induction false} BucketIsCapped(bucket: int, rate: nat, es: seq<Event>)
    requires bucket <= 301 * rate
    ensures Run(bucket, rate, es) <= 301 * rate
  {
    if es != [] {
      BucketIsCapped(bucket, rate, es[..|es| - 1]);
    }
  }

  function Ticks(k: nat): seq<Event> {
    if k == 0 then [] else Ticks(k - 1) + [Tick]
  }

  /** A penalty is waited out: once the ticks outweigh the debt, a request is admitted again. */
  lemma {:induction false} WaitEnds(bucket: int, rate: nat, k: nat)
    requires bucket <= 0 && rate > 0
    ensures Run(bucket, rate, Ticks(k)) > 0 || Run(bucket, rate, Ticks(k)) == bucket + k * rate
    ensures k * rate > -bucket ==> Run(bucket, rate, Ticks(k)) > 0
  {
    if k > 0 {
      WaitEnds(bucket, rate, k - 1);
      assert Ticks(k)[..|Ticks(k)| - 1] == Ticks(k - 1);
      OneMoreTick(k - 1, rate);
    }
  }

  class TrustedNode {
    const maxRequestsPerSecond: nat
    var bucket: int

    constructor (maxRequestsPerSecond: nat)
      ensures this.maxRequestsPerSecond == maxRequestsPerSecond && bucket == 0
    {
      this.maxRequestsPerSecond, bucket := maxRequestsPerSecond, 0;
    }

    method OnSecond()
      modifies this
      ensures bucket == Apply(old(bucket), maxRequestsPerSecond, Tick)
    {
      if bucket <= maxRequestsPerSecond * 300 {
        bucket := bucket + maxRequestsPerSecond;
      }
    }

    method OnTooManyRequests(attempt: nat)
      modifies this
      ensures bucket == Apply(old(bucket), maxRequestsPerSecond, Penalty(attempt))
    {
      bucket := bucket - Pow2(attempt);
    }

    /** Waits through what happens meanwhile until the bucket is positive; it may wait longer than `meanwhile`. */
    method TrustedNodeRequest(meanwhile: seq<Event>) returns (admitted: bool, ghost waited: nat)
      requires Admit !in meanwhile
      modifies this
      ensures waited <= |meanwhile|
      ensures admitted ==> bucket == Run(old(bucket), maxRequestsPerSecond, meanwhile[..waited] + [Admit])
      ensures admitted
        <==> exists n :: 0 <= n <= |meanwhile| && Run(old(bucket), maxRequestsPerSecond, meanwhile[..n]) > 0
      ensures admitted ==> Allowed(old(bucket), maxRequestsPerSecond, meanwhile[..waited] + [Admit])
      ensures forall n :: 0 <= n < waited ==> Run(old(bucket), maxRequestsPerSecond, meanwhile[..n]) <= 0
      ensures !admitted ==> waited == |meanwhile| && bucket == Run(old(bucket), maxRequestsPerSecond, meanwhile)
    {
      var i := 0;
      assert meanwhile[..0] == [];
      while bucket <= 0 && i < |meanwhile|
        invariant 0 <= i <= |meanwhile|
        invariant bucket == Run(old(bucket), maxRequestsPerSecond, meanwhile[..i])
        invariant Allowed(old(bucket), maxRequestsPerSecond, meanwhile[..i])
        invariant forall n :: 0 <= n < i ==> Run(old(bucket), maxRequestsPerSecond, meanwhile[..n]) <= 0
        decreases |meanwhile| - i
      {
        assert meanwhile[..i + 1][..i] == meanwhile[..i];
        match meanwhile[i] {
          case Tick => OnSecond();
          case Penalty(attempt) => OnTooManyRequests(attempt);
        }
        i := i + 1;
      }
      waited := i;
      admitted := bucket > 0;
      if admitted {
        bucket := bucket - 1;
        ghost var es := meanwhile[..i] + [Admit];
        assert es[..|es| - 1] == meanwhile[..i];
      } else {
        assert meanwhile[..i] == meanwhile;
      }
    }
  }
}
