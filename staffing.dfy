/** The staffing engine (packages/shared/src/algorithms/index.ts): Erlang-C
    wait probability, the required-agent search, per-interval and per-curve
    headcount need, occupancy, the shrinkage split, the proportional shift
    allocator and the weekly-rest (DSR) compliance checker.

    Numbers are exact reals. Math.exp is not computed: it is passed in as
    the parameter `exp`, and the few facts a proof needs about it are stated
    as preconditions of the lemmas that use them. */
module Staffing {
  import opened Wrappers
  import opened JsRuntime

  /** The answer-time target used when the caller gives none, in seconds. */
  const DefaultAnswerTime: real := 20.0

  /** What Math.exp is assumed to satisfy where a proof needs it. */
  ghost predicate ExpOnNonPositive(exp: real -> real)
  {
    forall x :: x <= 0.0 ==> 0.0 < exp(x) <= 1.0
  }

  // ---------------------------------------------------------------------------
  // Erlang B and Erlang C

  /** Math.pow(x, n) for a whole exponent. */
  function Pow(x: real, n: nat): (r: real)
    ensures x > 0.0 ==> r > 0.0
  {
    if n == 0 then 1.0 else x * Pow(x, n - 1)
  }

  /** n!, with 0! = 1! = 1 as the source's helper returns for n <= 1. */
  function Fact(n: nat): (r: nat)
    ensures r >= 1
  {
    if n <= 1 then 1 else n * Fact(n - 1)
  }

  /** The source's factorial helper: a running product from 2 up to n. */
  method Factorial(n: int) returns (result: int)
    ensures result >= 1
    ensures result == if n <= 1 then 1 else Fact(n)
  {
    if n <= 1 {
      return 1;
    }
    result := 1;
    var i := 2;
    while i <= n
      invariant 2 <= i <= n + 1
      invariant result == Fact(i - 1)
    {
      result := result * i;
      i := i + 1;
    }
  }

  /** Term i of the Erlang-B sum, traffic^i / i!. */
  function Term(traffic: real, i: nat): (r: real)
    ensures traffic > 0.0 ==> r > 0.0
  {
    Pow(traffic, i) / Fact(i) as real
  }

  /** The sum of the first n terms, i = 0 .. n-1. */
  function PartialSum(traffic: real, n: nat): real
  {
    if n == 0 then 0.0 else PartialSum(traffic, n - 1) + Term(traffic, n - 1)
  }

  /** With positive traffic the sum of at least one term is at least 1 (term 0). */
  lemma {:induction false} PartialSumAtLeastOne(traffic: real, n: nat)
    requires traffic > 0.0 && n >= 1
    ensures PartialSum(traffic, n) >= 1.0
  {
    if n == 1 {
      assert PartialSum(traffic, 0) == 0.0;
      assert Term(traffic, 0) == 1.0;
    } else {
      PartialSumAtLeastOne(traffic, n - 1);
    }
  }

  /** The Erlang-B blocking probability for `agents` servers. */
  function ErlangB(agents: nat, traffic: real): (b: real)
    requires agents >= 1 && traffic > 0.0
    ensures 0.0 < b < 1.0
  {
    PartialSumAtLeastOne(traffic, agents);
    var t := Term(traffic, agents);
    var s := PartialSum(traffic, agents + 1);
    assert s == PartialSum(traffic, agents) + t && s > t;
    BelowOne(t, s);
    t / s
  }

  /** The Erlang-C conversion B / (1 - rho (1 - B)) lies strictly between 0 and
      1 whenever 0 < B < 1 and 0 < rho < 1. */
  lemma {:induction false} ErlangCConversionBounds(b: real, rho: real)
    requires 0.0 < b < 1.0 && 0.0 < rho < 1.0
    ensures 1.0 - rho * (1.0 - b) > 0.0
    ensures 0.0 < b / (1.0 - rho * (1.0 - b)) < 1.0
  {
    var d := 1.0 - rho * (1.0 - b);
    var u, v := 1.0 - rho, 1.0 - b;
    MulPos(u, v);
    assert d == b + u * v by {
      assert rho * v == v - u * v;
    }
    BelowOne(b, d);
  }

  /** Erlang C from Erlang B and the utilisation rho = traffic / agents. */
  function ErlangCFromB(b: real, rho: real): (c: real)
    requires 0.0 < b < 1.0 && 0.0 < rho < 1.0
    ensures 0.0 < c < 1.0
  {
    ErlangCConversionBounds(b, rho);
    b / (1.0 - rho * (1.0 - b))
  }

  /** erlangC(agents, traffic): 0 without servers or load, 1 at or over
      capacity, otherwise Erlang C from Erlang B, clamped to at most 1. */
  function ErlangCValue(agents: int, traffic: real): (c: real)
    ensures 0.0 <= c <= 1.0
    ensures agents <= 0 || traffic <= 0.0 ==> c == 0.0
    ensures agents > 0 && traffic >= agents as real ==> c == 1.0
    ensures agents > 0 && 0.0 < traffic < agents as real ==> 0.0 < c < 1.0
  {
    if agents <= 0 || traffic <= 0.0 then 0.0
    else if traffic >= agents as real then 1.0
    else
      BelowOne(traffic, agents as real);
      Min2(ErlangCFromB(ErlangB(agents, traffic), traffic / agents as real), 1.0)
  }

  /** With the last term t and the sum p of the terms before it, the
      Erlang-C conversion of B = t / (p + t) at utilisation rho = traffic / n
      is n t / ((n - traffic) p + n t). */
  lemma {:induction false} ConversionClosedForm(b: real, rho: real, t: real, p: real, n: real, traffic: real)
    requires t > 0.0 && p > 0.0 && 0.0 < traffic < n
    requires 0.0 < b < 1.0 && b * (p + t) == t
    requires 0.0 < rho < 1.0 && rho * n == traffic
    ensures ErlangCFromB(b, rho) == DelayClosedForm(n, traffic, t, p)
  {
    var s := p + t;
    var q := 1.0 - rho * (1.0 - b);
    var d := (n - traffic) * p + n * t;
    MulPos(n - traffic, p);
    MulPos(n, t);
    assert (1.0 - b) * s == p;
    assert q * s == s - rho * p by {
      assert q * s == s - rho * ((1.0 - b) * s);
    }
    assert q * s * n == d by {
      assert (s - rho * p) * n == s * n - (rho * n) * p;
    }
    MulPos(s, n);
    assert q * (s * n) == d;
    PositiveFactor(q, s * n);
    var c := b / q;
    assert c * q == b;
    assert c * d == n * t by {
      assert c * d == (c * q) * (s * n);
      assert b * (s * n) == (b * s) * n;
    }
    QuotientOf(n * t, d, c);
    assert ErlangCFromB(b, rho) == c;
  }

  /** The probability of delay with n agents written through the last
      term t and the sum p of the terms before it. */
  function DelayClosedForm(n: real, traffic: real, t: real, p: real): (c: real)
    requires 0.0 < traffic < n && t > 0.0 && p > 0.0
    ensures c > 0.0
  {
    MulPos(n - traffic, p);
    MulPos(n, t);
    DivPos(n * t, (n - traffic) * p + n * t);
    n * t / ((n - traffic) * p + n * t)
  }

  /** Term n + 1 times n + 1 is traffic times term n. */
  lemma {:induction false} NextTerm(traffic: real, n: nat)
    ensures (n + 1) as real * Term(traffic, n + 1) == traffic * Term(traffic, n)
  {
    var m := (n + 1) as real;
    var pw := Pow(traffic, n);
    var f := Fact(n) as real;
    var u := Term(traffic, n);
    var v := Term(traffic, n + 1);
    assert u * f == pw;
    assert Fact(n + 1) as real == m * f by {
      if n == 0 {
        assert Fact(1) == 1 && Fact(0) == 1;
      } else {
        assert Fact(n + 1) == (n + 1) * Fact(n);
      }
    }
    assert v * (m * f) == traffic * pw by {
      assert v == Pow(traffic, n + 1) / Fact(n + 1) as real;
      assert Pow(traffic, n + 1) == traffic * pw;
    }
    assert (m * v) * f == (traffic * u) * f by {
      assert (m * v) * f == v * (m * f);
      assert (traffic * u) * f == traffic * (u * f);
    }
    CancelFactor(m * v, traffic * u, f);
  }

  /** The core inequality: a (n - a) P <= n (n + 1 - a) (P + T), because
      n (n + 1 - a) - a (n - a) = (n - a)^2 + n is positive. */
  lemma {:induction false} NeighbourWeights(n: real, traffic: real, t: real, p: real)
    requires n >= 1.0 && 0.0 < traffic < n && t > 0.0 && p > 0.0
    ensures (traffic * (n - traffic)) * p <= (n * (n + 1.0 - traffic)) * (p + t)
  {
    var wa := n * (n + 1.0 - traffic);
    var wb := traffic * (n - traffic);
    var k := wa - wb;
    assert k == (n - traffic) * (n - traffic) + n;
    MulPos(n - traffic, n - traffic);
    MulPos(traffic, n - traffic);
    MulPos(k, p);
    MulPos(wa, t);
    assert wa * (p + t) == wa * p + wa * t;
    assert wa * p == wb * p + k * p;
  }

  /** The cross products of the two closed forms compare as the weights do. */
  lemma {:induction false} CrossProducts(n: real, traffic: real, t: real, p: real)
    requires n >= 1.0 && 0.0 < traffic < n && t > 0.0 && p > 0.0
    ensures (traffic * t) * ((n - traffic) * p + n * t)
         <= (n * t) * ((n + 1.0 - traffic) * (p + t) + traffic * t)
  {
    var wa := n * (n + 1.0 - traffic);
    var wb := traffic * (n - traffic);
    NeighbourWeights(n, traffic, t, p);
    MulMonotone(t, wb * p, wa * (p + t));
    assert (traffic * t) * ((n - traffic) * p + n * t) == t * (wb * p) + (traffic * t) * (n * t);
    assert (n * t) * ((n + 1.0 - traffic) * (p + t) + traffic * t) == t * (wa * (p + t)) + (traffic * t) * (n * t);
  }

  /** With m = n + 1 agents, term m is traffic t / m and the sum before it
      is p + t, so the closed form of m is traffic t / ((m - traffic) (p + t) + traffic t). */
  lemma {:induction false} ShiftedClosedForm(m: real, traffic: real, t1: real, t: real, p: real)
    requires 0.0 < traffic < m && t1 > 0.0 && t > 0.0 && p > 0.0 && m * t1 == traffic * t
    ensures (m - traffic) * (p + t) + traffic * t > 0.0
    ensures DelayClosedForm(m, traffic, t1, p + t) == traffic * t / ((m - traffic) * (p + t) + traffic * t)
  {
    var d := (m - traffic) * (p + t) + m * t1;
    MulPos(m - traffic, p + t);
    MulPos(traffic, t);
    assert d == (m - traffic) * (p + t) + traffic * t;
    assert DelayClosedForm(m, traffic, t1, p + t) == (m * t1) / d;
  }

  /** The closed forms of two neighbouring agent counts n and m = n + 1
      compare as their cross products do. */
  lemma {:induction false} NeighbourClosedForms(n: real, m: real, traffic: real, t: real, p: real)
    requires n >= 1.0 && m == n + 1.0 && 0.0 < traffic < n && t > 0.0 && p > 0.0
    ensures (m - traffic) * (p + t) + traffic * t > 0.0
    ensures traffic * t / ((m - traffic) * (p + t) + traffic * t) <= DelayClosedForm(n, traffic, t, p)
  {
    var lo := (m - traffic) * (p + t) + traffic * t;
    var hi := (n - traffic) * p + n * t;
    assert lo > 0.0 by {
      MulPos(m - traffic, p + t);
      MulPos(traffic, t);
    }
    assert hi > 0.0 by {
      MulPos(n - traffic, p);
      MulPos(n, t);
    }
    var lo' := (n + 1.0 - traffic) * (p + t) + traffic * t;
    assert lo == lo' by {
      SameProduct(m - traffic, n + 1.0 - traffic, p + t);
    }
    assert (traffic * t) * hi <= (n * t) * lo by {
      CrossProducts(n, traffic, t, p);
      SameProduct(lo, lo', n * t);
    }
  }

  /** Erlang B splits off its last term: B (P + T) = T. */
  lemma {:induction false} ErlangBSplit(n: nat, traffic: real)
    requires n >= 1 && traffic > 0.0
    ensures PartialSum(traffic, n) >= 1.0
    ensures ErlangB(n, traffic) * (PartialSum(traffic, n) + Term(traffic, n)) == Term(traffic, n)
  {
    PartialSumAtLeastOne(traffic, n);
    assert PartialSum(traffic, n + 1) == PartialSum(traffic, n) + Term(traffic, n);
  }

  /** Below capacity the clamp of erlangC does not bite. */
  lemma {:induction false} ErlangCBelowCapacity(n: nat, traffic: real)
    requires n >= 1 && 0.0 < traffic < n as real
    ensures 0.0 < traffic / n as real < 1.0
    ensures ErlangCValue(n, traffic) == ErlangCFromB(ErlangB(n, traffic), traffic / n as real)
  {
    BelowOne(traffic, n as real);
  }

  /** Below capacity, Erlang C is the closed form of term n and the sum of
      the terms before it. */
  lemma {:induction false} ErlangCClosedForm(n: nat, traffic: real)
    requires n >= 1 && 0.0 < traffic < n as real
    ensures PartialSum(traffic, n) >= 1.0
    ensures ErlangCValue(n, traffic) == DelayClosedForm(n as real, traffic, Term(traffic, n), PartialSum(traffic, n))
  {
    var nr := n as real;
    ErlangBSplit(n, traffic);
    ErlangCBelowCapacity(n, traffic);
    assert (traffic / nr) * nr == traffic;
    ConversionClosedForm(ErlangB(n, traffic), traffic / nr, Term(traffic, n), PartialSum(traffic, n), nr, traffic);
  }

  /** The closed form of n + 1 agents is at most that of n. */
  lemma {:induction false} ClosedFormStep(n: nat, traffic: real)
    requires n >= 1 && 0.0 < traffic < n as real
    ensures PartialSum(traffic, n) >= 1.0 && PartialSum(traffic, n + 1) >= 1.0
    ensures DelayClosedForm((n + 1) as real, traffic, Term(traffic, n + 1), PartialSum(traffic, n + 1))
         <= DelayClosedForm(n as real, traffic, Term(traffic, n), PartialSum(traffic, n))
  {
    var t := Term(traffic, n);
    var p := PartialSum(traffic, n);
    var t1 := Term(traffic, n + 1);
    var m := (n + 1) as real;
    PartialSumAtLeastOne(traffic, n);
    assert PartialSum(traffic, n + 1) == p + t;
    assert m * t1 == traffic * t by {
      NextTerm(traffic, n);
    }
    ShiftedClosedForm(m, traffic, t1, t, p);
    NeighbourClosedForms(n as real, m, traffic, t, p);
  }

  /** Below capacity, one agent more never raises the probability of
      delay: that of n + 1 agents is at most that of n. */
  lemma {:induction false} ErlangCStep(n: nat, traffic: real)
    requires n >= 1 && 0.0 < traffic < n as real
    ensures ErlangCValue(n + 1, traffic) <= ErlangCValue(n, traffic)
  {
    ErlangCClosedForm(n, traffic);
    ErlangCClosedForm(n + 1, traffic);
    ClosedFormStep(n, traffic);
  }

  /** Erlang C does not increase when an agent is added to at least one,
      for any positive traffic. (From 0 agents to 1 it can: the source
      returns 0 without agents.) */
  lemma {:induction false} ErlangCNonIncreasing(agents: int, traffic: real)
    requires agents >= 1 && traffic > 0.0
    ensures ErlangCValue(agents + 1, traffic) <= ErlangCValue(agents, traffic)
  {
    if traffic < agents as real {
      ErlangCStep(agents, traffic);
    }
  }

  /** The exception at zero agents: 0 without agents, 1 for one agent at
      full load. */
  lemma {:induction false} ErlangCZeroAgents()
    ensures ErlangCValue(0, 1.0) == 0.0 && ErlangCValue(1, 1.0) == 1.0
  {
  }

  /** The loop of erlangC: traffic^i / i! summed for i = 0 .. agents. */
  method TermSum(traffic: real, agents: nat) returns (sum: real)
    ensures sum == PartialSum(traffic, agents + 1)
  {
    sum := 0.0;
    var i := 0;
    while i <= agents
      invariant 0 <= i <= agents + 1
      invariant sum == PartialSum(traffic, i)
    {
      var fi := Factorial(i);
      sum := sum + Pow(traffic, i) / fi as real;
      i := i + 1;
    }
  }

  /** The source's erlangC: Erlang B by summing traffic^i / i! for i = 0 ..
      agents in a loop, then the Erlang-C conversion and the clamp. */
  method ErlangC(agents: int, traffic: real) returns (c: real)
    ensures c == ErlangCValue(agents, traffic)
  {
    if agents <= 0 || traffic <= 0.0 {
      return 0.0;
    }
    if traffic >= agents as real {
      return 1.0;
    }
    var fa := Factorial(agents);
    var erlangB := Pow(traffic, agents) / fa as real;
    var sum := TermSum(traffic, agents);
    PartialSumAtLeastOne(traffic, agents + 1);
    erlangB := erlangB / sum;
    assert erlangB == ErlangB(agents, traffic);
    BelowOne(traffic, agents as real);
    var rho := traffic / agents as real;
    var erlangC := erlangB / (1.0 - rho * (1.0 - erlangB));
    assert erlangC == ErlangCFromB(erlangB, rho);
    c := Min2(erlangC, 1.0);
  }

  // ---------------------------------------------------------------------------
  // Required agents

  /** Offered load in Erlangs for a call volume per hour and a handle time in seconds. */
  function Traffic(callVolume: real, averageHandleTime: real): real
  {
    callVolume * averageHandleTime / 3600.0
  }

  /** The service level (percent answered within the target answer time)
      that `agents` servers give. */
  function ServiceLevel(agents: int, traffic: real, averageHandleTime: real,
                        targetAnswerTime: real, exp: real -> real): real
    requires averageHandleTime > 0.0
  {
    (1.0 - ErlangCValue(agents, traffic)
             * exp(-(agents as real - traffic) * targetAnswerTime / averageHandleTime)) * 100.0
  }

  /** The loop body's service-level expression, once erlangC has been called. */
  lemma {:induction false} ServiceLevelOf(probDelay: real, agents: int, traffic: real, averageHandleTime: real,
                       targetAnswerTime: real, exp: real -> real)
    requires averageHandleTime > 0.0 && probDelay == ErlangCValue(agents, traffic)
    ensures (1.0 - probDelay * exp(-(agents as real - traffic) * targetAnswerTime / averageHandleTime)) * 100.0
         == ServiceLevel(agents, traffic, averageHandleTime, targetAnswerTime, exp)
  {
  }

  /** With Math.exp positive and at most 1 on non-positive arguments, the
      service level of a stable, non-negative configuration lies in [0, 100]. */
  lemma {:induction false} ServiceLevelBounds(agents: int, traffic: real, averageHandleTime: real,
                           targetAnswerTime: real, exp: real -> real)
    requires averageHandleTime > 0.0 && targetAnswerTime >= 0.0
    requires agents as real >= traffic
    requires ExpOnNonPositive(exp)
    ensures 0.0 <= ServiceLevel(agents, traffic, averageHandleTime, targetAnswerTime, exp) <= 100.0
  {
    var x := -(agents as real - traffic) * targetAnswerTime / averageHandleTime;
    assert (agents as real - traffic) * targetAnswerTime >= 0.0;
    assert x <= 0.0;
    var p := ErlangCValue(agents, traffic);
    assert 0.0 <= p * exp(x) <= 1.0 by {
      assert 0.0 < exp(x) <= 1.0;
      assert 0.0 <= p <= 1.0;
    }
  }

  /** The search loop of calculateRequiredAgents from candidate k: stop at the
      first k meeting the target, or as soon as k reaches 3 * traffic. */
  function FirstAdequate(k: int, traffic: real, averageHandleTime: real, targetServiceLevel: real,
                         targetAnswerTime: real, exp: real -> real): (r: int)
    requires averageHandleTime > 0.0
    ensures r >= k
    ensures k <= Ceil(traffic * 3.0) ==> r <= Ceil(traffic * 3.0)
    decreases Ceil(traffic * 3.0) - k
  {
    if !(k as real < traffic * 3.0) then k
    else if ServiceLevel(k, traffic, averageHandleTime, targetAnswerTime, exp) >= targetServiceLevel then k
    else FirstAdequate(k + 1, traffic, averageHandleTime, targetServiceLevel, targetAnswerTime, exp)
  }

  /** calculateRequiredAgents as a value: 0 without volume or handle time,
      otherwise the search from ceil(traffic). */
  function RequiredAgentsValue(callVolume: real, averageHandleTime: real, targetServiceLevel: real,
                               targetAnswerTime: real, exp: real -> real): (r: int)
    ensures callVolume <= 0.0 || averageHandleTime <= 0.0 ==> r == 0
    ensures callVolume > 0.0 && averageHandleTime > 0.0 ==>
              1 <= Ceil(Traffic(callVolume, averageHandleTime)) <= r <= Ceil(Traffic(callVolume, averageHandleTime) * 3.0)
  {
    if callVolume <= 0.0 || averageHandleTime <= 0.0 then 0
    else
      var traffic := Traffic(callVolume, averageHandleTime);
      CeilMonotone(traffic, traffic * 3.0);
      FirstAdequate(Ceil(traffic), traffic, averageHandleTime, targetServiceLevel, targetAnswerTime, exp)
  }

  /** The source's calculateRequiredAgents: a linear search from ceil(traffic)
      that stops at the first agent count whose service level meets the
      target, capped at 3 * traffic. */
  method CalculateRequiredAgents(callVolume: real, averageHandleTime: real, targetServiceLevel: real,
                                 targetAnswerTime: real, exp: real -> real) returns (agents: int)
    ensures agents == RequiredAgentsValue(callVolume, averageHandleTime, targetServiceLevel, targetAnswerTime, exp)
  {
    if callVolume <= 0.0 || averageHandleTime <= 0.0 {
      return 0;
    }
    var traffic := Traffic(callVolume, averageHandleTime);
    agents := Ceil(traffic);
    ghost var start := agents;
    while agents as real < traffic * 3.0
      invariant agents >= start
      invariant FirstAdequate(agents, traffic, averageHandleTime, targetServiceLevel, targetAnswerTime, exp)
             == FirstAdequate(start, traffic, averageHandleTime, targetServiceLevel, targetAnswerTime, exp)
      decreases Ceil(traffic * 3.0) - agents
    {
      var probDelay := ErlangC(agents, traffic);
      var serviceLevel := (1.0 - probDelay * exp(-(agents as real - traffic) * targetAnswerTime / averageHandleTime)) * 100.0;
      ServiceLevelOf(probDelay, agents, traffic, averageHandleTime, targetAnswerTime, exp);
      if serviceLevel >= targetServiceLevel {
        return agents;
      }
      agents := agents + 1;
    }
  }

  /** The search returns the first adequate candidate: every count it
      skipped misses the target, and the count it returns meets the target
      unless the 3 * traffic cap stopped the search. */
  lemma {:induction false} FirstAdequateIsFirstHit(k: int, traffic: real, averageHandleTime: real,
                                                   targetServiceLevel: real, targetAnswerTime: real, exp: real -> real)
    requires averageHandleTime > 0.0
    ensures var r := FirstAdequate(k, traffic, averageHandleTime, targetServiceLevel, targetAnswerTime, exp);
            (r as real < traffic * 3.0 ==> ServiceLevel(r, traffic, averageHandleTime, targetAnswerTime, exp) >= targetServiceLevel)
            && (forall j :: k <= j < r ==> ServiceLevel(j, traffic, averageHandleTime, targetAnswerTime, exp) < targetServiceLevel)
    decreases Ceil(traffic * 3.0) - k
  {
    if k as real < traffic * 3.0
       && ServiceLevel(k, traffic, averageHandleTime, targetAnswerTime, exp) < targetServiceLevel {
      FirstAdequateIsFirstHit(k + 1, traffic, averageHandleTime, targetServiceLevel, targetAnswerTime, exp);
    }
  }

  /** calculateRequiredAgents returns the least count from ceil(traffic)
      meeting the target service level, or the cap when none below it does. */
  lemma {:induction false} RequiredAgentsIsLeastAdequate(callVolume: real, averageHandleTime: real, targetServiceLevel: real,
                                      targetAnswerTime: real, exp: real -> real)
    requires callVolume > 0.0 && averageHandleTime > 0.0
    ensures var traffic := Traffic(callVolume, averageHandleTime);
            var r := RequiredAgentsValue(callVolume, averageHandleTime, targetServiceLevel, targetAnswerTime, exp);
            (r as real < traffic * 3.0 ==> ServiceLevel(r, traffic, averageHandleTime, targetAnswerTime, exp) >= targetServiceLevel)
            && (forall j :: Ceil(traffic) <= j < r ==> ServiceLevel(j, traffic, averageHandleTime, targetAnswerTime, exp) < targetServiceLevel)
  {
    var traffic := Traffic(callVolume, averageHandleTime);
    FirstAdequateIsFirstHit(Ceil(traffic), traffic, averageHandleTime, targetServiceLevel, targetAnswerTime, exp);
  }

  /** A stricter target never stops the search earlier. */
  lemma {:induction false} FirstAdequateMonotone(k: int, traffic: real, averageHandleTime: real,
                                                 target1: real, target2: real, targetAnswerTime: real, exp: real -> real)
    requires averageHandleTime > 0.0 && target1 <= target2
    ensures FirstAdequate(k, traffic, averageHandleTime, target1, targetAnswerTime, exp)
         <= FirstAdequate(k, traffic, averageHandleTime, target2, targetAnswerTime, exp)
    decreases Ceil(traffic * 3.0) - k
  {
    if k as real < traffic * 3.0
       && ServiceLevel(k, traffic, averageHandleTime, targetAnswerTime, exp) < target1 {
      FirstAdequateMonotone(k + 1, traffic, averageHandleTime, target1, target2, targetAnswerTime, exp);
    }
  }

  /** calculateRequiredAgents is non-decreasing in the target service level. */
  lemma {:induction false} RequiredAgentsMonotoneInTarget(callVolume: real, averageHandleTime: real, target1: real, target2: real,
                                       targetAnswerTime: real, exp: real -> real)
    requires target1 <= target2
    ensures RequiredAgentsValue(callVolume, averageHandleTime, target1, targetAnswerTime, exp)
         <= RequiredAgentsValue(callVolume, averageHandleTime, target2, targetAnswerTime, exp)
  {
    if callVolume > 0.0 && averageHandleTime > 0.0 {
      var traffic := Traffic(callVolume, averageHandleTime);
      FirstAdequateMonotone(Ceil(traffic), traffic, averageHandleTime, target1, target2, targetAnswerTime, exp);
    }
  }

  // ---------------------------------------------------------------------------
  // Headcount need per interval and per curve

  /** calculateHCNeed: the base agent count scaled up for unproductive time
      and rounded up. */
  function HCNeed(volume: real, tmi: real, targetSLA: real, unproductivity: real, exp: real -> real): (r: int)
    requires 0.0 <= unproductivity < 100.0
    ensures volume <= 0.0 || tmi <= 0.0 ==> r == 0
    ensures volume > 0.0 && tmi > 0.0 ==>
              r >= RequiredAgentsValue(volume, tmi, targetSLA, DefaultAnswerTime, exp) >= 1
    ensures unproductivity == 0.0 ==> r == RequiredAgentsValue(volume, tmi, targetSLA, DefaultAnswerTime, exp)
  {
    if volume <= 0.0 || tmi <= 0.0 then 0
    else
      var baseAgents := RequiredAgentsValue(volume, tmi, targetSLA, DefaultAnswerTime, exp);
      var keep := 1.0 - unproductivity / 100.0;
      ScaleUp(baseAgents as real, keep);
      Ceil(baseAgents as real / keep)
  }

  lemma {:induction false} ScaleUp(x: real, keep: real)
    requires x >= 0.0 && 0.0 < keep <= 1.0
    ensures x / keep >= x
    ensures keep == 1.0 ==> x / keep == x
  {
    if x > 0.0 && keep < 1.0 {
      DivPos(x * (1.0 - keep), keep);
      DivAdd(x * keep, x * (1.0 - keep), keep);
      assert x * keep / keep == x;
    }
  }

  datatype CurveError = LengthMismatch

  /** calculateHCDistribution: calculateHCNeed applied interval by interval;
      curves of different lengths are an error. */
  function HCDistribution(volumeCurve: seq<real>, tmiCurve: seq<real>, targetSLA: real,
                          unproductivity: real, exp: real -> real): (r: Result<seq<int>, CurveError>)
    requires 0.0 <= unproductivity < 100.0
    ensures r.Err? <==> |volumeCurve| != |tmiCurve|
    ensures r.Ok? ==> |r.value| == |volumeCurve|
    ensures r.Ok? ==> forall i :: 0 <= i < |r.value| ==>
              r.value[i] >= 0 && (r.value[i] == 0 <==> volumeCurve[i] <= 0.0 || tmiCurve[i] <= 0.0)
  {
    if |volumeCurve| != |tmiCurve| then Err(LengthMismatch)
    else Ok(seq(|volumeCurve|, i requires 0 <= i < |volumeCurve| =>
              HCNeed(volumeCurve[i], tmiCurve[i], targetSLA, unproductivity, exp)))
  }

  /** No cross-interval dependency: the distribution of two concatenated
      curves is the concatenation of their distributions, and each entry is
      the single-interval need. */
  lemma {:induction false} HCDistributionIsPointwise(v1: seq<real>, t1: seq<real>, v2: seq<real>, t2: seq<real>,
                                  targetSLA: real, unproductivity: real, exp: real -> real)
    requires 0.0 <= unproductivity < 100.0
    requires |v1| == |t1| && |v2| == |t2|
    ensures HCDistribution(v1 + v2, t1 + t2, targetSLA, unproductivity, exp).value
         == HCDistribution(v1, t1, targetSLA, unproductivity, exp).value
          + HCDistribution(v2, t2, targetSLA, unproductivity, exp).value
    ensures forall i :: 0 <= i < |v1| ==>
              HCDistribution(v1, t1, targetSLA, unproductivity, exp).value[i]
              == HCNeed(v1[i], t1[i], targetSLA, unproductivity, exp)
  {
    var a := HCDistribution(v1, t1, targetSLA, unproductivity, exp).value;
    var b := HCDistribution(v2, t2, targetSLA, unproductivity, exp).value;
    var c := HCDistribution(v1 + v2, t1 + t2, targetSLA, unproductivity, exp).value;
    assert forall i :: 0 <= i < |v1| ==> c[i] == a[i];
    assert forall i :: |v1| <= i < |c| ==> c[i] == b[i - |v1|];
  }

  // ---------------------------------------------------------------------------
  // Occupancy and shrinkage

  /** calculateOccupancy: traffic per agent in percent, capped at 100. */
  function Occupancy(traffic: real, agents: real): (r: real)
    ensures agents <= 0.0 ==> r == 0.0
    ensures agents > 0.0 && traffic >= 0.0 ==> 0.0 <= r <= 100.0
    ensures agents > 0.0 ==> (r == 100.0 <==> traffic >= agents)
    ensures agents > 0.0 && r < 100.0 ==> r * agents == traffic * 100.0
  {
    if agents <= 0.0 then 0.0
    else
      PercentOf(traffic, agents);
      Min2(traffic / agents * 100.0, 100.0)
  }

  /** The percentage traffic / agents * 100 reaches 100 exactly when the
      traffic reaches the agents, and scales back to the traffic. */
  lemma {:induction false} PercentOf(traffic: real, agents: real)
    requires agents > 0.0
    ensures traffic / agents * 100.0 * agents == traffic * 100.0
    ensures traffic / agents * 100.0 >= 100.0 <==> traffic >= agents
    ensures traffic >= 0.0 ==> traffic / agents * 100.0 >= 0.0
  {
    var q := traffic / agents;
    assert q * agents == traffic;
    if traffic >= agents {
      DivMonotone(agents, traffic, agents);
      assert agents / agents == 1.0;
    } else if traffic > 0.0 {
      BelowOne(traffic, agents);
    } else {
      DivMonotone(traffic, 0.0, agents);
    }
    if traffic >= 0.0 {
      DivMonotone(0.0, traffic, agents);
    }
  }

  datatype ShrinkageSplit = ShrinkageSplit(productiveHC: int, unproductiveHC: real, totalRequired: int)

  /** calculateShrinkage: the productive part of a headcount rounded down, the
      rest unproductive, and the headcount needed so that the productive part
      covers baseHC, rounded up. */
  function Shrinkage(baseHC: real, shrinkagePercentage: real): (r: ShrinkageSplit)
    requires shrinkagePercentage != 100.0
    ensures r.productiveHC as real + r.unproductiveHC == baseHC
    ensures baseHC >= 0.0 && 0.0 <= shrinkagePercentage < 100.0 ==>
              0 <= r.productiveHC && r.productiveHC as real <= baseHC && r.totalRequired as real >= baseHC
  {
    var rate := shrinkagePercentage / 100.0;
    var productiveHC := Floor(baseHC * (1.0 - rate));
    ShrinkageScaling(baseHC, rate);
    ShrinkageSplit(productiveHC, baseHC - productiveHC as real, Ceil(baseHC / (1.0 - rate)))
  }

  lemma {:induction false} ShrinkageScaling(baseHC: real, rate: real)
    ensures baseHC >= 0.0 && 0.0 <= rate < 1.0 ==>
              0.0 <= baseHC * (1.0 - rate) <= baseHC && baseHC / (1.0 - rate) >= baseHC
  {
    if baseHC >= 0.0 && 0.0 <= rate < 1.0 {
      ScaleUp(baseHC, 1.0 - rate);
    }
  }

  lemma {:induction false} ShrinkageExample()
    ensures Shrinkage(100.0, 20.0) == ShrinkageSplit(80, 20.0, 125)
  {
  }

  /** The shrinkage split's totalRequired is the same scaling calculateHCNeed
      applies: for an interval with load, the headcount need is the
      totalRequired of its base agent count. */
  lemma {:induction false} HCNeedIsShrinkageTotal(volume: real, tmi: real, targetSLA: real, unproductivity: real, exp: real -> real)
    requires 0.0 <= unproductivity < 100.0 && volume > 0.0 && tmi > 0.0
    ensures HCNeed(volume, tmi, targetSLA, unproductivity, exp)
         == Shrinkage(RequiredAgentsValue(volume, tmi, targetSLA, DefaultAnswerTime, exp) as real, unproductivity).totalRequired
  {
  }

  // ---------------------------------------------------------------------------
  // Shift allocation

  datatype ShiftConstraints = ShiftConstraints(minSundayWork: real, maxOvertimeRatio: real)

  datatype ShiftPlan = ShiftPlan(shiftAllocations: seq<int>, totalHC: int, overtimeHours: real)

  /** The mean shift duration. */
  function MeanDuration(shiftDurations: seq<real>): real
    requires |shiftDurations| > 0
  {
    Sum(shiftDurations) / |shiftDurations| as real
  }

  lemma {:induction false} MeanDurationNonZero(shiftDurations: seq<real>)
    requires |shiftDurations| > 0 && Sum(shiftDurations) != 0.0
    ensures MeanDuration(shiftDurations) != 0.0
  {
    var n := |shiftDurations| as real;
    assert MeanDuration(shiftDurations) * n == Sum(shiftDurations);
  }

  /** The number of agents a shift of the given duration takes: its share
      of the peak need, relative to the mean duration, rounded up. */
  function ShiftShare(peak: real, duration: real, mean: real): real
    requires mean != 0.0
  {
    peak * duration / mean
  }

  /** shiftDurations.map(...): one rounded-up share per duration, in order. */
  function Allocations(peak: real, durations: seq<real>, mean: real): (r: seq<int>)
    requires mean != 0.0
    ensures |r| == |durations|
    ensures forall i :: 0 <= i < |durations| ==>
              ShiftShare(peak, durations[i], mean) <= r[i] as real < ShiftShare(peak, durations[i], mean) + 1.0
  {
    if durations == [] then []
    else Allocations(peak, durations[..|durations| - 1], mean) + [Ceil(ShiftShare(peak, durations[|durations| - 1], mean))]
  }

  /** optimizeShiftDistribution: each duration gets ceil(peak * d / mean)
      agents; the constraints are not read. */
  function OptimizeShiftDistribution(hourlyNeeds: seq<real>, shiftDurations: seq<real>,
                                     constraints: ShiftConstraints): (p: ShiftPlan)
    requires |hourlyNeeds| > 0 && |shiftDurations| > 0 && Sum(shiftDurations) != 0.0
    ensures |p.shiftAllocations| == |shiftDurations|
    ensures forall i :: 0 <= i < |shiftDurations| ==>
              var share := ShiftShare(MaxOf(hourlyNeeds), shiftDurations[i], MeanDuration(shiftDurations));
              share <= p.shiftAllocations[i] as real < share + 1.0
    ensures p.totalHC == SumInt(p.shiftAllocations)
    ensures p.overtimeHours >= 0.0
    ensures p.overtimeHours > 0.0 <==>
              p.totalHC as real * MeanDuration(shiftDurations) > MaxOf(hourlyNeeds) * 8.0
  {
    var totalNeed := MaxOf(hourlyNeeds);
    var avgShiftDuration := MeanDuration(shiftDurations);
    MeanDurationNonZero(shiftDurations);
    var shiftAllocations := Allocations(totalNeed, shiftDurations, avgShiftDuration);
    var totalHC := SumInt(shiftAllocations);
    ShiftPlan(shiftAllocations, totalHC, OvertimeHours(totalHC, avgShiftDuration, totalNeed))
  }

  /** The hours the plan's shifts give beyond eight hours of the peak need,
      or 0 when they give no more. */
  function OvertimeHours(totalHC: int, meanDuration: real, peak: real): (hours: real)
    ensures hours >= 0.0
    ensures hours > 0.0 <==> totalHC as real * meanDuration > peak * 8.0
    ensures hours > 0.0 ==> hours == totalHC as real * meanDuration - peak * 8.0
  {
    var hoursWorked := totalHC as real * meanDuration;
    Max2(0.0, hoursWorked - peak * 8.0)
  }

  lemma {:induction false} MeanOfConstant(s: seq<real>, d: real)
    requires |s| > 0 && Sum(s) != 0.0 && forall i :: 0 <= i < |s| ==> s[i] == d
    ensures MeanDuration(s) == d && d != 0.0
  {
    SumOfConstant(s, d);
    var n := |s| as real;
    assert Sum(s) == n * d;
    assert n * d / n == d;
  }

  lemma {:induction false} ShareOfMean(peak: real, d: real)
    requires d != 0.0
    ensures ShiftShare(peak, d, d) == peak
  {
    assert peak * d / d == peak;
  }

  /** When every shift has the same length and the peak need is a whole
      number, each shift gets exactly the peak, and the total is the peak
      times the number of shifts. */
  lemma {:induction false} UniformShiftsGetThePeak(hourlyNeeds: seq<real>, shiftDurations: seq<real>, constraints: ShiftConstraints, peak: int)
    requires |hourlyNeeds| > 0 && |shiftDurations| > 0 && Sum(shiftDurations) != 0.0
    requires forall i :: 0 <= i < |shiftDurations| ==> shiftDurations[i] == shiftDurations[0]
    requires MaxOf(hourlyNeeds) == peak as real
    ensures var p := OptimizeShiftDistribution(hourlyNeeds, shiftDurations, constraints);
            (forall i :: 0 <= i < |shiftDurations| ==> p.shiftAllocations[i] == peak)
            && p.totalHC == peak * |shiftDurations|
  {
    var d := shiftDurations[0];
    MeanOfConstant(shiftDurations, d);
    ShareOfMean(peak as real, d);
    var p := OptimizeShiftDistribution(hourlyNeeds, shiftDurations, constraints);
    forall i | 0 <= i < |shiftDurations|
      ensures p.shiftAllocations[i] == peak
    {
      assert ShiftShare(peak as real, shiftDurations[i], d) == peak as real;
    }
    SumIntOfConstant(p.shiftAllocations, peak);
  }

  lemma {:induction false} SumOfConstant(s: seq<real>, d: real)
    requires forall i :: 0 <= i < |s| ==> s[i] == d
    ensures Sum(s) == |s| as real * d
  {
    if s != [] {
      SumOfConstant(s[..|s| - 1], d);
    }
  }

  lemma {:induction false} SumIntOfConstant(s: seq<int>, d: int)
    requires forall i :: 0 <= i < |s| ==> s[i] == d
    ensures SumInt(s) == d * |s|
  {
    if s != [] {
      SumIntOfConstant(s[..|s| - 1], d);
    }
  }

  /** The constraints argument has no effect on the allocation. */
  lemma {:induction false} ShiftConstraintsIgnored(hourlyNeeds: seq<real>, shiftDurations: seq<real>, c1: ShiftConstraints, c2: ShiftConstraints)
    requires |hourlyNeeds| > 0 && |shiftDurations| > 0 && Sum(shiftDurations) != 0.0
    ensures OptimizeShiftDistribution(hourlyNeeds, shiftDurations, c1)
         == OptimizeShiftDistribution(hourlyNeeds, shiftDurations, c2)
  {
  }

  // ---------------------------------------------------------------------------
  // Weekly rest (DSR) compliance

  datatype DsrConstraints = DsrConstraints(minSundayWork: real, maxWeeklyDays: real)

  /** The violation messages, one constructor per message template. */
  datatype Violation =
    | TooManyDays(employee: nat, workingDays: nat, maxWeeklyDays: real)
    | LowSundayRate(sundayWorkRate: real, minSundayWork: real)

  datatype DsrReport = DsrReport(compliant: bool, sundayWorkRate: real, avgWeeklyDays: real,
                                 violations: seq<Violation>)

  /** employeeWeek.filter(Boolean).length */
  function CountTrue(week: seq<bool>): nat
  {
    if week == [] then 0 else CountTrue(week[..|week| - 1]) + (if week[|week| - 1] then 1 else 0)
  }

  /** employeeWeek[0] is truthy: a missing day 0 counts as not working. */
  predicate WorksSunday(week: seq<bool>)
  {
    |week| > 0 && week[0]
  }

  function SundayWorkers(schedule: seq<seq<bool>>): nat
  {
    if schedule == [] then 0
    else SundayWorkers(schedule[..|schedule| - 1]) + (if WorksSunday(schedule[|schedule| - 1]) then 1 else 0)
  }

  function TotalWeeklyDays(schedule: seq<seq<bool>>): nat
  {
    if schedule == [] then 0 else TotalWeeklyDays(schedule[..|schedule| - 1]) + CountTrue(schedule[|schedule| - 1])
  }

  /** The per-employee violations, in employee order. */
  function ExcessViolations(schedule: seq<seq<bool>>, maxWeeklyDays: real): seq<Violation>
  {
    if schedule == [] then []
    else
      var e := |schedule| - 1;
      ExcessViolations(schedule[..e], maxWeeklyDays)
        + (if CountTrue(schedule[e]) as real > maxWeeklyDays
           then [TooManyDays(e, CountTrue(schedule[e]), maxWeeklyDays)] else [])
  }

  /** Rates over the employees, 0 when there are none. */
  function Rate(count: nat, employees: nat): real
  {
    if employees > 0 then count as real / employees as real else 0.0
  }

  /** calculateDSRCompliance as a value. */
  function DsrCompliance(schedule: seq<seq<bool>>, constraints: DsrConstraints): (r: DsrReport)
    ensures r.compliant <==> r.violations == []
  {
    var sundayWorkRate := Rate(SundayWorkers(schedule), |schedule|);
    var violations := ExcessViolations(schedule, constraints.maxWeeklyDays)
      + (if sundayWorkRate < constraints.minSundayWork
         then [LowSundayRate(sundayWorkRate, constraints.minSundayWork)] else []);
    DsrReport(violations == [], sundayWorkRate, Rate(TotalWeeklyDays(schedule), |schedule|), violations)
  }

  /** The source's calculateDSRCompliance: one pass over the employees with
      running counters, pushing a message per employee over the limit, then
      one for a low Sunday rate. */
  method CalculateDSRCompliance(weeklySchedule: seq<seq<bool>>, constraints: DsrConstraints)
    returns (report: DsrReport)
    ensures report == DsrCompliance(weeklySchedule, constraints)
  {
    var violations: seq<Violation> := [];
    var totalEmployees := |weeklySchedule|;
    var sundayWorkers := 0;
    var totalWeeklyDays := 0;
    var empIndex := 0;
    while empIndex < totalEmployees
      invariant 0 <= empIndex <= totalEmployees
      invariant sundayWorkers == SundayWorkers(weeklySchedule[..empIndex])
      invariant totalWeeklyDays == TotalWeeklyDays(weeklySchedule[..empIndex])
      invariant violations == ExcessViolations(weeklySchedule[..empIndex], constraints.maxWeeklyDays)
    {
      var employeeWeek := weeklySchedule[empIndex];
      assert weeklySchedule[..empIndex + 1][..empIndex] == weeklySchedule[..empIndex];
      if |employeeWeek| > 0 && employeeWeek[0] {
        sundayWorkers := sundayWorkers + 1;
      }
      var workingDays := CountTrue(employeeWeek);
      totalWeeklyDays := totalWeeklyDays + workingDays;
      if workingDays as real > constraints.maxWeeklyDays {
        violations := violations + [TooManyDays(empIndex, workingDays, constraints.maxWeeklyDays)];
      }
      empIndex := empIndex + 1;
    }
    assert weeklySchedule[..totalEmployees] == weeklySchedule;
    var sundayWorkRate := if totalEmployees > 0 then sundayWorkers as real / totalEmployees as real else 0.0;
    var avgWeeklyDays := if totalEmployees > 0 then totalWeeklyDays as real / totalEmployees as real else 0.0;
    if sundayWorkRate < constraints.minSundayWork {
      violations := violations + [LowSundayRate(sundayWorkRate, constraints.minSundayWork)];
    }
    report := DsrReport(|violations| == 0, sundayWorkRate, avgWeeklyDays, violations);
  }

  /** The per-employee messages are exactly the employees over the limit, each
      with its day count, in increasing employee order. */
  lemma {:induction false} ExcessViolationsExact(schedule: seq<seq<bool>>, maxWeeklyDays: real)
    ensures var v := ExcessViolations(schedule, maxWeeklyDays);
            (forall j :: 0 <= j < |v| ==>
               v[j].TooManyDays? && v[j].employee < |schedule| && v[j].maxWeeklyDays == maxWeeklyDays
               && v[j].workingDays == CountTrue(schedule[v[j].employee])
               && v[j].workingDays as real > maxWeeklyDays)
            && (forall j, k :: 0 <= j < k < |v| ==> v[j].employee < v[k].employee)
            && (forall e :: 0 <= e < |schedule| && CountTrue(schedule[e]) as real > maxWeeklyDays ==>
                  TooManyDays(e, CountTrue(schedule[e]), maxWeeklyDays) in v)
  {
    if schedule != [] {
      var e := |schedule| - 1;
      var prefix := schedule[..e];
      ExcessViolationsExact(prefix, maxWeeklyDays);
      assert forall i :: 0 <= i < e ==> prefix[i] == schedule[i];
    }
  }

  /** The report lists the employees over the limit first, in order, and at
      most one Sunday-rate message, last, exactly when the rate is below the
      minimum. */
  lemma {:induction false} DsrViolationsLayout(schedule: seq<seq<bool>>, constraints: DsrConstraints)
    ensures var r := DsrCompliance(schedule, constraints);
            var n := |ExcessViolations(schedule, constraints.maxWeeklyDays)|;
            (forall j :: 0 <= j < n ==> r.violations[j].TooManyDays?)
            && (r.sundayWorkRate < constraints.minSundayWork <==>
                  |r.violations| == n + 1 && r.violations[n] == LowSundayRate(r.sundayWorkRate, constraints.minSundayWork))
            && (r.sundayWorkRate >= constraints.minSundayWork ==> |r.violations| == n)
            && (forall e :: 0 <= e < |schedule| ==>
                  (TooManyDays(e, CountTrue(schedule[e]), constraints.maxWeeklyDays) in r.violations
                   <==> CountTrue(schedule[e]) as real > constraints.maxWeeklyDays))
  {
    ExcessViolationsExact(schedule, constraints.maxWeeklyDays);
  }

  /** With no employees both rates are 0, so the only possible violation is
      the Sunday one, present whenever the minimum is positive. */
  lemma {:induction false} DsrNoEmployees(constraints: DsrConstraints)
    ensures var r := DsrCompliance([], constraints);
            r.sundayWorkRate == 0.0 && r.avgWeeklyDays == 0.0
            && r.violations == (if constraints.minSundayWork > 0.0 then [LowSundayRate(0.0, constraints.minSundayWork)] else [])
  {
  }

  lemma {:induction false} SundayWorkersAll(schedule: seq<seq<bool>>)
    requires forall e :: 0 <= e < |schedule| ==> WorksSunday(schedule[e])
    ensures SundayWorkers(schedule) == |schedule|
  {
    if schedule != [] {
      SundayWorkersAll(schedule[..|schedule| - 1]);
    }
  }

  lemma {:induction false} NoExcess(schedule: seq<seq<bool>>, maxWeeklyDays: real)
    requires forall e :: 0 <= e < |schedule| ==> CountTrue(schedule[e]) as real <= maxWeeklyDays
    ensures ExcessViolations(schedule, maxWeeklyDays) == []
  {
    if schedule != [] {
      NoExcess(schedule[..|schedule| - 1], maxWeeklyDays);
    }
  }

  /** A week where every employee works Sunday and no more than the maximum
      number of days is compliant when the Sunday minimum is at most 100%. */
  lemma {:induction false} DsrFullSundayCompliant(schedule: seq<seq<bool>>, constraints: DsrConstraints)
    requires |schedule| > 0 && constraints.minSundayWork <= 1.0
    requires forall e :: 0 <= e < |schedule| ==>
               WorksSunday(schedule[e]) && CountTrue(schedule[e]) as real <= constraints.maxWeeklyDays
    ensures DsrCompliance(schedule, constraints).compliant
    ensures DsrCompliance(schedule, constraints).violations == []
  {
    SundayWorkersAll(schedule);
    NoExcess(schedule, constraints.maxWeeklyDays);
  }
}
