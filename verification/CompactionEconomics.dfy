/** When compacting a conversation is cheaper than carrying it on, and what the advice given to
    the agent is worth. Prices are exact reals: rounding is not part of this model. */
module CompactionEconomics {
  import opened Prelude

  /** Dollars for one token. */
  const MISS := 0.00000020
  const HIT := 0.00000004
  const OUTPUT := 0.00000040

  const MIN_PROMPT_TOKENS: int := 150000
  const SUMMARY_TOKENS: nat := 3000

  datatype Action = Compact | Hold

  datatype Guidance = Guidance(action: Action, fStar: real, paybackCalls: Option<real>,
                               oneTimePenalty: real, savingPerCall: real, blended: real)

  function Blend(h: real): real { h * HIT + (1.0 - h) * MISS }

  /** The tokens left after compaction. */
  function After(p: int, f: real): real { p as real * (1.0 - f) }

  function Penalty(p: int, h: real, f: real, s: nat): real {
    After(p, f) * MISS - p as real * Blend(h) + s as real * OUTPUT
  }

  function SavingPerCall(p: int, h: real, f: real): real { f * p as real * Blend(h) }

  function FStar(h: real, n: real): real
    requires 0.0 <= h <= 1.0 && n >= 1.0
  {
    BlendRange(h);
    var m := MISS / Blend(h);
    (m - 1.0) / (n + m)
  }

  /** A measurement the advice can be based on. */
  predicate Usable(p: int, h: real, f: real, n: real) {
    p >= MIN_PROMPT_TOKENS && 0.0 <= h <= 1.0 && 0.0 < f < 1.0 && n >= 1.0
  }

  function CompactionGuidance(p: int, h: real, f: real, n: real, s: nat): (g: Option<Guidance>)
    ensures g.Some? <==> Usable(p, h, f, n)
  {
    if !(p > 0) || !(n >= 1.0) then None
    else if p < MIN_PROMPT_TOKENS then None
    else if h < 0.0 || h > 1.0 || f <= 0.0 || f >= 1.0 then None
    else
      BlendRange(h);
      var penalty := Penalty(p, h, f, s);
      var saving := SavingPerCall(p, h, f);
      SavingIsPositive(p, h, f);
      var payback := if saving > 0.0 then Some(penalty / saving) else None;
      var fStar := FStar(h, n);
      var action := if penalty <= 0.0 || f > fStar || (payback.Some? && payback.value <= n) then Compact else Hold;
      Some(Guidance(action, fStar, payback, penalty, saving, Blend(h)))
  }

  // -------------------------------------------------------------- what the bill really adds up to

  /** `calls` calls on a prompt of `tokens` tokens at one price. */
  function Bill(calls: nat, tokens: real, price: real): real {
    if calls == 0 then 0.0 else tokens * price + Bill(calls - 1, tokens, price)
  }

  /** This call and the `n` after it, left alone. */
  function BillAsIs(p: int, h: real, n: nat): real { Bill(n + 1, p as real, Blend(h)) }

  /** The summary is written, this call misses the cache on what is left, and the `n` calls after
      it run at the old hit rate. */
  function BillCompacted(p: int, h: real, f: real, n: nat, s: nat): real {
    s as real * OUTPUT + After(p, f) * MISS + Bill(n, After(p, f), Blend(h))
  }

  /** What compacting saves over the next `n` calls, in the terms of the formula. */
  function Gain(p: int, h: real, f: real, n: real, s: nat): real {
    n * SavingPerCall(p, h, f) - Penalty(p, h, f, s)
  }

  // ------------------------------------------------------------------------------ arithmetic

  lemma BlendRange(h: real)
    requires 0.0 <= h <= 1.0
    ensures HIT <= Blend(h) <= MISS && Blend(h) == MISS - h * (MISS - HIT)
    ensures 1.0 <= MISS / Blend(h) <= 5.0
  {
  }

  lemma ProductGrows(a: real, b: real, c: real)
    requires a < b && c > 0.0
    ensures a * c < b * c
  {
  }

  lemma SavingIsPositive(p: int, h: real, f: real)
    requires p > 0 && 0.0 <= h <= 1.0 && f > 0.0
    ensures SavingPerCall(p, h, f) > 0.0
  {
  }

  /** A product the solver is not to take apart. */
  function Times(a: real, b: real): real { a * b }

  lemma {:induction false} BillIsAProduct(calls: nat, tokens: real, price: real)
    ensures Bill(calls, tokens, price) == Times(calls as real, Times(tokens, price))
  {
    if calls != 0 {
      BillIsAProduct(calls - 1, tokens, price);
      var x := tokens * price;
      assert (calls - 1) as real * x == calls as real * x - x;
    }
  }

  /** The formula is the difference of the two bills, for every number of calls. */
  lemma GainIsTheDifferenceOfTheBills(p: int, h: real, f: real, n: nat, s: nat)
    ensures BillAsIs(p, h, n) - BillCompacted(p, h, f, n, s) == Gain(p, h, f, n as real, s)
  {
    hide Blend, After, SavingPerCall, Penalty, Times;
    var r, t, y := Blend(h), p as real, After(p, f);
    BillIsAProduct(n + 1, t, r);
    BillIsAProduct(n, y, r);
    TermsAre(p, h, f, s);
    Rearranged(t, r, f, n as real, (n + 1) as real, y, s as real * OUTPUT, Bill(n + 1, t, r), Bill(n, y, r),
               SavingPerCall(p, h, f), Penalty(p, h, f, s));
  }

  lemma TermsAre(p: int, h: real, f: real, s: nat)
    ensures SavingPerCall(p, h, f) == f * p as real * Blend(h)
    ensures Penalty(p, h, f, s) == After(p, f) * MISS - p as real * Blend(h) + s as real * OUTPUT
    ensures After(p, f) == p as real - f * p as real
  {
  }

  lemma Rearranged(t: real, r: real, f: real, n: real, more: real, y: real, cost: real, asIs: real, rest: real,
                   saving: real, penalty: real)
    requires more == n + 1.0 && y == t - f * t
    requires asIs == Times(more, Times(t, r)) && rest == Times(n, Times(y, r))
    requires saving == f * t * r && penalty == y * MISS - t * r + cost
    ensures asIs - (cost + y * MISS + rest) == n * saving - penalty
  {
  }

  /** How the bar on `f` and the gain are related: above the bar the gain exceeds minus the price
      of the summary. */
  lemma BarAndGain(p: int, h: real, f: real, n: real, s: nat)
    requires Usable(p, h, f, n)
    ensures f > FStar(h, n) <==> Gain(p, h, f, n, s) > -(s as real * OUTPUT)
    ensures f == FStar(h, n) <==> Gain(p, h, f, n, s) == -(s as real * OUTPUT)
  {
    BlendRange(h);
    var r, t := Blend(h), p as real;
    BarCleared(h, f, n);
    var gap := f * (n * r + MISS) - (MISS - r);
    GapTimesTokens(t, r, f, n, s as real * OUTPUT);
    assert Gain(p, h, f, n, s) == t * gap - s as real * OUTPUT;
    Sign(t, gap);
  }

  lemma Sign(t: real, gap: real)
    requires t > 0.0
    ensures t * gap > 0.0 <==> gap > 0.0
    ensures t * gap == 0.0 <==> gap == 0.0
  {
  }

  lemma GapTimesTokens(t: real, r: real, f: real, n: real, cost: real)
    ensures n * (f * t * r) - (t * (1.0 - f) * MISS - t * r + cost)
            == t * (f * (n * r + MISS) - (MISS - r)) - cost
  {
  }

  /** The bar with its fractions cleared. */
  lemma BarCleared(h: real, f: real, n: real)
    requires 0.0 <= h <= 1.0 && n >= 1.0
    ensures f > FStar(h, n) <==> f * (n * Blend(h) + MISS) - (MISS - Blend(h)) > 0.0
    ensures f == FStar(h, n) <==> f * (n * Blend(h) + MISS) - (MISS - Blend(h)) == 0.0
  {
  }

  // ------------------------------------------------------------------------------- the advice

  /** The bar is never negative, and never above 4 / (n + 5): no hit rate is so good that
      compacting cannot pay. */
  lemma BarRange(h: real, n: real)
    requires 0.0 <= h <= 1.0 && n >= 1.0
    ensures 0.0 <= FStar(h, n) <= 4.0 / (n + 5.0)
  {
    BlendRange(h);
    var m := MISS / Blend(h);
    var x := FStar(h, n);
    assert x * (n + m) == m - 1.0;
    if x < 0.0 { ProductGrows(x, 0.0, n + m); }
    AtMostFour(x, m, n);
    var y := 4.0 / (n + 5.0);
    assert y * (n + 5.0) == 4.0;
    if x > y { ProductGrows(y, x, n + 5.0); }
  }

  lemma AtMostFour(x: real, m: real, n: real)
    requires 1.0 <= m <= 5.0 && n >= 1.0 && x * (n + m) == m - 1.0
    ensures x * (n + 5.0) <= 4.0
  {
    assert (5.0 - m) * (n + 1.0) >= 0.0;
    assert (m - 1.0) * (n + 5.0) == 4.0 * (n + m) - (5.0 - m) * (n + 1.0);
    var z := x * (n + 5.0);
    assert z * (n + m) == (m - 1.0) * (n + 5.0) by { assert z * (n + m) == (x * (n + m)) * (n + 5.0); }
    assert z * (n + m) <= 4.0 * (n + m);
    if z > 4.0 { ProductGrows(4.0, z, n + m); }
  }

  /** The three-way test is one comparison: with a summary to pay for, the advice is to compact
      exactly when `f` is above the bar, which is when the gain exceeds minus the price of the
      summary; without one, exactly when `f` reaches the bar, which is when nothing is lost. */
  lemma VerdictExactly(p: int, h: real, f: real, n: real, s: nat)
    requires Usable(p, h, f, n)
    ensures var g := CompactionGuidance(p, h, f, n, s).value;
            && g.fStar == FStar(h, n)
            && (s > 0 ==> (g.action == Compact <==> f > g.fStar)
                          && (g.action == Compact <==> Gain(p, h, f, n, s) > -(s as real * OUTPUT)))
            && (s == 0 ==> (g.action == Compact <==> f >= g.fStar)
                           && (g.action == Compact <==> Gain(p, h, f, n, s) >= 0.0))
  {
    hide Blend, Penalty, SavingPerCall, FStar;
    BarAndGain(p, h, f, n, s);
    SavingIsPositive(p, h, f);
    Payback(Penalty(p, h, f, s), SavingPerCall(p, h, f), n);
  }

  lemma Payback(k: real, saving: real, n: real)
    requires saving > 0.0 && n >= 1.0
    ensures k / saving <= n <==> n * saving - k >= 0.0
    ensures k <= 0.0 ==> n * saving - k > 0.0
  {
  }

  /** Advice to hold is never wrong: compacting would strictly lose money over the calls that are
      expected. Advice to compact can lose at most the price of the summary. */
  lemma AdviceIsWorthFollowing(p: int, h: real, f: real, n: nat, s: nat)
    requires Usable(p, h, f, n as real)
    ensures var g := CompactionGuidance(p, h, f, n as real, s).value;
            && (g.action == Hold ==> BillCompacted(p, h, f, n, s) > BillAsIs(p, h, n))
            && (g.action == Compact ==> BillCompacted(p, h, f, n, s) <= BillAsIs(p, h, n) + s as real * OUTPUT)
  {
    hide CompactionGuidance, Gain, BillAsIs, BillCompacted;
    VerdictExactly(p, h, f, n as real, s);
    GainIsTheDifferenceOfTheBills(p, h, f, n, s);
  }

  /** The advice is to compact although it does not pay back in time, exactly when the loss is
      smaller than the price of the summary. */
  lemma CompactsAtALossExactlyWhen(p: int, h: real, f: real, n: real, s: nat)
    requires Usable(p, h, f, n)
    ensures var g := CompactionGuidance(p, h, f, n, s).value;
            g.action == Compact && g.paybackCalls.value > n
            <==> -(s as real * OUTPUT) < Gain(p, h, f, n, s) < 0.0
  {
    hide Blend, Penalty, SavingPerCall, FStar;
    VerdictExactly(p, h, f, n, s);
    SavingIsPositive(p, h, f);
    Payback(Penalty(p, h, f, s), SavingPerCall(p, h, f), n);
  }

  /** It happens: with nothing cached, trimming one token in a thousand is advised for one call,
      and the summary costs fifteen times what is saved. */
  lemma CompactsAtALoss()
    ensures Usable(200000, 0.0, 0.001, 1.0)
    ensures var g := CompactionGuidance(200000, 0.0, 0.001, 1.0, SUMMARY_TOKENS).value;
            g.action == Compact && g.paybackCalls.value > 1.0
  {
  }

  lemma BarMoves(h: real, h': real, n: real, n': real)
    requires 0.0 <= h' <= h <= 1.0 && 1.0 <= n <= n'
    ensures FStar(h', n') <= FStar(h, n)
  {
    hide FStar, Blend;
    BlendRange(h);
    BlendRange(h');
    BarRange(h', n');
    BarEquation(h, n);
    BarEquation(h', n');
    assert h * (MISS - HIT) >= h' * (MISS - HIT);
    ProductsOrdered(n, n', Blend(h), Blend(h'));
    QuotientsOrdered(FStar(h, n), n * Blend(h) + MISS, FStar(h', n'), n' * Blend(h') + MISS);
  }

  lemma ProductsOrdered(a: real, a': real, b: real, b': real)
    requires 0.0 <= a <= a' && 0.0 <= b <= b'
    ensures a * b <= a' * b'
  {
  }

  lemma QuotientsOrdered(x: real, d: real, x': real, d': real)
    requires 0.0 < d <= d' && x' >= 0.0 && x' * d' <= x * d
    ensures x' <= x
  {
    assert x' * (d' - d) >= 0.0;
    if x' > x { ProductGrows(x, x', d); }
  }

  lemma BarEquation(h: real, n: real)
    requires 0.0 <= h <= 1.0 && n >= 1.0
    ensures FStar(h, n) * (n * Blend(h) + MISS) == MISS - Blend(h)
    ensures n * Blend(h) > 0.0
  {
  }

  /** Freeing more, expecting more calls, or a worse hit rate never turns the advice to compact
      into the advice to hold. */
  lemma VerdictIsMonotone(p: int, h: real, h': real, f: real, f': real, n: real, n': real, s: nat)
    requires Usable(p, h, f, n) && Usable(p, h', f', n') && h' <= h && f <= f' && n <= n'
    requires CompactionGuidance(p, h, f, n, s).value.action == Compact
    ensures CompactionGuidance(p, h', f', n', s).value.action == Compact
  {
    hide CompactionGuidance, FStar, Gain;
    VerdictExactly(p, h, f, n, s);
    VerdictExactly(p, h', f', n', s);
    BarMoves(h, h', n, n');
  }

  /** Compacting pays even if this is the last call exactly when `f` is at least 0.8 h plus two
      summaries' share of the prompt. The bar carries the summary as a surcharge; the closed form
      the source gives takes it off. */
  lemma PaysForTheLastCallExactlyWhen(p: int, h: real, f: real, n: real, s: nat)
    requires Usable(p, h, f, n)
    ensures CompactionGuidance(p, h, f, n, s).value.oneTimePenalty <= 0.0
            <==> f >= 0.8 * h + 2.0 * (s as real / p as real)
  {
  }

  /** "Never when f < 4 / N" is not a rule the code follows: with nothing cached any fraction is
      enough, for any number of calls. */
  lemma NothingCachedAlwaysCompacts(p: int, f: real, n: real, s: nat)
    requires Usable(p, 0.0, f, n)
    ensures CompactionGuidance(p, 0.0, f, n, s).value.action == Compact
  {
  }

  // ------------------------------------------------------------------------- the two estimates

  function AtLeast(low: real, x: real): real { if low >= x then low else x }

  function AtMost(high: real, x: real): real { if high <= x then high else x }

  /** The characters in all and in the tail that is kept, the calls of this turn, and the size
      the summary is assumed to have. */
  function EstimateCompactionFractions(p: int, totalChars: int, recentChars: int, callsThisTurn: int, s: nat):
    (real, real)
  {
    var nEst := AtLeast(1.0, AtMost(50.0, callsThisTurn as real));
    if !(totalChars > 0) || !(p > 0) then (0.0, nEst)
    else
      var keepRatio := recentChars as real / totalChars as real;
      var summaryRatio := s as real / p as real;
      (AtLeast(0.0, AtMost(0.95, 1.0 - keepRatio - summaryRatio)), nEst)
  }

  /** The fraction freed is what is neither kept nor written anew, no less than nothing and no more
      than 95 percent; the calls expected are those of this turn, at least one and at most fifty. */
  lemma EstimatesAre(p: int, totalChars: int, recentChars: int, callsThisTurn: int, s: nat)
    ensures var e := EstimateCompactionFractions(p, totalChars, recentChars, callsThisTurn, s);
            var all, freed := totalChars * p, (totalChars - recentChars) * p - s * totalChars;
            && (if totalChars <= 0 || p <= 0 || freed <= 0 then e.0 == 0.0
                else if 100 * freed >= 95 * all then e.0 == 0.95
                else e.0 * all as real == freed as real)
            && e.1 == (if callsThisTurn < 1 then 1.0 else if callsThisTurn > 50 then 50.0 else callsThisTurn as real)
  {
    if totalChars > 0 && p > 0 {
      var t, q := totalChars as real, p as real;
      var x := 1.0 - recentChars as real / t - s as real / q;
      FreedIs(p, totalChars, recentChars, s);
      assert t * q > 0.0 && t * q == (totalChars * p) as real;
      Sign(t * q, x);
      Sign(t * q, x - 0.95);
      assert (t * q) * (x - 0.95) == (t * q) * x - 0.95 * (t * q);
    }
  }

  lemma FreedIs(p: int, totalChars: int, recentChars: int, s: nat)
    requires totalChars > 0 && p > 0
    ensures (totalChars as real * p as real) * (1.0 - recentChars as real / totalChars as real - s as real / p as real)
            == ((totalChars - recentChars) * p - s * totalChars) as real
  {
    var t, q := totalChars as real, p as real;
    var keep, summary := recentChars as real / t, s as real / q;
    assert keep * t == recentChars as real && summary * q == s as real;
    assert (t * q) * (1.0 - keep - summary) == t * q - keep * t * q - summary * q * t;
  }

  /** The advice given on the two estimates speaks exactly when the prompt is large, the hit rate
      is one, and what is freed outweighs what is kept and written. The expected calls are always
      usable. */
  lemma EstimatesSpeakExactlyWhen(p: int, h: real, totalChars: int, recentChars: int, callsThisTurn: int, s: nat)
    requires totalChars >= recentChars >= 0
    ensures var e := EstimateCompactionFractions(p, totalChars, recentChars, callsThisTurn, s);
            && 0.0 <= e.0 <= 0.95 && 1.0 <= e.1 <= 50.0
            && (CompactionGuidance(p, h, e.0, e.1, s).Some?
                <==> p >= 150000 && 0.0 <= h <= 1.0
                     && s * totalChars < (totalChars - recentChars) * p)
  {
    hide Penalty, SavingPerCall, FStar, Blend;
    if totalChars > 0 && p > 0 { FreedIsPositive(p, totalChars, recentChars, s); }
  }

  lemma FreedIsPositive(p: int, totalChars: int, recentChars: int, s: nat)
    requires totalChars > 0 && p > 0
    ensures 1.0 - recentChars as real / totalChars as real - s as real / p as real > 0.0
            <==> s * totalChars < (totalChars - recentChars) * p
  {
    var t, q := totalChars as real, p as real;
    var keep, summary := recentChars as real / t, s as real / q;
    assert keep * t == recentChars as real && summary * q == s as real;
    var x := 1.0 - keep - summary;
    assert t * q > 0.0;
    Sign(t * q, x);
    assert (t * q) * x == t * q - keep * t * q - summary * q * t;
    assert (t * q) * x == ((totalChars - recentChars) * p - s * totalChars) as real;
  }
}
