/** The RICE priority score of lib/tasks.js: each parameter falls back to 1
    when it is missing or falsy, the effort divisor is floored at 1, and the
    quotient is rounded to two decimals the way `Number.prototype.toFixed(2)`
    does. Numbers are exact reals; binary floating point is not modelled. */
module Rice {
  import opened Optional

  /** The `framework` object of a task as parsed from YAML: every parameter
      may be missing (or null). */
  datatype RawRice = RawRice(
    reach: Option<real>,
    impact: Option<real>,
    confidence: Option<real>,
    effort: Option<real>)

  /** The parameters after defaulting, as written back into the task. */
  datatype Params = Params(reach: real, impact: real, confidence: real, effort: real)

  /** JavaScript truthiness of a parameter: missing, null and 0 are falsy. */
  predicate Truthy(v: Option<real>) {
    v.Some? && v.value != 0.0
  }

  /** `v || 1`: a falsy parameter becomes 1, a truthy one is kept. */
  function OrOne(v: Option<real>): (r: real)
    ensures r != 0.0
    ensures Truthy(v) ==> r == v.value
    ensures !Truthy(v) ==> r == 1.0
  {
    match v
    case None => 1.0
    case Some(x) => if x == 0.0 then 1.0 else x
  }

  /** `t.framework || {}` followed by the four `Number(f.x || 1)` lines. */
  function Normalize(f: Option<RawRice>): (p: Params)
    ensures p.reach != 0.0 && p.impact != 0.0 && p.confidence != 0.0 && p.effort != 0.0
    ensures f.None? ==> p == Params(1.0, 1.0, 1.0, 1.0)
    ensures f.Some? ==> p == Params(OrOne(f.value.reach), OrOne(f.value.impact),
                                    OrOne(f.value.confidence), OrOne(f.value.effort))
  {
    var raw := f.GetOr(RawRice(None, None, None, None));
    Params(OrOne(raw.reach), OrOne(raw.impact), OrOne(raw.confidence), OrOne(raw.effort))
  }

  /** `Math.max(1, effort)`. */
  function Divisor(effort: real): (d: real)
    ensures d >= 1.0 && d >= effort
    ensures d == 1.0 || d == effort
  {
    if effort < 1.0 then 1.0 else effort
  }

  /** Magnitudes at or above 10^21 are printed by `toFixed` without rounding. */
  const ToFixedLimit: real := 1_000_000_000_000_000_000_000.0

  /** `Number(x.toFixed(2))` on an exact real: the magnitude is rounded to the
      nearest multiple of 1/100, a tie going to the larger magnitude, and the
      sign is put back. */
  function Round2(x: real): (r: real)
    ensures -0.005 <= r - x <= 0.005
    ensures x >= 0.0 ==> r >= 0.0
    ensures x <= 0.0 ==> r <= 0.0
    ensures x <= -0.005 ==> r <= -0.01
    ensures -ToFixedLimit < x < ToFixedLimit ==> (r * 100.0).Floor as real == r * 100.0
  {
    if x < 0.0 then
      var m := RoundMagnitude(-x);
      WholeCentsNegate(m);
      -m
    else RoundMagnitude(x)
  }

  /** A whole number of cents stays whole when negated. */
  lemma WholeCentsNegate(m: real)
    ensures (m * 100.0).Floor as real == m * 100.0 ==> (-m * 100.0).Floor as real == -m * 100.0
  {
    var n := (m * 100.0).Floor;
    if n as real == m * 100.0 {
      var c := -m * 100.0;
      assert c == -(m * 100.0);
      assert c == (-n) as real;
      assert c.Floor == -n;
    }
  }

  /** Rounding of a non-negative magnitude, as `toFixed` does after taking
      off the sign. */
  function RoundMagnitude(x: real): (r: real)
    requires x >= 0.0
    ensures -0.005 <= r - x <= 0.005
    ensures r >= 0.0
    ensures x >= 0.005 ==> r >= 0.01
    ensures x < ToFixedLimit ==> (r * 100.0).Floor as real == r * 100.0
  {
    if x >= ToFixedLimit then x
    else
      var n := (x * 100.0 + 0.5).Floor;
      n as real / 100.0
  }

  /** reach × impact × confidence. */
  function Product(p: Params): real {
    p.reach * p.impact * p.confidence
  }

  /** Product / max(1, effort), rounded to two decimals. The divisor is
      floored at 1: an effort at or below 1 (a fraction, zero or a negative
      number) divides by exactly 1, a larger one by itself. */
  function Score(p: Params): (r: real)
    ensures p.effort <= 1.0 ==> r == Round2(Product(p))
    ensures p.effort >= 1.0 ==> r == Round2(Product(p) / p.effort)
    ensures -0.005 <= r - Product(p) / Divisor(p.effort) <= 0.005
  {
    Round2(Product(p) / Divisor(p.effort))
  }

  /** Non-negative parameters give a non-negative score. */
  lemma {:induction false} ScoreNonNegative(p: Params)
    requires p.reach >= 0.0 && p.impact >= 0.0 && p.confidence >= 0.0
    ensures Score(p) >= 0.0
  {
    assert p.reach * p.impact >= 0.0;
    assert Product(p) >= 0.0;
    assert Product(p) / Divisor(p.effort) >= 0.0;
  }

  /** A negative reach is truthy, so it is kept. With positive impact and
      confidence the score is then at most 0, and it is below 0 as soon as
      the exact quotient is at or below -0.005; a quotient closer to 0
      rounds to 0. Nothing in the code keeps scores at or above zero. */
  lemma {:induction false} NegativeReachKept(f: RawRice)
    requires f.reach.Some? && f.reach.value < 0.0
    ensures Normalize(Some(f)).reach == f.reach.value
    ensures var p := Normalize(Some(f));
      p.impact > 0.0 && p.confidence > 0.0 ==> Score(p) <= 0.0
    ensures var p := Normalize(Some(f));
      Product(p) / Divisor(p.effort) <= -0.005 ==> Score(p) < 0.0
  {
    var p := Normalize(Some(f));
    if p.impact > 0.0 && p.confidence > 0.0 {
      assert p.reach < 0.0;
      assert p.reach * p.impact < 0.0;
      assert Product(p) < 0.0;
      assert Product(p) / Divisor(p.effort) < 0.0;
    }
  }

  /** Reach -2 with every other parameter missing scores -2. */
  lemma NegativeReachExample()
    ensures Normalize(Some(RawRice(Some(-2.0), None, None, None))) == Params(-2.0, 1.0, 1.0, 1.0)
    ensures Score(Params(-2.0, 1.0, 1.0, 1.0)) == -2.0
  {
    assert (200.5).Floor == 200;
  }
}
