/** The damage and capture resolvers of src/battle/damage.py, over real
    numbers. Every random number is an argument: `Draw.hit` is the
    accuracy draw `random()` in [0, 1), `Draw.spread` the variance
    `uniform(0.85, 1.0)`. */
module Damage {
  import opened Numeric
  import opened Monsters
  import opened Constants

  /** The random numbers one attack consumes. */
  datatype Draw = Draw(hit: real, spread: real)

  predicate DrawInRange(d: Draw) {
    0.0 <= d.hit < 1.0 && 0.85 <= d.spread <= 1.0
  }

  /** `type_multiplier`: the table entry for the ordered element pair, 1.0
      when the pair is absent. With this table that is 1.5 exactly on the
      four cycle pairs. */
  function TypeMultiplier(attacker: Monster, defender: Monster): (r: real)
    ensures r == 1.5 || r == 1.0
    ensures r == 1.5 <==> (attacker.spec.element, defender.spec.element) in ElementEffectiveness
    ensures r == 1.5 <==> attacker.spec.element in CycleElements && defender.spec.element == Prey(attacker.spec.element)
  {
    ElementTableIsCycle();
    var pair := (attacker.spec.element, defender.spec.element);
    if pair in ElementEffectiveness then ElementEffectiveness[pair] else 1.0
  }

  /** The level-scaled base damage of a connecting hit, floored at 1.0. */
  function BaseDamage(attacker: Monster, defender: Monster, mv: Move): (r: real)
    ensures r >= 1.0
    ensures var raw := ((0.4 * attacker.level as real + 2.0) * mv.power as real
                        * (Atk(attacker) as real / Max(1, Defense(defender)) as real)) / 10.0;
      (raw >= 1.0 ==> r == raw) && (raw < 1.0 ==> r == 1.0)
  {
    var raw := ((0.4 * attacker.level as real + 2.0) * mv.power as real
                * (Atk(attacker) as real / Max(1, Defense(defender)) as real)) / 10.0;
    MaxR(1.0, raw)
  }

  /** Multiplying both sides of an inequality by a non-negative factor. */
  lemma ScaleRight(x: real, y: real, q: real)
    requires x <= y && q >= 0.0
    ensures x * q <= y * q
  {
    assert y * q - x * q == (y - x) * q;
  }

  /** The level factor `0.4 * level + 2` that `BaseDamage` multiplies by. */
  function LevelFactor(m: Monster): (f: real)
    ensures m.level >= -5 ==> f >= 0.0
  {
    0.4 * m.level as real + 2.0
  }

  /** A stronger move never does less base damage, while the level factor
      is not negative. */
  lemma BaseDamageMonotoneInPower(attacker: Monster, defender: Monster, m1: Move, m2: Move)
    requires attacker.level >= -5 && m1.power <= m2.power
    ensures BaseDamage(attacker, defender, m1) <= BaseDamage(attacker, defender, m2)
  {
    var l := LevelFactor(attacker);
    var q := Atk(attacker) as real / Max(1, Defense(defender)) as real;
    ScaleRight(m1.power as real, m2.power as real, l);
    assert l * m1.power as real <= l * m2.power as real;
    ScaleRight(l * m1.power as real, l * m2.power as real, q);
  }

  /** A sturdier defender never takes more base damage from a move of
      non-negative power. */
  lemma BaseDamageAntitoneInDefense(attacker: Monster, d1: Monster, d2: Monster, mv: Move)
    requires attacker.level >= -5 && mv.power >= 0 && Defense(d1) <= Defense(d2)
    ensures BaseDamage(attacker, d2, mv) <= BaseDamage(attacker, d1, mv)
  {
    var a := Atk(attacker) as real;
    var e1 := Max(1, Defense(d1)) as real;
    var e2 := Max(1, Defense(d2)) as real;
    QuotientAntitone(a, e1, e2);
    QuotientMonotone(0.0, a, e2);
    RawMonotone(LevelFactor(attacker), LevelFactor(attacker), mv.power as real, a / e2, a / e1);
    BaseDamageOfRaw(attacker, d1, mv);
    BaseDamageOfRaw(attacker, d2, mv);
  }

  /** Dividing a non-negative amount by a larger positive number gives no
      more. */
  lemma QuotientAntitone(a: real, d1: real, d2: real)
    requires a >= 0.0 && 0.0 < d1 <= d2
    ensures a / d2 <= a / d1
  {
    assert a / d2 * d2 == a;
    assert a / d1 * d1 == a;
    if a / d2 > a / d1 {
      ScaleRight(a / d1, a / d2, d1);
      ScaleRight(d1, d2, a / d2);
      assert false;
    }
  }

  /** The same species at a higher level never does less base damage with a
      move of non-negative power. */
  lemma BaseDamageMonotoneInLevel(a1: Monster, a2: Monster, defender: Monster, mv: Move)
    requires a2 == a1.(level := a2.level) && -5 <= a1.level <= a2.level && mv.power >= 0
    ensures BaseDamage(a1, defender, mv) <= BaseDamage(a2, defender, mv)
  {
    StatsGrowWithLevel(a1, a2.level);
    var d := Max(1, Defense(defender)) as real;
    var x1 := Atk(a1) as real;
    var x2 := Atk(a2) as real;
    QuotientMonotone(x1, x2, d);
    QuotientMonotone(0.0, x1, d);
    var q1 := x1 / d;
    var q2 := x2 / d;
    RawMonotone(LevelFactor(a1), LevelFactor(a2), mv.power as real, q1, q2);
    BaseDamageOfRaw(a1, defender, mv);
    BaseDamageOfRaw(a2, defender, mv);
  }

  /** The unfloored formula of `calc_damage`'s base damage. */
  function Raw(l: real, p: real, q: real): real {
    (l * p * q) / 10.0
  }

  /** `BaseDamage` as the floor 1.0 applied to the raw formula. */
  lemma BaseDamageOfRaw(attacker: Monster, defender: Monster, mv: Move)
    ensures BaseDamage(attacker, defender, mv)
      == MaxR(1.0, Raw(LevelFactor(attacker), mv.power as real, Atk(attacker) as real / Max(1, Defense(defender)) as real))
  {
  }

  /** Dividing by the same positive number keeps the order. */
  lemma QuotientMonotone(a1: real, a2: real, d: real)
    requires a1 <= a2 && d > 0.0
    ensures a1 / d <= a2 / d
  {
  }

  /** The raw damage formula grows with each of its non-negative factors. */
  lemma RawMonotone(l1: real, l2: real, p: real, q1: real, q2: real)
    requires 0.0 <= l1 <= l2 && p >= 0.0 && 0.0 <= q1 <= q2
    ensures Raw(l1, p, q1) <= Raw(l2, p, q2)
  {
    ScaleRight(l1, l2, p);
    ScaleRight(0.0, l1, p);
    ScaleRight(l1 * p, l2 * p, q1);
    ScaleRight(0.0, l2, p);
    ScaleRight(q1, q2, l2 * p);
    assert (l2 * p) * q1 <= (l2 * p) * q2;
  }

  /** The message suffix chosen from the multiplier. */
  function Note(mult: real): (s: string)
    ensures mult > 1.0 <==> s == " It's super effective!"
    ensures mult < 1.0 <==> s == " It's not very effective."
    ensures mult == 1.0 <==> s == ""
  {
    if mult > 1.0 then " It's super effective!"
    else if mult < 1.0 then " It's not very effective."
    else ""
  }

  /** What the battle log says about one attack. */
  datatype Report = Missed(attacker: string, move: string) | Used(attacker: string, move: string, note: string)

  datatype Strike = Strike(damage: int, report: Report)

  /** `calc_damage`: a miss when the accuracy draw exceeds the move's
      accuracy; otherwise the truncated product of base damage, multiplier
      and variance, which lies between 85% and 100% of base times
      multiplier (and may be 0). */
  function CalcDamage(attacker: Monster, defender: Monster, mv: Move, d: Draw): (r: Strike)
    requires DrawInRange(d)
    ensures r.report.Missed? <==> d.hit > mv.accuracy
    ensures r.report.Missed? ==> r.damage == 0 && r.report == Missed(attacker.spec.name, mv.name)
    ensures r.damage >= 0
    ensures r.report.Used? ==>
      var top := BaseDamage(attacker, defender, mv) * TypeMultiplier(attacker, defender);
      && r.damage as real <= top * d.spread < r.damage as real + 1.0
      && r.damage as real <= top
      && 0.85 * top < r.damage as real + 1.0
      && r.report == Used(attacker.spec.name, mv.name, Note(TypeMultiplier(attacker, defender)))
  {
    if d.hit > mv.accuracy then
      Strike(0, Missed(attacker.spec.name, mv.name))
    else
      var base := BaseDamage(attacker, defender, mv);
      var mult := TypeMultiplier(attacker, defender);
      assert base * mult >= 1.0 by {
        assert mult == 1.5 || mult == 1.0;
      }
      Strike(Scaled(base * mult, d.spread), Used(attacker.spec.name, mv.name, Note(mult)))
  }

  /** Scaling a non-negative amount by a factor in [0.85, 1.0]. */
  lemma ScaleBetween(top: real, f: real)
    requires top >= 0.0 && 0.85 <= f <= 1.0
    ensures 0.85 * top <= top * f <= top
  {
    assert top * f - 0.85 * top == top * (f - 0.85);
    assert top - top * f == top * (1.0 - f);
  }

  /** `int(top * variance)` for a non-negative amount and a variance in
      [0.85, 1.0]. */
  function Scaled(top: real, f: real): (n: int)
    requires top >= 0.0 && 0.85 <= f <= 1.0
    ensures n as real <= top * f < n as real + 1.0
    ensures 0 <= n && n as real <= top && 0.85 * top < n as real + 1.0
    ensures f == 1.0 ==> n == top.Floor
  {
    ScaleBetween(top, f);
    (top * f).Floor
  }

  /** A larger amount never truncates to less under the same variance. */
  lemma ScaledMonotone(t1: real, t2: real, f: real)
    requires 0.0 <= t1 <= t2 && 0.85 <= f <= 1.0
    ensures Scaled(t1, f) <= Scaled(t2, f)
  {
    assert t2 * f - t1 * f == (t2 - t1) * f;
    assert t1 * f <= t2 * f;
    var n1 := (t1 * f).Floor;
    assert n1 as real <= t2 * f;
  }

  /** A hit that connects can still deal no damage: base 1.0, neutral
      multiplier and any variance below 1.0 truncate to 0. */
  lemma HitCanDealNothing(attacker: Monster, defender: Monster, mv: Move, d: Draw)
    requires DrawInRange(d) && d.hit <= mv.accuracy && d.spread < 1.0
    requires BaseDamage(attacker, defender, mv) == 1.0
    requires TypeMultiplier(attacker, defender) == 1.0
    ensures CalcDamage(attacker, defender, mv, d).report.Used?
    ensures CalcDamage(attacker, defender, mv, d).damage == 0
  {
    var x := 1.0 * 1.0 * d.spread;
    assert 0.0 <= x < 1.0;
  }

  /** With the table as it stands no attack is ever "not very effective". */
  lemma NeverNotVeryEffective(attacker: Monster, defender: Monster)
    ensures Note(TypeMultiplier(attacker, defender)) != " It's not very effective."
  {
  }

  // -------------------------------------------------------------- capture

  /** `attempt_capture`'s probability: `0.2 + 0.15 * a` with
      `a = catch_rate * bonus / (255 / 3)`, clamped to [0.05, 0.95]. */
  function CaptureChance(catchRate: int, bonus: real): (p: real)
    ensures 0.05 <= p <= 0.95
    ensures catchRate >= 0 && bonus >= 0.0 ==> p >= 0.2
    ensures var raw := 0.2 + (catchRate as real * bonus) / 85.0 * 0.15;
      && (0.05 <= raw <= 0.95 ==> p == raw)
      && (raw > 0.95 ==> p == 0.95)
      && (raw < 0.05 ==> p == 0.05)
  {
    MinR(0.95, MaxR(0.05, 0.2 + (catchRate as real * bonus) / 85.0 * 0.15))
  }

  /** Capture succeeds exactly when the draw falls below the probability;
      so a draw below 0.05 always succeeds and one of 0.95 or more never. */
  predicate AttemptCapture(target: Monster, bonus: real, draw: real)
    ensures AttemptCapture(target, bonus, draw) <==> draw < CaptureChance(target.spec.catchRate, bonus)
    ensures draw < 0.05 ==> AttemptCapture(target, bonus, draw)
    ensures draw >= 0.95 ==> !AttemptCapture(target, bonus, draw)
  {
    draw < CaptureChance(target.spec.catchRate, bonus)
  }

  /** A higher catch rate never lowers the probability (for a
      non-negative bonus). */
  lemma CaptureMonotoneInRate(c1: int, c2: int, bonus: real)
    requires c1 <= c2 && bonus >= 0.0
    ensures CaptureChance(c1, bonus) <= CaptureChance(c2, bonus)
  {
    assert c2 as real * bonus - c1 as real * bonus == (c2 - c1) as real * bonus;
    NonNegativeProduct((c2 - c1) as real, bonus);
    ClampMonotone(c1 as real * bonus, c2 as real * bonus);
  }

  /** A bigger bonus never lowers the probability (for a non-negative
      catch rate). */
  lemma CaptureMonotoneInBonus(c: int, b1: real, b2: real)
    requires b1 <= b2 && c >= 0
    ensures CaptureChance(c, b1) <= CaptureChance(c, b2)
  {
    assert c as real * b2 - c as real * b1 == c as real * (b2 - b1);
    NonNegativeProduct(c as real, b2 - b1);
    ClampMonotone(c as real * b1, c as real * b2);
  }

  lemma NonNegativeProduct(x: real, y: real)
    requires x >= 0.0 && y >= 0.0
    ensures x * y >= 0.0
  {
  }

  /** The clamped formula is monotone in the product `catch_rate * bonus`. */
  lemma ClampMonotone(a1: real, a2: real)
    requires a1 <= a2
    ensures MinR(0.95, MaxR(0.05, 0.2 + a1 / 85.0 * 0.15)) <= MinR(0.95, MaxR(0.05, 0.2 + a2 / 85.0 * 0.15))
  {
    assert a1 / 85.0 <= a2 / 85.0;
  }
}
