/** Species templates, monster instances and their derived stats, experience
    and evolution (src/models/monster.py). The older single-file revision
    (monster_collector_basic.py) has the same `Move`, `Monster` and stat code
    without the evolution fields; it is modelled by these same members with
    `evolvesTo == None`. */
module Monsters {
  import opened Wrappers
  import opened Numeric
  import opened JsonData

  /** A move. Only "physical" is ever used as `kind`. */
  datatype Move = Move(name: string, power: int, accuracy: real, kind: string)

  const Physical: string := "physical"

  /** The move a monster knows when its species has no learnset. */
  const Tackle: Move := Move("Tackle", 35, 0.95, Physical)

  /** A species template from the catalog. The icon path is presentation only
      and is not part of the model. */
  datatype Spec = Spec(
    key: string,
    name: string,
    element: string,
    baseHp: int,
    baseAtk: int,
    baseDef: int,
    baseSpd: int,
    catchRate: int,
    learnset: seq<Move>,
    evolvesTo: Option<string>,
    evolutionLevel: Option<int>,
    evolutionRequirements: Option<Json>)

  /** A monster instance. `detachedHp` is the `current_hp` attribute that
      `evolve` stores on the monster object itself; nothing in the game ever
      reads it (battle hit points live on the Combatant). */
  datatype Monster = Monster(spec: Spec, level: int, exp: int, moves: seq<Move>, detachedHp: Option<int>)

  /** A monster together with its hit points for the duration of one battle. */
  datatype Combatant = Combatant(mon: Monster, hp: int)

  /** The moves a new monster starts with: the first two moves of the
      learnset, or Tackle alone when the learnset is empty. */
  function DefaultMoves(s: Spec): (r: seq<Move>)
    ensures 1 <= |r| <= 2
    ensures |s.learnset| == 0 ==> r == [Tackle]
    ensures |s.learnset| > 0 ==> |r| == Min(2, |s.learnset|) && r == s.learnset[..|r|]
  {
    if |s.learnset| == 0 then [Tackle]
    else if |s.learnset| >= 2 then s.learnset[..2]
    else s.learnset
  }

  /** The dataclass constructor with `__post_init__`: an empty move list is
      replaced by the default moves, a non-empty one is kept. */
  function MakeMonster(spec: Spec, level: int, exp: int, moves: seq<Move>): (m: Monster)
    ensures m.spec == spec && m.level == level && m.exp == exp && m.detachedHp == None
    ensures |m.moves| > 0
    ensures |moves| > 0 ==> m.moves == moves
    ensures |moves| == 0 ==> m.moves == DefaultMoves(spec)
  {
    Monster(spec, level, exp, if |moves| > 0 then moves else DefaultMoves(spec), None)
  }

  /** `Monster(spec, level=lvl)`: no experience, default moves. */
  function NewMonster(spec: Spec, level: int): (m: Monster)
    ensures m.spec == spec && m.level == level && m.exp == 0
    ensures m.moves == DefaultMoves(spec)
  {
    MakeMonster(spec, level, 0, [])
  }

  // ---------------------------------------------------------------- stats

  function MaxHp(m: Monster): (r: int)
    ensures r >= 1
    ensures m.spec.baseHp + 3 * m.level >= 1 ==> r == m.spec.baseHp + 3 * m.level
    ensures m.spec.baseHp + 3 * m.level < 1 ==> r == 1
  {
    Max(1, m.spec.baseHp + m.level * 3)
  }

  function Atk(m: Monster): (r: int)
    ensures r >= 1
    ensures m.spec.baseAtk + 2 * m.level >= 1 ==> r == m.spec.baseAtk + 2 * m.level
    ensures m.spec.baseAtk + 2 * m.level < 1 ==> r == 1
  {
    Max(1, m.spec.baseAtk + m.level * 2)
  }

  function Defense(m: Monster): (r: int)
    ensures r >= 1
    ensures m.spec.baseDef + 2 * m.level >= 1 ==> r == m.spec.baseDef + 2 * m.level
    ensures m.spec.baseDef + 2 * m.level < 1 ==> r == 1
  {
    Max(1, m.spec.baseDef + m.level * 2)
  }

  /** `max(1, base_spd + int(level * 1.5))`; for a non-negative level the
      bonus is `level * 3 / 2` in integer division. */
  function Speed(m: Monster): (r: int)
    ensures r >= 1
    ensures m.level >= 0 ==> r == Max(1, m.spec.baseSpd + m.level * 3 / 2)
    ensures m.level < 0 ==> r == Max(1, m.spec.baseSpd - (-m.level * 3) / 2)
  {
    HalfTimesThree(m.level);
    Max(1, m.spec.baseSpd + Trunc(m.level as real * 1.5))
  }

  /** For one species, a higher level never lowers a stat. */
  lemma StatsGrowWithLevel(m: Monster, level: int)
    requires m.level <= level
    ensures var n := m.(level := level);
      && MaxHp(m) <= MaxHp(n) && Atk(m) <= Atk(n) && Defense(m) <= Defense(n)
      && Speed(m) <= Speed(n)
  {
    HalfTimesThree(m.level);
    HalfTimesThree(level);
  }

  /** `int(n * 1.5)` is `3n/2` rounded toward zero. */
  lemma HalfTimesThree(n: int)
    ensures n >= 0 ==> Trunc(n as real * 1.5) == n * 3 / 2
    ensures n < 0 ==> Trunc(n as real * 1.5) == -((-n * 3) / 2)
  {
    if n >= 0 {
      var q := n * 3 / 2;
      assert n * 3 == 2 * q || n * 3 == 2 * q + 1;
      assert q as real <= n as real * 1.5 < q as real + 1.0;
    } else {
      var q := (-n) * 3 / 2;
      assert (-n) * 3 == 2 * q || (-n) * 3 == 2 * q + 1;
      assert q as real <= (-n) as real * 1.5 < q as real + 1.0;
    }
  }

  // ----------------------------------------------------------- experience

  /** `exp_to_next`: the experience needed to leave level `level`; it is
      positive from level -1 up, which is what lets the level-up loop end. */
  function Threshold(level: int): (r: int)
    ensures r > 0 <==> level >= -1
    ensures level >= 1 ==> r >= 30
  {
    20 + level * 10
  }

  function ExpToNext(m: Monster): int {
    Threshold(m.level)
  }

  /** Total experience spent going from level `a` up to level `b`. */
  function Cost(a: int, b: int): (r: int)
    decreases b - a
  {
    if b <= a then 0 else Cost(a, b - 1) + Threshold(b - 1)
  }

  /** Climbing one more level costs that level's threshold; with a positive
      threshold at `a`, climbing is strictly increasing in the target. */
  lemma {:induction false} CostStrictlyIncreasing(a: int, b: int, c: int)
    requires Threshold(a) > 0
    requires a <= b < c
    ensures Cost(a, b) < Cost(a, c)
    decreases c - b
  {
    assert Threshold(c - 1) > 0;
    if b < c - 1 {
      CostStrictlyIncreasing(a, b, c - 1);
    }
  }

  /** The outcome of the level-up loop: final level and leftover experience. */
  datatype Growth = Growth(level: int, exp: int)

  /** The level-up loop as a recursive definition: while the experience
      reaches the threshold, pay it and go up one level. */
  function Climb(level: int, exp: int): (g: Growth)
    requires Threshold(level) > 0
    ensures g.level >= level
    ensures g.exp < Threshold(g.level)
    ensures g.exp == exp - Cost(level, g.level)
    ensures forall k :: level < k <= g.level ==> Cost(level, k) <= exp
    decreases exp
  {
    if exp >= Threshold(level) then
      var g := Climb(level + 1, exp - Threshold(level));
      ClimbShift(level, g.level);
      g
    else
      Growth(level, exp)
  }

  /** Costs measured from `a` and from `a + 1` differ by the threshold at `a`. */
  lemma {:induction false} ClimbShift(a: int, b: int)
    requires a < b
    ensures Cost(a, b) == Threshold(a) + Cost(a + 1, b)
    ensures forall k :: a + 1 < k <= b ==> Cost(a, k) == Threshold(a) + Cost(a + 1, k)
    decreases b - a
  {
    if b > a + 1 {
      ClimbShift(a, b - 1);
    }
  }

  /** Paying for level `b` extends the cost by exactly its threshold. */
  lemma CostStep(a: int, b: int)
    requires a <= b
    ensures Cost(a, b + 1) == Cost(a, b) + Threshold(b)
  {
  }

  /** The contract of `Climb` pins its result down: any level and leftover
      with the same description are the ones the loop reaches. */
  lemma LevelUpUnique(level: int, exp: int, g: Growth)
    requires Threshold(level) > 0
    requires g.level >= level
    requires g.exp == exp - Cost(level, g.level)
    requires g.exp < Threshold(g.level)
    requires forall k :: level < k <= g.level ==> Cost(level, k) <= exp
    ensures g == Climb(level, exp)
  {
    var c := Climb(level, exp);
    if c.level < g.level {
      CostStep(level, c.level);
      assert false;
    } else if c.level > g.level {
      CostStep(level, g.level);
      assert false;
    }
  }

  /** Log lines of `gain_exp`, as events rather than formatted text. */
  datatype ExpLog = Gained(name: string, amount: int) | LeveledUp(name: string, level: int)

  /** `gain_exp(amount)`: add the experience, then loop through as many
      level-ups as it pays for. Levels start at 2 and only rise, so the
      first threshold is always positive; the precondition records that,
      and the decreasing experience then shows the loop ends. */
  method GainExp(m: Monster, amount: int) returns (r: Monster, log: seq<ExpLog>)
    requires ExpToNext(m) > 0
    ensures r == m.(level := r.level, exp := r.exp)
    ensures Growth(r.level, r.exp) == Climb(m.level, m.exp + amount)
    ensures r.level >= m.level && r.exp < ExpToNext(r)
    ensures |log| == 1 + (r.level - m.level)
    ensures log[0] == Gained(m.spec.name, amount)
    ensures forall i :: 1 <= i < |log| ==> log[i] == LeveledUp(m.spec.name, m.level + i)
    ensures amount == 0 && m.exp < ExpToNext(m) ==> r == m
  {
    var level, exp := m.level, m.exp + amount;
    log := [Gained(m.spec.name, amount)];
    while exp >= Threshold(level)
      invariant level >= m.level
      invariant Threshold(level) > 0
      invariant Climb(level, exp) == Climb(m.level, m.exp + amount)
      invariant |log| == 1 + (level - m.level)
      invariant log[0] == Gained(m.spec.name, amount)
      invariant forall i :: 1 <= i < |log| ==> log[i] == LeveledUp(m.spec.name, m.level + i)
      decreases exp
    {
      exp, level := exp - Threshold(level), level + 1;
      log := log + [LeveledUp(m.spec.name, level)];
    }
    r := m.(level := level, exp := exp);
  }

  /** The functional form of `gain_exp`, for use inside pure step functions. */
  function GainExpF(m: Monster, amount: int): (r: Monster)
    requires ExpToNext(m) > 0
    ensures r == m.(level := r.level, exp := r.exp)
    ensures Growth(r.level, r.exp) == Climb(m.level, m.exp + amount)
  {
    var g := Climb(m.level, m.exp + amount);
    m.(level := g.level, exp := g.exp)
  }

  // ------------------------------------------------------------ evolution

  /** `evolution_level or 1000`: a missing level and a level of 0 both fall
      back to 1000. */
  function EvolutionThreshold(s: Spec): int {
    match s.evolutionLevel
    case Some(l) => if l != 0 then l else 1000
    case None => 1000
  }

  predicate CanEvolve(m: Monster)
    ensures CanEvolve(m) ==> m.spec.evolvesTo.Some?
    ensures (m.spec.evolutionLevel == None || m.spec.evolutionLevel == Some(0)) ==>
      (CanEvolve(m) <==> m.spec.evolvesTo.Some? && m.level >= 1000)
    ensures (m.spec.evolutionLevel.Some? && m.spec.evolutionLevel.value != 0) ==>
      (CanEvolve(m) <==> m.spec.evolvesTo.Some? && m.level >= m.spec.evolutionLevel.value)
  {
    m.spec.evolvesTo.Some? && m.level >= EvolutionThreshold(m.spec)
  }

  /** The evolution target is in the catalog whenever evolution is due;
      otherwise `monster_db[evolves_to]` raises KeyError. */
  predicate TargetKnown(m: Monster, db: map<string, Spec>) {
    CanEvolve(m) ==> m.spec.evolvesTo.value in db
  }

  /** A copy of each learnset move; the copy does not pass `kind` on, so it
      takes the default "physical". */
  function CopyMoves(ls: seq<Move>): (r: seq<Move>)
    ensures |r| == |ls|
    ensures forall i :: 0 <= i < |ls| ==> r[i] == ls[i].(kind := Physical)
  {
    seq(|ls|, i requires 0 <= i < |ls| => Move(ls[i].name, ls[i].power, ls[i].accuracy, Physical))
  }

  /** `evolve` as written: the new species' whole learnset replaces the
      moves, even when that learnset is empty. */
  function Evolve(m: Monster, db: map<string, Spec>): (r: Monster)
    requires TargetKnown(m, db)
    ensures !CanEvolve(m) ==> r == m
    ensures CanEvolve(m) ==>
      && r.spec == db[m.spec.evolvesTo.value]
      && r.level == m.level && r.exp == m.exp
      && r.moves == CopyMoves(r.spec.learnset)
      && r.detachedHp == Some(MaxHp(r))
  {
    if CanEvolve(m) then
      var s := db[m.spec.evolvesTo.value];
      var r := m.(spec := s, moves := CopyMoves(s.learnset));
      r.(detachedHp := Some(MaxHp(r)))
    else m
  }

  /** A catalog whose evolution leads into a species with no moves. */
  const Larva: Spec := Spec("larva", "Larva", "Normal", 10, 5, 5, 5, 100, [Tackle], Some("husk"), Some(5), None)
  const Husk: Spec := Spec("husk", "Husk", "Normal", 30, 1, 20, 1, 50, [], None, None, None)

  /** Evolving into a species with an empty learnset leaves the monster
      with no moves, although a new monster always has at least one; the
      next move selection in battle then indexes an empty list. */
  lemma EvolveCanLeaveNoMoves()
    ensures var m := NewMonster(Larva, 5);
      CanEvolve(m) && |m.moves| > 0 && |Evolve(m, map["husk" := Husk]).moves| == 0
  {
  }

  /** `evolve` with the fallback `__post_init__` applies to an empty move
      list: the whole learnset when there is one, Tackle otherwise. This is
      the evolution the battle model uses. */
  function EvolveKeepingMoves(m: Monster, db: map<string, Spec>): (r: Monster)
    requires TargetKnown(m, db)
    ensures !CanEvolve(m) ==> r == m
    ensures CanEvolve(m) ==>
      && r.spec == db[m.spec.evolvesTo.value]
      && r.level == m.level && r.exp == m.exp
      && r.detachedHp == Some(MaxHp(r))
      && (|r.spec.learnset| > 0 ==> r.moves == CopyMoves(r.spec.learnset))
      && (|r.spec.learnset| == 0 ==> r.moves == [Tackle])
    ensures |m.moves| > 0 ==> |r.moves| > 0
  {
    var e := Evolve(m, db);
    if CanEvolve(m) && |e.moves| == 0 then e.(moves := [Tackle]) else e
  }
}
