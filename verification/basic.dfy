/** The earlier single-file game, monster_collector_basic.py. Stats,
    experience, the element table, the capture chance, the bag dialog, the
    player record and the shop prices are those of the modular game and are
    shared with it. What differs is modelled here: an additive damage
    formula, a battle panel that ends on the first faint of the player's
    lead, a capture that ignores the party limit, wild levels 2 to 6, its own
    map without trainers, and a party list without a persistent selection. */
module Basic {
  import opened Wrappers
  import opened Numeric
  import opened Monsters
  import opened Damage
  import opened Players
  import opened Dialogs
  import opened Overworld
  import opened Constants
  import Trainers
  import Shop
  import PartyScreen
  import Battles
  import Controller

  /** The map of this version; the hut is in the top-right corner and the
      seventh and eighth rows are one character longer than the first. */
  const BasicMap: seq<string> := [
    "########################",
    "#......TT....####.....H#",
    "#..####..##..#..#..TT..#",
    "#..#  #..#...#..#..##..#",
    "#..#  #..####..#.......#",
    "#..#  #........#..TT...#",
    "#..####..TTTT..##..###..#",
    "#.............C.....#..##",
    "#..TT..######..TT..#..TT#",
    "#......#....#......#....#",
    "########################"
  ]

  /** The map's size, its hut and shop squares, and the blackout square
      (1, 1), which is plain ground rather than the hut. */
  lemma BasicMapShape()
    ensures NoShortRows(BasicMap) && |BasicMap| == 11 && |BasicMap[0]| == 24
    ensures TileAt(22, 1, BasicMap) == 'H' && TileAt(14, 7, BasicMap) == 'C'
    ensures TileAt(1, 1, BasicMap) == '.'
    ensures TileAt(24, 6, BasicMap) == '#'
  {
  }

  // ------------------------------------------------------------ damage

  /** `max(1, power + atk - defense)`. */
  function AdditiveBase(attacker: Monster, defender: Monster, mv: Move): (r: int)
    ensures r >= 1
    ensures r >= mv.power + Atk(attacker) - Defense(defender)
    ensures r == 1 || r == mv.power + Atk(attacker) - Defense(defender)
  {
    Max(1, mv.power + Atk(attacker) - Defense(defender))
  }

  /** `calc_damage` of this version: a miss when the accuracy draw exceeds
      the move's accuracy; otherwise the truncated product of the additive
      base, the multiplier and the variance. */
  function AdditiveDamage(attacker: Monster, defender: Monster, mv: Move, d: Draw): (r: Strike)
    requires DrawInRange(d)
    ensures r.report.Missed? <==> d.hit > mv.accuracy
    ensures r.report.Missed? ==> r.damage == 0 && r.report == Missed(attacker.spec.name, mv.name)
    ensures r.damage >= 0
    ensures r.report.Used? ==>
      var top := AdditiveBase(attacker, defender, mv) as real * TypeMultiplier(attacker, defender);
      && r.damage as real <= top * d.spread < r.damage as real + 1.0
      && r.damage as real <= top
      && 0.85 * top < r.damage as real + 1.0
      && r.report == Used(attacker.spec.name, mv.name, Note(TypeMultiplier(attacker, defender)))
  {
    if d.hit > mv.accuracy then
      Strike(0, Missed(attacker.spec.name, mv.name))
    else
      var mult := TypeMultiplier(attacker, defender);
      assert AdditiveBase(attacker, defender, mv) as real * mult >= 1.0;
      Strike(Scaled(AdditiveBase(attacker, defender, mv) as real * mult, d.spread),
             Used(attacker.spec.name, mv.name, Note(mult)))
  }

  /** A full-strength roll of a connecting move at neutral effectiveness
      deals exactly the additive base, so at least 1. */
  lemma FullRollDealsBase(attacker: Monster, defender: Monster, mv: Move, d: Draw)
    requires DrawInRange(d) && d.hit <= mv.accuracy && d.spread == 1.0
    requires TypeMultiplier(attacker, defender) == 1.0
    ensures AdditiveDamage(attacker, defender, mv, d).damage == AdditiveBase(attacker, defender, mv) >= 1
  {
    var base := AdditiveBase(attacker, defender, mv) as real;
    assert base * TypeMultiplier(attacker, defender) == base;
  }

  /** For the same draws, a more powerful move with the same accuracy never
      deals less. */
  lemma StrongerMoveHitsHarder(attacker: Monster, defender: Monster, m1: Move, m2: Move, d: Draw)
    requires DrawInRange(d) && m1.power <= m2.power && m1.accuracy == m2.accuracy
    ensures AdditiveDamage(attacker, defender, m1, d).damage <= AdditiveDamage(attacker, defender, m2, d).damage
  {
    if d.hit <= m1.accuracy {
      var b1 := AdditiveBase(attacker, defender, m1) as real;
      var b2 := AdditiveBase(attacker, defender, m2) as real;
      if TypeMultiplier(attacker, defender) == 1.0 {
        assert b1 * 1.0 == b1 && b2 * 1.0 == b2;
        ScaledMonotone(b1, b2, d.spread);
      } else {
        ScaledMonotone(b1 * 1.5, b2 * 1.5, d.spread);
      }
    }
  }

  // ------------------------------------------------------------ battle

  /** The battle panel while it shows a fight: the player (whose lead is
      the fighting monster), the lead's hit points and the wild monster. */
  datatype Frame = Frame(player: Player, plHp: int, foe: Combatant, outcome: Battles.Outcome)

  predicate FrameValid(b: Frame) {
    && |b.player.party| > 0
    && b.plHp >= 0 && b.foe.hp >= 0
    && |b.player.party[0].moves| > 0 && ExpToNext(b.player.party[0]) > 0
    && |b.foe.mon.moves| > 0
  }

  function Lead(b: Frame): Monster
    requires |b.player.party| > 0
  {
    b.player.party[0]
  }

  predicate FrameDown(b: Frame) {
    b.plHp <= 0 || b.foe.hp <= 0
  }

  /** `start_wild_battle` and `BattleFrame.start`: nothing without a party;
      otherwise the lead and the wild monster enter at full hit points. */
  function StartWild(p: Player, wild: Monster): (r: Option<Frame>)
    ensures r.Some? <==> |p.party| > 0
    ensures r.Some? ==> r.value == Frame(p, MaxHp(p.party[0]), Combatant(wild, MaxHp(wild)), Battles.Ongoing)
    ensures r.Some? && |p.party[0].moves| > 0 && ExpToNext(p.party[0]) > 0 && |wild.moves| > 0 ==>
      FrameValid(r.value)
  {
    if |p.party| == 0 then None
    else Some(Frame(p, MaxHp(p.party[0]), Combatant(wild, MaxHp(wild)), Battles.Ongoing))
  }

  /** The random numbers one command may consume. */
  datatype Dice = Dice(mine: Draw, pick: nat, theirs: Draw, chance: real)

  predicate DiceFit(b: Frame, dice: Dice) {
    DrawInRange(dice.mine) && DrawInRange(dice.theirs) && dice.pick < |b.foe.mon.moves|
    && 0.0 <= dice.chance < 1.0
  }

  datatype Step = Step(frame: Frame, log: seq<Battles.Action>, check: bool)

  /** One attack by `side`: the player's move in button slot `slot`, or the
      wild monster's move `pick`; the defender's hit points floor at 0. */
  function Attack(b: Frame, side: Battles.Side, slot: int, dice: Dice): (r: (Frame, Battles.Action))
    requires FrameValid(b) && DiceFit(b, dice)
    ensures FrameValid(r.0) && r.1.side == side
    ensures r.0.player == b.player && r.0.outcome == b.outcome && r.0.foe.mon == b.foe.mon
    ensures side == Battles.PlayerSide ==> r.0.plHp == b.plHp && r.0.foe.hp <= b.foe.hp
    ensures side == Battles.FoeSide ==> r.0.foe.hp == b.foe.hp && r.0.plHp <= b.plHp
  {
    if side == Battles.PlayerSide then
      var mv := Lead(b).moves[Battles.ChosenMove(Lead(b), slot)];
      var s := AdditiveDamage(Lead(b), b.foe.mon, mv, dice.mine);
      (b.(foe := b.foe.(hp := Battles.Hurt(b.foe.hp, s.damage))), Battles.Action(side, s.report))
    else
      var s := AdditiveDamage(b.foe.mon, Lead(b), b.foe.mon.moves[dice.pick], dice.theirs);
      (b.(plHp := Battles.Hurt(b.plHp, s.damage)), Battles.Action(side, s.report))
  }

  /** `BattleFrame.turn`: ignored once the panel is closed; the faster side
      (the player on a tie) acts first, and no one acts once either side is
      down. The outcome check is scheduled afterwards. */
  function Turn(b: Frame, slot: int, dice: Dice): (r: Step)
    requires FrameValid(b) && DiceFit(b, dice)
    ensures FrameValid(r.frame)
    ensures b.outcome != Battles.Ongoing ==> r == Step(b, [], false)
    ensures b.outcome == Battles.Ongoing ==> r.check
    ensures r.frame == b.(plHp := r.frame.plHp, foe := b.foe.(hp := r.frame.foe.hp))
    ensures r.frame.plHp <= b.plHp && r.frame.foe.hp <= b.foe.hp
    ensures |r.log| <= 2
    ensures FrameDown(b) ==> r.log == []
    ensures b.outcome == Battles.Ongoing && !FrameDown(b) ==> |r.log| >= 1
    ensures |r.log| == 1 ==> FrameDown(r.frame)
    ensures |r.log| >= 1 ==>
      r.log[0].side == (if Speed(Lead(b)) >= Speed(b.foe.mon) then Battles.PlayerSide else Battles.FoeSide)
    ensures |r.log| == 2 ==> r.log[1].side != r.log[0].side
  {
    if b.outcome != Battles.Ongoing then Step(b, [], false)
    else if FrameDown(b) then Step(b, [], true)
    else
      var playerFirst := Speed(Lead(b)) >= Speed(b.foe.mon);
      var first := if playerFirst then Battles.PlayerSide else Battles.FoeSide;
      var second := if playerFirst then Battles.FoeSide else Battles.PlayerSide;
      var (b1, a1) := Attack(b, first, slot, dice);
      if FrameDown(b1) then Step(b1, [a1], true)
      else
        var (b2, a2) := Attack(b1, second, slot, dice);
        Step(b2, [a1, a2], true)
  }

  /** `check_outcome` of this version: a fallen wild monster rewards the
      lead and ends the fight; a fallen lead always ends it, and only a
      player with at most one monster is sent back to (1, 1). Like the
      source, the check does not look at whether the panel is still open. */
  function CheckOutcome(b: Frame): (r: Frame)
    requires FrameValid(b)
    ensures FrameValid(r)
    ensures !FrameDown(b) ==> r == b
    ensures b.foe.hp <= 0 ==>
      && r.outcome == Battles.Won
      && |r.player.party| == |b.player.party|
      && r.player == b.player.(party := r.player.party)
      && r.player.party[1..] == b.player.party[1..]
      && r.player.party[0] == b.player.party[0].(level := r.player.party[0].level, exp := r.player.party[0].exp)
      && Growth(r.player.party[0].level, r.player.party[0].exp)
         == Climb(Lead(b).level, Lead(b).exp + Battles.Reward(b.foe.mon))
    ensures b.foe.hp > 0 && b.plHp <= 0 ==> r.outcome == Battles.Lost && r.player.party == b.player.party
    ensures b.foe.hp > 0 && b.plHp <= 0 && |b.player.party| <= 1 ==> r.player.x == 1 && r.player.y == 1
    ensures !(b.foe.hp > 0 && b.plHp <= 0 && |b.player.party| <= 1) ==>
      r.player.x == b.player.x && r.player.y == b.player.y
    ensures r.foe == b.foe && r.plHp == b.plHp
  {
    if b.foe.hp <= 0 then
      var m := GainExpF(Lead(b), Battles.Reward(b.foe.mon));
      b.(player := b.player.(party := b.player.party[0 := m]), outcome := Battles.Won)
    else if b.plHp <= 0 then
      if |b.player.party| <= 1 then b.(player := b.player.(x := 1, y := 1), outcome := Battles.Lost)
      else b.(outcome := Battles.Lost)
    else b
  }

  /** Unlike the modular game, a fallen lead loses the fight even when
      conscious teammates are waiting. */
  lemma FaintEndsBattle(b: Frame)
    requires FrameValid(b) && b.outcome == Battles.Ongoing
    requires b.plHp == 0 && b.foe.hp > 0 && |b.player.party| == 3
    ensures CheckOutcome(b).outcome == Battles.Lost
    ensures CheckOutcome(b).player.x == b.player.x && CheckOutcome(b).player.y == b.player.y
  {
  }

  /** The same fight with a one-monster party ends at (1, 1), which on this
      map is plain ground rather than the hut. */
  lemma BlackoutSquare(b: Frame)
    requires FrameValid(b) && b.outcome == Battles.Ongoing
    requires b.plHp == 0 && b.foe.hp > 0 && |b.player.party| == 1
    ensures CheckOutcome(b).player.x == 1 && CheckOutcome(b).player.y == 1
    ensures TileAt(CheckOutcome(b).player.x, CheckOutcome(b).player.y, BasicMap) != 'H'
  {
  }

  /** `after_bag_action` with an item consumed, as written: it has no
      `active` guard. A thrown orb that catches adds the wild monster to
      the party, however full, and closes the panel; otherwise the wild
      monster attacks, whatever its hit points and whether or not the fight
      is over, and the check is scheduled. */
  function AfterBagAction(b: Frame, usedCapture: bool, dice: Dice): (r: Step)
    requires FrameValid(b) && DiceFit(b, dice)
    ensures FrameValid(r.frame)
    ensures usedCapture && AttemptCapture(b.foe.mon, Battles.OrbBonus, dice.chance) ==>
      r == Step(b.(player := b.player.(party := b.player.party + [b.foe.mon]), outcome := Battles.Caught(true)), [], false)
    ensures !(usedCapture && AttemptCapture(b.foe.mon, Battles.OrbBonus, dice.chance)) ==>
      && r.check && r.frame.player == b.player && r.frame.foe == b.foe && r.frame.outcome == b.outcome
      && |r.log| == 1 && r.log[0].side == Battles.FoeSide && r.frame.plHp <= b.plHp
  {
    if usedCapture && AttemptCapture(b.foe.mon, Battles.OrbBonus, dice.chance) then
      Step(b.(player := b.player.(party := b.player.party + [b.foe.mon]), outcome := Battles.Caught(true)), [], false)
    else
      var (b1, a) := Attack(b, Battles.FoeSide, 0, dice);
      Step(b1, [a], true)
  }

  /** A catch with six monsters already in the party makes seven. */
  lemma CaptureIgnoresPartyCap(b: Frame, dice: Dice)
    requires FrameValid(b) && DiceFit(b, dice) && b.outcome == Battles.Ongoing
    requires |b.player.party| == PartyCap && dice.chance < 0.05
    ensures |AfterBagAction(b, true, dice).frame.player.party| == PartyCap + 1
  {
  }

  /** What the player does in the bag: cancel, or press an item's button. */
  datatype BagChoice = Cancel | Pick(item: string)

  /** A press in the `BagUseDialog`, as written. The dialog does not grab
      the input, so it stays usable while the panel fights on and after
      `end`; neither it nor `after_bag_action` looks at `active`. Cancel
      and a refused item change nothing; a consumed item goes on to
      `after_bag_action`. */
  function BagPick(b: Frame, choice: BagChoice, dice: Dice): (r: Step)
    requires FrameValid(b) && DiceFit(b, dice)
    ensures FrameValid(r.frame)
    ensures r.frame.player.money == b.player.money && r.frame.player.x == b.player.x && r.frame.player.y == b.player.y
    ensures choice.Cancel? ==> r == Step(b, [], false)
    ensures r.frame.player.bag != b.player.bag ==>
      choice.Pick? && Quantity(b.player.bag, choice.item) > 0
      && r.frame.player.bag == b.player.bag[choice.item := Quantity(b.player.bag, choice.item) - 1]
    ensures r.frame.outcome != b.outcome ==> choice == Pick(CharmOrb) && r.frame.outcome == Battles.Caught(true)
    ensures choice == Pick(CharmOrb) && Quantity(b.player.bag, CharmOrb) > 0 ==>
      r == AfterBagAction(b.(player := b.player.(bag := b.player.bag[CharmOrb := Quantity(b.player.bag, CharmOrb) - 1])), true, dice)
  {
    match choice
    case Cancel => Step(b, [], false)
    case Pick(item) =>
      var u := UseItem(b.player.bag, item, b.plHp, MaxHp(Lead(b)));
      if u.Refused? then Step(b, [], false)
      else AfterBagAction(b.(player := b.player.(bag := u.bag), plHp := u.hp), u.usedCapture, dice)
  }

  /** An orb thrown from a dialog left open through a won fight: a catch
      adds the fallen wild monster to the party, and a miss lets it strike
      at 0 hit points, after which the check rewards the lead a second
      time for the same knock-out. */
  lemma BagAfterWin(b: Frame, dice: Dice)
    requires FrameValid(b) && DiceFit(b, dice)
    requires b.outcome == Battles.Won && b.foe.hp == 0 && Quantity(b.player.bag, CharmOrb) > 0
    ensures var s := BagPick(b, Pick(CharmOrb), dice);
      && (AttemptCapture(b.foe.mon, Battles.OrbBonus, dice.chance) ==>
            s.frame.outcome == Battles.Caught(true) && s.frame.player.party == b.player.party + [b.foe.mon])
      && (!AttemptCapture(b.foe.mon, Battles.OrbBonus, dice.chance) ==>
            && s.check
            && var r := CheckOutcome(s.frame);
            && r.outcome == Battles.Won
            && Growth(Lead(r).level, Lead(r).exp) == Climb(Lead(b).level, Lead(b).exp + Battles.Reward(b.foe.mon)))
  {
  }

  /** The dialog press with the guard the panel's buttons have: once the
      panel is closed the press is ignored; while it is open it runs as
      written. */
  function BagPickGuarded(b: Frame, choice: BagChoice, dice: Dice): (r: Step)
    requires FrameValid(b) && DiceFit(b, dice)
    ensures FrameValid(r.frame)
    ensures b.outcome != Battles.Ongoing ==> r == Step(b, [], false)
    ensures b.outcome == Battles.Ongoing ==> r == BagPick(b, choice, dice)
    ensures r.frame.outcome != b.outcome ==>
      b.outcome == Battles.Ongoing && choice == Pick(CharmOrb) && r.frame.outcome == Battles.Caught(true)
  {
    if b.outcome != Battles.Ongoing then Step(b, [], false) else BagPick(b, choice, dice)
  }

  /** `use_bag` followed by a press in the dialog it opens: nothing once the
      panel is closed or when the bag has no entries at all; otherwise the
      guarded dialog press. */
  function UseBag(b: Frame, choice: BagChoice, dice: Dice): (r: Step)
    requires FrameValid(b) && DiceFit(b, dice)
    ensures FrameValid(r.frame)
    ensures b.outcome != Battles.Ongoing || |b.player.bag| == 0 || choice.Cancel? ==> r == Step(b, [], false)
    ensures r.frame.player.money == b.player.money && r.frame.player.x == b.player.x && r.frame.player.y == b.player.y
    ensures r.frame.player.bag != b.player.bag ==>
      choice.Pick? && Quantity(b.player.bag, choice.item) > 0
      && r.frame.player.bag == b.player.bag[choice.item := Quantity(b.player.bag, choice.item) - 1]
    ensures r.frame.outcome != b.outcome ==> choice == Pick(CharmOrb) && r.frame.outcome.Caught?
  {
    if |b.player.bag| == 0 then Step(b, [], false)
    else BagPickGuarded(b, choice, dice)
  }

  /** Whether `try_run` gets away: a draw below 0.6, or a lead at least as
      fast as the wild monster. */
  predicate Escapes(b: Frame, dice: Dice)
    requires |b.player.party| > 0
  {
    dice.chance < Battles.EscapeChance || Speed(Lead(b)) >= Speed(b.foe.mon)
  }

  /** `try_run` as written. Unlike `turn` and `use_bag` it has no `active`
      guard, and the Run button stays on screen after `end`. On an escape
      the panel closes; otherwise the wild monster attacks, whatever its
      hit points and whether or not the fight is over, and the check is
      scheduled. */
  function TryRun(b: Frame, dice: Dice): (r: Step)
    requires FrameValid(b) && DiceFit(b, dice)
    ensures FrameValid(r.frame)
    ensures Escapes(b, dice) ==> r == Step(b.(outcome := Battles.Fled), [], false)
    ensures !Escapes(b, dice) ==>
      && r.check && r.frame.player == b.player && r.frame.foe == b.foe && r.frame.outcome == b.outcome
      && r.frame.plHp <= b.plHp && |r.log| == 1 && r.log[0].side == Battles.FoeSide
  {
    if Escapes(b, dice) then
      Step(b.(outcome := Battles.Fled), [], false)
    else
      var (b1, a) := Attack(b, Battles.FoeSide, 0, dice);
      Step(b1, [a], true)
  }

  /** Run pressed on the panel of a fight already won, with a lead slower
      than the fallen wild monster and an escape draw of 0.6 or more: the
      fallen monster strikes, the check finds it still at 0 hit points, and
      the lead is rewarded a second time for the same knock-out. */
  lemma RunAfterWinRewardsAgain(b: Frame, dice: Dice)
    requires FrameValid(b) && DiceFit(b, dice)
    requires b.outcome == Battles.Won && b.foe.hp == 0
    requires dice.chance >= Battles.EscapeChance && Speed(Lead(b)) < Speed(b.foe.mon)
    ensures TryRun(b, dice).check
    ensures var r := CheckOutcome(TryRun(b, dice).frame);
      && r.outcome == Battles.Won
      && Growth(Lead(r).level, Lead(r).exp) == Climb(Lead(b).level, Lead(b).exp + Battles.Reward(b.foe.mon))
  {
  }

  /** `try_run` with the `active` guard `turn` and `use_bag` have: a closed
      panel ignores Run, and an open one runs as written. */
  function TryRunGuarded(b: Frame, dice: Dice): (r: Step)
    requires FrameValid(b) && DiceFit(b, dice)
    ensures FrameValid(r.frame)
    ensures b.outcome != Battles.Ongoing ==> r == Step(b, [], false)
    ensures b.outcome == Battles.Ongoing ==> r == TryRun(b, dice)
    ensures r.frame.outcome != b.outcome ==> b.outcome == Battles.Ongoing && r.frame.outcome == Battles.Fled
  {
    if b.outcome != Battles.Ongoing then Step(b, [], false) else TryRun(b, dice)
  }

  /** A command followed by the check it scheduled. */
  datatype Command = Fight(slot: int) | Bag(choice: BagChoice) | Run

  function Act(b: Frame, c: Command, dice: Dice): (r: Frame)
    requires FrameValid(b) && DiceFit(b, dice) && b.outcome == Battles.Ongoing
    ensures FrameValid(r)
    ensures r.player.money == b.player.money
    ensures |r.player.party| == |b.player.party| + (if r.outcome == Battles.Caught(true) then 1 else 0)
    ensures r.outcome == Battles.Lost ==>
      (if |b.player.party| <= 1 then r.player.x == 1 && r.player.y == 1
       else r.player.x == b.player.x && r.player.y == b.player.y)
    ensures r.outcome != Battles.Lost ==> r.player.x == b.player.x && r.player.y == b.player.y
    ensures r.outcome == Battles.Fled ==> c.Run?
    ensures r.outcome.Caught? ==> c == Bag(Pick(CharmOrb))
  {
    var s := match c
      case Fight(slot) => Turn(b, slot, dice)
      case Bag(choice) => UseBag(b, choice, dice)
      case Run => TryRunGuarded(b, dice);
    if s.check then CheckOutcome(s.frame) else s.frame
  }

  // ----------------------------------------------------------- moving

  /** `random_wild` of this version: levels 2 to 6. */
  function RandomWild(specs: map<string, Spec>, key: string, level: int): (m: Monster)
    requires key in specs && 2 <= level <= 6
    ensures m.spec == specs[key] && 2 <= m.level <= 6 && m.exp == 0
    ensures 1 <= |m.moves| <= 2
  {
    NewMonster(specs[key], level)
  }

  datatype Walk = Walk(player: Player, event: Controller.TileEvent, fight: Option<Frame>)

  /** `try_move` of this version: as in the modular game but on its own
      map, with no trainers, and with the encounter going straight to the
      battle panel. The wild monster is the one `random_wild` makes from
      the drawn catalog key and level. */
  function TryMove(p: Player, dx: int, dy: int, roll: real, specs: map<string, Spec>, key: string, level: int): (r: Walk)
    requires 0.0 <= roll < 1.0 && key in specs && 2 <= level <= 6
    ensures TileAt(p.x + dx, p.y + dy, BasicMap) == '#' ==> r == Walk(p, Controller.NoEvent, None)
    ensures TileAt(p.x + dx, p.y + dy, BasicMap) != '#' ==>
      && r.player == p.(x := p.x + dx, y := p.y + dy)
      && r.event == Controller.EventAt(TileAt(r.player.x, r.player.y, BasicMap))
    ensures r.fight.Some? <==>
      var t := TileAt(p.x + dx, p.y + dy, BasicMap);
      t != '#' && Controller.Grassy(t) && |p.party| > 0 && roll < Controller.EncounterRate(t)
    ensures r.fight.Some? ==>
      && r.fight.value.foe.mon == RandomWild(specs, key, level) && r.fight.value.player == r.player
      && r.fight.value.plHp == MaxHp(r.player.party[0]) && r.fight.value.outcome == Battles.Ongoing
  {
    BasicMapShape();
    var x := p.x + dx;
    var y := p.y + dy;
    var t := TileAt(x, y, BasicMap);
    if t == '#' then Walk(p, Controller.NoEvent, None)
    else
      var p1 := p.(x := x, y := y);
      var fight := if Controller.Grassy(t) && |p1.party| > 0 && roll < Controller.EncounterRate(t)
        then StartWild(p1, RandomWild(specs, key, level)) else None;
      Walk(p1, Controller.EventAt(t), fight)
  }

  /** On a square both maps agree on, a step of this version and a step of
      the modular game move the player alike and fire the same tile
      event. */
  lemma TryMoveAgrees(w: Controller.World, dx: int, dy: int, specs: map<string, Spec>, dice: Controller.StepDice)
    requires Controller.StepDiceFit(specs, dice)
    requires TileAt(w.player.x + dx, w.player.y + dy, BasicMap) == TileAt(w.player.x + dx, w.player.y + dy, WorldMap)
    ensures var b := TryMove(w.player, dx, dy, dice.roll, specs, dice.wildKey, dice.wildLevel);
      var c := Controller.TryMove(w, dx, dy, specs, dice);
      b.player == c.world.player && b.event == c.event
  {
  }

  /** When, moreover, the modular game is not in a battle and no trainer
      watches the square, both steps on the same draws open a wild fight
      together, against the same monster. */
  lemma WildFightsAgree(w: Controller.World, dx: int, dy: int, specs: map<string, Spec>, dice: Controller.StepDice)
    requires Controller.StepDiceFit(specs, dice) && !w.inBattle
    requires TileAt(w.player.x + dx, w.player.y + dy, BasicMap) == TileAt(w.player.x + dx, w.player.y + dy, WorldMap)
    requires forall i :: 0 <= i < |w.trainers| ==> !Trainers.Challenges(w.trainers[i], w.player.x + dx, w.player.y + dy)
    ensures var b := TryMove(w.player, dx, dy, dice.roll, specs, dice.wildKey, dice.wildLevel);
      var c := Controller.TryMove(w, dx, dy, specs, dice);
      && (b.fight.Some? <==> c.opening.WildFight?)
      && (b.fight.Some? ==> b.fight.value.foe.mon == c.opening.wild)
  {
    Controller.UnwatchedStep(w, dx, dy, specs, dice);
  }

  // ------------------------------------------------------- shop, party

  /** `buy_orb`: 50 coins for one Charm Orb. */
  function BuyOrb(p: Player): (r: Player)
    ensures p.money >= 50 ==> r.money == p.money - 50 && Quantity(r.bag, CharmOrb) == Quantity(p.bag, CharmOrb) + 1
    ensures p.money >= 50 ==> forall k :: k != CharmOrb ==> Quantity(r.bag, k) == Quantity(p.bag, k)
    ensures p.money < 50 ==> r == p
    ensures r.party == p.party && r.x == p.x && r.y == p.y
  {
    Shop.BuyItem(p, CharmOrb, Shop.Prices[CharmOrb]).0
  }

  /** `buy_potion`: 40 coins for one Potion. */
  function BuyPotion(p: Player): (r: Player)
    ensures p.money >= 40 ==> r.money == p.money - 40 && Quantity(r.bag, Potion) == Quantity(p.bag, Potion) + 1
    ensures p.money >= 40 ==> forall k :: k != Potion ==> Quantity(r.bag, k) == Quantity(p.bag, k)
    ensures p.money < 40 ==> r == p
    ensures r.party == p.party && r.x == p.x && r.y == p.y
  {
    Shop.BuyItem(p, Potion, Shop.Prices[Potion]).0
  }

  /** `PartyDialog.make_lead` on the list's selection (a row index, or
      nothing): the selected monster and the lead trade places. */
  function MakeLead(party: seq<Monster>, sel: Option<nat>): (r: seq<Monster>)
    requires sel.Some? ==> sel.value < |party|
    ensures multiset(r) == multiset(party) && |r| == |party|
    ensures sel.None? || sel == Some(0) ==> r == party
    ensures sel.Some? && sel.value > 0 ==>
      r[0] == party[sel.value] && r[sel.value] == party[0]
      && forall j :: 0 < j < |party| && j != sel.value ==> r[j] == party[j]
  {
    match sel
    case None => party
    case Some(i) => if i == 0 then party else party[0 := party[i]][i := party[0]]
  }

  /** `PartyDialog.release`: the selected monster leaves; the list is
      redrawn, which clears the selection. */
  function Release(party: seq<Monster>, sel: Option<nat>): (r: seq<Monster>)
    requires sel.Some? ==> sel.value < |party|
    ensures sel.None? ==> r == party
    ensures sel.Some? ==> |r| == |party| - 1 && multiset(r) + multiset{party[sel.value]} == multiset(party)
    ensures sel.Some? ==> forall j :: 0 <= j < |r| ==> r[j] == party[if j < sel.value then j else j + 1]
  {
    match sel
    case None => party
    case Some(i) =>
      assert party == party[..i] + [party[i]] + party[i + 1..];
      party[..i] + party[i + 1..]
  }

  /** Both versions' Make Lead treat a selected row alike. */
  lemma MakeLeadAgrees(party: seq<Monster>, i: nat)
    requires i < |party|
    ensures MakeLead(party, Some(i)) == PartyScreen.MakeLead(PartyScreen.Screen(party, i)).party
  {
  }

  /** Both versions' Release remove the same monster from the same place. */
  lemma ReleaseAgrees(party: seq<Monster>, i: nat)
    requires i < |party|
    ensures Release(party, Some(i)) == PartyScreen.Release(PartyScreen.Screen(party, i)).0.party
  {
  }
}
