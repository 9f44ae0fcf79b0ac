/** The battle state machine of src/battle/battle_window.py, with the item
    and switch dialogs of src/battle/dialogs.py plugged in.

    The party's Combatants in the source wrap the very Monster objects of
    `player.party`, so experience and evolution reach the party directly;
    here the party monsters stay in `player.party` and the battle keeps
    their hit points in the parallel list `hp`. Each action returns the
    state after the action and whether it scheduled `check_outcome`; `Act`
    runs the two back to back. */
module Battles {
  import opened Wrappers
  import opened Numeric
  import opened Monsters
  import opened Damage
  import opened Players
  import opened Dialogs
  import opened Constants

  datatype Outcome = Ongoing | Won | Lost | Fled | Caught(kept: bool)

  /** `trainer` is the overworld index of the trainer whose defeat callback
      is wired (`on_trainer_defeated` and `trainer_ref` both given);
      `trainerDefeated` records that the callback has fired.
      `switchEnabled` is the state of the Switch button, which only
      `refresh` sets (see `Refreshed`). `panels` are the switch dialogs
      currently open, oldest first. */
  datatype Battle = Battle(
    player: Player,
    hp: seq<int>,
    plIndex: nat,
    foes: seq<Combatant>,
    enIndex: nat,
    isTrainer: bool,
    trainer: Option<nat>,
    outcome: Outcome,
    trainerDefeated: bool,
    switchEnabled: bool,
    panels: seq<SwitchPanel>)

  /** An open `SwitchDialog`. It does not take the input grab, so it stays
      usable while the battle goes on. It keeps the active slot of the
      moment it opened (`current`) and whether a switch from it gives the
      foe a free attack (`enemyFree`: the Switch button's dialogs do, the
      forced dialog of `check_outcome` does not); it reads hit points from
      the live party. */
  datatype SwitchPanel = SwitchPanel(current: nat, enemyFree: bool)

  /** A monster the battle can use: it knows a move, and its experience
      threshold is positive, as it is at every level the game reaches. */
  predicate Fit(m: Monster) {
    |m.moves| > 0 && ExpToNext(m) > 0
  }

  predicate Valid(b: Battle) {
    && 0 < |b.hp| <= |b.player.party|
    && b.plIndex < |b.hp|
    && b.enIndex < |b.foes|
    && (forall i :: 0 <= i < |b.hp| ==> b.hp[i] >= 0 && Fit(b.player.party[i]))
    && (forall j :: 0 <= j < |b.foes| ==> b.foes[j].hp >= 0 && |b.foes[j].mon.moves| > 0)
  }

  /** `refresh`: the Switch button is enabled exactly when more than one
      party member is conscious at the moment of the call; it keeps that
      state until the next call. */
  function Refreshed(b: Battle): (r: Battle)
    ensures r == b.(switchEnabled := r.switchEnabled)
  {
    b.(switchEnabled := Conscious(b.hp) > 1)
  }

  /** The number of slots with hit points left. */
  function Conscious(hps: seq<int>): nat {
    if |hps| == 0 then 0
    else Conscious(hps[..|hps| - 1]) + (if hps[|hps| - 1] > 0 then 1 else 0)
  }

  /** `len(alive_indices())` is the number of conscious slots. */
  lemma {:induction false} AliveCount(hps: seq<int>, n: nat)
    requires n <= |hps|
    ensures |AliveExcept(hps, -1, n)| == Conscious(hps[..n])
  {
    if n > 0 {
      AliveCount(hps, n - 1);
      assert hps[..n][..n - 1] == hps[..n - 1];
    }
  }

  /** The Switch button after a refresh is enabled exactly when
      `alive_indices` lists more than one slot, that is when two distinct
      slots have hit points. */
  lemma RefreshedEnablesSwitch(b: Battle)
    ensures Refreshed(b).switchEnabled <==> |AliveIndices(b.hp)| > 1
    ensures Refreshed(b).switchEnabled <==>
      exists i, j :: 0 <= i < j < |b.hp| && b.hp[i] > 0 && b.hp[j] > 0
  {
    AliveCount(b.hp, |b.hp|);
    assert b.hp[..|b.hp|] == b.hp;
    var r := AliveIndices(b.hp);
    if |r| > 1 {
      assert 0 <= r[0] < r[1] < |b.hp| && b.hp[r[0]] > 0 && b.hp[r[1]] > 0;
    }
    if i, j :| 0 <= i < j < |b.hp| && b.hp[i] > 0 && b.hp[j] > 0 {
      assert i in r && j in r;
      var ki :| 0 <= ki < |r| && r[ki] == i;
      var kj :| 0 <= kj < |r| && r[kj] == j;
      assert ki != kj;
    }
  }

  function PlMon(b: Battle): Monster
    requires b.plIndex < |b.hp| <= |b.player.party|
  {
    b.player.party[b.plIndex]
  }

  function PlHp(b: Battle): int
    requires b.plIndex < |b.hp|
  {
    b.hp[b.plIndex]
  }

  function En(b: Battle): Combatant
    requires b.enIndex < |b.foes|
  {
    b.foes[b.enIndex]
  }

  function EnHp(b: Battle): int
    requires b.enIndex < |b.foes|
  {
    b.foes[b.enIndex].hp
  }

  /** Either active monster is down; the exchange stops here. */
  predicate Down(b: Battle)
    requires Valid(b)
  {
    PlHp(b) <= 0 || EnHp(b) <= 0
  }

  /** The player moves first on equal speed. */
  predicate PlayerFirst(b: Battle)
    requires Valid(b)
  {
    Speed(PlMon(b)) >= Speed(En(b).mon)
  }

  /** EXP the winner of a knock-out receives: 12 plus 3 per level of the
      fallen foe: a multiple of 3, and at least 12. */
  function Reward(foe: Monster): (r: int)
    ensures foe.level >= 0 ==> r >= 12
    ensures r % 3 == 0
  {
    12 + foe.level * 3
  }

  // ------------------------------------------------------------ start

  /** The `enemy_party` argument: None, a single Monster, or a list. */
  datatype Opponents = NoFoes | OneFoe(mon: Monster) | FoeList(mons: seq<Monster>)

  function AtFullHp(ms: seq<Monster>): (r: seq<Combatant>)
    ensures |r| == |ms|
    ensures forall j :: 0 <= j < |ms| ==> r[j] == Combatant(ms[j], MaxHp(ms[j]))
  {
    seq(|ms|, j requires 0 <= j < |ms| => Combatant(ms[j], MaxHp(ms[j])))
  }

  /** The opposing line-up: a single monster becomes a one-element list,
      and no monster or an empty list becomes the random wild monster
      `wild`. */
  function Lineup(opp: Opponents, wild: Monster): (r: seq<Combatant>)
    ensures |r| > 0
    ensures opp.OneFoe? ==> r == [Combatant(opp.mon, MaxHp(opp.mon))]
    ensures opp.FoeList? && |opp.mons| > 0 ==> r == AtFullHp(opp.mons)
    ensures opp.NoFoes? || (opp.FoeList? && |opp.mons| == 0) ==> r == [Combatant(wild, MaxHp(wild))]
  {
    var ms := match opp
      case NoFoes => []
      case OneFoe(m) => [m]
      case FoeList(ms) => ms;
    if |ms| > 0 then AtFullHp(ms) else [Combatant(wild, MaxHp(wild))]
  }

  /** `BattleWindow.__init__`: every party member enters at full hit
      points, both indices start at 0. An empty party raises IndexError at
      `party_state[0]`. */
  function Start(p: Player, opp: Opponents, isTrainer: bool, trainer: Option<nat>, wild: Monster): (r: Result<Battle>)
    ensures |p.party| == 0 <==> r == Failure(EmptyParty)
    ensures r.Success? ==>
      && r.value.player == p
      && |r.value.hp| == |p.party|
      && (forall i :: 0 <= i < |p.party| ==> r.value.hp[i] == MaxHp(p.party[i]))
      && r.value.plIndex == 0 && r.value.enIndex == 0
      && r.value.foes == Lineup(opp, wild)
      && r.value.isTrainer == isTrainer && r.value.trainer == trainer
      && r.value.outcome == Ongoing && !r.value.trainerDefeated && r.value.panels == []
      && r.value == Refreshed(r.value)
    ensures (r.Success? && (forall i :: 0 <= i < |p.party| ==> Fit(p.party[i]))
             && (forall j :: 0 <= j < |r.value.foes| ==> |r.value.foes[j].mon.moves| > 0)) ==> Valid(r.value)
  {
    if |p.party| == 0 then Failure(EmptyParty)
    else
      var hps := seq(|p.party|, i requires 0 <= i < |p.party| => MaxHp(p.party[i]));
      Success(Refreshed(Battle(p, hps, 0, Lineup(opp, wild), 0, isTrainer, trainer, Ongoing, false, false, [])))
  }

  // ----------------------------------------------------------- attacks

  datatype Side = PlayerSide | FoeSide

  /** One entry of the battle log: who acted and what the resolver said. */
  datatype Action = Action(side: Side, report: Report)

  /** The move the player's button picks: slot n is move n-1, clamped to
      the moves the monster knows. */
  function ChosenMove(m: Monster, slot: int): (k: nat)
    requires |m.moves| > 0
    ensures k < |m.moves|
    ensures 1 <= slot <= |m.moves| ==> k == slot - 1
    ensures slot < 1 ==> k == 0
    ensures slot > |m.moves| ==> k == |m.moves| - 1
  {
    Min(Max(slot - 1, 0), |m.moves| - 1)
  }

  /** Hit points after taking `dmg`, floored at 0. */
  function Hurt(hp: int, dmg: int): (r: int)
    ensures r >= 0
    ensures hp - dmg >= 0 ==> r == hp - dmg
    ensures hp - dmg < 0 ==> r == 0
  {
    Max(0, hp - dmg)
  }

  /** The damage the player's chosen move deals to the active foe. */
  function PlayerHit(b: Battle, slot: int, d: Draw): Strike
    requires Valid(b) && DrawInRange(d)
  {
    CalcDamage(PlMon(b), En(b).mon, PlMon(b).moves[ChosenMove(PlMon(b), slot)], d)
  }

  /** The damage the foe's randomly picked move deals to the player's
      active monster. */
  function FoeHit(b: Battle, pick: nat, d: Draw): Strike
    requires Valid(b) && DrawInRange(d) && pick < |En(b).mon.moves|
  {
    CalcDamage(En(b).mon, PlMon(b), En(b).mon.moves[pick], d)
  }

  function PlayerStrike(b: Battle, slot: int, d: Draw): (r: (Battle, Action))
    requires Valid(b) && DrawInRange(d)
    ensures Valid(r.0)
    ensures r.0 == b.(foes := b.foes[b.enIndex := En(b).(hp := Hurt(EnHp(b), PlayerHit(b, slot, d).damage))])
    ensures r.1 == Action(PlayerSide, PlayerHit(b, slot, d).report)
  {
    var s := PlayerHit(b, slot, d);
    (b.(foes := b.foes[b.enIndex := En(b).(hp := Hurt(EnHp(b), s.damage))]), Action(PlayerSide, s.report))
  }

  function FoeStrike(b: Battle, pick: nat, d: Draw): (r: (Battle, Action))
    requires Valid(b) && DrawInRange(d) && pick < |En(b).mon.moves|
    ensures Valid(r.0)
    ensures r.0 == b.(hp := b.hp[b.plIndex := Hurt(PlHp(b), FoeHit(b, pick, d).damage)])
    ensures r.1 == Action(FoeSide, FoeHit(b, pick, d).report)
  {
    var s := FoeHit(b, pick, d);
    (b.(hp := b.hp[b.plIndex := Hurt(PlHp(b), s.damage)]), Action(FoeSide, s.report))
  }

  /** Whether `side` appears in a log of at most two actions. */
  predicate Acted(log: seq<Action>, side: Side) {
    (|log| > 0 && log[0].side == side) || (|log| > 1 && log[1].side == side)
  }

  datatype Exchange = Exchange(battle: Battle, log: seq<Action>)

  /** `c` differs from `b` at most in the hit points of the two active
      monsters. */
  predicate ActiveOnly(b: Battle, c: Battle)
    requires Valid(b)
  {
    && c == b.(hp := c.hp, foes := c.foes)
    && |c.hp| == |b.hp| && |c.foes| == |b.foes|
    && (forall i :: 0 <= i < |b.hp| && i != b.plIndex ==> c.hp[i] == b.hp[i])
    && (forall j :: 0 <= j < |b.foes| && j != b.enIndex ==> c.foes[j] == b.foes[j])
    && c.foes[b.enIndex].mon == En(b).mon
  }

  /** The player's strike, then the foe's answer if both still stand. */
  function PlayerThenFoe(b: Battle, slot: int, mine: Draw, pick: nat, theirs: Draw): (r: Exchange)
    requires Valid(b) && !Down(b)
    requires DrawInRange(mine) && DrawInRange(theirs) && pick < |En(b).mon.moves|
    ensures Valid(r.battle) && ActiveOnly(b, r.battle)
    ensures 1 <= |r.log| <= 2 && r.log[0].side == PlayerSide
    ensures |r.log| == 2 ==> r.log[1].side == FoeSide && EnHp(r.battle) > 0
    ensures |r.log| == 1 ==> Down(r.battle)
    ensures EnHp(r.battle) == Hurt(EnHp(b), PlayerHit(b, slot, mine).damage)
    ensures PlHp(r.battle) == (if |r.log| == 2 then Hurt(PlHp(b), FoeHit(b, pick, theirs).damage) else PlHp(b))
  {
    var (b1, a1) := PlayerStrike(b, slot, mine);
    if Down(b1) then Exchange(b1, [a1])
    else
      assert FoeHit(b1, pick, theirs) == FoeHit(b, pick, theirs);
      var (b2, a2) := FoeStrike(b1, pick, theirs);
      Exchange(b2, [a1, a2])
  }

  /** The foe's strike, then the player's answer if both still stand. */
  function FoeThenPlayer(b: Battle, slot: int, mine: Draw, pick: nat, theirs: Draw): (r: Exchange)
    requires Valid(b) && !Down(b)
    requires DrawInRange(mine) && DrawInRange(theirs) && pick < |En(b).mon.moves|
    ensures Valid(r.battle) && ActiveOnly(b, r.battle)
    ensures 1 <= |r.log| <= 2 && r.log[0].side == FoeSide
    ensures |r.log| == 2 ==> r.log[1].side == PlayerSide && PlHp(r.battle) > 0
    ensures |r.log| == 1 ==> Down(r.battle)
    ensures PlHp(r.battle) == Hurt(PlHp(b), FoeHit(b, pick, theirs).damage)
    ensures EnHp(r.battle) == (if |r.log| == 2 then Hurt(EnHp(b), PlayerHit(b, slot, mine).damage) else EnHp(b))
  {
    var (b1, a1) := FoeStrike(b, pick, theirs);
    if Down(b1) then Exchange(b1, [a1])
    else
      assert PlayerHit(b1, slot, mine) == PlayerHit(b, slot, mine);
      var (b2, a2) := PlayerStrike(b1, slot, mine);
      Exchange(b2, [a1, a2])
  }

  /** The exchange of `turn(move_idx)`: the faster side (the player on a
      tie) acts first; the other acts only if both active monsters are
      still standing. The refresh that follows is in `Perform`. */
  function Turn(b: Battle, slot: int, mine: Draw, pick: nat, theirs: Draw): (r: Exchange)
    requires Valid(b) && b.outcome == Ongoing
    requires DrawInRange(mine) && DrawInRange(theirs) && pick < |En(b).mon.moves|
    ensures Valid(r.battle) && ActiveOnly(b, r.battle)
    ensures Down(b) ==> r == Exchange(b, [])
    ensures !Down(b) ==> 1 <= |r.log| <= 2 && r.log[0].side == (if PlayerFirst(b) then PlayerSide else FoeSide)
    ensures |r.log| == 2 ==> r.log[1].side != r.log[0].side
    ensures |r.log| == 1 ==> Down(r.battle)
    ensures |r.log| == 2 && PlayerFirst(b) ==> EnHp(r.battle) > 0
    ensures |r.log| == 2 && !PlayerFirst(b) ==> PlHp(r.battle) > 0
    ensures EnHp(r.battle) == (if Acted(r.log, PlayerSide) then Hurt(EnHp(b), PlayerHit(b, slot, mine).damage) else EnHp(b))
    ensures PlHp(r.battle) == (if Acted(r.log, FoeSide) then Hurt(PlHp(b), FoeHit(b, pick, theirs).damage) else PlHp(b))
  {
    if Down(b) then Exchange(b, [])
    else if PlayerFirst(b) then PlayerThenFoe(b, slot, mine, pick, theirs)
    else FoeThenPlayer(b, slot, mine, pick, theirs)
  }

  // ------------------------------------------------- other actions

  /** The state after an action, its log, and whether the action scheduled
      `check_outcome`. */
  datatype Step = Step(battle: Battle, log: seq<Action>, check: bool)

  /** `switch_to(new_idx, enemy_free)`: nothing happens for the active slot
      or a fainted one; otherwise the slot becomes active, the window
      refreshes and, on a voluntary switch against a standing foe, the foe
      attacks it once. The refresh comes before that attack, so the Switch
      button reflects the hit points before it. */
  function SwitchTo(b: Battle, idx: nat, enemyFree: bool, pick: nat, d: Draw): (r: Step)
    requires Valid(b) && b.outcome == Ongoing && idx < |b.hp|
    requires DrawInRange(d) && pick < |En(b).mon.moves|
    ensures Valid(r.battle)
    ensures r.battle == b.(hp := r.battle.hp, plIndex := r.battle.plIndex, switchEnabled := r.battle.switchEnabled)
    ensures idx == b.plIndex || b.hp[idx] <= 0 ==> r == Step(b, [], false)
    ensures idx != b.plIndex && b.hp[idx] > 0 ==>
      r.battle.plIndex == idx && r.battle.switchEnabled == (Conscious(b.hp) > 1)
    ensures idx != b.plIndex && b.hp[idx] > 0 && !(enemyFree && EnHp(b) > 0) ==>
      r == Step(Refreshed(b.(plIndex := idx)), [], false)
    ensures idx != b.plIndex && b.hp[idx] > 0 && enemyFree && EnHp(b) > 0 ==>
      var s := Refreshed(b.(plIndex := idx));
      && r.check && |r.log| == 1 && r.log[0].side == FoeSide
      && r.battle == s.(hp := s.hp[idx := Hurt(b.hp[idx], FoeHit(s, pick, d).damage)])
  {
    if idx == b.plIndex || b.hp[idx] <= 0 then Step(b, [], false)
    else
      var s := Refreshed(b.(plIndex := idx));
      if enemyFree && EnHp(s) > 0 then
        var (s2, a) := FoeStrike(s, pick, d);
        Step(s2, [a], true)
      else Step(s, [], false)
  }

  /** The capture bonus `after_bag_action` passes to `attempt_capture`. */
  const OrbBonus: real := 1.2

  /** `after_bag_action(did_action, used_capture)`. A Charm Orb in a
      trainer battle is refunded and nothing else happens; a successful
      capture ends the battle whether or not the party had room; a failed
      capture or any other item gives the foe one attack, and the window
      refreshes after it. */
  function AfterBagAction(b: Battle, sig: BagSignal, chance: real, pick: nat, d: Draw): (r: Step)
    requires Valid(b) && b.outcome == Ongoing
    requires 0.0 <= chance < 1.0 && DrawInRange(d) && pick < |En(b).mon.moves|
    ensures Valid(r.battle)
    ensures !sig.didAction ==> r == Step(b, [], false)
    ensures sig.didAction && sig.usedCapture && b.isTrainer ==>
      r == Step(b.(player := b.player.(bag := b.player.bag[CharmOrb := Quantity(b.player.bag, CharmOrb) + 1])), [], false)
    ensures sig.didAction && sig.usedCapture && !b.isTrainer && AttemptCapture(En(b).mon, OrbBonus, chance) ==>
      && r.log == [] && !r.check
      && r.battle == b.(player := AddToParty(b.player, En(b).mon).0, outcome := Caught(|b.player.party| < PartyCap))
    ensures sig.didAction && (!sig.usedCapture || (!b.isTrainer && !AttemptCapture(En(b).mon, OrbBonus, chance))) ==>
      && r.check && r.log == [Action(FoeSide, FoeHit(b, pick, d).report)]
      && r.battle == Refreshed(b.(hp := b.hp[b.plIndex := Hurt(PlHp(b), FoeHit(b, pick, d).damage)]))
    ensures r.battle.outcome != Ongoing ==> r.battle.outcome.Caught?
  {
    if !sig.didAction then Step(b, [], false)
    else if sig.usedCapture && b.isTrainer then
      Step(b.(player := b.player.(bag := b.player.bag[CharmOrb := Quantity(b.player.bag, CharmOrb) + 1])), [], false)
    else if sig.usedCapture && AttemptCapture(En(b).mon, OrbBonus, chance) then
      var (p, kept) := AddToParty(b.player, En(b).mon);
      Step(b.(player := p, outcome := Caught(kept)), [], false)
    else
      var (s, a) := FoeStrike(b, pick, d);
      Step(Refreshed(s), [a], true)
  }

  /** `BagUseDialog.use(item)` inside the battle: the bag and the active
      monster's hit points after the item, and the callback arguments when
      the dialog calls back. */
  function UseBagItem(b: Battle, item: string): (r: (Battle, Option<BagSignal>))
    requires Valid(b)
    ensures Valid(r.0)
    ensures r.1.None? ==> r.0 == b
    ensures r.1.None? <==> UseItem(b.player.bag, item, PlHp(b), MaxHp(PlMon(b))).Refused?
    ensures r.1.Some? ==> r.1.value.didAction
    ensures r.1.Some? ==> var u := UseItem(b.player.bag, item, PlHp(b), MaxHp(PlMon(b)));
      r.0 == b.(player := b.player.(bag := u.bag), hp := b.hp[b.plIndex := u.hp]) && r.1.value.usedCapture == u.usedCapture
  {
    match UseItem(b.player.bag, item, PlHp(b), MaxHp(PlMon(b)))
    case Refused(_) => (b, None)
    case Consumed(bag, hp, cap) =>
      (b.(player := b.player.(bag := bag), hp := b.hp[b.plIndex := hp]), Some(BagSignal(true, cap)))
  }

  /** The base escape chance of `try_run`. */
  const EscapeChance: real := 0.6

  /** `try_run`: escape when the draw is below 0.6 or the player is at
      least as fast; otherwise the foe attacks once and the window
      refreshes. */
  function TryRun(b: Battle, chance: real, pick: nat, d: Draw): (r: Step)
    requires Valid(b) && b.outcome == Ongoing
    requires 0.0 <= chance < 1.0 && DrawInRange(d) && pick < |En(b).mon.moves|
    ensures Valid(r.battle)
    ensures r.battle == b.(hp := r.battle.hp, switchEnabled := r.battle.switchEnabled, outcome := r.battle.outcome)
    ensures r.battle.outcome == Fled <==> chance < EscapeChance || PlayerFirst(b)
    ensures r.battle.outcome == Fled ==> r == Step(b.(outcome := Fled), [], false)
    ensures r.battle.outcome != Fled ==>
      && r.check && r.log == [Action(FoeSide, FoeHit(b, pick, d).report)]
      && r.battle == Refreshed(b.(hp := b.hp[b.plIndex := Hurt(PlHp(b), FoeHit(b, pick, d).damage)]))
  {
    if chance < EscapeChance || Speed(PlMon(b)) >= Speed(En(b).mon) then
      Step(b.(outcome := Fled), [], false)
    else
      var (s, a) := FoeStrike(b, pick, d);
      Step(Refreshed(s), [a], true)
  }

  // ---------------------------------------------------------- outcome

  /** `alive_indices`: the party slots with hit points left, in order. */
  function AliveIndices(hps: seq<int>): (r: seq<nat>)
    ensures forall k :: 0 <= k < |r| ==> r[k] < |hps| && hps[r[k]] > 0
    ensures forall i {:trigger i in r} :: 0 <= i < |hps| && hps[i] > 0 ==> i in r
    ensures forall k, l :: 0 <= k < l < |r| ==> r[k] < r[l]
  {
    AliveExcept(hps, -1, |hps|)
  }

  /** Slots below `n` with hit points left, other than `current`. */
  function AliveExcept(hps: seq<int>, current: int, n: nat): (r: seq<nat>)
    requires n <= |hps|
    ensures forall k :: 0 <= k < |r| ==> r[k] < n && r[k] != current && hps[r[k]] > 0
    ensures forall i {:trigger i in r} :: 0 <= i < n && i != current && hps[i] > 0 ==> i in r
    ensures forall k, l :: 0 <= k < l < |r| ==> r[k] < r[l]
  {
    if n == 0 then []
    else
      var rest := AliveExcept(hps, current, n - 1);
      if n - 1 != current && hps[n - 1] > 0 then rest + [n - 1] else rest
  }

  /** A conscious teammate other than the active one exists. */
  predicate HasReserve(hps: seq<int>, current: int) {
    exists i :: 0 <= i < |hps| && i != current && hps[i] > 0
  }

  /** A reserve exists exactly when the conscious slots other than the
      active one are not empty. */
  lemma ReserveListed(hps: seq<int>, current: int)
    ensures HasReserve(hps, current) <==> |AliveExcept(hps, current, |hps|)| > 0
  {
    var others := AliveExcept(hps, current, |hps|);
    if i :| 0 <= i < |hps| && i != current && hps[i] > 0 {
      assert i in others;
    }
    if |others| > 0 {
      assert others[0] < |hps| && others[0] != current && hps[others[0]] > 0;
    }
  }

  /** What `check_outcome` decided. */
  datatype Event = Continue | NextFoe | ForcedSwitch | Victory | Blackout

  datatype Resolution = Resolution(battle: Battle, event: Event)

  /** The catalog holds the evolution target `check_outcome` will look up
      when the foe is down. */
  predicate CheckReady(b: Battle, db: map<string, Spec>)
    requires Valid(b)
  {
    EnHp(b) <= 0 ==> TargetKnown(GainExpF(PlMon(b), Reward(En(b).mon)), db)
  }

  /** The player's active monster after a knock-out: the reward EXP, then
      evolution when it is due. The evolution is `EvolveKeepingMoves`, so a
      target species without moves leaves Tackle where `evolve` would
      leave an empty move list; in every other case it is `evolve`. */
  function Rewarded(b: Battle, db: map<string, Spec>): (m: Monster)
    requires Valid(b) && CheckReady(b, db) && EnHp(b) <= 0
    ensures var g := GainExpF(PlMon(b), Reward(En(b).mon));
      && (!CanEvolve(g) ==> m == g)
      && (CanEvolve(g) ==> m.spec == db[g.spec.evolvesTo.value] && m.level == g.level && m.exp == g.exp)
      && (|Evolve(g, db).moves| > 0 ==> m == Evolve(g, db))
      && (|Evolve(g, db).moves| == 0 ==> m == Evolve(g, db).(moves := [Tackle]))
    ensures Growth(m.level, m.exp) == Climb(PlMon(b).level, PlMon(b).exp + Reward(En(b).mon))
    ensures Fit(m)
  {
    EvolveKeepingMoves(GainExpF(PlMon(b), Reward(En(b).mon)), db)
  }

  /** The fallen-foe branch of `check_outcome`. */
  function AfterKnockout(b: Battle, db: map<string, Spec>): (r: Resolution)
    requires Valid(b) && b.outcome == Ongoing && CheckReady(b, db) && EnHp(b) <= 0
    ensures Valid(r.battle)
    ensures r.event == NextFoe <==> b.isTrainer && b.enIndex + 1 < |b.foes|
    ensures r.event == NextFoe || r.event == Victory
    ensures r.battle == b.(player := r.battle.player, enIndex := r.battle.enIndex, outcome := r.battle.outcome,
                           trainerDefeated := r.battle.trainerDefeated, switchEnabled := r.battle.switchEnabled)
    ensures r.battle.player == b.player.(party := b.player.party[b.plIndex := Rewarded(b, db)])
    ensures r.event == NextFoe ==>
      && r.battle.enIndex == b.enIndex + 1 && r.battle.outcome == Ongoing && r.battle.trainerDefeated == b.trainerDefeated
      && r.battle.switchEnabled == (Conscious(b.hp) > 1)
    ensures r.event == Victory ==>
      && r.battle.outcome == Won && r.battle.enIndex == b.enIndex
      && r.battle.trainerDefeated == (b.trainerDefeated || (b.isTrainer && b.trainer.Some?))
  {
    var b1 := b.(player := b.player.(party := b.player.party[b.plIndex := Rewarded(b, db)]));
    if b.isTrainer && b.enIndex + 1 < |b.foes| then
      Resolution(Refreshed(b1.(enIndex := b.enIndex + 1)), NextFoe)
    else
      Resolution(b1.(outcome := Won, trainerDefeated := b.trainerDefeated || (b.isTrainer && b.trainer.Some?)), Victory)
  }

  /** `check_outcome`: a fallen foe is checked before a fallen player
      monster. A fallen foe rewards the active monster and either brings
      out the trainer's next monster (no attack from either side, then a
      refresh) or ends
      the battle in a win; only a trainer battle fires the defeat callback.
      A fallen player monster opens the forced switch dialog when a
      teammate is standing, and otherwise sends the player back to the hut
      and loses. */
  function CheckOutcome(b: Battle, db: map<string, Spec>): (r: Resolution)
    requires Valid(b) && b.outcome == Ongoing && CheckReady(b, db)
    ensures Valid(r.battle)
    ensures r.event == Continue <==> EnHp(b) > 0 && PlHp(b) > 0
    ensures r.event == Continue ==> r.battle == b
    ensures r.event == ForcedSwitch ==> r.battle == b.(panels := b.panels + [SwitchPanel(b.plIndex, false)])
    ensures r.event != ForcedSwitch ==> r.battle.panels == b.panels
    ensures r.event == NextFoe <==> EnHp(b) <= 0 && b.isTrainer && b.enIndex + 1 < |b.foes|
    ensures r.event == Victory <==> EnHp(b) <= 0 && !(b.isTrainer && b.enIndex + 1 < |b.foes|)
    ensures EnHp(b) <= 0 ==>
      && r.battle.hp == b.hp && r.battle.foes == b.foes && r.battle.plIndex == b.plIndex
      && r.battle.player == b.player.(party := b.player.party[b.plIndex := Rewarded(b, db)])
    ensures r.event == NextFoe ==>
      && r.battle.enIndex == b.enIndex + 1 && r.battle.outcome == Ongoing && r.battle.trainerDefeated == b.trainerDefeated
      && r.battle.switchEnabled == (Conscious(b.hp) > 1)
    ensures r.event == Victory ==>
      && r.battle.outcome == Won && r.battle.enIndex == b.enIndex
      && r.battle.trainerDefeated == (b.trainerDefeated || (b.isTrainer && b.trainer.Some?))
    ensures r.event == ForcedSwitch <==> EnHp(b) > 0 && PlHp(b) <= 0 && HasReserve(b.hp, b.plIndex)
    ensures r.event == Blackout <==> EnHp(b) > 0 && PlHp(b) <= 0 && !HasReserve(b.hp, b.plIndex)
    ensures r.event == Blackout ==> r.battle == b.(player := b.player.(x := HutX, y := HutY), outcome := Lost)
    ensures r.battle.trainerDefeated != b.trainerDefeated ==> r.event == Victory
  {
    if EnHp(b) <= 0 then AfterKnockout(b, db)
    else if PlHp(b) <= 0 then
      var others := AliveExcept(b.hp, b.plIndex, |b.hp|);
      ReserveListed(b.hp, b.plIndex);
      if |others| > 0 then
        Resolution(b.(panels := b.panels + [SwitchPanel(b.plIndex, false)]), ForcedSwitch)
      else
        Resolution(b.(player := b.player.(x := HutX, y := HutY), outcome := Lost), Blackout)
    else Resolution(b, Continue)
  }

  // ---------------------------------------------------------- commands

  /** The buttons and dialogs of the battle window. `OpenSwitch` is the
      Switch button; `Pick` is the dialog's own Switch button pressed in
      open dialog `panel` with `selection` highlighted, and `CancelSwitch`
      its Cancel button. */
  datatype Command =
    | Fight(slot: int)
    | Bag(item: string)
    | CloseBag
    | OpenSwitch
    | Pick(panel: nat, selection: Option<nat>)
    | CancelSwitch(panel: nat)
    | Run

  /** The random numbers one command may consume: the player's attack
      draw, the foe's move pick and attack draw, and a capture or escape
      draw. */
  datatype Dice = Dice(mine: Draw, pick: nat, theirs: Draw, chance: real)

  predicate DiceFit(b: Battle, dice: Dice)
    requires Valid(b)
  {
    DrawInRange(dice.mine) && DrawInRange(dice.theirs) && dice.pick < |En(b).mon.moves|
    && 0.0 <= dice.chance < 1.0
  }

  predicate CommandFits(b: Battle, c: Command) {
    match c
    case Pick(k, sel) => k < |b.panels| && (sel.Some? ==> sel.value < |b.hp|)
    case CancelSwitch(k) => k < |b.panels|
    case _ => true
  }

  /** The open dialogs without dialog `k`, which has closed. */
  function Closed(panels: seq<SwitchPanel>, k: nat): (r: seq<SwitchPanel>)
    requires k < |panels|
    ensures |r| == |panels| - 1
    ensures forall i :: 0 <= i < k ==> r[i] == panels[i]
    ensures forall i :: k <= i < |r| ==> r[i] == panels[i + 1]
  {
    panels[..k] + panels[k + 1..]
  }

  /** A dialog that stays open after another closes was open before. */
  lemma ClosedKeepsOthers(panels: seq<SwitchPanel>, k: nat, p: SwitchPanel)
    requires k < |panels| && p in Closed(panels, k)
    ensures p in panels
  {
    var r := Closed(panels, k);
    var i :| 0 <= i < |r| && r[i] == p;
    if i < k { assert panels[i] == p; } else { assert panels[i + 1] == p; }
  }

  /** Open dialog `k` closes and passes slot `i` to `switch_to` with the
      dialog's `enemy_free`; `switch_to` itself does nothing for the slot
      active now. */
  function SwitchFrom(b: Battle, k: nat, i: nat, dice: Dice): (r: Step)
    requires Valid(b) && b.outcome == Ongoing && DiceFit(b, dice)
    requires k < |b.panels| && i < |b.hp| && b.hp[i] > 0
    ensures Valid(r.battle)
    ensures r.battle == b.(hp := r.battle.hp, plIndex := r.battle.plIndex, switchEnabled := r.battle.switchEnabled,
                           panels := Closed(b.panels, k))
    ensures i != b.plIndex ==> r.battle.plIndex == i && r.battle.switchEnabled == (Conscious(b.hp) > 1)
    ensures r.log != [] <==> i != b.plIndex && b.panels[k].enemyFree && EnHp(b) > 0
    ensures r.check == (r.log != []) && (r.check ==> |r.log| == 1 && r.log[0].side == FoeSide)
  {
    SwitchTo(b.(panels := Closed(b.panels, k)), i, b.panels[k].enemyFree, dice.pick, dice.theirs)
  }

  /** Only the foe's free attack on the newcomer changes hit points when a
      dialog switches. */
  lemma SwitchFromHits(b: Battle, k: nat, i: nat, dice: Dice)
    requires Valid(b) && b.outcome == Ongoing && DiceFit(b, dice)
    requires k < |b.panels| && i < |b.hp| && b.hp[i] > 0
    ensures var r := SwitchFrom(b, k, i, dice);
      && (r.check ==> r.battle.hp == b.hp[i := Hurt(b.hp[i], FoeHit(b.(plIndex := i), dice.pick, dice.theirs).damage)])
      && (!r.check ==> r.battle.hp == b.hp)
  {
    var c := b.(panels := Closed(b.panels, k));
    assert FoeHit(Refreshed(c.(plIndex := i)), dice.pick, dice.theirs) == FoeHit(b.(plIndex := i), dice.pick, dice.theirs);
  }

  /** `do_switch` in open dialog `k`: no selection, the slot that was
      active when the dialog opened, and a fainted slot are refused and the
      dialog stays open; otherwise the dialog closes and `switch_to` runs
      with its `enemy_free`. */
  function PickIn(b: Battle, k: nat, sel: Option<nat>, dice: Dice): (r: Step)
    requires Valid(b) && b.outcome == Ongoing && DiceFit(b, dice)
    requires k < |b.panels| && (sel.Some? ==> sel.value < |b.hp|)
    ensures Valid(r.battle)
    ensures DoSwitch(b.hp, b.panels[k].current, sel).None? ==> r == Step(b, [], false)
    ensures DoSwitch(b.hp, b.panels[k].current, sel).Some? ==> r == SwitchFrom(b, k, sel.value, dice)
  {
    match DoSwitch(b.hp, b.panels[k].current, sel)
    case None => Step(b, [], false)
    case Some(i) => SwitchFrom(b, k, i, dice)
  }

  /** The Switch button and the buttons of the open switch dialogs. They
      change at most the hit points, the active slot, the Switch button
      and the open dialogs, and never open a forced dialog. */
  function SwitchCommand(b: Battle, c: Command, dice: Dice): (r: Step)
    requires Valid(b) && b.outcome == Ongoing && DiceFit(b, dice) && CommandFits(b, c)
    requires c.OpenSwitch? || c.Pick? || c.CancelSwitch?
    ensures Valid(r.battle)
    ensures r.battle == b.(hp := r.battle.hp, plIndex := r.battle.plIndex, switchEnabled := r.battle.switchEnabled,
                           panels := r.battle.panels)
    ensures c.OpenSwitch? ==> r.log == [] && !r.check
    ensures c.OpenSwitch? && !b.switchEnabled ==> r == Step(b, [], false)
    ensures c.OpenSwitch? && b.switchEnabled ==>
      r.battle == b.(panels := b.panels + [SwitchPanel(b.plIndex, true)])
    ensures forall p :: p in r.battle.panels && !p.enemyFree ==> p in b.panels
  {
    match c
    case OpenSwitch =>
      if b.switchEnabled then Step(b.(panels := b.panels + [SwitchPanel(b.plIndex, true)]), [], false)
      else Step(b, [], false)
    case Pick(k, sel) =>
      var r := PickIn(b, k, sel, dice);
      assert forall p :: p in r.battle.panels ==> p in b.panels by {
        forall p | p in r.battle.panels ensures p in b.panels {
          if r.battle.panels != b.panels { ClosedKeepsOthers(b.panels, k, p); }
        }
      }
      r
    case CancelSwitch(k) =>
      assert forall p :: p in Closed(b.panels, k) ==> p in b.panels by {
        forall p | p in Closed(b.panels, k) ensures p in b.panels { ClosedKeepsOthers(b.panels, k, p); }
      }
      Step(b.(panels := Closed(b.panels, k)), [], false)
  }

  /** Choosing an item in the bag dialog, then the battle's reaction to
      the dialog's callback (none when the item was refused). */
  function BagStep(b: Battle, item: string, dice: Dice): (r: Step)
    requires Valid(b) && b.outcome == Ongoing && DiceFit(b, dice)
    ensures Valid(r.battle)
    ensures r.check ==> r.battle.outcome == Ongoing
    ensures r.battle.outcome == Ongoing || r.battle.outcome.Caught?
    ensures r.battle.outcome.Caught? ==> !b.isTrainer
    ensures r.battle.player == b.player.(bag := r.battle.player.bag, party := r.battle.player.party)
    ensures r.battle.outcome == Caught(true) ==> r.battle.player.party == b.player.party + [En(b).mon]
    ensures r.battle.outcome != Caught(true) ==> r.battle.player.party == b.player.party
    ensures r.battle.foes == b.foes && r.battle.panels == b.panels
    ensures r.battle.isTrainer == b.isTrainer && r.battle.trainerDefeated == b.trainerDefeated
  {
    var (b1, sig) := UseBagItem(b, item);
    if sig.None? then Step(b1, [], false)
    else
      assert En(b1) == En(b);
      AfterBagAction(b1, sig.value, dice.chance, dice.pick, dice.theirs)
  }

  /** The action phase of a command. The Switch button opens a dialog only
      while enabled, and it is in the state the last `refresh` left it. */
  function Perform(b: Battle, c: Command, dice: Dice): (r: Step)
    requires Valid(b) && b.outcome == Ongoing && DiceFit(b, dice) && CommandFits(b, c)
    ensures Valid(r.battle)
    ensures r.check ==> r.battle.outcome == Ongoing
    ensures r.battle.outcome == Ongoing || r.battle.outcome == Fled || r.battle.outcome.Caught?
    ensures r.battle.outcome == Fled ==> c.Run?
    ensures r.battle.outcome.Caught? ==> c.Bag? && !b.isTrainer
    ensures r.battle.player == b.player.(bag := r.battle.player.bag, party := r.battle.player.party)
    ensures !c.Bag? ==> r.battle.player.bag == b.player.bag
    ensures r.battle.outcome == Caught(true) ==> r.battle.player.party == b.player.party + [En(b).mon]
    ensures r.battle.outcome != Caught(true) ==> r.battle.player.party == b.player.party
    ensures r.battle.foes == b.foes || r.battle.outcome == Ongoing
    ensures r.battle.isTrainer == b.isTrainer && r.battle.trainerDefeated == b.trainerDefeated
    ensures c.Fight? ==> r.check && r.battle == Refreshed(r.battle)
  {
    match c
    case Fight(slot) =>
      var e := Turn(b, slot, dice.mine, dice.pick, dice.theirs);
      Step(Refreshed(e.battle), e.log, true)
    case Bag(item) => BagStep(b, item, dice)
    case CloseBag => AfterBagAction(b, CancelSignal, dice.chance, dice.pick, dice.theirs)
    case Run => TryRun(b, dice.chance, dice.pick, dice.theirs)
    case _ => SwitchCommand(b, c, dice)
  }

  /** The Switch button opens a voluntary dialog on the active slot while
      the last refresh left it enabled, and does nothing otherwise. */
  lemma SwitchButton(b: Battle, dice: Dice)
    requires Valid(b) && b.outcome == Ongoing && DiceFit(b, dice)
    ensures var r := Perform(b, OpenSwitch, dice);
      && r.log == [] && !r.check
      && (!b.switchEnabled ==> r == Step(b, [], false))
      && (b.switchEnabled ==> r.battle == b.(panels := b.panels + [SwitchPanel(b.plIndex, true)]))
  {
  }

  /** No command opens a forced switch dialog; every forced dialog open
      after it was open before. */
  lemma PerformOpensNoForcedDialog(b: Battle, c: Command, dice: Dice)
    requires Valid(b) && b.outcome == Ongoing && DiceFit(b, dice) && CommandFits(b, c)
    ensures var r := Perform(b, c, dice);
      forall p :: p in r.battle.panels && !p.enemyFree ==> p in b.panels
  {
  }

  /** A command followed by the outcome check it scheduled. Only a
      blackout moves the player, and then to the hut. */
  function Act(b: Battle, c: Command, dice: Dice, db: map<string, Spec>): (r: Resolution)
    requires Valid(b) && b.outcome == Ongoing && DiceFit(b, dice) && CommandFits(b, c)
    requires var s := Perform(b, c, dice); s.check ==> CheckReady(s.battle, db)
    ensures Valid(r.battle)
    ensures r.battle.outcome == Lost <==> r.event == Blackout
    ensures r.battle.outcome == Lost ==> r.battle.player.x == HutX && r.battle.player.y == HutY
    ensures r.battle.outcome != Lost ==> r.battle.player.x == b.player.x && r.battle.player.y == b.player.y
  {
    var s := Perform(b, c, dice);
    if s.check then
      CheckKeepsPlayer(s.battle, db);
      CheckOutcome(s.battle, db)
    else Resolution(s.battle, Continue)
  }

  /** A command and its outcome check never touch the money; only the bag
      touches the bag, and the party grows by one exactly on a capture
      with room. */
  lemma ActKeepsPurse(b: Battle, c: Command, dice: Dice, db: map<string, Spec>)
    requires Valid(b) && b.outcome == Ongoing && DiceFit(b, dice) && CommandFits(b, c)
    requires var s := Perform(b, c, dice); s.check ==> CheckReady(s.battle, db)
    ensures var r := Act(b, c, dice, db);
      && r.battle.player.money == b.player.money
      && (!c.Bag? ==> r.battle.player.bag == b.player.bag)
      && |r.battle.player.party| == |b.player.party| + (if r.battle.outcome == Caught(true) then 1 else 0)
  {
    var s := Perform(b, c, dice);
    if s.check {
      CheckKeepsPlayer(s.battle, db);
    }
  }

  /** How a battle can end after one command: a capture only from the bag
      in a wild battle, an escape only by running, and the trainer counts
      as beaten only after a trainer victory. */
  lemma ActEndings(b: Battle, c: Command, dice: Dice, db: map<string, Spec>)
    requires Valid(b) && b.outcome == Ongoing && DiceFit(b, dice) && CommandFits(b, c)
    requires var s := Perform(b, c, dice); s.check ==> CheckReady(s.battle, db)
    ensures var r := Act(b, c, dice, db);
      && (r.battle.outcome.Caught? ==> c.Bag? && !b.isTrainer)
      && (r.battle.outcome == Fled ==> c.Run?)
      && (r.battle.trainerDefeated != b.trainerDefeated ==> r.battle.outcome == Won && b.isTrainer)
  {
    var s := Perform(b, c, dice);
    if s.check {
      CheckKeepsPlayer(s.battle, db);
    }
  }

  /** A switch dialog opened from the Switch button and left open keeps
      its free attack after the button is disabled: once the active
      monster has fainted and the last refresh disabled the button,
      picking a conscious teammate in that dialog still lets the foe
      strike the newcomer, and schedules another outcome check. */
  lemma OpenDialogOutlivesButton(b: Battle, k: nat, i: nat, dice: Dice)
    requires Valid(b) && b.outcome == Ongoing && DiceFit(b, dice) && !b.switchEnabled
    requires k < |b.panels| && b.panels[k].enemyFree
    requires i < |b.hp| && i != b.panels[k].current && i != b.plIndex && b.hp[i] > 0 && EnHp(b) > 0
    ensures var t := Perform(b, Pick(k, Some(i)), dice);
      && t.check && t.battle.plIndex == i
      && |t.log| == 1 && t.log[0].side == FoeSide
      && t.battle.panels == Closed(b.panels, k)
  {
  }

  /** The Switch button refreshes before the free attack of a voluntary
      switch. When that attack knocks out the monster just sent in, only
      the old one is left conscious and the outcome check opens the forced
      dialog, yet the button stays enabled: pressing it and picking the old
      monster is a second voluntary switch, and the foe attacks again for
      free. */
  lemma SwitchStaysEnabledAfterKnockout(b: Battle, dice: Dice, again: Dice, db: map<string, Spec>)
    requires Valid(b) && b.outcome == Ongoing && DiceFit(b, dice) && DiceFit(b, again)
    requires |b.hp| == 2 && b.plIndex == 0 && b.switchEnabled && b.panels == [SwitchPanel(0, true)]
    requires b.hp[0] > 0 && b.hp[1] > 0 && EnHp(b) > 0
    requires FoeHit(b.(plIndex := 1), dice.pick, dice.theirs).damage >= b.hp[1]
    ensures var r := Act(b, Pick(0, Some(1)), dice, db);
      && r.event == ForcedSwitch
      && AliveIndices(r.battle.hp) == [0]
      && r.battle.switchEnabled
      && r.battle.panels == [SwitchPanel(1, false)]
      && SecondFreeSwitch(r.battle, again)
  {
    KnockoutPick(b, dice);
    var s := Perform(b, Pick(0, Some(1)), dice);
    AliveOfPair(s.battle.hp);
    assert CheckOutcome(s.battle, db) == Resolution(s.battle.(panels := [SwitchPanel(1, false)]), ForcedSwitch);
    var r := Act(b, Pick(0, Some(1)), dice, db);
    SecondFreeSwitchFrom(r.battle, again);
  }

  /** The pick in that example: slot 1 comes in, the free attack knocks it
      out, and the button stays enabled. */
  lemma KnockoutPick(b: Battle, dice: Dice)
    requires Valid(b) && b.outcome == Ongoing && DiceFit(b, dice)
    requires |b.hp| == 2 && b.plIndex == 0 && b.switchEnabled && b.panels == [SwitchPanel(0, true)]
    requires b.hp[0] > 0 && b.hp[1] > 0 && EnHp(b) > 0
    requires FoeHit(b.(plIndex := 1), dice.pick, dice.theirs).damage >= b.hp[1]
    ensures var s := Perform(b, Pick(0, Some(1)), dice);
      && s.check && s.battle == b.(hp := [b.hp[0], 0], plIndex := 1, panels := [])
  {
    SwitchFromHits(b, 0, 1, dice);
    assert Conscious(b.hp) == 2 by {
      assert b.hp[..1][..0] == [];
      assert Conscious(b.hp[..1]) == 1;
    }
  }

  /** The Switch button opens a new voluntary dialog next to the open
      ones, and picking slot 0 in it switches with a free foe attack. */
  predicate SecondFreeSwitch(b: Battle, dice: Dice)
    requires Valid(b) && b.outcome == Ongoing && DiceFit(b, dice)
  {
    var o := Perform(b, OpenSwitch, dice);
    && o.battle.panels == b.panels + [SwitchPanel(b.plIndex, true)]
    && var t := Perform(o.battle, Pick(|b.panels|, Some(0)), dice);
    && t.battle.plIndex == 0 && t.check
    && |t.log| == 1 && t.log[0].side == FoeSide
  }

  /** With the button enabled, slot 1 active and slot 0 conscious, that
      second dialog gives the foe its free attack. */
  lemma SecondFreeSwitchFrom(b: Battle, dice: Dice)
    requires Valid(b) && b.outcome == Ongoing && DiceFit(b, dice)
    requires b.switchEnabled && |b.hp| == 2 && b.plIndex == 1 && b.hp[0] > 0 && EnHp(b) > 0
    ensures SecondFreeSwitch(b, dice)
  {
    SwitchButton(b, dice);
    var o := Perform(b, OpenSwitch, dice);
    assert DiceFit(o.battle, dice);
  }

  /** A forced switch dialog opens only when the outcome check finds the
      active monster fainted with a teammate standing: every forced dialog
      open after a command and its check was open before, unless the check
      just opened one, last. */
  lemma ForcedDialogOnlyAfterFaint(b: Battle, c: Command, dice: Dice, db: map<string, Spec>)
    requires Valid(b) && b.outcome == Ongoing && DiceFit(b, dice) && CommandFits(b, c)
    requires var s := Perform(b, c, dice); s.check ==> CheckReady(s.battle, db)
    ensures var r := Act(b, c, dice, db);
      && (forall p :: p in r.battle.panels && !p.enemyFree ==> p in b.panels || r.event == ForcedSwitch)
      && (r.event == ForcedSwitch ==> r.battle.panels[|r.battle.panels| - 1] == SwitchPanel(r.battle.plIndex, false))
  {
    PerformOpensNoForcedDialog(b, c, dice);
    var s := Perform(b, c, dice);
    if s.check {
      var r := CheckOutcome(s.battle, db);
      assert Act(b, c, dice, db) == r;
      if r.event != ForcedSwitch {
        assert r.battle.panels == s.battle.panels;
      }
    } else {
      assert Act(b, c, dice, db) == Resolution(s.battle, Continue);
    }
  }

  /** The conscious slots of a two-monster party. */
  lemma AliveOfPair(hps: seq<int>)
    requires |hps| == 2
    ensures AliveIndices(hps) == (if hps[0] > 0 then [0] else []) + (if hps[1] > 0 then [1] else [])
  {
    assert AliveExcept(hps, -1, 1) == AliveExcept(hps, -1, 0) + (if hps[0] > 0 then [0] else []);
  }

  /** What the outcome check leaves alone: the money, the bag and the party
      size; the position, unless the player blacks out. */
  lemma CheckKeepsPlayer(b: Battle, db: map<string, Spec>)
    requires Valid(b) && b.outcome == Ongoing && CheckReady(b, db)
    ensures var r := CheckOutcome(b, db);
      && r.battle.player.money == b.player.money && r.battle.player.bag == b.player.bag
      && |r.battle.player.party| == |b.player.party|
      && (r.battle.outcome == Ongoing || r.battle.outcome == Won || r.battle.outcome == Lost)
      && (r.battle.outcome != Lost ==> r.battle.player.x == b.player.x && r.battle.player.y == b.player.y)
      && (r.battle.trainerDefeated != b.trainerDefeated ==> r.battle.outcome == Won && b.isTrainer)
  {
    var r := CheckOutcome(b, db);
    if EnHp(b) <= 0 {
      assert r.battle.player == b.player.(party := b.player.party[b.plIndex := Rewarded(b, db)]);
    }
  }
}
