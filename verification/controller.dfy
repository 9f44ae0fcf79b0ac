/** The overworld controller of src/core/game_controller.py: a new game,
    key handling, a step on the map with its tile event, trainer challenge
    and wild encounter, and the hand-back when a battle window closes. */
module Controller {
  import opened Wrappers
  import opened Monsters
  import opened Players
  import opened Trainers
  import opened Overworld
  import opened Encounters
  import opened Battles
  import opened Constants

  /** The game: the player, the trainers, the `in_battle` flag and the
      battle window that is open, if one could be built. */
  datatype World = World(player: Player, trainers: seq<Trainer>, inBattle: bool, battle: Option<Battle>)

  /** The flag is set exactly while a battle window exists. */
  predicate Consistent(w: World) {
    w.inBattle <==> w.battle.Some?
  }

  /** A new game without a saved profile: a fresh player whose party is one
      level-3 monster of the drawn species `starterKey`, and the three
      trainers. */
  function NewGame(specs: map<string, Spec>, starterKey: string): (w: World)
    requires starterKey in specs
    ensures |w.player.party| == 1 && w.player.party[0].spec == specs[starterKey]
    ensures w.player.party[0].level == 3 && w.player.party[0].exp == 0
    ensures w.player.x == HutX && w.player.y == HutY
    ensures w.player.money == 200 && w.player.bag == NewPlayer().bag
    ensures w.trainers == CreateTrainers()
    ensures !w.inBattle && Consistent(w)
  {
    World(NewPlayer().(party := [NewMonster(specs[starterKey], 3)]), CreateTrainers(), false, None)
  }

  /** The player stands on a square that is not a wall. */
  predicate OnFloor(w: World) {
    WorldMapNoShortRows();
    TileAt(w.player.x, w.player.y, WorldMap) != '#'
  }

  lemma NewGameOnFloor(specs: map<string, Spec>, starterKey: string)
    requires starterKey in specs
    ensures OnFloor(NewGame(specs, starterKey))
  {
  }

  // ------------------------------------------------------------ moving

  /** `check_tile_event`: the hut heals, the shop square opens the shop. */
  datatype TileEvent = NoEvent | Rest | OpenShop

  function EventAt(t: char): (e: TileEvent)
    ensures e == Rest <==> t == 'H'
    ensures e == OpenShop <==> t == 'C'
  {
    if t == 'H' then Rest else if t == 'C' then OpenShop else NoEvent
  }

  /** Squares where wild monsters live: plain, tall grass and path. */
  predicate Grassy(t: char) {
    t == '.' || t == 'T' || t == ' '
  }

  /** The encounter chance per step on a grassy square. */
  function EncounterRate(t: char): (r: real)
    ensures Grassy(t) ==> 0.0 < r <= 0.16
    ensures !Grassy(t) ==> r == 0.0
    ensures t == 'T' ==> forall u :: Grassy(u) ==> EncounterRate(u) <= r
  {
    if t == '.' then 0.08 else if t == 'T' then 0.16 else if t == ' ' then 0.04 else 0.0
  }

  /** The battle a step opened, if any. */
  datatype Opening = Calm | TrainerFight(index: nat) | WildFight(wild: Monster)

  datatype Walk = Walk(world: World, event: TileEvent, opening: Opening)

  /** The random values one step may consume: a trainer's roster draws,
      the encounter roll, and the catalog key and level `random_wild`
      draws. */
  datatype StepDice = StepDice(recruits: seq<Recruit>, roll: real, wildKey: string, wildLevel: int)

  predicate StepDiceFit(specs: map<string, Spec>, dice: StepDice) {
    && RosterDraws(dice.recruits, specs) && 0.0 <= dice.roll < 1.0
    && dice.wildKey in specs && 2 <= dice.wildLevel <= 4
  }

  /** The monster `random_wild` makes from the step's draws. */
  function Wild(specs: map<string, Spec>, dice: StepDice): (m: Monster)
    requires StepDiceFit(specs, dice)
  {
    RandomWild(specs, dice.wildKey, dice.wildLevel)
  }

  /** The battle window, as the constructor leaves it: nothing when it
      raised. */
  function Window(r: Result<Battle>): (b: Option<Battle>)
    ensures b.Some? <==> r.Success?
    ensures b.Some? ==> b.value == r.value
  {
    if r.Success? then Some(r.value) else None
  }

  /** The rest of `try_move` once the player has stepped onto the free
      square (x, y), given the outcome of the trainer check `eng`. A trainer
      sets the flag before the window is built; when the window cannot be
      built the step ends there. Otherwise the encounter roll follows. */
  function Arrive(w: World, x: int, y: int, specs: map<string, Spec>, dice: StepDice, eng: Option<Engagement>): (r: Walk)
    requires StepDiceFit(specs, dice)
    requires eng.Some? ==> eng.value.index < |eng.value.trainers|
    requires TileAt(x, y, WorldMap) != '#'
    ensures r.world.player == w.player.(x := x, y := y)
    ensures eng.Some? ==> r.opening == TrainerFight(eng.value.index) && r.world.trainers == eng.value.trainers
    ensures eng.None? ==> !r.opening.TrainerFight? && r.world.trainers == w.trainers
    ensures r.opening.WildFight? ==> r.opening.wild == Wild(specs, dice)
    ensures eng.None? ==>
      var t := TileAt(x, y, WorldMap);
      (r.opening.WildFight? <==> !w.inBattle && Grassy(t) && |w.player.party| > 0 && dice.roll < EncounterRate(t))
  {
    WorldMapNoShortRows();
    var t := TileAt(x, y, WorldMap);
    var wild := Wild(specs, dice);
    var q := w.player.(x := x, y := y);
    var p := if t == 'H' then HealParty(q) else q;
    assert p == q;
    match eng
    case Some(e) =>
      var tr := e.trainers[e.index];
      var started := Start(p, FoeList(tr.party), true, Some(e.index), wild);
      Walk(World(p, e.trainers, true, Window(started)), EventAt(t), TrainerFight(e.index))
    case None =>
      if Grassy(t) && |p.party| > 0 && dice.roll < EncounterRate(t) then
        var l := StartWildBattle(p, w.inBattle, wild);
        if l.wildFoe.Some? then
          var started := Start(p, FoeList([l.wildFoe.value]), false, None, wild);
          Walk(World(p, w.trainers, l.inBattle, Window(started)), EventAt(t), WildFight(l.wildFoe.value))
        else Walk(w.(player := p, inBattle := l.inBattle), EventAt(t), Calm)
      else Walk(w.(player := p), EventAt(t), Calm)
  }

  /** `try_move` as written: a wall stops the player and nothing happens;
      otherwise the player steps, the tile event fires, a watching trainer
      challenges whatever the party, and on a grassy square the roll may
      start a wild battle. */
  function TryMove(w: World, dx: int, dy: int, specs: map<string, Spec>, dice: StepDice): (r: Walk)
    requires StepDiceFit(specs, dice)
    ensures TileAt(w.player.x + dx, w.player.y + dy, WorldMap) == '#' ==> r == Walk(w, NoEvent, Calm)
    ensures TileAt(w.player.x + dx, w.player.y + dy, WorldMap) != '#' ==>
      && r.world.player == w.player.(x := w.player.x + dx, y := w.player.y + dy)
      && r.event == EventAt(TileAt(r.world.player.x, r.world.player.y, WorldMap))
    ensures OnFloor(w) ==> OnFloor(r.world)
    ensures w.inBattle ==> r.opening == Calm && r.world == w.(player := r.world.player)
    ensures r.opening.TrainerFight? <==>
      && TileAt(w.player.x + dx, w.player.y + dy, WorldMap) != '#' && !w.inBattle
      && exists i :: 0 <= i < |w.trainers| && Challenges(w.trainers[i], w.player.x + dx, w.player.y + dy)
    ensures r.opening.TrainerFight? ==>
      var i := r.opening.index;
      && i < |w.trainers| && Challenges(w.trainers[i], r.world.player.x, r.world.player.y)
      && r.world.trainers == w.trainers[i := Recruited(w.trainers[i], dice.recruits, specs)]
    ensures r.opening.WildFight? ==>
      var t := TileAt(r.world.player.x, r.world.player.y, WorldMap);
      && !w.inBattle && Grassy(t) && dice.roll < EncounterRate(t) && |w.player.party| > 0
      && r.opening.wild == RandomWild(specs, dice.wildKey, dice.wildLevel) && r.world.trainers == w.trainers
    ensures r.opening != Calm ==> r.world.inBattle
    ensures r.opening == Calm ==> r.world.trainers == w.trainers && r.world.battle == w.battle
    ensures r.opening == Calm && r.world.inBattle ==> w.inBattle
  {
    var x := w.player.x + dx;
    var y := w.player.y + dy;
    WorldMapNoShortRows();
    if TileAt(x, y, WorldMap) == '#' then Walk(w, NoEvent, Calm)
    else Arrive(w, x, y, specs, dice, Engage(w.inBattle, w.trainers, x, y, dice.recruits, specs))
  }

  /** `try_move` with the trainer check guarded like `start_wild_battle`:
      a player with an empty party is not challenged. */
  function TryMoveGuarded(w: World, dx: int, dy: int, specs: map<string, Spec>, dice: StepDice): (r: Walk)
    requires StepDiceFit(specs, dice)
    ensures Consistent(w) ==> Consistent(r.world)
    ensures r.opening != Calm ==> !w.inBattle && r.world.inBattle && r.world.battle.Some?
    ensures r.opening != Calm ==> r.world.battle.value.player == r.world.player
    ensures r.opening.TrainerFight? ==>
      && r.world.battle.value.isTrainer && r.world.battle.value.trainer == Some(r.opening.index)
      && r.opening.index < |r.world.trainers|
      && r.world.battle.value.foes == AtFullHp(r.world.trainers[r.opening.index].party)
    ensures r.opening.WildFight? ==>
      && !r.world.battle.value.isTrainer
      && r.world.battle.value.foes == [Combatant(r.opening.wild, MaxHp(r.opening.wild))]
    ensures |w.player.party| == 0 ==> r.opening == Calm && r.world.inBattle == w.inBattle
  {
    var x := w.player.x + dx;
    var y := w.player.y + dy;
    WorldMapNoShortRows();
    if TileAt(x, y, WorldMap) == '#' then Walk(w, NoEvent, Calm)
    else Arrive(w, x, y, specs, dice, EngageGuarded(w.inBattle, |w.player.party|, w.trainers, x, y, dice.recruits, specs))
  }

  /** A step towards a square no trainer watches opens a wild fight
      exactly when the square is free and grassy, the party is not empty and the
      roll is below the square's encounter rate. */
  lemma UnwatchedStep(w: World, dx: int, dy: int, specs: map<string, Spec>, dice: StepDice)
    requires StepDiceFit(specs, dice) && !w.inBattle
    requires forall i :: 0 <= i < |w.trainers| ==> !Challenges(w.trainers[i], w.player.x + dx, w.player.y + dy)
    ensures var t := TileAt(w.player.x + dx, w.player.y + dy, WorldMap);
      (TryMove(w, dx, dy, specs, dice).opening.WildFight?
       <==> t != '#' && Grassy(t) && |w.player.party| > 0 && dice.roll < EncounterRate(t))
  {
    Unwatched(w.inBattle, w.trainers, w.player.x + dx, w.player.y + dy, dice.recruits, specs);
    TryMoveArrives(w, dx, dy, specs, dice);
  }

  /** Off a wall, a step is the arrival on the new square after the trainer
      check. */
  lemma TryMoveArrives(w: World, dx: int, dy: int, specs: map<string, Spec>, dice: StepDice)
    requires StepDiceFit(specs, dice)
    ensures var x, y := w.player.x + dx, w.player.y + dy;
      TileAt(x, y, WorldMap) != '#' ==>
        TryMove(w, dx, dy, specs, dice) == Arrive(w, x, y, specs, dice, Engage(w.inBattle, w.trainers, x, y, dice.recruits, specs))
  {
  }

  /** The guard changes nothing for a player who has a monster. */
  lemma GuardOnlyForEmptyParty(w: World, dx: int, dy: int, specs: map<string, Spec>, dice: StepDice)
    requires StepDiceFit(specs, dice) && |w.player.party| > 0
    ensures TryMoveGuarded(w, dx, dy, specs, dice) == TryMove(w, dx, dy, specs, dice)
  {
  }

  /** As written, a step keeps the flag and the window in step whenever the
      player has a monster. */
  lemma TryMoveConsistent(w: World, dx: int, dy: int, specs: map<string, Spec>, dice: StepDice)
    requires StepDiceFit(specs, dice) && |w.player.party| > 0 && Consistent(w)
    ensures Consistent(TryMove(w, dx, dy, specs, dice).world)
  {
    GuardOnlyForEmptyParty(w, dx, dy, specs, dice);
  }

  // --------------------------------------------------------------- keys

  /** `keysym.lower()` on ASCII letters. */
  function Lower(s: string): (r: string)
    ensures |r| == |s|
    ensures forall i :: 0 <= i < |s| ==> ('A' <= s[i] <= 'Z' <==> r[i] != s[i])
    ensures forall i :: 0 <= i < |s| ==> !('A' <= r[i] <= 'Z')
    ensures forall i :: 0 <= i < |s| && 'A' <= s[i] <= 'Z' ==> 'a' <= r[i] <= 'z' && r[i] as int - s[i] as int == 32
  {
    seq(|s|, i requires 0 <= i < |s| => if 'A' <= s[i] <= 'Z' then (s[i] as int + 32) as char else s[i])
  }

  /** The step a movement key asks for. */
  function Direction(key: string): (d: Option<(int, int)>)
    ensures d.Some? ==> Trainers.Abs(d.value.0) + Trainers.Abs(d.value.1) == 1
    ensures d.Some? <==> key in {"w", "a", "s", "d", "up", "down", "left", "right"}
  {
    if key == "w" || key == "up" then Some((0, -1))
    else if key == "s" || key == "down" then Some((0, 1))
    else if key == "a" || key == "left" then Some((-1, 0))
    else if key == "d" || key == "right" then Some((1, 0))
    else None
  }

  /** The windows a key can open over the map. */
  datatype Dialog = BagDialog | PartyDialog | CatalogDialog | HelpBox

  function DialogFor(key: string): (d: Option<Dialog>)
    ensures d.Some? <==> key in {"i", "p", "c", "h"}
    ensures d == Some(BagDialog) <==> key == "i"
  {
    if key == "i" then Some(BagDialog)
    else if key == "p" then Some(PartyDialog)
    else if key == "c" then Some(CatalogDialog)
    else if key == "h" then Some(HelpBox)
    else None
  }

  datatype Reaction = Ignored | Moved(walk: Walk) | Opened(dialog: Dialog)

  /** `on_key`: nothing at all while a battle runs; otherwise a movement
      key steps and a letter key opens its window. */
  function OnKey(w: World, keysym: string, specs: map<string, Spec>, dice: StepDice): (r: Reaction)
    requires StepDiceFit(specs, dice)
    ensures w.inBattle ==> r == Ignored
    ensures r.Moved? ==>
      && Trainers.Abs(r.walk.world.player.x - w.player.x) + Trainers.Abs(r.walk.world.player.y - w.player.y) <= 1
      && Direction(Lower(keysym)).Some?
    ensures r.Opened? ==> !w.inBattle && DialogFor(Lower(keysym)) == Some(r.dialog)
    ensures !w.inBattle && Direction(Lower(keysym)).None? && DialogFor(Lower(keysym)).None? ==> r == Ignored
  {
    if w.inBattle then Ignored
    else
      var key := Lower(keysym);
      match Direction(key)
      case Some(d) => Moved(TryMove(w, d.0, d.1, specs, dice))
      case None =>
        match DialogFor(key)
        case Some(g) => Opened(g)
        case None => Ignored
  }

  /** Keys are read without regard to case. */
  lemma KeysIgnoreCase(w: World, specs: map<string, Spec>, dice: StepDice)
    requires StepDiceFit(specs, dice)
    ensures OnKey(w, "W", specs, dice) == OnKey(w, "w", specs, dice)
    ensures OnKey(w, "Up", specs, dice) == OnKey(w, "up", specs, dice)
  {
    assert Lower("W") == "w";
    assert Lower("Up") == "up";
  }

  // ----------------------------------------------------------- battles

  /** `BattleWindow.end` after the battle `b` finished: the flag is cleared
      and the window is gone; the player comes back as the battle left it
      (both share one record), and a beaten trainer is marked and pays 50
      through `on_trainer_defeated`. */
  function Conclude(w: World, b: Battle): (r: World)
    requires b.outcome != Ongoing
    ensures !r.inBattle && r.battle.None? && Consistent(r)
    ensures r.player == b.player.(money := r.player.money)
    ensures |r.trainers| == |w.trainers|
    ensures b.trainerDefeated && b.trainer.Some? && b.trainer.value < |w.trainers| ==>
      && r.trainers[b.trainer.value].defeated
      && r.player.money == b.player.money + 50
      && forall j :: 0 <= j < |w.trainers| && j != b.trainer.value ==> r.trainers[j] == w.trainers[j]
    ensures !(b.trainerDefeated && b.trainer.Some? && b.trainer.value < |w.trainers|) ==>
      r.trainers == w.trainers && r.player == b.player
  {
    if b.trainerDefeated && b.trainer.Some? && b.trainer.value < |w.trainers| then
      var (ts, money) := OnTrainerDefeated(w.trainers, b.trainer.value, b.player.money);
      World(b.player.(money := money), ts, false, None)
    else World(b.player, w.trainers, false, None)
  }

  /** One command in the open battle window, closing it when the battle is
      over. */
  function BattleInput(w: World, c: Command, dice: Dice, db: map<string, Spec>): (r: World)
    requires w.battle.Some? && Valid(w.battle.value) && w.battle.value.outcome == Ongoing
    requires DiceFit(w.battle.value, dice) && CommandFits(w.battle.value, c)
    requires var s := Perform(w.battle.value, c, dice); s.check ==> CheckReady(s.battle, db)
    ensures Consistent(w) ==> Consistent(r)
    ensures r.inBattle <==> r.battle.Some? && w.inBattle
    ensures r.battle.Some? ==> r.battle.value.outcome == Ongoing && r.player == w.player
    ensures r.battle.None? ==>
      (r.player.x == w.battle.value.player.x && r.player.y == w.battle.value.player.y)
      || (r.player.x == HutX && r.player.y == HutY)
    ensures |r.trainers| == |w.trainers|
  {
    var res := Act(w.battle.value, c, dice, db);
    if res.battle.outcome == Ongoing then w.(battle := Some(res.battle))
    else Conclude(w, res.battle)
  }

  /** A trainer beaten in the battle a step opened never challenges again. */
  lemma BeatenTrainerStaysQuiet(w: World, b: Battle, x: int, y: int,
                                specs: map<string, Spec>, rs: seq<Recruit>)
    requires b.outcome == Won && b.trainerDefeated && b.trainer.Some? && b.trainer.value < |w.trainers|
    requires RosterDraws(rs, specs)
    ensures var e := Engage(false, Conclude(w, b).trainers, x, y, rs, specs);
      e.Some? ==> e.value.index != b.trainer.value
  {
    var r := Conclude(w, b);
    assert !Challenges(r.trainers[b.trainer.value], x, y);
  }

  // ------------------------------------------------------------ finding

  /** A player who has released every monster walks from (3, 1) onto the
      square the first trainer watches. The trainer challenges, the flag is
      set, and the window cannot be built for want of a lead monster: the
      flag stays set with no battle to clear it, so every later key press
      is ignored. */
  lemma EmptyPartySoftlock(p: Player, specs: map<string, Spec>, dice: StepDice, later: string)
    requires StepDiceFit(specs, dice)
    requires p.party == [] && p.x == 3 && p.y == 1
    ensures var r := TryMove(World(p, CreateTrainers(), false, None), 1, 0, specs, dice);
      && r.opening == TrainerFight(0)
      && r.world.inBattle && r.world.battle.None? && !Consistent(r.world)
      && Start(r.world.player, FoeList(r.world.trainers[0].party), true, Some(0), Wild(specs, dice)) == Failure(EmptyParty)
      && OnKey(r.world, later, specs, dice) == Ignored
  {
    var ts := CreateTrainers();
    WorldMapNoShortRows();
    assert TileAt(4, 1, WorldMap) == '.';
    assert FrontTile(ts[0]) == (4, 1);
    assert Challenges(ts[0], 4, 1);
  }

  /** With the guard the same step is calm and the game keeps responding. */
  lemma EmptyPartyGuarded(p: Player, specs: map<string, Spec>, dice: StepDice)
    requires StepDiceFit(specs, dice)
    requires p.party == [] && p.x == 3 && p.y == 1
    ensures var r := TryMoveGuarded(World(p, CreateTrainers(), false, None), 1, 0, specs, dice);
      && r.opening == Calm && !r.world.inBattle && Consistent(r.world)
  {
  }
}
