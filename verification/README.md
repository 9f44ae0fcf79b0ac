# Monster Collector — a Dafny model of the game rules

This project models the rules of a small tile-based monster-collection game.
The game was written in Python with a tkinter user interface. It comes in two
versions:

- The layered version under `src/`:
  - monsters, the player and trainers (`src/models`);
  - the species catalogue loader (`src/data`);
  - the damage, capture and battle rules (`src/battle`);
  - the overworld controller (`src/core`);
  - the party screen and the shop (`src/ui`).
- The earlier single-file version, `monster_collector_basic.py`. It has
  additive damage, no switching and no trainers.

Everything is pure functions over immutable datatypes. Randomness
(`random.random`, `uniform`, `randint`, `choice`) is passed in as parameters,
and each parameter's precondition is the range the library call can return.
The 50 ms `after(...)` delay before `check_outcome` is modelled as a flag in
the action's result; `Battles.Act` then applies the outcome check at once.
Python's `int()` on a float is modelled as truncation toward zero
(`Numeric.Trunc`). Floats are modelled as exact reals.

Modules:

- `Wrappers`, `Numeric`: Option/Result, min/max, truncation.
- `Monsters`: moves, species, monsters, derived stats, the level-up loop,
  evolution.
- `Players`: the player, the bag and the party cap.
- `Constants`: the world map and the element table.
- `Damage`: the type multiplier, `calc_damage`, capture chance.
- `Dialogs`: the in-battle bag and switch dialogs.
- `Battles`: the battle window state machine.
- `Trainers`: the trainers, their rosters and engagement.
- `Encounters`: `BattleManager`.
- `Overworld`: `tile_at` and icon scaling.
- `JsonData`, `Loader`: the catalogue as parsed JSON, and conversion to
  species. The default catalogue loads.
- `Controller`: `GameApp`, covering new game, key handling, movement, tile
  events, and ending a battle.
- `PartyScreen`, `Shop`: the party dialog and the shop dialog.
- `Basic`: the single-file version.

What the code does that a reader might not expect:

- Evolution writes the new maximum HP onto the monster object, but the
  battle reads hit points from its own `Combatant`. So the active monster's
  battle HP does not change on evolution. The model keeps the written value in a
  field nothing reads (`Monster.detachedHp`).
- The Switch button's state changes only when the window refreshes.
  `switch_to` refreshes before the foe's free attack. If that attack knocks
  out the monster just sent in, the button stays enabled beside the forced
  switch dialog. Pressing it instead starts a second voluntary switch, and
  the foe attacks again for free (`Battles.SwitchStaysEnabledAfterKnockout`).
- The switch dialog does not grab the input, so several can be open at
  once. Each keeps the active slot and the free-attack flag it was opened
  with. A dialog opened from the Switch button and left open still gives
  the foe its free attack after the button was disabled
  (`Battles.OpenDialogOutlivesButton`). The model keeps the open dialogs in
  `Battle.panels`.
- `check_outcome` reloads the catalogue from disk before evolving. The model
  takes the loaded catalogue as a parameter.
- The blackout position is (1, 1). In `src/` that square is the hut. In the
  single-file version it is a grass square (`Basic.BlackoutSquare`).
- In the single-file version, a fainted lead ends the battle as a loss even
  when other party members are conscious. The player is moved to (1, 1) only
  when the party has at most one monster.
- A successful capture ends the battle even when the party is full. In the
  single-file version the monster is appended beyond the cap of six.

## Model

| member | source | states |
|---|---|---|
| Monsters.DefaultMoves | src/models/monster.py:34-36 | A new monster knows the first one or two moves of its learnset, or Tackle when the learnset is empty. |
| Monsters.MakeMonster | src/models/monster.py:28-36 | A monster keeps explicit moves; without moves it gets the default ones, so it never has an empty move list at creation. |
| Monsters.NewMonster | src/models/monster.py:28-36 | A fresh monster of a species and level has zero experience and the default moves. |
| Monsters.MaxHp | src/models/monster.py:39-40 | Maximum HP is base HP plus three per level, never below 1. |
| Monsters.Atk | src/models/monster.py:43-44 | Attack is base attack plus two per level, never below 1. |
| Monsters.Defense | src/models/monster.py:47-48 | Defence is base defence plus two per level, never below 1. |
| Monsters.Speed | src/models/monster.py:51-52 | Speed is base speed plus `int(level * 1.5)` (truncated toward zero, also for negative levels), never below 1. |
| Monsters.StatsGrowWithLevel | src/models/monster.py:39-52 | For one species, a higher level never lowers maximum HP, attack, defence or speed. |
| Monsters.HalfTimesThree | src/models/monster.py:51-52 | `int(n * 1.5)` equals integer three-halves of n, rounded toward zero, for either sign of n. |
| Monsters.CostStrictlyIncreasing | src/models/monster.py:54-64 | With positive thresholds, the experience needed to climb from a level grows strictly with the target level. |
| Monsters.Threshold | src/models/monster.py:54-55 | The experience needed to leave a level is positive exactly from level -1 up, and at least 30 from level 1. |
| Monsters.Climb | src/models/monster.py:54-64 | The `while exp >= exp_to_next()` loop stops at a level whose threshold exceeds the remaining experience, having paid exactly the thresholds of the levels passed, and every level passed was affordable. |
| Monsters.ClimbShift | src/models/monster.py:54-64 | Climbing from level a costs a's threshold plus the cost from a + 1. |
| Monsters.CostStep | src/models/monster.py:54-64 | Climbing one more level costs that level's threshold. |
| Monsters.LevelUpUnique | src/models/monster.py:57-64 | Any level and remainder meeting the loop's exit condition, with every passed level affordable, is the one the loop computes. |
| Monsters.GainExp | src/models/monster.py:57-64 | The loop method agrees with the climb: only level and experience change, and the log has one gain line plus one line per new level, in order. |
| Monsters.GainExpF | src/models/monster.py:57-64 | The functional form of `gain_exp` changes only level and experience, as the climb prescribes. |
| Monsters.CanEvolve | src/models/monster.py:66-71 | Evolution is due exactly when there is a target and the level reaches the evolution level. A missing level or a level of 0 stands for 1000. |
| Monsters.CopyMoves | src/models/monster.py:73-80 | Evolution copies every learnset move, in order, as a physical move. |
| Monsters.Evolve | src/models/monster.py:66-80 | As written: when the level reaches the evolution level, the species becomes the target, level and experience are kept, the moves become the target's full learnset (possibly empty), and the new maximum HP is written to the monster; otherwise nothing changes. |
| Monsters.EvolveCanLeaveNoMoves | src/models/monster.py:73-80 | A monster with moves can evolve into a species with an empty learnset and end up with no moves. |
| Monsters.EvolveKeepingMoves | src/models/monster.py:73-80 | Corrected evolution: the same as `evolve`, except that an empty learnset gives Tackle, so a monster with moves always keeps at least one. |
| Players.NewPlayer | src/models/player.py:6-11 | A new player stands at (1, 1) with no party, 200 coins, three Charm Orbs and two Potions. |
| Players.Active | src/models/player.py:13-14 | The active monster is the first party member, and there is none exactly when the party is empty. |
| Players.AddToParty | src/models/player.py:16-21 | A monster is appended exactly when the party has fewer than six; otherwise the player is unchanged, so the cap is kept. |
| Constants.ElementTableIsCycle | src/models/constants.py:19-24 | The element table is the four-way cycle Water→Fire→Earth→Air→Water, each pair giving 1.5. |
| Constants.ElementTableOneWay | src/models/constants.py:19-24 | No pair is super effective in both directions (Fire against Water is not listed), and no entry weakens. |
| Constants.HutAndBorder | src/models/constants.py:5-17 | The world map is 11 rows by 24, the hut is at (1, 1) and the top row is wall. |
| Overworld.TileAt | src/core/map_manager.py:140-143 | Inside the map the tile is the map character; outside it is wall, so any non-wall tile is inside. |
| Overworld.WorldMapNoShortRows | src/models/constants.py:5-17 | Every map row is at least as wide as the first row, so `tile_at`'s bounds check against the first row never indexes past a row's end. |
| Overworld.FloorInsideBox | src/models/constants.py:5-17 | Every walkable tile lies inside the 24 by 11 box; row 9 is one character wider than the rest. |
| Overworld.ScaleFactor | src/core/map_manager.py:36-44 | As written: the subsample factor is the integer quotient of the larger side by the tile size, at least 1. |
| Overworld.ScaleCanOverflow | src/core/map_manager.py:36-44 | A 55-pixel icon gets factor 1 and is still 55 pixels, wider than a 28-pixel tile. |
| Overworld.FitFactor | src/core/map_manager.py:36-44 | Corrected factor: the smallest factor that brings the larger side down to the tile size. |
| Damage.TypeMultiplier | src/battle/damage.py:5-6 | The multiplier is 1.5 exactly for an attacker element and its prey in the table, and 1.0 otherwise. |
| Damage.BaseDamage | src/battle/damage.py:13-14 | The base is `((0.4·level + 2)·power·atk/def)/10`, raised to 1 when smaller. |
| Damage.BaseDamageMonotoneInPower | src/battle/damage.py:13-14 | A stronger move never does less base damage while the level factor is non-negative. |
| Damage.BaseDamageAntitoneInDefense | src/battle/damage.py:13-14 | A defender with higher defence never takes more base damage from a move of non-negative power. |
| Damage.BaseDamageMonotoneInLevel | src/battle/damage.py:13-14 | The same species at a higher level never does less base damage. |
| Damage.BaseDamageOfRaw | src/battle/damage.py:13-14 | The base damage is the raw formula raised to 1.0. |
| Damage.RawMonotone | src/battle/damage.py:13 | The raw formula grows with each of its non-negative factors. |
| Damage.Note | src/battle/damage.py:18-22 | The note is "super effective" above 1, "not very effective" below 1, and empty at 1. |
| Damage.CalcDamage | src/battle/damage.py:8-23 | A draw above the accuracy misses with 0 damage. Otherwise the damage is `int(base × multiplier × variance)`: the integer part of the top value times the drawn variance, so between 85% of base × multiplier (exclusive, after truncation) and base × multiplier. It is reported with the move and the note. |
| Damage.Scaled | src/battle/damage.py:15-17 | Truncating the top value times a variance in [0.85, 1] gives a non-negative integer no larger than the top value and more than 85% of it minus one. At variance 1 it is the top value's floor. |
| Damage.ScaledMonotone | src/battle/damage.py:15-17 | A larger top value never scales to less damage under the same variance. |
| Damage.ScaleBetween | src/battle/damage.py:15-17 | Variance in [0.85, 1] scales a non-negative value into [85%, 100%] of it. |
| Damage.HitCanDealNothing | src/battle/damage.py:13-17 | A hit whose base is clamped to 1 with a neutral type and a variance below 1 deals 0 damage. |
| Damage.NeverNotVeryEffective | src/battle/damage.py:18-22 | No matchup produces the "not very effective" note. |
| Damage.CaptureChance | src/battle/damage.py:25-30 | The capture probability is `0.2 + rate·bonus/85·0.15` when that lies in [0.05, 0.95]. It is exactly 0.95 above that range and exactly 0.05 below it, and at least 0.2 for non-negative inputs. |
| Damage.AttemptCapture | src/battle/damage.py:25-30 | A capture succeeds exactly when the draw is below the capture probability. |
| Damage.CaptureMonotoneInRate | src/battle/damage.py:25-30 | A higher catch rate never lowers the capture probability. |
| Damage.CaptureMonotoneInBonus | src/battle/damage.py:25-30 | A larger orb bonus never lowers the capture probability. |
| Damage.ClampMonotone | src/battle/damage.py:25-30 | The clamped capture formula is monotone in its argument. |
| Dialogs.UseItem | src/battle/dialogs.py:71-90 | An item not in stock is refused. A Charm Orb is spent and signals a capture. A Potion is spent only below maximum HP and heals at most 20. Anything else is refused as not usable. |
| Dialogs.SignalOf | src/battle/dialogs.py:71-90 | The dialog calls back exactly when an item was spent, with the capture flag of that use. |
| Dialogs.Preselect | src/battle/dialogs.py:28-32 | The pre-selected slot is the first conscious one other than the active one, or none when there is none. |
| Dialogs.PreselectFrom | src/battle/dialogs.py:28-32 | The search from a slot finds the first conscious non-active slot at or after it. |
| Dialogs.DoSwitch | src/battle/dialogs.py:34-45 | A switch goes ahead exactly for a selected, conscious slot other than the active one. |
| Dialogs.PotionHeals | src/battle/dialogs.py:71-90 | A Potion in stock below maximum HP is spent exactly once and sets HP to the smaller of the maximum and HP + 20. Otherwise it is refused, and the bag and HP stay as they were. |
| Battles.AtFullHp | src/battle/battle_window.py:28 | Every party member enters the battle at its maximum HP. |
| Battles.Lineup | src/battle/battle_window.py:35-50 | The foes are the given list at full HP, one given monster, or the random wild monster when the list is missing or empty. |
| Battles.Start | src/battle/battle_window.py:13-95 | Opening a battle fails exactly for an empty party. Otherwise the player and enemy indices are 0, the party is at full HP, the battle is ongoing, and the Switch button is as a refresh leaves it. |
| Battles.Refreshed | src/battle/battle_window.py:192-201 | A refresh changes only the Switch button's state. |
| Battles.RefreshedEnablesSwitch | src/battle/battle_window.py:200-201 | After a refresh the Switch button is enabled exactly when `alive_indices` lists more than one slot, that is when two distinct party members are conscious. |
| Battles.AliveCount | src/battle/battle_window.py:222-223 | The length of `alive_indices` is the number of conscious party members. |
| Battles.ChosenMove | src/battle/battle_window.py:272 | The move button index is clamped into the move list. |
| Battles.Hurt | src/battle/battle_window.py:274 | Damage lowers hit points but never below 0. |
| Battles.PlayerStrike | src/battle/battle_window.py:271-275 | The player's move changes only the active foe's hit points. |
| Battles.FoeStrike | src/battle/battle_window.py:276-281 | The foe's move changes only the active party member's hit points. |
| Battles.PlayerThenFoe | src/battle/battle_window.py:266-278 | When the player is faster, the player strikes and the foe answers only if it still stands. Only the active hit points change, by those strikes. |
| Battles.FoeThenPlayer | src/battle/battle_window.py:266-278 | When the foe is faster, it strikes and the player answers only if still standing. Only the active hit points change, by those strikes. |
| Battles.Turn | src/battle/battle_window.py:264-282 | The faster side acts first, with ties going to the player. The second side acts only if both are standing. Only the two active hit points change, each by that side's strike. |
| Battles.SwitchTo | src/battle/battle_window.py:203-220 | Switching to the active or a fainted slot does nothing. Otherwise the slot becomes active and the Switch button is set from the hit points before any attack. A voluntary switch against a standing foe then gives it one attack on the new monster. A forced switch does not. Nothing but the hit points, the active slot and the button changes. |
| Battles.AfterBagAction | src/battle/battle_window.py:105-136 | An orb in a trainer battle is refunded. A successful capture ends the battle, and the monster joins only if the party has room. A failed capture or another item gives the foe one attack, after which the Switch button is refreshed. |
| Battles.UseBagItem | src/battle/battle_window.py:101-103 | Using an item in battle changes exactly the bag and the active hit points that the dialog rule computes, and calls back exactly when it was used. |
| Battles.TryRun | src/battle/battle_window.py:155-166 | Fleeing succeeds exactly when the draw is below 0.6 or the player is at least as fast; otherwise the foe attacks once and the Switch button is refreshed. |
| Battles.AliveIndices | src/battle/battle_window.py:222-223 | The alive slots are exactly the conscious ones, in increasing order. |
| Battles.AliveExcept | src/battle/battle_window.py:253 | The conscious slots other than the active one, in increasing order. |
| Battles.ReserveListed | src/battle/battle_window.py:250-253 | A conscious teammate other than the active monster exists exactly when the list of such slots is not empty. |
| Battles.Rewarded | src/battle/battle_window.py:226-234 | The winner gains `12 + 3·foe level` experience through the level-up loop. Without a due evolution nothing else changes. With one, the species becomes the catalogue's target with level and experience kept. The result equals `evolve`'s whenever `evolve` leaves a move, and is `evolve`'s with Tackle otherwise. |
| Battles.Reward | src/battle/battle_window.py:227 | The knock-out reward is a multiple of 3 and at least 12 EXP for a foe of non-negative level. |
| Battles.AfterKnockout | src/battle/battle_window.py:226-245 | A fainted foe gives the active monster its reward. A trainer with monsters left sends the next one and the Switch button is refreshed. Otherwise the battle is won, and the trainer is marked beaten in a trainer battle with a callback. |
| Battles.CheckOutcome | src/battle/battle_window.py:225-262 | A fainted foe gives experience and then either the next trainer monster or victory, marking the trainer beaten. A fainted player monster opens a forced switch dialog on the active slot, without a free attack, if a teammate is conscious; else the battle is lost at (1, 1). Otherwise nothing changes. Only the forced switch changes the open dialogs. |
| Battles.BagStep | src/battle/battle_window.py:101-136 | Choosing an item keeps the battle valid and the foes unchanged. It can only end the battle by a capture in a wild battle, and the party grows exactly by the caught foe. |
| Battles.Perform | src/battle/battle_window.py:84-284 | One press of a battle button or a dialog button keeps the battle valid. A Fight press ends with a refresh. It only flees on Run, only captures with the bag in a wild battle, and only adds the caught monster to the party. |
| Battles.Closed | src/battle/dialogs.py:20-44 | Closing a dialog removes exactly that one and keeps the others in order. |
| Battles.ClosedKeepsOthers | src/battle/dialogs.py:20-44 | A dialog still open after another closes was open before. |
| Battles.SwitchFrom | src/battle/dialogs.py:43-44 | A pick in an open dialog closes it and runs `switch_to` with that dialog's free-attack flag. The foe strikes exactly when the slot is new, the flag is set and the foe stands; then the check is scheduled. |
| Battles.SwitchFromHits | src/battle/battle_window.py:203-218 | After a dialog's switch, only the free attack on the new monster changes hit points. |
| Battles.PickIn | src/battle/dialogs.py:34-45 | A pick with no selection, on the slot active when the dialog opened, or on a fainted slot leaves the battle and the dialog as they were. Any other pick switches from that dialog. |
| Battles.SwitchCommand | src/battle/battle_window.py:138-153 | The Switch button and the dialog buttons change at most hit points, the active slot, the button state and the open dialogs. They never open a forced dialog. |
| Battles.SwitchButton | src/battle/battle_window.py:138-153 | A disabled Switch button does nothing. An enabled one opens a voluntary dialog on the active slot, with no log and no check. |
| Battles.PerformOpensNoForcedDialog | src/battle/battle_window.py:101-284 | No button press opens a forced switch dialog. |
| Battles.OpenDialogOutlivesButton | src/battle/battle_window.py:138-218 | A voluntary dialog left open while the button is disabled still switches with a free foe attack and schedules the check. |
| Battles.ForcedDialogOnlyAfterFaint | src/battle/battle_window.py:250-256 | A forced dialog opens only when the outcome check calls for a forced switch, and then on the active slot. |
| Battles.Act | src/battle/battle_window.py:225-284 | A press followed by its outcome check keeps the battle valid. The battle is lost exactly on a blackout, which puts the player at (1, 1); otherwise the player does not move. |
| Battles.ActKeepsPurse | src/battle/battle_window.py:101-284 | A press and its outcome check never change the money. Only the bag command touches the bag, and the party grows by one exactly on a capture with room. |
| Battles.ActEndings | src/battle/battle_window.py:105-262 | A capture needs the bag in a wild battle and an escape needs Run. The trainer is marked beaten only together with a victory in a trainer battle. |
| Battles.SwitchStaysEnabledAfterKnockout | src/battle/battle_window.py:203-256 | In a party of two, a pick in a voluntary dialog whose free attack knocks out the new monster opens the forced dialog. The Switch button is still enabled. Pressing it and picking the other monster in the new dialog gives the foe a second free attack. |
| Battles.KnockoutPick | src/battle/battle_window.py:203-218 | In that example the pick makes slot 1 active at 0 HP, closes the dialog, keeps the button enabled and schedules the check. |
| Battles.SecondFreeSwitchFrom | src/battle/battle_window.py:138-218 | With the button enabled, a new voluntary dialog's pick of the other conscious monster gives the foe a free attack. |
| Battles.AliveOfPair | src/battle/battle_window.py:222-223 | The conscious slots of a two-member party. |
| Battles.CheckKeepsPlayer | src/battle/battle_window.py:225-262 | The outcome check keeps money, bag and party size. It ends ongoing, won or lost, moves the player only on a loss, and marks the trainer beaten only on a trainer victory. |
| Trainers.CreateTrainers | src/models/trainer.py:13-22 | There are three undefeated trainers with empty rosters, at (5,1) facing W, (14,3) facing S and (18,6) facing W. |
| Trainers.FrontTile | src/models/trainer.py:24-31 | The watched tile is the neighbour in the facing direction; any unknown facing counts as west. |
| Trainers.Roster | src/models/trainer.py:41-48 | A generated roster has one or two monsters of levels 4 to 6, each a fresh monster of the drawn species. |
| Trainers.FirstChallenger | src/models/trainer.py:36-40 | The engaging trainer is the first undefeated one whose watched tile is the player's. |
| Trainers.Recruited | src/models/trainer.py:41-48 | An empty roster is filled once; an existing one is reused unchanged. |
| Trainers.Engage | src/models/trainer.py:33-56 | As written: there is no engagement during a battle. Otherwise the first challenging trainer engages with its roster filled, whether or not the player's party is empty. |
| Trainers.EngageGuarded | src/models/trainer.py:33-56 | Corrected engagement: the same as `Engage`, but never with an empty party. |
| Trainers.OnTrainerDefeated | src/models/trainer.py:58-62 | Beating a trainer marks only that trainer defeated and pays 50 coins. |
| Trainers.DefeatedStaysQuiet | src/models/trainer.py:36-38 | A defeated trainer never engages again, and each defeat pays another 50. |
| Trainers.RosterReused | src/models/trainer.py:41-48 | Engaging the same trainer again reuses the roster whatever is drawn. |
| Encounters.RandomWild | src/battle/manager.py:16-20 | A random wild monster is a fresh level 2–4 monster of the drawn species with its default moves. |
| Encounters.StartWildBattle | src/battle/manager.py:6-13 | A wild battle opens exactly when the party is non-empty and no battle is running. |
| Encounters.StartWildBattleOnce | src/battle/manager.py:10-13 | A second request while the first battle runs opens nothing. |
| Encounters.HealParty | src/battle/manager.py:23-25 | Healing changes nothing that persists outside a battle. |
| Loader.Get | src/data/loader.py:90-105 | `dict.get` gives the value exactly for present keys. |
| Loader.Field | src/data/loader.py:94-99 | Indexing a missing key is an error naming that key. |
| Loader.DecimalRoundTrip | src/data/loader.py:104 | Reading back the decimal text of a natural number gives the number. |
| Loader.ToInt | src/data/loader.py:96-100 | `int()` keeps integers and truncates floats toward zero; null, lists and objects are errors. |
| Loader.ToReal | src/data/loader.py:91 | `float()` keeps floats, widens integers and booleans, and reads plain decimal text such as "0.9". Null, lists and objects are errors. |
| Loader.DecimalValue | src/data/loader.py:91 | `float()` of digit text is its integer value, and every decimal text it accepts is non-negative. |
| Loader.DecimalValueRoundTrip | src/data/loader.py:91 | Digits, a point and digits read as the whole part plus the fraction over the matching power of ten. |
| Loader.PointAfterDigits | src/data/loader.py:91 | In digits, a point and more text, the first point is the one right after the digits. |
| Loader.AccuracyFromText | src/data/loader.py:91 | An accuracy written as the text "0.9" loads as 0.9. |
| Loader.ToText | src/data/loader.py:94-95 | A text field is accepted exactly when it is a JSON string. |
| Loader.ParseMove | src/data/loader.py:91 | A parsed move takes its name, truncated power and accuracy from the entry and is physical. |
| Loader.ParseMoves | src/data/loader.py:91 | A learnset parses exactly when every move parses, preserving order and length. |
| Loader.ParseLearnset | src/data/loader.py:91 | A missing learnset is empty; a present list parses move by move. |
| Loader.ParseTarget | src/data/loader.py:103 | A missing or null `evolves_to` means no evolution target. |
| Loader.EvolutionLevelOf | src/data/loader.py:104 | The evolution level is kept only when its text form is all digits (non-negative integers or digit strings); otherwise it is absent. |
| Loader.Requirements | src/data/loader.py:105 | Missing requirements default to an empty object; an explicit null stays null. |
| Loader.TextField | src/data/loader.py:94-95 | A required text field is read exactly when present and a string. |
| Loader.IntField | src/data/loader.py:96-99 | A required integer field is read with `int()`; a missing one is an error naming it. |
| Loader.ParseSpec | src/data/loader.py:90-106 | A parsed species has the catalogue key, all four base stats, catch rate (default 100), learnset, evolution level and requirements from the entry, and fails without a name. |
| Loader.LoadDb | src/data/loader.py:85-107 | A missing "monsters" object gives an empty catalogue. Otherwise the catalogue loads exactly when every entry parses, with the same keys, each species keyed by its own key. |
| Loader.MovesJson | src/data/loader.py:6-77 | A learnset is written as one JSON object per move, in order. |
| Loader.SpecJsonFields | src/data/loader.py:6-77 | A species written out carries each of its fields under the key the loader reads. |
| Loader.ParseAll | src/data/loader.py:85-107 | The catalogue parses exactly when every entry parses. It then has the same keys, each holding the species parsed under that key. |
| Loader.SpecRoundTrip | src/data/loader.py:85-107 | Loading a written species gives it back. |
| Loader.MovesRoundTrip | src/data/loader.py:91 | Loading a written learnset gives it back. |
| Loader.MoveRoundTrip | src/data/loader.py:91 | Loading a written move gives it back. |
| Loader.EntryLoads | src/data/loader.py:6-107 | A built-in-style entry loads as a species without evolution and with empty requirements. |
| Loader.EntryFields | src/data/loader.py:6-77 | A built-in-style entry has exactly the stat, rate and learnset fields and no evolution fields. |
| Loader.BuiltinLoads | src/data/loader.py:6-77 | A built-in species with two physical moves loads without evolution and with both moves. |
| Loader.DefaultKeys | src/data/loader.py:6-77 | The default catalogue holds the five species slime_girl, harpy, minotaur, caterpillar_girl and mouse_girl. |
| Loader.DefaultEntryParses | src/data/loader.py:6-77 | Every default entry loads with two moves and no evolution. |
| Loader.DefaultEntriesParse | src/data/loader.py:6-77 | All default entries load together. |
| Loader.CatalogLoads | src/data/loader.py:85-107 | A catalogue of loadable entries loads with the same keys. |
| Loader.DefaultCatalogLoads | src/data/loader.py:79-107 | The catalogue written on first run loads, with the five default species, each with two moves and no evolution. |
| Controller.NewGame | src/core/game_controller.py:36-47 | A new game starts outside battle at (1, 1) with 200 coins, the default bag, a level 3 starter of the chosen species, and the three trainers. |
| Controller.NewGameOnFloor | src/core/game_controller.py:36-47 | The new player stands on a walkable tile. |
| Controller.EventAt | src/core/game_controller.py:111-117 | The hut rests the party and the shop tile opens the shop; other tiles do nothing. |
| Controller.EncounterRate | src/core/game_controller.py:105-108 | Only grass tiles have an encounter chance: 0.08 on '.', 0.16 on 'T' (the highest), 0.04 on ' '. |
| Controller.Window | src/models/trainer.py:49-55 | A battle window exists exactly when its constructor succeeds. |
| Controller.TryMove | src/core/game_controller.py:96-109 | As written: a wall blocks the move. Otherwise the player steps, and a trainer watching the new tile engages even with an empty party. A wild battle is rolled only with a party on grass, against `random_wild`'s monster: a catalogue species at level 2 to 4 from the step's draws. |
| Controller.Arrive | src/core/game_controller.py:99-109 | After the step onto a free square, an engaging trainer fights with the recruited roster. Without one, the trainers are unchanged, and a wild fight opens exactly when the game is out of battle, the party is not empty, the tile is grassy and the roll is below its encounter rate. Any wild fight is against `random_wild`'s monster. |
| Controller.UnwatchedStep | src/core/game_controller.py:96-109 | On a square no trainer watches, out of battle, a step opens a wild fight exactly when the square is free and grassy, the party is not empty and the roll is below the encounter rate. |
| Controller.TryMoveGuarded | src/core/game_controller.py:96-109 | Corrected move: "in battle" and "a battle window is open" stay in step, and every fight that opens has a window with the right foes. |
| Controller.GuardOnlyForEmptyParty | src/core/game_controller.py:96-109 | With a non-empty party the corrected move behaves exactly as the original. |
| Controller.TryMoveConsistent | src/core/game_controller.py:96-109 | With a non-empty party the original move never leaves "in battle" without a window. |
| Controller.Lower | src/core/game_controller.py:79 | Lower-casing changes exactly the capital letters, each to its small letter. |
| Controller.Direction | src/core/game_controller.py:80-86 | Exactly WASD and the arrow names move, each by one tile. |
| Controller.DialogFor | src/core/game_controller.py:87-94 | Exactly i, p, c and h open a dialog; i opens the bag. |
| Controller.OnKey | src/core/game_controller.py:76-94 | Keys are ignored during a battle. A move key moves at most one tile, a dialog key opens its dialog, and any other key does nothing. |
| Controller.KeysIgnoreCase | src/core/game_controller.py:79 | Upper-case key names act like lower-case ones. |
| Controller.Conclude | src/battle/battle_window.py:244-290 | Ending a battle clears the flag and the window. A beaten trainer is marked defeated and pays 50 coins; nothing else changes. |
| Controller.BattleInput | src/battle/battle_window.py:225-290 | A battle press keeps the world consistent. It ends the battle only at a final outcome, leaving the player either where they stood or at the hut. |
| Controller.BeatenTrainerStaysQuiet | src/models/trainer.py:36-38 | After a trainer victory that trainer never engages again. |
| Controller.EmptyPartySoftlock | src/models/trainer.py:49-55 | With an empty party, stepping in front of the first trainer sets "in battle" with no window, and every later key is ignored. |
| Controller.EmptyPartyGuarded | src/models/trainer.py:33-56 | Under the guard the same step opens nothing and the world stays consistent. |
| PartyScreen.Open | src/ui/party.py:14-45 | The screen opens on the party with the first slot selected. |
| PartyScreen.Select | src/ui/party.py:58-60 | Clicking a slot selects it and leaves the party alone. |
| PartyScreen.SelectedIndex | src/ui/party.py:133-134 | The selection counts only when it points at a monster. |
| PartyScreen.MakeLead | src/ui/party.py:143-149 | Make Lead swaps the selected monster with the lead and nothing else, a permutation. |
| PartyScreen.MakeLeadTwice | src/ui/party.py:143-149 | Pressing Make Lead twice restores the order. |
| PartyScreen.Release | src/ui/party.py:151-160 | Release removes exactly the selected monster, keeps the rest in order, and keeps the selection on a monster when any remain. |
| PartyScreen.ReleaseCanEmptyParty | src/ui/party.py:151-160 | The last monster can be released. |
| PartyScreen.ExpPercent | src/ui/party.py:115-117 | The EXP bar is the truncated percentage, below 100 while experience is below the threshold, and 0 for a non-positive threshold. |
| PartyScreen.PercentBounds | src/ui/party.py:117 | The truncated percentage p satisfies p·next ≤ 100·exp < (p+1)·next. |
| PartyScreen.HpPercent | src/ui/party.py:106-108 | The HP bar outside battle is always full. |
| Shop.BuyItem | src/ui/shop.py:34-42 | A purchase succeeds exactly when the player can pay. It takes the price, adds one of the item and touches nothing else. |
| Shop.BuyConserves | src/ui/shop.py:11-42 | At listed prices money stays non-negative, and money plus the shop value of that item is conserved. |
| Shop.FourOrbs | src/ui/shop.py:11-42 | The starting 200 coins buy exactly four orbs, and a fifth is refused. |
| Basic.BasicMapShape | monster_collector_basic.py:34-46 | The single-file map is 11 by 24 with no row shorter than the first. The hut is at (22,1), the shop at (14,7), and (1,1) is plain ground. |
| Basic.AdditiveBase | monster_collector_basic.py:211-212 | The additive base is `power + atk - def`, at least 1. |
| Basic.AdditiveDamage | monster_collector_basic.py:207-221 | A miss deals 0. A hit deals the integer part of base × multiplier × the drawn variance, so between 85% and 100% of base × multiplier, with the note. |
| Basic.FullRollDealsBase | monster_collector_basic.py:207-221 | A neutral full-variance hit deals exactly the additive base. |
| Basic.StrongerMoveHitsHarder | monster_collector_basic.py:207-221 | A more powerful move never deals less under the same draws. |
| Basic.StartWild | monster_collector_basic.py:428-435 | A battle opens exactly with a party: the lead at full HP against the wild monster at full HP. |
| Basic.Attack | monster_collector_basic.py:462-471 | A strike changes only the target side's hit points, never upward. |
| Basic.Turn | monster_collector_basic.py:452-474 | The faster side (ties to the player) acts first. The second acts only if both stand. A turn on a finished battle does nothing. |
| Basic.CheckOutcome | monster_collector_basic.py:476-491 | A fainted foe is a win with experience to the lead. A fainted lead is a loss, moving the player to (1,1) only when the party has at most one monster. Otherwise nothing changes. Like the source, the check does not look at whether the panel is open. |
| Basic.FaintEndsBattle | monster_collector_basic.py:484-491 | A fainted lead loses the battle even with conscious teammates, and the player stays put. |
| Basic.BlackoutSquare | monster_collector_basic.py:484-491 | The blackout square (1,1) is not the hut. |
| Basic.AfterBagAction | monster_collector_basic.py:503-527 | As written, without an `active` guard: a successful capture appends the foe to the party and closes the panel. Anything else gives the foe one attack and schedules the check, whatever the panel's state, leaving the outcome as it was. |
| Basic.CaptureIgnoresPartyCap | monster_collector_basic.py:503-527 | Capturing with six monsters makes a party of seven. |
| Basic.BagPick | monster_collector_basic.py:557-593 | As written: a press in the item dialog, whatever the panel's state. Cancel changes nothing. At most one of the chosen item is spent, and only a thrown orb that catches changes the outcome. An orb in stock goes on to `after_bag_action` with the capture flag set. |
| Basic.BagAfterWin | monster_collector_basic.py:503-527 | An orb thrown from a dialog left open through a won fight either adds the fallen monster to the party, or lets it strike and makes the check reward the lead again for the same knock-out. |
| Basic.BagPickGuarded | monster_collector_basic.py:557-593 | Corrected dialog press: a closed panel ignores it, and an open one runs it as written. Only an open panel can change its outcome, and only to a capture. |
| Basic.UseBag | monster_collector_basic.py:493-501 | An empty bag, a cancelled dialog or a finished battle change nothing. Otherwise at most one of the chosen item is spent, and only an orb ends the battle, by capture. |
| Basic.TryRun | monster_collector_basic.py:529-542 | As written, without an `active` guard: a draw below 0.6 or a faster-or-equal lead flees. Otherwise the wild monster attacks once, whatever the panel's state, and the check is scheduled. |
| Basic.RunAfterWinRewardsAgain | monster_collector_basic.py:476-480 | After a won fight, a failed Run makes the check reward the lead again for the same fallen monster. |
| Basic.TryRunGuarded | monster_collector_basic.py:529-542 | Corrected Run: a closed panel ignores it, and an open one runs as written. Only an open panel can change its outcome, and only to a flight. |
| Basic.Act | monster_collector_basic.py:452-542 | A press and its outcome check keep money. The party grows only by a capture, a flee needs Run, a capture needs the bag, and only a blackout moves the player. |
| Basic.RandomWild | monster_collector_basic.py:348-352 | A single-file wild monster has level 2 to 6 and one or two moves. |
| Basic.TryMove | monster_collector_basic.py:318-331 | A wall blocks the move. Otherwise the player steps, and a wild battle opens exactly on grass, with a party, below the tile's rate. The foe is `random_wild`'s monster for the drawn catalogue key and level (2 to 6), and the lead enters at full HP. |
| Basic.TryMoveAgrees | monster_collector_basic.py:318-331 | On a square both maps agree on, a step of this version and of the modular game move the player alike and fire the same tile event. |
| Basic.WildFightsAgree | monster_collector_basic.py:325-331 | When, in addition, the modular game is out of battle and no trainer watches the square, both versions open a wild fight on the same draws together, against the same monster. |
| Basic.BuyOrb | monster_collector_basic.py:711-717 | An orb costs 50 and is bought exactly when affordable. |
| Basic.BuyPotion | monster_collector_basic.py:719-725 | A potion costs 40 and is bought exactly when affordable. |
| Basic.MakeLead | monster_collector_basic.py:625-630 | Make Lead swaps the selection with the lead, a permutation. |
| Basic.Release | monster_collector_basic.py:632-638 | Release removes exactly the selected monster and keeps the order of the rest. |
| Basic.MakeLeadAgrees | monster_collector_basic.py:625-630 | The single-file Make Lead matches the party screen's. |
| Basic.ReleaseAgrees | monster_collector_basic.py:632-638 | The single-file Release matches the party screen's. |

## Left out

- Widgets, canvases, message boxes, icons and `PhotoImage` loading are not modelled. Drawing the map and the sidebar is not modelled either. Messages are modelled only as the structured reports they are built from.
- The main menu, profiles and saving or loading a game are not modelled, because they are file I/O. A new game always starts from a fresh player.
- Reading and writing `monsters.json` is not modelled, because it is file I/O. The loader is modelled from the already-parsed JSON value onward. `ensure_default_monsters_file` is represented by the default catalogue loading.
- The catalogue dialog and the icon viewer are left out: they only display data.
- Random numbers are parameters. Their preconditions are the ranges Python's `random` functions return.
- `random.choice` on an empty catalogue is excluded by a precondition. The game would raise an exception there.
- Floating point is modelled as exact reals, so rounding at the last bit is not reproduced.
- The 50 ms delay before the outcome check is treated as atomic. No other input can arrive between a press and its outcome check.
- Closing the battle window is ignored in the source, so it is not modelled.
- The switch dialog's list text, which shows hit points as they were when it opened, is not modelled. A pick reads the live hit points, as `do_switch` does. Open dialogs are dropped when the battle ends, because `end` destroys the window together with its dialogs.
- The single-file version's own catalogue loader and default table are not modelled. They duplicate `src/data/loader.py`.
- The single-file sidebar's Party button stays usable during a battle. That interaction is not modelled.
- Controller.Lower: lower-cases ASCII letters only. Key names are ASCII.
- Monsters.GainExp: requires a positive experience threshold, that is a level of at least -1. The source loop also ends below that level, but levels start at 2 and only rise, so such levels never occur. The precondition only serves the termination argument.
- Monsters.Climb: requires a positive experience threshold, for the same reason: levels below -1 never occur.
- Loader.LoadDb: reports a single error kind per bad field. It does not model which Python exception type would be raised.
- Loader.ToInt: accepts plain digit strings only. A string with a sign, spaces or underscores, which `int()` would accept, is reported as a bad value.
- Loader.EvolutionLevelOf: treats only ASCII digits as digits, while Python's `isdigit` also accepts other Unicode digits.
- Loader.ParseSpec: does not keep the optional `icon` field, because icons are not modelled.
- Loader.ToReal: reads plain decimal text only. Signs, exponents, surrounding spaces, underscores, "inf" and "nan", which `float()` also accepts, are reported as bad values.
- Loader.ToText: accepts only JSON strings. The source stores any JSON value as a move name, and a non-string one is reported as a bad value here, because `Move` and `Spec` hold names as text.
- Loader.TextField: accepts only JSON strings for `name` and `element`, for the same reason. The source stores whatever value the entry holds.
- Loader.ParseTarget: reports a non-string `evolves_to` as a bad value. The source keeps it, and `evolve` then raises KeyError once evolution is due, because catalogue keys are strings.
- Battles.Rewarded: evolves through the corrected `Monsters.EvolveKeepingMoves` (see Findings). When the target species has no moves, the source leaves an empty move list, and the next Fight press raises IndexError at `moves[-1]`. The model gives the monster Tackle instead.
- Battles.CheckOutcome: requires the reloaded catalogue to hold the evolution target whenever evolution is due (`CheckReady`). Without it, `monster_db[evolves_to]` raises KeyError after the experience was added, and the window stays open with the foe at 0 HP. `Battles.Act` and `Controller.BattleInput` carry the same precondition.
- Basic.Act: covers presses on an open panel, and takes the item dialog's choice together with the Bag press that opens it. The dialog left open across later presses, and a Run press after the panel closed, are modelled on their own (`Basic.BagPick` and `Basic.TryRun`, see Findings). `turn` and `use_bag` check `active` and ignore a press on a closed panel.

## Findings

| source | as written | input that shows it | evidently intended | confidence | as-written member | corrected member |
|---|---|---|---|---|---|---|
| src/models/monster.py:73-80 | `evolve` replaces the move list with the target's whole learnset, which may be empty | a level-5 monster whose target species has an empty learnset evolves with no moves; the battle then indexes `moves[-1]` | keep a usable move (Tackle) when the new learnset is empty | not executed; medium | Monsters.EvolveCanLeaveNoMoves | Monsters.EvolveKeepingMoves |
| src/models/trainer.py:33-56 | trainer engagement sets `in_battle` before the battle window indexes `party_state[0]`, without checking the party | release every monster, then step onto (4,1) in front of the first trainer: the window raises, `in_battle` stays true and every key is ignored | engage only when the player has a monster | not executed; high | Controller.EmptyPartySoftlock | Controller.EmptyPartyGuarded |
| monster_collector_basic.py:529-542 | `try_run` has no `active` guard, unlike `turn` and `use_bag`, and the Run button stays on screen after `end` | win a fight, then press Run with a lead slower than the fallen monster and a draw of 0.6 or more: the fallen monster strikes and `check_outcome` rewards the lead again, as often as Run is pressed | ignore Run once the panel is closed, as `turn` and `use_bag` do | not executed; high | Basic.RunAfterWinRewardsAgain | Basic.TryRunGuarded |
| monster_collector_basic.py:503-527 | the item dialog does not grab the input, so it stays open while the panel fights on, and neither `BagUseDialog.use` nor `after_bag_action` checks `active` | press Bag, win the fight with Move1, then throw a Charm Orb from the dialog: a catch adds the fallen monster to the party; a miss lets it strike at 0 HP, and `check_outcome` rewards the lead again | ignore the dialog's callback once the panel is closed, as `turn` and `use_bag` do | not executed; high | Basic.BagAfterWin | Basic.BagPickGuarded |
| src/core/map_manager.py:36-44 | the subsample factor uses floor division, so an icon between one and two tiles wide is not shrunk | a 55×55 icon with 28-pixel tiles gets factor 1 and stays 55 pixels | shrink by the ceiling so the icon fits the tile | not executed; medium | Overworld.ScaleCanOverflow | Overworld.FitFactor |
