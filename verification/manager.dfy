/** `BattleManager` of src/battle/manager.py: the wild encounter, its
    start-up guard and the hut's healing. */
module Encounters {
  import opened Wrappers
  import opened Monsters
  import opened Players

  /** `random_wild`: a fresh monster of the catalog species `key` at a level
      drawn from 2..4. */
  function RandomWild(specs: map<string, Spec>, key: string, level: int): (m: Monster)
    requires key in specs && 2 <= level <= 4
    ensures m.spec == specs[key] && m.spec.key == specs[key].key
    ensures 2 <= m.level <= 4 && m.exp == 0
    ensures 1 <= |m.moves| <= 2
    ensures m.detachedHp.None?
  {
    NewMonster(specs[key], level)
  }

  /** What `start_wild_battle` leaves behind: the `in_battle` flag and the
      wild monster whose battle was opened, if one was. */
  datatype Launch = Launch(inBattle: bool, wildFoe: Option<Monster>)

  /** `start_wild_battle`: nothing without a party; otherwise a battle
      opens only when none is running, and the flag is then set. */
  function StartWildBattle(p: Player, inBattle: bool, wild: Monster): (r: Launch)
    ensures r.wildFoe.Some? <==> |p.party| > 0 && !inBattle
    ensures r.wildFoe.Some? ==> r.wildFoe.value == wild
    ensures r.inBattle <==> inBattle || |p.party| > 0
    ensures inBattle ==> r == Launch(true, None)
  {
    if |p.party| == 0 then Launch(inBattle, None)
    else if !inBattle then Launch(true, Some(wild))
    else Launch(inBattle, None)
  }

  /** With a party, a second start right after the first opens nothing:
      at most one battle window runs at a time. */
  lemma StartWildBattleOnce(p: Player, inBattle: bool, w1: Monster, w2: Monster)
    requires |p.party| > 0
    ensures StartWildBattle(p, StartWildBattle(p, inBattle, w1).inBattle, w2).wildFoe.None?
  {
  }

  /** `heal_party`: hit points exist only inside a battle, so outside one
      there is nothing to restore and the player is left as it is. */
  function HealParty(p: Player): (r: Player)
    ensures r.party == p.party && r.bag == p.bag && r.money == p.money
    ensures r.x == p.x && r.y == p.y
  {
    p
  }
}
