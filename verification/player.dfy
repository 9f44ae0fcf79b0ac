/** The player record of src/models/player.py: position, party, bag and
    money, with the party capacity rule. */
module Players {
  import opened Wrappers
  import opened Monsters

  datatype Player = Player(x: int, y: int, party: seq<Monster>, bag: map<string, int>, money: int)

  const PartyCap: int := 6
  const CharmOrb: string := "Charm Orb"
  const Potion: string := "Potion"

  /** `bag.get(item, 0)`. */
  function Quantity(bag: map<string, int>, item: string): int {
    if item in bag then bag[item] else 0
  }

  /** `Player()`: at the hut square, empty party, three Charm Orbs, two
      Potions and 200 money. */
  function NewPlayer(): (p: Player)
    ensures p.x == 1 && p.y == 1 && p.party == [] && p.money == 200
    ensures p.bag.Keys == {CharmOrb, Potion}
    ensures Quantity(p.bag, CharmOrb) == 3 && Quantity(p.bag, Potion) == 2
  {
    Player(1, 1, [], map[CharmOrb := 3, Potion := 2], 200)
  }

  /** `active()`: the lead monster, if there is one. */
  function Active(p: Player): (r: Option<Monster>)
    ensures r.Some? <==> |p.party| > 0
    ensures r.Some? ==> r.value == p.party[0]
  {
    if |p.party| > 0 then Some(p.party[0]) else None
  }

  /** `add_to_party`: appends and reports True while the party has fewer
      than six members; otherwise reports False and changes nothing. */
  function AddToParty(p: Player, m: Monster): (r: (Player, bool))
    ensures r.1 <==> |p.party| < PartyCap
    ensures r.1 ==> r.0 == p.(party := p.party + [m])
    ensures !r.1 ==> r.0 == p
    ensures |p.party| <= PartyCap ==> |r.0.party| <= PartyCap
  {
    if |p.party| < PartyCap then (p.(party := p.party + [m]), true) else (p, false)
  }
}
