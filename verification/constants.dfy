/** Game data of src/models/constants.py: the overworld map and the
    element-effectiveness table. */
module Constants {

  /** The overworld, one string per row; '#' wall, '.' plain, 'T' tall grass,
      ' ' path, 'H' hut, 'C' shop, 'E' a decorative tile. The tenth row is one
      character longer than the others. */
  const WorldMap: seq<string> := [
    "########################",
    "#H....TT..####..TT....##",
    "#..####..##..#..#..TT..#",
    "#..#  #..#..##..#..##..#",
    "#..#  #..####..#..###..#",
    "#..#  #..TT....#..#....#",
    "#..####..TTTT..##..###.#",
    "#..T..####..TT..#..T..C#",
    "#..TT..#..#..TT..#..TT.#",
    "#......#....#......#...E#",
    "########################"
  ]

  /** Side of one map tile in pixels. */
  const Tile: int := 28

  /** Where a blacked-out player is put back: the hut. */
  const HutX: int := 1
  const HutY: int := 1

  /** Attacker element, defender element -> damage multiplier. Pairs that
      are not listed multiply by 1.0. */
  const ElementEffectiveness: map<(string, string), real> := map[
    ("Water", "Fire") := 1.5,
    ("Fire", "Earth") := 1.5,
    ("Earth", "Air") := 1.5,
    ("Air", "Water") := 1.5
  ]

  /** The element each element is strong against, in the table's cycle. */
  function Prey(e: string): string {
    if e == "Water" then "Fire"
    else if e == "Fire" then "Earth"
    else if e == "Earth" then "Air"
    else if e == "Air" then "Water"
    else ""
  }

  const CycleElements: set<string> := {"Water", "Fire", "Earth", "Air"}

  /** The table is exactly the one-directional cycle
      Water -> Fire -> Earth -> Air -> Water, every entry 1.5. */
  lemma ElementTableIsCycle()
    ensures |ElementEffectiveness| == 4
    ensures forall p :: p in ElementEffectiveness ==> ElementEffectiveness[p] == 1.5
    ensures forall a, d :: (a, d) in ElementEffectiveness <==> a in CycleElements && d == Prey(a)
    ensures forall e :: e in CycleElements ==> Prey(e) in CycleElements && Prey(e) != e
    ensures Prey(Prey(Prey(Prey("Water")))) == "Water"
  {
    assert ElementEffectiveness.Keys == {("Water", "Fire"), ("Fire", "Earth"), ("Earth", "Air"), ("Air", "Water")};
  }

  /** No pair appears in both directions, and no multiplier is below 1.0. */
  lemma ElementTableOneWay()
    ensures forall a, d :: (a, d) in ElementEffectiveness ==> (d, a) !in ElementEffectiveness
    ensures forall p :: p in ElementEffectiveness ==> ElementEffectiveness[p] >= 1.0
    ensures ("Fire", "Water") !in ElementEffectiveness
  {
  }

  /** The recovery square is the hut, and the top row is all wall. */
  lemma HutAndBorder()
    ensures WorldMap[HutY][HutX] == 'H'
    ensures forall x :: 0 <= x < |WorldMap[0]| ==> WorldMap[0][x] == '#'
    ensures |WorldMap| == 11 && |WorldMap[0]| == 24
  {
  }
}
