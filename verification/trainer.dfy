/** Trainers of src/models/trainer.py: where they stand, the square each
    one watches, how a trainer challenges the player and what a defeat
    does. The trainer's roster is drawn the first time it challenges and
    reused afterwards. */
module Trainers {
  import opened Wrappers
  import opened Monsters

  datatype Trainer = Trainer(x: int, y: int, facing: string, defeated: bool, party: seq<Monster>)

  /** `create_trainers`: three undefeated trainers with empty rosters. */
  function CreateTrainers(): (ts: seq<Trainer>)
    ensures |ts| == 3
    ensures forall i :: 0 <= i < |ts| ==> !ts[i].defeated && ts[i].party == []
    ensures ts[0].x == 5 && ts[0].y == 1 && ts[0].facing == "W"
    ensures ts[1].x == 14 && ts[1].y == 3 && ts[1].facing == "S"
    ensures ts[2].x == 18 && ts[2].y == 6 && ts[2].facing == "W"
  {
    [Trainer(5, 1, "W", false, []), Trainer(14, 3, "S", false, []), Trainer(18, 6, "W", false, [])]
  }

  function Abs(n: int): nat {
    if n < 0 then -n else n
  }

  /** `tile_in_front_of_trainer`: one step in the facing direction; any
      facing other than N, S or E counts as W. */
  function FrontTile(t: Trainer): (p: (int, int))
    ensures Abs(p.0 - t.x) + Abs(p.1 - t.y) == 1
    ensures t.facing == "N" <==> p == (t.x, t.y - 1)
    ensures t.facing == "S" <==> p == (t.x, t.y + 1)
    ensures t.facing == "E" <==> p == (t.x + 1, t.y)
    ensures t.facing != "N" && t.facing != "S" && t.facing != "E" <==> p == (t.x - 1, t.y)
  {
    if t.facing == "N" then (t.x, t.y - 1)
    else if t.facing == "S" then (t.x, t.y + 1)
    else if t.facing == "E" then (t.x + 1, t.y)
    else (t.x - 1, t.y)
  }

  /** An undefeated trainer watching the player's square. */
  predicate Challenges(t: Trainer, px: int, py: int) {
    !t.defeated && FrontTile(t) == (px, py)
  }

  /** The random choices for a roster: a catalog key and a level per
      monster. */
  datatype Recruit = Recruit(key: string, level: int)

  /** `randint(1, 2)` monsters, each of a catalog species at `randint(4, 6)`. */
  predicate RosterDraws(rs: seq<Recruit>, specs: map<string, Spec>) {
    1 <= |rs| <= 2 && forall i :: 0 <= i < |rs| ==> rs[i].key in specs && 4 <= rs[i].level <= 6
  }

  function Roster(rs: seq<Recruit>, specs: map<string, Spec>): (ms: seq<Monster>)
    requires RosterDraws(rs, specs)
    ensures |ms| == |rs| && 1 <= |ms| <= 2
    ensures forall i :: 0 <= i < |ms| ==> ms[i] == NewMonster(specs[rs[i].key], rs[i].level)
    ensures forall i :: 0 <= i < |ms| ==> 4 <= ms[i].level <= 6 && ms[i].exp == 0 && |ms[i].moves| > 0
  {
    seq(|rs|, i requires 0 <= i < |rs| => NewMonster(specs[rs[i].key], rs[i].level))
  }

  /** The first trainer from `from` on that challenges the square. */
  function FirstChallenger(ts: seq<Trainer>, px: int, py: int, from: nat): (r: Option<nat>)
    requires from <= |ts|
    ensures r.Some? ==> from <= r.value < |ts| && Challenges(ts[r.value], px, py)
    ensures r.Some? ==> forall j :: from <= j < r.value ==> !Challenges(ts[j], px, py)
    ensures r.None? ==> forall j :: from <= j < |ts| ==> !Challenges(ts[j], px, py)
    decreases |ts| - from
  {
    if from == |ts| then None
    else if Challenges(ts[from], px, py) then Some(from)
    else FirstChallenger(ts, px, py, from + 1)
  }

  /** A challenge: the trainer list with the challenger's roster filled in,
      and the challenger's index. */
  datatype Engagement = Engagement(trainers: seq<Trainer>, index: nat)

  /** The challenger with its roster: the existing one, or a fresh draw
      when it is still empty. */
  function Recruited(t: Trainer, rs: seq<Recruit>, specs: map<string, Spec>): (r: Trainer)
    requires RosterDraws(rs, specs)
    ensures r == t.(party := r.party)
    ensures |t.party| > 0 ==> r.party == t.party
    ensures |t.party| == 0 ==> r.party == Roster(rs, specs)
    ensures |r.party| > 0
  {
    if |t.party| == 0 then t.(party := Roster(rs, specs)) else t
  }

  /** `check_trainer_engagement` as written: outside a battle, the first
      undefeated trainer watching the player's square challenges, whatever
      the state of the player's party. The caller then sets `in_battle` and
      opens the battle. */
  function Engage(inBattle: bool, ts: seq<Trainer>, px: int, py: int,
                  rs: seq<Recruit>, specs: map<string, Spec>): (r: Option<Engagement>)
    requires RosterDraws(rs, specs)
    ensures inBattle ==> r.None?
    ensures r.Some? <==> !inBattle && exists i :: 0 <= i < |ts| && Challenges(ts[i], px, py)
    ensures r.Some? ==> r.value.index < |ts| && Challenges(ts[r.value.index], px, py)
    ensures r.Some? ==> forall j :: 0 <= j < r.value.index ==> !Challenges(ts[j], px, py)
    ensures r.Some? ==> r.value.trainers == ts[r.value.index := Recruited(ts[r.value.index], rs, specs)]
  {
    if inBattle then None
    else match FirstChallenger(ts, px, py, 0)
      case None => None
      case Some(i) => Some(Engagement(ts[i := Recruited(ts[i], rs, specs)], i))
  }

  /** Where no trainer watches, nobody challenges. */
  lemma Unwatched(inBattle: bool, ts: seq<Trainer>, px: int, py: int, rs: seq<Recruit>, specs: map<string, Spec>)
    requires RosterDraws(rs, specs)
    requires forall i :: 0 <= i < |ts| ==> !Challenges(ts[i], px, py)
    ensures Engage(inBattle, ts, px, py, rs, specs) == None
  {
  }

  /** The engagement with the guard `start_wild_battle` has: a player with
      an empty party is not challenged, since the battle cannot start
      without a lead monster. */
  function EngageGuarded(inBattle: bool, partySize: nat, ts: seq<Trainer>, px: int, py: int,
                         rs: seq<Recruit>, specs: map<string, Spec>): (r: Option<Engagement>)
    requires RosterDraws(rs, specs)
    ensures partySize == 0 ==> r.None?
    ensures partySize > 0 ==> r == Engage(inBattle, ts, px, py, rs, specs)
  {
    if partySize == 0 then None else Engage(inBattle, ts, px, py, rs, specs)
  }

  /** `on_trainer_defeated`: the trainer is marked defeated and the player
      earns 50 money. */
  function OnTrainerDefeated(ts: seq<Trainer>, i: nat, money: int): (r: (seq<Trainer>, int))
    requires i < |ts|
    ensures |r.0| == |ts| && r.0[i].defeated
    ensures r.0[i] == ts[i].(defeated := true)
    ensures forall j :: 0 <= j < |ts| && j != i ==> r.0[j] == ts[j]
    ensures r.1 == money + 50
  {
    (ts[i := ts[i].(defeated := true)], money + 50)
  }

  /** A defeated trainer never challenges again; the money reward is paid
      on every call. */
  lemma DefeatedStaysQuiet(ts: seq<Trainer>, i: nat, money: int, px: int, py: int,
                           rs: seq<Recruit>, specs: map<string, Spec>)
    requires i < |ts| && RosterDraws(rs, specs)
    ensures var (ts2, _) := OnTrainerDefeated(ts, i, money);
      var e := Engage(false, ts2, px, py, rs, specs);
      e.Some? ==> e.value.index != i
    ensures OnTrainerDefeated(OnTrainerDefeated(ts, i, money).0, i, money + 50).1 == money + 100
  {
  }

  /** Each trainer's roster is drawn once: a second challenge by the same
      trainer meets the same monsters, whatever the new draws. */
  lemma RosterReused(ts: seq<Trainer>, px: int, py: int,
                     rs1: seq<Recruit>, rs2: seq<Recruit>, specs: map<string, Spec>)
    requires RosterDraws(rs1, specs) && RosterDraws(rs2, specs)
    ensures var e1 := Engage(false, ts, px, py, rs1, specs);
      e1.Some? ==>
        var e2 := Engage(false, e1.value.trainers, px, py, rs2, specs);
        e2.Some? && e2.value.index == e1.value.index && e2.value.trainers == e1.value.trainers
  {
    var e1 := Engage(false, ts, px, py, rs1, specs);
    if e1.Some? {
      var i := e1.value.index;
      var ts1 := e1.value.trainers;
      assert Challenges(ts1[i], px, py);
      var e2 := Engage(false, ts1, px, py, rs2, specs);
      assert forall j :: 0 <= j < i ==> ts1[j] == ts[j];
      assert e2.value.index == i;
      assert ts1[i := Recruited(ts1[i], rs2, specs)] == ts1;
    }
  }
}
