/** The item and switch rules of the battle dialogs (src/battle/dialogs.py):
    what using an item does to the bag and to the active monster's hit
    points, and which party slot a switch may go to. */
module Dialogs {
  import opened Wrappers
  import opened Numeric
  import opened Players

  /** Why `BagUseDialog.use` refused an item; the dialog stays open and the
      battle's `on_use` callback is not called. */
  datatype Refusal = OutOfStock | AlreadyFull | NotUsable

  /** The result of `use`: refused, or consumed with the new bag and the new
      hit points of the active monster and the `used_capture` flag that goes
      to `on_use(True, used_capture)`. */
  datatype ItemUse = Refused(why: Refusal) | Consumed(bag: map<string, int>, hp: int, usedCapture: bool)

  /** The two arguments of the battle's `on_use` callback. */
  datatype BagSignal = BagSignal(didAction: bool, usedCapture: bool)

  /** `BagUseDialog.use(item)` against the active monster's hit points `hp`
      and maximum `maxHp`. */
  function UseItem(bag: map<string, int>, item: string, hp: int, maxHp: int): (r: ItemUse)
    ensures Quantity(bag, item) <= 0 ==> r == Refused(OutOfStock)
    ensures r.Consumed? ==> Quantity(bag, item) > 0 && r.bag == bag[item := Quantity(bag, item) - 1]
    ensures r.Consumed? && r.usedCapture <==> Quantity(bag, item) > 0 && item == CharmOrb
    ensures r.Consumed? && r.usedCapture ==> r.hp == hp
    ensures item == Potion && Quantity(bag, item) > 0 ==> (r.Consumed? <==> hp < maxHp)
    ensures r.Consumed? && !r.usedCapture ==> (item == Potion && r.hp == hp + Min(20, maxHp - hp) && hp < r.hp <= maxHp)
    ensures Quantity(bag, item) > 0 && item != CharmOrb && item != Potion ==> r == Refused(NotUsable)
  {
    if Quantity(bag, item) <= 0 then Refused(OutOfStock)
    else if item == CharmOrb then Consumed(bag[item := bag[item] - 1], hp, true)
    else if item == Potion then
      var heal := Min(20, maxHp - hp);
      if heal <= 0 then Refused(AlreadyFull)
      else Consumed(bag[item := bag[item] - 1], hp + heal, false)
    else Refused(NotUsable)
  }

  /** A potion heals up to 20 hit points without passing the maximum and
      spends exactly one potion; with none left, or at full health, it is
      refused and neither the bag nor the hit points change. */
  lemma PotionHeals(bag: map<string, int>, hp: int, maxHp: int)
    ensures var r := UseItem(bag, Potion, hp, maxHp);
      && (Quantity(bag, Potion) > 0 && hp < maxHp ==>
            r == Consumed(bag[Potion := Quantity(bag, Potion) - 1], Min(maxHp, hp + 20), false))
      && (Quantity(bag, Potion) <= 0 || hp >= maxHp ==> r.Refused?)
  {
  }

  /** The callback arguments a use produces: none when refused (the
      callback is not called), `(True, used_capture)` when consumed. */
  function SignalOf(u: ItemUse): (r: Option<BagSignal>)
    ensures r.Some? <==> u.Consumed?
    ensures r.Some? ==> r.value.didAction && r.value.usedCapture == u.usedCapture
  {
    match u
    case Refused(_) => None
    case Consumed(_, _, c) => Some(BagSignal(true, c))
  }

  /** `cancel`: the callback gets `(False, False)`. */
  const CancelSignal: BagSignal := BagSignal(false, false)

  /** The entry preselected when the switch dialog opens: the first slot
      other than the current one whose monster still has hit points. */
  function Preselect(hps: seq<int>, current: int): (r: Option<nat>)
    ensures r.Some? ==> r.value < |hps| && r.value != current && hps[r.value] > 0
    ensures r.Some? ==> forall j :: 0 <= j < r.value ==> j == current || hps[j] <= 0
    ensures r.None? ==> forall j :: 0 <= j < |hps| && j != current ==> hps[j] <= 0
  {
    PreselectFrom(hps, current, 0)
  }

  function PreselectFrom(hps: seq<int>, current: int, from: nat): (r: Option<nat>)
    requires from <= |hps|
    ensures r.Some? ==> from <= r.value < |hps| && r.value != current && hps[r.value] > 0
    ensures r.Some? ==> forall j :: from <= j < r.value ==> j == current || hps[j] <= 0
    ensures r.None? ==> forall j :: from <= j < |hps| && j != current ==> hps[j] <= 0
    decreases |hps| - from
  {
    if from == |hps| then None
    else if from != current && hps[from] > 0 then Some(from)
    else PreselectFrom(hps, current, from + 1)
  }

  /** `do_switch`: the slot passed to `on_switch`, or None when the dialog
      refuses (no selection, the active slot, or a fainted teammate). */
  function DoSwitch(hps: seq<int>, current: int, selection: Option<nat>): (r: Option<nat>)
    requires selection.Some? ==> selection.value < |hps|
    ensures r.Some? <==> selection.Some? && selection.value != current && hps[selection.value] > 0
    ensures r.Some? ==> r == selection
  {
    match selection
    case None => None
    case Some(idx) => if idx == current || hps[idx] <= 0 then None else Some(idx)
  }
}
