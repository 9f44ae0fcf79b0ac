/** The party screen of src/ui/party.py: six slots, a selected slot, and
    the Make Lead and Release buttons, plus the percentages its bars show. */
module PartyScreen {
  import opened Wrappers
  import opened Numeric
  import opened Monsters

  /** Slots on the left-hand side of the screen. */
  const Slots: nat := 6

  /** The party as the screen edits it, and the selected slot (0..5; it may
      point at an empty slot). */
  datatype Screen = Screen(party: seq<Monster>, selected: nat)

  function Open(party: seq<Monster>): (s: Screen)
    ensures s.party == party && s.selected == 0
  {
    Screen(party, 0)
  }

  /** Clicking a slot selects it, filled or not. */
  function Select(s: Screen, idx: nat): (r: Screen)
    requires idx < Slots
    ensures r.party == s.party && r.selected == idx
  {
    s.(selected := idx)
  }

  /** `selected_index`: the selected slot when it holds a monster. */
  function SelectedIndex(s: Screen): (r: Option<nat>)
    ensures r.Some? <==> s.selected < |s.party|
    ensures r.Some? ==> r.value == s.selected
  {
    if s.selected < |s.party| then Some(s.selected) else None
  }

  /** `make_lead`: swap the selected monster with the lead; nothing for an
      empty slot or the lead itself. */
  function MakeLead(s: Screen): (r: Screen)
    ensures r.selected == s.selected && |r.party| == |s.party|
    ensures multiset(r.party) == multiset(s.party)
    ensures s.selected == 0 || s.selected >= |s.party| ==> r == s
    ensures 0 < s.selected < |s.party| ==>
      && r.party[0] == s.party[s.selected] && r.party[s.selected] == s.party[0]
      && forall j :: 0 < j < |s.party| && j != s.selected ==> r.party[j] == s.party[j]
  {
    match SelectedIndex(s)
    case None => s
    case Some(i) =>
      if i == 0 then s
      else s.(party := s.party[0 := s.party[i]][i := s.party[0]])
  }

  /** Pressing Make Lead twice on the same slot restores the order. */
  lemma MakeLeadTwice(s: Screen)
    ensures MakeLead(MakeLead(s)) == s
  {
    var r := MakeLead(s);
    if 0 < s.selected < |s.party| {
      assert MakeLead(r).party == s.party;
    }
  }

  /** `release`: the selected monster leaves the party; a selection that
      now points past the end moves to the last monster (or slot 0). */
  function Release(s: Screen): (r: (Screen, Option<Monster>))
    ensures s.selected >= |s.party| ==> r == (s, None)
    ensures s.selected < |s.party| ==>
      && r.1 == Some(s.party[s.selected])
      && |r.0.party| == |s.party| - 1
      && r.0.party == s.party[..s.selected] + s.party[s.selected + 1..]
      && multiset(r.0.party) + multiset{s.party[s.selected]} == multiset(s.party)
    ensures s.selected < |s.party| ==>
      r.0.selected == (if s.selected < |r.0.party| then s.selected else Max(0, |r.0.party| - 1))
    ensures s.selected < |s.party| && |r.0.party| > 0 ==> r.0.selected < |r.0.party|
  {
    match SelectedIndex(s)
    case None => (s, None)
    case Some(i) =>
      var party := s.party[..i] + s.party[i + 1..];
      assert s.party == s.party[..i] + [s.party[i]] + s.party[i + 1..];
      var sel := if s.selected >= |party| then Max(0, |party| - 1) else s.selected;
      (Screen(party, sel), Some(s.party[i]))
  }

  /** Nothing stops the last monster from being released. */
  lemma ReleaseCanEmptyParty(m: Monster)
    ensures Release(Open([m])).0.party == []
  {
  }

  /** The EXP bar: `int(exp / exp_next * 100)`, or 0 when the threshold
      is not positive. */
  function ExpPercent(exp: int, next: int): (r: int)
    ensures next <= 0 ==> r == 0
    ensures next > 0 && exp >= 0 ==> r * next <= exp * 100 < (r + 1) * next
    ensures next > 0 && 0 <= exp < next ==> 0 <= r < 100
  {
    if next > 0 then
      var q := exp as real / next as real * 100.0;
      var r := Trunc(q);
      if exp >= 0 then
        PercentBounds(exp, next, q, r);
        r
      else r
    else 0
  }

  /** Scaling the truncation bounds by the positive threshold. */
  lemma PercentBounds(exp: int, next: int, q: real, r: int)
    requires next > 0 && exp >= 0
    requires q == exp as real / next as real * 100.0
    requires r as real <= q < r as real + 1.0
    ensures r * next <= exp * 100 < (r + 1) * next
  {
    PercentTimesThreshold(exp, next, q);
    BelowAfterScaling(r, q, next, exp * 100);
    AboveAfterScaling(r + 1, q, next, exp * 100);
  }

  /** A lower bound of q scaled by the threshold bounds q's scaled value. */
  lemma BelowAfterScaling(lo: int, q: real, next: int, e: int)
    requires next > 0 && lo as real <= q && q * next as real == e as real
    ensures lo * next <= e
  {
    ScaleLe(lo as real, q, next as real);
    CastProduct(lo, next);
    CastOrder(lo * next, e);
  }

  /** A strict upper bound of q scaled by the threshold bounds q's scaled value. */
  lemma AboveAfterScaling(hi: int, q: real, next: int, e: int)
    requires next > 0 && q < hi as real && q * next as real == e as real
    ensures e < hi * next
  {
    ScaleLt(q, hi as real, next as real);
    CastProduct(hi, next);
    CastOrder(e, hi * next);
  }

  /** The order of integers is the order of their real values. */
  lemma CastOrder(a: int, b: int)
    ensures a as real <= b as real ==> a <= b
    ensures a as real < b as real ==> a < b
  {
  }

  /** The percentage times the threshold is a hundred times the experience. */
  lemma PercentTimesThreshold(exp: int, next: int, q: real)
    requires next > 0
    requires q == exp as real / next as real * 100.0
    ensures q * next as real == (exp * 100) as real
  {
    var n := next as real;
    var d := exp as real / n;
    assert d * n == exp as real;
    assert q * n == (d * n) * 100.0;
  }

  /** Converting a product to a real converts each factor. */
  lemma CastProduct(a: int, b: int)
    ensures (a * b) as real == a as real * b as real
  {
  }

  lemma ScaleLe(a: real, b: real, n: real)
    requires a <= b && n > 0.0
    ensures a * n <= b * n
  {
    assert b * n - a * n == (b - a) * n;
  }

  lemma ScaleLt(a: real, b: real, n: real)
    requires a < b && n > 0.0
    ensures a * n < b * n
  {
    assert b * n - a * n == (b - a) * n;
  }

  /** The HP bar outside battle: the screen shows every monster at its
      maximum, so the bar is always full. */
  function HpPercent(m: Monster): (r: int)
    ensures r == 100
  {
    var hp := MaxHp(m);
    assert hp as real / hp as real == 1.0;
    Trunc(hp as real / hp as real * 100.0)
  }
}
