/** The Charm Shop of src/ui/shop.py: two items with fixed prices, bought
    one at a time. */
module Shop {
  import opened Players

  /** `PRICES`. */
  const Prices: map<string, int> := map[CharmOrb := 50, Potion := 40]

  /** `buy_item(name, price)`: refused when the player cannot pay; otherwise
      the price is paid and one of the item goes into the bag. */
  function BuyItem(p: Player, name: string, price: int): (r: (Player, bool))
    ensures r.1 <==> p.money >= price
    ensures !r.1 ==> r.0 == p
    ensures r.1 ==> r.0 == p.(money := r.0.money, bag := r.0.bag)
    ensures r.1 ==> r.0.money == p.money - price
    ensures r.1 ==> Quantity(r.0.bag, name) == Quantity(p.bag, name) + 1
    ensures r.1 ==> forall k :: k != name ==> Quantity(r.0.bag, k) == Quantity(p.bag, k)
    ensures r.1 ==> r.0.bag.Keys == p.bag.Keys + {name}
  {
    if p.money < price then (p, false)
    else (p.(money := p.money - price, bag := p.bag[name := Quantity(p.bag, name) + 1]), true)
  }

  /** Buying at a listed price never makes the money negative, and money
      plus the value of the bought item at shop price is conserved. */
  lemma BuyConserves(p: Player, name: string)
    requires name in Prices && p.money >= 0
    ensures var (q, _) := BuyItem(p, name, Prices[name]);
      && q.money >= 0
      && q.money + Prices[name] * Quantity(q.bag, name) == p.money + Prices[name] * Quantity(p.bag, name)
  {
    var (q, ok) := BuyItem(p, name, Prices[name]);
    if ok {
      assert Prices[name] * (Quantity(p.bag, name) + 1) == Prices[name] * Quantity(p.bag, name) + Prices[name];
    }
  }

  /** A new player's 200 coins buy exactly four Charm Orbs. */
  lemma FourOrbs()
    ensures var p0 := NewPlayer();
      var p1 := BuyItem(p0, CharmOrb, 50).0;
      var p2 := BuyItem(p1, CharmOrb, 50).0;
      var p3 := BuyItem(p2, CharmOrb, 50).0;
      var p4 := BuyItem(p3, CharmOrb, 50).0;
      && p4.money == 0 && Quantity(p4.bag, CharmOrb) == 7
      && !BuyItem(p4, CharmOrb, 50).1
  {
  }
}
