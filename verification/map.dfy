/** Map lookup and icon scaling of src/core/map_manager.py. Drawing on the
    canvas is not modelled; what remains is the tile lookup every movement
    rule goes through and the integer subsampling factor for icons. */
module Overworld {
  import opened Numeric
  import opened Constants

  /** Every row is at least as wide as the first one, the width `tile_at`
      uses for its bounds check; a shorter row would raise IndexError. */
  predicate NoShortRows(rows: seq<string>) {
    |rows| > 0 ==> forall r :: 0 <= r < |rows| ==> |rows[r]| >= |rows[0]|
  }

  /** Inside the map as `tile_at` sees it. */
  predicate InBounds(x: int, y: int, rows: seq<string>) {
    0 <= y < |rows| && 0 <= x < |rows[0]|
  }

  /** `tile_at`: the character at column `x` of row `y`, and a wall
      everywhere outside the map. */
  function TileAt(x: int, y: int, rows: seq<string>): (c: char)
    requires NoShortRows(rows)
    ensures InBounds(x, y, rows) ==> c == rows[y][x]
    ensures !InBounds(x, y, rows) ==> c == '#'
    ensures c != '#' ==> InBounds(x, y, rows)
  {
    if 0 <= y < |rows| && 0 <= x < |rows[0]| then rows[y][x] else '#'
  }

  lemma WorldMapNoShortRows()
    ensures NoShortRows(WorldMap)
  {
  }

  /** Every square a walker can stand on lies inside the 24 x 11 box, so the
      extra character at the end of the tenth row is never reached. */
  lemma FloorInsideBox(x: int, y: int)
    ensures TileAt(x, y, WorldMap) != '#' ==> 0 <= x < 24 && 0 <= y < 11
    ensures TileAt(24, 9, WorldMap) == '#' && |WorldMap[9]| == 25
  {
  }

  /** `_scale_to_tile` and the icon code of the battle and party screens:
      no scaling when the image already fits, otherwise the larger of the
      two floor quotients, at least 1. */
  function ScaleFactor(w: int, h: int, t: int): (r: int)
    requires t > 0
    ensures r >= 1
    ensures w <= t && h <= t ==> r == 1
    ensures Max(w, h) >= t ==> r * t <= Max(w, h) < (r + 1) * t
  {
    if w <= t && h <= t then 1
    else
      var m := Max(w, h);
      QuotientMonotone(w, m, t);
      QuotientMonotone(h, m, t);
      QuotientMonotone(t, m, t);
      assert Max(w / t, h / t) == m / t;
      assert m == m / t * t + m % t;
      Max(1, Max(w / t, h / t))
  }

  /** Floor division by a positive divisor is monotone. */
  lemma QuotientMonotone(a: int, b: int, t: int)
    requires t > 0
    ensures a <= b ==> a / t <= b / t
  {
    var qa, qb := a / t, b / t;
    assert a == qa * t + a % t;
    assert b == qb * t + b % t;
    if a <= b {
      assert qa * t < (qb + 1) * t;
      CancelFactor(qa, qb + 1, t);
    }
  }

  /** A positive factor can be cancelled from a strict inequality. */
  lemma CancelFactor(x: int, y: int, t: int)
    requires t > 0 && x * t < y * t
    ensures x < y
  {
    if x >= y {
      assert x * t - y * t == (x - y) * t;
      NonNegativeTimes(x - y, t);
    }
  }

  lemma NonNegativeTimes(x: int, t: int)
    requires x >= 0 && t > 0
    ensures x * t >= 0
  {
  }

  /** The side length Tk's `subsample(r)` produces from `w` pixels: every
      r-th pixel, starting with the first. */
  function Subsampled(w: int, r: int): int
    requires w >= 0 && r >= 1
  {
    (w + r - 1) / r
  }

  /** The floor quotient does not make an icon fit: a 55-pixel square image
      on a 28-pixel tile gets factor 1 and stays 55 pixels wide. */
  lemma ScaleCanOverflow()
    ensures ScaleFactor(55, 55, Tile) == 1
    ensures Subsampled(55, ScaleFactor(55, 55, Tile)) == 55 > Tile
  {
  }

  /** The factor that does fit: the smallest factor that, times the tile,
      covers the larger side; still 1 for an image that already fits. */
  function FitFactor(w: int, h: int, t: int): (r: int)
    requires t > 0
    ensures r >= 1
    ensures w <= t && h <= t ==> r == 1
    ensures r * t >= Max(w, h)
    ensures r > 1 ==> (r - 1) * t < Max(w, h)
  {
    var m := Max(w, h);
    if m <= t then 1
    else
      var r := (m + t - 1) / t;
      assert m + t - 1 == r * t + (m + t - 1) % t;
      assert (r - 1) * t == r * t - t;
      r
  }
}
