/** `Math.random()` as an oracle value, and the two helpers of decide.js built on it. */
module Draws {

  /** One value of `Math.random()`: a number in [0, 1). */
  type Draw = r: real | 0.0 <= r < 1.0

  /** `Math.floor(Math.random() * (max - min + 1)) + min`. */
  function RandomInt(min: int, max: int, draw: Draw): (n: int)
    ensures min <= max ==> min <= n <= max
    ensures max - min + 1 == 0 ==> n == min
  {
    ScaledFloorBounds(draw, max - min + 1);
    (draw * (max - min + 1) as real).Floor + min
  }

  /** `Math.floor(r * width)` lies in [0, width) for a positive width. */
  lemma ScaledFloorBounds(draw: Draw, width: int)
    ensures width > 0 ==> 0 <= (draw * width as real).Floor < width
    ensures width == 0 ==> (draw * width as real).Floor == 0
  {
    if width > 0 {
      assert draw * width as real < 1.0 * width as real;
    }
  }

  /** Every value of a non-empty range comes out for some draw. */
  lemma RandomIntCovers(min: int, max: int, k: int)
    requires min <= k <= max
    ensures exists d: Draw :: RandomInt(min, max, d) == k
  {
    var w := (max - min + 1) as real;
    var offset := (k - min) as real;
    assert 0.0 <= offset < w;
    var d: real := offset / w;
    assert d * w == offset;
    assert 0.0 <= d;
    assert d < 1.0;
    var dd: Draw := d;
    assert dd * w == offset;
    assert RandomInt(min, max, dd) == k;
  }

  /** `arr[randomInt(0, arr.length - 1)]`. */
  function PickRandom<T>(arr: seq<T>, draw: Draw): (x: T)
    requires |arr| > 0
    ensures x in arr
  {
    arr[RandomInt(0, |arr| - 1, draw)]
  }
}
