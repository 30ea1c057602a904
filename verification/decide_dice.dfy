/** Dice notation `NdX` and `rollDice` of decide.js. */
module Dice {
  import opened Wrappers
  import opened Text
  import opened Decimal
  import opened Draws
  import opened Decisions

  datatype Dice = Dice(count: nat, sides: nat)

  /** `t` splits as `(\d*)d(\d+)` with the `d` at index `k`. */
  ghost predicate DiceShape(t: string, k: int)
  {
    0 <= k < |t| && AllDigits(t[..k]) && t[k] == 'd' && k + 1 < |t| && AllDigits(t[k + 1..])
  }

  /** The `d` of the shape is the first non-digit, so the split is unique. */
  lemma DiceShapeAt(t: string, k: int)
    requires DiceShape(t, k)
    ensures k == LeadingDigits(t)
  {
  }

  /** `parseDice(notation)`: lower-case, then `^(\d*)d(\d+)$`; an empty count is 1. */
  function ParseDice(notation: string): (r: Option<Dice>)
  {
    var t := Lower(notation);
    var k := LeadingDigits(t);
    if k < |t| && t[k] == 'd' && k + 1 < |t| && AllDigits(t[k + 1..]) then
      Some(Dice(if k == 0 then 1 else DigitsValue(t[..k]), DigitsValue(t[k + 1..])))
    else None
  }

  /** The parser accepts exactly the strings whose lower-cased form has the
      shape, and reads the two digit runs around the `d`. */
  lemma ParseDiceIff(notation: string)
    ensures ParseDice(notation).Some? <==> exists k :: DiceShape(Lower(notation), k)
    ensures forall k :: DiceShape(Lower(notation), k) ==>
      (var t := Lower(notation);
       ParseDice(notation) == Some(Dice(if k == 0 then 1 else DigitsValue(t[..k]), DigitsValue(t[k + 1..]))))
  {
    var t := Lower(notation);
    var k0 := LeadingDigits(t);
    if ParseDice(notation).Some? {
      assert DiceShape(t, k0);
      assert exists k :: DiceShape(Lower(notation), k);
    } else {
      assert !DiceShape(t, k0);
      forall k | DiceShape(t, k)
        ensures false
      {
        DiceShapeAt(t, k);
      }
    }
  }

  /** `${count}d${sides}`. */
  function FormatDice(d: Dice): (r: string)
  {
    ShowNat(d.count) + "d" + ShowNat(d.sides)
  }

  /** Printing a roll's notation and parsing it back gives the same dice. */
  lemma ParseFormatRoundTrip(d: Dice)
    ensures ParseDice(FormatDice(d)) == Some(d)
  {
    var c := ShowNat(d.count);
    var s := ShowNat(d.sides);
    var t := FormatDice(d);
    assert t == c + "d" + s;
    assert Lower(t) == t by {
      forall i | 0 <= i < |t|
        ensures LowerChar(t[i]) == t[i]
      {
        if i < |c| {
          assert t[i] == c[i];
        } else if i > |c| {
          assert t[i] == s[i - |c| - 1];
        }
      }
    }
    assert t[..|c|] == c && t[|c| + 1..] == s;
    assert DiceShape(t, |c|);
    ParseDiceIff(t);
    ShowNatRoundTrip(d.count);
    ShowNatRoundTrip(d.sides);
  }

  lemma ParseDiceExamples(a: string, b: string, c: string)
    requires a == "2d6" && b == "d20" && c == "D8"
    ensures ParseDice(a) == Some(Dice(2, 6))
    ensures ParseDice(b) == Some(Dice(1, 20))
    ensures ParseDice(c) == Some(Dice(1, 8))
  {
    assert Lower(a) == a && LeadingDigits(a) == 1 && a[..1] == "2" && a[2..] == "6";
    assert DigitsValue("2") == 2 && DigitsValue("6") == 6;
    assert Lower(b) == b && LeadingDigits(b) == 0 && b[1..] == "20";
    assert Lower(c) == "d8" && LeadingDigits(Lower(c)) == 0;
  }

  lemma ParseDiceRejects(a: string, b: string, c: string)
    requires a == "2d" && b == "x" && c == "2d6a"
    ensures ParseDice(a).None? && ParseDice(b).None? && ParseDice(c).None?
  {
    assert Lower(a) == a && LeadingDigits(a) == 1;
    assert Lower(b) == b && LeadingDigits(b) == 0;
    assert Lower(c) == c && LeadingDigits(c) == 1 && !IsDigit(c[3]);
  }

  /** Sum of a list of rolls (`reduce((a, b) => a + b, 0)`). */
  function Sum(s: seq<int>): (r: int)
  {
    if s == [] then 0 else Sum(s[..|s| - 1]) + s[|s| - 1]
  }

  /** The first `n` rolls: roll `i` uses draw `i`. */
  function Rolls(n: nat, sides: nat, draws: nat -> Draw): (r: seq<int>)
    ensures |r| == n
    ensures forall i :: 0 <= i < n ==> r[i] == RandomInt(1, sides, draws(i))
  {
    if n == 0 then [] else Rolls(n - 1, sides, draws) + [RandomInt(1, sides, draws(n - 1))]
  }

  /** `rollDice(notation)`, the i-th `Math.random()` being `draws(i)`. */
  function RollDice(notation: string, draws: nat -> Draw): (r: Decision)
    ensures r.Failure? <==> ParseDice(notation).None?
    ensures r.Failure? ==> r.error == "Invalid dice notation: " + notation
    ensures !r.Failure? ==>
      var d := ParseDice(notation).value;
      && r.Rolled? && r.notation == notation && r.emoji == DiceEmoji
      && |r.rolls| == d.count
      && r.total == Sum(r.rolls)
      && (forall i :: 0 <= i < d.count ==> r.rolls[i] == RandomInt(1, d.sides, draws(i)))
      && (d.sides >= 1 ==> forall i :: 0 <= i < d.count ==> 1 <= r.rolls[i] <= d.sides)
  {
    match ParseDice(notation)
    case None => Failure("Invalid dice notation: " + notation)
    case Some(d) =>
      var rolls := Rolls(d.count, d.sides, draws);
      Rolled(notation, rolls, Sum(rolls), DiceEmoji)
  }

  /** With `sides >= 1` the total lies between `count` and `count * sides`. */
  lemma {:induction false} SumBounds(s: seq<int>, sides: int)
    requires forall i :: 0 <= i < |s| ==> 1 <= s[i] <= sides
    ensures |s| <= Sum(s) <= |s| * sides
  {
    if s != [] {
      SumBounds(s[..|s| - 1], sides);
    }
  }

  /** `"0d6"` rolls nothing and totals 0. */
  lemma ZeroDice(notation: string, draws: nat -> Draw)
    requires notation == "0d6"
    ensures RollDice(notation, draws) == Rolled(notation, [], 0, DiceEmoji)
  {
    assert Lower(notation) == notation && LeadingDigits(notation) == 1;
    assert notation[..1] == "0" && notation[2..] == "6";
    assert DigitsValue("0") == 0 && DigitsValue("6") == 6;
    assert ParseDice(notation) == Some(Dice(0, 6));
  }
}
