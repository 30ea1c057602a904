/** The single-draw commands of decide.js: `flip`, `pick`, `eightBall`,
    `yesNo` and `randomNumber`, plus the `parseInt(arg) || default` reading
    of the `number` command's bounds. */
module Answers {
  import opened Wrappers
  import opened Text
  import opened Decimal
  import opened Draws
  import opened Decisions

  // ---------------------------------------------------------------- flip

  datatype CoinSide = CoinSide(en: string, de: string, emoji: string)

  const CoinSides: seq<CoinSide> := [CoinSide("Heads", "Kopf", "👑"), CoinSide("Tails", "Zahl", "🦅")]

  /** `flip()`: one of the two sides, English and German from the same entry. */
  function Flip(draw: Draw): (r: Decision)
    ensures r.Flipped? && r.emoji == CoinEmoji
    ensures (r.result == "Heads" && r.resultDe == "Kopf") || (r.result == "Tails" && r.resultDe == "Zahl")
  {
    var side := PickRandom(CoinSides, draw);
    Flipped(side.en, side.de, CoinEmoji)
  }

  // ---------------------------------------------------------------- pick

  /** `pick(options)`: an error for no options, else one of them, options echoed. */
  function Pick(options: seq<string>, draw: Draw): (r: Decision)
    ensures options == [] <==> r == Failure("No options provided")
    ensures options != [] ==> r.Picked? && r.options == options && r.result in options && r.emoji == PickEmoji
  {
    if |options| == 0 then Failure("No options provided")
    else Picked(options, PickRandom(options, draw), PickEmoji)
  }

  // ---------------------------------------------------------------- 8-ball

  datatype Response = Response(text: string, mood: string, de: string)

  const EightBallResponses: seq<Response> := [
    Response("It is certain", "positive", "Es ist sicher"),
    Response("It is decidedly so", "positive", "Ganz bestimmt"),
    Response("Without a doubt", "positive", "Ohne Zweifel"),
    Response("Yes, definitely", "positive", "Ja, definitiv"),
    Response("You may rely on it", "positive", "Du kannst dich darauf verlassen"),
    Response("As I see it, yes", "positive", "So wie ich es sehe, ja"),
    Response("Most likely", "positive", "Höchstwahrscheinlich"),
    Response("Outlook good", "positive", "Aussichten gut"),
    Response("Yes", "positive", "Ja"),
    Response("Signs point to yes", "positive", "Die Zeichen stehen auf Ja"),
    Response("Reply hazy, try again", "neutral", "Antwort unklar, frag nochmal"),
    Response("Ask again later", "neutral", "Frag später nochmal"),
    Response("Better not tell you now", "neutral", "Besser, ich sag's dir jetzt nicht"),
    Response("Cannot predict now", "neutral", "Kann ich jetzt nicht vorhersagen"),
    Response("Concentrate and ask again", "neutral", "Konzentrier dich und frag nochmal"),
    Response("Don't count on it", "negative", "Zähl nicht drauf"),
    Response("My reply is no", "negative", "Meine Antwort ist Nein"),
    Response("My sources say no", "negative", "Meine Quellen sagen Nein"),
    Response("Outlook not so good", "negative", "Aussichten nicht so gut"),
    Response("Very doubtful", "negative", "Sehr zweifelhaft")
  ]

  /** Ten positive, then five neutral, then five negative answers. */
  lemma EightBallTable()
    ensures |EightBallResponses| == 20
    ensures forall i :: 0 <= i < 10 ==> EightBallResponses[i].mood == "positive"
    ensures forall i :: 10 <= i < 15 ==> EightBallResponses[i].mood == "neutral"
    ensures forall i :: 15 <= i < 20 ==> EightBallResponses[i].mood == "negative"
  {
  }

  /** `moodEmoji[mood] || "🎱"`. */
  function MoodEmoji(mood: string): (e: string)
    ensures mood == "positive" ==> e == "✨"
    ensures mood == "neutral" ==> e == "🤔"
    ensures mood == "negative" ==> e == "😬"
    ensures mood !in {"positive", "neutral", "negative"} ==> e == "🎱"
  {
    if mood == "positive" then "✨"
    else if mood == "neutral" then "🤔"
    else if mood == "negative" then "😬"
    else "🎱"
  }

  /** `eightBall(question)`: text, German text and mood all from one table
      entry, the emoji fixed by the mood; the fallback emoji never shows. */
  function EightBall(question: string, draw: Draw): (r: Decision)
    ensures r.Answered? && r.question == question
    ensures exists i :: 0 <= i < |EightBallResponses| && EightBallResponses[i] == Response(r.result, r.mood, r.resultDe)
    ensures r.emoji == MoodEmoji(r.mood) && r.emoji != "🎱"
  {
    var response := PickRandom(EightBallResponses, draw);
    EightBallTable();
    Answered(question, response.text, response.de, response.mood, MoodEmoji(response.mood))
  }

  // ---------------------------------------------------------------- yes / no

  /** `yesNo()`: yes when the draw is below one half. */
  function YesNo(draw: Draw): (r: Decision)
    ensures r.Decided?
    ensures r.result == "Yes" <==> draw < 0.5
    ensures r.result == "Yes" || r.result == "No"
    ensures (r.result == "Yes" <==> r.resultDe == "Ja") && (r.resultDe == "Ja" <==> r.emoji == "✅")
    ensures (r.result == "No" <==> r.resultDe == "Nein") && (r.resultDe == "Nein" <==> r.emoji == "❌")
  {
    var yes := draw < 0.5;
    Decided(if yes then "Yes" else "No", if yes then "Ja" else "Nein", if yes then "✅" else "❌")
  }

  // ---------------------------------------------------------------- number

  /** `randomNumber(min, max)`: the bounds echoed, the value inside them when ordered. */
  function RandomNumber(min: int, max: int, draw: Draw): (r: Decision)
    ensures r.Numbered? && r.min == min && r.max == max && r.emoji == NumberEmoji
    ensures min <= max ==> min <= r.number <= max
  {
    Numbered(min, max, RandomInt(min, max, draw), NumberEmoji)
  }

  /** The leading white space `parseInt` skips. */
  predicate IsJsSpace(c: char)
  {
    || c in {' ', '\t', '\n', '\r', '\U{000B}', '\U{000C}', '\U{00A0}', '\U{FEFF}', '\U{1680}',
             '\U{2028}', '\U{2029}', '\U{202F}', '\U{205F}', '\U{3000}'}
    || '\U{2000}' <= c <= '\U{200A}'
  }

  function TrimStart(s: string): (r: string)
    ensures |r| <= |s| && r == s[|s| - |r|..]
    ensures r != [] ==> !IsJsSpace(r[0])
    ensures forall i :: 0 <= i < |s| - |r| ==> IsJsSpace(s[i])
  {
    if s != [] && IsJsSpace(s[0]) then
      var r := TrimStart(s[1..]);
      assert forall i :: 1 <= i < |s| - |r| ==> s[i] == s[1..][i - 1];
      r
    else s
  }

  predicate IsHexDigit(c: char)
  {
    IsDigit(c) || 'a' <= c <= 'f' || 'A' <= c <= 'F'
  }

  function HexDigitValue(c: char): (v: nat)
    requires IsHexDigit(c)
    ensures v < 16
  {
    if IsDigit(c) then DigitValue(c)
    else if 'a' <= c <= 'f' then c as int - 'a' as int + 10
    else c as int - 'A' as int + 10
  }

  function LeadingHexDigits(s: string): (k: nat)
    ensures k <= |s|
    ensures forall i :: 0 <= i < k ==> IsHexDigit(s[i])
    ensures k < |s| ==> !IsHexDigit(s[k])
  {
    if s == [] || !IsHexDigit(s[0]) then 0 else 1 + LeadingHexDigits(s[1..])
  }

  function HexValue(s: string): (v: nat)
    requires forall i :: 0 <= i < |s| ==> IsHexDigit(s[i])
  {
    if s == [] then 0 else HexValue(s[..|s| - 1]) * 16 + HexDigitValue(s[|s| - 1])
  }

  /** The magnitude `parseInt` reads after the sign: hexadecimal after `0x` or
      `0X`, decimal otherwise, up to the first character that is not a digit;
      None (NaN) when there is no digit. */
  function ParseMagnitude(s: string): (r: Option<nat>)
  {
    if |s| >= 2 && s[0] == '0' && (s[1] == 'x' || s[1] == 'X') then
      var hex := s[2..];
      var k := LeadingHexDigits(hex);
      if k == 0 then None else Some(HexValue(hex[..k]))
    else
      var k := LeadingDigits(s);
      if k == 0 then None else Some(DigitsValue(s[..k]))
  }

  /** `parseInt(s)` with no radix; None is NaN. */
  function ParseIntJs(s: string): (r: Option<int>)
  {
    var t := TrimStart(s);
    if t != [] && t[0] == '-' then
      (match ParseMagnitude(t[1..]) case Some(v) => Some(-(v as int)) case None => None)
    else if t != [] && t[0] == '+' then
      (match ParseMagnitude(t[1..]) case Some(v) => Some(v as int) case None => None)
    else
      (match ParseMagnitude(t) case Some(v) => Some(v as int) case None => None)
  }

  /** `parseInt(arg) || fallback`; a missing argument reads as NaN. NaN and 0
      both fall back. */
  function NumberArg(arg: Option<string>, fallback: int): (r: int)
    ensures arg.None? ==> r == fallback
    ensures arg.Some? && ParseIntJs(arg.value).Some? && ParseIntJs(arg.value).value != 0 ==>
      r == ParseIntJs(arg.value).value
    ensures arg.Some? && (ParseIntJs(arg.value).None? || ParseIntJs(arg.value).value == 0) ==>
      r == fallback
  {
    if arg.None? then fallback
    else match ParseIntJs(arg.value)
      case None => fallback
      case Some(v) => if v == 0 then fallback else v
  }

  lemma {:induction false} LeadingDigitsAll(s: string)
    requires AllDigits(s)
    ensures LeadingDigits(s) == |s|
  {
    if s != [] {
      LeadingDigitsAll(s[1..]);
    }
  }

  /** The magnitude of a printed natural number is that number. */
  lemma MagnitudeOfShowNat(n: nat)
    ensures ParseMagnitude(ShowNat(n)) == Some(n)
  {
    var digits := ShowNat(n);
    ShowNatRoundTrip(n);
    LeadingDigitsAll(digits);
    assert digits[..|digits|] == digits;
    if |digits| >= 2 {
      assert digits[0] != '0';
    }
  }

  /** Neither a sign nor a digit is white space. */
  lemma NotJsSpace(c: char)
    requires c == '-' || IsDigit(c)
    ensures !IsJsSpace(c)
  {
  }

  /** `parseInt` reads back the decimal text of any integer. */
  lemma ParseIntShowInt(v: int)
    ensures ParseIntJs(ShowInt(v)) == Some(v)
  {
    var t := ShowInt(v);
    NotJsSpace(t[0]);
    assert TrimStart(t) == t;
    if v < 0 {
      MagnitudeOfShowNat(-v);
      assert t[1..] == ShowNat(-v);
      assert ParseMagnitude(t[1..]) == Some(-v);
    } else {
      MagnitudeOfShowNat(v);
      assert t[0] != '-' && t[0] != '+';
      assert ParseMagnitude(t) == Some(v);
    }
  }

  /** A non-zero bound given as decimal text is taken as is; 0 falls back. */
  lemma NumberArgShowInt(v: int, fallback: int)
    ensures NumberArg(Some(ShowInt(v)), fallback) == if v == 0 then fallback else v
  {
    ParseIntShowInt(v);
  }
}
