/**
 * The number printer (digit groups, decimal comma, optional sign and percent) and the parser of numeric input. A
 * floating-point value is its exact real value; the parser's result is the number the cleaned text denotes.
 */
module SmartNum {
  import opened Rows
  import opened Text

  // ----- numbers and digits -----

  function Pow10(d: nat): (r: nat)
    ensures r > 0
  {
    if d == 0 then 1 else 10 * Pow10(d - 1)
  }

  /** Rounding to the nearest integer, ties to even. */
  function RoundInt(y: real): int {
    var below := y.Floor;
    var rest := y - below as real;
    if rest < 0.5 || (rest == 0.5 && below % 2 == 0) then below else below + 1
  }

  /** A number in units of its `d`-th place. */
  function Units(x: real, d: nat): real { x * Pow10(d) as real }

  /** A number rounded to `d` places, in units of the last place. */
  function Round(x: real, d: nat): int { RoundInt(Units(x, d)) }

  predicate IsDigit(c: char) { '0' <= c <= '9' }

  ghost predicate AllDigits(s: string) { forall i :: 0 <= i < |s| ==> IsDigit(s[i]) }

  function Num(s: string): nat {
    if s == [] then 0
    else Num(s[..|s| - 1]) * 10 + if IsDigit(s[|s| - 1]) then (s[|s| - 1] - '0') as nat else 0
  }

  /** The last `d` digits of a number, with leading zeros. */
  function Fixed(n: nat, d: nat): (s: string)
    ensures |s| == d && AllDigits(s)
  {
    if d == 0 then [] else Fixed(n / 10, d - 1) + [DigitChar(n % 10)]
  }

  // ----- text -----

  /** Every `c` becomes `t`. */
  function Replace(s: string, c: char, t: string): string {
    if s == [] then [] else (if s[0] == c then t else [s[0]]) + Replace(s[1..], c, t)
  }

  /** Groups of three digits from the right, separated by commas. */
  function Group(digits: string): string
    decreases |digits|
  {
    if |digits| <= 3 then digits else Group(digits[..|digits| - 3]) + "," + digits[|digits| - 3..]
  }

  function Abs(n: int): nat { if n < 0 then -n else n }

  lemma QuotientIsNatural(n: nat, m: nat)
    requires m > 0
    ensures n / m >= 0
  {
    var q := n / m;
    assert n == m * q + n % m && n % m < m;
    assert q < 0 ==> m * q <= m * -1;
  }

  function Whole(n: nat, d: nat): nat {
    QuotientIsNatural(n, Pow10(d));
    n / Pow10(d)
  }

  function Part(n: nat, d: nat): (r: nat)
    ensures r < Pow10(d)
  {
    n % Pow10(d)
  }

  /** The printer's conventional form: grouped by commas, with a decimal point unless the number is whole. */
  function Plain(n: nat, d: nat): string {
    if Part(n, d) == 0 then Group(Dec(Whole(n, d))) else Group(Dec(Whole(n, d))) + "." + Fixed(Part(n, d), d)
  }

  function Localised(s: string): string { Replace(Replace(s, ',', " "), '.', ",") }

  function SignOf(n: int, showSign: bool): string {
    if n > 0 && showSign then "+" else if n < 0 then "-" else ""
  }

  /** The text of `n` units of the last place. */
  function FormatUnits(n: int, isPercent: bool, showSign: bool, d: nat): string {
    SignOf(n, showSign) + Localised(Plain(Abs(n), d)) + if isPercent then "%" else ""
  }

  function Format(val: Option<real>, isPercent: bool, showSign: bool, d: nat): string {
    if val.None? then "Н/Д" else FormatUnits(Round(val.value, d), isPercent, showSign, d)
  }

  // ----- the parser -----

  function LastDot(s: string): int
    ensures -1 <= LastDot(s) < |s|
  {
    if s == [] then -1 else if s[|s| - 1] == '.' then |s| - 1 else LastDot(s[..|s| - 1])
  }

  predicate Keeps(s: string, i: nat, dot: int)
    requires i < |s|
  {
    IsDigit(s[i]) || (s[i] == '.' && i == dot)
  }

  function KeptUpTo(s: string, i: nat, dot: int): string
    requires i <= |s|
  {
    if i == 0 then [] else KeptUpTo(s, i - 1, dot) + if Keeps(s, i - 1, dot) then [s[i - 1]] else []
  }

  /** The digits, and of the dots the last one. */
  function Kept(s: string): string { KeptUpTo(s, |s|, LastDot(s)) }

  function StripDots(s: string): string
    decreases |s|
  {
    if s == [] then []
    else if s[0] == '.' then StripDots(s[1..])
    else if s[|s| - 1] == '.' then StripDots(s[..|s| - 1])
    else s
  }

  function Ratio(n: int, m: nat): real
    requires m > 0
  {
    n as real / m as real
  }

  /** The number denoted by digits with at most one inner dot. */
  function Denoted(s: string): real {
    var dot := LastDot(s);
    if dot < 0 then Num(s) as real
    else Num(s[..dot]) as real + Ratio(Num(s[dot + 1..]), Pow10(|s| - dot - 1))
  }

  function Cleaned(s: string): string { Replace(Replace(s, ' ', ""), ',', ".") }

  predicate Signed(s: string) { s != [] && (s[0] == '+' || s[0] == '-') }

  /** `None` stands for `ValueError`. */
  function Parse(text: string): Option<real> {
    var normalized := Cleaned(Strip(text));
    var body := if Signed(normalized) then normalized[1..] else normalized;
    var digits := StripDots(Kept(body));
    if normalized == [] || digits == [] then None
    else Some(if normalized[0] == '-' then -Denoted(digits) else Denoted(digits))
  }

  method ParseNumericInput(text: string) returns (r: Option<real>)
    ensures r == Parse(text)
  {
    var normalized := Cleaned(Strip(text));
    if normalized == [] { return None; }
    var sign := "";
    var rest := normalized;
    if normalized[0] == '+' || normalized[0] == '-' {
      sign := [normalized[0]];
      rest := normalized[1..];
    }
    var digits: string := [];
    var lastDotIndex := LastDot(rest);
    for idx := 0 to |rest|
      invariant digits == KeptUpTo(rest, idx, lastDotIndex)
    {
      if IsDigit(rest[idx]) {
        digits := digits + [rest[idx]];
      } else if rest[idx] == '.' && idx == lastDotIndex {
        digits := digits + [rest[idx]];
      }
    }
    var cleaned := StripDots(digits);
    if cleaned == [] { return None; }
    return Some(if sign == "-" then -Denoted(cleaned) else Denoted(cleaned));
  }

  // ----- what the printer writes, the parser reads -----

  lemma {:induction false} ReplaceConcat(a: string, b: string, c: char, t: string)
    ensures Replace(a + b, c, t) == Replace(a, c, t) + Replace(b, c, t)
  {
    if a == [] {
      assert a + b == b;
    } else {
      var head := if a[0] == c then t else [a[0]];
      var x, y := Replace(a[1..], c, t), Replace(b, c, t);
      ReplaceConcat(a[1..], b, c, t);
      assert (a + b)[1..] == a[1..] + b && (a + b)[0] == a[0];
      assert head + (x + y) == (head + x) + y;
    }
  }

  lemma {:induction false} ReplaceNothing(s: string, c: char, t: string)
    requires forall i :: 0 <= i < |s| ==> s[i] != c
    ensures Replace(s, c, t) == s
  {
    if s != [] { ReplaceNothing(s[1..], c, t); }
  }

  /** The printer's replacements followed by the parser's. */
  function Through(s: string): string { Cleaned(Localised(s)) }

  lemma ThroughConcat(a: string, b: string)
    ensures Localised(a + b) == Localised(a) + Localised(b)
    ensures Cleaned(a + b) == Cleaned(a) + Cleaned(b)
    ensures Through(a + b) == Through(a) + Through(b)
  {
    LocalisedConcat(a, b);
    CleanedConcat(a, b);
    CleanedConcat(Localised(a), Localised(b));
  }

  lemma LocalisedConcat(a: string, b: string)
    ensures Localised(a + b) == Localised(a) + Localised(b)
  {
    ReplaceConcat(a, b, ',', " ");
    ReplaceConcat(Replace(a, ',', " "), Replace(b, ',', " "), '.', ",");
  }

  lemma CleanedConcat(a: string, b: string)
    ensures Cleaned(a + b) == Cleaned(a) + Cleaned(b)
  {
    ReplaceConcat(a, b, ' ', "");
    ReplaceConcat(Replace(a, ' ', ""), Replace(b, ' ', ""), ',', ".");
  }

  lemma ThroughDigits(s: string)
    requires AllDigits(s)
    ensures Localised(s) == s && Cleaned(s) == s && Through(s) == s
  {
    ReplaceNothing(s, ',', " ");
    ReplaceNothing(s, '.', ",");
    ReplaceNothing(s, ' ', "");
    ReplaceNothing(s, ',', ".");
  }

  lemma ThroughSeparators()
    ensures Localised(",") == " " && Localised(".") == "," && Cleaned(" ") == "" && Cleaned(",") == "."
  {
    assert Replace(",", ',', " ") == " " && Replace(" ", '.', ",") == " ";
    assert Replace(".", ',', " ") == "." && Replace(".", '.', ",") == ",";
    assert Replace(" ", ' ', "") == "" && Replace("", ',', ".") == "";
    assert Replace(",", ' ', "") == "," && Replace(",", ',', ".") == ".";
  }

  lemma ThroughNextGroup(text: string, group: string)
    requires AllDigits(group)
    ensures Through(text + "," + group) == Through(text) + group
  {
    ThroughDigits(group);
    ThroughSeparators();
    ThroughConcat(text + ",", group);
    ThroughConcat(text, ",");
  }

  /** Digit grouping disappears on the way through the parser. */
  lemma {:induction false} ThroughGroup(s: string)
    requires AllDigits(s) && s != []
    ensures Through(Group(s)) == s
    decreases |s|
  {
    if |s| <= 3 {
      ThroughDigits(s);
    } else {
      var front, group := s[..|s| - 3], s[|s| - 3..];
      ThroughGroup(front);
      ThroughNextGroup(Group(front), group);
      assert s == front + group;
    }
  }

  lemma {:induction false} GroupEnds(s: string)
    requires AllDigits(s) && s != []
    ensures var text := Localised(Group(s)); text != [] && text[0] == s[0] && text[|text| - 1] == s[|s| - 1]
    decreases |s|
  {
    if |s| <= 3 {
      ThroughDigits(s);
    } else {
      var front, group := s[..|s| - 3], s[|s| - 3..];
      GroupEnds(front);
      ThroughDigits(group);
      LocalisedConcat(Group(front) + ",", group);
      LocalisedConcat(Group(front), ",");
    }
  }

  lemma NumAppend(s: string, k: nat)
    requires k < 10
    ensures Num(s + [DigitChar(k)]) == Num(s) * 10 + k
  {
    var t := s + [DigitChar(k)];
    assert t[..|t| - 1] == s && t[|t| - 1] - '0' == k as char;
  }

  lemma {:induction false} NumOfDec(n: nat)
    ensures Num(Dec(n)) == n && AllDigits(Dec(n))
  {
    if n >= 10 {
      NumOfDec(n / 10);
      NumAppend(Dec(n / 10), n % 10);
    } else {
      NumAppend("", n);
      assert "" + [DigitChar(n)] == Dec(n);
    }
  }

  lemma {:induction false} NumOfFixed(n: nat, d: nat)
    requires n < Pow10(d)
    ensures Num(Fixed(n, d)) == n
  {
    if d > 0 {
      var q, r := n / 10, n % 10;
      assert q < Pow10(d - 1);
      NumOfFixed(q, d - 1);
      NumAppend(Fixed(q, d - 1), r);
      assert Fixed(n, d) == Fixed(q, d - 1) + [DigitChar(r)];
    }
  }

  lemma {:induction false} KeptDigits(s: string, a: nat, i: nat, dot: int)
    requires a <= i <= |s| && forall k :: a <= k < i ==> IsDigit(s[k])
    ensures KeptUpTo(s, i, dot) == KeptUpTo(s, a, dot) + s[a..i]
    decreases i
  {
    if a < i {
      KeptDigits(s, a, i - 1, dot);
      assert s[a..i] == s[a..i - 1] + [s[i - 1]];
    }
  }

  lemma {:induction false} LastDotIs(s: string, dot: int)
    requires -1 <= dot < |s| && (dot >= 0 ==> s[dot] == '.')
    requires forall i :: dot < i < |s| ==> s[i] != '.'
    ensures LastDot(s) == dot
    decreases |s|
  {
    if s != [] && s[|s| - 1] != '.' { LastDotIs(s[..|s| - 1], dot); }
  }

  /** Of a whole number the parser keeps the digits, of another one digits, dot and digits; a percent sign goes. */
  lemma KeptWhole(a: string, tail: string)
    requires AllDigits(a) && a != [] && (tail == "" || tail == "%")
    ensures StripDots(Kept(a + tail)) == a
  {
    var s := a + tail;
    LastDotIs(s, -1);
    assert s[0..|a|] == a;
    KeptDigits(s, 0, |a|, -1);
  }

  lemma KeptPoint(a: string, b: string, tail: string)
    requires AllDigits(a) && a != [] && AllDigits(b) && b != [] && (tail == "" || tail == "%")
    ensures StripDots(Kept(a + "." + b + tail)) == a + "." + b
  {
    var s := a + "." + b + tail;
    LastDotIs(s, |a|);
    KeptUpToPoint(s, a, b);
    var kept := a + "." + b;
    assert kept[0] == a[0] && kept[|kept| - 1] == b[|b| - 1];
  }

  lemma KeptUpToPoint(s: string, a: string, b: string)
    requires AllDigits(a) && AllDigits(b) && a + "." + b <= s
    ensures KeptUpTo(s, |a| + 1 + |b|, |a|) == a + "." + b
  {
    var end := |a| + 1 + |b|;
    assert s[..end] == a + "." + b;
    assert s[0..|a|] == a && s[|a|] == '.' && s[|a| + 1..end] == b;
    KeptDigits(s, 0, |a|, |a|);
    KeptDigits(s, |a| + 1, end, |a|);
    assert KeptUpTo(s, |a| + 1, |a|) == a + ".";
  }

  lemma QuotientSplits(a: real, m: real, q: real, r: real)
    requires m > 0.0 && a == m * q + r
    ensures a / m == q + r / m
  {
    var x := a / m;
    assert x * m == a;
    assert r / m * m == r;
    assert (x - q - r / m) * m == 0.0;
  }

  lemma PartsAddUp(n: nat, d: nat)
    ensures n == Pow10(d) * Whole(n, d) + Part(n, d)
  {
  }

  lemma ProductAsReal(a: int, b: int)
    ensures (a * b) as real == a as real * b as real
  {
  }

  lemma SplitRatio(n: nat, d: nat)
    ensures Ratio(n, Pow10(d)) == Whole(n, d) as real + Ratio(Part(n, d), Pow10(d))
  {
    PartsAddUp(n, d);
    ProductAsReal(Pow10(d), Whole(n, d));
    QuotientSplits(n as real, Pow10(d) as real, Whole(n, d) as real, Part(n, d) as real);
  }

  lemma WholeDenotes(n: nat, d: nat)
    requires Part(n, d) == 0
    ensures Denoted(Dec(Whole(n, d))) == Ratio(n, Pow10(d))
  {
    NumOfDec(Whole(n, d));
    LastDotIs(Dec(Whole(n, d)), -1);
    SplitRatio(n, d);
  }

  lemma PointDenotes(n: nat, d: nat)
    ensures Denoted(Dec(Whole(n, d)) + "." + Fixed(Part(n, d), d)) == Ratio(n, Pow10(d))
  {
    var a, b := Dec(Whole(n, d)), Fixed(Part(n, d), d);
    NumOfDec(Whole(n, d));
    NumOfFixed(Part(n, d), d);
    PointSplits(a, b);
    SplitRatio(n, d);
  }

  lemma PointSplits(a: string, b: string)
    requires AllDigits(a) && AllDigits(b)
    ensures Denoted(a + "." + b) == Num(a) as real + Ratio(Num(b), Pow10(|b|))
  {
    var s := a + "." + b;
    LastDotIs(s, |a|);
    assert |s| - |a| - 1 == |b|;
    assert Denoted(s) == Num(s[..|a|]) as real + Ratio(Num(s[|a| + 1..]), Pow10(|b|));
    assert s[..|a|] == a && s[|a| + 1..] == b;
  }

  /** The digits a number is printed with, without groups. */
  function Bare(n: nat, d: nat): string {
    if Part(n, d) == 0 then Dec(Whole(n, d)) else Dec(Whole(n, d)) + "." + Fixed(Part(n, d), d)
  }

  lemma BareDenotes(n: nat, d: nat)
    ensures Denoted(Bare(n, d)) == Ratio(n, Pow10(d))
  {
    if Part(n, d) == 0 { WholeDenotes(n, d); } else { PointDenotes(n, d); }
  }

  lemma ThroughPlain(n: nat, d: nat)
    ensures Through(Plain(n, d)) == Bare(n, d)
    ensures var text := Localised(Plain(n, d)); text != [] && IsDigit(text[0]) && IsDigit(text[|text| - 1])
  {
    var a, b := Dec(Whole(n, d)), Fixed(Part(n, d), d);
    NumOfDec(Whole(n, d));
    ThroughGroup(a);
    GroupEnds(a);
    if Part(n, d) != 0 {
      ThroughDigits(b);
      ThroughSeparators();
      ThroughConcat(Group(a) + ".", b);
      ThroughConcat(Group(a), ".");
    }
  }

  lemma BareIsKept(n: nat, d: nat, tail: string)
    requires tail == "" || tail == "%"
    ensures StripDots(Kept(Bare(n, d) + tail)) == Bare(n, d)
    ensures Bare(n, d) != [] && IsDigit(Bare(n, d)[0])
  {
    NumOfDec(Whole(n, d));
    if Part(n, d) == 0 {
      KeptWhole(Dec(Whole(n, d)), tail);
    } else {
      KeptPoint(Dec(Whole(n, d)), Fixed(Part(n, d), d), tail);
    }
  }

  function WithSign(sign: string, v: real): real { if sign == "-" then -v else v }

  lemma ParseParts(text: string, sign: string, rest: string, digits: string, v: real)
    requires Strip(text) == text && Cleaned(text) == sign + rest
    requires sign == "" || sign == "+" || sign == "-"
    requires rest != [] && !Signed(rest) && StripDots(Kept(rest)) == digits && digits != [] && Denoted(digits) == v
    ensures Parse(text) == Some(WithSign(sign, v))
  {
    var normalized := sign + rest;
    assert sign != "" ==> normalized[0] == sign[0] && normalized[1..] == rest;
    assert sign == "" ==> normalized == rest;
  }

  lemma PrintedIsCleaned(n: nat, d: nat, sign: string, tail: string)
    requires sign == "" || sign == "+" || sign == "-"
    requires tail == "" || tail == "%"
    ensures var text := sign + Localised(Plain(n, d)) + tail;
              Strip(text) == text && Cleaned(text) == sign + (Bare(n, d) + tail)
  {
    var printed := Localised(Plain(n, d));
    ThroughPlain(n, d);
    StripsNothing(sign, printed, tail);
    CleanedAffixes(sign, printed, tail);
    assert sign + Bare(n, d) + tail == sign + (Bare(n, d) + tail);
  }

  lemma ParseSigned(n: nat, d: nat, sign: string, tail: string)
    requires sign == "" || sign == "+" || sign == "-"
    requires tail == "" || tail == "%"
    ensures Parse(sign + Localised(Plain(n, d)) + tail) == Some(WithSign(sign, Ratio(n, Pow10(d))))
  {
    var bare := Bare(n, d);
    PrintedIsCleaned(n, d, sign, tail);
    BareIsKept(n, d, tail);
    BareDenotes(n, d);
    ParseParts(sign + Localised(Plain(n, d)) + tail, sign, bare + tail, bare, Ratio(n, Pow10(d)));
  }

  lemma StripsNothing(sign: string, s: string, tail: string)
    requires sign == "" || sign == "+" || sign == "-"
    requires tail == "" || tail == "%"
    requires s != [] && IsDigit(s[0]) && IsDigit(s[|s| - 1])
    ensures Strip(sign + s + tail) == sign + s + tail
  {
    var text := sign + s + tail;
    assert text[0] == (if sign == "" then s else sign)[0];
    assert text[|text| - 1] == if tail == "" then s[|s| - 1] else '%';
  }

  lemma CleanedAffixes(sign: string, s: string, tail: string)
    requires sign == "" || sign == "+" || sign == "-"
    requires tail == "" || tail == "%"
    ensures Cleaned(sign + s + tail) == sign + Cleaned(s) + tail
  {
    CleanedConcat(sign + s, tail);
    CleanedConcat(sign, s);
    ReplaceNothing(sign, ' ', "");
    ReplaceNothing(sign, ',', ".");
    ReplaceNothing(tail, ' ', "");
    ReplaceNothing(tail, ',', ".");
  }

  lemma SignedRatio(n: int, m: nat, showSign: bool)
    requires m > 0
    ensures WithSign(SignOf(n, showSign), Ratio(Abs(n), m)) == Ratio(n, m)
  {
    if n < 0 {
      var q := Ratio(Abs(n), m);
      assert q * m as real == Abs(n) as real;
      assert (-q) * m as real == n as real;
    }
  }

  /**
   * The printer and the parser undo each other: for every number, with or without a sign and a percent, the parser
   * reads what was printed as that number rounded to the printed places.
   */
  lemma ParseUndoesFormat(x: real, isPercent: bool, showSign: bool, d: nat)
    ensures Parse(Format(Some(x), isPercent, showSign, d)) == Some(Ratio(Round(x, d), Pow10(d)))
  {
    var n := Round(x, d);
    ParseSigned(Abs(n), d, SignOf(n, showSign), if isPercent then "%" else "");
    SignedRatio(n, Pow10(d), showSign);
  }

  lemma RoundIsStable(n: int, d: nat)
    ensures Round(Ratio(n, Pow10(d)), d) == n
  {
    assert Ratio(n, Pow10(d)) * Pow10(d) as real == n as real;
  }

  /** Printing what was read from a print changes nothing, and two numbers print alike exactly if they round alike. */
  lemma FormatIsCanonical(x: real, y: real, isPercent: bool, showSign: bool, d: nat)
    ensures Format(Parse(Format(Some(x), isPercent, showSign, d)), isPercent, showSign, d)
              == Format(Some(x), isPercent, showSign, d)
    ensures Format(Some(x), isPercent, showSign, d) == Format(Some(y), isPercent, showSign, d) <==>
              Round(x, d) == Round(y, d)
  {
    ParseUndoesFormat(x, isPercent, showSign, d);
    ParseUndoesFormat(y, isPercent, showSign, d);
    RoundIsStable(Round(x, d), d);
    RoundIsStable(Round(y, d), d);
  }

  /** At most half a unit off, and even if exactly half a unit off. */
  predicate IsNearest(n: int, y: real) {
    var off := n as real - y;
    -0.5 <= off <= 0.5 && (off == 0.5 || off == -0.5 ==> n % 2 == 0)
  }

  lemma RoundIntIsNearest(y: real, n: int)
    ensures n == RoundInt(y) <==> IsNearest(n, y)
  {
    var below := y.Floor;
    assert below as real <= y < (below + 1) as real;
    if IsNearest(n, y) { assert n == below || n == below + 1; }
  }

  /** Rounding is to the nearest unit of the last place, and to the even one of two equally near. */
  lemma RoundIsNearest(x: real, d: nat, n: int)
    ensures n == Round(x, d) <==> IsNearest(n, Units(x, d))
  {
    RoundIntIsNearest(Units(x, d), n);
  }

  /** Counted from the right, every fourth character is a separator and no other is. */
  lemma {:induction false} GroupsHaveThreeDigits(digits: string, k: nat)
    requires AllDigits(digits) && k < |Group(digits)|
    ensures Group(digits)[|Group(digits)| - 1 - k] == ',' <==> k % 4 == 3
    decreases |digits|
  {
    if |digits| > 3 {
      var front, last := digits[..|digits| - 3], digits[|digits| - 3..];
      var text := Group(digits);
      assert text == Group(front) + "," + last && |last| == 3;
      if k < 3 {
        assert text[|text| - 1 - k] == last[2 - k] == digits[|digits| - 1 - k];
      } else if k > 3 {
        GroupsHaveThreeDigits(front, k - 4);
        assert text[|text| - 1 - k] == Group(front)[|Group(front)| - 1 - (k - 4)];
      }
    }
  }

  // ----- when the parser refuses -----

  lemma {:induction false} ReplaceKeepsDigit(s: string, c: char, t: string, x: char)
    requires IsDigit(x) && c != x && x !in t
    ensures x in Replace(s, c, t) <==> x in s
  {
    if s != [] { ReplaceKeepsDigit(s[1..], c, t, x); }
  }

  lemma {:induction false} StripKeepsDigit(s: string, x: char)
    requires IsDigit(x)
    ensures x in Strip(s) <==> x in s
    decreases |s|
  {
    if s != [] {
      if IsBlank(s[0]) {
        StripKeepsDigit(s[1..], x);
        assert s == [s[0]] + s[1..];
      }
      else if IsBlank(s[|s| - 1]) {
        StripKeepsDigit(s[..|s| - 1], x);
        assert s == s[..|s| - 1] + [s[|s| - 1]];
      }
    }
  }

  lemma {:induction false} KeptKeepsDigit(s: string, i: nat, dot: int, x: char)
    requires i <= |s| && IsDigit(x)
    ensures x in KeptUpTo(s, i, dot) <==> x in s[..i]
    ensures forall c <- KeptUpTo(s, i, dot) :: IsDigit(c) || c == '.'
  {
    if i > 0 {
      KeptKeepsDigit(s, i - 1, dot, x);
      assert s[..i] == s[..i - 1] + [s[i - 1]];
    }
  }

  lemma Ends(s: string)
    requires s != []
    ensures forall c :: c in s <==> c == s[0] || c in s[1..]
    ensures forall c :: c in s <==> c == s[|s| - 1] || c in s[..|s| - 1]
  {
    assert s == [s[0]] + s[1..];
    assert s == s[..|s| - 1] + [s[|s| - 1]];
  }

  lemma {:induction false} OnlyDotsVanish(s: string)
    ensures StripDots(s) == [] <==> forall c <- s :: c == '.'
    decreases |s|
  {
    if s != [] {
      Ends(s);
      assert s[0] in s;
      if s[0] == '.' { OnlyDotsVanish(s[1..]); }
      else if s[|s| - 1] == '.' { OnlyDotsVanish(s[..|s| - 1]); }
    }
  }

  lemma CleanedKeepsDigit(text: string, x: char)
    requires IsDigit(x)
    ensures x in Cleaned(Strip(text)) <==> x in text
  {
    StripKeepsDigit(text, x);
    ReplaceKeepsDigit(Strip(text), ' ', "", x);
    ReplaceKeepsDigit(Replace(Strip(text), ' ', ""), ',', ".", x);
  }

  /** The parser refuses a text exactly if it holds no digit; everything else is read as some number. */
  lemma ParseRefusesExactly(text: string)
    ensures Parse(text) == None <==> forall c <- text :: !IsDigit(c)
  {
    var normalized := Cleaned(Strip(text));
    var body := if Signed(normalized) then normalized[1..] else normalized;
    var kept := Kept(body);
    OnlyDotsVanish(kept);
    KeptKeepsDigit(body, |body|, LastDot(body), '0');
    assert (forall c <- kept :: c == '.') <==> (forall c <- kept :: !IsDigit(c));
    forall x | IsDigit(x) ensures (x in kept <==> x in text) && (x in normalized <==> x in text) {
      CleanedKeepsDigit(text, x);
      KeptKeepsDigit(body, |body|, LastDot(body), x);
      assert body[..|body|] == body;
      assert Signed(normalized) ==> normalized == [normalized[0]] + body;
    }
    assert (forall c <- kept :: !IsDigit(c)) <==> (forall c <- text :: !IsDigit(c));
  }

  // ----- decimals as users type them -----

  lemma DecimalIsNotStripped(a: string, b: string)
    requires AllDigits(a) && AllDigits(b) && a + b != ""
    ensures Strip(a + "," + b) == a + "," + b
  {
    var text := a + "," + b;
    assert text[0] == if a == "" then ',' else a[0];
    assert text[|text| - 1] == if b == "" then ',' else b[|b| - 1];
  }

  lemma DecimalIsCleaned(a: string, b: string)
    requires AllDigits(a) && AllDigits(b) && a + b != ""
    ensures var text := a + "," + b; Strip(text) == text && Cleaned(text) == a + "." + b
  {
    DecimalIsNotStripped(a, b);
    CleanedConcat(a + ",", b);
    CleanedConcat(a, ",");
    ThroughDigits(a);
    ThroughDigits(b);
    ThroughSeparators();
  }

  lemma DecimalIsKept(a: string, b: string)
    requires AllDigits(a) && AllDigits(b) && a + b != ""
    ensures StripDots(Kept(a + "." + b)) == if a == "" then b else if b == "" then a else a + "." + b
  {
    var s := a + "." + b;
    LastDotIs(s, |a|);
    KeptUpToPoint(s, a, b);
    if a == "" {
      assert s[1..] == b;
    } else if b == "" {
      assert s[..|s| - 1] == a;
    } else {
      assert s[0] == a[0] && s[|s| - 1] == b[|b| - 1];
    }
  }

  lemma DigitsDenote(s: string)
    requires AllDigits(s)
    ensures Denoted(s) == Num(s) as real
  {
    LastDotIs(s, -1);
  }

  lemma RatioIsWholeExactly(n: nat, m: nat)
    requires m > 1
    ensures Ratio(n, m) == n as real <==> n == 0
  {
    var q := Ratio(n, m);
    assert q * m as real == n as real;
    assert q == n as real ==> q * (m - 1) as real == 0.0;
  }

  /** The number meant by digits, a separator and digits. */
  function Meant(a: string, b: string): real { Num(a) as real + Ratio(Num(b), Pow10(|b|)) }

  lemma NoPlacesNoFraction()
    ensures Ratio(Num(""), Pow10(|""|)) == 0.0
  {
  }

  lemma LeadingDecimalIsRead(b: string)
    requires AllDigits(b) && b != ""
    ensures Parse("," + b) == Some(Num(b) as real)
  {
    assert "" + ("" + "." + b) == "" + "." + b && "" + "," + b == "," + b;
    assert "" + b == b;
    DecimalIsCleaned("", b);
    DecimalIsKept("", b);
    DigitsDenote(b);
    ParseParts("," + b, "", "" + "." + b, b, Num(b) as real);
  }

  lemma DigitsAndCommaAreRead(a: string)
    requires AllDigits(a) && a != ""
    ensures Parse(a + ",") == Some(Num(a) as real)
  {
    assert a + "," + "" == a + "," && "" + (a + ".") == a + "." && a + "." + "" == a + ".";
    DecimalIsCleaned(a, "");
    DecimalIsKept(a, "");
    DigitsDenote(a);
    ParseParts(a + ",", "", a + ".", a, Num(a) as real);
  }

  lemma InnerCommaIsRead(a: string, b: string)
    requires AllDigits(a) && AllDigits(b) && a != "" && b != ""
    ensures Parse(a + "," + b) == Some(Meant(a, b))
  {
    var s := a + "." + b;
    assert "" + s == s;
    DecimalIsCleaned(a, b);
    DecimalIsKept(a, b);
    PointSplits(a, b);
    ParseParts(a + "," + b, "", s, s, Meant(a, b));
  }

  lemma DecimalIsRead(a: string, b: string)
    requires AllDigits(a) && AllDigits(b) && a != ""
    ensures Parse(a + "," + b) == Some(Meant(a, b))
  {
    if b == "" {
      assert a + "," + b == a + ",";
      NoPlacesNoFraction();
      DigitsAndCommaAreRead(a);
    } else {
      InnerCommaIsRead(a, b);
    }
  }

  lemma LeadingDecimalIsMeant(b: string)
    requires AllDigits(b) && b != ""
    ensures Meant("", b) == Num(b) as real <==> Num(b) == 0
  {
    RatioIsWholeExactly(Num(b), Pow10(|b|));
  }

  /**
   * A typed decimal is read as meant exactly if a digit stands before the separator, or only zeros behind it: a leading
   * separator is dropped, so that a half typed as ",5" becomes five.
   */
  lemma DecimalIsReadAsMeantExactly(a: string, b: string)
    requires AllDigits(a) && AllDigits(b) && a + b != ""
    ensures Parse(a + "," + b) == Some(Meant(a, b)) <==> a != "" || Num(b) == 0
  {
    if a == "" {
      assert a + "," + b == "," + b && a + b == b;
      LeadingDecimalIsRead(b);
      LeadingDecimalIsMeant(b);
    } else {
      DecimalIsRead(a, b);
    }
  }
}
