/** Strings as the source handles them: decimal rendering, lower-casing, trimming and the SQL LIKE operator. */
module Text {

  // ----- decimal rendering of naturals -----

  function DigitChar(d: nat): char
    requires d < 10
  {
    '0' + d as char
  }

  function Dec(n: nat): (s: string)
    ensures s != [] && forall c <- s :: '0' <= c <= '9'
  {
    if n < 10 then [DigitChar(n)] else Dec(n / 10) + [DigitChar(n % 10)]
  }

  // ----- ASCII lower-casing and trimming -----

  function LowerChar(c: char): char {
    if 'A' <= c <= 'Z' then (c as int + 32) as char else c
  }

  /** Lower-cased text has no upper-case ASCII letter left, so it cannot contain the marker "Invoice #". */
  function Lower(s: string): (r: string)
    ensures |r| == |s|
    ensures forall c <- r :: !('A' <= c <= 'Z')
  {
    if s == [] then [] else [LowerChar(s[0])] + Lower(s[1..])
  }

  /** The characters that Python's `str.strip` removes: the ASCII blanks and separators, and Unicode's other spaces. */
  predicate IsBlank(c: char) {
    var code := c as int;
    || 9 <= code <= 13 || 28 <= code <= 32 || code in {0x85, 0xa0, 0x1680, 0x2028, 0x2029, 0x202f, 0x205f, 0x3000}
    || 0x2000 <= code <= 0x200a
  }

  function Strip(s: string): (r: string)
    ensures r != [] ==> !IsBlank(r[0]) && !IsBlank(r[|r| - 1])
    decreases |s|
  {
    if s == [] then []
    else if IsBlank(s[0]) then Strip(s[1..])
    else if IsBlank(s[|s| - 1]) then Strip(s[..|s| - 1])
    else s
  }

  ghost predicate Blank(s: string) { forall c <- s :: IsBlank(c) }

  ghost predicate Wraps(s: string, before: string, word: string, behind: string) {
    s == before + word + behind && Blank(before) && Blank(behind)
  }

  lemma FirstIsBlank(s: string, before: string, word: string, behind: string)
    requires s != [] && IsBlank(s[0]) && Wraps(s[1..], before, word, behind)
    ensures Wraps(s, [s[0]] + before, word, behind)
  {
  }

  lemma LastIsBlank(s: string, before: string, word: string, behind: string)
    requires s != [] && IsBlank(s[|s| - 1]) && Wraps(s[..|s| - 1], before, word, behind)
    ensures Wraps(s, before, word, behind + [s[|s| - 1]])
  {
  }

  /** Only blanks are stripped. */
  lemma {:induction false} StripUnwraps(s: string) returns (before: string, behind: string)
    ensures Wraps(s, before, Strip(s), behind)
    decreases |s|
  {
    before, behind := [], [];
    if s != [] && IsBlank(s[0]) {
      var a, b := StripUnwraps(s[1..]);
      FirstIsBlank(s, a, Strip(s), b);
      before, behind := [s[0]] + a, b;
    } else if s != [] && IsBlank(s[|s| - 1]) {
      var a, b := StripUnwraps(s[..|s| - 1]);
      LastIsBlank(s, a, Strip(s), b);
      before, behind := a, b + [s[|s| - 1]];
    }
  }

  /** And all blanks are. */
  lemma {:induction false} UnwrapsTo(s: string, before: string, word: string, behind: string)
    requires Wraps(s, before, word, behind) && word != [] && !IsBlank(word[0]) && !IsBlank(word[|word| - 1])
    ensures Strip(s) == word
    decreases |s|
  {
    if before != [] {
      assert s[0] == before[0] && s[1..] == before[1..] + word + behind;
      UnwrapsTo(s[1..], before[1..], word, behind);
    } else if behind != [] {
      var last, rest := behind[|behind| - 1], behind[..|behind| - 1];
      assert behind == rest + [last];
      assert s == (word + rest) + [last];
      UnwrapsTo(word + rest, before, word, rest);
    } else {
      assert s == word;
    }
  }

  predicate SameLetter(c: char, small: char) {
    c == small || ('A' <= c <= 'Z' && c as int + 32 == small as int)
  }

  /** Equal but for the case of ASCII letters. */
  predicate SameWord(s: string, word: string) {
    |s| == |word| && forall i :: 0 <= i < |s| ==> SameLetter(s[i], word[i])
  }

  /** A word in small letters. */
  predicate IsSmall(word: string) {
    word != [] && forall i :: 0 <= i < |word| ==> 'a' <= word[i] <= 'z' || word[i] == '_'
  }

  lemma {:induction false} LowerAt(s: string)
    ensures forall i :: 0 <= i < |s| ==> Lower(s)[i] == LowerChar(s[i])
  {
    if s != [] { LowerAt(s[1..]); }
  }

  lemma LowerIs(s: string, word: string)
    requires IsSmall(word)
    ensures Lower(s) == word <==> SameWord(s, word)
  {
    LowerAt(s);
    if |s| == |word| {
      assert forall i :: 0 <= i < |s| ==> (Lower(s)[i] == word[i] <==> SameLetter(s[i], word[i]));
    }
  }

  /** The text is that word, in any case and between any blanks. */
  ghost predicate Says(s: string, word: string) {
    exists before, m, behind :: Wraps(s, before, m, behind) && SameWord(m, word)
  }

  lemma NormalisedSays(s: string, word: string)
    requires IsSmall(word)
    ensures Lower(Strip(s)) == word <==> Says(s, word)
  {
    LowerIs(Strip(s), word);
    if SameWord(Strip(s), word) {
      var before, behind := StripUnwraps(s);
    } else if before, m, behind :| Wraps(s, before, m, behind) && SameWord(m, word) {
      UnwrapsTo(s, before, m, behind);
    }
  }

  // ----- LIKE -----

  /**
   * Pattern matching of section 9.7.1 of the PostgreSQL 15 manual: `%` matches any run of
   * characters, `_` any single character, and a backslash takes the next pattern character literally.
   */
  predicate Like(t: string, p: string)
    decreases |p|, |t|
  {
    if p == [] then t == []
    else if p[0] == '%' then Like(t, p[1..]) || (t != [] && Like(t[1..], p))
    else if p[0] == '\\' && |p| > 1 then t != [] && t[0] == p[1] && Like(t[1..], p[2..])
    else t != [] && (p[0] == '_' || p[0] == t[0]) && Like(t[1..], p[1..])
  }

  /** A pattern fragment in which only the single-character wildcard is special. */
  predicate Plain(lit: string) {
    '%' !in lit && '\\' !in lit
  }

  /** `lit` occurs in `t` at offset `k`, its underscores standing for any character. */
  predicate MatchesAt(t: string, k: nat, lit: string) {
    k + |lit| <= |t| && forall j :: 0 <= j < |lit| ==> lit[j] == '_' || lit[j] == t[k + j]
  }

  lemma {:induction false} LikeAnything(t: string)
    ensures Like(t, "%")
    decreases |t|
  {
    if t == [] {
      assert "%"[1..] == "";
      assert Like(t, "");
    } else {
      LikeAnything(t[1..]);
    }
  }

  /** A plain fragment followed by `%` is an anchored prefix test. */
  lemma {:induction false} LikePrefix(t: string, lit: string)
    requires Plain(lit)
    ensures Like(t, lit + "%") <==> MatchesAt(t, 0, lit)
    decreases |lit|
  {
    if lit == [] {
      assert lit + "%" == "%";
      LikeAnything(t);
    } else {
      var p := lit + "%";
      assert p[0] == lit[0] && p[1..] == lit[1..] + "%";
      assert lit[0] in lit;
      if t != [] {
        LikePrefix(t[1..], lit[1..]);
        assert MatchesAt(t, 0, lit) <==> (lit[0] == '_' || lit[0] == t[0]) && MatchesAt(t[1..], 0, lit[1..]) by {
          if (lit[0] == '_' || lit[0] == t[0]) && MatchesAt(t[1..], 0, lit[1..]) {
            forall j | 0 <= j < |lit| ensures lit[j] == '_' || lit[j] == t[j] {
              if j > 0 { assert lit[1..][j - 1] == lit[j] && t[1..][j - 1] == t[j]; }
            }
          }
          if MatchesAt(t, 0, lit) {
            forall j | 0 <= j < |lit[1..]| ensures lit[1..][j] == '_' || lit[1..][j] == t[1..][j] {
              assert lit[1..][j] == lit[j + 1] && t[1..][j] == t[j + 1];
            }
          }
        }
      }
    }
  }

  /** `LIKE '%lit%'` holds exactly when `lit` occurs somewhere, underscores matching anything. */
  lemma {:induction false} LikeContains(t: string, lit: string)
    requires Plain(lit)
    ensures Like(t, "%" + lit + "%") <==> exists k: nat :: MatchesAt(t, k, lit)
    decreases |t|
  {
    var p := "%" + lit + "%";
    assert p[1..] == lit + "%";
    LikePrefix(t, lit);
    if t == [] {
      assert forall k: nat :: MatchesAt(t, k, lit) ==> k == 0;
    } else {
      LikeContains(t[1..], lit);
      forall k: nat ensures MatchesAt(t, k + 1, lit) <==> MatchesAt(t[1..], k, lit) {
        if MatchesAt(t, k + 1, lit) {
          forall j | 0 <= j < |lit| ensures lit[j] == '_' || lit[j] == t[1..][k + j] {
            assert t[1..][k + j] == t[k + 1 + j];
          }
        }
      }
      if exists k: nat :: MatchesAt(t, k, lit) {
        var k: nat :| MatchesAt(t, k, lit);
        if k > 0 { assert MatchesAt(t[1..], k - 1, lit); }
      }
      if exists k: nat :: MatchesAt(t[1..], k, lit) {
        var k: nat :| MatchesAt(t[1..], k, lit);
        assert MatchesAt(t, k + 1, lit);
      }
    }
  }
}
