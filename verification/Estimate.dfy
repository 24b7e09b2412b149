/** Token estimation for reservations, and the case-insensitive media probe (estimate.go:121-172). */
module Estimates {
  /** Runes below this take one byte in UTF-8. */
  const RUNE_SELF := 128

  function AsciiCount(s: seq<nat>): (n: nat)
    ensures n <= |s|
  {
    if s == [] then 0 else AsciiCount(s[..|s| - 1]) + (if s[|s| - 1] < RUNE_SELF then 1 else 0)
  }

  /** The estimate for so many ASCII and other runes. Neither count is negative, so Go's division agrees. */
  function Tokens(ascii: nat, other: nat): nat {
    var total := ascii / 4 + other * 2 / 3;
    if total == 0 && (ascii > 0 || other > 0) then 1 else total
  }

  function TextTokens(s: seq<nat>): nat { Tokens(AsciiCount(s), |s| - AsciiCount(s)) }

  method CountText(s: seq<nat>) returns (total: nat)
    ensures total == TextTokens(s)
  {
    var ascii, nonAscii := 0, 0;
    for i := 0 to |s|
      invariant ascii == AsciiCount(s[..i]) && nonAscii == i - ascii
    {
      assert s[..i + 1][..i] == s[..i];
      if s[i] < RUNE_SELF {
        ascii := ascii + 1;
      } else {
        nonAscii := nonAscii + 1;
      }
    }
    assert s[..|s|] == s;
    total := ascii / 4 + nonAscii * 2 / 3;
    if total == 0 && (ascii > 0 || nonAscii > 0) {
      return 1;
    }
  }

  lemma {:induction false} AsciiCountAppend(a: seq<nat>, b: seq<nat>)
    ensures AsciiCount(a + b) == AsciiCount(a) + AsciiCount(b)
    decreases |b|
  {
    if b == [] {
      assert a + b == a;
    } else {
      assert (a + b)[..|a + b| - 1] == a + b[..|b| - 1];
      AsciiCountAppend(a, b[..|b| - 1]);
    }
  }

  lemma TokensAppend(x: nat, u: nat, y: nat, v: nat)
    requires x + u > 0 && y + v > 0
    ensures -1 <= Tokens(x + y, u + v) - Tokens(x, u) - Tokens(y, v) <= 2
    ensures Tokens(x + y, u + v) >= Tokens(x, u)
  {
  }

  /** Estimating a text in two non-empty pieces is off by at most one token down and two up, and a longer text is
      never estimated lower. */
  lemma EstimateIsNearlyAdditive(a: seq<nat>, b: seq<nat>)
    requires a != [] && b != []
    ensures -1 <= TextTokens(a + b) - TextTokens(a) - TextTokens(b) <= 2
    ensures TextTokens(a + b) >= TextTokens(a)
  {
    hide Tokens;
    AsciiCountAppend(a, b);
    TokensAppend(AsciiCount(a), |a| - AsciiCount(a), AsciiCount(b), |b| - AsciiCount(b));
  }

  /** The positions of the ASCII characters. */
  function AsciiAt(s: seq<nat>): set<nat> { set i: nat | i < |s| && s[i] < 128 }

  lemma {:induction false} AsciiCountCounts(s: seq<nat>)
    ensures AsciiCount(s) == |AsciiAt(s)|
  {
    if s == [] {
      assert AsciiAt(s) == {};
    } else {
      var n: nat := |s| - 1;
      AsciiCountCounts(s[..n]);
      assert AsciiAt(s) == if s[n] < 128 then AsciiAt(s[..n]) + {n} else AsciiAt(s[..n]);
    }
  }

  lemma TokensAre(ascii: nat, other: nat, quarters: nat, thirds: nat)
    requires 4 * quarters <= ascii < 4 * quarters + 4 && 3 * thirds <= 2 * other < 3 * thirds + 3
    ensures Tokens(ascii, other) == if ascii + other > 0 && quarters + thirds == 0 then 1 else quarters + thirds
  {
  }

  /** Four ASCII characters make a token, and two thirds of one any other, each rounded down; text that comes to nothing
      counts one. */
  lemma TextTokensAre(s: seq<nat>, quarters: nat, thirds: nat)
    requires 4 * quarters <= |AsciiAt(s)| < 4 * quarters + 4
    requires 3 * thirds <= 2 * (|s| - |AsciiAt(s)|) < 3 * thirds + 3
    ensures TextTokens(s) == if s != [] && quarters + thirds == 0 then 1 else quarters + thirds
  {
    hide AsciiCount, AsciiAt, Tokens;
    AsciiCountCounts(s);
    TokensAre(AsciiCount(s), |s| - AsciiCount(s), quarters, thirds);
  }

  // ---------- the case-insensitive probe ----------

  /** ASCII case folding of one byte. */
  function Fold(c: char): char { if 'A' <= c <= 'Z' then c + ('a' - 'A') else c }

  /** The needle occurs at position `i`, up to ASCII case. */
  ghost predicate OccursAt(haystack: string, needle: string, i: nat) {
    i + |needle| <= |haystack| && forall j | 0 <= j < |needle| :: Fold(haystack[i + j]) == Fold(needle[j])
  }

  method ContainsFold(haystack: string, needle: string) returns (found: bool)
    ensures found <==> exists i: nat :: OccursAt(haystack, needle, i)
  {
    if |needle| > |haystack| {
      return false;
    }
    var i := 0;
    while i + |needle| <= |haystack|
      invariant forall k: nat | k < i :: !OccursAt(haystack, needle, k)
    {
      var matches := true;
      var j := 0;
      while j < |needle|
        invariant 0 <= j <= |needle|
        invariant matches && forall k | 0 <= k < j :: Fold(haystack[i + k]) == Fold(needle[k])
      {
        var a, b := haystack[i + j], needle[j];
        if 'A' <= a <= 'Z' {
          a := a + ('a' - 'A');
        }
        if 'A' <= b <= 'Z' {
          b := b + ('a' - 'A');
        }
        if a != b {
          matches := false;
          break;
        }
        j := j + 1;
      }
      if matches {
        assert OccursAt(haystack, needle, i);
        return true;
      }
      i := i + 1;
    }
    return false;
  }

  function FoldAll(s: string): (r: string)
    ensures |r| == |s| && forall i | 0 <= i < |s| :: r[i] == Fold(s[i])
  {
    if s == [] then [] else [Fold(s[0])] + FoldAll(s[1..])
  }

  lemma OccursInSlice(haystack: string, needle: string, i: nat)
    ensures OccursAt(haystack, needle, i)
            <==> i + |needle| <= |haystack| && FoldAll(haystack)[i..i + |needle|] == FoldAll(needle)
  {
    hide Fold;
    if i + |needle| <= |haystack| {
      var h, n := FoldAll(haystack), FoldAll(needle);
      hide FoldAll;
      if h[i..i + |needle|] == n {
        forall j | 0 <= j < |needle| ensures Fold(haystack[i + j]) == Fold(needle[j]) {
          assert h[i..i + |needle|][j] == n[j];
        }
      }
    }
  }

  lemma FoldTwice(s: string)
    ensures FoldAll(FoldAll(s)) == FoldAll(s)
  {
    FoldIsIdempotent();
    hide Fold;
    var r := FoldAll(s);
    assert FoldAll(r) == r by {
      assert forall i | 0 <= i < |s| :: FoldAll(r)[i] == Fold(Fold(s[i]));
    }
  }

  /** Folding takes exactly the capital and the small form of a Latin letter for one. */
  lemma FoldsLatinLetters(c: char, d: char)
    ensures Fold(c) == Fold(d)
       <==> || c == d
            || ('A' <= c <= 'Z' && d as int == c as int + 32)
            || ('A' <= d <= 'Z' && c as int == d as int + 32)
  {
  }

  lemma FoldIsIdempotent()
    ensures forall c :: Fold(Fold(c)) == Fold(c)
  {
  }

  /** Occurring up to case is occurring in the folded text, and it does not depend on the case of either side. */
  lemma OccursInFoldedText(haystack: string, needle: string, i: nat)
    ensures OccursAt(haystack, needle, i)
            <==> i + |needle| <= |haystack| && FoldAll(haystack)[i..i + |needle|] == FoldAll(needle)
    ensures OccursAt(haystack, needle, i) <==> OccursAt(FoldAll(haystack), FoldAll(needle), i)
  {
    hide OccursAt, Fold, FoldAll;
    OccursInSlice(haystack, needle, i);
    OccursInSlice(FoldAll(haystack), FoldAll(needle), i);
    FoldTwice(haystack);
    FoldTwice(needle);
  }
}
