/** String helpers that the dashboard components rely on: ASCII case
    mapping (the model of `toLowerCase` / `toUpperCase`), substring search
    (`String.prototype.includes`), whitespace trimming (`trim`) and the
    separator join (`Array.prototype.join`). */
module Text {

  /* ---------------- case mapping ---------------- */

  predicate IsAsciiUpper(c: char) { 'A' <= c <= 'Z' }

  predicate IsAsciiLower(c: char) { 'a' <= c <= 'z' }

  /** Lower-cases one ASCII capital; every other character is kept. */
  function LowerChar(c: char): (r: char)
    ensures !IsAsciiUpper(r)
    ensures IsAsciiUpper(c) ==> IsAsciiLower(r)
    ensures !IsAsciiUpper(c) ==> r == c
  {
    if IsAsciiUpper(c) then (c as int + 32) as char else c
  }

  /** Upper-cases one ASCII small letter; every other character is kept. */
  function UpperChar(c: char): (r: char)
    ensures !IsAsciiLower(r)
    ensures IsAsciiLower(c) ==> IsAsciiUpper(r)
    ensures !IsAsciiLower(c) ==> r == c
  {
    if IsAsciiLower(c) then (c as int - 32) as char else c
  }

  function ToLower(s: string): (r: string)
    ensures |r| == |s|
    ensures forall i :: 0 <= i < |s| ==> r[i] == LowerChar(s[i])
  {
    seq(|s|, i requires 0 <= i < |s| => LowerChar(s[i]))
  }

  function ToUpper(s: string): (r: string)
    ensures |r| == |s|
    ensures forall i :: 0 <= i < |s| ==> r[i] == UpperChar(s[i])
  {
    seq(|s|, i requires 0 <= i < |s| => UpperChar(s[i]))
  }

  /** Lowering is idempotent: a lowered string has no capitals left. */
  lemma ToLowerIdempotent(s: string)
    ensures ToLower(ToLower(s)) == ToLower(s)
    ensures forall i :: 0 <= i < |s| ==> !IsAsciiUpper(ToLower(s)[i])
  {
    assert forall i :: 0 <= i < |s| ==> LowerChar(LowerChar(s[i])) == LowerChar(s[i]);
  }

  /** Two strings equal up to ASCII letter case. */
  predicate SameIgnoringCase(a: string, b: string) { ToLower(a) == ToLower(b) }

  /** A character that is no ASCII letter survives case-insensitive equality
      unchanged: if it lowers to the same thing as `d`, it is `d`. */
  lemma NonLetterFixed(c: char, d: char)
    requires !IsAsciiUpper(c) && !IsAsciiLower(c)
    requires LowerChar(c) == LowerChar(d)
    ensures c == d
  {
  }

  /* ---------------- substring search ---------------- */

  /** `sub` occurs in `s` starting at index `i`. */
  predicate OccursAt(s: string, sub: string, i: int)
  {
    0 <= i && i + |sub| <= |s| && s[i..i + |sub|] == sub
  }

  /** The model of `s.includes(sub)`: scan `s` left to right for a prefix
      equal to `sub`. The empty string is included in every string. */
  function Includes(s: string, sub: string): bool
    decreases |s|
  {
    if |sub| > |s| then false
    else if s[..|sub|] == sub then true
    else Includes(s[1..], sub)
  }

  /** The scan agrees with the declarative meaning of "is a substring". */
  lemma {:induction false} IncludesIff(s: string, sub: string)
    ensures Includes(s, sub) <==> exists i :: OccursAt(s, sub, i)
    decreases |s|
  {
    if |sub| > |s| {
      assert forall i :: !OccursAt(s, sub, i);
    } else if s[..|sub|] == sub {
      assert OccursAt(s, sub, 0);
    } else {
      IncludesIff(s[1..], sub);
      forall i | OccursAt(s, sub, i) ensures OccursAt(s[1..], sub, i - 1) {
        assert i != 0;
        assert s[1..][i - 1..i - 1 + |sub|] == s[i..i + |sub|];
      }
      forall j | OccursAt(s[1..], sub, j) ensures OccursAt(s, sub, j + 1) {
        assert s[1..][j..j + |sub|] == s[j + 1..j + 1 + |sub|];
      }
    }
  }

  /** Occurrence witness, for callers that hold one. */
  lemma IncludesAt(s: string, sub: string, i: int)
    requires OccursAt(s, sub, i)
    ensures Includes(s, sub)
  {
    IncludesIff(s, sub);
  }

  /** A string none of whose characters starts `sub` does not include it. */
  lemma MissingFirstChar(s: string, sub: string)
    requires |sub| > 0
    requires forall i :: 0 <= i < |s| ==> s[i] != sub[0]
    ensures !Includes(s, sub)
  {
    IncludesIff(s, sub);
  }

  /** A keyword without ASCII letters is found in `a` exactly when it is
      found in any `b` that differs from `a` only in ASCII letter case. */
  lemma {:induction false} IncludesCaseFreeKeyword(a: string, b: string, k: string)
    requires SameIgnoringCase(a, b)
    requires forall j :: 0 <= j < |k| ==> !IsAsciiUpper(k[j]) && !IsAsciiLower(k[j])
    ensures Includes(a, k) <==> Includes(b, k)
  {
    IncludesIff(a, k);
    IncludesIff(b, k);
    assert |a| == |ToLower(a)| == |ToLower(b)| == |b|;
    forall i | OccursAt(a, k, i) ensures OccursAt(b, k, i) {
      forall j | 0 <= j < |k| ensures b[i + j] == k[j] {
        assert a[i + j] == a[i..i + |k|][j];
        assert ToLower(a)[i + j] == ToLower(b)[i + j];
        NonLetterFixed(a[i + j], b[i + j]);
      }
      assert b[i..i + |k|] == k;
    }
    forall i | OccursAt(b, k, i) ensures OccursAt(a, k, i) {
      forall j | 0 <= j < |k| ensures a[i + j] == k[j] {
        assert b[i + j] == b[i..i + |k|][j];
        assert ToLower(b)[i + j] == ToLower(a)[i + j];
        NonLetterFixed(b[i + j], a[i + j]);
      }
      assert a[i..i + |k|] == k;
    }
  }

  /* ---------------- trimming ---------------- */

  /** ECMAScript WhiteSpace and LineTerminator code points: the characters
      `String.prototype.trim` removes (TAB, LF, VT, FF, CR, SPACE, NBSP,
      OGHAM SPACE MARK, EN QUAD .. HAIR SPACE, LS, PS, NNBSP, MMSP,
      IDEOGRAPHIC SPACE, BOM). */
  predicate IsJsWhitespace(c: char)
  {
    var n := c as int;
    (0x09 <= n <= 0x0D) || n == 0x20 || n == 0xA0 || n == 0x1680
    || (0x2000 <= n <= 0x200A) || n == 0x2028 || n == 0x2029
    || n == 0x202F || n == 0x205F || n == 0x3000 || n == 0xFEFF
  }

  /** Every character of `s` is whitespace (vacuously true of ""). */
  predicate IsBlank(s: string)
  {
    forall i :: 0 <= i < |s| ==> IsJsWhitespace(s[i])
  }

  /** Length of the leading whitespace run. */
  function LeadingBlank(s: string): (n: nat)
    ensures n <= |s|
    ensures IsBlank(s[..n])
    ensures n < |s| ==> !IsJsWhitespace(s[n])
  {
    if |s| > 0 && IsJsWhitespace(s[0]) then
      var m := LeadingBlank(s[1..]);
      assert s[1..][..m] == s[1..m + 1];
      1 + m
    else 0
  }

  /** Length of the trailing whitespace run. */
  function TrailingBlank(s: string): (n: nat)
    ensures n <= |s|
    ensures IsBlank(s[|s| - n..])
    ensures n < |s| ==> !IsJsWhitespace(s[|s| - 1 - n])
  {
    if |s| > 0 && IsJsWhitespace(s[|s| - 1]) then
      var m := TrailingBlank(s[..|s| - 1]);
      assert s[..|s| - 1][|s| - 1 - m..] == s[|s| - 1 - m..|s| - 1];
      1 + m
    else 0
  }

  /** The model of `s.trim()`: the slice of `s` left after dropping the
      leading and trailing whitespace runs. */
  function Trim(s: string): (r: string)
    ensures r == [] <==> IsBlank(s)
    ensures r != [] ==> !IsJsWhitespace(r[0]) && !IsJsWhitespace(r[|r| - 1])
    ensures exists lo :: OccursAt(s, r, lo) && IsBlank(s[..lo]) && IsBlank(s[lo + |r|..])
  {
    var lo := LeadingBlank(s);
    if lo == |s| then
      assert s[..lo] == s;
      assert s[lo..lo] == [];
      []
    else
      var hi := |s| - TrailingBlank(s);
      assert !IsBlank(s) by { assert !IsJsWhitespace(s[lo]); }
      assert lo < hi;
      s[lo..hi]
  }

  /** Trimming twice trims nothing more. */
  lemma TrimIdempotent(s: string)
    ensures Trim(Trim(s)) == Trim(s)
  {
    var r := Trim(s);
    if r != [] {
      assert LeadingBlank(r) == 0;
      assert TrailingBlank(r) == 0;
      assert r[0..|r|] == r;
    }
  }

  /* ---------------- joining ---------------- */

  /** The model of `xs.join(sep)`: the items in order, `sep` between
      neighbours; no items give "", one item gives itself. */
  function Join(xs: seq<string>, sep: string): string
  {
    if |xs| == 0 then ""
    else if |xs| == 1 then xs[0]
    else xs[0] + sep + Join(xs[1..], sep)
  }

  /** Total length of the items. */
  function TotalLength(xs: seq<string>): nat
  {
    if |xs| == 0 then 0 else |xs[0]| + TotalLength(xs[1..])
  }

  /** Joining two non-empty lists equals joining each and putting one
      separator between the results. */
  lemma {:induction false} JoinAppend(a: seq<string>, b: seq<string>, sep: string)
    requires |a| > 0 && |b| > 0
    ensures Join(a + b, sep) == Join(a, sep) + sep + Join(b, sep)
    decreases |a|
  {
    if |a| == 1 {
      assert (a + b)[1..] == b;
    } else {
      assert (a + b)[1..] == a[1..] + b;
      JoinAppend(a[1..], b, sep);
    }
  }

  /** The joined text is exactly the items plus one separator per gap. */
  lemma {:induction false} JoinLength(xs: seq<string>, sep: string)
    requires |xs| > 0
    ensures |Join(xs, sep)| == TotalLength(xs) + (|xs| - 1) * |sep|
    decreases |xs|
  {
    if |xs| > 1 {
      JoinLength(xs[1..], sep);
    }
  }

  /** The first item starts the joined text and the last item ends it. */
  lemma {:induction false} JoinEnds(xs: seq<string>, sep: string)
    requires |xs| > 0
    ensures xs[0] <= Join(xs, sep)
    ensures |xs[|xs| - 1]| <= |Join(xs, sep)|
    ensures Join(xs, sep)[|Join(xs, sep)| - |xs[|xs| - 1]|..] == xs[|xs| - 1]
    decreases |xs|
  {
    if |xs| > 1 {
      JoinEnds(xs[1..], sep);
      var rest := Join(xs[1..], sep);
      assert Join(xs, sep) == xs[0] + sep + rest;
      assert xs[1..][|xs[1..]| - 1] == xs[|xs| - 1];
    }
  }

  /** The text the cards hand to speech synthesis: the sentences joined by
      ". ". No sentences give "", one sentence gives itself. */
  function SpokenText(sentences: seq<string>): (r: string)
    ensures |sentences| == 0 ==> r == ""
    ensures |sentences| > 0 ==> sentences[0] <= r
    ensures |sentences| > 0 ==> |r| == TotalLength(sentences) + 2 * (|sentences| - 1)
  {
    if |sentences| == 0 then ""
    else
      JoinEnds(sentences, ". ");
      JoinLength(sentences, ". ");
      Join(sentences, ". ")
  }

  /** Adding sentences adds them at the end of the spoken text. */
  lemma SpokenTextAppend(a: seq<string>, b: seq<string>)
    requires |a| > 0 && |b| > 0
    ensures SpokenText(a + b) == SpokenText(a) + ". " + SpokenText(b)
  {
    JoinAppend(a, b, ". ");
  }
}
