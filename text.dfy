/**
 * Character classes and string operations the source takes from Rust's
 * standard library and the `regex` crate, restricted to ASCII: `\s`, `\d`,
 * `\w`, `to_lowercase`, `contains`, `trim`, `lines` and `parse::<u32>`.
 */
module Text {
  import opened Wrappers

  /** Unsigned 32-bit integers, the type of line and column numbers. */
  newtype u32 = x: int | 0 <= x < 0x1_0000_0000

  const U32_MAX: int := 0xFFFF_FFFF

  /** `\s` and `char::is_whitespace` on ASCII: space, tab, LF, VT, FF, CR. */
  predicate IsSpace(c: char) { c == ' ' || '\t' <= c <= '\r' }

  /** `\d` on ASCII. */
  predicate IsDigit(c: char) { '0' <= c <= '9' }

  /** `\w` on ASCII. */
  predicate IsWordChar(c: char) { 'a' <= c <= 'z' || 'A' <= c <= 'Z' || IsDigit(c) || c == '_' }

  /** `.` in the regex crate: anything but a line feed. */
  predicate NotNewline(c: char) { c != '\n' }

  /** `[^"]`. */
  predicate NotQuote(c: char) { c != '"' }

  /** `[^:]`. */
  predicate NotColon(c: char) { c != ':' }

  function LowerChar(c: char): char {
    if 'A' <= c <= 'Z' then (c as int + 32) as char else c
  }

  /** `to_lowercase`, folding only the ASCII capitals. */
  function Lower(s: string): string {
    seq(|s|, i requires 0 <= i < |s| => LowerChar(s[i]))
  }

  lemma LowerIdempotent(s: string)
    ensures Lower(Lower(s)) == Lower(s)
  {
  }

  /** Lower-casing commutes with taking a slice. */
  lemma LowerSlice(s: string, i: nat, j: nat)
    requires i <= j <= |s|
    ensures Lower(s)[i..j] == Lower(s[i..j])
  {
  }

  /** A slice of a lower-cased text is already lower case. */
  lemma LowerOfLowerSlice(s: string, i: nat, j: nat)
    requires i <= j <= |s|
    ensures Lower(Lower(s)[i..j]) == Lower(s)[i..j]
  {
    LowerSlice(s, i, j);
    LowerIdempotent(s[i..j]);
  }

  /** `str::contains`: `p` occurs somewhere in `s` (the empty pattern always does). */
  predicate Contains(s: string, p: string) {
    exists i :: 0 <= i <= |s| - |p| && OccursAt(s, p, i)
  }

  /** `p` occurs in `s` starting at index `i`. */
  predicate OccursAt(s: string, p: string, i: nat) {
    i + |p| <= |s| && s[i..i + |p|] == p
  }

  /** Where `a` occurs, `a + b` occurs exactly when `b` follows it. */
  lemma OccursConcat(s: string, a: string, b: string, i: nat)
    requires OccursAt(s, a, i)
    ensures OccursAt(s, a + b, i) <==> OccursAt(s, b, i + |a|)
  {
    if i + |a| + |b| <= |s| {
      assert s[i..i + |a| + |b|] == s[i..i + |a|] + s[i + |a|..i + |a| + |b|];
      if OccursAt(s, a + b, i) {
        assert s[i + |a|..i + |a| + |b|] == (a + b)[|a|..];
      }
    }
  }

  /** The characters of an occurrence are those of the pattern. */
  lemma OccursChars(s: string, p: string, i: nat)
    requires OccursAt(s, p, i)
    ensures forall k :: i <= k < i + |p| ==> s[k] == p[k - i]
  {
    forall k | i <= k < i + |p| ensures s[k] == p[k - i] { assert s[i..i + |p|][k - i] == s[k]; }
  }

  /** An occurrence lying within an occurrence of `t` is an occurrence in `t`. */
  lemma OccursWithin(s: string, t: string, a: nat, p: string, i: nat)
    requires OccursAt(s, t, a) && OccursAt(s, p, i) && a <= i && i + |p| <= a + |t|
    ensures OccursAt(t, p, i - a)
  {
    forall k | 0 <= k < |p| ensures t[i - a + k] == p[k] {
      assert s[a..a + |t|][i - a + k] == s[i..i + |p|][k];
    }
    assert t[i - a..i - a + |p|] == p;
  }

  /** A pattern does not occur at `i` when one of its characters differs from the text's. */
  lemma NotOccursAtChar(s: string, p: string, i: nat, j: nat)
    requires i <= j < i + |p| && (j < |s| ==> s[j] != p[j - i])
    ensures !OccursAt(s, p, i)
  {
    if i + |p| <= |s| {
      assert s[i..i + |p|][j - i] == s[j];
    }
  }

  /** An occurrence inside an occurrence is an occurrence. */
  lemma ContainsTransitive(s: string, p: string, q: string)
    requires Contains(s, p) && Contains(p, q)
    ensures Contains(s, q)
  {
    var i :| 0 <= i <= |s| - |p| && OccursAt(s, p, i);
    var j :| 0 <= j <= |p| - |q| && OccursAt(p, q, j);
    forall k | 0 <= k < |q| ensures s[i + j + k] == q[k] {
      assert q[k] == p[j + k] == s[i..i + |p|][j + k];
    }
    assert s[i + j..i + j + |q|] == q;
    assert OccursAt(s, q, i + j);
  }

  /** A pattern occurring at a known position. */
  lemma ContainsAt(s: string, p: string, i: nat)
    requires OccursAt(s, p, i)
    ensures Contains(s, p)
  {
  }

  /** A pattern matching the text character by character from `i` occurs in it. */
  lemma ContainsChars(s: string, p: string, i: nat)
    requires i + |p| <= |s| && forall k :: 0 <= k < |p| ==> s[i + k] == p[k]
    ensures Contains(s, p)
  {
    assert s[i..i + |p|] == p;
    ContainsAt(s, p, i);
  }

  /** An occurrence in a suffix is an occurrence in the whole. */
  lemma ContainsTail(s: string, i: nat, p: string)
    requires i <= |s| && Contains(s[i..], p)
    ensures Contains(s, p)
  {
    assert s[i..|s|] == s[i..];
    ContainsSlice(s, i, |s|, p);
  }

  /** A piece of a concatenation occurs in it. */
  lemma ContainsMiddle(a: string, b: string, c: string)
    ensures Contains(a + b + c, b)
  {
    assert (a + b + c)[|a|..|a| + |b|] == b;
    ContainsAt(a + b + c, b, |a|);
  }

  /** An occurrence survives appending text after it. */
  lemma ContainsExtend(s: string, t: string, p: string)
    requires Contains(s, p)
    ensures Contains(s + t, p)
  {
    var i :| 0 <= i <= |s| - |p| && OccursAt(s, p, i);
    assert (s + t)[i..i + |p|] == s[i..i + |p|];
    ContainsAt(s + t, p, i);
  }

  /** The end of a concatenation occurs in it. */
  lemma ContainsSuffix(s: string, p: string)
    ensures Contains(s + p, p)
  {
    assert (s + p)[|s|..|s| + |p|] == p;
    ContainsAt(s + p, p, |s|);
  }

  /** An occurrence in a slice is an occurrence in the whole. */
  lemma ContainsSlice(s: string, i: nat, j: nat, p: string)
    requires i <= j <= |s| && Contains(s[i..j], p)
    ensures Contains(s, p)
  {
    var k :| 0 <= k <= (j - i) - |p| && OccursAt(s[i..j], p, k);
    forall m | 0 <= m < |p| ensures s[i + k + m] == p[m] {
      assert p[m] == s[i..j][k + m];
    }
    assert s[i + k..i + k + |p|] == p;
    assert OccursAt(s, p, i + k);
  }

  /** A text none of whose characters is `c` does not contain a pattern with `c` at index `k`. */
  lemma NotContainsChar(s: string, p: string, c: char, k: nat)
    requires k < |p| && p[k] == c && forall i :: 0 <= i < |s| ==> s[i] != c
    ensures !Contains(s, p)
  {
    forall i | 0 <= i <= |s| - |p| ensures !OccursAt(s, p, i) {
      assert s[i..i + |p|][k] != c;
    }
  }

  /**
   * The end of the maximal run of characters in `inClass` that starts at `i`:
   * the greedy `[class]*` of the regex crate.
   */
  function RunEnd(s: string, i: nat, inClass: char -> bool): (j: nat)
    requires i <= |s|
    ensures i <= j <= |s|
    ensures j == |s| || !inClass(s[j])
    decreases |s| - i
  {
    if i == |s| || !inClass(s[i]) then i else RunEnd(s, i + 1, inClass)
  }

  /** Every character of the run from `i` lies in the class. */
  lemma {:induction false} RunEndInClass(s: string, i: nat, inClass: char -> bool)
    requires i <= |s|
    ensures forall k :: i <= k < RunEnd(s, i, inClass) ==> inClass(s[k])
    decreases |s| - i
  {
    if i < |s| && inClass(s[i]) {
      RunEndInClass(s, i + 1, inClass);
    }
  }

  /** A run of the class that ends at `j`, at the end or before a character outside it, is the run from `i`. */
  lemma {:induction false} RunEndAt(s: string, i: nat, j: nat, inClass: char -> bool)
    requires i <= j <= |s| && forall k :: i <= k < j ==> inClass(s[k])
    requires j == |s| || !inClass(s[j])
    ensures RunEnd(s, i, inClass) == j
    decreases j - i
  {
    if i < j {
      RunEndAt(s, i + 1, j, inClass);
    }
  }

  /** Each character of a slice of a run lies in the run's class. */
  lemma SliceInClass(s: string, i: nat, j: nat, inClass: char -> bool)
    requires i <= j <= |s| && forall k :: i <= k < j ==> inClass(s[k])
    ensures forall k :: 0 <= k < j - i ==> inClass(s[i..j][k])
  {
  }

  /** `str::trim_start` on ASCII whitespace. */
  function TrimStart(s: string): string
    decreases |s|
  {
    if |s| > 0 && IsSpace(s[0]) then TrimStart(s[1..]) else s
  }

  /** `str::trim_end` on ASCII whitespace. */
  function TrimEnd(s: string): string
    decreases |s|
  {
    if |s| > 0 && IsSpace(s[|s| - 1]) then TrimEnd(s[..|s| - 1]) else s
  }

  /** `str::trim`. */
  function Trim(s: string): string {
    TrimEnd(TrimStart(s))
  }

  /** Trimming the start drops exactly the leading whitespace. */
  lemma {:induction false} TrimStartSpec(s: string)
    ensures |TrimStart(s)| <= |s| && TrimStart(s) == s[|s| - |TrimStart(s)|..]
    ensures TrimStart(s) == [] || !IsSpace(TrimStart(s)[0])
    ensures forall k :: 0 <= k < |s| - |TrimStart(s)| ==> IsSpace(s[k])
    decreases |s|
  {
    if |s| > 0 && IsSpace(s[0]) {
      var t := s[1..];
      TrimStartSpec(t);
      var r := TrimStart(t);
      assert TrimStart(s) == r;
      var n := |s| - |r|;
      assert t[|t| - |r|..] == s[n..];
      forall k | 0 <= k < n ensures IsSpace(s[k]) {
        if k > 0 { assert s[k] == t[k - 1]; }
      }
    }
  }

  /** Trimming the end drops exactly the trailing whitespace. */
  lemma {:induction false} TrimEndSpec(s: string)
    ensures |TrimEnd(s)| <= |s| && TrimEnd(s) == s[..|TrimEnd(s)|]
    ensures TrimEnd(s) == [] || !IsSpace(TrimEnd(s)[|TrimEnd(s)| - 1])
    ensures forall k :: |TrimEnd(s)| <= k < |s| ==> IsSpace(s[k])
    decreases |s|
  {
    if |s| > 0 && IsSpace(s[|s| - 1]) {
      TrimEndSpec(s[..|s| - 1]);
      assert s[..|s| - 1][..|TrimEnd(s)|] == s[..|TrimEnd(s)|];
      forall k | |TrimEnd(s)| <= k < |s| - 1 ensures IsSpace(s[k]) {
        assert s[k] == s[..|s| - 1][k];
      }
    }
  }

  /** A trimmed text is a slice of it. */
  lemma TrimSlice(s: string) returns (i: nat)
    ensures i + |Trim(s)| <= |s| && Trim(s) == s[i..i + |Trim(s)|]
  {
    TrimStartSpec(s);
    TrimEndSpec(TrimStart(s));
    i := |s| - |TrimStart(s)|;
    assert TrimStart(s) == s[i..];
    assert Trim(s) == s[i..][..|Trim(s)|];
  }

  /** Drops one carriage return at the end of a line terminated by `\r\n`. */
  function StripCR(l: string): (r: string)
    ensures r == l || (|l| > 0 && l[|l| - 1] == '\r' && r == l[..|l| - 1])
  {
    if |l| > 0 && l[|l| - 1] == '\r' then l[..|l| - 1] else l
  }

  /**
   * `str::lines`: the pieces between line feeds, a `\r` before a `\n` dropped,
   * no final empty piece after a trailing line feed; a `\r` ending the last,
   * unterminated piece is kept.
   */
  function Lines(s: string): seq<string>
    decreases |s|
  {
    if s == [] then []
    else
      var j := RunEnd(s, 0, NotNewline);
      if j == |s| then [s]
      else [StripCR(s[..j])] + Lines(s[j + 1..])
  }

  /** An occurrence that ends before the first line feed lies in the first line. */
  lemma FirstLineCover(s: string, p: string, i: nat, j: nat)
    requires |p| > 0 && '\r' !in p && OccursAt(s, p, i)
    requires j < |s| && i + |p| <= j
    ensures Contains(StripCR(s[..j]), p)
  {
    var l := s[..j];
    assert l[i..i + |p|] == s[i..i + |p|];
    if |l| > 0 && l[|l| - 1] == '\r' {
      // the last character of the occurrence is not the carriage return
      assert s[i + |p| - 1] == p[|p| - 1];
      assert p[|p| - 1] != '\r';
      assert StripCR(l)[i..i + |p|] == l[i..i + |p|];
    }
    ContainsAt(StripCR(l), p, i);
  }

  /** An occurrence that ends after the line feed at `j` starts after it. */
  lemma RestCover(s: string, p: string, i: nat, j: nat)
    requires '\n' !in p && OccursAt(s, p, i)
    requires j < |s| && s[j] == '\n' && j < i + |p|
    ensures j < i && Contains(s[j + 1..], p)
  {
    forall k | i <= k < i + |p| ensures s[k] != '\n' {
      assert s[k] == s[i..i + |p|][k - i];
    }
    var t := s[j + 1..];
    assert t[i - (j + 1)..i - (j + 1) + |p|] == s[i..i + |p|];
    ContainsAt(t, p, i - (j + 1));
  }

  /**
   * Every pattern that holds neither `\n` nor `\r` and occurs in `s` occurs
   * in one of its lines.
   */
  lemma {:induction false} LinesCover(s: string, p: string)
    requires |p| > 0 && '\n' !in p && '\r' !in p && Contains(s, p)
    ensures exists k :: 0 <= k < |Lines(s)| && Contains(Lines(s)[k], p)
    decreases |s|
  {
    var i :| 0 <= i <= |s| - |p| && OccursAt(s, p, i);
    var j := RunEnd(s, 0, NotNewline);
    var ls := Lines(s);
    if j == |s| {
      assert ls[0] == s;
    } else if i + |p| <= j {
      FirstLineCover(s, p, i, j);
      assert ls[0] == StripCR(s[..j]);
    } else {
      RestCover(s, p, i, j);
      var t := s[j + 1..];
      LinesCover(t, p);
      var k :| 0 <= k < |Lines(t)| && Contains(Lines(t)[k], p);
      assert ls == [StripCR(s[..j])] + Lines(t);
      assert ls[k + 1] == Lines(t)[k];
    }
  }

  /** The first line of a non-empty text, and the lines after it. */
  lemma LinesUnfold(s: string)
    requires s != []
    ensures var j := RunEnd(s, 0, NotNewline);
      if j == |s| then Lines(s) == [s] else Lines(s) == [StripCR(s[..j])] + Lines(s[j + 1..])
  {
  }

  /** A prefix, with a final carriage return dropped, occurs in the text. */
  lemma PrefixContained(s: string, j: nat)
    requires j <= |s|
    ensures Contains(s, StripCR(s[..j]))
  {
    var l := StripCR(s[..j]);
    assert s[0..|l|] == l;
    ContainsAt(s, l, 0);
  }

  /** Every line of a text occurs in it. */
  lemma {:induction false} LineContained(s: string, k: nat)
    requires k < |Lines(s)|
    ensures Contains(s, Lines(s)[k])
    decreases |s|
  {
    var j := RunEnd(s, 0, NotNewline);
    if j == |s| {
      LinesUnfold(s);
      assert s[0..|s|] == s;
      ContainsAt(s, s, 0);
    } else if k == 0 {
      LinesUnfold(s);
      PrefixContained(s, j);
    } else {
      var t := s[j + 1..];
      LinesTail(s, k);
      LineContained(t, k - 1);
      ContainsTail(s, j + 1, Lines(t)[k - 1]);
    }
  }

  /** After the first line feed, the later lines are those of the rest of the text. */
  lemma LinesTail(s: string, k: nat)
    requires 0 < k < |Lines(s)|
    ensures RunEnd(s, 0, NotNewline) < |s|
    ensures var t := s[RunEnd(s, 0, NotNewline) + 1..]; k - 1 < |Lines(t)| && Lines(s)[k] == Lines(t)[k - 1]
  {
    LinesUnfold(s);
  }

  /** The value of a string of decimal digits, most significant first. */
  function DecValue(d: string): nat
    requires forall k :: 0 <= k < |d| ==> IsDigit(d[k])
  {
    if d == [] then 0 else DecValue(d[..|d| - 1]) * 10 + DigitValue(d[|d| - 1])
  }

  function DigitValue(c: char): nat
    requires IsDigit(c)
  {
    c as int - '0' as int
  }

  predicate AllDigits(d: string) {
    forall k :: 0 <= k < |d| ==> IsDigit(d[k])
  }

  /**
   * `str::parse::<u32>`: an optional `+` and at least one decimal digit,
   * nothing else, and a value that fits in 32 bits.
   */
  function ParseU32(s: string): (r: Option<u32>)
    ensures r.Some? <==>
      var d := if |s| > 0 && s[0] == '+' then s[1..] else s;
      |d| > 0 && AllDigits(d) && DecValue(d) <= U32_MAX
    ensures r.Some? ==>
      var d := if |s| > 0 && s[0] == '+' then s[1..] else s;
      r.value as int == DecValue(d)
  {
    var d := if |s| > 0 && s[0] == '+' then s[1..] else s;
    if |d| > 0 && AllDigits(d) && DecValue(d) <= U32_MAX then Some(DecValue(d) as u32) else None
  }

  function DigitChar(n: nat): char
    requires n < 10
  {
    ('0' as int + n) as char
  }

  /** `format!("{}", n)` for a natural number. */
  function NatToString(n: nat): (s: string)
    ensures |s| > 0 && AllDigits(s)
  {
    if n < 10 then [DigitChar(n)] else NatToString(n / 10) + [DigitChar(n % 10)]
  }

  /** Formatting and parsing agree: the decimal text of `n` reads back as `n`. */
  lemma {:induction false} NatToStringValue(n: nat)
    ensures DecValue(NatToString(n)) == n
  {
    var s := NatToString(n);
    if n >= 10 {
      NatToStringValue(n / 10);
      assert s[..|s| - 1] == NatToString(n / 10);
    }
  }

  /** Every number that fits in 32 bits survives printing and parsing. */
  lemma NatToStringRoundTrip(n: nat)
    requires n <= U32_MAX
    ensures ParseU32(NatToString(n)) == Some(n as u32)
  {
    NatToStringValue(n);
  }

  /** A digit run that overflows 32 bits does not parse. */
  lemma ParseU32Overflow(d: string)
    requires |d| > 0 && AllDigits(d) && DecValue(d) > U32_MAX
    ensures ParseU32(d) == None
  {
  }
}
