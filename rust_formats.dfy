/**
 * rustc diagnostics read back: an `error[E…]: message` line followed by a
 * ` --> file:line:col` line is classified as Rust with exactly those parts.
 */
module RustFormats {
  import opened Wrappers
  import opened Text
  import opened Pattern
  import opened Parser
  import opened ParserFormats

  /**
   * The head of a rustc error, `error[E<code>]: message`, the location line
   * ` --> file:line:col`, and whatever rustc prints after the column (the
   * source excerpt), whatever text stands for the numbers.
   */
  function RustText(code: string, message: string, file: string, l: string, c: string, rest: string): string {
    "error[E" + (code + ("]: " + (message + ("\n " + ("--> " + (file + (":" + (l + (":" + (c + rest))))))))))
  }

  /** The same with the line and column printed in decimal. */
  function RustLines(code: string, message: string, file: string, line: nat, col: nat, rest: string): string {
    RustText(code, message, file, NatToString(line), NatToString(col), rest)
  }

  /**
   * The first line of a rustc error laid out in `s`: `error[E`, the code
   * ending at `d`, `]: `, the message ending at `n`, a line feed, and the
   * space that indents the location line.
   */
  predicate RustHeadLayout(s: string, d: nat, n: nat, code: string, message: string) {
    d == 7 + |code| && n == d + 3 + |message|
    && OccursAt(s, "error[E", 0) && OccursAt(s, code, 7) && OccursAt(s, "]: ", d) && OccursAt(s, message, d + 3)
    && OccursAt(s, "\n ", n)
  }

  /**
   * The location line of a rustc error laid out in `s` from `p`: `--> `, the
   * file ending at `e`, `:`, the line ending at `d1`, `:`, the column ending
   * at `d2`, and the rest of the text.
   */
  predicate RustLocationLayout(s: string, p: nat, e: nat, d1: nat, d2: nat, file: string, l: string, c: string, rest: string) {
    e == p + 4 + |file| && d1 == e + 1 + |l| && d2 == d1 + 1 + |c| && |s| == d2 + |rest|
    && OccursAt(s, "--> ", p) && OccursAt(s, file, p + 4) && OccursAt(s, ":", e) && OccursAt(s, l, e + 1)
    && OccursAt(s, ":", d1) && OccursAt(s, c, d1 + 1) && OccursAt(s, rest, d2)
  }

  /**
   * The same location line with its separators read as characters, the
   * column ending before the end of the text or a character other than a
   * digit.
   */
  predicate RustLocationChars(s: string, p: nat, e: nat, d1: nat, d2: nat, file: string, l: string, c: string) {
    e == p + 4 + |file| && d1 == e + 1 + |l| && d2 == d1 + 1 + |c| && d2 <= |s|
    && OccursAt(s, "--> ", p) && OccursAt(s, file, p + 4) && s[e] == ':' && OccursAt(s, l, e + 1)
    && s[d1] == ':' && OccursAt(s, c, d1 + 1) && (d2 == |s| || !IsDigit(s[d2]))
  }

  /** Both lines of a rustc error laid out in `s`, the location line starting after the line break at `n`. */
  predicate RustLayout(s: string, d: nat, n: nat, e: nat, d1: nat, d2: nat,
                       code: string, message: string, file: string, l: string, c: string, rest: string) {
    RustHeadLayout(s, d, n, code, message) && RustLocationLayout(s, n + 2, e, d1, d2, file, l, c, rest)
  }

  /** A rustc error has the layout of its parts. */
  lemma RustTextLayout(code: string, message: string, file: string, l: string, c: string, rest: string)
    ensures var s := RustText(code, message, file, l, c, rest);
      var d := 7 + |code|; var n := d + 3 + |message|; var e := n + 2 + 4 + |file|; var d1 := e + 1 + |l|;
      RustLayout(s, d, n, e, d1, d1 + 1 + |c|, code, message, file, l, c, rest)
  {
    RustTextHead(code, message, file, l, c, rest);
    RustTextArrow(code, message, file, l, c, rest);
    RustTextNumbers(code, message, file, l, c, rest);
  }

  /** The first line of a rustc error. */
  lemma RustTextHead(code: string, message: string, file: string, l: string, c: string, rest: string)
    ensures var s := RustText(code, message, file, l, c, rest); var d := 7 + |code|;
      OccursAt(s, "error[E", 0) && OccursAt(s, code, 7) && OccursAt(s, "]: ", d) && OccursAt(s, message, d + 3)
  {
  }

  /** The line break, the arrow, the file and the colon after it in a rustc error. */
  lemma RustTextArrow(code: string, message: string, file: string, l: string, c: string, rest: string)
    ensures var s := RustText(code, message, file, l, c, rest); var n := 7 + |code| + 3 + |message|;
      OccursAt(s, "\n ", n) && OccursAt(s, "--> ", n + 2) && OccursAt(s, file, n + 2 + 4)
      && OccursAt(s, ":", n + 2 + 4 + |file|)
  {
  }

  /** The line, the column and what follows them in a rustc error. */
  lemma RustTextNumbers(code: string, message: string, file: string, l: string, c: string, rest: string)
    ensures var s := RustText(code, message, file, l, c, rest);
      var e := 7 + |code| + 3 + |message| + 2 + 4 + |file|; var d1 := e + 1 + |l|;
      OccursAt(s, l, e + 1) && OccursAt(s, ":", d1) && OccursAt(s, c, d1 + 1) && OccursAt(s, rest, d1 + 1 + |c|)
      && |s| == d1 + 1 + |c| + |rest|
  {
  }

  /** The error regex takes the message of the first line. */
  lemma RustErrorLayout(s: string, d: nat, n: nat, code: string, message: string)
    requires |code| > 0 && AllDigits(code) && |message| > 0 && '\n' !in message
    requires RustHeadLayout(s, d, n, code, message)
    ensures RustErrorAt(s, 0) == Some(message)
  {
    OccursChars(s, "]: ", d);
    OccursChars(s, "\n ", n);
    ClassRun(s, 7, code, IsDigit);
    RestOfLineAt(s, d + 3, message);
  }

  /** No `--> ` stands on the first line of a rustc error whose message has none. */
  lemma RustNoArrowBefore(s: string, d: nat, n: nat, code: string, message: string)
    requires AllDigits(code) && !Contains(message, "--> ")
    requires RustHeadLayout(s, d, n, code, message)
    ensures forall k :: 0 <= k < n + 2 ==> !OccursAt(s, "--> ", k)
  {
    OccursChars(s, "error[E", 0);
    OccursChars(s, code, 7);
    OccursChars(s, "]: ", d);
    OccursChars(s, "\n ", n);
    forall k | 0 <= k < n + 2 ensures !OccursAt(s, "--> ", k) {
      if k < d + 3 || n <= k {
        NotOccursAtChar(s, "--> ", k, k);
      } else if k + 4 <= n {
        if OccursAt(s, "--> ", k) {
          OccursWithin(s, message, d + 3, "--> ", k);
        }
      } else {
        NotOccursAtChar(s, "--> ", k, n);
      }
    }
  }

  /** The location regex matches at `p` when its three runs end where the layout puts them. */
  lemma RustLocationRuns(s: string, p: nat, e: nat, d1: nat, d2: nat)
    requires OccursAt(s, "--> ", p) && p + 4 < e < |s| && e + 1 < d1 < |s| && s[d1] == ':' && d1 + 1 < d2
    requires RunEnd(s, p + 4, NotColon) == e && RunEnd(s, e + 1, IsDigit) == d1 && RunEnd(s, d1 + 1, IsDigit) == d2
    ensures RustLocationAt(s, p) == Some(LocationCap(s[p + 4..e], s[e + 1..d1], s[d1 + 1..d2]))
  {
  }

  /** The location regex takes the file, line and column of the location line. */
  lemma RustLocationRead(s: string, p: nat, e: nat, d1: nat, d2: nat, file: string, l: string, c: string)
    requires |file| > 0 && ':' !in file && |l| > 0 && AllDigits(l) && |c| > 0 && AllDigits(c)
    requires RustLocationChars(s, p, e, d1, d2, file, l, c)
    ensures RustLocationAt(s, p) == Some(LocationCap(file, l, c))
  {
    assert forall k :: 0 <= k < |file| ==> NotColon(file[k]);
    ClassRun(s, p + 4, file, NotColon);
    ClassRun(s, e + 1, l, IsDigit);
    ClassRun(s, d1 + 1, c, IsDigit);
    RustLocationRuns(s, p, e, d1, d2);
  }

  /** The separators of a location line are the characters the layout puts there. */
  lemma RustLocationSeparators(s: string, p: nat, e: nat, d1: nat, d2: nat, file: string, l: string, c: string, rest: string)
    requires |rest| == 0 || !IsDigit(rest[0])
    requires RustLocationLayout(s, p, e, d1, d2, file, l, c, rest)
    ensures RustLocationChars(s, p, e, d1, d2, file, l, c)
  {
    OccursChars(s, ":", e);
    OccursChars(s, ":", d1);
    if |rest| > 0 {
      OccursChars(s, rest, d2);
    }
  }

  /** The location regex first matches at `p` when it matches there and no `--> ` stands before. */
  lemma RustLocationFirst(s: string, p: nat, loc: LocationCap)
    requires p <= |s| && RustLocationAt(s, p) == Some(loc)
    requires forall k :: 0 <= k < p ==> !OccursAt(s, "--> ", k)
    ensures Leftmost(s, RustLocationAt) == Some(loc)
  {
    LeftmostAt(s, p, RustLocationAt, loc);
  }

  /** Both regexes of the Rust extractor find their parts in a text laid out as a rustc error. */
  lemma RustLayoutRead(s: string, d: nat, n: nat, e: nat, d1: nat, d2: nat,
                       code: string, message: string, file: string, l: string, c: string, rest: string)
    requires |code| > 0 && AllDigits(code)
    requires |message| > 0 && '\n' !in message && !Contains(message, "--> ")
    requires |file| > 0 && ':' !in file && |l| > 0 && AllDigits(l) && |c| > 0 && AllDigits(c)
    requires |rest| == 0 || !IsDigit(rest[0])
    requires RustLayout(s, d, n, e, d1, d2, code, message, file, l, c, rest)
    ensures Leftmost(s, RustErrorAt) == Some(message)
    ensures Leftmost(s, RustLocationAt) == Some(LocationCap(file, l, c))
  {
    RustErrorLayout(s, d, n, code, message);
    LeftmostAt(s, 0, RustErrorAt, message);
    RustNoArrowBefore(s, d, n, code, message);
    RustLocationSeparators(s, n + 2, e, d1, d2, file, l, c, rest);
    RustLocationRead(s, n + 2, e, d1, d2, file, l, c);
    RustLocationFirst(s, n + 2, LocationCap(file, l, c));
  }

  /** Both regexes of the Rust extractor find their parts in a rustc error, whatever text stands for the numbers. */
  lemma RustTextRead(code: string, message: string, file: string, l: string, c: string, rest: string)
    requires |code| > 0 && AllDigits(code)
    requires |message| > 0 && '\n' !in message && !Contains(message, "--> ")
    requires |file| > 0 && ':' !in file && |l| > 0 && AllDigits(l) && |c| > 0 && AllDigits(c)
    requires |rest| == 0 || !IsDigit(rest[0])
    ensures Leftmost(RustText(code, message, file, l, c, rest), RustErrorAt) == Some(message)
    ensures Leftmost(RustText(code, message, file, l, c, rest), RustLocationAt) == Some(LocationCap(file, l, c))
  {
    var d := 7 + |code|; var n := d + 3 + |message|; var e := n + 2 + 4 + |file|; var d1 := e + 1 + |l|;
    RustTextLayout(code, message, file, l, c, rest);
    RustLayoutRead(RustText(code, message, file, l, c, rest), d, n, e, d1, d1 + 1 + |c|, code, message, file, l, c, rest);
  }

  /**
   * A rustc error with a numeric code, a one-line message without `--> ` in
   * it, a colon-free file and 32-bit numbers is classified as Rust with
   * exactly that file, line, column and message, the kind coming from the
   * message.
   */
  lemma RustLinesParse(code: string, message: string, file: string, line: nat, col: nat, rest: string)
    requires |code| > 0 && AllDigits(code)
    requires |message| > 0 && '\n' !in message && !Contains(message, "--> ")
    requires |file| > 0 && ':' !in file && line <= U32_MAX && col <= U32_MAX
    requires |rest| == 0 || !IsDigit(rest[0])
    ensures ParseRust(RustLines(code, message, file, line, col, rest)) ==
      Some(ParsedError(file, Some(line as u32), Some(col as u32), message, RustKind(message), Rust))
  {
    RustTextRead(code, message, file, NatToString(line), NatToString(col), rest);
    NatToStringRoundTrip(line);
    NatToStringRoundTrip(col);
  }
}
