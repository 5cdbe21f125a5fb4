/**
 * Reading back what the classifier's regexes capture: the shared layout
 * lemmas, and the compiler line of g++ and clang++ classified with exactly
 * the file, numbers and message it was built from. The Python, JavaScript,
 * tsc and rustc formats have their own modules.
 */
module ParserFormats {
  import opened Wrappers
  import opened Text
  import opened Pattern
  import opened Parser

  // ---------------------------------------------------------------- C++

  /** A file name the C++ location regex accepts whole: no spaces or colons, and a C++ extension. */
  predicate CppFileName(file: string) {
    (forall k :: 0 <= k < |file| ==> PathChar(file[k])) && ExtOf(file, CppExts).Some?
  }

  /** The text of a compiler error line, `file:line:col: error: message`, whatever stands for the numbers. */
  function CppText(file: string, l: string, c: string, message: string): string {
    file + (":" + (l + (":" + (c + (": error: " + message)))))
  }

  /** The line g++ and clang++ print for an error: `file:line:col: error: message`. */
  function CppLine(file: string, line: nat, col: nat, message: string): string {
    CppText(file, NatToString(line), NatToString(col), message)
  }

  /** The characters of `s` from `i` to `j` are those of `t`. */
  lemma SliceChars(s: string, i: nat, j: nat, t: string)
    requires i <= j <= |s| && s[i..j] == t
    ensures forall k :: i <= k < j ==> s[k] == t[k - i]
  {
    forall k | i <= k < j ensures s[k] == t[k - i] { assert s[i..j][k - i] == s[k]; }
  }

  /** The layout of a compiler line: file, `:`, line digits, `:`, column digits, `: error: `, message. */
  predicate CppLayout(s: string, file: string, l: string, c: string, message: string) {
    var e := |file|; var d1 := e + 1 + |l|; var d2 := d1 + 1 + |c|;
    |s| == d2 + 9 + |message| && s[..e] == file && s[e] == ':' && s[e + 1..d1] == l && s[d1] == ':'
    && s[d1 + 1..d2] == c && OccursAt(s, ": error: ", d2) && s[d2 + 9..] == message
  }

  /** A compiler line has the layout of its parts, whatever text stands for the numbers. */
  lemma CppLineLayout(file: string, l: string, c: string, message: string)
    ensures CppLayout(CppText(file, l, c, message), file, l, c, message)
  {
  }

  /** A run of class characters standing at `i` and not followed by one is where `RunEnd` stops. */
  lemma {:induction false} ClassRun(s: string, i: nat, t: string, inClass: char -> bool)
    requires (forall k :: 0 <= k < |t| ==> inClass(t[k])) && OccursAt(s, t, i)
    requires i + |t| == |s| || !inClass(s[i + |t|])
    ensures RunEnd(s, i, inClass) == i + |t|
  {
    SliceChars(s, i, i + |t|, t);
    RunEndAt(s, i, i + |t|, inClass);
  }

  /** A run of digits standing at `i` and followed by a non-digit ends where the run does. */
  lemma {:induction false} DigitRun(s: string, i: nat, t: string)
    requires AllDigits(t) && OccursAt(s, t, i) && i + |t| < |s| && !IsDigit(s[i + |t|])
    ensures RunEnd(s, i, IsDigit) == i + |t|
  {
    ClassRun(s, i, t, IsDigit);
  }

  /** A `name: detail` line laid out in `s` after the line feed at `n`, up to the end of the text. */
  predicate NameLineLayout(s: string, n: nat, name: string, detail: string) {
    OccursAt(s, name, n + 1) && OccursAt(s, ": ", n + 1 + |name|) && OccursAt(s, detail, n + 1 + |name| + 2)
    && |s| == n + 1 + |name| + 2 + |detail|
  }

  /** The `name: (.+)` part of an error regex takes the details of such a line. */
  lemma NameLineRead(s: string, n: nat, name: string, detail: string)
    requires |detail| > 0 && '\n' !in detail && NameLineLayout(s, n, name, detail)
    ensures NameDetailAt(s, n + 1, name) == Some(detail)
  {
    RestOfLineAt(s, n + 1 + |name| + 2, detail);
  }

  /** The location regex finds the file, line and column of a compiler line. */
  lemma CppLocationLayout(s: string, file: string, l: string, c: string, message: string)
    requires CppFileName(file) && |l| > 0 && AllDigits(l) && |c| > 0 && AllDigits(c)
    requires CppLayout(s, file, l, c, message)
    ensures CppLocationAt(s, 0) == Some(CppLoc(|file|, |file| + 1 + |l|, |file| + 2 + |l| + |c|))
  {
    var e := |file|; var d1 := e + 1 + |l|; var d2 := d1 + 1 + |c|;
    assert s[0..e] == file;
    ClassRun(s, 0, file, PathChar);
    ClassRun(s, e + 1, l, IsDigit);
    assert s[d2] == ':' by { assert s[d2..d2 + 9][0] == ':'; }
    ClassRun(s, d1 + 1, c, IsDigit);
  }

  /** The message regex takes the rest of a compiler line after `: error: `. */
  lemma CppMessageLayout(s: string, d2: nat, message: string)
    requires |message| > 0 && '\n' !in message
    requires OccursAt(s, ": error: ", d2) && s[d2 + 9..] == message
    ensures CppMessageAt(s, d2) == Some(message)
  {
    assert s[d2 + 9..|s|] == message;
    SliceChars(s, d2 + 9, |s|, message);
    RestOfLineToEnd(s, d2 + 9);
  }

  /** The whole C++ regex matches where its location part and then its message part match. */
  lemma CppAtParts(s: string, loc: CppLoc, m: string)
    requires CppLocationAt(s, 0) == Some(loc) && CppMessageAt(s, loc.d2) == Some(m)
    ensures CppAt(s, 0) == Some(CppCap(s[0..loc.e], s[loc.e + 1..loc.d1], s[loc.d1 + 1..loc.d2], m))
  {
  }

  /** The C++ location regex matches a text laid out as a compiler line at its start. */
  lemma CppAtLayout(s: string, file: string, l: string, c: string, message: string)
    requires CppFileName(file) && |l| > 0 && AllDigits(l) && |c| > 0 && AllDigits(c)
    requires |message| > 0 && '\n' !in message
    requires CppLayout(s, file, l, c, message)
    ensures CppAt(s, 0) == Some(CppCap(file, l, c, message))
  {
    var e := |file|; var d1 := e + 1 + |l|; var d2 := d1 + 1 + |c|;
    CppLocationLayout(s, file, l, c, message);
    CppMessageLayout(s, d2, message);
    CppAtParts(s, CppLoc(e, d1, d2), message);
    assert s[0..e] == file;
  }

  /** The C++ location regex matches a compiler line at its start and captures its parts. */
  lemma {:induction false} CppAtLine(file: string, line: nat, col: nat, message: string)
    requires CppFileName(file) && |message| > 0 && '\n' !in message
    ensures CppAt(CppLine(file, line, col, message), 0) ==
      Some(CppCap(file, NatToString(line), NatToString(col), message))
  {
    var l, c := NatToString(line), NatToString(col);
    CppLineLayout(file, l, c, message);
    CppAtLayout(CppText(file, l, c, message), file, l, c, message);
  }

  /**
   * A compiler line with 32-bit numbers is classified as C++ with exactly its
   * file, line, column and message, the kind coming from the message.
   */
  lemma CppLineParses(file: string, line: nat, col: nat, message: string)
    requires CppFileName(file) && line <= U32_MAX && col <= U32_MAX
    requires |message| > 0 && '\n' !in message
    ensures var s := CppLine(file, line, col, message);
      ParseError(s) ==
        Some(ParsedError(file, Some(line as u32), Some(col as u32), message, DetectCppErrorType(message, s), Cpp))
  {
    var s := CppLine(file, line, col, message);
    CppAtLine(file, line, col, message);
    LeftmostFromIsFirst(s, 0, 0, CppAt);
    NatToStringRoundTrip(line);
    NatToStringRoundTrip(col);
  }
}
