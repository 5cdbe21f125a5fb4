/**
 * JavaScript and TypeScript diagnostics read back: a tsc line
 * `file(line,col): error TSn: message`, and a Node report whose first line
 * is `file:line` and whose last line is `Name: details`, are classified with
 * exactly those parts.
 */
module JsFormats {
  import opened Wrappers
  import opened Text
  import opened Pattern
  import opened Parser
  import opened ParserFormats

  // ---------------------------------------------------------------- tsc

  /** The line tsc prints for an error, with the numbers in decimal and the code `TS` followed by `digits`. */
  function TscLine(file: string, line: nat, col: nat, digits: string, message: string): string {
    TscText(file, NatToString(line), NatToString(col), "TS" + digits, message)
  }

  /**
   * The location part of a tsc line laid out in `s`: the file ending at
   * `e`, `(`, the line ending at `d1`, `,`, the column ending at `d2`, then
   * `): error `.
   */
  predicate TscLocPart(s: string, e: nat, d1: nat, d2: nat, file: string, l: string, c: string) {
    e == |file| && d1 == e + 1 + |l| && d2 == d1 + 1 + |c|
    && OccursAt(s, file, 0) && OccursAt(s, "(", e) && OccursAt(s, l, e + 1) && OccursAt(s, ",", d1)
    && OccursAt(s, c, d1 + 1) && OccursAt(s, "): error ", d2)
  }

  /** The same location part with its separators read as characters. */
  predicate TscLocChars(s: string, e: nat, d1: nat, d2: nat, file: string, l: string, c: string) {
    e == |file| && d1 == e + 1 + |l| && d2 == d1 + 1 + |c| && d2 < |s|
    && OccursAt(s, file, 0) && s[e] == '(' && OccursAt(s, l, e + 1) && s[d1] == ',' && OccursAt(s, c, d1 + 1) && s[d2] == ')'
  }

  /** The code part of a tsc line laid out in `s` from `p`: `TS`, the digits ending at `dd`, `: ` and the message. */
  predicate TscCodePart(s: string, p: nat, dd: nat, digits: string, message: string) {
    dd == p + 2 + |digits| && |s| == dd + 2 + |message|
    && OccursAt(s, "TS" + digits, p) && OccursAt(s, "TS", p) && OccursAt(s, digits, p + 2)
    && OccursAt(s, ": ", dd) && OccursAt(s, message, dd + 2)
  }

  /** A whole tsc line laid out in `s`: its location part, then its code part after `): error `. */
  predicate TscLineLayout(s: string, e: nat, d1: nat, d2: nat, dd: nat, file: string, l: string, c: string, digits: string, message: string) {
    TscLocPart(s, e, d1, d2, file, l, c) && TscCodePart(s, d2 + 9, dd, digits, message)
  }

  /** The file, the parenthesis, the line and the comma of a tsc line. */
  lemma TscTextLoc(file: string, l: string, c: string, digits: string, message: string)
    ensures var s := TscText(file, l, c, "TS" + digits, message); var e := |file|;
      OccursAt(s, file, 0) && OccursAt(s, "(", e) && OccursAt(s, l, e + 1) && OccursAt(s, ",", e + 1 + |l|)
  {
  }

  /** The column, `): error ` and the code of a tsc line. */
  lemma TscTextCol(file: string, l: string, c: string, digits: string, message: string)
    ensures var s := TscText(file, l, c, "TS" + digits, message); var d1 := |file| + 1 + |l|;
      OccursAt(s, c, d1 + 1) && OccursAt(s, "): error ", d1 + 1 + |c|) && OccursAt(s, "TS" + digits, d1 + 1 + |c| + 9)
  {
  }

  /** The parts of the code, the separator and the message of a tsc line. */
  lemma TscTextCode(file: string, l: string, c: string, digits: string, message: string)
    ensures var s := TscText(file, l, c, "TS" + digits, message); var p := |file| + 1 + |l| + 1 + |c| + 9;
      OccursAt(s, "TS", p) && OccursAt(s, digits, p + 2) && OccursAt(s, ": ", p + 2 + |digits|)
      && OccursAt(s, message, p + 2 + |digits| + 2) && |s| == p + 2 + |digits| + 2 + |message|
  {
  }

  /** A tsc line has the layout of its parts. */
  lemma TscTextLayout(file: string, l: string, c: string, digits: string, message: string)
    ensures TscLineLayout(TscText(file, l, c, "TS" + digits, message), |file|, |file| + 1 + |l|, |file| + 1 + |l| + 1 + |c|,
      |file| + 1 + |l| + 1 + |c| + 9 + 2 + |digits|, file, l, c, digits, message)
  {
    TscTextLoc(file, l, c, digits, message);
    TscTextCol(file, l, c, digits, message);
    TscTextCode(file, l, c, digits, message);
  }

  /** The location regex of tsc matches at the start when its three runs end where the layout puts them. */
  lemma {:induction false} TscLocRuns(s: string, e: nat, d1: nat, d2: nat)
    requires e < |s| && s[e] == '(' && ExtOf(s[0..e], TscExts).Some? && e + 1 < d1 < |s| && s[d1] == ',' && d1 + 1 < d2
    requires RunEnd(s, 0, TscPathChar) == e && RunEnd(s, e + 1, IsDigit) == d1 && RunEnd(s, d1 + 1, IsDigit) == d2
    ensures TscLocationAt(s, 0) == Some(TscLoc(e, d1, d2))
  {
  }

  /** The path run of a tsc line is the file, up to the `(` that follows it. */
  lemma {:induction false} TscFileRun(s: string, file: string)
    requires (forall k :: 0 <= k < |file| ==> TscPathChar(file[k])) && OccursAt(s, file, 0)
    requires |file| < |s| && s[|file|] == '('
    ensures RunEnd(s, 0, TscPathChar) == |file| && s[0..|file|] == file
  {
    ClassRun(s, 0, file, TscPathChar);
  }

  /** The three runs of a tsc location end at the separators that follow the file, line and column. */
  lemma {:induction false} TscLocRunEnds(s: string, e: nat, d1: nat, d2: nat, file: string, l: string, c: string)
    requires (forall k :: 0 <= k < |file| ==> TscPathChar(file[k]))
    requires AllDigits(l) && AllDigits(c)
    requires TscLocChars(s, e, d1, d2, file, l, c)
    ensures RunEnd(s, 0, TscPathChar) == e && s[0..e] == file
    ensures RunEnd(s, e + 1, IsDigit) == d1 && RunEnd(s, d1 + 1, IsDigit) == d2
  {
    TscFileRun(s, file);
    DigitRun(s, e + 1, l);
    DigitRun(s, d1 + 1, c);
  }

  /** The location regex of tsc takes the ends of the file, line and column of a tsc line. */
  lemma {:induction false} TscLocRead(s: string, e: nat, d1: nat, d2: nat, file: string, l: string, c: string)
    requires (forall k :: 0 <= k < |file| ==> TscPathChar(file[k])) && ExtOf(file, TscExts).Some?
    requires |l| > 0 && AllDigits(l) && |c| > 0 && AllDigits(c)
    requires TscLocChars(s, e, d1, d2, file, l, c)
    ensures TscLocationAt(s, 0) == Some(TscLoc(e, d1, d2))
  {
    TscLocRunEnds(s, e, d1, d2, file, l, c);
    TscLocRuns(s, e, d1, d2);
  }

  /** The separators of a tsc location are the characters the layout puts there. */
  lemma TscLocSeparators(s: string, e: nat, d1: nat, d2: nat, file: string, l: string, c: string)
    requires TscLocPart(s, e, d1, d2, file, l, c)
    ensures TscLocChars(s, e, d1, d2, file, l, c)
  {
    OccursChars(s, "(", e);
    OccursChars(s, ",", d1);
    OccursChars(s, "): error ", d2);
  }

  /** The runs the code regex of tsc looks for end where a tsc line's code part puts them. */
  lemma TscCodeFacts(s: string, p: nat, dd: nat, digits: string, message: string)
    requires |digits| > 0 && AllDigits(digits) && |message| > 0 && '\n' !in message
    requires TscCodePart(s, p, dd, digits, message)
    ensures RunEnd(s, p + 2, IsDigit) == dd && RestOfLine(s, dd + 2) == Some(message) && s[p..dd] == "TS" + digits
  {
    OccursChars(s, ": ", dd);
    DigitRun(s, p + 2, digits);
    RestOfLineAt(s, dd + 2, message);
  }

  /** The code regex of tsc matches where `TS`, a digit run, `: ` and a rest of line stand. */
  lemma TscCodeRuns(s: string, p: nat, dd: nat, message: string)
    requires OccursAt(s, "TS", p) && p + 2 < dd && RunEnd(s, p + 2, IsDigit) == dd
    requires OccursAt(s, ": ", dd) && RestOfLine(s, dd + 2) == Some(message)
    ensures TscCodeAt(s, p) == Some((s[p..dd], message))
  {
  }

  /** The code regex takes the code and the message of a tsc line. */
  lemma TscCodeRead(s: string, p: nat, dd: nat, digits: string, message: string)
    requires |digits| > 0 && AllDigits(digits) && |message| > 0 && '\n' !in message
    requires TscCodePart(s, p, dd, digits, message)
    ensures TscCodeAt(s, p) == Some(("TS" + digits, message))
  {
    TscCodeFacts(s, p, dd, digits, message);
    TscCodeRuns(s, p, dd, message);
  }

  /** The message regex of tsc matches where `): error ` stands before a code and message. */
  lemma TscMessageRead(s: string, d2: nat, code: string, message: string)
    requires OccursAt(s, "): error ", d2) && TscCodeAt(s, d2 + 9) == Some((code, message))
    ensures TscMessageAt(s, d2) == Some((code, message))
  {
  }

  /** After a valid location, a matching message makes the rest of the tsc regex capture the location's slices. */
  lemma TscCapAtRead(s: string, e: nat, d1: nat, d2: nat, code: string, message: string)
    requires TscLocValid(s, 0, TscLoc(e, d1, d2)) && TscMessageAt(s, d2) == Some((code, message))
    ensures TscCapAt(s, 0, TscLoc(e, d1, d2)) == Some(TscCap(s[0..e], s[e + 1..d1], s[d1 + 1..d2], code, message))
  {
    assert TscCapOf(s, 0, TscLoc(e, d1, d2), code, message) == TscCap(s[0..e], s[e + 1..d1], s[d1 + 1..d2], code, message);
  }

  /** The whole tsc regex matches where the location and then the code match. */
  lemma TscAtParts(s: string, e: nat, d1: nat, d2: nat, code: string, message: string)
    requires TscLocationAt(s, 0) == Some(TscLoc(e, d1, d2)) && OccursAt(s, "): error ", d2)
    requires TscCodeAt(s, d2 + 9) == Some((code, message))
    ensures TscAt(s, 0) == Some(TscCap(s[0..e], s[e + 1..d1], s[d1 + 1..d2], code, message))
  {
    TscMessageRead(s, d2, code, message);
    TscCapAtRead(s, e, d1, d2, code, message);
  }

  /** The whole tsc regex captures the laid-out parts of a tsc line. */
  lemma TscAtRead(s: string, e: nat, d1: nat, d2: nat, file: string, l: string, c: string, code: string, message: string)
    requires e == |file| && d1 == e + 1 + |l| && d2 == d1 + 1 + |c|
    requires OccursAt(s, file, 0) && OccursAt(s, l, e + 1) && OccursAt(s, c, d1 + 1)
    requires TscAt(s, 0) == Some(TscCap(s[0..e], s[e + 1..d1], s[d1 + 1..d2], code, message))
    ensures TscAt(s, 0) == Some(TscCap(file, l, c, code, message))
  {
    TscCapSlices(s, e, d1, d2, file, l, c, code, message);
  }

  /** The captures cut from a laid-out tsc line are its parts. */
  lemma TscCapSlices(s: string, e: nat, d1: nat, d2: nat, file: string, l: string, c: string, code: string, message: string)
    requires e == |file| && d1 == e + 1 + |l| && d2 == d1 + 1 + |c|
    requires OccursAt(s, file, 0) && OccursAt(s, l, e + 1) && OccursAt(s, c, d1 + 1)
    ensures TscCap(s[0..e], s[e + 1..d1], s[d1 + 1..d2], code, message) == TscCap(file, l, c, code, message)
  {
  }

  /** The tsc regex first matches at the start of the text when it matches there. */
  lemma TscFirst(s: string, cap: TscCap)
    requires TscAt(s, 0) == Some(cap)
    ensures Leftmost(s, TscAt) == Some(cap)
  {
    LeftmostAt(s, 0, TscAt, cap);
  }

  /** The location regex of tsc takes the file, line and column of a text laid out as a tsc line. */
  lemma {:induction false} TscLocFound(s: string, e: nat, d1: nat, d2: nat, file: string, l: string, c: string)
    requires (forall k :: 0 <= k < |file| ==> TscPathChar(file[k])) && ExtOf(file, TscExts).Some?
    requires |l| > 0 && AllDigits(l) && |c| > 0 && AllDigits(c)
    requires TscLocPart(s, e, d1, d2, file, l, c)
    ensures TscLocationAt(s, 0) == Some(TscLoc(e, d1, d2))
  {
    TscLocSeparators(s, e, d1, d2, file, l, c);
    TscLocRead(s, e, d1, d2, file, l, c);
  }

  /** Where the location regex of tsc has matched, the code regex completes the whole match. */
  lemma TscCodeAfterLoc(s: string, e: nat, d1: nat, d2: nat, dd: nat, digits: string, message: string)
    requires TscLocationAt(s, 0) == Some(TscLoc(e, d1, d2)) && OccursAt(s, "): error ", d2)
    requires |digits| > 0 && AllDigits(digits) && |message| > 0 && '\n' !in message
    requires TscCodePart(s, d2 + 9, dd, digits, message)
    ensures TscAt(s, 0) == Some(TscCap(s[0..e], s[e + 1..d1], s[d1 + 1..d2], "TS" + digits, message))
  {
    TscCodeRead(s, d2 + 9, dd, digits, message);
    TscAtParts(s, e, d1, d2, "TS" + digits, message);
  }

  /** Where the location regex of tsc has taken a file, line and column, the whole regex first matches with those parts. */
  lemma TscAfterLoc(s: string, e: nat, d1: nat, d2: nat, dd: nat, file: string, l: string, c: string, digits: string, message: string)
    requires TscLocationAt(s, 0) == Some(TscLoc(e, d1, d2)) && OccursAt(s, "): error ", d2)
    requires e == |file| && d1 == e + 1 + |l| && d2 == d1 + 1 + |c|
    requires OccursAt(s, file, 0) && OccursAt(s, l, e + 1) && OccursAt(s, c, d1 + 1)
    requires |digits| > 0 && AllDigits(digits) && |message| > 0 && '\n' !in message
    requires TscCodePart(s, d2 + 9, dd, digits, message)
    ensures Leftmost(s, TscAt) == Some(TscCap(file, l, c, "TS" + digits, message))
  {
    TscCodeAfterLoc(s, e, d1, d2, dd, digits, message);
    TscAtRead(s, e, d1, d2, file, l, c, "TS" + digits, message);
    TscFirst(s, TscCap(file, l, c, "TS" + digits, message));
  }

  /** The tsc regex takes the parts of a text laid out as a tsc line. */
  lemma {:induction false} TscLayoutRead(s: string, e: nat, d1: nat, d2: nat, dd: nat, file: string, l: string, c: string, digits: string, message: string)
    requires (forall k :: 0 <= k < |file| ==> TscPathChar(file[k])) && ExtOf(file, TscExts).Some?
    requires |l| > 0 && AllDigits(l) && |c| > 0 && AllDigits(c)
    requires |digits| > 0 && AllDigits(digits) && |message| > 0 && '\n' !in message
    requires TscLineLayout(s, e, d1, d2, dd, file, l, c, digits, message)
    ensures Leftmost(s, TscAt) == Some(TscCap(file, l, c, "TS" + digits, message))
  {
    TscLocFound(s, e, d1, d2, file, l, c);
    TscAfterLoc(s, e, d1, d2, dd, file, l, c, digits, message);
  }

  /** The tsc regex takes the parts of a tsc line, whatever text stands for the numbers. */
  lemma {:induction false} TscTextRead(file: string, l: string, c: string, digits: string, message: string)
    requires (forall k :: 0 <= k < |file| ==> TscPathChar(file[k])) && ExtOf(file, TscExts).Some?
    requires |l| > 0 && AllDigits(l) && |c| > 0 && AllDigits(c)
    requires |digits| > 0 && AllDigits(digits) && |message| > 0 && '\n' !in message
    ensures Leftmost(TscText(file, l, c, "TS" + digits, message), TscAt) == Some(TscCap(file, l, c, "TS" + digits, message))
  {
    TscTextLayout(file, l, c, digits, message);
    TscLayoutRead(TscText(file, l, c, "TS" + digits, message), |file|, |file| + 1 + |l|, |file| + 1 + |l| + 1 + |c|,
      |file| + 1 + |l| + 1 + |c| + 9 + 2 + |digits|, file, l, c, digits, message);
  }

  /**
   * A tsc line naming a space- and parenthesis-free .ts or .tsx file, with
   * 32-bit numbers, a `TS` code and a one-line message, is classified as
   * TypeScript with exactly that file, line, column and `code: message`
   * message, the kind coming from the code and the message.
   */
  lemma {:induction false} TscLineParses(file: string, line: nat, col: nat, digits: string, message: string)
    requires (forall k :: 0 <= k < |file| ==> TscPathChar(file[k])) && ExtOf(file, TscExts).Some?
    requires line <= U32_MAX && col <= U32_MAX
    requires |digits| > 0 && AllDigits(digits) && |message| > 0 && '\n' !in message
    ensures ParseJs(TscLine(file, line, col, digits, message)) ==
      Some(ParsedError(file, Some(line as u32), Some(col as u32), "TS" + digits + ": " + message,
        TscKind("TS" + digits, message), TypeScript))
  {
    TscTextRead(file, NatToString(line), NatToString(col), digits, message);
    NatToStringRoundTrip(line);
    NatToStringRoundTrip(col);
  }

  // ---------------------------------------------------------------- Node

  /**
   * A Node report: the first line `file:l`, then `mid` (the source excerpt
   * and the caret line), a line feed and the error line `name: detail`,
   * whatever text stands for the line number.
   */
  function NodeText(file: string, l: string, mid: string, name: string, detail: string): string {
    file + (":" + (l + (mid + ("\n" + (name + (": " + detail))))))
  }

  /** The same with the line printed in decimal. */
  function NodeReport(file: string, line: nat, mid: string, name: string, detail: string): string {
    NodeText(file, NatToString(line), mid, name, detail)
  }

  /**
   * The first line of a Node report laid out in `s`: the file ending at
   * `e`, `:`, the line number ending at `d`, then `mid` up to the line feed
   * at `n`.
   */
  predicate NodeFrameLayout(s: string, e: nat, d: nat, n: nat, file: string, l: string, mid: string) {
    e == |file| && d == e + 1 + |l| && n == d + |mid|
    && OccursAt(s, file, 0) && OccursAt(s, ":", e) && OccursAt(s, l, e + 1) && OccursAt(s, mid, d) && OccursAt(s, "\n", n)
  }

  /** A whole Node report laid out in `s`. */
  predicate NodeLayout(s: string, e: nat, d: nat, n: nat, file: string, l: string, mid: string, name: string, detail: string) {
    NodeFrameLayout(s, e, d, n, file, l, mid) && NameLineLayout(s, n, name, detail)
  }

  /** The file, the colon and the line number of a Node report. */
  lemma NodeTextFrame(file: string, l: string, mid: string, name: string, detail: string)
    ensures var s := NodeText(file, l, mid, name, detail); var e := |file|;
      OccursAt(s, file, 0) && OccursAt(s, ":", e) && OccursAt(s, l, e + 1)
  {
  }

  /** What follows the line number, the line feed and the error name. */
  lemma NodeTextMid(file: string, l: string, mid: string, name: string, detail: string)
    ensures var s := NodeText(file, l, mid, name, detail); var d := |file| + 1 + |l|;
      OccursAt(s, mid, d) && OccursAt(s, "\n", d + |mid|) && OccursAt(s, name, d + |mid| + 1)
  {
  }

  /** The separator and the details of the error line. */
  lemma NodeTextDetail(file: string, l: string, mid: string, name: string, detail: string)
    ensures var s := NodeText(file, l, mid, name, detail); var n := |file| + 1 + |l| + |mid|;
      OccursAt(s, ": ", n + 1 + |name|) && OccursAt(s, detail, n + 1 + |name| + 2)
      && |s| == n + 1 + |name| + 2 + |detail|
  {
  }

  /** A Node report has the layout of its parts. */
  lemma NodeTextLayout(file: string, l: string, mid: string, name: string, detail: string)
    ensures var s := NodeText(file, l, mid, name, detail);
      var e := |file|; var d := e + 1 + |l|; var n := d + |mid|;
      NodeLayout(s, e, d, n, file, l, mid, name, detail)
  {
    NodeTextFrame(file, l, mid, name, detail);
    NodeTextMid(file, l, mid, name, detail);
    NodeTextDetail(file, l, mid, name, detail);
  }

  /** The colon ends the file, and neither a digit nor a colon ends the line number. */
  lemma NodeFrameSeparators(s: string, e: nat, d: nat, n: nat, file: string, l: string, mid: string)
    requires |mid| == 0 || (!IsDigit(mid[0]) && mid[0] != ':')
    requires NodeFrameLayout(s, e, d, n, file, l, mid)
    ensures e < |s| && s[e] == ':' && d < |s| && !IsDigit(s[d]) && s[d] != ':' && n < |s| && s[n] == '\n'
  {
    OccursChars(s, ":", e);
    OccursChars(s, "\n", n);
    if |mid| > 0 {
      OccursChars(s, mid, d);
    }
  }

  /** The file regex of Node matches at the start when its two runs end where the layout puts them. */
  lemma {:induction false} NodeFileRuns(s: string, e: nat, d: nat)
    requires e < |s| && s[e] == ':' && ExtOf(s[0..e], JsExts).Some? && e + 1 < d <= |s| && (d == |s| || s[d] != ':')
    requires RunEnd(s, 0, PathChar) == e && RunEnd(s, e + 1, IsDigit) == d
    ensures JsFileAt(s, 0) == Some(JsFileCap(s[0..e], ExtOf(s[0..e], JsExts).value, s[e + 1..d], None))
  {
  }

  /** The file regex of Node takes the file, its extension and the line number, and no column. */
  lemma {:induction false} NodeFileRead(s: string, e: nat, d: nat, file: string, l: string)
    requires (forall k :: 0 <= k < |file| ==> PathChar(file[k])) && ExtOf(file, JsExts).Some?
    requires |l| > 0 && AllDigits(l) && e == |file| && d == e + 1 + |l|
    requires OccursAt(s, file, 0) && OccursAt(s, l, e + 1)
    requires e < |s| && s[e] == ':' && d < |s| && !IsDigit(s[d]) && s[d] != ':'
    ensures JsFileAt(s, 0) == Some(JsFileCap(file, ExtOf(file, JsExts).value, l, None))
  {
    ClassRun(s, 0, file, PathChar);
    ClassRun(s, e + 1, l, IsDigit);
    assert s[0..e] == file;
    NodeFileRuns(s, e, d);
  }

  /** The file regex of Node first matches at the start of the text when it matches there. */
  lemma NodeFileFirst(s: string, cap: JsFileCap)
    requires JsFileAt(s, 0) == Some(cap)
    ensures Leftmost(s, JsFileAt) == Some(cap)
  {
    LeftmostAt(s, 0, JsFileAt, cap);
  }

  /** No `: ` stands on the first line of a Node report whose `mid` holds no colon. */
  lemma NodeFrameNoSeparator(s: string, e: nat, d: nat, n: nat, file: string, l: string, mid: string)
    requires (forall k :: 0 <= k < |file| ==> PathChar(file[k])) && |l| > 0 && AllDigits(l) && ':' !in mid
    requires NodeFrameLayout(s, e, d, n, file, l, mid)
    ensures forall j :: 0 <= j < n + 1 ==> !OccursAt(s, ": ", j)
  {
    OccursChars(s, file, 0);
    OccursChars(s, l, e + 1);
    OccursChars(s, mid, d);
    OccursChars(s, "\n", n);
    forall j | 0 <= j < n + 1 ensures !OccursAt(s, ": ", j) {
      if j == e {
        NotOccursAtChar(s, ": ", j, j + 1);
      } else {
        NotOccursAtChar(s, ": ", j, j);
      }
    }
  }

  /** The three JavaScript error names hold no colon, no line feed and no parenthesis. */
  lemma JsNamesPlain()
    ensures forall m :: m in JsErrorNames ==> ':' !in m && '\n' !in m && '(' !in m
  {
  }

  /** The JavaScript error regex matches nowhere on a first line in which no `: ` stands. */
  lemma JsNoErrorBefore(s: string, n: nat)
    requires n < |s| && s[n] == '\n' && forall j :: 0 <= j < n + 1 ==> !OccursAt(s, ": ", j)
    ensures forall k :: 0 <= k < n + 1 ==> JsErrorAt(s, k).None?
  {
    JsNamesPlain();
    forall k | 0 <= k < n + 1 ensures JsErrorAt(s, k).None? {
      if JsErrorAt(s, k).Some? {
        NameDetailBeforeLine(s, n + 1, k, JsErrorAt(s, k).value.name);
      }
    }
  }

  /** The JavaScript error regex takes the name and the details of an error line that ends the text. */
  lemma JsErrorRead(s: string, n: nat, name: string, detail: string)
    requires name in JsErrorNames && |detail| > 0 && '\n' !in detail
    requires NameLineLayout(s, n, name, detail)
    ensures JsErrorAt(s, n + 1) == Some(NamedCap(name, detail))
  {
    NameLineRead(s, n, name, detail);
    JsNamesPlain();
    NamedAtFinds(s, n + 1, JsErrorNames, name);
  }

  /** The JavaScript error regex first matches on the error line when it matches nowhere before. */
  lemma JsErrorFirst(s: string, n: nat, name: string, detail: string)
    requires n + 1 <= |s| && JsErrorAt(s, n + 1) == Some(NamedCap(name, detail))
    requires forall k :: 0 <= k < n + 1 ==> JsErrorAt(s, k).None?
    ensures Leftmost(s, JsErrorAt) == Some(NamedCap(name, detail))
  {
    LeftmostAt(s, n + 1, JsErrorAt, NamedCap(name, detail));
  }

  /** No parenthesis stands in a Node report whose file, `mid` and details have none. */
  lemma NodeNoParen(s: string, e: nat, d: nat, n: nat, file: string, l: string, mid: string, name: string, detail: string)
    requires '(' !in file && AllDigits(l) && '(' !in mid && name in JsErrorNames && '(' !in detail
    requires NodeLayout(s, e, d, n, file, l, mid, name, detail)
    ensures forall j :: 0 <= j < |s| ==> s[j] != '('
  {
    JsNamesPlain();
    OccursChars(s, file, 0);
    OccursChars(s, ":", e);
    OccursChars(s, l, e + 1);
    OccursChars(s, mid, d);
    OccursChars(s, "\n", n);
    OccursChars(s, name, n + 1);
    OccursChars(s, ": ", n + 1 + |name|);
    OccursChars(s, detail, n + 1 + |name| + 2);
  }

  /** Without a parenthesis in the text, the tsc regex matches nowhere. */
  lemma NoTsc(s: string)
    requires forall j :: 0 <= j < |s| ==> s[j] != '('
    ensures Leftmost(s, TscAt).None?
  {
    forall k | 0 <= k <= |s| ensures TscAt(s, k).None? {
    }
    LeftmostFromNone(s, 0, TscAt);
  }

  /** The extension the file regex settles on is `ts` or `tsx` exactly when the file ends in one of them. */
  lemma {:induction false} JsExtTypeScript(file: string)
    requires ExtOf(file, JsExts).Some?
    ensures var ext := ExtOf(file, JsExts).value;
      (ext == "ts" || ext == "tsx") <==> (HasExt(file, "ts") || HasExt(file, "tsx"))
  {
    var ext := ExtOf(file, JsExts).value;
    ExtOfSpec(file, JsExts);
    assert '.' !in ext;
    if HasExt(file, "ts") {
      ExtUnique(file, ext, "ts");
    }
    if HasExt(file, "tsx") {
      ExtUnique(file, ext, "tsx");
    }
  }

  /** The file regex of Node first matches at the start of a text laid out as a Node report. */
  lemma {:induction false} NodeFileLayoutRead(s: string, e: nat, d: nat, n: nat, file: string, l: string, mid: string)
    requires (forall k :: 0 <= k < |file| ==> PathChar(file[k])) && ExtOf(file, JsExts).Some?
    requires |l| > 0 && AllDigits(l) && ':' !in mid && (|mid| == 0 || !IsDigit(mid[0]))
    requires NodeFrameLayout(s, e, d, n, file, l, mid)
    ensures Leftmost(s, JsFileAt) == Some(JsFileCap(file, ExtOf(file, JsExts).value, l, None))
  {
    NodeFrameSeparators(s, e, d, n, file, l, mid);
    NodeFileRead(s, e, d, file, l);
    NodeFileFirst(s, JsFileCap(file, ExtOf(file, JsExts).value, l, None));
  }

  /** The JavaScript error regex matches nowhere on the first line of a Node report. */
  lemma NodeNoErrorOnFrame(s: string, e: nat, d: nat, n: nat, file: string, l: string, mid: string)
    requires (forall k :: 0 <= k < |file| ==> PathChar(file[k]))
    requires |l| > 0 && AllDigits(l) && ':' !in mid && (|mid| == 0 || !IsDigit(mid[0]))
    requires NodeFrameLayout(s, e, d, n, file, l, mid)
    ensures forall k :: 0 <= k < n + 1 ==> JsErrorAt(s, k).None?
  {
    NodeFrameSeparators(s, e, d, n, file, l, mid);
    NodeFrameNoSeparator(s, e, d, n, file, l, mid);
    JsNoErrorBefore(s, n);
  }

  /** The regexes of the JavaScript extractor find their parts in a text laid out as a Node report. */
  lemma {:induction false} NodeLayoutRead(s: string, e: nat, d: nat, n: nat, file: string, l: string, mid: string, name: string, detail: string)
    requires (forall k :: 0 <= k < |file| ==> PathChar(file[k])) && '(' !in file && ExtOf(file, JsExts).Some?
    requires |l| > 0 && AllDigits(l) && ':' !in mid && '(' !in mid && (|mid| == 0 || !IsDigit(mid[0]))
    requires name in JsErrorNames && |detail| > 0 && '\n' !in detail && '(' !in detail
    requires NodeLayout(s, e, d, n, file, l, mid, name, detail)
    ensures Leftmost(s, TscAt).None?
    ensures Leftmost(s, JsFileAt) == Some(JsFileCap(file, ExtOf(file, JsExts).value, l, None))
    ensures Leftmost(s, JsErrorAt) == Some(NamedCap(name, detail))
  {
    NodeNoParen(s, e, d, n, file, l, mid, name, detail);
    NoTsc(s);
    NodeFileLayoutRead(s, e, d, n, file, l, mid);
    NodeNoErrorOnFrame(s, e, d, n, file, l, mid);
    JsErrorRead(s, n, name, detail);
    JsErrorFirst(s, n, name, detail);
  }

  /** The regexes of the JavaScript extractor find their parts in a Node report, whatever text stands for the line number. */
  lemma {:induction false} NodeTextRead(file: string, l: string, mid: string, name: string, detail: string)
    requires (forall k :: 0 <= k < |file| ==> PathChar(file[k])) && '(' !in file && ExtOf(file, JsExts).Some?
    requires |l| > 0 && AllDigits(l) && ':' !in mid && '(' !in mid && (|mid| == 0 || !IsDigit(mid[0]))
    requires name in JsErrorNames && |detail| > 0 && '\n' !in detail && '(' !in detail
    ensures Leftmost(NodeText(file, l, mid, name, detail), TscAt).None?
    ensures Leftmost(NodeText(file, l, mid, name, detail), JsFileAt) == Some(JsFileCap(file, ExtOf(file, JsExts).value, l, None))
    ensures Leftmost(NodeText(file, l, mid, name, detail), JsErrorAt) == Some(NamedCap(name, detail))
  {
    var e := |file|; var d := e + 1 + |l|; var n := d + |mid|;
    NodeTextLayout(file, l, mid, name, detail);
    NodeLayoutRead(NodeText(file, l, mid, name, detail), e, d, n, file, l, mid, name, detail);
  }

  /**
   * A Node report naming a space-, colon- and parenthesis-free .js, .ts,
   * .jsx, .tsx or .mjs file and a 32-bit line, ending in one of the three
   * error names and one-line details without a parenthesis, is classified with
   * exactly that file and line, no column, and the `name: details` message;
   * it counts as TypeScript exactly when the file ends in `.ts` or `.tsx`.
   */
  lemma {:induction false} NodeReportParses(file: string, line: nat, mid: string, name: string, detail: string)
    requires (forall k :: 0 <= k < |file| ==> PathChar(file[k])) && '(' !in file && ExtOf(file, JsExts).Some?
    requires line <= U32_MAX && ':' !in mid && '(' !in mid && (|mid| == 0 || !IsDigit(mid[0]))
    requires name in JsErrorNames && |detail| > 0 && '\n' !in detail && '(' !in detail
    ensures ParseJs(NodeReport(file, line, mid, name, detail)) ==
      Some(ParsedError(file, Some(line as u32), None, name + ": " + detail, JsKind(name, detail),
        if HasExt(file, "ts") || HasExt(file, "tsx") then TypeScript else JavaScript))
  {
    NodeTextRead(file, NatToString(line), mid, name, detail);
    JsExtTypeScript(file);
    NatToStringRoundTrip(line);
  }
}
