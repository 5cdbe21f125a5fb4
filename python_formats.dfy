/**
 * Python diagnostics read back: a traceback whose frame line names a `.py`
 * file and a line and whose last line is `Name: details`, and a bare
 * `requests.exceptions.Name: details` line, are classified as Python with
 * exactly those parts.
 */
module PythonFormats {
  import opened Wrappers
  import opened Text
  import opened Pattern
  import opened Parser
  import opened ParserFormats

  // ---------------------------------------------------------------- tracebacks

  /**
   * A traceback frame line `File "file", line l`, then `mid` (the `, in …`
   * part and the source lines), a line feed and the error line
   * `name: detail`, whatever text stands for the line number.
   */
  function PyText(file: string, l: string, mid: string, name: string, detail: string): string {
    "File \"" + (file + ("\", line " + (l + (mid + ("\n" + (name + (": " + detail)))))))
  }

  /** The same with the line printed in decimal. */
  function PyTraceback(file: string, line: nat, mid: string, name: string, detail: string): string {
    PyText(file, NatToString(line), mid, name, detail)
  }

  /**
   * The frame line laid out in `s`: `File "`, the file ending at `q`,
   * `", line `, the line number ending at `d`, then `mid` up to the line
   * feed at `n`.
   */
  predicate PyFrameLayout(s: string, q: nat, d: nat, n: nat, file: string, l: string, mid: string) {
    q == 6 + |file| && d == q + 8 + |l| && n == d + |mid|
    && OccursAt(s, "File \"", 0) && OccursAt(s, file, 6) && OccursAt(s, "\", line ", q) && OccursAt(s, l, q + 8)
    && OccursAt(s, mid, d) && OccursAt(s, "\n", n)
  }

  /** A whole traceback laid out in `s`. */
  predicate PyLayout(s: string, q: nat, d: nat, n: nat, file: string, l: string, mid: string, name: string, detail: string) {
    PyFrameLayout(s, q, d, n, file, l, mid) && NameLineLayout(s, n, name, detail)
  }

  /** The frame line up to the line number. */
  lemma PyTextFrame(file: string, l: string, mid: string, name: string, detail: string)
    ensures var s := PyText(file, l, mid, name, detail); var q := 6 + |file|;
      OccursAt(s, "File \"", 0) && OccursAt(s, file, 6) && OccursAt(s, "\", line ", q) && OccursAt(s, l, q + 8)
  {
  }

  /** What follows the line number, the line feed and the error name. */
  lemma PyTextMid(file: string, l: string, mid: string, name: string, detail: string)
    ensures var s := PyText(file, l, mid, name, detail); var d := 6 + |file| + 8 + |l|;
      OccursAt(s, mid, d) && OccursAt(s, "\n", d + |mid|) && OccursAt(s, name, d + |mid| + 1)
  {
  }

  /** The separator and the details of the error line. */
  lemma PyTextDetail(file: string, l: string, mid: string, name: string, detail: string)
    ensures var s := PyText(file, l, mid, name, detail); var n := 6 + |file| + 8 + |l| + |mid|;
      OccursAt(s, ": ", n + 1 + |name|) && OccursAt(s, detail, n + 1 + |name| + 2)
      && |s| == n + 1 + |name| + 2 + |detail|
  {
  }

  /** A traceback has the layout of its parts. */
  lemma PyTextLayout(file: string, l: string, mid: string, name: string, detail: string)
    ensures var s := PyText(file, l, mid, name, detail);
      var q := 6 + |file|; var d := q + 8 + |l|; var n := d + |mid|;
      PyLayout(s, q, d, n, file, l, mid, name, detail)
  {
    PyTextFrame(file, l, mid, name, detail);
    PyTextMid(file, l, mid, name, detail);
    PyTextDetail(file, l, mid, name, detail);
  }

  /** The quote ends the file, something other than a digit ends the line number, and the line feed stands at `n`. */
  lemma PyFrameSeparators(s: string, q: nat, d: nat, n: nat, file: string, l: string, mid: string)
    requires |mid| == 0 || !IsDigit(mid[0])
    requires PyFrameLayout(s, q, d, n, file, l, mid)
    ensures q < |s| && s[q] == '"' && d < |s| && !IsDigit(s[d]) && n < |s| && s[n] == '\n'
  {
    OccursChars(s, "\", line ", q);
    OccursChars(s, "\n", n);
    if |mid| > 0 {
      OccursChars(s, mid, d);
    }
  }

  /** The file regex takes the file and the line number of the frame line. */
  lemma PyFileRead(s: string, q: nat, d: nat, file: string, l: string)
    requires HasExt(file, "py") && '"' !in file && |l| > 0 && AllDigits(l)
    requires q == 6 + |file| && d == q + 8 + |l|
    requires OccursAt(s, "File \"", 0) && OccursAt(s, file, 6) && OccursAt(s, "\", line ", q) && OccursAt(s, l, q + 8)
    requires q < |s| && s[q] == '"' && d < |s| && !IsDigit(s[d])
    ensures PyFileAt(s, 0) == Some(FileLineCap(file, l))
  {
    assert forall k :: 0 <= k < |file| ==> NotQuote(file[k]);
    ClassRun(s, 6, file, NotQuote);
    ClassRun(s, q + 8, l, IsDigit);
  }

  /** No colon stands on a frame line whose file and `mid` have none. */
  lemma PyFrameNoColon(s: string, q: nat, d: nat, n: nat, file: string, l: string, mid: string)
    requires ':' !in file && ':' !in mid && AllDigits(l)
    requires PyFrameLayout(s, q, d, n, file, l, mid)
    ensures forall j :: 0 <= j <= n ==> s[j] != ':'
  {
    OccursChars(s, "File \"", 0);
    OccursChars(s, file, 6);
    OccursChars(s, "\", line ", q);
    OccursChars(s, l, q + 8);
    OccursChars(s, mid, d);
    OccursChars(s, "\n", n);
  }

  /** The names the Python error regex accepts hold no line feed. */
  lemma ErrorNameOneLine(name: string)
    requires name in PythonErrorNames || RequestsName(name)
    ensures '\n' !in name
  {
    PythonNamesOneLine();
    if RequestsName(name) {
      forall k | 0 <= k < |name| ensures name[k] != '\n' {
        if k < 20 {
          assert name[..20][k] == name[k];
        }
      }
    }
  }

  /** The Python error regex matches nowhere on a first line that holds no colon. */
  lemma PyNoErrorBefore(s: string, n: nat)
    requires n < |s| && s[n] == '\n' && forall j :: 0 <= j <= n ==> s[j] != ':'
    ensures forall k :: 0 <= k < n + 1 ==> PyErrorAt(s, k).None?
  {
    forall k | 0 <= k < n + 1 ensures PyErrorAt(s, k).None? {
      if PyErrorAt(s, k).Some? {
        var name := PyErrorAt(s, k).value.name;
        ErrorNameOneLine(name);
        forall j | k <= j < n + 1 ensures !OccursAt(s, ": ", j) {
          NotOccursAtChar(s, ": ", j, j);
        }
        NameDetailBeforeLine(s, n + 1, k, name);
      }
    }
  }

  /** The nine error names hold no colon. */
  lemma PythonNamesColonFree()
    ensures forall m :: m in PythonErrorNames ==> ':' !in m
  {
  }

  /** The nine error names hold no line feed. */
  lemma PythonNamesOneLine()
    ensures forall m :: m in PythonErrorNames ==> '\n' !in m
  {
  }

  /** The Python error regex takes the name and the details of an error line that ends the text. */
  lemma PyErrorRead(s: string, n: nat, name: string, detail: string)
    requires name in PythonErrorNames && |detail| > 0 && '\n' !in detail
    requires NameLineLayout(s, n, name, detail)
    ensures PyErrorAt(s, n + 1) == Some(NamedCap(name, detail))
  {
    NameLineRead(s, n, name, detail);
    PythonNamesColonFree();
    NamedAtFinds(s, n + 1, PythonErrorNames, name);
  }

  /** The file regex first matches at the start of a text laid out as a traceback. */
  lemma PyFileFirst(s: string, q: nat, d: nat, n: nat, file: string, l: string, mid: string)
    requires HasExt(file, "py") && '"' !in file && |l| > 0 && AllDigits(l) && (|mid| == 0 || !IsDigit(mid[0]))
    requires PyFrameLayout(s, q, d, n, file, l, mid)
    ensures Leftmost(s, PyFileAt) == Some(FileLineCap(file, l))
  {
    PyFrameSeparators(s, q, d, n, file, l, mid);
    PyFileRead(s, q, d, file, l);
    LeftmostAt(s, 0, PyFileAt, FileLineCap(file, l));
  }

  /** The Python error regex matches nowhere on a frame line without a colon. */
  lemma PyNoErrorOnFrame(s: string, q: nat, d: nat, n: nat, file: string, l: string, mid: string)
    requires ':' !in file && AllDigits(l) && ':' !in mid
    requires PyFrameLayout(s, q, d, n, file, l, mid)
    ensures forall k :: 0 <= k < n + 1 ==> PyErrorAt(s, k).None?
  {
    OccursChars(s, "\n", n);
    PyFrameNoColon(s, q, d, n, file, l, mid);
    PyNoErrorBefore(s, n);
  }

  /** The Python error regex first matches on the error line when it matches nowhere before. */
  lemma PyErrorFirst(s: string, n: nat, name: string, detail: string)
    requires n + 1 <= |s| && PyErrorAt(s, n + 1) == Some(NamedCap(name, detail))
    requires forall k :: 0 <= k < n + 1 ==> PyErrorAt(s, k).None?
    ensures Leftmost(s, PyErrorAt) == Some(NamedCap(name, detail))
  {
    LeftmostAt(s, n + 1, PyErrorAt, NamedCap(name, detail));
  }

  /** Both regexes of the traceback path find their parts in a traceback, whatever text stands for the line number. */
  lemma PyTextRead(file: string, l: string, mid: string, name: string, detail: string)
    requires HasExt(file, "py") && '"' !in file && ':' !in file && |l| > 0 && AllDigits(l)
    requires ':' !in mid && (|mid| == 0 || !IsDigit(mid[0]))
    requires name in PythonErrorNames && |detail| > 0 && '\n' !in detail
    ensures Leftmost(PyText(file, l, mid, name, detail), PyFileAt) == Some(FileLineCap(file, l))
    ensures Leftmost(PyText(file, l, mid, name, detail), PyErrorAt) == Some(NamedCap(name, detail))
  {
    var q := 6 + |file|; var d := q + 8 + |l|; var n := d + |mid|;
    PyTextLayout(file, l, mid, name, detail);
    PyFileFirst(PyText(file, l, mid, name, detail), q, d, n, file, l, mid);
    PyNoErrorOnFrame(PyText(file, l, mid, name, detail), q, d, n, file, l, mid);
    PyErrorRead(PyText(file, l, mid, name, detail), n, name, detail);
    PyErrorFirst(PyText(file, l, mid, name, detail), n, name, detail);
  }

  /** Without `requests.exceptions.` in the text, the requests regex matches nowhere. */
  lemma NoRequests(s: string)
    requires !Contains(s, "requests.exceptions.")
    ensures Leftmost(s, RequestsAt).None?
  {
    forall k | 0 <= k <= |s| ensures RequestsAt(s, k).None? {
      if RequestsAt(s, k).Some? {
        ContainsAt(s, "requests.exceptions.", k);
      }
    }
    LeftmostFromNone(s, 0, RequestsAt);
  }

  /**
   * A traceback naming a colon-free `.py` file, a 32-bit line and one of the
   * nine error names, without `requests.exceptions.` in it, is classified as
   * Python with exactly that file, line and `name: details` message, the kind
   * coming from the name and the details.
   */
  lemma PyTracebackParses(file: string, line: nat, mid: string, name: string, detail: string)
    requires HasExt(file, "py") && '"' !in file && ':' !in file && line <= U32_MAX
    requires ':' !in mid && (|mid| == 0 || !IsDigit(mid[0]))
    requires name in PythonErrorNames && |detail| > 0 && '\n' !in detail
    requires !Contains(PyTraceback(file, line, mid, name, detail), "requests.exceptions.")
    ensures ParsePython(PyTraceback(file, line, mid, name, detail)) ==
      Some(ParsedError(file, Some(line as u32), None, name + ": " + detail, PythonKind(name, detail), Python))
  {
    PyTextRead(file, NatToString(line), mid, name, detail);
    NoRequests(PyTraceback(file, line, mid, name, detail));
    NatToStringRoundTrip(line);
  }

  // ---------------------------------------------------------------- requests

  /** The line the requests library raises, `requests.exceptions.Name: details`. */
  function RequestsText(name: string, detail: string): string {
    "requests.exceptions." + (name + (": " + detail))
  }

  /** A requests line has the layout of its parts. */
  lemma RequestsTextLayout(name: string, detail: string)
    ensures var s := RequestsText(name, detail);
      OccursAt(s, "requests.exceptions.", 0) && OccursAt(s, name, 20) && OccursAt(s, ": ", 20 + |name|)
      && OccursAt(s, detail, 20 + |name| + 2) && |s| == 20 + |name| + 2 + |detail|
  {
  }

  /** The requests regex takes the name and the details of a requests line. */
  lemma RequestsRead(s: string, name: string, detail: string)
    requires |name| > 0 && (forall k :: 0 <= k < |name| ==> IsWordChar(name[k])) && |detail| > 0 && '\n' !in detail
    requires OccursAt(s, "requests.exceptions.", 0) && OccursAt(s, name, 20) && OccursAt(s, ": ", 20 + |name|)
    requires OccursAt(s, detail, 20 + |name| + 2) && |s| == 20 + |name| + 2 + |detail|
    ensures RequestsAt(s, 0) == Some(NamedCap(name, detail))
  {
    OccursChars(s, ": ", 20 + |name|);
    ClassRun(s, 20, name, IsWordChar);
    RestOfLineAt(s, 20 + |name| + 2, detail);
  }

  /** No quote stands in a requests line whose details have none. */
  lemma RequestsNoQuote(s: string, name: string, detail: string)
    requires (forall k :: 0 <= k < |name| ==> IsWordChar(name[k])) && '"' !in detail
    requires OccursAt(s, "requests.exceptions.", 0) && OccursAt(s, name, 20) && OccursAt(s, ": ", 20 + |name|)
    requires OccursAt(s, detail, 20 + |name| + 2) && |s| == 20 + |name| + 2 + |detail|
    ensures forall j :: 0 <= j < |s| ==> s[j] != '"'
  {
    OccursChars(s, "requests.exceptions.", 0);
    OccursChars(s, name, 20);
    OccursChars(s, ": ", 20 + |name|);
    OccursChars(s, detail, 20 + |name| + 2);
  }

  /** Without a quote in the text, the file regex matches nowhere. */
  lemma NoPyFile(s: string)
    requires forall j :: 0 <= j < |s| ==> s[j] != '"'
    ensures Leftmost(s, PyFileAt).None?
  {
    forall k | 0 <= k <= |s| ensures PyFileAt(s, k).None? {
      NotOccursAtChar(s, "File \"", k, k + 5);
    }
    LeftmostFromNone(s, 0, PyFileAt);
  }

  /**
   * A requests line with a word-character name and one-line details without
   * a quote is classified as Python in `unknown.py`, without line or column,
   * with the whole line as message and the kind coming from the name and the
   * details.
   */
  lemma RequestsLineParses(name: string, detail: string)
    requires |name| > 0 && (forall k :: 0 <= k < |name| ==> IsWordChar(name[k]))
    requires |detail| > 0 && '\n' !in detail && '"' !in detail
    ensures ParsePython(RequestsText(name, detail)) ==
      Some(ParsedError("unknown.py", None, None, "requests.exceptions." + name + ": " + detail,
        RequestsKind(name, detail), Python))
  {
    var s := RequestsText(name, detail);
    RequestsTextLayout(name, detail);
    RequestsRead(s, name, detail);
    LeftmostAt(s, 0, RequestsAt, NamedCap(name, detail));
    RequestsNoQuote(s, name, detail);
    NoPyFile(s);
  }
}
