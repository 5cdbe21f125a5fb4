/**
 * The text-level decisions of the project scanner: naming a language, mapping
 * file extensions to languages, and counting the errors found in the output
 * of the compilers, interpreters and linters it runs. Running those tools and
 * walking the directory tree are not modelled: their output, the extensions
 * of the entries found and the content of a file are parameters. What the
 * scanner prints is returned as events, as in `Fixer`.
 */
module Scanner {
  import opened Wrappers
  import opened Text
  import opened Pattern
  import opened Parser
  import opened Output
  import opened Fixer

  /** An error count together with what was printed while counting. */
  datatype Report = Report(count: nat, events: seq<Event>)

  // ---------------------------------------------------------------- languages

  /** The language named on the command line, ignoring case. */
  function DetectLanguageFromStr(s: string): Language {
    var l := Lower(s);
    if l == "cpp" || l == "c++" || l == "c" then Cpp
    else if l == "python" || l == "py" then Python
    else if l == "javascript" || l == "js" then JavaScript
    else if l == "typescript" || l == "ts" then TypeScript
    else if l == "rust" || l == "rs" then Rust
    else Language.Unknown
  }

  /** The language of a file extension, ignoring case; `None` for any other extension. */
  function ExtLanguage(ext: string): Option<Language> {
    var e := Lower(ext);
    if e == "cpp" || e == "cc" || e == "cxx" || e == "c" || e == "h" || e == "hpp" then Some(Cpp)
    else if e == "py" then Some(Python)
    else if e == "js" || e == "jsx" || e == "mjs" then Some(JavaScript)
    else if e == "ts" || e == "tsx" then Some(TypeScript)
    else if e == "rs" then Some(Rust)
    else None
  }

  /** The language of a directory entry, given its extension if it has one. */
  function EntryLanguage(ext: Option<string>): Option<Language> {
    if ext.Some? then ExtLanguage(ext.value) else None
  }

  /** The languages of the entries, each once, in the order they are first seen. */
  function Collected(exts: seq<Option<string>>): seq<Language>
    decreases |exts|
  {
    if |exts| == 0 then []
    else
      var langs := Collected(exts[..|exts| - 1]);
      var l := EntryLanguage(exts[|exts| - 1]);
      if l.Some? && l.value !in langs then langs + [l.value] else langs
  }

  /**
   * The languages present among the directory entries, whose extensions are
   * given in traversal order: a language is pushed when an entry maps to it
   * and it is not yet in the list.
   */
  method DetectLanguages(exts: seq<Option<string>>) returns (langs: seq<Language>)
    ensures langs == Collected(exts)
    ensures forall i, j :: 0 <= i < j < |langs| ==> langs[i] != langs[j]
    ensures forall l :: l in langs <==> exists k :: 0 <= k < |exts| && EntryLanguage(exts[k]) == Some(l)
  {
    langs := [];
    var i := 0;
    while i < |exts|
      invariant 0 <= i <= |exts|
      invariant langs == Collected(exts[..i])
      invariant forall a, b :: 0 <= a < b < |langs| ==> langs[a] != langs[b]
      invariant forall l :: l in langs <==> exists k :: 0 <= k < i && EntryLanguage(exts[k]) == Some(l)
    {
      assert exts[..i + 1][..i] == exts[..i];
      var lang := EntryLanguage(exts[i]);
      if lang.Some? {
        if lang.value !in langs {
          langs := langs + [lang.value];
        }
      }
      i := i + 1;
    }
    assert exts[..|exts|] == exts;
  }

  /** The number of errors found for a language; no checker runs for `Unknown`. */
  function CheckLanguage(lang: Language, checker: Language -> nat): nat {
    match lang
    case Unknown => 0
    case _ => checker(lang)
  }

  // ---------------------------------------------------------------- compiler output

  /** The lines that hold "error:", in order. */
  function ErrorLines(lines: seq<string>): seq<string>
    decreases |lines|
  {
    if |lines| == 0 then []
    else
      var last := lines[|lines| - 1];
      ErrorLines(lines[..|lines| - 1]) + (if Contains(last, "error:") then [last] else [])
  }

  lemma ErrorLinesStep(lines: seq<string>, i: nat)
    requires i < |lines|
    ensures ErrorLines(lines[..i + 1]) == ErrorLines(lines[..i]) + (if Contains(lines[i], "error:") then [lines[i]] else [])
  {
    assert lines[..i + 1][..i] == lines[..i];
  }

  /** One error event per line. */
  function ErrorEvents(lines: seq<string>): seq<Event> {
    seq(|lines|, k requires 0 <= k < |lines| => Error(lines[k]))
  }

  /** Each error line is printed; the whole output is analysed once, after the first. */
  function CompilerEvents(errs: seq<string>, output: string): seq<Event> {
    if |errs| == 0 then [] else [Error(errs[0]), Analysis(output)] + ErrorEvents(errs[1..])
  }

  lemma CompilerEventsStep(errs: seq<string>, x: string, output: string)
    requires |errs| > 0
    ensures CompilerEvents(errs + [x], output) == CompilerEvents(errs, output) + [Error(x)]
  {
    assert (errs + [x])[1..] == errs[1..] + [x];
    assert ErrorEvents(errs[1..] + [x]) == ErrorEvents(errs[1..]) + [Error(x)];
  }

  /** Counts the compiler's error lines, printing each and analysing the output at the first. */
  method ProcessCompilerErrors(output: string) returns (count: nat, events: seq<Event>)
    ensures count == |ErrorLines(Lines(output))|
    ensures events == CompilerEvents(ErrorLines(Lines(output)), output)
  {
    var lines := Lines(output);
    count := 0;
    events := [];
    var i := 0;
    while i < |lines|
      invariant 0 <= i <= |lines|
      invariant count == |ErrorLines(lines[..i])|
      invariant events == CompilerEvents(ErrorLines(lines[..i]), output)
    {
      ErrorLinesStep(lines, i);
      var line := lines[i];
      if Contains(line, "error:") {
        if count > 0 {
          CompilerEventsStep(ErrorLines(lines[..i]), line, output);
        }
        events := events + [Error(line)];
        count := count + 1;
        if count == 1 {
          events := events + [Analysis(output)];
        }
      }
      i := i + 1;
    }
    assert lines[..|lines|] == lines;
  }

  // ---------------------------------------------------------------- Python tracebacks

  predicate IsLocationLine(line: string) {
    Contains(line, "File \"") && Contains(line, ", line ")
  }

  predicate IsPythonErrorLine(line: string) {
    Contains(line, "Error:") || Contains(line, "Exception:")
  }

  /** A location line is shown, trimmed, as information. */
  function LocationInfo(line: string): seq<Event> {
    if IsLocationLine(line) then [Info(Trim(line))] else []
  }

  /**
   * Scanning from line `i`: location lines are shown as information, and the
   * first error line is shown, counted and followed by the analysis of the
   * whole text, which ends the scan.
   */
  function PythonScan(lines: seq<string>, i: nat, stderr: string): Report
    decreases |lines| - i
  {
    if i >= |lines| then Report(0, [])
    else if IsPythonErrorLine(lines[i]) then
      Report(1, LocationInfo(lines[i]) + [Error(Trim(lines[i])), Analysis(stderr)])
    else
      var rest := PythonScan(lines, i + 1, stderr);
      Report(rest.count, LocationInfo(lines[i]) + rest.events)
  }

  lemma PythonScanStep(lines: seq<string>, i: nat, stderr: string, before: seq<Event>)
    requires i < |lines|
    ensures IsPythonErrorLine(lines[i]) ==>
      before + PythonScan(lines, i, stderr).events
      == before + LocationInfo(lines[i]) + [Error(Trim(lines[i]))] + [Analysis(stderr)]
      && PythonScan(lines, i, stderr).count == 1
    ensures !IsPythonErrorLine(lines[i]) ==>
      before + PythonScan(lines, i, stderr).events
      == (before + LocationInfo(lines[i])) + PythonScan(lines, i + 1, stderr).events
      && PythonScan(lines, i, stderr).count == PythonScan(lines, i + 1, stderr).count
  {
  }

  /** The lines are scanned only when the text mentions a traceback or an error. */
  function PythonReport(stderr: string): Report {
    if Contains(stderr, "Traceback") || Contains(stderr, "Error:") then PythonScan(Lines(stderr), 0, stderr)
    else Report(0, [])
  }

  /** Reports at most one error from a Python traceback. */
  method ProcessPythonError(stderr: string) returns (count: nat, events: seq<Event>)
    ensures Report(count, events) == PythonReport(stderr)
  {
    count := 0;
    events := [];
    if Contains(stderr, "Traceback") || Contains(stderr, "Error:") {
      var lines := Lines(stderr);
      var i := 0;
      while i < |lines|
        invariant 0 <= i <= |lines|
        invariant count == 0
        invariant PythonScan(lines, 0, stderr).count == PythonScan(lines, i, stderr).count
        invariant PythonScan(lines, 0, stderr).events == events + PythonScan(lines, i, stderr).events
      {
        PythonScanStep(lines, i, stderr, events);
        var line := lines[i];
        events := events + LocationInfo(line);
        if IsPythonErrorLine(line) {
          events := events + [Error(Trim(line))];
          count := count + 1;
          // the fixer analyses the whole text
          events := events + [Analysis(stderr)];
          break;
        }
        i := i + 1;
      }
    }
  }

  // ---------------------------------------------------------------- JavaScript errors

  /** The first line, from line `i` on, that satisfies `p`. */
  function FirstFrom(lines: seq<string>, i: nat, p: string -> bool): Option<string>
    decreases |lines| - i
  {
    if i >= |lines| then None
    else if p(lines[i]) then Some(lines[i])
    else FirstFrom(lines, i + 1, p)
  }

  /** Finds the first line that satisfies `p`. */
  method FindFirst(lines: seq<string>, p: string -> bool) returns (r: Option<string>)
    ensures r == FirstFrom(lines, 0, p)
  {
    var i := 0;
    while i < |lines|
      invariant 0 <= i <= |lines|
      invariant FirstFrom(lines, 0, p) == FirstFrom(lines, i, p)
    {
      if p(lines[i]) {
        return Some(lines[i]);
      }
      i := i + 1;
    }
    return None;
  }

  predicate IsSyntaxErrorLine(line: string) {
    Contains(line, "SyntaxError:")
  }

  predicate HasErrorColon(line: string) {
    Contains(line, "Error:")
  }

  predicate IsTrimmedErrorLine(line: string) {
    Contains(Trim(line), "Error:") || Contains(Trim(line), "error:")
  }

  /** `Cannot find module '([^']+)'`. */
  function ModuleAt(s: string, i: nat): Option<string> {
    DelimitedAt(s, i, "Cannot find module '", '\'', "")
  }

  /** The quoted module name of the leftmost `Cannot find module '…'`, or "unknown". */
  function ModuleName(stderr: string): string {
    var m := Leftmost(stderr, ModuleAt);
    if m.Some? then m.value else "unknown"
  }

  /** A line indented by two spaces, as printed raw. */
  function IndentedLines(lines: seq<string>): seq<Event> {
    seq(|lines|, k requires 0 <= k < |lines| => Plain("  " + lines[k]))
  }

  /** At most the first five lines. */
  function FirstFive(lines: seq<string>): seq<string> {
    if |lines| <= 5 then lines else lines[..5]
  }

  /** The reference- or type-error branch: counted only when a line holds "Error:". */
  function JsRuntimeReport(stderr: string, filePath: string): Report {
    if Contains(stderr, "ReferenceError") || Contains(stderr, "TypeError") then
      var f := FirstFrom(Lines(stderr), 0, HasErrorColon);
      if f.Some? then Report(1, [Error(Trim(f.value)), Location(filePath, None, None), Analysis(stderr)])
      else Report(0, [])
    else Report(0, [])
  }

  /** The generic branch: the first trimmed error line, or else the first five lines raw. */
  function JsGenericEvents(stderr: string, filePath: string): seq<Event> {
    var f := FirstFrom(Lines(stderr), 0, IsTrimmedErrorLine);
    [Error("Error in " + filePath)]
    + (if f.Some? then [Error(Trim(f.value))] else IndentedLines(FirstFive(Lines(stderr))))
  }

  /** What `node` reported for a JavaScript file, reduced to at most one error. */
  function JsReport(stderr: string, filePath: string): Report {
    if Contains(stderr, "Cannot find module") then
      var m := ModuleName(stderr);
      Report(1, [Error("Module not found: '" + m + "'"), Location(filePath, Some(1), None),
                 Section("How to Fix"), Plain("  Install the missing module:"), Plain("    npm install " + m)])
    else if Contains(stderr, "SyntaxError") then
      var f := FirstFrom(Lines(stderr), 0, IsSyntaxErrorLine);
      Report(1, [Error("Syntax Error in JavaScript"), Location(filePath, None, None)]
                + (if f.Some? then [Error(Trim(f.value))] else []) + [Analysis(stderr)])
    else
      var r := JsRuntimeReport(stderr, filePath);
      if r.count == 0 && Contains(stderr, "Error") then Report(1, r.events + JsGenericEvents(stderr, filePath))
      else r
  }

  /** Shows the first five lines raw, indented by two spaces. */
  method IndentFirstFive(lines: seq<string>) returns (events: seq<Event>)
    ensures events == IndentedLines(FirstFive(lines))
  {
    events := [];
    var i := 0;
    while i < |lines| && i < 5
      invariant 0 <= i <= |lines| && i <= 5
      invariant events == IndentedLines(lines[..i])
    {
      assert IndentedLines(lines[..i + 1]) == IndentedLines(lines[..i]) + [Plain("  " + lines[i])];
      events := events + [Plain("  " + lines[i])];
      i := i + 1;
    }
    assert lines[..i] == FirstFive(lines);
  }

  /** The reference- and type-error branch. */
  method ProcessJsRuntimeError(stderr: string, filePath: string) returns (count: nat, events: seq<Event>)
    ensures Report(count, events) == JsRuntimeReport(stderr, filePath)
  {
    count := 0;
    events := [];
    if Contains(stderr, "ReferenceError") || Contains(stderr, "TypeError") {
      var f := FindFirst(Lines(stderr), HasErrorColon);
      if f.Some? {
        events := events + [Error(Trim(f.value))];
        count := count + 1;
      }
      if count > 0 {
        events := events + [Location(filePath, None, None), Analysis(stderr)];
      }
    }
  }

  /** Reports at most one error from what `node` printed for a JavaScript file. */
  method ProcessJsError(stderr: string, filePath: string) returns (count: nat, events: seq<Event>)
    ensures Report(count, events) == JsReport(stderr, filePath)
  {
    if Contains(stderr, "Cannot find module") {
      var m := ModuleName(stderr);
      events := [Error("Module not found: '" + m + "'"), Location(filePath, Some(1), None),
                 Section("How to Fix"), Plain("  Install the missing module:"), Plain("    npm install " + m)];
      count := 1;
      return;
    }
    if Contains(stderr, "SyntaxError") {
      events := [Error("Syntax Error in JavaScript"), Location(filePath, None, None)];
      var f := FindFirst(Lines(stderr), IsSyntaxErrorLine);
      if f.Some? {
        events := events + [Error(Trim(f.value))];
      }
      events := events + [Analysis(stderr)];
      count := 1;
      return;
    }
    count, events := ProcessJsRuntimeError(stderr, filePath);
    if count == 0 && Contains(stderr, "Error") {
      events := events + [Error("Error in " + filePath)];
      var f := FindFirst(Lines(stderr), IsTrimmedErrorLine);
      if f.Some? {
        events := events + [Error(Trim(f.value))];
      } else {
        var raw := IndentFirstFive(Lines(stderr));
        events := events + raw;
      }
      count := 1;
    }
  }

  // ---------------------------------------------------------------- Python source heuristics

  /** The hazards a risky fragment of Python source may signal. */
  datatype Hazard = GetenvNone | DictGetNone | JsonKeyError | DictKeyError | LowerOnNone | UpperOnNone | IsoFormat

  /** The warning printed for a hazard. */
  function HazardText(h: Hazard): string {
    match h
    case GetenvNone => "Possible None value from getenv - check if variable exists"
    case DictGetNone => "Dictionary .get() may return None - handle None case"
    case JsonKeyError => "Direct JSON access may raise KeyError - use .get()"
    case DictKeyError => "Direct dict access may raise KeyError if key missing"
    case LowerOnNone => "Calling .lower() on possibly None value"
    case UpperOnNone => "Calling .upper() on possibly None value"
    case IsoFormat => "fromisoformat() will fail on None or invalid string"
  }

  /** A risky fragment of Python source and the hazard it signals. */
  datatype Risk = Risk(pattern: string, hazard: Hazard)

  /** The fragments looked for, in order. */
  function RiskPatterns(): seq<Risk> {
    [Risk("os.getenv(", GetenvNone), Risk(".get(\"", DictGetNone), Risk("r.json()[", JsonKeyError),
     Risk("data[\"", DictKeyError), Risk(".lower()", LowerOnNone), Risk(".upper()", UpperOnNone),
     Risk("datetime.fromisoformat(", IsoFormat)]
  }

  /** The 1-based number of the first line, from line `i` on, holding `p`; 0 when there is none. */
  function LineNumberFrom(lines: seq<string>, p: string, i: nat): nat
    decreases |lines| - i
  {
    if i >= |lines| then 0
    else if Contains(lines[i], p) then i + 1
    else LineNumberFrom(lines, p, i + 1)
  }

  /** The 1-based number of the first line of `content` holding `p`, or 0. */
  function LineNumber(content: string, p: string): nat {
    LineNumberFrom(Lines(content), p, 0)
  }

  method LineNumberOf(content: string, p: string) returns (n: nat)
    ensures n == LineNumber(content, p)
  {
    var lines := Lines(content);
    var i := 0;
    while i < |lines|
      invariant 0 <= i <= |lines|
      invariant LineNumberFrom(lines, p, 0) == LineNumberFrom(lines, p, i)
    {
      if Contains(lines[i], p) {
        return i + 1;
      }
      i := i + 1;
    }
    return 0;
  }

  /** The warning for a fragment found on line `n`. */
  function RiskWarning(fileName: string, n: nat, r: Risk): Event {
    Warning(fileName + ":" + NatToString(n) + " - " + HazardText(r.hazard))
  }

  /** Warnings for the fragments of `risks` that occur in the content, in order. */
  function RiskReport(content: string, fileName: string, risks: seq<Risk>): Report
    decreases |risks|
  {
    if |risks| == 0 then Report(0, [])
    else
      var prev := RiskReport(content, fileName, risks[..|risks| - 1]);
      var r := risks[|risks| - 1];
      var n := LineNumber(content, r.pattern);
      if Contains(content, r.pattern) && n > 0 then Report(prev.count + 1, prev.events + [RiskWarning(fileName, n, r)])
      else prev
  }

  /** An f-string built from `os.getenv` next to something URL-like. */
  predicate UrlRisk(content: string) {
    Contains(content, "f\"") && Contains(content, "os.getenv")
    && (Contains(content, "http") || Contains(content, "url") || Contains(content, "URL"))
  }

  function PythonFileReport(content: string, fileName: string): Report {
    var r := RiskReport(content, fileName, RiskPatterns());
    if UrlRisk(content) then
      Report(r.count + 1, r.events + [Warning(fileName + " - Using getenv in URL string - " + "will be 'None' if env var missing!")])
    else r
  }

  /** Counts the risky fragments in a Python file's content, warning with the line of each. */
  method AnalyzePythonFile(content: string, fileName: string) returns (issues: nat, events: seq<Event>)
    ensures Report(issues, events) == PythonFileReport(content, fileName)
  {
    var risks := RiskPatterns();
    issues := 0;
    events := [];
    var k := 0;
    while k < |risks|
      invariant 0 <= k <= |risks|
      invariant Report(issues, events) == RiskReport(content, fileName, risks[..k])
    {
      assert risks[..k + 1][..k] == risks[..k];
      var r := risks[k];
      if Contains(content, r.pattern) {
        var lineNum := LineNumberOf(content, r.pattern);
        if lineNum > 0 {
          events := events + [RiskWarning(fileName, lineNum, r)];
          issues := issues + 1;
        }
      }
      k := k + 1;
    }
    assert risks[..|risks|] == risks;
    if UrlRisk(content) {
      events := events + [Warning(fileName + " - Using getenv in URL string - " + "will be 'None' if env var missing!")];
      issues := issues + 1;
    }
  }
}
