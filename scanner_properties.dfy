/** What the scanner's text-level decisions promise. */
module ScannerProperties {
  import opened Wrappers
  import opened Text
  import opened Parser
  import opened Output
  import opened Scanner

  // ---------------------------------------------------------------- detect_language_from_str

  /** Names that agree after lower-casing name the same language. */
  lemma DetectIgnoresCase(s1: string, s2: string)
    requires Lower(s1) == Lower(s2)
    ensures DetectLanguageFromStr(s1) == DetectLanguageFromStr(s2)
  {
  }

  /** The display name of every language is read back as that language. */
  lemma DetectDisplayName(l: Language)
    ensures DetectLanguageFromStr(LanguageName(l)) == l
  {
    match l
    case Cpp => assert Lower("C++") == "c++";
    case Python => assert Lower("Python") == "python";
    case JavaScript => assert Lower("JavaScript") == "javascript";
    case TypeScript => assert Lower("TypeScript") == "typescript";
    case Rust => assert Lower("Rust") == "rust";
    case Unknown => assert Lower("Unknown") == "unknown";
  }

  lemma DetectCppVariants()
    ensures DetectLanguageFromStr("cpp") == Cpp && DetectLanguageFromStr("c++") == Cpp
    ensures DetectLanguageFromStr("c") == Cpp && DetectLanguageFromStr("CPP") == Cpp
    ensures DetectLanguageFromStr("C++") == Cpp
  {
    assert Lower("cpp") == "cpp" && Lower("c++") == "c++" && Lower("c") == "c";
    assert Lower("CPP") == "cpp" && Lower("C++") == "c++";
  }

  lemma DetectOtherVariants()
    ensures DetectLanguageFromStr("py") == Python && DetectLanguageFromStr("PY") == Python
    ensures DetectLanguageFromStr("js") == JavaScript && DetectLanguageFromStr("JS") == JavaScript
    ensures DetectLanguageFromStr("ts") == TypeScript && DetectLanguageFromStr("TS") == TypeScript
    ensures DetectLanguageFromStr("rs") == Rust && DetectLanguageFromStr("RS") == Rust
  {
    assert Lower("py") == "py" && Lower("PY") == "py";
    assert Lower("js") == "js" && Lower("JS") == "js";
    assert Lower("ts") == "ts" && Lower("TS") == "ts";
    assert Lower("rs") == "rs" && Lower("RS") == "rs";
  }

  /** Other names, the empty one included, are unknown. */
  lemma DetectUnknownNames()
    ensures DetectLanguageFromStr("java") == Language.Unknown
    ensures DetectLanguageFromStr("go") == Language.Unknown
    ensures DetectLanguageFromStr("ruby") == Language.Unknown
    ensures DetectLanguageFromStr("") == Language.Unknown
    ensures DetectLanguageFromStr("random") == Language.Unknown
  {
    assert Lower("java") == "java" && Lower("go") == "go" && Lower("ruby") == "ruby";
    assert Lower("") == "" && Lower("random") == "random";
  }

  // ---------------------------------------------------------------- the extension map

  /** No extension maps to `Unknown`. */
  lemma ExtNeverUnknown(ext: string)
    ensures ExtLanguage(ext) != Some(Language.Unknown)
  {
  }

  /** The scanner's C++ extensions are the parser's, compared after lower-casing. */
  lemma ExtCppAgreesWithParser(ext: string)
    ensures ExtLanguage(ext) == Some(Cpp) <==> Lower(ext) in CppExts
  {
  }

  /** The scanner's JavaScript and TypeScript extensions are the parser's, compared after lower-casing. */
  lemma ExtJsAgreesWithParser(ext: string)
    ensures (ExtLanguage(ext) == Some(JavaScript) || ExtLanguage(ext) == Some(TypeScript)) <==> Lower(ext) in JsExts
    ensures ExtLanguage(ext) == Some(TypeScript) <==> Lower(ext) == "ts" || Lower(ext) == "tsx"
  {
  }

  /** The short names the command line accepts map to the same language as extensions. */
  lemma ShortNamesAgree()
    ensures ExtLanguage("c") == Some(DetectLanguageFromStr("c"))
    ensures ExtLanguage("py") == Some(DetectLanguageFromStr("py"))
    ensures ExtLanguage("js") == Some(DetectLanguageFromStr("js"))
    ensures ExtLanguage("ts") == Some(DetectLanguageFromStr("ts"))
    ensures ExtLanguage("rs") == Some(DetectLanguageFromStr("rs"))
  {
    assert Lower("c") == "c" && Lower("py") == "py" && Lower("js") == "js";
    assert Lower("ts") == "ts" && Lower("rs") == "rs";
  }

  // ---------------------------------------------------------------- detect_languages

  /** Each language is collected at most once. */
  lemma {:induction false} CollectedNoDuplicates(exts: seq<Option<string>>)
    ensures forall i, j :: 0 <= i < j < |Collected(exts)| ==> Collected(exts)[i] != Collected(exts)[j]
    decreases |exts|
  {
    if |exts| > 0 {
      CollectedNoDuplicates(exts[..|exts| - 1]);
    }
  }

  /** A language is collected exactly when some entry maps to it. */
  lemma {:induction false} CollectedLanguages(exts: seq<Option<string>>)
    ensures forall l :: l in Collected(exts) <==> exists k :: 0 <= k < |exts| && EntryLanguage(exts[k]) == Some(l)
    decreases |exts|
  {
    if |exts| > 0 {
      CollectedLanguages(exts[..|exts| - 1]);
      forall l ensures l in Collected(exts) <==> exists k :: 0 <= k < |exts| && EntryLanguage(exts[k]) == Some(l) {
        CollectedStep(exts, l);
        EntryStep(exts, l);
      }
    }
  }

  /** The last entry adds its language to those of the entries before it. */
  lemma CollectedStep(exts: seq<Option<string>>, l: Language)
    requires |exts| > 0
    ensures l in Collected(exts) <==> l in Collected(exts[..|exts| - 1]) || EntryLanguage(exts[|exts| - 1]) == Some(l)
  {
  }

  /** An entry maps to `l` when one before the last does or the last does. */
  lemma EntryStep(exts: seq<Option<string>>, l: Language)
    requires |exts| > 0
    ensures var init := exts[..|exts| - 1];
      (exists k :: 0 <= k < |exts| && EntryLanguage(exts[k]) == Some(l))
      <==> (exists k :: 0 <= k < |init| && EntryLanguage(init[k]) == Some(l)) || EntryLanguage(exts[|exts| - 1]) == Some(l)
  {
    var init := exts[..|exts| - 1];
    if exists k :: 0 <= k < |init| && EntryLanguage(init[k]) == Some(l) {
      var k :| 0 <= k < |init| && EntryLanguage(init[k]) == Some(l);
      assert exts[k] == init[k];
    }
    if exists k :: 0 <= k < |exts| && EntryLanguage(exts[k]) == Some(l) {
      var k :| 0 <= k < |exts| && EntryLanguage(exts[k]) == Some(l);
      if k < |init| {
        assert init[k] == exts[k];
      }
    }
  }

  /** Later entries only append: the languages of a prefix of the entries lead those of all. */
  lemma {:induction false} CollectedPrefix(exts: seq<Option<string>>, n: nat)
    requires n <= |exts|
    ensures Collected(exts[..n]) <= Collected(exts)
    decreases |exts|
  {
    if n < |exts| {
      var init := exts[..|exts| - 1];
      CollectedPrefix(init, n);
      assert init[..n] == exts[..n];
    } else {
      assert exts[..n] == exts;
    }
  }

  /** A distinct sequence has as many elements as its set. */
  lemma {:induction false} DistinctCard(xs: seq<Language>)
    requires forall i, j :: 0 <= i < j < |xs| ==> xs[i] != xs[j]
    ensures |set x | x in xs| == |xs|
    decreases |xs|
  {
    if |xs| > 0 {
      var init := xs[..|xs| - 1];
      DistinctCard(init);
      assert (set x | x in xs) == (set x | x in init) + {xs[|xs| - 1]};
      assert xs[|xs| - 1] !in init;
    }
  }

  lemma SubsetCard(a: set<Language>, b: set<Language>)
    requires a <= b
    ensures |a| <= |b|
  {
    assert b == a + (b - a);
  }

  /** Only the five supported languages are found, each at most once. */
  lemma CollectedAtMostFive(exts: seq<Option<string>>)
    ensures Language.Unknown !in Collected(exts)
    ensures |Collected(exts)| <= 5
  {
    var langs := Collected(exts);
    var known := {Cpp, Python, JavaScript, TypeScript, Rust};
    CollectedNoDuplicates(exts);
    CollectedLanguages(exts);
    var found := set x | x in langs;
    forall l | l in found ensures l in known {
      var k :| 0 <= k < |exts| && EntryLanguage(exts[k]) == Some(l);
      EntryLanguageKnown(exts[k]);
    }
    DistinctCard(langs);
    SubsetCard(found, known);
  }

  /** An entry maps to one of the five supported languages or to none. */
  lemma EntryLanguageKnown(ext: Option<string>)
    ensures EntryLanguage(ext).Some? ==> EntryLanguage(ext).value in {Cpp, Python, JavaScript, TypeScript, Rust}
  {
  }

  lemma CollectedTypeScript()
    ensures Collected([Some("ts"), Some("tsx")]) == [TypeScript]
  {
    assert Lower("ts") == "ts" && Lower("tsx") == "tsx";
    assert [Some("ts"), Some("tsx")][..1] == [Some("ts")];
  }

  lemma CollectedCppHeaders()
    ensures Collected([Some("cpp"), Some("cc"), Some("h"), Some("hpp")]) == [Cpp]
  {
    assert Lower("cpp") == "cpp" && Lower("cc") == "cc" && Lower("h") == "h" && Lower("hpp") == "hpp";
    assert [Some("cpp"), Some("cc"), Some("h"), Some("hpp")][..3] == [Some("cpp"), Some("cc"), Some("h")];
    assert [Some("cpp"), Some("cc"), Some("h")][..2] == [Some("cpp"), Some("cc")];
    assert [Some("cpp"), Some("cc")][..1] == [Some("cpp")];
  }

  lemma CollectedMixed()
    ensures Collected([Some("py"), Some("js"), Some("cpp")]) == [Python, JavaScript, Cpp]
  {
    assert Lower("py") == "py" && Lower("js") == "js" && Lower("cpp") == "cpp";
    assert [Some("py"), Some("js"), Some("cpp")][..2] == [Some("py"), Some("js")];
    assert [Some("py"), Some("js")][..1] == [Some("py")];
  }

  lemma CollectedNothing()
    ensures Collected([]) == []
    ensures Collected([None, Some("md")]) == []
  {
    assert Lower("md") == "md";
    assert [None, Some("md")][..1] == [None];
  }

  // ---------------------------------------------------------------- check_language

  /** No checker runs, and nothing is counted, for `Unknown`. */
  lemma CheckUnknownIsZero(checker: Language -> nat)
    ensures CheckLanguage(Language.Unknown, checker) == 0
    ensures forall l :: l != Language.Unknown ==> CheckLanguage(l, checker) == checker(l)
  {
  }

  // ---------------------------------------------------------------- process_compiler_errors

  /** The error lines are exactly the lines holding "error:", in order. */
  lemma {:induction false} ErrorLinesExactly(lines: seq<string>)
    ensures |ErrorLines(lines)| <= |lines|
    ensures forall x :: x in ErrorLines(lines) ==> x in lines && Contains(x, "error:")
    ensures |ErrorLines(lines)| > 0 <==> exists k :: 0 <= k < |lines| && Contains(lines[k], "error:")
    decreases |lines|
  {
    if |lines| > 0 {
      var init := lines[..|lines| - 1];
      ErrorLinesExactly(init);
      forall x | x in ErrorLines(init) ensures x in lines {
        var k :| 0 <= k < |init| && init[k] == x;
        assert lines[k] == x;
      }
      if exists k :: 0 <= k < |init| && Contains(init[k], "error:") {
        var k :| 0 <= k < |init| && Contains(init[k], "error:");
        assert lines[k] == init[k];
      }
      if exists k :: 0 <= k < |lines| && Contains(lines[k], "error:") {
        var k :| 0 <= k < |lines| && Contains(lines[k], "error:");
        if k < |init| {
          assert init[k] == lines[k];
        }
      }
    }
  }

  /** Some line holds "error:" exactly when the output does, as the pattern holds no line break. */
  lemma LinesHoldPattern(s: string, p: string)
    requires |p| > 0 && '\n' !in p && '\r' !in p
    ensures (exists k :: 0 <= k < |Lines(s)| && Contains(Lines(s)[k], p)) <==> Contains(s, p)
  {
    if Contains(s, p) {
      LinesCover(s, p);
    }
    if exists k :: 0 <= k < |Lines(s)| && Contains(Lines(s)[k], p) {
      var k :| 0 <= k < |Lines(s)| && Contains(Lines(s)[k], p);
      LineContained(s, k);
      ContainsTransitive(s, Lines(s)[k], p);
    }
  }

  /** At least one compiler error is counted exactly when the output mentions "error:". */
  lemma CompilerErrorsFound(output: string)
    ensures |ErrorLines(Lines(output))| > 0 <==> Contains(output, "error:")
  {
    ErrorLinesExactly(Lines(output));
    LinesHoldPattern(output, "error:");
  }

  /** The fixer runs once, right after the first error line, and never again. */
  lemma CompilerAnalysisOnce(errs: seq<string>, output: string)
    ensures |errs| == 0 ==> CompilerEvents(errs, output) == []
    ensures |errs| > 0 ==>
      |CompilerEvents(errs, output)| == |errs| + 1
      && CompilerEvents(errs, output)[0] == Error(errs[0]) && CompilerEvents(errs, output)[1] == Analysis(output)
    ensures forall k :: 0 <= k < |CompilerEvents(errs, output)| && k != 1 ==> CompilerEvents(errs, output)[k].Error?
  {
    if |errs| > 0 {
      var ev := CompilerEvents(errs, output);
      assert ev == [Error(errs[0]), Analysis(output)] + ErrorEvents(errs[1..]);
      forall k | 2 <= k < |ev| ensures ev[k].Error? {
        assert ev[k] == ErrorEvents(errs[1..])[k - 2];
      }
    }
  }

  // ---------------------------------------------------------------- process_python_error

  /** From line `i`, at most one error is counted, exactly when an error line follows. */
  lemma {:induction false} PythonScanCount(lines: seq<string>, i: nat, stderr: string)
    ensures PythonScan(lines, i, stderr).count <= 1
    ensures PythonScan(lines, i, stderr).count == 1 <==> exists k :: i <= k < |lines| && IsPythonErrorLine(lines[k])
    decreases |lines| - i
  {
    if i < |lines| && !IsPythonErrorLine(lines[i]) {
      PythonScanCount(lines, i + 1, stderr);
      if exists k :: i <= k < |lines| && IsPythonErrorLine(lines[k]) {
        var k :| i <= k < |lines| && IsPythonErrorLine(lines[k]);
        assert k != i;
      }
    }
  }

  /**
   * A traceback yields one error exactly when it mentions "Error:", or when
   * it holds "Traceback" and "Exception:"; otherwise none.
   */
  lemma PythonErrorCount(stderr: string)
    ensures PythonReport(stderr).count <= 1
    ensures PythonReport(stderr).count == 1 <==>
      Contains(stderr, "Error:") || (Contains(stderr, "Traceback") && Contains(stderr, "Exception:"))
  {
    if Contains(stderr, "Traceback") || Contains(stderr, "Error:") {
      assert PythonReport(stderr) == PythonScan(Lines(stderr), 0, stderr);
      PythonScanCount(Lines(stderr), 0, stderr);
      PythonErrorLineExists(stderr);
    }
  }

  /** Some line is an error line exactly when the text holds "Error:" or "Exception:". */
  lemma PythonErrorLineExists(stderr: string)
    ensures (exists k :: 0 <= k < |Lines(stderr)| && IsPythonErrorLine(Lines(stderr)[k])) <==>
      Contains(stderr, "Error:") || Contains(stderr, "Exception:")
  {
    var lines := Lines(stderr);
    LinesHoldPattern(stderr, "Error:");
    LinesHoldPattern(stderr, "Exception:");
    if exists k :: 0 <= k < |lines| && IsPythonErrorLine(lines[k]) {
      var k :| 0 <= k < |lines| && IsPythonErrorLine(lines[k]);
      assert Contains(lines[k], "Error:") || Contains(lines[k], "Exception:");
    }
    if Contains(stderr, "Error:") {
      var k :| 0 <= k < |lines| && Contains(lines[k], "Error:");
      assert IsPythonErrorLine(lines[k]);
    } else if Contains(stderr, "Exception:") {
      var k :| 0 <= k < |lines| && Contains(lines[k], "Exception:");
      assert IsPythonErrorLine(lines[k]);
    }
  }

  /** A counted error ends with the fixer's analysis; otherwise only location lines are shown. */
  lemma {:induction false} PythonScanEvents(lines: seq<string>, i: nat, stderr: string)
    ensures PythonScan(lines, i, stderr).count == 1 ==>
      |PythonScan(lines, i, stderr).events| >= 2
      && PythonScan(lines, i, stderr).events[|PythonScan(lines, i, stderr).events| - 1] == Analysis(stderr)
    ensures PythonScan(lines, i, stderr).count == 0 ==>
      forall k :: 0 <= k < |PythonScan(lines, i, stderr).events| ==> PythonScan(lines, i, stderr).events[k].Info?
    decreases |lines| - i
  {
    if i < |lines| && !IsPythonErrorLine(lines[i]) {
      PythonScanEvents(lines, i + 1, stderr);
      var info: seq<Event> := LocationInfo(lines[i]);
      var rest: seq<Event> := PythonScan(lines, i + 1, stderr).events;
      assert PythonScan(lines, i, stderr).events == info + rest;
      if PythonScan(lines, i, stderr).count == 0 {
        forall k | 0 <= k < |info + rest| ensures (info + rest)[k].Info? {
          if k >= |info| {
            assert (info + rest)[k] == rest[k - |info|];
          }
        }
      }
    }
  }

  // ---------------------------------------------------------------- process_js_error

  /** The first line satisfying `p`, if any, from line `i` on. */
  lemma {:induction false} FirstFromSpec(lines: seq<string>, i: nat, p: string -> bool)
    ensures FirstFrom(lines, i, p).Some? ==>
      p(FirstFrom(lines, i, p).value) && exists k :: i <= k < |lines| && lines[k] == FirstFrom(lines, i, p).value
    ensures FirstFrom(lines, i, p).None? <==> forall k :: i <= k < |lines| ==> !p(lines[k])
    decreases |lines| - i
  {
    if i < |lines| && !p(lines[i]) {
      FirstFromSpec(lines, i + 1, p);
      forall k | i <= k < |lines| && FirstFrom(lines, i, p).None? ensures !p(lines[k]) {
      }
    }
  }

  /** "Error" occurs in every text that holds a longer name ending in it. */
  lemma ErrorInName(stderr: string, name: string, prefix: string)
    requires name == prefix + "Error" && Contains(stderr, name)
    ensures Contains(stderr, "Error")
  {
    ContainsSuffix(prefix, "Error");
    ContainsTransitive(stderr, name, "Error");
  }

  /**
   * A JavaScript failure counts one error exactly when the text mentions a
   * missing module or contains "Error" anywhere; otherwise none.
   */
  lemma JsErrorCount(stderr: string, filePath: string)
    ensures JsReport(stderr, filePath).count ==
      (if Contains(stderr, "Cannot find module") || Contains(stderr, "Error") then 1 else 0)
  {
    if Contains(stderr, "SyntaxError") {
      ErrorInName(stderr, "SyntaxError", "Syntax");
    }
    if Contains(stderr, "ReferenceError") {
      ErrorInName(stderr, "ReferenceError", "Reference");
    }
    if Contains(stderr, "TypeError") {
      ErrorInName(stderr, "TypeError", "Type");
    }
  }

  /** A missing module is reported with the install command and no analysis by the fixer. */
  lemma JsMissingModule(stderr: string, filePath: string)
    requires Contains(stderr, "Cannot find module")
    ensures JsReport(stderr, filePath).events[4] == Plain("    npm install " + ModuleName(stderr))
    ensures JsReport(stderr, filePath).events[1] == Location(filePath, Some(1), None)
    ensures forall k :: 0 <= k < |JsReport(stderr, filePath).events| ==> !JsReport(stderr, filePath).events[k].Analysis?
  {
  }

  /** The module name is the quoted text of a `Cannot find module '…'` in the output, or "unknown". */
  lemma ModuleNameShape(stderr: string)
    ensures ModuleName(stderr) == "unknown" ||
      (|ModuleName(stderr)| > 0 && '\'' !in ModuleName(stderr)
       && Contains(stderr, "Cannot find module '" + ModuleName(stderr) + "'"))
  {
    var m := Pattern.Leftmost(stderr, ModuleAt);
    if m.Some? {
      var j := Pattern.LeftmostFound(stderr, ModuleAt);
      var v := m.value;
      var b := j + |"Cannot find module '"|;
      assert stderr[j..b] == "Cannot find module '";
      assert stderr[b..b + |v|] == v;
      assert stderr[b + |v|] == '\'';
      assert stderr[j..b + |v| + 1] == "Cannot find module '" + v + "'";
      ContainsAt(stderr, "Cannot find module '" + v + "'", j);
    }
  }

  /** A syntax error shows the first line naming it, then hands the whole text to the fixer. */
  lemma JsSyntaxError(stderr: string, filePath: string)
    requires !Contains(stderr, "Cannot find module") && Contains(stderr, "SyntaxError")
    ensures JsReport(stderr, filePath).events[..2] == [Error("Syntax Error in JavaScript"), Location(filePath, None, None)]
    ensures JsReport(stderr, filePath).events[|JsReport(stderr, filePath).events| - 1] == Analysis(stderr)
  {
  }

  // ---------------------------------------------------------------- analyze_python_file

  /** The line number points at the first line holding the pattern, or is 0 when none does. */
  lemma {:induction false} LineNumberFromSpec(lines: seq<string>, p: string, i: nat)
    ensures LineNumberFrom(lines, p, i) > 0 ==>
      i < LineNumberFrom(lines, p, i) <= |lines| && Contains(lines[LineNumberFrom(lines, p, i) - 1], p)
      && forall k :: i <= k < LineNumberFrom(lines, p, i) - 1 ==> !Contains(lines[k], p)
    ensures LineNumberFrom(lines, p, i) == 0 <==> forall k :: i <= k < |lines| ==> !Contains(lines[k], p)
    decreases |lines| - i
  {
    if i < |lines| && !Contains(lines[i], p) {
      LineNumberFromSpec(lines, p, i + 1);
    }
  }

  /** A pattern without line breaks that occurs in the content has a line number. */
  lemma LineNumberPositive(content: string, p: string)
    requires |p| > 0 && '\n' !in p && '\r' !in p && Contains(content, p)
    ensures LineNumber(content, p) > 0
  {
    LinesHoldPattern(content, p);
    LineNumberFromSpec(Lines(content), p, 0);
  }

  /** The number of fragments of `risks` that occur in the content. */
  function CountPresent(content: string, risks: seq<Risk>): nat
    decreases |risks|
  {
    if |risks| == 0 then 0
    else CountPresent(content, risks[..|risks| - 1]) + (if Contains(content, risks[|risks| - 1].pattern) then 1 else 0)
  }

  predicate SingleLine(p: string) {
    |p| > 0 && '\n' !in p && '\r' !in p
  }

  /** The line-number guard never drops a fragment that holds no line break. */
  lemma {:induction false} RiskReportCount(content: string, fileName: string, risks: seq<Risk>)
    requires forall k :: 0 <= k < |risks| ==> SingleLine(risks[k].pattern)
    ensures RiskReport(content, fileName, risks).count == CountPresent(content, risks)
    ensures |RiskReport(content, fileName, risks).events| == RiskReport(content, fileName, risks).count
    decreases |risks|
  {
    if |risks| > 0 {
      var last := risks[|risks| - 1];
      RiskReportCount(content, fileName, risks[..|risks| - 1]);
      if Contains(content, last.pattern) {
        LineNumberPositive(content, last.pattern);
      }
    }
  }

  lemma FragmentsSingleLineFirst()
    ensures SingleLine("os.getenv(") && SingleLine(".get(\"") && SingleLine("r.json()[")
  {
  }

  lemma FragmentsSingleLineLast()
    ensures SingleLine("data[\"") && SingleLine(".lower()") && SingleLine(".upper()")
    ensures SingleLine("datetime.fromisoformat(")
  {
  }

  /** None of the seven fragments spans a line break. */
  lemma RiskPatternsSingleLine()
    ensures |RiskPatterns()| == 7
    ensures forall k :: 0 <= k < |RiskPatterns()| ==> SingleLine(RiskPatterns()[k].pattern)
  {
    FragmentsSingleLineFirst();
    FragmentsSingleLineLast();
  }

  /**
   * A file's issue count is the number of the seven fragments it contains,
   * plus one for an f-string URL built from `os.getenv`; at most eight.
   */
  lemma PythonFileIssues(content: string, fileName: string)
    ensures PythonFileReport(content, fileName).count ==
      CountPresent(content, RiskPatterns()) + (if UrlRisk(content) then 1 else 0)
    ensures PythonFileReport(content, fileName).count <= 8
    ensures |PythonFileReport(content, fileName).events| == PythonFileReport(content, fileName).count
  {
    RiskPatternsSingleLine();
    RiskReportCount(content, fileName, RiskPatterns());
    CountPresentBound(content, RiskPatterns());
  }

  lemma {:induction false} CountPresentBound(content: string, risks: seq<Risk>)
    ensures CountPresent(content, risks) <= |risks|
    decreases |risks|
  {
    if |risks| > 0 {
      CountPresentBound(content, risks[..|risks| - 1]);
    }
  }
}
