/** What the remediation dispatcher promises, stated over the events of `Fixer`. */
module FixerProperties {
  import opened Wrappers
  import opened Text
  import opened Parser
  import opened Output
  import opened Fixer
  import opened Advice
  import ParserProperties

  // ---------------------------------------------------------------- analyze_error

  /** The analysis opens with its section and shows the parsed details exactly when there are some. */
  lemma AnalyzeParsedShape(errorText: string, parsed: Option<ParsedError>)
    ensures |AnalyzeParsed(errorText, parsed)| >= 4 && AnalyzeParsed(errorText, parsed)[0] == Section("Analyzing Error")
    ensures AnalyzeParsed(errorText, parsed)[1].Warning? <==> parsed.None?
    ensures parsed.Some? ==>
      AnalyzeParsed(errorText, parsed)[1] == Info("Language: " + LanguageName(parsed.value.language))
      && AnalyzeParsed(errorText, parsed)[2] == Location(parsed.value.file, parsed.value.line, parsed.value.column)
      && AnalyzeParsed(errorText, parsed)[3] == Error(parsed.value.message)
      && AnalyzeParsed(errorText, parsed)[4..] == ShowFixForError(parsed.value)
  {
    if parsed.Some? {
      var head := [Section("Analyzing Error")] + ShowParsedError(parsed.value);
      assert AnalyzeParsed(errorText, parsed) == head + ShowFixForError(parsed.value);
      assert |head| == 4;
    } else {
      AnalyzeUnparsed(errorText);
    }
  }

  /** The analysis of a text shows its parsed details exactly when the classifier accepts it. */
  lemma AnalyzeErrorShape(errorText: string)
    ensures |AnalyzeError(errorText)| >= 4 && AnalyzeError(errorText)[0] == Section("Analyzing Error")
    ensures AnalyzeError(errorText)[1].Warning? <==> ParseError(errorText).None?
    ensures ParseError(errorText).Some? ==>
      AnalyzeError(errorText)[1] == Info("Language: " + LanguageName(ParseError(errorText).value.language))
      && AnalyzeError(errorText)[2] ==
        Location(ParseError(errorText).value.file, ParseError(errorText).value.line, ParseError(errorText).value.column)
      && AnalyzeError(errorText)[3] == Error(ParseError(errorText).value.message)
      && AnalyzeError(errorText)[4..] == ShowFixForError(ParseError(errorText).value)
  {
    AnalyzeParsedShape(errorText, ParseError(errorText));
  }

  /** Without a parse, the fallback's instruction is shown, or an error and a hint when it has none. */
  lemma AnalyzeUnparsed(errorText: string)
    ensures TryCommonPatterns(errorText).Some? ==>
      AnalyzeParsed(errorText, None) == [Section("Analyzing Error"), Warning("Could not fully parse error format"),
        Info("Attempting pattern matching..."), Instruction(TryCommonPatterns(errorText).value)]
    ensures TryCommonPatterns(errorText).None? ==>
      AnalyzeParsed(errorText, None) == [Section("Analyzing Error"), Warning("Could not fully parse error format"),
        Info("Attempting pattern matching..."), Error("Unknown error pattern"),
        Hint("Try 'ess list' to see supported error types")]
  {
  }

  /** A failed parse gives the fallback's instruction, or an error and a hint when it has none. */
  lemma AnalyzeErrorFallback(errorText: string)
    requires ParseError(errorText).None?
    ensures TryCommonPatterns(errorText).Some? ==>
      AnalyzeError(errorText) == [Section("Analyzing Error"), Warning("Could not fully parse error format"),
        Info("Attempting pattern matching..."), Instruction(TryCommonPatterns(errorText).value)]
    ensures TryCommonPatterns(errorText).None? ==>
      AnalyzeError(errorText) == [Section("Analyzing Error"), Warning("Could not fully parse error format"),
        Info("Attempting pattern matching..."), Error("Unknown error pattern"),
        Hint("Try 'ess list' to see supported error types")]
  {
    AnalyzeUnparsed(errorText);
  }

  /** Without a parse, an instruction is shown exactly when the fallback finds a phrase. */
  lemma AnalyzeUnparsedInstruction(errorText: string)
    ensures HasInstruction(AnalyzeParsed(errorText, None)) <==> TryCommonPatterns(errorText).Some?
  {
    AnalyzeUnparsed(errorText);
    var ev := AnalyzeParsed(errorText, None);
    if TryCommonPatterns(errorText).Some? {
      assert ev[3].Instruction?;
    }
  }

  /** After a failed parse, an instruction is shown exactly when the fallback finds a phrase. */
  lemma AnalyzeErrorFallbackInstruction(errorText: string)
    requires ParseError(errorText).None?
    ensures HasInstruction(AnalyzeError(errorText)) <==> TryCommonPatterns(errorText).Some?
  {
    AnalyzeUnparsedInstruction(errorText);
  }

  /** The empty text ends in "Unknown error pattern". */
  lemma AnalyzeEmptyText()
    ensures AnalyzeError("") == [Section("Analyzing Error"), Warning("Could not fully parse error format"),
      Info("Attempting pattern matching..."), Error("Unknown error pattern"),
      Hint("Try 'ess list' to see supported error types")]
  {
    ParserProperties.EmptyNotParsed();
    TryCommonPatternsEmpty();
    AnalyzeUnparsed("");
  }

  /** A text with no known phrase ends in "Unknown error pattern". */
  lemma AnalyzeRandomText()
    ensures AnalyzeError("completely random text") == [Section("Analyzing Error"),
      Warning("Could not fully parse error format"), Info("Attempting pattern matching..."),
      Error("Unknown error pattern"), Hint("Try 'ess list' to see supported error types")]
  {
    ParserProperties.RandomNotParsed();
    TryCommonPatternsRandom();
    AnalyzeUnparsed("completely random text");
  }

  // ---------------------------------------------------------------- show_fix_for_error

  /** An unknown error gets only a warning naming it and a hint, never a diff. */
  lemma UnknownHasNoDiff(e: ParsedError, msg: string)
    requires e.errorType == ErrorType.Unknown(msg)
    ensures ShowFixForError(e) ==
      [Warning("No automatic fix for: " + msg), Hint("Check the error message and fix manually")]
    ensures !HasDiff(ShowFixForError(e)) && !HasInstruction(ShowFixForError(e))
  {
  }

  /** Nothing is printed only for a missing include outside C++ and a missing semicolon outside C++, JavaScript and TypeScript. */
  lemma SilentExactly(e: ParsedError)
    ensures ShowFixForError(e) == [] <==>
      (e.errorType.MissingInclude? && e.language != Cpp)
      || (e.errorType == MissingSemicolon && e.language !in {Cpp, JavaScript, TypeScript})
  {
    if !e.errorType.MissingInclude? && !e.errorType.MissingSemicolon? {
      OtherKindsSpeak(e);
    }
  }

  /** Every kind other than a missing include or semicolon prints at least one event. */
  lemma OtherKindsSpeak(e: ParsedError)
    requires !e.errorType.MissingInclude? && !e.errorType.MissingSemicolon?
    ensures |ShowFixForError(e)| > 0
  {
    match e.errorType
    case UndeclaredVariable(v) => UndeclaredPrefix(v, e.language);
    case SyntaxError(d) =>
    case IndentationError =>
    case ImportError(m) =>
    case ModuleNotFound(m) =>
    case TypeError(d) =>
    case BorrowError(d) =>
    case KeyError(k) =>
    case AttributeError(d) =>
    case ValueError(d) =>
    case MissingEnvVar(d) =>
    case RequestsError(d) =>
    case Unknown(msg) =>
  }

  /** A missing include is fixed, with a diff and the `#include <h>` line, only for C++. */
  lemma MissingIncludeOnlyCpp(header: string, lang: Language)
    ensures HasDiff(FixMissingInclude(header, lang)) <==> lang == Cpp
    ensures lang == Cpp ==> FixMissingInclude(header, lang)[1] == Instruction(AddInclude(header))
    ensures Contains(AdviceText(AddInclude(header)), "#include <" + header + ">")
  {
    if lang == Cpp {
      assert FixMissingInclude(header, lang)[0].Diff?;
    }
    ContainsMiddle("Add this line at the top of your file:\n\n  ", IncludeLine(header), "");
    assert "Add this line at the top of your file:\n\n  " + IncludeLine(header) + ""
      == AdviceText(AddInclude(header));
  }

  /** A missing semicolon gets advice only in C++, JavaScript and TypeScript. */
  lemma MissingSemicolonGated(lang: Language)
    ensures FixMissingSemicolon(lang) != [] <==> lang in {Cpp, JavaScript, TypeScript}
    ensures FixMissingSemicolon(lang) != [] ==> HasDiff(FixMissingSemicolon(lang))
  {
    if FixMissingSemicolon(lang) != [] {
      assert FixMissingSemicolon(lang)[0].Diff?;
    }
  }

  /** Every language gets the section and the info line; an unknown language gets nothing else. */
  lemma UndeclaredPrefix(v: string, lang: Language)
    ensures |FixUndeclaredVariable(v, lang)| >= 2
    ensures FixUndeclaredVariable(v, lang)[..2] == [Section("Possible Causes"), Info("Variable '" + v + "' is not defined")]
    ensures |FixUndeclaredVariable(v, lang)| == 2 <==> lang == Language.Unknown
  {
  }

  /** In C++ a standard type gets the include diff, with the lower-cased name as header; nothing else gets a diff. */
  lemma UndeclaredStdDiff(v: string, lang: Language)
    ensures lang == Cpp && IsStdType(v) ==>
      FixUndeclaredVariable(v, lang)[|FixUndeclaredVariable(v, lang)| - 1] == Diff(StdTypeSample(v))
    ensures HasDiff(FixUndeclaredVariable(v, lang)) <==> lang == Cpp && IsStdType(v)
  {
    var ev := FixUndeclaredVariable(v, lang);
    if lang == Cpp && IsStdType(v) {
      assert ev[|ev| - 1].Diff?;
    }
  }

  /** The syntax advice does not depend on the language. */
  lemma SyntaxIgnoresLanguage(details: string, l1: Language, l2: Language)
    ensures FixSyntaxError(details, l1) == FixSyntaxError(details, l2)
  {
  }

  /**
   * "unexpected token" is checked first; it also contains "expected", so
   * without that order such a detail would get the "expected" advice.
   */
  lemma UnexpectedTokenFirst(details: string)
    requires Contains(Lower(details), "unexpected token")
    ensures SyntaxAdvice(details) == UnexpectedToken
    ensures Contains(Lower(details), "expected")
  {
    assert OccursAt("unexpected token", "expected", 2);
    ContainsAt("unexpected token", "expected", 2);
    ContainsTransitive(Lower(details), "unexpected token", "expected");
  }

  /** The later syntax branches carry the original-case detail. */
  lemma SyntaxLaterBranches(details: string)
    requires !Contains(Lower(details), "unexpected token")
    ensures (Contains(Lower(details), "was never closed") || Contains(Lower(details), "unterminated")) ==>
      SyntaxAdvice(details) == Unclosed
    ensures !Contains(Lower(details), "was never closed") && !Contains(Lower(details), "unterminated") ==>
      SyntaxAdvice(details) ==
        (if Contains(Lower(details), "expected") then Expected(details) else GenericSyntax(details))
  {
  }

  /** `pip install m` is suggested exactly for Python. */
  lemma PipOnlyPython(m: string, lang: Language)
    ensures FixImportError(m, lang) == [Instruction(PipInstall(m))] <==> lang == Python
    ensures lang != Python ==> FixImportError(m, lang) == [Instruction(CheckImport(m))]
    ensures Contains(AdviceText(PipInstall(m)), "pip install " + m)
  {
    var pre := "Module '" + m + "' not found.\n\nOptions:\n\n1. Install the module:\n   ";
    var a := "\n\n2. Check if it's a local module - verify the file exists\n\n";
    ContainsSuffix(pre, PipCommand(m));
    ContainsExtend(pre + PipCommand(m), a, PipCommand(m));
    ContainsExtend(pre + PipCommand(m) + a, "3. Check your PYTHONPATH if it's a custom module", PipCommand(m));
  }

  /** `npm install m` is suggested exactly for JavaScript and TypeScript. */
  lemma NpmOnlyJs(m: string, lang: Language)
    ensures FixModuleNotFound(m, lang) == [Instruction(NpmInstall(m))] <==> lang == JavaScript || lang == TypeScript
    ensures lang != JavaScript && lang != TypeScript ==> FixModuleNotFound(m, lang) == [Instruction(CheckModule(m))]
    ensures Contains(AdviceText(NpmInstall(m)), "npm install " + m)
  {
    var pre := "Cannot find module '" + m + "'\n\nOptions:\n\n1. Install the package:\n   ";
    var a := "\n\n2. If it's a local file, check the path:\n   import x from './";
    ContainsSuffix(pre, NpmCommand(m));
    ContainsExtend(pre + NpmCommand(m), a, NpmCommand(m));
    ContainsExtend(pre + NpmCommand(m) + a, m, NpmCommand(m));
    ContainsExtend(pre + NpmCommand(m) + a + m, "'\n\n3. Check tsconfig.json paths if using TypeScript", NpmCommand(m));
  }

  /** TypeScript, Python and the other languages get three distinct type-error bodies after the same header. */
  lemma TypeErrorBodies(details: string, lang: Language)
    ensures FixTypeError(details, lang)[..2] == [Section("Type Error"), Error(details)]
    ensures TypeAdvice(lang) == TsType <==> lang == TypeScript
    ensures TypeAdvice(lang) == PythonType <==> lang == Python
    ensures TypeAdvice(lang) == GenericType <==> lang != TypeScript && lang != Python
  {
  }

  /** An indentation error gets the spacing diff and then the indentation advice, whatever its detail. */
  lemma IndentationShowsDiff()
    ensures HasDiff(FixIndentationError()) && HasInstruction(FixIndentationError())
    ensures FixIndentationError()[1] == Instruction(Indentation)
  {
    assert FixIndentationError()[0].Diff? && FixIndentationError()[1].Instruction?;
  }

  /** A borrow error shows its detail and the borrow advice, and no diff. */
  lemma BorrowShowsDetail(details: string)
    ensures FixBorrowError(details)[1] == Error(details)
    ensures HasInstruction(FixBorrowError(details)) && !HasDiff(FixBorrowError(details))
  {
    assert FixBorrowError(details)[2].Instruction?;
  }

  /** A `'NoneType'` attribute error, and only that one, gets the null-check diff. */
  lemma AttributeDiffExactly(details: string)
    ensures HasDiff(FixAttributeError(details)) <==> Contains(details, "'NoneType'")
    ensures !Contains(details, "'NoneType'") ==> FixAttributeError(details)[1] == Instruction(Attribute(details))
  {
    if Contains(details, "'NoneType'") {
      assert FixAttributeError(details)[1].Diff?;
    }
  }

  /** A `fromisoformat` or `time data` value error, and only that one, gets the try/except diff. */
  lemma ValueDiffExactly(details: string)
    ensures HasDiff(FixValueError(details)) <==> Contains(details, "fromisoformat") || Contains(details, "time data")
  {
    if Contains(details, "fromisoformat") || Contains(details, "time data") {
      assert FixValueError(details)[1].Diff?;
    }
  }

  /** A connection failure is diagnosed before a timeout, whatever else the detail says. */
  lemma ConnectBeforeTimeout(details: string)
    ensures Contains(details, "ConnectionError") || Contains(details, "connect") ==>
      FixRequestsError(details)[2] == Instruction(Connect)
    ensures !Contains(details, "ConnectionError") && !Contains(details, "connect") && Contains(details, "Timeout") ==>
      FixRequestsError(details)[2] == Instruction(Timeout)
    ensures FixRequestsError(details)[..2] == [Section("Requests Library Error"), Error(details)]
  {
  }

  /** The missing-variable advice does not depend on its detail. */
  lemma EnvVarIgnoresDetail(d1: string, d2: string)
    ensures FixMissingEnvVar(d1) == FixMissingEnvVar(d2)
  {
  }

  /** The missing-variable advice always shows a diff. */
  lemma EnvVarShowsDiff(d: string)
    ensures HasDiff(FixMissingEnvVar(d))
  {
    var ev := FixMissingEnvVar(d);
    assert 0 <= 2 < |ev| && ev[2].Diff?;
  }

  /** The key-error diff shows the failing subscript and its `.get` replacement for the key. */
  lemma KeyErrorDiff(k: string)
    ensures FixKeyError(k)[1] == Diff(KeySample(k))
    ensures Contains(SampleBefore(KeySample(k)), "data[\"" + k + "\"]")
    ensures Contains(SampleAfter(KeySample(k)), "data.get(\"" + k + "\"")
  {
    var sub := "data[\"" + k + "\"]";
    ContainsSuffix([], sub);
    assert [] + sub == sub;
    ContainsExtend(sub, "  # raises KeyError if missing", sub);
    var get := "data.get(\"" + k + "\"";
    ContainsSuffix([], get);
    assert [] + get == get;
    ContainsExtend(get, ", default_value)  # returns default if missing", get);
  }

  // ---------------------------------------------------------------- try_common_patterns

  /** The fallback answers exactly when one of its eight phrases occurs in the lower-cased text. */
  lemma TryCommonPatternsExactly(errorText: string)
    ensures TryCommonPatterns(errorText).None? <==>
      var lower := Lower(errorText);
      !Contains(lower, "expected ';'") && !Contains(lower, "missing semicolon")
      && !Contains(lower, "is not a member of") && !Contains(lower, "was not declared")
      && !Contains(lower, "is not defined") && !Contains(lower, "undeclared")
      && !Contains(lower, "unexpected token") && !Contains(lower, "was never closed")
  {
  }

  /** The groups are tried in order: a semicolon phrase wins over every later group. */
  lemma TryCommonPatternsOrder(errorText: string)
    ensures Contains(Lower(errorText), "missing semicolon") ==> TryCommonPatterns(errorText) == Some(SemicolonPattern)
    ensures (Contains(Lower(errorText), "was not declared") && !Contains(Lower(errorText), "expected ';'")
             && !Contains(Lower(errorText), "missing semicolon")) ==> TryCommonPatterns(errorText) == Some(IncludePattern)
    ensures TryCommonPatterns(errorText).Some? ==>
      TryCommonPatterns(errorText).value in {SemicolonPattern, IncludePattern, DefinePattern, SyntaxPattern}
  {
  }

  lemma TryCommonPatternsEmpty()
    ensures TryCommonPatterns("") == None
  {
    assert Lower("") == "";
  }

  /** "completely random text" holds none of the eight phrases. */
  lemma RandomTextLacksPhrases()
    ensures !Contains("completely random text", "expected ';'")
    ensures !Contains("completely random text", "missing semicolon")
    ensures !Contains("completely random text", "is not a member of")
    ensures !Contains("completely random text", "was not declared")
    ensures !Contains("completely random text", "is not defined")
    ensures !Contains("completely random text", "undeclared")
    ensures !Contains("completely random text", "unexpected token")
    ensures !Contains("completely random text", "was never closed")
  {
    var t := "completely random text";
    NotContainsChar(t, "expected ';'", ';', 10);
    NotContainsChar(t, "missing semicolon", 'i', 1);
    NotContainsChar(t, "is not a member of", 'i', 0);
    NotContainsChar(t, "was not declared", 'w', 0);
    NotContainsChar(t, "is not defined", 'i', 0);
    NotContainsChar(t, "undeclared", 'u', 0);
    NotContainsChar(t, "unexpected token", 'u', 0);
    NotContainsChar(t, "was never closed", 'w', 0);
  }

  /** "some random unrecognized error" holds none of the eight phrases. */
  lemma UnrecognizedTextLacksPhrases()
    ensures !Contains("some random unrecognized error", "expected ';'")
    ensures !Contains("some random unrecognized error", "missing semicolon")
    ensures !Contains("some random unrecognized error", "is not a member of")
    ensures !Contains("some random unrecognized error", "was not declared")
    ensures !Contains("some random unrecognized error", "is not defined")
    ensures !Contains("some random unrecognized error", "undeclared")
    ensures !Contains("some random unrecognized error", "unexpected token")
    ensures !Contains("some random unrecognized error", "was never closed")
  {
    var t := "some random unrecognized error";
    NotContainsChar(t, "expected ';'", ';', 10);
    NotContainsChar(t, "missing semicolon", 'l', 14);
    NotContainsChar(t, "is not a member of", 'b', 12);
    NotContainsChar(t, "was not declared", 'w', 0);
    NotContainsChar(t, "is not defined", 'f', 9);
    NotContainsChar(t, "undeclared", 'l', 5);
    NotContainsChar(t, "unexpected token", 'x', 3);
    NotContainsChar(t, "was never closed", 'w', 0);
  }

  /** Texts with none of the eight phrases get no fallback advice. */
  lemma TryCommonPatternsRandom()
    ensures TryCommonPatterns("some random unrecognized error") == None
    ensures TryCommonPatterns("completely random text") == None
  {
    assert Lower("some random unrecognized error") == "some random unrecognized error";
    UnrecognizedTextLacksPhrases();
    assert Lower("completely random text") == "completely random text";
    RandomTextLacksPhrases();
  }

  /** A semicolon phrase reaches the semicolon group. */
  lemma SemicolonPhraseScenario()
    ensures TryCommonPatterns("expected ';' before return") == Some(SemicolonPattern)
  {
    var a := "expected ';' before return";
    assert Lower(a) == a;
    ContainsChars(a, "expected ';'", 0);
  }

  lemma MemberTextHasPhrase()
    ensures Contains("'vector' is not a member of 'std'", "is not a member of")
  {
    ContainsChars("'vector' is not a member of 'std'", "is not a member of", 9);
  }

  lemma MemberTextLacksSemicolonPhrases()
    ensures !Contains("'vector' is not a member of 'std'", "expected ';'")
    ensures !Contains("'vector' is not a member of 'std'", "missing semicolon")
  {
    NotContainsChar("'vector' is not a member of 'std'", "expected ';'", ';', 10);
    NotContainsChar("'vector' is not a member of 'std'", "missing semicolon", 'g', 6);
  }

  /** "is not a member of" reaches the include group. */
  lemma MemberPhraseScenario()
    ensures TryCommonPatterns("'vector' is not a member of 'std'") == Some(IncludePattern)
  {
    assert Lower("'vector' is not a member of 'std'") == "'vector' is not a member of 'std'";
    MemberTextHasPhrase();
    MemberTextLacksSemicolonPhrases();
  }

  lemma UndeclaredTextHasPhrase()
    ensures Contains("use of undeclared identifier 'foo'", "undeclared")
  {
    ContainsChars("use of undeclared identifier 'foo'", "undeclared", 7);
  }

  lemma UndeclaredTextLacksSemicolonPhrases()
    ensures !Contains("use of undeclared identifier 'foo'", "expected ';'")
    ensures !Contains("use of undeclared identifier 'foo'", "missing semicolon")
  {
    NotContainsChar("use of undeclared identifier 'foo'", "expected ';'", ';', 10);
    NotContainsChar("use of undeclared identifier 'foo'", "missing semicolon", 'm', 0);
  }

  lemma UndeclaredTextLacksIncludePhrases()
    ensures !Contains("use of undeclared identifier 'foo'", "is not a member of")
    ensures !Contains("use of undeclared identifier 'foo'", "was not declared")
  {
    NotContainsChar("use of undeclared identifier 'foo'", "is not a member of", 'm', 9);
    NotContainsChar("use of undeclared identifier 'foo'", "was not declared", 'w', 0);
  }

  /** "undeclared" reaches the definition group. */
  lemma UndeclaredPhraseScenario()
    ensures TryCommonPatterns("use of undeclared identifier 'foo'") == Some(DefinePattern)
  {
    assert Lower("use of undeclared identifier 'foo'") == "use of undeclared identifier 'foo'";
    UndeclaredTextHasPhrase();
    UndeclaredTextLacksSemicolonPhrases();
    UndeclaredTextLacksIncludePhrases();
  }

  // ---------------------------------------------------------------- is_std_type

  /** The whitelist ignores case. */
  lemma IsStdTypeIgnoresCase(name: string)
    ensures IsStdType(name) <==> IsStdType(Lower(name))
  {
    LowerIdempotent(name);
  }

  lemma IsStdTypeScenarios()
    ensures IsStdType("vector") && IsStdType("Vector") && IsStdType("VECTOR")
    ensures IsStdType("unique_ptr") && IsStdType("Map")
  {
    assert Lower("Vector") == "vector";
    assert Lower("VECTOR") == "vector";
    assert Lower("Map") == "map";
    assert Lower("vector") == "vector";
    assert Lower("unique_ptr") == "unique_ptr";
  }

  lemma NotStdTypeScenarios()
    ensures !IsStdType("MyClass") && !IsStdType("foo") && !IsStdType("random_name")
  {
    assert Lower("MyClass") == "myclass";
    assert Lower("foo") == "foo";
    assert Lower("random_name") == "random_name";
  }
}
