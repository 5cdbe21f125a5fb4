/** What the classifier promises, stated over the extractors of `Parser`. */
module ParserProperties {
  import opened Wrappers
  import opened Text
  import opened Pattern
  import opened Parser

  // ---------------------------------------------------------------- dispatch

  /** Every extractor needs a colon, so text without one is never classified. */
  lemma NoColonNoParse(input: string)
    requires ':' !in input
    ensures ParseError(input) == None
  {
    NoColonNoCppOrPython(input);
    NoColonNoJsOrRust(input);
  }

  /** Without a colon neither the C++ nor the Python patterns match anywhere. */
  lemma NoColonNoCppOrPython(input: string)
    requires ':' !in input
    ensures Leftmost(input, CppAt).None? && Leftmost(input, RequestsAt).None? && Leftmost(input, PyErrorAt).None?
  {
    NoColonNoCpp(input);
    LeftmostFromNone(input, 0, RequestsAt);
    LeftmostFromNone(input, 0, PyErrorAt);
  }

  /** Every C++ match holds the colon after its file name. */
  lemma NoColonNoCpp(input: string)
    requires ':' !in input
    ensures Leftmost(input, CppAt).None?
  {
    LeftmostFromNone(input, 0, CppAt);
  }

  /** Without a colon neither the JavaScript nor the Rust patterns match anywhere. */
  lemma NoColonNoJsOrRust(input: string)
    requires ':' !in input
    ensures Leftmost(input, TscAt).None? && Leftmost(input, JsErrorAt).None? && Leftmost(input, RustErrorAt).None?
  {
    LeftmostFromNone(input, 0, TscAt);
    LeftmostFromNone(input, 0, JsErrorAt);
    LeftmostFromNone(input, 0, RustErrorAt);
  }

  /** The empty text, and texts that are not compiler output, are not classified. */
  lemma EmptyNotParsed()
    ensures ParseError("") == None
  {
    NoColonNoParse("");
  }

  lemma RandomNotParsed()
    ensures ParseError("Some random text that is not an error") == None
    ensures ParseError("completely random text") == None
  {
    NoColonNoParse("Some random text that is not an error");
    NoColonNoParse("completely random text");
  }

  // ---------------------------------------------------------------- C++

  /**
   * The name in a C++ `UndeclaredVariable` comes from the lower-cased message,
   * so it is itself lower case.
   */
  lemma CppUndeclaredIsLowerCase(message: string, full: string, v: string)
    requires DetectCppErrorType(message, full) == UndeclaredVariable(v)
    ensures Lower(v) == v
  {
    CppUndeclaredFromLeftmost(message, full, v);
    var j := LeftmostFound(Lower(message), UndeclaredAt);
    UndeclaredAtLower(message, j, v);
  }

  /** A name captured from a lower-cased text is lower case. */
  lemma UndeclaredAtLower(message: string, j: nat, v: string)
    requires UndeclaredAt(Lower(message), j) == Some(v)
    ensures Lower(v) == v
  {
    var msg := Lower(message);
    var b := if DelimitedAt(msg, j, "'", '\'', " was not declared").Some? then j + 1 else j + 30;
    assert v == msg[b..b + |v|];
    LowerOfLowerSlice(message, b, b + |v|);
  }

  lemma CppUndeclaredFromLeftmost(message: string, full: string, v: string)
    requires DetectCppErrorType(message, full) == UndeclaredVariable(v)
    ensures Leftmost(Lower(message), UndeclaredAt) == Some(v)
  {
  }

  /** Only the unclassified C++ message keeps its original case, unchanged. */
  lemma CppUnknownKeepsMessage(message: string, full: string)
    requires DetectCppErrorType(message, full).Unknown?
    ensures DetectCppErrorType(message, full) == ErrorType.Unknown(message)
    ensures !Contains(Lower(message), "expected ';'")
    ensures Leftmost(Lower(message), UndeclaredAt).None?
  {
  }

  /** The second semicolon pattern of the classifier is subsumed by the first. */
  lemma SemicolonPatternSubsumed(msg: string)
    requires Contains(msg, "expected ';' before")
    ensures Contains(msg, "expected ';'")
  {
    assert OccursAt("expected ';' before", "expected ';'", 0);
    ContainsAt("expected ';' before", "expected ';'", 0);
    ContainsTransitive(msg, "expected ';' before", "expected ';'");
  }

  /** `MissingSemicolon` exactly when the message says so and the header branch did not apply. */
  lemma CppSemicolonExactly(message: string, full: string)
    ensures DetectCppErrorType(message, full) == MissingSemicolon <==>
      Contains(Lower(message), "expected ';'")
      && !(CppHeaderCase(Lower(message)) && HeaderGuess(Lower(message), full).Some?)
  {
    if Contains(Lower(message), "expected ';' before") {
      SemicolonPatternSubsumed(Lower(message));
    }
  }

  /** Inside the header branch, an `#include <h>` anywhere in the full text decides the header. */
  lemma CppIncludeWins(message: string, full: string, h: string)
    requires CppHeaderCase(Lower(message))
    requires Leftmost(full, IncludeAt) == Some(h)
    ensures DetectCppErrorType(message, full) == MissingInclude(h)
  {
  }

  /** The header named by an include is non-empty, free of `>`, and stands in the text as `#include <h>`. */
  lemma IncludeHeaderShape(full: string, h: string)
    requires Leftmost(full, IncludeAt) == Some(h)
    ensures |h| > 0 && '>' !in h
    ensures Contains(full, "#include <" + h + ">")
  {
    var j := LeftmostFound(full, IncludeAt);
    var p := "#include <" + h + ">";
    var b := j + 10;
    forall k | 0 <= k < |p| ensures full[j + k] == p[k] {
      if k < 10 {
        assert full[j..j + 10][k] == full[j + k];
      } else if k < 10 + |h| {
        assert h[k - 10] == full[b..b + |h|][k - 10];
      }
    }
    assert full[j..j + |p|] == p;
    ContainsAt(full, p, j);
  }

  /** Without an include, the guessed header is one of the five the keywords name. */
  lemma HeaderGuessKnown(msg: string, full: string, h: string)
    requires Leftmost(full, IncludeAt).None?
    requires HeaderGuess(msg, full) == Some(h)
    ensures h in ["vector", "string", "iostream", "map", "set"]
  {
  }

  /** The keywords are tried in order: a message mentioning a vector gets `<vector>` whatever else it names. */
  lemma VectorFirst(message: string, full: string)
    requires CppHeaderCase(Lower(message)) && Leftmost(full, IncludeAt).None?
    requires Contains(Lower(message), "vector")
    ensures DetectCppErrorType(message, full) == MissingInclude("vector")
  {
  }

  /** A C++ location match has a file with a C++ extension, digit-run line and column, and a one-line non-empty message. */
  lemma CppAtShape(s: string, i: nat)
    requires CppAt(s, i).Some?
    ensures ':' in s
    ensures var r := CppAt(s, i).value;
      ExtOf(r.file, CppExts).Some? && |r.line| > 0 && AllDigits(r.line)
      && |r.col| > 0 && AllDigits(r.col) && |r.message| > 0 && '\n' !in r.message
  {
    CppLocationDigits(s, i);
  }

  /** A C++ result carries the whole input's classification of its message. */
  lemma CppResult(input: string, p: ParsedError)
    requires ParseCpp(input) == Some(p)
    ensures p.errorType == DetectCppErrorType(p.message, input)
    ensures ExtOf(p.file, CppExts).Some? && '\n' !in p.message
  {
    var j := LeftmostFound(input, CppAt);
  }

  // ---------------------------------------------------------------- Python

  /** The `requests` family needs no `File` marker and no other error line. */
  lemma RequestsFirst(input: string, q: NamedCap)
    requires Leftmost(input, RequestsAt) == Some(q)
    ensures ParsePython(input).Some?
    ensures ParsePython(input).value.errorType == RequestsKind(q.name, q.detail)
    ensures ParsePython(input).value.message == "requests.exceptions." + q.name + ": " + q.detail
    ensures Leftmost(input, PyFileAt).None? ==>
      ParsePython(input).value.file == "unknown.py" && ParsePython(input).value.line.None?
  {
  }

  /** A line number that overflows in the requests branch is dropped rather than failing the parse. */
  lemma RequestsLineOverflow(input: string)
    requires Leftmost(input, RequestsAt).Some? && Leftmost(input, PyFileAt).Some?
    requires ParseU32(Leftmost(input, PyFileAt).value.line).None?
    ensures ParsePython(input).Some? && ParsePython(input).value.line.None?
  {
  }

  /** `MissingSchema`, or a detail mentioning `None`, is read as a missing environment variable. */
  lemma RequestsKindSplit(name: string, details: string)
    ensures RequestsKind(name, details).MissingEnvVar? <==> name == "MissingSchema" || Contains(details, "None")
    ensures RequestsKind(name, details).MissingEnvVar? ==> RequestsKind(name, details).detail == details
    ensures !RequestsKind(name, details).MissingEnvVar? ==>
      RequestsKind(name, details) == RequestsError(name + ": " + details)
  {
  }

  /** Outside the requests family both a `File` marker and a known error are needed, and the line must fit in 32 bits. */
  lemma PythonGenericNeedsBoth(input: string)
    requires Leftmost(input, RequestsAt).None?
    ensures ParsePython(input).Some? <==>
      (Leftmost(input, PyFileAt).Some? && Leftmost(input, PyErrorAt).Some?
       && ParseU32(Leftmost(input, PyFileAt).value.line).Some?)
    ensures ParsePython(input).Some? ==> ParsePython(input).value.line.Some?
  {
  }

  /** The file of a Python result is a `.py` path, or the default when there is no marker. */
  lemma PythonFileIsPy(input: string, p: ParsedError)
    requires ParsePython(input) == Some(p)
    ensures p.file == "unknown.py" || HasExt(p.file, "py")
  {
    if Leftmost(input, PyFileAt).Some? {
      var j := LeftmostFound(input, PyFileAt);
    }
  }

  /** `ImportError` and `ModuleNotFoundError` are one kind. */
  lemma ImportAliases(details: string)
    ensures PythonKind("ImportError", details) == PythonKind("ModuleNotFoundError", details)
    ensures PythonKind("ImportError", details).ImportError?
  {
  }

  /** The module of an `ImportError` is the quoted name, or the whole detail when there is none. */
  lemma ImportModule(details: string)
    ensures Leftmost(details, NoModuleAt).Some? ==>
      PythonKind("ImportError", details) == ImportError(Leftmost(details, NoModuleAt).value)
    ensures Leftmost(details, NoModuleAt).None? ==> PythonKind("ImportError", details) == ImportError(details)
  {
  }

  /** An `IndentationError` drops its detail. */
  lemma IndentationDropsDetail(d1: string, d2: string)
    ensures PythonKind("IndentationError", d1) == PythonKind("IndentationError", d2) == IndentationError
  {
  }

  /** A `NameError` is an undeclared variable exactly when the detail has the `name '…' is not defined` form. */
  lemma NameErrorKinds(details: string)
    ensures PythonKind("NameError", details).UndeclaredVariable? <==> Leftmost(details, NameNotDefinedAt).Some?
    ensures !PythonKind("NameError", details).UndeclaredVariable? ==>
      PythonKind("NameError", details) == ErrorType.Unknown(details)
  {
  }

  /** The undeclared Python name is the non-empty quoted text, free of quotes. */
  lemma NameErrorName(details: string, x: string)
    requires PythonKind("NameError", details) == UndeclaredVariable(x)
    ensures |x| > 0 && '\'' !in x
  {
    var j := LeftmostFound(details, NameNotDefinedAt);
  }

  // ---------------------------------------------------------------- JavaScript / TypeScript

  /** A tsc diagnostic is tried first and, once found, decides the result alone. */
  lemma TscFirst(input: string, t: TscCap)
    requires Leftmost(input, TscAt) == Some(t)
    ensures ParseJs(input).Some? <==> ParseU32(t.line).Some? && ParseU32(t.col).Some?
    ensures ParseJs(input).Some? ==>
      ParseJs(input).value.language == TypeScript && ParseJs(input).value.column.Some?
      && ParseJs(input).value.message == t.code + ": " + t.message
      && ParseJs(input).value.errorType == TscKind(t.code, t.message)
  {
  }

  /** TS2307 is a missing module; codes other than TS2304, TS2552 and TS2307 are unknown. */
  lemma TscKindCodes(code: string, message: string)
    ensures code == "TS2307" ==> TscKind(code, message) == ModuleNotFound(message)
    ensures code != "TS2304" && code != "TS2552" && code != "TS2307" ==>
      TscKind(code, message) == ErrorType.Unknown(message)
    ensures (code == "TS2304" || code == "TS2552") && Leftmost(message, CannotFindNameAt).Some? ==>
      TscKind(code, message) == UndeclaredVariable(Leftmost(message, CannotFindNameAt).value)
  {
  }

  /** The generic rule takes the file and, from its extension, the language of the leftmost location. */
  lemma JsGenericFields(input: string, p: ParsedError)
    requires Leftmost(input, TscAt).None? && ParseJs(input) == Some(p)
    ensures Leftmost(input, JsFileAt).Some? && p.file == Leftmost(input, JsFileAt).value.file
    ensures p.language == TypeScript <==>
      Leftmost(input, JsFileAt).value.ext == "ts" || Leftmost(input, JsFileAt).value.ext == "tsx"
  {
  }

  /** A captured extension is the only listed extension the file name ends in. */
  lemma JsCapExt(f: JsFileCap)
    requires f.ext in JsExts && HasExt(f.file, f.ext)
    ensures (f.ext == "ts" || f.ext == "tsx") <==> HasExt(f.file, "ts") || HasExt(f.file, "tsx")
  {
    if HasExt(f.file, "ts") {
      ExtUnique(f.file, f.ext, "ts");
    }
    if HasExt(f.file, "tsx") {
      ExtUnique(f.file, f.ext, "tsx");
    }
  }

  /** In the generic rule the language is TypeScript exactly when the file ends in `.ts` or `.tsx`. */
  lemma JsGenericLanguage(input: string, p: ParsedError)
    requires Leftmost(input, TscAt).None? && ParseJs(input) == Some(p)
    ensures p.language == TypeScript <==> HasExt(p.file, "ts") || HasExt(p.file, "tsx")
  {
    JsGenericFields(input, p);
    var j := LeftmostFound(input, JsFileAt);
    JsCapExt(Leftmost(input, JsFileAt).value);
  }

  /** In the generic rule the column is absent exactly when the location has no `:col` part. */
  lemma JsColumnOptional(input: string, p: ParsedError)
    requires Leftmost(input, TscAt).None? && ParseJs(input) == Some(p)
    ensures Leftmost(input, JsFileAt).value.col.None? ==> p.column.None?
    ensures p.line.Some?
  {
  }

  /** Syntax and type errors keep their details; a reference error without a `w is not defined` name, and any other name, is unknown. */
  lemma JsKindNames(name: string, details: string)
    ensures name == "SyntaxError" <==> JsKind(name, details) == SyntaxError(details)
    ensures name == "TypeError" <==> JsKind(name, details) == TypeError(details)
    ensures JsKind(name, details).UndeclaredVariable? <==>
      name == "ReferenceError" && Leftmost(details, WordNotDefinedAt).Some?
    ensures name !in ["SyntaxError", "ReferenceError", "TypeError"] ==> JsKind(name, details) == ErrorType.Unknown(details)
  {
  }

  /** The variable of a `ReferenceError` is a non-empty word. */
  lemma ReferenceErrorName(details: string, w: string)
    requires JsKind("ReferenceError", details) == UndeclaredVariable(w)
    ensures |w| > 0 && forall k :: 0 <= k < |w| ==> IsWordChar(w[k])
  {
    var j := LeftmostFound(details, WordNotDefinedAt);
  }

  // ---------------------------------------------------------------- Rust

  /** "cannot find" is checked before "borrow", so such a message is never a borrow error. */
  lemma CannotFindBeforeBorrow(message: string)
    requires Contains(message, "cannot find")
    ensures !RustKind(message).BorrowError?
    ensures Leftmost(message, CannotFindAt).None? ==> RustKind(message) == ErrorType.Unknown(message)
  {
  }

  /** Without "cannot find", a message mentioning "borrow" is a borrow error carrying the message. */
  lemma BorrowKind(message: string)
    requires !Contains(message, "cannot find") && Contains(message, "borrow")
    ensures RustKind(message) == BorrowError(message)
  {
  }

  /** The name Rust cannot find is the non-empty text between backticks. */
  lemma RustUndeclaredName(message: string, x: string)
    requires RustKind(message) == UndeclaredVariable(x)
    ensures |x| > 0 && '`' !in x
  {
    var j := LeftmostFound(message, CannotFindAt);
  }

  /** A Rust result needs both the error line and the location, both numbers fitting in 32 bits. */
  lemma RustNeedsBoth(input: string)
    ensures ParseRust(input).Some? <==>
      (Leftmost(input, RustErrorAt).Some? && Leftmost(input, RustLocationAt).Some?
       && ParseU32(Leftmost(input, RustLocationAt).value.line).Some?
       && ParseU32(Leftmost(input, RustLocationAt).value.col).Some?)
  {
  }
}
