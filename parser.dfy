/**
 * The diagnostic classifier: the taxonomy of languages and error kinds, the
 * four per-language extractors that turn compiler or interpreter output into
 * a `ParsedError`, and `ParseError`, which tries them in a fixed order.
 */
module Parser {
  import opened Wrappers
  import opened Text
  import opened Pattern

  datatype Language = Cpp | Python | JavaScript | TypeScript | Rust | Unknown

  /** The `Display` text of a language. */
  function LanguageName(l: Language): (r: string)
    ensures |r| > 0
  {
    match l
    case Cpp => "C++"
    case Python => "Python"
    case JavaScript => "JavaScript"
    case TypeScript => "TypeScript"
    case Rust => "Rust"
    case Unknown => "Unknown"
  }

  datatype ErrorType =
    | MissingInclude(header: string)
    | MissingSemicolon
    | UndeclaredVariable(name: string)
    | SyntaxError(detail: string)
    | IndentationError
    | ImportError(moduleName: string)
    | TypeError(detail: string)
    | ModuleNotFound(moduleName: string)
    | BorrowError(detail: string)
    | KeyError(key: string)
    | AttributeError(detail: string)
    | ValueError(detail: string)
    | MissingEnvVar(detail: string)
    | RequestsError(detail: string)
    | Unknown(message: string)

  datatype ParsedError = ParsedError(
    file: string,
    line: Option<u32>,
    column: Option<u32>,
    message: string,
    errorType: ErrorType,
    language: Language)

  /** `[^\s:]`, the characters of a file name in a `file:line` location. */
  predicate PathChar(c: char) { !IsSpace(c) && c != ':' }

  // ---------------------------------------------------------------- C++

  const CppExts: seq<string> := ["cpp", "cc", "cxx", "c", "h", "hpp"]

  datatype CppCap = CppCap(file: string, line: string, col: string, message: string)

  /** Where the file, line and column of a C++ location end: `file` is `s[i..e]`, `:` stands at `e` and `d1`. */
  datatype CppLoc = CppLoc(e: nat, d1: nat, d2: nat)

  /** `([^\s:]+\.(cpp|cc|cxx|c|h|hpp)):(\d+):(\d+)` anchored at `i`. */
  function CppLocationAt(s: string, i: nat): (r: Option<CppLoc>)
    ensures r.Some? ==> i <= r.value.e < r.value.d1 < r.value.d2 <= |s| && r.value.e + 1 < r.value.d1
    ensures r.Some? ==> s[r.value.e] == ':' && s[r.value.d1] == ':' && ExtOf(s[i..r.value.e], CppExts).Some?
  {
    if i > |s| then None
    else
      var e := RunEnd(s, i, PathChar);
      if e == |s| || s[e] != ':' || ExtOf(s[i..e], CppExts).None? then None
      else
        var d1 := RunEnd(s, e + 1, IsDigit);
        if d1 == e + 1 || d1 == |s| || s[d1] != ':' then None
        else
          var d2 := RunEnd(s, d1 + 1, IsDigit);
          if d2 == d1 + 1 then None
          else
            Some(CppLoc(e, d1, d2))
  }

  /** The line and column a C++ location match captures are digit runs. */
  lemma CppLocationDigits(s: string, i: nat)
    requires CppLocationAt(s, i).Some?
    ensures var loc := CppLocationAt(s, i).value;
      AllDigits(s[loc.e + 1..loc.d1]) && AllDigits(s[loc.d1 + 1..loc.d2])
  {
    var loc := CppLocationAt(s, i).value;
    RunEndInClass(s, loc.e + 1, IsDigit);
    RunEndInClass(s, loc.d1 + 1, IsDigit);
    SliceInClass(s, loc.e + 1, loc.d1, IsDigit);
    SliceInClass(s, loc.d1 + 1, loc.d2, IsDigit);
  }

  /** `: error: (.+)` at `j`: the message after the location. */
  function CppMessageAt(s: string, j: nat): (r: Option<string>)
    ensures r.Some? ==> |r.value| > 0 && '\n' !in r.value
  {
    if OccursAt(s, ": error: ", j) then RestOfLine(s, j + 9) else None
  }

  /** `([^\s:]+\.(cpp|cc|cxx|c|h|hpp)):(\d+):(\d+): error: (.+)` anchored at `i`. */
  function CppAt(s: string, i: nat): Option<CppCap>
  {
    match CppLocationAt(s, i)
    case None => None
    case Some(loc) =>
      match CppMessageAt(s, loc.d2)
      case None => None
      case Some(m) => Some(CppCap(s[i..loc.e], s[loc.e + 1..loc.d1], s[loc.d1 + 1..loc.d2], m))
  }

  /** `#include <([^>]+)>` anchored at `i`. */
  function IncludeAt(s: string, i: nat): Option<string> {
    DelimitedAt(s, i, "#include <", '>', "")
  }

  /** `'([^']+)' was not declared|use of undeclared identifier '([^']+)'` anchored at `i`. */
  function UndeclaredAt(s: string, i: nat): Option<string> {
    var first := DelimitedAt(s, i, "'", '\'', " was not declared");
    if first.Some? then first else DelimitedAt(s, i, "use of undeclared identifier '", '\'', "")
  }

  /** The message speaks of a missing standard-library member. */
  predicate CppHeaderCase(msg: string) {
    Contains(msg, "is not a member of 'std'") || Contains(msg, "was not declared")
  }

  /**
   * The header suggested for a missing member: an `#include <…>` anywhere in
   * the full text, else the first keyword of the lower-cased message in the
   * order vector, string, cout/cin, map, set.
   */
  function HeaderGuess(msg: string, full: string): Option<string> {
    match Leftmost(full, IncludeAt)
    case Some(h) => Some(h)
    case None =>
      if Contains(msg, "vector") then Some("vector")
      else if Contains(msg, "string") then Some("string")
      else if Contains(msg, "cout") || Contains(msg, "cin") then Some("iostream")
      else if Contains(msg, "map") then Some("map")
      else if Contains(msg, "set") then Some("set")
      else None
  }

  /** The C++ classifier `detect_cpp_error_type`, on the message and the full text. */
  function DetectCppErrorType(message: string, full: string): ErrorType {
    var msg := Lower(message);
    if CppHeaderCase(msg) && HeaderGuess(msg, full).Some? then MissingInclude(HeaderGuess(msg, full).value)
    else if Contains(msg, "expected ';'") || Contains(msg, "expected ';' before") then MissingSemicolon
    else
      match Leftmost(msg, UndeclaredAt)
      case Some(v) => UndeclaredVariable(v)
      case None => ErrorType.Unknown(message)
  }

  function ParseCpp(input: string): (r: Option<ParsedError>)
    ensures r.Some? ==> r.value.language == Cpp && r.value.line.Some? && r.value.column.Some?
    ensures r.Some? <==>
      (Leftmost(input, CppAt).Some? &&
       ParseU32(Leftmost(input, CppAt).value.line).Some? && ParseU32(Leftmost(input, CppAt).value.col).Some?)
  {
    match Leftmost(input, CppAt)
    case None => None
    case Some(cap) =>
      match (ParseU32(cap.line), ParseU32(cap.col))
      case (Some(l), Some(c)) =>
        Some(ParsedError(cap.file, Some(l), Some(c), cap.message, DetectCppErrorType(cap.message, input), Cpp))
      case _ => None
  }

  // ---------------------------------------------------------------- Python

  datatype FileLineCap = FileLineCap(file: string, line: string)

  /** `File "([^"]+\.py)", line (\d+)` anchored at `i`. */
  function PyFileAt(s: string, i: nat): (r: Option<FileLineCap>)
    ensures r.Some? ==> HasExt(r.value.file, "py") && '"' !in r.value.file && |r.value.line| > 0
  {
    if !OccursAt(s, "File \"", i) then None
    else
      var b := i + 6;
      var q := RunEnd(s, b, NotQuote);
      if q == |s| || !HasExt(s[b..q], "py") || !OccursAt(s, "\", line ", q) then None
      else
        var d := RunEnd(s, q + 8, IsDigit);
        if d == q + 8 then None
        else
          RunEndInClass(s, b, NotQuote);
          assert '"' !in s[b..q] by {
            forall k | 0 <= k < q - b ensures s[b..q][k] != '"' { assert s[b..q][k] == s[b + k]; }
          }
          Some(FileLineCap(s[b..q], s[q + 8..d]))
  }

  const PythonErrorNames: seq<string> := ["SyntaxError", "IndentationError", "NameError", "ImportError",
    "TypeError", "ModuleNotFoundError", "KeyError", "AttributeError", "ValueError"]

  /** A name of the requests family, `requests\.exceptions\.\w+`. */
  predicate RequestsName(n: string) {
    |n| > 20 && n[..20] == "requests.exceptions." && forall k :: 20 <= k < |n| ==> IsWordChar(n[k])
  }

  /** `requests\.exceptions\.(\w+): (.+)` anchored at `i`; the name is the `\w+` part. */
  function RequestsAt(s: string, i: nat): (r: Option<NamedCap>)
    ensures r.Some? ==> ':' in s && |r.value.name| > 0 && |r.value.detail| > 0
    ensures r.Some? ==>
      (forall k :: 0 <= k < |r.value.name| ==> IsWordChar(r.value.name[k]))
      && OccursAt(s, "requests.exceptions.", i) && NameDetailAt(s, i + 20, r.value.name) == Some(r.value.detail)
  {
    if !OccursAt(s, "requests.exceptions.", i) then None
    else
      var b := i + 20;
      var w := RunEnd(s, b, IsWordChar);
      if w == b || !OccursAt(s, ": ", w) then None
      else
        match RestOfLine(s, w + 2)
        case None => None
        case Some(d) =>
          assert s[w] == ':' by { assert s[w..w + 2][0] == s[w]; }
          RunEndInClass(s, b, IsWordChar);
          SliceInClass(s, b, w, IsWordChar);
          Some(NamedCap(s[b..w], d))
  }

  /**
   * `(SyntaxError|…|ValueError|requests\.exceptions\.\w+): (.+)` anchored at
   * `i`: the nine names in order, then the requests family.
   */
  function PyErrorAt(s: string, i: nat): (r: Option<NamedCap>)
    ensures r.Some? ==> ':' in s
    ensures r.Some? ==>
      (r.value.name in PythonErrorNames || RequestsName(r.value.name))
      && NameDetailAt(s, i, r.value.name) == Some(r.value.detail)
  {
    var named := NamedAt(s, i, PythonErrorNames);
    if named.Some? then
      NameDetailColon(s, i, named.value.name);
      named
    else RequestsFamilyAt(s, i)
  }

  /** The `requests\.exceptions\.\w+` alternative of the Python error regex, with the full name. */
  function RequestsFamilyAt(s: string, i: nat): (r: Option<NamedCap>)
    ensures r.Some? ==> ':' in s
    ensures r.Some? ==> RequestsName(r.value.name) && NameDetailAt(s, i, r.value.name) == Some(r.value.detail)
  {
    match RequestsAt(s, i)
    case None => None
    case Some(q) =>
      var n := "requests.exceptions." + q.name;
      NameDetailPrefixed(s, i, "requests.exceptions.", q.name);
      assert n[..20] == "requests.exceptions." && n[20..] == q.name;
      Some(NamedCap(n, q.detail))
  }

  /** `name '([^']+)' is not defined` anchored at `i`. */
  function NameNotDefinedAt(s: string, i: nat): Option<string> {
    DelimitedAt(s, i, "name '", '\'', " is not defined")
  }

  /** `No module named '([^']+)'` anchored at `i`. */
  function NoModuleAt(s: string, i: nat): Option<string> {
    DelimitedAt(s, i, "No module named '", '\'', "")
  }

  /** The error kind of a Python `Name: details` line. */
  function PythonKind(name: string, details: string): ErrorType {
    if name == "SyntaxError" then SyntaxError(details)
    else if name == "IndentationError" then IndentationError
    else if name == "NameError" then
      match Leftmost(details, NameNotDefinedAt)
      case Some(x) => UndeclaredVariable(x)
      case None => ErrorType.Unknown(details)
    else if name == "ImportError" || name == "ModuleNotFoundError" then
      match Leftmost(details, NoModuleAt)
      case Some(m) => ImportError(m)
      case None => ImportError(details)
    else if name == "TypeError" then TypeError(details)
    else if name == "KeyError" then KeyError(details)
    else if name == "AttributeError" then AttributeError(details)
    else if name == "ValueError" then ValueError(details)
    else ErrorType.Unknown(details)
  }

  /** The kind of a `requests.exceptions.Name: details` line. */
  function RequestsKind(name: string, details: string): ErrorType {
    if name == "MissingSchema" || Contains(details, "None") then MissingEnvVar(details)
    else RequestsError(name + ": " + details)
  }

  function ParsePython(input: string): (r: Option<ParsedError>)
    ensures r.Some? ==> r.value.language == Python && r.value.column.None?
  {
    var fileCap := Leftmost(input, PyFileAt);
    var errorCap := Leftmost(input, PyErrorAt);
    match Leftmost(input, RequestsAt)
    case Some(req) =>
      var file := if fileCap.Some? then fileCap.value.file else "unknown.py";
      var line := if fileCap.Some? then ParseU32(fileCap.value.line) else None;
      Some(ParsedError(file, line, None, "requests.exceptions." + req.name + ": " + req.detail,
        RequestsKind(req.name, req.detail), Python))
    case None =>
      if fileCap.Some? && errorCap.Some? then
        (match ParseU32(fileCap.value.line)
         case None => None
         case Some(l) =>
           Some(ParsedError(fileCap.value.file, Some(l), None, errorCap.value.name + ": " + errorCap.value.detail,
             PythonKind(errorCap.value.name, errorCap.value.detail), Python)))
      else None
  }

  // ---------------------------------------------------------------- JavaScript / TypeScript

  /** `[^\s(]`, the characters of a file name in a tsc `file(line,col)` location. */
  predicate TscPathChar(c: char) { !IsSpace(c) && c != '(' }

  datatype TscCap = TscCap(file: string, line: string, col: string, code: string, message: string)

  /** The text of a tsc diagnostic, `file(line,col): error code: message`. */
  function TscText(file: string, l: string, c: string, code: string, message: string): string {
    file + ("(" + (l + ("," + (c + ("): error " + (code + (": " + message)))))))
  }

  /** A tsc error code: `TS` and a non-empty digit run. */
  predicate TscCode(code: string) {
    |code| > 2 && code[..2] == "TS" && AllDigits(code[2..])
  }

  /** `(TS\d+): (.+)` anchored at `i`: the code, then `": "` and the rest of the line. */
  function TscCodeAt(s: string, i: nat): (r: Option<(string, string)>)
    ensures r.Some? ==> ':' in s
    ensures r.Some? ==> TscCode(r.value.0) && NameDetailAt(s, i, r.value.0) == Some(r.value.1)
  {
    if !OccursAt(s, "TS", i) then None
    else
      var d := RunEnd(s, i + 2, IsDigit);
      if d == i + 2 || !OccursAt(s, ": ", d) then None
      else
        match RestOfLine(s, d + 2)
        case None => None
        case Some(m) =>
          assert s[d] == ':' by { assert s[d..d + 2][0] == s[d]; }
          assert s[i..d][..2] == s[i..i + 2];
          assert s[i..d][2..] == s[i + 2..d];
          RunEndInClass(s, i + 2, IsDigit);
          SliceInClass(s, i + 2, d, IsDigit);
          Some((s[i..d], m))
  }

  /** `\): error (TS\d+): (.+)` at `j`: the code and message after the location. */
  function TscMessageAt(s: string, j: nat): (r: Option<(string, string)>)
    ensures r.Some? ==> OccursAt(s, "): error ", j) && r == TscCodeAt(s, j + 9)
  {
    if OccursAt(s, "): error ", j) then TscCodeAt(s, j + 9) else None
  }

  const TscExts: seq<string> := ["ts", "tsx"]

  /** Where the file, line and column of a tsc location end: `(` stands at `e`, `,` at `d1`. */
  datatype TscLoc = TscLoc(e: nat, d1: nat, d2: nat)

  /**
   * The ends `e`, `d1`, `d2` of a tsc location from `i`: a space- and
   * parenthesis-free .ts/.tsx file, `(` at `e`, a digit run, `,` at `d1`, a digit run.
   */
  predicate TscLocValid(s: string, i: nat, loc: TscLoc) {
    i <= loc.e && loc.e + 1 < loc.d1 && loc.d1 + 1 < loc.d2 <= |s|
    && s[loc.e] == '(' && s[loc.d1] == ',' && ExtOf(s[i..loc.e], TscExts).Some?
    && (forall k :: i <= k < loc.e ==> TscPathChar(s[k]))
    && (forall k :: loc.e + 1 <= k < loc.d1 ==> IsDigit(s[k]))
    && (forall k :: loc.d1 + 1 <= k < loc.d2 ==> IsDigit(s[k]))
  }

  /** `([^\s(]+\.(ts|tsx))\((\d+),(\d+)` anchored at `i`. */
  function TscLocationAt(s: string, i: nat): (r: Option<TscLoc>)
    ensures r.Some? ==> TscLocValid(s, i, r.value)
  {
    if i > |s| then None
    else
      var e := RunEnd(s, i, TscPathChar);
      if e == |s| || s[e] != '(' || ExtOf(s[i..e], TscExts).None? then None
      else
        var d1 := RunEnd(s, e + 1, IsDigit);
        if d1 == e + 1 || d1 == |s| || s[d1] != ',' then None
        else
          var d2 := RunEnd(s, d1 + 1, IsDigit);
          if d2 == d1 + 1 then None
          else
            RunEndInClass(s, i, TscPathChar);
            RunEndInClass(s, e + 1, IsDigit);
            RunEndInClass(s, d1 + 1, IsDigit);
            Some(TscLoc(e, d1, d2))
  }

  /** `([^\s(]+\.(ts|tsx))\((\d+),(\d+)\): error (TS\d+): (.+)` anchored at `i`. */
  function TscAt(s: string, i: nat): (r: Option<TscCap>)
    ensures r.Some? ==> ':' in s && TscLayout(s, i, r.value) && TscFields(r.value)
    ensures r.Some? ==> NameDetailAt(s, TscCodeStart(i, r.value), r.value.code) == Some(r.value.message)
  {
    match TscLocationAt(s, i)
    case None => None
    case Some(loc) =>
      var r := TscCapAt(s, i, loc);
      if r.Some? then NameDetailColon(s, TscCodeStart(i, r.value), r.value.code); r else r
  }

  /** The rest of the tsc regex after a location whose ends are `loc`. */
  function TscCapAt(s: string, i: nat, loc: TscLoc): (r: Option<TscCap>)
    requires TscLocValid(s, i, loc)
    ensures r.Some? ==> TscLayout(s, i, r.value) && TscFields(r.value)
    ensures r.Some? ==> NameDetailAt(s, TscCodeStart(i, r.value), r.value.code) == Some(r.value.message)
  {
    match TscMessageAt(s, loc.d2)
    case None => None
    case Some(cm) =>
      TscCapOfMatch(s, i, loc, cm.0, cm.1);
      Some(TscCapOf(s, i, loc, cm.0, cm.1))
  }

  /** A location followed by `): error ` and a code and message makes a tsc match. */
  lemma TscCapOfMatch(s: string, i: nat, loc: TscLoc, code: string, message: string)
    requires TscLocValid(s, i, loc) && OccursAt(s, "): error ", loc.d2)
    requires TscCodeAt(s, loc.d2 + 9) == Some((code, message))
    ensures var c := TscCapOf(s, i, loc, code, message);
      TscLayout(s, i, c) && TscFields(c)
      && NameDetailAt(s, TscCodeStart(i, c), c.code) == Some(c.message)
  {
    var c := TscCapOf(s, i, loc, code, message);
    assert TscCodeStart(i, c) == loc.d2 + 9 && c.code == code && c.message == message;
  }

  /** The captures of a tsc match whose location ends are `loc`, with its code and message. */
  function TscCapOf(s: string, i: nat, loc: TscLoc, code: string, message: string): (c: TscCap)
    requires TscLocValid(s, i, loc) && OccursAt(s, "): error ", loc.d2)
    ensures TscLayout(s, i, c) && TscLocFields(c) && TscCodeStart(i, c) == loc.d2 + 9
    ensures c.code == code && c.message == message
  {
    TscLocLayout(s, i, loc.e, loc.d1, loc.d2, code, message);
    TscLocSlices(s, i, loc, code, message);
    TscCap(s[i..loc.e], s[loc.e + 1..loc.d1], s[loc.d1 + 1..loc.d2], code, message)
  }

  /** The slices a valid tsc location cuts are a file name and two digit runs the regex allows. */
  lemma TscLocSlices(s: string, i: nat, loc: TscLoc, code: string, message: string)
    requires TscLocValid(s, i, loc)
    ensures TscLocFields(TscCap(s[i..loc.e], s[loc.e + 1..loc.d1], s[loc.d1 + 1..loc.d2], code, message))
  {
    SliceInClass(s, i, loc.e, TscPathChar);
    SliceInClass(s, loc.e + 1, loc.d1, IsDigit);
    SliceInClass(s, loc.d1 + 1, loc.d2, IsDigit);
  }

  /**
   * The location captures of a tsc diagnostic stand in `s` from `i` on as the
   * regex lays them out: the file, `(`, the line, `,`, the column, `): error `.
   */
  predicate TscLayout(s: string, i: nat, c: TscCap) {
    var e := i + |c.file|; var d1 := e + 1 + |c.line|; var d2 := d1 + 1 + |c.col|;
    OccursAt(s, c.file, i) && OccursAt(s, "(", e) && OccursAt(s, c.line, e + 1) && OccursAt(s, ",", d1)
    && OccursAt(s, c.col, d1 + 1) && OccursAt(s, "): error ", d2)
  }

  /** Where the code of a tsc diagnostic laid out from `i` starts, after `): error `. */
  function TscCodeStart(i: nat, c: TscCap): nat {
    i + |c.file| + |c.line| + |c.col| + 11
  }

  /** The location captures a tsc match allows: a space- and parenthesis-free .ts/.tsx file, digit runs. */
  predicate TscLocFields(c: TscCap) {
    (forall k :: 0 <= k < |c.file| ==> TscPathChar(c.file[k])) && ExtOf(c.file, TscExts).Some?
    && |c.line| > 0 && AllDigits(c.line) && |c.col| > 0 && AllDigits(c.col)
  }

  /** The captures a tsc match allows: those of its location and a `TS` code. */
  predicate TscFields(c: TscCap) {
    TscLocFields(c) && TscCode(c.code)
  }

  /** Slices of `s` cut at a `(` and a `,` and followed by `): error ` are laid out as a tsc location. */
  lemma TscLocLayout(s: string, i: nat, e: nat, d1: nat, d2: nat, code: string, message: string)
    requires i <= e && e + 1 < d1 && d1 < d2 <= |s|
    requires s[e] == '(' && s[d1] == ',' && OccursAt(s, "): error ", d2)
    ensures var c := TscCap(s[i..e], s[e + 1..d1], s[d1 + 1..d2], code, message);
      TscLayout(s, i, c) && TscCodeStart(i, c) == d2 + 9
  {
    var c := TscCap(s[i..e], s[e + 1..d1], s[d1 + 1..d2], code, message);
    assert i + |c.file| == e && e + 1 + |c.line| == d1 && d1 + 1 + |c.col| == d2;
    assert s[e..e + 1] == "(";
    assert s[d1..d1 + 1] == ",";
  }

  const JsExts: seq<string> := ["js", "ts", "jsx", "tsx", "mjs"]

  datatype JsFileCap = JsFileCap(file: string, ext: string, line: string, col: Option<string>)

  /** `([^\s:]+\.(js|ts|jsx|tsx|mjs)):(\d+)(?::(\d+))?` anchored at `i`. */
  function JsFileAt(s: string, i: nat): (r: Option<JsFileCap>)
    ensures r.Some? ==> r.value.ext in JsExts && HasExt(r.value.file, r.value.ext)
  {
    if i > |s| then None
    else
      var e := RunEnd(s, i, PathChar);
      if e == |s| || s[e] != ':' then None
      else
        ExtOfSpec(s[i..e], JsExts);
        match ExtOf(s[i..e], JsExts)
        case None => None
        case Some(ext) =>
          var d1 := RunEnd(s, e + 1, IsDigit);
          if d1 == e + 1 then None
          else
            var col :=
              if d1 < |s| && s[d1] == ':' && RunEnd(s, d1 + 1, IsDigit) > d1 + 1
              then Some(s[d1 + 1..RunEnd(s, d1 + 1, IsDigit)])
              else None;
            Some(JsFileCap(s[i..e], ext, s[e + 1..d1], col))
  }

  const JsErrorNames: seq<string> := ["SyntaxError", "TypeError", "ReferenceError"]

  /** `(SyntaxError|TypeError|ReferenceError): (.+)` anchored at `i`. */
  function JsErrorAt(s: string, i: nat): (r: Option<NamedCap>)
    ensures r.Some? ==> ':' in s
    ensures r.Some? ==> r.value.name in JsErrorNames && NameDetailAt(s, i, r.value.name) == Some(r.value.detail)
  {
    var named := NamedAt(s, i, JsErrorNames);
    if named.Some? then
      NameDetailColon(s, i, named.value.name);
      named
    else None
  }

  /** `(\w+) is not defined` anchored at `i`. */
  function WordNotDefinedAt(s: string, i: nat): (r: Option<string>)
    ensures r.Some? ==> |r.value| > 0 && forall k :: 0 <= k < |r.value| ==> IsWordChar(r.value[k])
  {
    if i >= |s| || !IsWordChar(s[i]) then None
    else
      var w := RunEnd(s, i, IsWordChar);
      if OccursAt(s, " is not defined", w) then
        RunEndInClass(s, i, IsWordChar);
        assert forall k :: 0 <= k < w - i ==> IsWordChar(s[i..w][k]) by {
          forall k | 0 <= k < w - i ensures IsWordChar(s[i..w][k]) { assert s[i..w][k] == s[i + k]; }
        }
        Some(s[i..w])
      else None
  }

  /** `Cannot find name '([^']+)'` anchored at `i`. */
  function CannotFindNameAt(s: string, i: nat): Option<string> {
    DelimitedAt(s, i, "Cannot find name '", '\'', "")
  }

  /** The error kind of a tsc diagnostic with code `code`. */
  function TscKind(code: string, message: string): ErrorType {
    if code == "TS2304" || code == "TS2552" then
      match Leftmost(message, CannotFindNameAt)
      case Some(x) => UndeclaredVariable(x)
      case None => ErrorType.Unknown(message)
    else if code == "TS2307" then ModuleNotFound(message)
    else ErrorType.Unknown(message)
  }

  /** The error kind of a generic JavaScript `Name: details` line. */
  function JsKind(name: string, details: string): ErrorType {
    if name == "SyntaxError" then SyntaxError(details)
    else if name == "ReferenceError" then
      match Leftmost(details, WordNotDefinedAt)
      case Some(w) => UndeclaredVariable(w)
      case None => ErrorType.Unknown(details)
    else if name == "TypeError" then TypeError(details)
    else ErrorType.Unknown(details)
  }

  function ParseJs(input: string): (r: Option<ParsedError>)
    ensures r.Some? ==> (r.value.language == JavaScript || r.value.language == TypeScript) && r.value.line.Some?
  {
    match Leftmost(input, TscAt)
    case Some(ts) =>
      (match (ParseU32(ts.line), ParseU32(ts.col))
       case (Some(l), Some(c)) =>
         Some(ParsedError(ts.file, Some(l), Some(c), ts.code + ": " + ts.message, TscKind(ts.code, ts.message), TypeScript))
       case _ => None)
    case None =>
      match (Leftmost(input, JsFileAt), Leftmost(input, JsErrorAt))
      case (Some(f), Some(e)) =>
        (match ParseU32(f.line)
         case None => None
         case Some(l) =>
           var col := if f.col.Some? then ParseU32(f.col.value) else None;
           var language := if f.ext == "ts" || f.ext == "tsx" then TypeScript else JavaScript;
           Some(ParsedError(f.file, Some(l), col, e.name + ": " + e.detail, JsKind(e.name, e.detail), language)))
      case _ => None
  }

  // ---------------------------------------------------------------- Rust

  /** `error\[E\d+\]: (.+)` anchored at `i`. */
  function RustErrorAt(s: string, i: nat): (r: Option<string>)
    ensures r.Some? ==> ':' in s && |r.value| > 0
  {
    if !OccursAt(s, "error[E", i) then None
    else
      var d := RunEnd(s, i + 7, IsDigit);
      if d == i + 7 || !OccursAt(s, "]: ", d) then None
      else
        assert s[d + 1] == ':' by { assert s[d..d + 3][1] == s[d + 1]; }
        RestOfLine(s, d + 3)
  }

  datatype LocationCap = LocationCap(file: string, line: string, col: string)

  /** `--> ([^:]+):(\d+):(\d+)` anchored at `i`. */
  function RustLocationAt(s: string, i: nat): (r: Option<LocationCap>)
    ensures r.Some? ==> |r.value.file| > 0 && ':' !in r.value.file
  {
    if !OccursAt(s, "--> ", i) then None
    else
      var b := i + 4;
      var e := RunEnd(s, b, NotColon);
      if e == b || e == |s| then None
      else
        var d1 := RunEnd(s, e + 1, IsDigit);
        if d1 == e + 1 || d1 == |s| || s[d1] != ':' then None
        else
          var d2 := RunEnd(s, d1 + 1, IsDigit);
          if d2 == d1 + 1 then None
          else
            RunEndInClass(s, b, NotColon);
            assert ':' !in s[b..e] by {
              forall k | 0 <= k < e - b ensures s[b..e][k] != ':' { assert s[b..e][k] == s[b + k]; }
            }
            Some(LocationCap(s[b..e], s[e + 1..d1], s[d1 + 1..d2]))
  }

  /** ``cannot find (?:value|type) `([^`]+)` `` anchored at `i`. */
  function CannotFindAt(s: string, i: nat): Option<string> {
    var value := DelimitedAt(s, i, "cannot find value `", '`', "");
    if value.Some? then value else DelimitedAt(s, i, "cannot find type `", '`', "")
  }

  /** The error kind of a rustc `error[E…]` message. */
  function RustKind(message: string): ErrorType {
    if Contains(message, "cannot find") then
      match Leftmost(message, CannotFindAt)
      case Some(x) => UndeclaredVariable(x)
      case None => ErrorType.Unknown(message)
    else if Contains(message, "borrow") then BorrowError(message)
    else ErrorType.Unknown(message)
  }

  function ParseRust(input: string): (r: Option<ParsedError>)
    ensures r.Some? ==> r.value.language == Rust && r.value.line.Some? && r.value.column.Some?
    ensures r.Some? ==> Leftmost(input, RustErrorAt).Some? && Leftmost(input, RustLocationAt).Some?
  {
    match (Leftmost(input, RustErrorAt), Leftmost(input, RustLocationAt))
    case (Some(message), Some(loc)) =>
      (match (ParseU32(loc.line), ParseU32(loc.col))
       case (Some(l), Some(c)) => Some(ParsedError(loc.file, Some(l), Some(c), message, RustKind(message), Rust))
       case _ => None)
    case _ => None
  }

  // ---------------------------------------------------------------- dispatch

  /**
   * `parse_error`: the first extractor, in the order C++, Python,
   * JavaScript/TypeScript, Rust, that accepts the text.
   */
  function ParseError(input: string): (r: Option<ParsedError>)
    ensures ParseCpp(input).Some? ==> r == ParseCpp(input)
    ensures ParseCpp(input).None? && ParsePython(input).Some? ==> r == ParsePython(input)
    ensures ParseCpp(input).None? && ParsePython(input).None? && ParseJs(input).Some? ==> r == ParseJs(input)
    ensures ParseCpp(input).None? && ParsePython(input).None? && ParseJs(input).None? ==> r == ParseRust(input)
    ensures r.Some? ==> r.value.language != Language.Unknown
  {
    if ParseCpp(input).Some? then ParseCpp(input)
    else if ParsePython(input).Some? then ParsePython(input)
    else if ParseJs(input).Some? then ParseJs(input)
    else ParseRust(input)
  }
}
