/**
 * The remediation dispatcher: for a classified error, the fixed advice the
 * tool prints, as a sequence of output events; for text the classifier
 * rejects, a substring fallback.
 */
module Fixer {
  import opened Wrappers
  import opened Text
  import opened Parser
  import opened Output
  import opened Advice

  /** `analyze_error`: classify the text, then show it and its fix, or fall back to pattern matching. */
  function AnalyzeError(errorText: string): seq<Event> {
    AnalyzeParsed(errorText, ParseError(errorText))
  }

  /** What `analyze_error` prints for a text, given what the classifier made of it. */
  function AnalyzeParsed(errorText: string, parsed: Option<ParsedError>): seq<Event> {
    [Section("Analyzing Error")] +
    match parsed
    case Some(e) => ShowParsedError(e) + ShowFixForError(e)
    case None =>
      [Warning("Could not fully parse error format"), Info("Attempting pattern matching...")] +
      match TryCommonPatterns(errorText)
      case Some(fix) => [Instruction(fix)]
      case None => [Error("Unknown error pattern"), Hint("Try 'ess list' to see supported error types")]
  }

  function ShowParsedError(e: ParsedError): seq<Event> {
    [Info("Language: " + LanguageName(e.language)), Location(e.file, e.line, e.column), Error(e.message)]
  }

  /** `show_fix_for_error`: one template per error kind. */
  function ShowFixForError(e: ParsedError): seq<Event> {
    match e.errorType
    case MissingInclude(header) => FixMissingInclude(header, e.language)
    case MissingSemicolon => FixMissingSemicolon(e.language)
    case UndeclaredVariable(v) => FixUndeclaredVariable(v, e.language)
    case SyntaxError(details) => FixSyntaxError(details, e.language)
    case IndentationError => FixIndentationError()
    case ImportError(m) => FixImportError(m, e.language)
    case ModuleNotFound(m) => FixModuleNotFound(m, e.language)
    case TypeError(details) => FixTypeError(details, e.language)
    case BorrowError(details) => FixBorrowError(details)
    case KeyError(key) => FixKeyError(key)
    case AttributeError(details) => FixAttributeError(details)
    case ValueError(details) => FixValueError(details)
    case MissingEnvVar(details) => FixMissingEnvVar(details)
    case RequestsError(details) => FixRequestsError(details)
    case Unknown(msg) => [Warning("No automatic fix for: " + msg), Hint("Check the error message and fix manually")]
  }

  function FixMissingInclude(header: string, lang: Language): seq<Event> {
    if lang == Cpp then
      [Diff(IncludeSample(header)), Instruction(AddInclude(header))]
    else []
  }

  function FixMissingSemicolon(lang: Language): seq<Event> {
    if lang == Cpp || lang == JavaScript || lang == TypeScript then
      [Diff(SemicolonSample), Instruction(AddSemicolon)]
    else []
  }

  function FixUndeclaredVariable(v: string, lang: Language): seq<Event> {
    [Section("Possible Causes"), Info("Variable '" + v + "' is not defined")] +
    match lang
    case Cpp =>
      [Plain("  1. Typo in variable name"), Plain("  2. Variable declared in different scope"),
       Plain("  3. Missing #include for std:: types")] +
      (if IsStdType(v) then [Diff(StdTypeSample(v))] else [Instruction(CppUndeclared(v))])
    case Python => [Instruction(PythonUndeclared(v))]
    case JavaScript => [Instruction(JsUndeclared(v))]
    case TypeScript => [Instruction(JsUndeclared(v))]
    case Rust => [Instruction(RustUndeclared(v))]
    case Unknown => []
  }

  /** The syntax advice, chosen on the lower-cased detail; the language is not consulted. */
  function SyntaxAdvice(details: string): Advice {
    var lower := Lower(details);
    if Contains(lower, "unexpected token") then UnexpectedToken
    else if Contains(lower, "was never closed") || Contains(lower, "unterminated") then Unclosed
    else if Contains(lower, "expected") then Expected(details)
    else GenericSyntax(details)
  }

  function FixSyntaxError(details: string, lang: Language): seq<Event> {
    [Section("Syntax Error"), Instruction(SyntaxAdvice(details))]
  }

  function FixIndentationError(): seq<Event> {
    [Diff(IndentationSample),
     Instruction(Indentation)]
  }

  function FixImportError(m: string, lang: Language): seq<Event> {
    if lang == Python then [Instruction(PipInstall(m))] else [Instruction(CheckImport(m))]
  }

  function FixModuleNotFound(m: string, lang: Language): seq<Event> {
    if lang == JavaScript || lang == TypeScript then [Instruction(NpmInstall(m))] else [Instruction(CheckModule(m))]
  }

  function TypeAdvice(lang: Language): Advice {
    if lang == TypeScript then TsType
    else if lang == Python then PythonType
    else GenericType
  }

  function FixTypeError(details: string, lang: Language): seq<Event> {
    [Section("Type Error"), Error(details), Instruction(TypeAdvice(lang))]
  }

  function FixBorrowError(details: string): seq<Event> {
    [Section("Borrow Checker Error"), Error(details), Instruction(Borrow)]
  }

  /** `try_common_patterns`: four groups of substrings of the lower-cased text, in order. */
  function TryCommonPatterns(errorText: string): Option<Advice> {
    var lower := Lower(errorText);
    if Contains(lower, "expected ';'") || Contains(lower, "missing semicolon") then Some(SemicolonPattern)
    else if Contains(lower, "is not a member of") || Contains(lower, "was not declared") then Some(IncludePattern)
    else if Contains(lower, "is not defined") || Contains(lower, "undeclared") then Some(DefinePattern)
    else if Contains(lower, "unexpected token") || Contains(lower, "was never closed") then Some(SyntaxPattern)
    else None
  }

  const StdTypes: seq<string> := ["vector", "string", "map", "set", "list", "deque", "array",
    "unique_ptr", "shared_ptr", "optional", "variant"]

  /** `is_std_type`: the lower-cased name is one of the listed standard-library types. */
  predicate IsStdType(name: string) {
    Lower(name) in StdTypes
  }

  function FixKeyError(k: string): seq<Event> {
    [Section("KeyError - Missing Dictionary Key"),
     Diff(KeySample(k)),
     Instruction(MissingKey(k))]
  }

  function FixAttributeError(details: string): seq<Event> {
    [Section("AttributeError")] +
    if Contains(details, "'NoneType'") then
      [Diff(NoneTypeSample),
       Instruction(NoneTypeCall)]
    else [Instruction(Attribute(details))]
  }

  function FixValueError(details: string): seq<Event> {
    [Section("ValueError")] +
    if Contains(details, "fromisoformat") || Contains(details, "time data") then
      [Diff(DatetimeSample),
       Instruction(Datetime)]
    else [Instruction(Value(details))]
  }

  function FixMissingEnvVar(details: string): seq<Event> {
    [Section("Missing Environment Variable"),
     Error("Environment variable is not set" + " - value is None!"),
     Diff(EnvVarSample),
     Instruction(EnvVar)]
  }

  /** The requests advice: connection problems first, then timeouts, else generic handling. */
  function RequestsAdvice(details: string): Advice {
    if Contains(details, "ConnectionError") || Contains(details, "connect") then Connect
    else if Contains(details, "Timeout") then Timeout
    else RequestHandling
  }

  function FixRequestsError(details: string): seq<Event> {
    [Section("Requests Library Error"), Error(details), Instruction(RequestsAdvice(details))]
  }
}
