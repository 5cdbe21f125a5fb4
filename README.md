# EssentialsCode error classifier and fixer, in Dafny

This project models the core of EssentialsCode (`ess`), a command-line helper
that reads compiler and interpreter diagnostics and prints advice about how to
fix them. The model covers four parts of it:

- **The classifier** (`src/parser.rs`). It has four extractors: C++, Python,
  JavaScript/TypeScript and Rust. Each turns free text into an optional
  `ParsedError` holding a file, a line, a column, a message, an `ErrorType` and
  a `Language`. `parse_error` tries them in that fixed order. Each regex of the
  source is a hand-written matcher anchored at one position (`CppAt`, `PyFileAt`,
  `TscAt`, …). `Pattern.Leftmost` finds the leftmost match, as `Regex::captures`
  does. Numeric groups go through a full model of `str::parse::<u32>`, so a
  digit run that overflows 32 bits makes the extractor fail, as in the source.
- **The remediation dispatcher** (`src/fixer.rs`). `show_fix_for_error` and
  every `fix_*` helper return the sequence of `ui::print_*` calls they make, as
  `Output.Event` values (`Section`, `Info`, `Error`, `Warning`, `Hint`,
  `Instruction`, `Diff`, `Location`, `Plain`). `analyze_error` becomes
  `Fixer.AnalyzeError`: parse and then fix, or the `try_common_patterns`
  fallback.
- **The configuration** (`src/config.rs`): the default values, `should_ignore`
  and `is_language_enabled`.
- **The text-level decisions of the scanner** (`src/scanner.rs`):
  - `detect_language_from_str`;
  - the extension map and de-duplicating loop of `detect_languages`, over a
    list of the entries' extensions;
  - `check_language` for `Unknown`, with the per-language checkers as a
    parameter;
  - the counting loops of `process_compiler_errors`, `process_python_error`,
    `process_js_error` and `analyze_python_file`, over the text they read.

  These loops are `method`s with `while` loops. Each is proved equal to a
  specification function (`ErrorLines`/`CompilerEvents`, `PythonReport`,
  `JsReport`, `PythonFileReport`), and the properties the source promises are
  lemmas about those functions.

Files and modules:

| file | module | holds |
|---|---|---|
| wrappers.dfy | Wrappers | `Option` |
| text.dfy | Text | ASCII character classes, `to_lowercase`, substring search, `trim`, `str::lines`, `parse::<u32>`, decimal formatting |
| pattern.dfy | Pattern | leftmost search, extension alternations, quoted captures, `name: rest-of-line` captures |
| parser.dfy | Parser | `Language`, `ErrorType`, `ParsedError`, the four extractors, `ParseError` |
| parser_properties.dfy | ParserProperties | what the classifier promises |
| parser_formats.dfy | ParserFormats | shared read-back lemmas, and compiler lines in the g++ format read back into their parts |
| python_formats.dfy | PythonFormats | Python tracebacks and requests lines read back into their parts |
| js_formats.dfy | JsFormats | tsc lines and Node reports read back into their parts |
| rust_formats.dfy | RustFormats | rustc errors with their location line read back into their parts |
| advice.dfy | Advice | the fixed advice texts and diff samples, as named templates |
| output.dfy | Output | the printed events |
| fixer.dfy | Fixer | `AnalyzeError`, `ShowFixForError`, every `Fix…` helper, `TryCommonPatterns`, `IsStdType` |
| fixer_properties.dfy | FixerProperties | what the dispatcher promises |
| config.dfy | Config | the configuration records, defaults and predicates |
| config_properties.dfy | ConfigProperties | what the predicates and defaults promise |
| scanner.dfy | Scanner | language detection and the counting loops |
| scanner_properties.dfy | ScannerProperties | what the counting promises |

Modelling notes:

- Three behaviours of the code worth knowing, modelled as written:
  - The C++ header heuristics (an `#include <…>` in the full text, then
    vector, string, cout/cin, map, set) apply only when the lower-cased message
    says "is not a member of 'std'" or "was not declared" (`src/parser.rs:99`).
  - The Python `requests.exceptions.Name: detail` branch needs no
    `File "….py", line N` marker; the file is then "unknown.py"
    (`src/parser.rs:151-175`).
  - The payload tests of the fixer for `AttributeError`, `ValueError` and
    `RequestsError` are case-sensitive (`src/fixer.rs:406, 440, 502, 511`).
- The `requests\.exceptions\.\w+` alternative of the generic Python error
  regex is modelled by the fallback of `Parser.PyErrorAt`, which tries it after
  the nine listed names. `ParsePython` never reaches it: the requests branch runs
  first with a regex that matches the same text, and returns whenever it matches.
- `ShowFixForError` returns the empty sequence where the source prints nothing:
  a `MissingInclude` outside C++, and a `MissingSemicolon` outside
  C++/JavaScript/TypeScript.

## Model

| member | source | states |
|---|---|---|
| Text.LowerIdempotent | src/parser.rs:97 | lower-casing a lower-cased text changes nothing |
| Text.ParseU32 | src/parser.rs:77-78 | parsing succeeds exactly on an optional '+' and a non-empty digit run whose value fits in 32 bits, and then yields that value |
| Text.ParseU32Overflow | src/parser.rs:77-78 | a digit run above 4294967295 does not parse |
| Text.NatToString | src/scanner.rs:284-289 | the decimal form of a line number is a non-empty digit run |
| Text.NatToStringValue | src/scanner.rs:284-289 | the decimal form denotes the number it was made from |
| Text.NatToStringRoundTrip | src/scanner.rs:284-289 | parsing the decimal form of a 32-bit number gives the number back |
| Text.TrimStartSpec | src/scanner.rs:317 | trimming the start drops exactly the leading whitespace run and leaves a suffix |
| Text.TrimEndSpec | src/scanner.rs:317 | trimming the end drops exactly the trailing whitespace run and leaves a prefix |
| Text.TrimSlice | src/scanner.rs:317 | a trimmed line is a contiguous piece of the line |
| Text.LinesCover | src/scanner.rs:276-281 | a fragment without line breaks that occurs in a text occurs in one of its lines |
| Text.LineContained | src/scanner.rs:313 | every line produced by `lines` occurs in the text |
| Text.RunEndAt | src/parser.rs:73 | a greedy run such as `[^\s:]+` or `\d+` ends exactly where the class first fails |
| Pattern.LeftmostFromIsFirst | src/parser.rs:75 | the search returns the match at the first position where the anchored matcher succeeds |
| Pattern.LeftmostFound | src/parser.rs:75 | a found match stands at some position of the text, and no earlier position matches |
| Pattern.LeftmostFromNone | src/parser.rs:75 | the search fails exactly when the matcher fails at every position |
| Pattern.RestOfLine | src/parser.rs:73 | `(.+)` captures the non-empty rest of the line: a slice of the text with no line feed, ended by a line feed or the end of the text |
| Pattern.ExtOf | src/parser.rs:73 | the extension alternation, tried in list order; its property is stated by `Pattern.ExtOfSpec` |
| Pattern.ExtOfSpec | src/parser.rs:73 | the extension alternation picks a listed extension the file name ends in, and fails only when it ends in none |
| Pattern.ExtUnique | src/parser.rs:280 | a file name ends in at most one dot-free extension |
| Pattern.DelimitedAt | src/parser.rs:100 | a quoted capture is a non-empty slice after the prefix, free of the delimiter, followed by the delimiter and then the suffix |
| Pattern.NameDetailAt | src/parser.rs:144 | a `n: (.+)` match has the name at the position, then ": ", then the rest of the line as its detail |
| Pattern.NameDetailColon | src/parser.rs:144 | a name matched with its details is followed by a colon |
| Pattern.RestOfLineToEnd | src/parser.rs:73 | a line-feed-free, non-empty tail of the text is captured whole by `(.+)` |
| Pattern.NamedAt | src/parser.rs:144 | a `(n1\|n2\|…): (.+)` match names one of the listed names, followed by ": " and the rest of the line |
| Parser.LanguageName | src/parser.rs:42-53 | every language has a non-empty display name |
| Parser.CppLocationAt | src/parser.rs:73 | the `file:line:col` part of the C++ regex ends the file at a colon, has a C++ extension, and non-empty line and column runs separated by a colon |
| Parser.CppMessageAt | src/parser.rs:73 | the `: error: (.+)` part captures a non-empty one-line message |
| Parser.ParseCpp | src/parser.rs:72-94 | the C++ extractor succeeds exactly when the location regex matches and both numbers fit in 32 bits; its result is C++ with a line and a column |
| Parser.PyFileAt | src/parser.rs:143 | a `File "….py", line N` match has a quote-free `.py` path and a non-empty line |
| Parser.RequestsAt | src/parser.rs:146 | a requests match has a non-empty exception name and detail |
| Parser.PyErrorAt | src/parser.rs:144 | a Python error match needs a colon in the text; it captures one of the nine listed names, or a `requests.exceptions.` name, standing at the position and followed by ": " and the rest of the line as its detail |
| Parser.ParsePython | src/parser.rs:142-228 | a Python result has language Python and never a column |
| Parser.TscCodeAt | src/parser.rs:234 | a `TS…: message` match needs a colon in the text; its code is `TS` and a non-empty digit run standing at the position, followed by ": " and the rest of the line as its message |
| Parser.TscAt | src/parser.rs:234 | a tsc diagnostic match needs a colon in the text; its file, `(`, line, `,`, column and `): error ` stand in that order from the position, the file is space- and parenthesis-free with a .ts or .tsx extension, line and column are digit runs, and a `TS` code with its message follows |
| Parser.JsFileAt | src/parser.rs:231 | a JavaScript location match ends in one of js, ts, jsx, tsx, mjs |
| Parser.JsErrorAt | src/parser.rs:232 | a JavaScript error match needs a colon in the text; it captures SyntaxError, TypeError or ReferenceError standing at the position, followed by ": " and the rest of the line as its detail |
| Parser.WordNotDefinedAt | src/parser.rs:289 | the `(\w+) is not defined` capture is a non-empty run of word characters |
| Parser.ParseJs | src/parser.rs:230-316 | a JavaScript result is JavaScript or TypeScript and has a line |
| Parser.RustErrorAt | src/parser.rs:319 | an `error[E…]: msg` match has a non-empty message |
| Parser.RustLocationAt | src/parser.rs:320 | a `--> file:l:c` match has a non-empty, colon-free file |
| Parser.ParseRust | src/parser.rs:318-359 | a Rust result is Rust with a line and a column, and needs both the error and the location regexes to match |
| Parser.ParseError | src/parser.rs:55-70 | the result is that of the first extractor, in the order C++, Python, JavaScript, Rust, that succeeds, and its language is never Unknown |
| Parser.CppAt | src/parser.rs:73 | the whole C++ regex at one position: the location part, then the message part; its shape is stated by `ParserProperties.CppAtShape` and its read-back by `ParserFormats.CppAtLayout` |
| Parser.DetectCppErrorType | src/parser.rs:96-140 | the C++ kind classifier; its branches are stated by `ParserProperties.CppIncludeWins`, `CppSemicolonExactly`, `CppUndeclaredFromLeftmost` and `CppUnknownKeepsMessage` |
| Parser.RequestsKind | src/parser.rs:155-159 | the requests kind split; stated in both directions by `ParserProperties.RequestsKindSplit` |
| Parser.PythonKind | src/parser.rs:177-225 | the Python kind classifier; its arms are stated by `ParserProperties.ImportAliases`, `ImportModule`, `IndentationDropsDetail` and `NameErrorKinds` |
| Parser.TscKind | src/parser.rs:243-258 | the tsc code dispatch; stated by `ParserProperties.TscKindCodes` |
| Parser.JsKind | src/parser.rs:286-307 | the JavaScript kind classifier; its arms are stated by `ParserProperties.JsKindNames` and `ReferenceErrorName` |
| Parser.RustKind | src/parser.rs:331-343 | the Rust kind classifier; its arms are stated by `ParserProperties.CannotFindBeforeBorrow`, `BorrowKind` and `RustUndeclaredName` |
| ParserProperties.NoColonNoParse | src/parser.rs:55-70 | a text without a colon is not classified |
| ParserProperties.NoColonNoCppOrPython | src/parser.rs:72-228 | without a colon the C++, requests and Python error regexes match nowhere |
| ParserProperties.NoColonNoJsOrRust | src/parser.rs:230-359 | without a colon the tsc, JavaScript error and Rust error regexes match nowhere |
| ParserProperties.EmptyNotParsed | src/parser.rs:610-614 | the empty text is not classified |
| ParserProperties.RandomNotParsed | src/parser.rs:603-608 | "Some random text that is not an error", and also "completely random text", are not classified |
| ParserProperties.CppUndeclaredIsLowerCase | src/parser.rs:128-137 | a C++ undeclared name is captured from the lower-cased message, so it is lower case |
| ParserProperties.UndeclaredAtLower | src/parser.rs:129-134 | a name captured from a lower-cased text is lower case |
| ParserProperties.CppUndeclaredFromLeftmost | src/parser.rs:128-137 | a C++ undeclared name is the leftmost capture of either alternative in the lower-cased message |
| ParserProperties.CppUnknownKeepsMessage | src/parser.rs:124-139 | an unclassified C++ message keeps its original case, and neither the semicolon phrase nor an undeclared pattern occurs in it |
| ParserProperties.SemicolonPatternSubsumed | src/parser.rs:124 | the second semicolon phrase implies the first |
| ParserProperties.CppSemicolonExactly | src/parser.rs:99-126 | a C++ message is MissingSemicolon exactly when it mentions "expected ';'" and the header branch does not apply |
| ParserProperties.CppIncludeWins | src/parser.rs:99-105 | in the header branch an `#include <X>` anywhere in the full text gives MissingInclude(X) |
| ParserProperties.IncludeHeaderShape | src/parser.rs:100-103 | the captured header is non-empty, has no '>', and appears as `#include <X>` in the text |
| ParserProperties.HeaderGuessKnown | src/parser.rs:107-121 | without an include line the guessed header is vector, string, iostream, map or set |
| ParserProperties.VectorFirst | src/parser.rs:107-109 | in the header branch with no include line, "vector" wins over every later keyword |
| ParserProperties.CppAtShape | src/parser.rs:73 | a C++ match needs a colon in the text and has a file with a C++ extension, digit-run line and column, and a one-line non-empty message |
| ParserProperties.CppResult | src/parser.rs:76-90 | a C++ result is classified from its own message and the full text, its file has a C++ extension, its message is one line |
| ParserProperties.RequestsFirst | src/parser.rs:151-175 | a requests line is classified first: its kind and message come from the name and detail, and without a `File` marker the file is "unknown.py" with no line |
| ParserProperties.RequestsLineOverflow | src/parser.rs:165 | in the requests branch an overflowing line number becomes an absent line, not a failure |
| ParserProperties.RequestsKindSplit | src/parser.rs:155-159 | MissingSchema or a detail mentioning "None" gives MissingEnvVar(detail); anything else gives RequestsError("Name: detail") |
| ParserProperties.PythonGenericNeedsBoth | src/parser.rs:177-225 | without a requests line, Python succeeds exactly when both the file marker and an error line match and the line fits in 32 bits; the line is then present |
| ParserProperties.PythonFileIsPy | src/parser.rs:143-164 | a Python result's file is "unknown.py" or ends in ".py" |
| ParserProperties.ImportAliases | src/parser.rs:198 | ImportError and ModuleNotFoundError classify alike, as ImportError |
| ParserProperties.ImportModule | src/parser.rs:199-207 | an import error carries the captured module, else the detail verbatim |
| ParserProperties.IndentationDropsDetail | src/parser.rs:185 | IndentationError ignores its detail |
| ParserProperties.NameErrorKinds | src/parser.rs:186-196 | a NameError is an undeclared variable exactly when `name 'x' is not defined` matches, else Unknown(detail) |
| ParserProperties.NameErrorName | src/parser.rs:187-190 | the NameError name is non-empty and has no quote |
| ParserProperties.TscFirst | src/parser.rs:236-267 | a tsc match is used first; it succeeds exactly when line and column fit in 32 bits, giving TypeScript, a column, the message "code: msg" and the kind from the code |
| ParserProperties.TscKindCodes | src/parser.rs:243-258 | TS2307 gives ModuleNotFound, TS2304/TS2552 with `Cannot find name 'x'` give UndeclaredVariable(x), other codes give Unknown |
| ParserProperties.JsGenericFields | src/parser.rs:270-284 | a generic JavaScript result takes the file of the location match, and is TypeScript exactly when that match's extension is ts or tsx |
| ParserProperties.JsCapExt | src/parser.rs:231-284 | the captured extension is ts or tsx exactly when the file name ends in .ts or .tsx |
| ParserProperties.JsGenericLanguage | src/parser.rs:280-284 | a generic JavaScript result is TypeScript exactly when its file ends in .ts or .tsx |
| ParserProperties.JsColumnOptional | src/parser.rs:274-307 | the column is absent when `:col` is absent; the line is always present |
| ParserProperties.JsKindNames | src/parser.rs:286-307 | SyntaxError and TypeError keep their details, a ReferenceError is an undeclared variable exactly when the `(\w+) is not defined` pattern matches, and any other name is unknown with its details |
| ParserProperties.ReferenceErrorName | src/parser.rs:288-299 | a ReferenceError's undeclared name is a non-empty run of word characters |
| ParserProperties.CannotFindBeforeBorrow | src/parser.rs:331-342 | a "cannot find" message is never a BorrowError, and is Unknown when the value/type pattern misses |
| ParserProperties.BorrowKind | src/parser.rs:342-343 | a "borrow" message without "cannot find" is BorrowError(message) |
| ParserProperties.RustUndeclaredName | src/parser.rs:332-335 | a Rust undeclared name is non-empty and has no backquote |
| ParserProperties.RustNeedsBoth | src/parser.rs:322-329 | Rust succeeds exactly when both regexes match and line and column fit in 32 bits |
| ParserFormats.CppLineLayout | src/parser.rs:73 | the text `file:l:c: error: message` holds each part at the position its predecessors' lengths give |
| ParserFormats.ClassRun | src/parser.rs:73 | a greedy class run such as `[^\s:]+` that starts at a piece made of the class, and stops at a character outside it, is exactly that piece |
| ParserFormats.DigitRun | src/parser.rs:73 | the `\d+` run at a digit piece followed by a non-digit is exactly that piece |
| ParserFormats.NameLineRead | src/parser.rs:144 | a `name: (.+)` regex takes exactly the details of a last line `name: details` |
| ParserFormats.CppLocationLayout | src/parser.rs:73 | the location part of the regex finds exactly the file, line and column of a compiler line |
| ParserFormats.CppMessageLayout | src/parser.rs:73 | the message part of the regex captures exactly the message of a compiler line |
| ParserFormats.CppAtParts | src/parser.rs:73 | the whole C++ regex matches where its location part and then its message part match, capturing their pieces |
| ParserFormats.CppAtLayout | src/parser.rs:73 | a text laid out as a compiler line matches the C++ regex at its start with exactly its parts captured |
| ParserFormats.CppAtLine | src/parser.rs:73 | the C++ regex matches a compiler line built from a file, two numbers and a message and captures exactly those parts |
| ParserFormats.CppLineParses | src/parser.rs:55-94 | a g++ error line with 32-bit numbers is classified as C++ with exactly its file, line, column and message |
| PythonFormats.PyTextLayout | src/parser.rs:143-144 | the traceback text holds `File "`, the file, `", line `, the line, the middle part, a line feed, the name, ": " and the details, each at the position its predecessors' lengths give |
| PythonFormats.PyFileRead | src/parser.rs:143 | the file regex matches at the start of a frame line and captures exactly its `.py` file and line digits |
| PythonFormats.PyFileFirst | src/parser.rs:148 | the leftmost match of the file regex in a traceback is its frame line's file and line |
| PythonFormats.PyNoErrorOnFrame | src/parser.rs:144 | with a colon-free file and middle part, the error regex matches nowhere in the frame line |
| PythonFormats.PyErrorRead | src/parser.rs:144 | the error regex matches the last line `name: details` of a traceback with that name and those details |
| PythonFormats.PyErrorFirst | src/parser.rs:149 | a match after positions where the error regex fails is the leftmost one |
| PythonFormats.PyTextRead | src/parser.rs:143-149 | in a traceback the file regex takes exactly the frame's file and line, and the error regex exactly its name and details |
| PythonFormats.NoRequests | src/parser.rs:151 | a text without `requests.exceptions.` has no requests match |
| PythonFormats.PyTracebackParses | src/parser.rs:142-225 | a traceback naming a colon-free `.py` file, a 32-bit line and one of the nine error names is classified as Python with exactly that file and line, no column, the message `name: details` and the kind from the name and details |
| PythonFormats.RequestsRead | src/parser.rs:146 | the requests regex matches `requests.exceptions.Name: details` at its start with exactly that name and those details |
| PythonFormats.NoPyFile | src/parser.rs:143 | a text without a double quote has no file match |
| PythonFormats.RequestsLineParses | src/parser.rs:142-175 | a requests line with a word-character name and quote-free details is classified as Python in "unknown.py" with no line or column, the whole line as message and the kind from the name and details |
| JsFormats.TscTextLayout | src/parser.rs:234 | the tsc line holds the file, `(`, the line, `,`, the column, `): error `, `TS`, the digits, ": " and the message, each at the position its predecessors' lengths give |
| JsFormats.TscLocRead | src/parser.rs:234 | the location part of the tsc regex ends the file at the `(`, the line at the `,` and the column at the `)` of a laid-out tsc line |
| JsFormats.TscCodeRead | src/parser.rs:234 | the `(TS\d+): (.+)` part takes exactly the code and the message of a tsc line |
| JsFormats.TscMessageRead | src/parser.rs:234 | the `\): error ` part of the tsc regex is passed where it stands before a code and message |
| JsFormats.TscAtParts | src/parser.rs:234 | the whole tsc regex matches where its location and then its code part match, capturing the slices the location cuts |
| JsFormats.TscFirst | src/parser.rs:236 | a tsc match at the start of the text is the leftmost one |
| JsFormats.TscTextRead | src/parser.rs:234-236 | the tsc regex takes exactly the file, line, column, code and message of a tsc line built from them |
| JsFormats.TscLineParses | src/parser.rs:230-267 | a tsc line naming a space- and parenthesis-free .ts/.tsx file, 32-bit numbers and a `TS` code is classified as TypeScript with exactly that file, line and column, the message `code: message` and the kind from the code |
| JsFormats.NodeTextLayout | src/parser.rs:231-232 | the Node report holds the file, ":", the line, the middle part, a line feed, the name, ": " and the details, each at the position its predecessors' lengths give |
| JsFormats.NodeFileRead | src/parser.rs:231 | the location regex matches at the start of a `file:line` first line with exactly its file, extension and line, and no column |
| JsFormats.NodeFileFirst | src/parser.rs:270 | a location match at the start of the text is the leftmost one |
| JsFormats.JsErrorRead | src/parser.rs:232 | the error regex matches the last line `name: details` of a report with that name and those details |
| JsFormats.JsErrorFirst | src/parser.rs:271 | a match after positions where the error regex fails is the leftmost one |
| JsFormats.NoTsc | src/parser.rs:234-236 | a text without a `(` has no tsc match |
| JsFormats.JsExtTypeScript | src/parser.rs:280-284 | the captured JavaScript extension is ts or tsx exactly when the file ends in .ts or .tsx |
| JsFormats.NodeTextRead | src/parser.rs:231-271 | in a Node report the tsc regex matches nowhere, the location regex takes exactly the file and line, and the error regex exactly the name and details |
| JsFormats.NodeReportParses | src/parser.rs:230-316 | a Node report naming a JavaScript or TypeScript file and a 32-bit line and ending in one of the three error names is classified with exactly that file and line, no column, the message `name: details`, the kind from the name and details, and TypeScript exactly for .ts/.tsx files |
| RustFormats.RustTextLayout | src/parser.rs:319-320 | the rustc text holds `error[E`, the code, `]: `, the message, a line feed and space, `--> `, the file, ":", the line, ":", the column and the rest, each at the position its predecessors' lengths give |
| RustFormats.RustErrorLayout | src/parser.rs:319 | the error regex matches at the start of an `error[En]: message` line and captures exactly its message |
| RustFormats.RustNoArrowBefore | src/parser.rs:320 | with no `--> ` in the message, the location regex matches nowhere in the error line |
| RustFormats.RustLocationRead | src/parser.rs:320 | the location regex matches at a `--> file:line:col` marker with exactly its colon-free file, line and column |
| RustFormats.RustLocationFirst | src/parser.rs:323 | a location match after positions holding no `--> ` is the leftmost one |
| RustFormats.RustTextRead | src/parser.rs:319-323 | in a rustc error text the error regex takes exactly the message and the location regex exactly the file, line and column |
| RustFormats.RustLinesParse | src/parser.rs:318-359 | a rustc error with a one-line message, a colon-free file and 32-bit numbers is classified as Rust with exactly that file, line, column and message, and the kind from the message |
| Fixer.AnalyzeError | src/fixer.rs:5-25 | `analyze_error` as a sequence of events; its shape is stated by `FixerProperties.AnalyzeErrorShape` and `AnalyzeErrorFallback` |
| Fixer.AnalyzeParsed | src/fixer.rs:5-25 | the events for a given classification; stated by `FixerProperties.AnalyzeParsedShape` and `AnalyzeUnparsed` |
| Fixer.ShowParsedError | src/fixer.rs:27-33 | language, location and message, in that order; stated by `FixerProperties.AnalyzeParsedShape` |
| Fixer.ShowFixForError | src/fixer.rs:35-84 | one template per error kind; stated by `FixerProperties.SilentExactly`, `OtherKindsSpeak` and `UnknownHasNoDiff` |
| Fixer.FixMissingInclude | src/fixer.rs:86-97 | the include template; stated by `FixerProperties.MissingIncludeOnlyCpp` |
| Fixer.FixMissingSemicolon | src/fixer.rs:99-110 | the semicolon template; stated by `FixerProperties.MissingSemicolonGated` |
| Fixer.FixUndeclaredVariable | src/fixer.rs:112-170 | the undeclared-variable template; stated by `FixerProperties.UndeclaredPrefix` and `UndeclaredStdDiff` |
| Fixer.SyntaxAdvice | src/fixer.rs:172-210 | the syntax advice chosen on the lower-cased detail; stated by `FixerProperties.UnexpectedTokenFirst` and `SyntaxLaterBranches` |
| Fixer.FixSyntaxError | src/fixer.rs:172-210 | the syntax template; stated by `FixerProperties.SyntaxIgnoresLanguage` |
| Fixer.FixIndentationError | src/fixer.rs:212-225 | the indentation template; stated by `FixerProperties.IndentationShowsDiff` |
| Fixer.FixImportError | src/fixer.rs:227-247 | the import template; stated by `FixerProperties.PipOnlyPython` |
| Fixer.FixModuleNotFound | src/fixer.rs:249-268 | the missing-module template; stated by `FixerProperties.NpmOnlyJs` |
| Fixer.TypeAdvice | src/fixer.rs:270-301 | the type advice chosen by language; stated by `FixerProperties.TypeErrorBodies` |
| Fixer.FixTypeError | src/fixer.rs:270-301 | the type-error template; stated by `FixerProperties.TypeErrorBodies` |
| Fixer.FixBorrowError | src/fixer.rs:303-318 | the borrow template; stated by `FixerProperties.BorrowShowsDetail` |
| Fixer.TryCommonPatterns | src/fixer.rs:320-354 | the phrase fallback; stated by `FixerProperties.TryCommonPatternsExactly` and `TryCommonPatternsOrder` |
| Fixer.IsStdType | src/fixer.rs:356-371 | the standard-type lookup; stated by `FixerProperties.IsStdTypeIgnoresCase`, `IsStdTypeScenarios` and `NotStdTypeScenarios` |
| Fixer.FixKeyError | src/fixer.rs:373-400 | the key-error template; stated by `FixerProperties.KeyErrorDiff` |
| Fixer.FixAttributeError | src/fixer.rs:402-434 | the attribute-error template; stated by `FixerProperties.AttributeDiffExactly` |
| Fixer.FixValueError | src/fixer.rs:436-466 | the value-error template; stated by `FixerProperties.ValueDiffExactly` |
| Fixer.FixMissingEnvVar | src/fixer.rs:468-493 | the environment-variable template; stated by `FixerProperties.EnvVarIgnoresDetail` and `EnvVarShowsDiff` |
| Fixer.RequestsAdvice | src/fixer.rs:495-532 | the requests advice; stated by `FixerProperties.ConnectBeforeTimeout` |
| Fixer.FixRequestsError | src/fixer.rs:495-532 | the requests template; stated by `FixerProperties.ConnectBeforeTimeout` |
| FixerProperties.AnalyzeParsedShape | src/fixer.rs:5-33 | the analysis opens with its section; it warns exactly when parsing failed; a parsed error shows its language, its location, its message and then exactly the dispatcher's advice for it |
| FixerProperties.AnalyzeErrorShape | src/fixer.rs:5-33 | the same for `analyze_error` on a text, through `parse_error` |
| FixerProperties.AnalyzeUnparsed | src/fixer.rs:11-21 | an unparsed text shows the warning, the attempt, and then the pattern's instruction, or "Unknown error pattern" and the hint |
| FixerProperties.AnalyzeErrorFallback | src/fixer.rs:11-21 | the same for `analyze_error` on a text that does not parse |
| FixerProperties.AnalyzeUnparsedInstruction | src/fixer.rs:16-20 | the fallback prints an instruction exactly when a common pattern matches |
| FixerProperties.AnalyzeErrorFallbackInstruction | src/fixer.rs:16-20 | the same for `analyze_error` on a text that does not parse |
| FixerProperties.AnalyzeEmptyText | src/fixer.rs:714-718 | the empty text gives the full unknown-pattern output |
| FixerProperties.AnalyzeRandomText | src/fixer.rs:708-712 | "completely random text" gives the full unknown-pattern output |
| FixerProperties.UnknownHasNoDiff | src/fixer.rs:79-82 | an Unknown kind prints only "No automatic fix for: msg" and a hint, with no diff and no instruction |
| FixerProperties.SilentExactly | src/fixer.rs:35-110 | the dispatcher prints nothing exactly for MissingInclude outside C++ and MissingSemicolon outside C++/JavaScript/TypeScript |
| FixerProperties.OtherKindsSpeak | src/fixer.rs:43-82 | every other kind prints something |
| FixerProperties.MissingIncludeOnlyCpp | src/fixer.rs:86-97 | a missing include shows a diff exactly for C++, with the `#include <header>` instruction |
| FixerProperties.MissingSemicolonGated | src/fixer.rs:99-110 | a missing semicolon prints something exactly for C++, JavaScript and TypeScript, and then a diff |
| FixerProperties.UndeclaredPrefix | src/fixer.rs:112-170 | every language gets the section and the "Variable 'v' is not defined" line; language Unknown gets nothing more |
| FixerProperties.UndeclaredStdDiff | src/fixer.rs:120-131 | a diff appears exactly for C++ and a standard type, and it is the include diff for that type |
| FixerProperties.SyntaxIgnoresLanguage | src/fixer.rs:172 | the syntax advice does not depend on the language |
| FixerProperties.UnexpectedTokenFirst | src/fixer.rs:178-186 | "unexpected token" wins, although it also contains "expected" |
| FixerProperties.SyntaxLaterBranches | src/fixer.rs:186-210 | then "was never closed"/"unterminated", then "expected", then the generic advice |
| FixerProperties.PipOnlyPython | src/fixer.rs:227-247 | `pip install m` is suggested exactly for Python, otherwise the generic import check |
| FixerProperties.NpmOnlyJs | src/fixer.rs:249-268 | `npm install m` is suggested exactly for JavaScript/TypeScript, otherwise the generic module check |
| FixerProperties.TypeErrorBodies | src/fixer.rs:270-301 | a type error shows its section and detail, then advice for TypeScript, for Python, or generic advice for the rest |
| FixerProperties.IndentationShowsDiff | src/fixer.rs:212-225 | an indentation error shows the spacing diff and then the indentation advice |
| FixerProperties.BorrowShowsDetail | src/fixer.rs:303-318 | a borrow error shows its detail and the borrow advice, and no diff |
| FixerProperties.AttributeDiffExactly | src/fixer.rs:402-434 | an attribute error shows the None-check diff exactly when the detail mentions 'NoneType', and otherwise the checklist with the detail |
| FixerProperties.ValueDiffExactly | src/fixer.rs:436-466 | a value error shows the validation diff exactly when the detail mentions fromisoformat or time data |
| FixerProperties.ConnectBeforeTimeout | src/fixer.rs:495-532 | the connection advice is checked before the timeout advice; both follow the section and the detail |
| FixerProperties.EnvVarIgnoresDetail | src/fixer.rs:468 | the missing environment variable advice does not depend on its detail |
| FixerProperties.EnvVarShowsDiff | src/fixer.rs:474-478 | the missing environment variable advice shows a diff |
| FixerProperties.KeyErrorDiff | src/fixer.rs:373-382 | the key-error diff replaces `data["k"]` by `data.get("k", …)` for the key itself |
| FixerProperties.TryCommonPatternsExactly | src/fixer.rs:320-354 | the fallback fails exactly when none of the eight phrases occurs in the lower-cased text |
| FixerProperties.TryCommonPatternsOrder | src/fixer.rs:323-331 | the semicolon group wins over the include group; every answer is one of the four fixed texts |
| FixerProperties.TryCommonPatternsEmpty | src/fixer.rs:604-608 | the empty text matches no pattern |
| FixerProperties.RandomTextLacksPhrases | src/fixer.rs:708-712 | "completely random text" holds none of the eight phrases |
| FixerProperties.UnrecognizedTextLacksPhrases | src/fixer.rs:598-602 | "some random unrecognized error" holds none of the eight phrases |
| FixerProperties.TryCommonPatternsRandom | src/fixer.rs:598-602 | "some random unrecognized error", and also "completely random text", match no pattern |
| FixerProperties.SemicolonPhraseScenario | src/fixer.rs:540-545 | "expected ';' before return" gives the semicolon advice |
| FixerProperties.MemberTextHasPhrase | src/fixer.rs:555-560 | the std-member text holds "is not a member of" |
| FixerProperties.MemberTextLacksSemicolonPhrases | src/fixer.rs:555-560 | the std-member text holds no semicolon phrase |
| FixerProperties.MemberPhraseScenario | src/fixer.rs:555-560 | "'vector' is not a member of 'std'" gives the include advice |
| FixerProperties.UndeclaredTextHasPhrase | src/fixer.rs:579-582 | the undeclared-identifier text holds "undeclared" |
| FixerProperties.UndeclaredTextLacksSemicolonPhrases | src/fixer.rs:579-582 | the undeclared-identifier text holds no semicolon phrase |
| FixerProperties.UndeclaredTextLacksIncludePhrases | src/fixer.rs:579-582 | the undeclared-identifier text holds no include phrase |
| FixerProperties.UndeclaredPhraseScenario | src/fixer.rs:579-582 | "use of undeclared identifier 'foo'" gives the definition advice |
| FixerProperties.IsStdTypeIgnoresCase | src/fixer.rs:356-371 | the standard-type whitelist ignores case |
| FixerProperties.IsStdTypeScenarios | src/fixer.rs:612-641 | vector in three cases, unique_ptr and Map are standard types |
| FixerProperties.NotStdTypeScenarios | src/fixer.rs:656-661 | MyClass, foo and random_name are not |
| Config.DefaultConfig | src/config.rs:44-113 | the default configuration; its values are stated by `ConfigProperties.DefaultValues` |
| Config.ShouldIgnore | src/config.rs:164-170 | the ignore test; stated by `ConfigProperties.ShouldIgnoreExactly` |
| Config.IsLanguageEnabled | src/config.rs:173-196 | the language gate; stated by `ConfigProperties.IsLanguageEnabledExactly` |
| ConfigProperties.DefaultValues | src/config.rs:44-113 | the defaults are depth 5, the nine ignored directories in order, every flag on and both language lists empty |
| ConfigProperties.AnyOccursInExactly | src/config.rs:166-169 | the `any` scan finds an entry exactly when some entry occurs in the path |
| ConfigProperties.ShouldIgnoreExactly | src/config.rs:164-170 | a path is ignored exactly when some configured entry is a substring of it |
| ConfigProperties.EmptyIgnoreKeepsAll | src/config.rs:164-170 | with no entries nothing is ignored |
| ConfigProperties.IgnoreSurvivesContext | src/config.rs:164-170 | an ignored path stays ignored inside any longer path |
| ConfigProperties.DefaultIgnoresDependencyAndVcsDirs | src/config.rs:263-266 | paths under node_modules and under .git are ignored by default |
| ConfigProperties.SourceFileLacksFirstEntries | src/config.rs:267 | the source path holds none of node_modules, .git, target |
| ConfigProperties.SourceFileLacksMiddleEntries | src/config.rs:267 | the source path holds none of .venv, venv, __pycache__ |
| ConfigProperties.SourceFileLacksLastEntries | src/config.rs:267 | the source path holds none of dist, build, .next |
| ConfigProperties.SourceFileNotIgnored | src/config.rs:267 | an ordinary source path is not ignored by default |
| ConfigProperties.AnyLowerEqualsExactly | src/config.rs:177-195 | the `any` scan finds an entry exactly when some lower-cased entry equals the name |
| ConfigProperties.IsLanguageEnabledExactly | src/config.rs:173-196 | a language is enabled exactly when no disabled entry names it and the enabled list is empty or names it, ignoring case |
| ConfigProperties.DisabledWins | src/config.rs:177-184 | a disabled language is off whatever the enabled list says |
| ConfigProperties.EmptyEnabledMeansAll | src/config.rs:187-189 | with an empty enabled list every language not disabled is on |
| ConfigProperties.EnabledIgnoresCase | src/config.rs:174 | names equal after lower-casing are enabled alike |
| ConfigProperties.DefaultEnablesAll | src/config.rs:271-276 | the default configuration enables every language |
| ConfigProperties.EnabledListScenario | src/config.rs:279-286 | an enabled list of python and rust admits those and not javascript |
| ConfigProperties.DisabledListScenario | src/config.rs:289-295 | disabling cpp turns cpp off and leaves python on |
| ConfigProperties.CaseInsensitiveScenario | src/config.rs:350-357 | an entry "Python" admits python, Python and PYTHON |
| Scanner.DetectLanguageFromStr | src/scanner.rs:57-66 | the language-name lookup; stated by `ScannerProperties.DetectIgnoresCase` and `DetectDisplayName` |
| Scanner.ExtLanguage | src/scanner.rs:78-85 | the extension map; stated by `ScannerProperties.ExtNeverUnknown`, `ExtCppAgreesWithParser` and `ExtJsAgreesWithParser` |
| Scanner.CheckLanguage | src/scanner.rs:98-107 | the per-language dispatch; stated by `ScannerProperties.CheckUnknownIsZero` |
| Scanner.DetectLanguages | src/scanner.rs:68-96 | the loop returns the collected languages: no duplicates, and exactly the languages of the mapped extensions |
| Scanner.ErrorLinesStep | src/scanner.rs:339-343 | one more line adds it to the error lines exactly when it holds "error:" |
| Scanner.CompilerEventsStep | src/scanner.rs:339-348 | a later error line adds only its own error event |
| Scanner.ProcessCompilerErrors | src/scanner.rs:336-352 | the count is the number of lines holding "error:", and the events are those lines with one analysis after the first |
| Scanner.PythonScanStep | src/scanner.rs:315-329 | an error line ends the scan with its error and the analysis; any other line adds its location info and the scan goes on |
| Scanner.ProcessPythonError | src/scanner.rs:309-334 | the loop gives the count and events of the traceback report |
| Scanner.FindFirst | src/scanner.rs:441-481 | the loop finds the first line satisfying the test |
| Scanner.IndentFirstFive | src/scanner.rs:485-487 | the loop prints at most the first five lines, indented by two spaces |
| Scanner.ProcessJsRuntimeError | src/scanner.rs:454-469 | the loop gives the reference/type-error report |
| Scanner.ProcessJsError | src/scanner.rs:409-493 | the method gives the count and events of the JavaScript report |
| Scanner.LineNumberOf | src/scanner.rs:276-281 | the loop gives the 1-based number of the first line holding the fragment, or 0 |
| Scanner.AnalyzePythonFile | src/scanner.rs:245-307 | the loops give the count and warnings of the Python file report |
| ScannerProperties.DetectIgnoresCase | src/scanner.rs:58 | names equal after lower-casing denote the same language |
| ScannerProperties.DetectDisplayName | src/scanner.rs:57-66 | each language's display name reads back as that language |
| ScannerProperties.DetectCppVariants | src/scanner.rs:538-544 | cpp, c++, c, CPP and C++ are C++ |
| ScannerProperties.DetectOtherVariants | src/scanner.rs:547-576 | py/PY, js/JS, ts/TS and rs/RS name their languages |
| ScannerProperties.DetectUnknownNames | src/scanner.rs:579-585 | java, go, ruby, the empty name and random are Unknown |
| ScannerProperties.ExtNeverUnknown | src/scanner.rs:78-85 | no extension maps to Unknown |
| ScannerProperties.ExtCppAgreesWithParser | src/scanner.rs:79 | an extension is C++ exactly when it is one the C++ extractor accepts |
| ScannerProperties.ExtJsAgreesWithParser | src/scanner.rs:81-82 | an extension is JavaScript or TypeScript exactly when the JavaScript extractor accepts it, and TypeScript exactly for ts/tsx |
| ScannerProperties.ShortNamesAgree | src/scanner.rs:57-85 | the short names c, py, js, ts, rs mean the same language as extensions and as names |
| ScannerProperties.CollectedNoDuplicates | src/scanner.rs:87-91 | the collected languages have no duplicates |
| ScannerProperties.CollectedLanguages | src/scanner.rs:76-91 | a language is collected exactly when some entry's extension maps to it |
| ScannerProperties.CollectedPrefix | src/scanner.rs:71-93 | what a prefix of the entries collects is a prefix of the whole result |
| ScannerProperties.CollectedAtMostFive | src/scanner.rs:78-91 | Unknown is never collected, and at most five languages are |
| ScannerProperties.CollectedTypeScript | src/scanner.rs:641-659 | ts and tsx files give TypeScript once |
| ScannerProperties.CollectedCppHeaders | src/scanner.rs:662-679 | cpp, cc, h and hpp files give C++ once |
| ScannerProperties.CollectedMixed | src/scanner.rs:621-638 | py, js and cpp files give Python, JavaScript and C++ in that order |
| ScannerProperties.CollectedNothing | src/scanner.rs:590-600 | no entries, or none with a known extension, give no languages |
| ScannerProperties.CheckUnknownIsZero | src/scanner.rs:98-107 | Unknown gives 0 errors, every other language its own checker's count |
| ScannerProperties.ErrorLinesExactly | src/scanner.rs:339-343 | the error lines are lines holding "error:", no more than all lines, and there are some exactly when some line holds "error:" |
| ScannerProperties.LinesHoldPattern | src/scanner.rs:339-340 | a one-line fragment occurs in some line exactly when it occurs in the text |
| ScannerProperties.CompilerErrorsFound | src/scanner.rs:336-352 | the compiler count is positive exactly when the output holds "error:" |
| ScannerProperties.CompilerAnalysisOnce | src/scanner.rs:344-347 | the output is analysed once, right after the first error line, and every other event is an error line |
| ScannerProperties.PythonScanCount | src/scanner.rs:315-330 | the scan counts at most one error, and one exactly when some line holds "Error:" or "Exception:" |
| ScannerProperties.PythonErrorCount | src/scanner.rs:309-334 | the Python count is at most 1, and 1 exactly when the text holds "Error:", or "Traceback" together with "Exception:" |
| ScannerProperties.PythonErrorLineExists | src/scanner.rs:313-320 | some line holds "Error:" or "Exception:" exactly when the text does |
| ScannerProperties.PythonScanEvents | src/scanner.rs:316-328 | a counted error ends with the analysis; when nothing is counted only location infos are printed |
| ScannerProperties.FirstFromSpec | src/scanner.rs:441-446 | the first line found satisfies the test and is a line; none is found exactly when no line satisfies it |
| ScannerProperties.ErrorInName | src/scanner.rs:435-471 | a text naming a kind of Error holds "Error" |
| ScannerProperties.JsErrorCount | src/scanner.rs:409-493 | the JavaScript count is 1 exactly when the text holds "Cannot find module" or "Error", and otherwise 0 |
| ScannerProperties.JsMissingModule | src/scanner.rs:412-432 | a missing module prints its npm install line and a location at line 1, with no analysis |
| ScannerProperties.ModuleNameShape | src/scanner.rs:413-417 | the module name is "unknown" or a quote-free name that appears as `Cannot find module '…'` |
| ScannerProperties.JsSyntaxError | src/scanner.rs:435-451 | a syntax error prints its heading and location first and the analysis last |
| ScannerProperties.LineNumberFromSpec | src/scanner.rs:276-281 | a positive line number points at the first line holding the fragment; 0 means no line holds it |
| ScannerProperties.LineNumberPositive | src/scanner.rs:275-283 | a one-line fragment that occurs in the content gets a positive line number |
| ScannerProperties.RiskReportCount | src/scanner.rs:274-293 | with one-line fragments, each fragment present gives exactly one warning |
| ScannerProperties.FragmentsSingleLineFirst | src/scanner.rs:249-261 | the first three fragments hold no line break |
| ScannerProperties.FragmentsSingleLineLast | src/scanner.rs:262-271 | the last four fragments hold no line break |
| ScannerProperties.RiskPatternsSingleLine | src/scanner.rs:249-272 | all seven fragments hold no line break |
| ScannerProperties.PythonFileIssues | src/scanner.rs:245-307 | the issue count is the number of fragments present plus one for the getenv URL risk, at most 8, one warning per issue |
| ScannerProperties.CountPresentBound | src/scanner.rs:274-293 | no more fragments are present than there are |

## Left out

- The read-back lemmas of Python, JavaScript/TypeScript and Rust state what
  the language's own extractor returns (`ParsePython`, `ParseJs`,
  `ParseRust`), not what `ParseError` returns. Showing that no earlier
  extractor in the chain matches such a text is not part of this model.
- PyTracebackParses: the text starts with the frame line, and the file and
  the middle part hold no colon. A colon there could start an earlier match
  of the error regex. A text mentioning `requests.exceptions.` takes the
  requests branch.
- RequestsLineParses: the line is the whole text and its details hold no
  double quote, which could start a match of the file regex.
- TscLineParses: the tsc line is the whole text, so no earlier text can hold
  an earlier match.
- NodeReportParses: the report starts with its `file:line` line and has no
  column. The file, the middle part and the details hold no `(`, which could
  start a tsc match, and the middle part holds no colon. The
  `file:line:col` form is not read back.
- RustLinesParse: the error line starts the text and its message holds no
  `--> `, which would start an earlier location match.
- Running the toolchains (g++/clang++, python, pylint, node, npx tsc, cargo),
  walking the directory tree with its depth limit, and reading files
  (`src/scanner.rs:9-55, 109-243, 354-407, 495-531`). These are operating
  system I/O. The scanner's decisions take the text or the entries'
  extensions as arguments instead.
- `check_language` for the known languages. Each one runs a toolchain, so the
  per-language checkers are a parameter of `Scanner.CheckLanguage`.
- The `?` after `fixer::analyze_error` in the scanner. `analyze_error` always
  returns `Ok`, so the propagation can never fire.
- TOML loading and saving, the home-directory lookup and the text of
  `example_config` (`src/config.rs:118-161, 199-245`). These are file I/O and
  foreign libraries.
- `src/ui.rs` and `src/main.rs`: terminal colours, banners and the command
  line. `ui::print_*` calls are `Output.Event` values. `println!()` blank lines
  are spacing and are not recorded.
- The analysis that `process_*` functions start by calling `analyze_error` is
  recorded as one `Analysis(text)` event. Its printed contents are what
  `Fixer.AnalyzeError` of that text returns.
- The long fixed advice texts are named templates (`Advice.Advice`), and so are
  the diff samples (`Advice.Sample`) and the Python file warnings
  (`Scanner.Hazard`). Their text functions give the source's words, with the
  interpolated payloads where the source has them. The properties are about
  which template is chosen and what payload it carries.
- The `regex` crate itself. Each regex is a hand-written matcher, and its
  greedy groups are resolved by the delimiter that must follow them.
- Unicode. `to_lowercase`, `\s`, `\d` and `\w` are their ASCII forms, and
  strings are sequences of characters rather than UTF-8 bytes.
- Integer widths other than the parsed `u32` line and column numbers. Counts
  are unbounded naturals; the source's `usize` counters are far from
  overflowing.
