/**
 * The fix instructions of the dispatcher as named templates with their
 * payload, and the exact text each one prints.
 */
module Advice {
  import opened Text

  datatype Advice =
    | AddInclude(header: string)
    | AddSemicolon
    | CppUndeclared(name: string)
    | PythonUndeclared(name: string)
    | JsUndeclared(name: string)
    | RustUndeclared(name: string)
    | UnexpectedToken
    | Unclosed
    | Expected(details: string)
    | GenericSyntax(details: string)
    | Indentation
    | PipInstall(moduleName: string)
    | CheckImport(moduleName: string)
    | NpmInstall(moduleName: string)
    | CheckModule(moduleName: string)
    | TsType
    | PythonType
    | GenericType
    | Borrow
    | MissingKey(key: string)
    | NoneTypeCall
    | Attribute(details: string)
    | Datetime
    | Value(details: string)
    | EnvVar
    | Connect
    | Timeout
    | RequestHandling
    | SemicolonPattern
    | IncludePattern
    | DefinePattern
    | SyntaxPattern

  /** The `#include` line for a header. */
  function IncludeLine(header: string): string {
    "#include <" + header + ">"
  }

  function PipCommand(m: string): string {
    "pip install " + m
  }

  function NpmCommand(m: string): string {
    "npm install " + m
  }

  /** The text `ui::print_fix_instruction` prints for each template. */
  function AdviceText(a: Advice): string {
    match a
    case AddInclude(h) => "Add this line at the top of your file:\n\n  " + IncludeLine(h)
    case AddSemicolon =>
      "Add a semicolon at the end of the line indicated in the error.\n\n"
      + "Look for the line number in the error message and add ';' at the end."
    case CppUndeclared(v) =>
      "Options:\n\n1. Check spelling of '" + v + "'\n2. Declare the variable before using it:\n   int " + v
      + " = 0;\n3. Check if it's defined in a different scope"
    case PythonUndeclared(v) =>
      "Options:\n\n1. Check spelling of '" + v + "'\n2. Define the variable before using it:\n   " + v
      + " = None\n3. Make sure the variable is in scope"
    case JsUndeclared(v) =>
      "Options:\n\n1. Check spelling of '" + v + "'\n2. Declare the variable:\n   const " + v
      + " = ...;\n3. Import if it's from another module:\n   import { " + v + " } from './module';"
    case RustUndeclared(v) =>
      "Options:\n\n1. Check spelling of '" + v + "'\n2. Add a 'use' statement if it's from another module:\n   use crate::" + v
      + ";\n3. Declare the variable:\n   let " + v + " = ...;"
    case UnexpectedToken =>
      "Check for:\n\n1. Missing or extra brackets: { } [ ] ( )\n2. Missing commas in arrays or objects\n"
      + "3. Unclosed strings\n4. Missing operators"
    case Unclosed =>
      "You have an unclosed bracket or string.\n\nCheck for matching pairs:\n\U{2022} ( must have )\n"
      + "\U{2022} { must have }\n\U{2022} [ must have ]\n\U{2022} \" must have \"\n\U{2022} ' must have '"
    case Expected(d) =>
      "The parser expected something that wasn't there.\n\nError: " + d
      + "\n\nCheck the line number in the error for missing syntax."
    case GenericSyntax(d) =>
      "Syntax error: " + d + "\n\nCheck the line indicated in the error for typos or missing syntax."
    case Indentation =>
      "Python requires consistent indentation.\n\nFix:\n1. Use either spaces OR tabs, not both\n"
      + "2. Use 4 spaces per indentation level (recommended)\n"
      + "3. Make sure all lines in a block have the same indentation\n\n"
      + "Tip: Configure your editor to convert tabs to spaces."
    case PipInstall(m) =>
      "Module '" + m + "' not found.\n\nOptions:\n\n1. Install the module:\n   " + PipCommand(m)
      + "\n\n2. Check if it's a local module - verify the file exists\n\n"
      + "3. Check your PYTHONPATH if it's a custom module"
    case CheckImport(m) =>
      "Module '" + m + "' not found.\n\nCheck that the module is installed and the path is correct."
    case NpmInstall(m) =>
      "Cannot find module '" + m + "'\n\nOptions:\n\n1. Install the package:\n   " + NpmCommand(m)
      + "\n\n2. If it's a local file, check the path:\n   import x from './" + m
      + "'\n\n3. Check tsconfig.json paths if using TypeScript"
    case CheckModule(m) =>
      "Module '" + m + "' not found. Check installation and import path."
    case TsType =>
      "Type mismatch detected.\n\nOptions:\n\n1. Check the expected type vs what you're passing\n"
      + "2. Add type assertion: value as ExpectedType\n3. Fix the source of the wrong type\n"
      + "4. Update the type definition if it's incorrect"
    case PythonType =>
      "Operation not supported for this type.\n\nCheck what type your variable actually is:\n"
      + "  print(type(your_variable))\n\nThen ensure the operation is valid for that type."
    case GenericType =>
      "Type mismatch. Check that your variables have the expected types."
    case Borrow =>
      "Rust's borrow checker prevents data races.\n\nCommon fixes:\n\n"
      + "1. Clone the data if ownership isn't needed:\n   let copy = data.clone();\n\n"
      + "2. Use references instead of moving:\n   fn process(data: &MyType) { ... }\n\n"
      + "3. Limit the scope of borrows:\n   {\n       let r = &mut data;\n       // use r\n   } // r dropped here\n\n"
      + "4. Use Rc/Arc for shared ownership:\n   use std::rc::Rc;"
    case MissingKey(k) =>
      "The key '" + k + "' doesn't exist in the dictionary.\n\nOptions:\n\n"
      + "1. Use .get() with a default value:\nvalue = data.get(\"" + k + "\", None)\n\n"
      + "2. Check if key exists first:\nif \"" + k + "\" in data:\nvalue = data[\"" + k + "\"]\n\n"
      + "3. Use try/except:\ntry:\nvalue = data[\"" + k + "\"]\nexcept KeyError:\nvalue = default"
    case NoneTypeCall =>
      "You're calling a method on a None value.\n\nThe variable is None when you expected an object.\n\n"
      + "Fix:\n\n1. Check for None before using:\nif result is not None:\nresult.method()\n\n"
      + "2. Use a default value:\nresult = get_result() or default_value\n\n"
      + "3. Find why the value is None and fix the source"
    case Attribute(d) =>
      "AttributeError: " + d
      + "\n\nThe object doesn't have the attribute/method you're trying to use.\n\n"
      + "Check:\n1. Spelling of the attribute name\n2. The type of the object (use type(obj))\n"
      + "3. If the object is None unexpectedly"
    case Datetime =>
      "The datetime string is invalid or None.\n\nFix:\n\n"
      + "1. Validate before parsing:\nif date_string:\ndt = datetime.fromisoformat(date_string)\n\n"
      + "2. Use try/except:\ntry:\ndt = datetime.fromisoformat(date_string)\n"
      + "except (ValueError, TypeError):\ndt = datetime.now()  # or None"
    case Value(d) =>
      "ValueError: " + d + "\n\nThe value has the right type but invalid content.\n\nValidate the data before using it."
    case EnvVar =>
      "os.getenv() returns None when the variable isn't set.\n\nFix:\n\n"
      + "1. Set the environment variable:\n- Create/edit .env file: API_URL=https://api.example.com\n"
      + "- Or set in terminal: export API_URL=https://api.example.com\n\n"
      + "2. Add validation in your code:\nAPI_URL = os.getenv(\"API_URL\")\nif not API_URL:\n"
      + "raise ValueError(\"API_URL is required\")\n\n"
      + "3. Use a default value:\nAPI_URL = os.getenv(\"API_URL\", \"https://default-api.com\")"
    case Connect =>
      "Could not connect to the server.\n\nCheck:\n1. Is the URL correct?\n2. Is the server running?\n"
      + "3. Is your internet connection working?\n4. Is there a firewall blocking the request?"
    case Timeout =>
      "Request timed out.\n\nFix:\n1. Increase the timeout:\nrequests.get(url, timeout=30)\n\n"
      + "2. Check if the server is slow/overloaded\n3. Add retry logic:\n"
      + "from requests.adapters import HTTPAdapter\nfrom urllib3.util.retry import Retry"
    case RequestHandling =>
      "Add proper error handling:\n\ntry:\nresponse = requests.get(url, timeout=10)\n"
      + "response.raise_for_status()\nexcept requests.exceptions.RequestException as e:\n"
      + "print(f\"Request failed: {e}\")"
    case SemicolonPattern => "Add a semicolon (;) at the end of the line."
    case IncludePattern =>
      "You're using something that hasn't been imported/included.\n"
      + "Add the appropriate #include or import statement at the top of your file."
    case DefinePattern =>
      "Variable is not defined.\nEither declare it before using, or check for typos in the name."
    case SyntaxPattern =>
      "Syntax error - check for:\n\U{2022} Missing or extra brackets { } [ ] ( )\n\U{2022} Unclosed strings\n"
      + "\U{2022} Missing semicolons or commas"
  }

  /** The before/after code samples `ui::print_diff` shows, as named templates with their payload. */
  datatype Sample =
    | IncludeSample(header: string)
    | SemicolonSample
    | StdTypeSample(name: string)
    | IndentationSample
    | KeySample(key: string)
    | NoneTypeSample
    | DatetimeSample
    | EnvVarSample

  /** The code shown as the current, failing version. */
  function SampleBefore(d: Sample): string {
    match d
    case IncludeSample(h) => "// Your current code"
    case SemicolonSample => "statement  // missing semicolon"
    case StdTypeSample(v) => "std::" + v
    case IndentationSample =>
      "def example():\n" + "  line1  # 2 spaces\n" + "    line2  # 4 spaces (inconsistent!)"
    case KeySample(k) => "data[\"" + k + "\"]" + "  # raises KeyError if missing"
    case NoneTypeSample => "result.method()" + "  # result is None!"
    case DatetimeSample => "datetime.fromisoformat(date_string)" + "  # fails if invalid"
    case EnvVarSample =>
      "API_URL = os.getenv(\"API_URL\")" + "  # Returns None if not set!\n"
      + "url = f\"{API_URL}/endpoint\"" + "  # Becomes 'None/endpoint'"
  }

  /** The code shown as the fixed version. */
  function SampleAfter(d: Sample): string {
    match d
    case IncludeSample(h) => IncludeLine(h) + "\n// Your code"
    case SemicolonSample => "statement;"
    case StdTypeSample(v) => IncludeLine(Lower(v)) + "\nstd::" + v
    case IndentationSample =>
      "def example():\n" + "    line1  # 4 spaces\n" + "    line2  # 4 spaces (consistent)"
    case KeySample(k) => "data.get(\"" + k + "\"" + ", default_value)  # returns default if missing"
    case NoneTypeSample => "if result is not None:\n" + "    result.method()"
    case DatetimeSample =>
      "try:\n" + "    dt = datetime.fromisoformat(date_string)\n"
      + "except (ValueError, TypeError):\n" + "    dt = None"
    case EnvVarSample =>
      "API_URL = os.getenv(\"API_URL\")\n" + "if not API_URL:\n"
      + "    raise ValueError(\"API_URL environment" + " variable is required\")\n" + "url = f\"{API_URL}/endpoint\""
  }
}
