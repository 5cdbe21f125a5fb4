/**
 * The terminal output of the tool as data: one event per `ui::print_*` call
 * and per `println!` of text. A fix instruction names its template, whose
 * text is `AdviceText`; a diff names its sample, whose two versions are
 * `SampleBefore` and `SampleAfter`. When the scanner hands a tool's output to the fixer,
 * the call is recorded as one `Analysis` event; what it prints is
 * `Fixer.AnalyzeError` of that text. Colours, icons and blank lines are not
 * modelled.
 */
module Output {
  import opened Wrappers
  import opened Text
  import opened Advice

  datatype Event =
    | Section(title: string)
    | Info(text: string)
    | Error(text: string)
    | Warning(text: string)
    | Hint(text: string)
    | Location(file: string, line: Option<u32>, column: Option<u32>)
    | Diff(sample: Sample)
    | Instruction(advice: Advice)
    | Plain(text: string)
    | Analysis(errorText: string)

  /** The events show a before/after diff. */
  predicate HasDiff(ev: seq<Event>) {
    exists k :: 0 <= k < |ev| && ev[k].Diff?
  }

  /** The events give a fix instruction. */
  predicate HasInstruction(ev: seq<Event>) {
    exists k :: 0 <= k < |ev| && ev[k].Instruction?
  }
}
