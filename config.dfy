/**
 * The configuration record, its defaults and the two predicates the scanner
 * consults: whether a path is ignored and whether a language is enabled.
 * Loading and saving TOML files is not modelled; a configuration is a value.
 */
module Config {
  import opened Text

  /** Scanning options. `maxDepth` is a `usize` in the source; only its default is used here. */
  datatype ScanConfig = ScanConfig(maxDepth: nat, ignore: seq<string>, runLinters: bool, runFiles: bool)

  /** Language selection: an empty `enabled` list means every supported language. */
  datatype LanguagesConfig = LanguagesConfig(enabled: seq<string>, disabled: seq<string>)

  /** Output options. */
  datatype OutputConfig = OutputConfig(colors: bool, showHints: bool, showDiffs: bool)

  datatype Config = Config(scan: ScanConfig, languages: LanguagesConfig, output: OutputConfig)

  /** The directories skipped by default, in the order the source lists them. */
  function DefaultIgnore(): seq<string> {
    ["node_modules", ".git", "target", ".venv", "venv", "__pycache__", "dist", "build", ".next"]
  }

  function DefaultMaxDepth(): nat {
    5
  }

  function DefaultScanConfig(): ScanConfig {
    ScanConfig(DefaultMaxDepth(), DefaultIgnore(), true, true)
  }

  function DefaultLanguagesConfig(): LanguagesConfig {
    LanguagesConfig([], [])
  }

  function DefaultOutputConfig(): OutputConfig {
    OutputConfig(true, true, true)
  }

  function DefaultConfig(): Config {
    Config(DefaultScanConfig(), DefaultLanguagesConfig(), DefaultOutputConfig())
  }

  /** Whether some entry of `ignore`, scanned left to right, occurs in `path`. */
  predicate AnyOccursIn(path: string, ignore: seq<string>) {
    if |ignore| == 0 then false
    else Contains(path, ignore[0]) || AnyOccursIn(path, ignore[1..])
  }

  /** A path is ignored when one of the configured entries is a substring of it. */
  predicate ShouldIgnore(config: Config, path: string) {
    AnyOccursIn(path, config.scan.ignore)
  }

  /** Whether some entry of `names`, lower-cased, equals `lower`. */
  predicate AnyLowerEquals(names: seq<string>, lower: string) {
    if |names| == 0 then false
    else Lower(names[0]) == lower || AnyLowerEquals(names[1..], lower)
  }

  /**
   * A disabled language is never enabled; otherwise an empty `enabled` list
   * enables everything, and a non-empty one only its entries. Both lists are
   * compared with the lower-cased name, case-insensitively.
   */
  predicate IsLanguageEnabled(config: Config, lang: string) {
    var lower := Lower(lang);
    if AnyLowerEquals(config.languages.disabled, lower) then false
    else if |config.languages.enabled| == 0 then true
    else AnyLowerEquals(config.languages.enabled, lower)
  }
}
