/** What the configuration predicates and defaults promise. */
module ConfigProperties {
  import opened Text
  import opened Config

  // ---------------------------------------------------------------- defaults

  /** The default configuration: depth 5, the nine ignored directories, every flag on, no language lists. */
  lemma DefaultValues()
    ensures DefaultConfig().scan.maxDepth == 5
    ensures DefaultConfig().scan.ignore ==
      ["node_modules", ".git", "target", ".venv", "venv", "__pycache__", "dist", "build", ".next"]
    ensures DefaultConfig().scan.runLinters && DefaultConfig().scan.runFiles
    ensures DefaultConfig().output == OutputConfig(true, true, true)
    ensures DefaultConfig().languages.enabled == [] && DefaultConfig().languages.disabled == []
    ensures "node_modules" in DefaultConfig().scan.ignore
  {
  }

  // ---------------------------------------------------------------- should_ignore

  /** The left-to-right scan finds an entry exactly when some entry occurs in the path. */
  lemma {:induction false} AnyOccursInExactly(path: string, ignore: seq<string>)
    ensures AnyOccursIn(path, ignore) <==> exists i :: 0 <= i < |ignore| && Contains(path, ignore[i])
    decreases |ignore|
  {
    if |ignore| > 0 {
      AnyOccursInExactly(path, ignore[1..]);
      if AnyOccursIn(path, ignore[1..]) {
        var i :| 0 <= i < |ignore[1..]| && Contains(path, ignore[1..][i]);
        assert Contains(path, ignore[i + 1]);
      }
      forall i | 1 <= i < |ignore| && Contains(path, ignore[i])
        ensures AnyOccursIn(path, ignore[1..])
      {
        assert ignore[1..][i - 1] == ignore[i];
      }
    }
  }

  /** A path is ignored exactly when one of the configured entries is a substring of it. */
  lemma ShouldIgnoreExactly(config: Config, path: string)
    ensures ShouldIgnore(config, path) <==>
      exists i :: 0 <= i < |config.scan.ignore| && Contains(path, config.scan.ignore[i])
  {
    AnyOccursInExactly(path, config.scan.ignore);
  }

  /** With no ignore entries nothing is ignored. */
  lemma EmptyIgnoreKeepsAll(config: Config, path: string)
    requires config.scan.ignore == []
    ensures !ShouldIgnore(config, path)
  {
  }

  /** Ignoring is by substring, so it survives any text around the path. */
  lemma IgnoreSurvivesContext(config: Config, before: string, path: string, after: string)
    requires ShouldIgnore(config, path)
    ensures ShouldIgnore(config, before + path + after)
  {
    ShouldIgnoreExactly(config, path);
    var i :| 0 <= i < |config.scan.ignore| && Contains(path, config.scan.ignore[i]);
    ContainsMiddle(before, path, after);
    ContainsTransitive(before + path + after, path, config.scan.ignore[i]);
    ShouldIgnoreExactly(config, before + path + after);
  }

  /** Paths under node_modules and under .git are ignored by default. */
  lemma DefaultIgnoresDependencyAndVcsDirs()
    ensures ShouldIgnore(DefaultConfig(), "/project/node_modules/package")
    ensures ShouldIgnore(DefaultConfig(), "/project/.git/config")
  {
    ContainsChars("/project/node_modules/package", "node_modules", 9);
    ContainsChars("/project/.git/config", ".git", 9);
  }

  lemma SourceFileLacksFirstEntries()
    ensures !Contains("/project/src/main.rs", "node_modules")
    ensures !Contains("/project/src/main.rs", ".git")
    ensures !Contains("/project/src/main.rs", "target")
  {
    NotContainsChar("/project/src/main.rs", "node_modules", 'd', 2);
    NotContainsChar("/project/src/main.rs", ".git", 'g', 1);
    NotContainsChar("/project/src/main.rs", "target", 'g', 3);
  }

  lemma SourceFileLacksMiddleEntries()
    ensures !Contains("/project/src/main.rs", ".venv")
    ensures !Contains("/project/src/main.rs", "venv")
    ensures !Contains("/project/src/main.rs", "__pycache__")
  {
    NotContainsChar("/project/src/main.rs", ".venv", 'v', 1);
    NotContainsChar("/project/src/main.rs", "venv", 'v', 0);
    NotContainsChar("/project/src/main.rs", "__pycache__", '_', 0);
  }

  lemma SourceFileLacksLastEntries()
    ensures !Contains("/project/src/main.rs", "dist")
    ensures !Contains("/project/src/main.rs", "build")
    ensures !Contains("/project/src/main.rs", ".next")
  {
    NotContainsChar("/project/src/main.rs", "dist", 'd', 0);
    NotContainsChar("/project/src/main.rs", "build", 'b', 0);
    NotContainsChar("/project/src/main.rs", ".next", 'x', 3);
  }

  /** An ordinary source path matches none of the default entries. */
  lemma SourceFileNotIgnored()
    ensures !ShouldIgnore(DefaultConfig(), "/project/src/main.rs")
  {
    SourceFileLacksFirstEntries();
    SourceFileLacksMiddleEntries();
    SourceFileLacksLastEntries();
  }

  // ---------------------------------------------------------------- is_language_enabled

  /** The scan finds an entry exactly when some entry, lower-cased, equals `lower`. */
  lemma {:induction false} AnyLowerEqualsExactly(names: seq<string>, lower: string)
    ensures AnyLowerEquals(names, lower) <==> exists i :: 0 <= i < |names| && Lower(names[i]) == lower
    decreases |names|
  {
    if |names| > 0 {
      AnyLowerEqualsExactly(names[1..], lower);
      if AnyLowerEquals(names[1..], lower) {
        var i :| 0 <= i < |names[1..]| && Lower(names[1..][i]) == lower;
        assert Lower(names[i + 1]) == lower;
      }
      forall i | 1 <= i < |names| && Lower(names[i]) == lower
        ensures AnyLowerEquals(names[1..], lower)
      {
        assert names[1..][i - 1] == names[i];
      }
    }
  }

  /**
   * A language is enabled exactly when no disabled entry names it and either
   * the enabled list is empty or one of its entries names it, ignoring case.
   */
  lemma IsLanguageEnabledExactly(config: Config, lang: string)
    ensures IsLanguageEnabled(config, lang) <==>
      (forall i :: 0 <= i < |config.languages.disabled| ==> Lower(config.languages.disabled[i]) != Lower(lang))
      && (|config.languages.enabled| == 0
          || exists j :: 0 <= j < |config.languages.enabled| && Lower(config.languages.enabled[j]) == Lower(lang))
  {
    AnyLowerEqualsExactly(config.languages.disabled, Lower(lang));
    AnyLowerEqualsExactly(config.languages.enabled, Lower(lang));
  }

  /** A disabled language is off whatever the enabled list says. */
  lemma DisabledWins(config: Config, lang: string, i: nat)
    requires i < |config.languages.disabled| && Lower(config.languages.disabled[i]) == Lower(lang)
    ensures !IsLanguageEnabled(config, lang)
  {
    IsLanguageEnabledExactly(config, lang);
  }

  /** With an empty enabled list, every language not disabled is on. */
  lemma EmptyEnabledMeansAll(config: Config, lang: string)
    requires config.languages.enabled == []
    ensures IsLanguageEnabled(config, lang) <==>
      forall i :: 0 <= i < |config.languages.disabled| ==> Lower(config.languages.disabled[i]) != Lower(lang)
  {
    IsLanguageEnabledExactly(config, lang);
  }

  /** Names that agree after lower-casing are enabled alike. */
  lemma EnabledIgnoresCase(config: Config, lang1: string, lang2: string)
    requires Lower(lang1) == Lower(lang2)
    ensures IsLanguageEnabled(config, lang1) == IsLanguageEnabled(config, lang2)
  {
  }

  /** The default configuration enables every language. */
  lemma DefaultEnablesAll(lang: string)
    ensures IsLanguageEnabled(DefaultConfig(), lang)
  {
  }

  /** An enabled list of python and rust admits those two, under any case, and not javascript. */
  lemma EnabledListScenario()
    ensures var c := Config(DefaultScanConfig(), LanguagesConfig(["python", "rust"], []), DefaultOutputConfig());
      IsLanguageEnabled(c, "python") && IsLanguageEnabled(c, "rust") && !IsLanguageEnabled(c, "javascript")
  {
    assert Lower("python") == "python";
    assert Lower("rust") == "rust";
    assert Lower("javascript") == "javascript";
  }

  /** Disabling cpp leaves python on. */
  lemma DisabledListScenario()
    ensures var c := Config(DefaultScanConfig(), LanguagesConfig([], ["cpp"]), DefaultOutputConfig());
      IsLanguageEnabled(c, "python") && !IsLanguageEnabled(c, "cpp")
  {
    assert Lower("python") == "python";
    assert Lower("cpp") == "cpp";
  }

  /** An entry written "Python" admits python, Python and PYTHON. */
  lemma CaseInsensitiveScenario()
    ensures var c := Config(DefaultScanConfig(), LanguagesConfig(["Python"], []), DefaultOutputConfig());
      IsLanguageEnabled(c, "python") && IsLanguageEnabled(c, "Python") && IsLanguageEnabled(c, "PYTHON")
  {
    assert Lower("python") == "python";
    assert Lower("Python") == "python";
    assert Lower("PYTHON") == "python";
  }
}
