/** Shared utilities: file-name sanitising, text truncation and the default
    configuration. A configuration entry that a component reads with
    `dict.get(key, default)` is an Option here, so that a missing entry and
    its default stay visible. */
module Helpers {
  import opened Seqs
  import opened Text

  // ---------------------------------------------------------------------
  // sanitize_filename
  // ---------------------------------------------------------------------

  /** The characters sanitize_filename replaces, in the order it replaces them. */
  const InvalidChars: string := "<>:\"/\\|?*"

  /** The character sanitize_filename puts in place of c. */
  function SanitizeChar(c: char): (r: char)
    ensures r != c <==> c in InvalidChars
    ensures r !in InvalidChars
  {
    if c in InvalidChars then '_' else c
  }

  /** The file name with every invalid character turned into '_'. */
  function Sanitized(s: string): (r: string)
    ensures |r| == |s|
    ensures forall i :: 0 <= i < |s| ==> r[i] == SanitizeChar(s[i])
  {
    seq(|s|, i requires 0 <= i < |s| => SanitizeChar(s[i]))
  }

  /** No invalid character survives, every other character is kept, and
      sanitising twice is sanitising once. */
  lemma SanitizedProperties(s: string)
    ensures forall c :: c in InvalidChars ==> c !in Sanitized(s)
    ensures forall i :: 0 <= i < |s| && s[i] !in InvalidChars ==> Sanitized(s)[i] == s[i]
    ensures Sanitized(Sanitized(s)) == Sanitized(s)
  {
  }

  /** sanitize_filename: one str.replace(c, '_') per invalid character. */
  method SanitizeFilename(filename: string) returns (r: string)
    ensures r == Sanitized(filename)
  {
    r := filename;
    for k := 0 to |InvalidChars|
      invariant |r| == |filename|
      invariant forall i :: 0 <= i < |r| ==>
        r[i] == (if filename[i] in InvalidChars[..k] then '_' else filename[i])
    {
      r := ReplaceChar(r, InvalidChars[k], '_');
      assert InvalidChars[..k + 1] == InvalidChars[..k] + [InvalidChars[k]];
    }
    assert InvalidChars[..|InvalidChars|] == InvalidChars;
  }

  // ---------------------------------------------------------------------
  // truncate_text
  // ---------------------------------------------------------------------

  /** truncate_text: the text itself when it fits, otherwise
      text[:maxLength - 3] + "..." with Python's slice (a negative bound
      counts from the end). */
  function TruncateText(text: string, maxLength: int := 100): (r: string)
    ensures |text| <= maxLength ==> r == text
    ensures |text| > maxLength >= 3 ==> |r| == maxLength && r == text[..maxLength - 3] + "..."
    ensures |text| > maxLength ==> EndsWith(r, "...")
  {
    if |text| <= maxLength then text
    else
      var r := PrefixSlice(text, maxLength - 3) + "...";
      assert r[|r| - 3..] == "...";
      r
  }

  // ---------------------------------------------------------------------
  // Configuration
  // ---------------------------------------------------------------------

  datatype AnalysisConfig = AnalysisConfig(
    supportedLanguages: Option<seq<string>>,
    maxFileSizeMb: Option<int>,
    excludeDirs: Option<seq<string>>,
    excludeExtensions: Option<seq<string>>)

  datatype AiConfig = AiConfig(
    modelName: Option<string>, maxTokenLength: Option<int>, useLocalModel: Option<bool>)

  datatype QualityConfig = QualityConfig(
    maxComplexity: Option<int>, maxFunctionLength: Option<int>, maxClassLength: Option<int>)

  datatype OutputConfig = OutputConfig(baseDir: Option<string>, reportFormat: Option<string>)

  datatype Config = Config(
    analysis: AnalysisConfig, ai: AiConfig, quality: QualityConfig, output: OutputConfig)

  /** Python's d.get(key, default) on an entry modelled as an Option. */
  function GetOr<T>(o: Option<T>, default: T): (r: T)
    ensures o.None? ==> r == default
    ensures o.Some? ==> r == o.value
  {
    if o.Some? then o.value else default
  }

  /** get_default_config. */
  function DefaultConfig(): Config {
    Config(
      AnalysisConfig(Some(["python"]), Some(10), Some(["__pycache__", ".git", "venv"]), Some([".pyc", ".pyo"])),
      AiConfig(Some("microsoft/codebert-base"), Some(512), None),
      QualityConfig(Some(10), Some(50), None),
      OutputConfig(Some("./outputs"), Some("markdown")))
  }

  /** The limits the analysers read from a configuration, with the defaults
      they fall back on. */
  function MaxComplexity(c: Config): int { GetOr(c.quality.maxComplexity, 10) }
  function MaxFunctionLength(c: Config): int { GetOr(c.quality.maxFunctionLength, 50) }
  function MaxClassLength(c: Config): int { GetOr(c.quality.maxClassLength, 300) }
  function UseLocalModel(c: Config): bool { GetOr(c.ai.useLocalModel, false) }
  function SupportedLanguages(c: Config): seq<string> { GetOr(c.analysis.supportedLanguages, ["python"]) }
  function MaxFileSizeBytes(c: Config): int { GetOr(c.analysis.maxFileSizeMb, 10) * 1024 * 1024 }

  /** Under the default configuration the complexity limit is 10, the
      function-length limit 50, the class-length limit its fallback 300,
      only Python is analysed, files up to 10 MiB are accepted and the local
      model is off. */
  lemma DefaultLimits()
    ensures MaxComplexity(DefaultConfig()) == 10
    ensures MaxFunctionLength(DefaultConfig()) == 50
    ensures MaxClassLength(DefaultConfig()) == 300
    ensures SupportedLanguages(DefaultConfig()) == ["python"]
    ensures MaxFileSizeBytes(DefaultConfig()) == 10485760
    ensures !UseLocalModel(DefaultConfig())
  {
  }
}
