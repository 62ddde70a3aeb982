/** The application settings of the `app` package: field bounds checked on
    construction, the Whisper model-name validator and the derived
    "correction enabled" flag. */
module AppConfig {
  import opened Results
  import opened Capture

  datatype Config = Config(
    hotkey: Key,
    sampleRate: int,
    whisperModel: string,
    whisperComputeType: string,
    whisperInitialPrompt: string,
    language: string,
    minDuration: real,
    geminiApiKey: string,
    geminiModel: string,
    geminiTimeout: int)

  /** The model names the validator accepts. */
  const ValidModels: seq<string> := ["tiny", "base", "small", "medium", "large-v3"]

  /** The message of the validator's `ValueError`. */
  const ModelError: string :=
    "モデルは ['tiny', 'base', 'small', 'medium', 'large-v3'] のいずれかである必要があります"

  /** `validate_model`: the name itself when it is one of `ValidModels`,
      an error otherwise. */
  function ValidateModel(v: string): (r: Result<string, string>)
    ensures r.Ok? <==> v in ValidModels
    ensures r.Ok? ==> r.value == v
    ensures r.Err? ==> r.error == ModelError
  {
    if v in ValidModels then Ok(v) else Err(ModelError)
  }

  /** The field constraints a constructed configuration satisfies. */
  predicate WellFormed(c: Config) {
    && 8000 <= c.sampleRate <= 48000
    && c.minDuration >= 0.1
    && 1 <= c.geminiTimeout <= 30
    && c.whisperModel in ValidModels
  }

  /** The names of the fields whose constraint `c` breaks, in declaration
      order: what the validation error lists. */
  function Violations(c: Config): (r: seq<string>)
    ensures "sample_rate" in r <==> !(8000 <= c.sampleRate <= 48000)
    ensures "whisper_model" in r <==> c.whisperModel !in ValidModels
    ensures "min_duration" in r <==> c.minDuration < 0.1
    ensures "gemini_timeout" in r <==> !(1 <= c.geminiTimeout <= 30)
    ensures r == [] <==> WellFormed(c)
  {
    (if 8000 <= c.sampleRate <= 48000 then [] else ["sample_rate"])
    + (if ValidateModel(c.whisperModel).Ok? then [] else ["whisper_model"])
    + (if c.minDuration >= 0.1 then [] else ["min_duration"])
    + (if 1 <= c.geminiTimeout <= 30 then [] else ["gemini_timeout"])
  }

  /** Constructing `AppConfig(...)`: the configuration when every field
      passes, otherwise a validation error naming the failing fields. */
  function Validate(c: Config): (r: Result<Config, seq<string>>)
    ensures r.Ok? <==> WellFormed(c)
    ensures r.Ok? ==> r.value == c
    ensures r.Err? ==> r.error == Violations(c) && r.error != []
  {
    var v := Violations(c);
    if v == [] then Ok(c) else Err(v)
  }

  /** `os.getenv(name, default)` over the process environment `env`. */
  function Getenv(env: map<string, string>, name: string, default: string): string {
    if name in env then env[name] else default
  }

  /** `AppConfig()` with every field left at its default, reading the two
      Gemini fields from the environment. */
  function Default(env: map<string, string>): Config {
    Config(
      hotkey := RightCommand,
      sampleRate := 16000,
      whisperModel := "medium",
      whisperComputeType := "float32",
      whisperInitialPrompt := "Python、JavaScript、TypeScript、Docker、Git、SSH、API、JSON、React、Vue、Node.js、AWS、GitHub、VS Code",
      language := "ja",
      minDuration := 0.3,
      geminiApiKey := Getenv(env, "GEMINI_API_KEY", ""),
      geminiModel := Getenv(env, "GEMINI_MODEL", "gemini-2.0-flash-exp"),
      geminiTimeout := 5)
  }

  /** `gemini_enabled`: correction is on exactly when an API key is set. */
  predicate GeminiEnabled(c: Config) {
    c.geminiApiKey != ""
  }

  /** The defaults pass validation, including the model validator, whatever
      the environment holds. */
  lemma DefaultsAreValid(env: map<string, string>)
    ensures Validate(Default(env)) == Ok(Default(env))
    ensures ValidateModel(Default(env).whisperModel) == Ok("medium")
    ensures Default(env).language == "ja" && Default(env).sampleRate == 16000
  {
  }

  /** With the defaults, correction is enabled exactly when the environment
      sets a non-empty `GEMINI_API_KEY`. */
  lemma DefaultEnabledIffKeySet(env: map<string, string>)
    ensures GeminiEnabled(Default(env)) <==> "GEMINI_API_KEY" in env && env["GEMINI_API_KEY"] != ""
  {
  }
}
