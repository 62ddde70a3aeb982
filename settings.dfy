/** The settings of the `config` package: the same bounds as the `app`
    configuration for the fields it has, and no correction fields. */
module Settings {
  import opened Results
  import opened Capture

  datatype Config = Config(
    hotkey: Key,
    sampleRate: int,
    whisperModel: string,
    language: string,
    minDuration: real)

  /** The model names the validator accepts. */
  const ValidModels: seq<string> := ["tiny", "base", "small", "medium", "large-v3"]

  /** The message of the validator's `ValueError`. */
  const ModelError: string :=
    "モデルは ['tiny', 'base', 'small', 'medium', 'large-v3'] のいずれかである必要があります"

  /** `validate_model`: the name itself when it is one of `ValidModels`,
      an error otherwise. */
  function ValidateModel(v: string): (r: Result<string, string>)
    ensures r.Ok? <==> v in ValidModels
    ensures r.Ok? ==> r.value == v
    ensures r.Err? ==> r.error == ModelError
  {
    if v in ValidModels then Ok(v) else Err(ModelError)
  }

  /** The field constraints a constructed configuration satisfies. */
  predicate WellFormed(c: Config) {
    && 8000 <= c.sampleRate <= 48000
    && c.minDuration >= 0.1
    && c.whisperModel in ValidModels
  }

  /** The names of the fields whose constraint `c` breaks, in declaration
      order. */
  function Violations(c: Config): (r: seq<string>)
    ensures "sample_rate" in r <==> !(8000 <= c.sampleRate <= 48000)
    ensures "whisper_model" in r <==> c.whisperModel !in ValidModels
    ensures "min_duration" in r <==> c.minDuration < 0.1
    ensures r == [] <==> WellFormed(c)
  {
    (if 8000 <= c.sampleRate <= 48000 then [] else ["sample_rate"])
    + (if ValidateModel(c.whisperModel).Ok? then [] else ["whisper_model"])
    + (if c.minDuration >= 0.1 then [] else ["min_duration"])
  }

  /** Constructing `AppConfig(...)`: the configuration when every field
      passes, otherwise a validation error naming the failing fields. */
  function Validate(c: Config): (r: Result<Config, seq<string>>)
    ensures r.Ok? <==> WellFormed(c)
    ensures r.Ok? ==> r.value == c
    ensures r.Err? ==> r.error == Violations(c) && r.error != []
  {
    var v := Violations(c);
    if v == [] then Ok(c) else Err(v)
  }

  /** `AppConfig()` with every field left at its default. */
  const Default: Config := Config(RightCommand, 16000, "base", "ja", 0.3)

  /** The defaults pass validation: model "base", language "ja". */
  lemma DefaultsAreValid()
    ensures Validate(Default) == Ok(Default)
    ensures ValidateModel(Default.whisperModel) == Ok("base")
    ensures Default.language == "ja"
  {
  }
}
