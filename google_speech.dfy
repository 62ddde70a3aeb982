/** The cloud speech-recognition backend of the `app` package: the locale
    tag sent for the configured language, how the recognition outcome
    becomes a transcript, and the lazily created recogniser. */
module GoogleSpeech {
  import opened Text
  import opened Capture
  import AppConfig

  /** The locale tag sent with the request: the two short codes the app
      knows are qualified by region, any other code goes as it is. */
  function LanguageTag(language: string): (tag: string)
    ensures language == "ja" ==> tag == "ja-JP"
    ensures language == "en" ==> tag == "en-US"
    ensures language != "ja" && language != "en" ==> tag == language
  {
    if language == "ja" then "ja-JP"
    else if language == "en" then "en-US"
    else language
  }

  /** What `recognize_google` comes to: a text, `UnknownValueError` (no
      speech understood) or `RequestError`. */
  datatype Recognition = Recognized(text: string) | NotUnderstood | RequestFailed(reason: string)

  /** The recognition service, from the samples, the sample rate and the
      locale tag. */
  type Recognize = (seq<Sample>, int, string) -> Recognition

  /** The transcript an outcome yields: a recognised text stripped, and ""
      for both failures, which are not raised. */
  function TranscriptOf(outcome: Recognition): (r: string)
    ensures IsStripped(r)
    ensures outcome.Recognized? ==> r == Strip(outcome.text)
    ensures !outcome.Recognized? ==> r == ""
    ensures r == "" <==> !outcome.Recognized? || AllSpace(outcome.text)
  {
    if outcome.Recognized? then Strip(outcome.text) else ""
  }

  /** An `sr.Recognizer`. */
  class Recognizer {
    constructor ()
    {
    }
  }

  /** `GoogleSpeechTranscriber`: the recogniser slot, filled on first use. */
  class GoogleSpeechTranscriber {
    var recognizer: Recognizer?
    /** How many recognisers this transcriber has made. */
    ghost var creations: nat

    /** At most one recogniser is ever made, and the slot holds it. */
    ghost predicate Valid()
      reads this
    {
      creations <= 1 && (recognizer == null <==> creations == 0)
    }

    constructor ()
      ensures Valid() && recognizer == null
    {
      recognizer := null;
      creations := 0;
    }

    /** `_get_recognizer`: makes the recogniser on the first call and
        returns the same one afterwards. */
    method GetRecognizer() returns (rec: Recognizer)
      requires Valid()
      modifies this
      ensures Valid() && recognizer == rec
      ensures old(recognizer) != null ==> rec == old(recognizer) && creations == old(creations)
      ensures old(recognizer) == null ==> fresh(rec) && creations == 1
    {
      if recognizer == null {
        recognizer := new Recognizer();
        creations := creations + 1;
      }
      rec := recognizer;
    }

    /** `load`: creates the recogniser ahead of the first request. */
    method Load()
      requires Valid()
      modifies this
      ensures Valid() && recognizer != null
      ensures old(recognizer) != null ==> recognizer == old(recognizer)
    {
      var _ := GetRecognizer();
    }

    /** `transcribe(audio)`: one request with the configured rate and the
        locale tag of the configured language; its outcome decides the
        transcript. */
    method Transcribe(cfg: AppConfig.Config, recognize: Recognize, audio: seq<Sample>) returns (r: string)
      requires Valid()
      modifies this
      ensures Valid() && recognizer != null
      ensures old(recognizer) != null ==> recognizer == old(recognizer)
      ensures r == TranscriptOf(recognize(audio, cfg.sampleRate, LanguageTag(cfg.language)))
    {
      var rec := GetRecognizer();
      var outcome := recognize(audio, cfg.sampleRate, LanguageTag(cfg.language));
      r := TranscriptOf(outcome);
    }
  }
}
