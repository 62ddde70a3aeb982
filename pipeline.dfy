/** What the engine does, as the sequence of outward effects it produces:
    status updates for the menu-bar app, sounds, worker dispatch,
    correction requests and keystrokes or pastes. The three engine
    generations share the recording logic and differ in their worker. */
module Pipeline {
  import opened Text
  import opened Capture
  import AppConfig
  import Gemini
  import ModelGemini

  /** The menu-bar state: `set_recording`, `set_processing`, `set_idle`
      and `set_error(msg)`. */
  datatype Status = Recording | Processing | Idle | Error(message: string)

  /** One outward effect, in the order the engine produces them. */
  datatype Effect =
    | Show(status: Status)           // a status update on the menu-bar app
    | Sound(name: string)            // a system sound
    | Dispatch(audio: seq<Sample>)   // a transcription worker started on this audio
    | Correction(input: string)      // the corrector asked to correct this text
    | KeyDown(c: char)               // a key-down event carrying one character
    | KeyUp(c: char)                 // the matching key-up event
    | Paste(text: string)            // clipboard set to the text, then Cmd+V

  /** `if self.app: self.app.set_...()`: a status update, made only when
      an app is attached. */
  function Notify(hasApp: bool, s: Status): (r: seq<Effect>)
    ensures hasApp ==> r == [Show(s)]
    ensures !hasApp ==> r == []
  {
    if hasApp then [Show(s)] else []
  }

  /** The text the effects enter into the active window: the characters of
      the key-down events and the pasted texts, in order. */
  function Typed(effects: seq<Effect>): string {
    if effects == [] then "" else Entered(effects[0]) + Typed(effects[1..])
  }

  /** The text one effect enters. */
  function Entered(e: Effect): string {
    match e
      case KeyDown(c) => [c]
      case Paste(t) => t
      case _ => ""
  }

  /** A single effect enters its own text. */
  lemma TypedOne(e: Effect)
    ensures Typed([e]) == Entered(e)
  {
    assert [e][1..] == [];
  }

  /** Entering text distributes over consecutive effect sequences. */
  lemma {:induction false} TypedAppend(a: seq<Effect>, b: seq<Effect>)
    ensures Typed(a + b) == Typed(a) + Typed(b)
    decreases |a|
  {
    if a == [] {
      assert a + b == b;
    } else {
      assert (a + b)[1..] == a[1..] + b;
      TypedAppend(a[1..], b);
    }
  }

  /** `type_text(text)` of the `app` engine: for each character in order,
      a key-down then a key-up event carrying it; nothing for "". */
  function KeyStrokes(text: string): (r: seq<Effect>)
    ensures |r| == 2 * |text|
    ensures forall k :: 0 <= k < |text| ==> r[2 * k] == KeyDown(text[k]) && r[2 * k + 1] == KeyUp(text[k])
  {
    if text == [] then []
    else
      var init := text[..|text| - 1];
      var last := text[|text| - 1];
      var r := KeyStrokes(init) + [KeyDown(last), KeyUp(last)];
      assert forall k :: 0 <= k < |init| ==> text[k] == init[k];
      r
  }

  /** The key events enter exactly the text they were made from. */
  lemma {:induction false} KeyStrokesEnterText(text: string)
    ensures Typed(KeyStrokes(text)) == text
    decreases |text|
  {
    if text != [] {
      var init := text[..|text| - 1];
      var last := text[|text| - 1];
      KeyStrokesEnterText(init);
      KeyStrokesSnoc(init, last);
      assert init + [last] == text;
    }
  }

  /** One character typed after the others. */
  lemma KeyStrokesSnoc(init: string, last: char)
    requires Typed(KeyStrokes(init)) == init
    ensures Typed(KeyStrokes(init + [last])) == init + [last]
  {
    assert (init + [last])[..|init|] == init;
    TypedAppend(KeyStrokes(init), [KeyDown(last), KeyUp(last)]);
    KeyPairEnters(last);
  }

  /** A key-down and its key-up enter one character. */
  lemma KeyPairEnters(c: char)
    ensures Typed([KeyDown(c), KeyUp(c)]) == [c]
  {
    assert [KeyDown(c), KeyUp(c)][1..] == [KeyUp(c)];
    TypedOne(KeyUp(c));
  }

  /** `str(e)[:30]`: the message shown for an exception. */
  function ErrorMessage(message: string): (r: string)
    ensures |r| <= 30 && |r| <= |message| && r == message[..|r|]
    ensures |r| == if |message| <= 30 then |message| else 30
    ensures |message| <= 30 ==> r == message
  {
    Prefix(message, 30)
  }

  /** How the body of a worker's `try` ended: it raised with a message, or
      it finished after producing `effects`. */
  datatype Run = Failed(message: string) | Finished(effects: seq<Effect>)

  /** A worker: processing is shown first, then the body runs; an exception
      is shown as a truncated error; the `finally` shows idle last. */
  function Wrap(hasApp: bool, run: Run): seq<Effect> {
    Notify(hasApp, Processing)
    + (match run
         case Failed(m) => Notify(hasApp, Error(ErrorMessage(m)))
         case Finished(effects) => effects)
    + Notify(hasApp, Idle)
  }

  /** No `Show` among the effects. */
  predicate Silent(effects: seq<Effect>) {
    forall k :: 0 <= k < |effects| ==> !effects[k].Show?
  }

  /** With an app, a worker shows processing first and idle last, and shows
      an error exactly when its body raised, truncated to 30 characters;
      without one, it shows nothing. */
  lemma WrapShape(hasApp: bool, run: Run)
    requires run.Finished? ==> Silent(run.effects)
    ensures var w := Wrap(hasApp, run);
            && (hasApp ==> |w| >= 2 && w[0] == Show(Processing) && w[|w| - 1] == Show(Idle))
            && (!hasApp ==> Silent(w))
            && (forall m :: Show(Error(m)) in w <==> hasApp && run.Failed? && m == ErrorMessage(run.message))
  {
  }

  /** An effect other than a status update occurs in a worker exactly when
      the body finished and produced it. */
  lemma WrapContains(hasApp: bool, run: Run, e: Effect)
    requires !e.Show?
    ensures e in Wrap(hasApp, run) <==> run.Finished? && e in run.effects
  {
  }

  /** A worker enters the text its body entered, and nothing when the body
      raised. */
  lemma WrapTyped(hasApp: bool, run: Run)
    ensures Typed(Wrap(hasApp, run)) == if run.Failed? then "" else Typed(run.effects)
  {
    var middle := match run
      case Failed(m) => Notify(hasApp, Error(ErrorMessage(m)))
      case Finished(effects) => effects;
    TypedAppend(Notify(hasApp, Processing) + middle, Notify(hasApp, Idle));
    TypedAppend(Notify(hasApp, Processing), middle);
  }

  /** The take `stop_recording` has to decide on: no chunks at all, too
      short, or accepted; the audio is the chunks concatenated. */
  datatype Take = NoChunks | TooShort(audio: seq<Sample>) | Accepted(audio: seq<Sample>)

  /** The decision `stop_recording` makes on the captured chunks. */
  function Decide(chunks: seq<Chunk>, rate: nat, minDuration: real): (t: Take)
    requires rate > 0
    ensures t.NoChunks? <==> chunks == []
    ensures !t.NoChunks? ==> t.audio == Flatten(chunks)
    ensures t.Accepted? <==> chunks != [] && (|Flatten(chunks)| as real) >= minDuration * (rate as real)
  {
    if chunks == [] then NoChunks
    else
      var audio := Flatten(chunks);
      ShorterThanBySamples(|audio|, rate, minDuration);
      if ShorterThan(|audio|, rate, minDuration) then TooShort(audio) else Accepted(audio)
  }

  /** What `start_recording` produces when it starts a recording. */
  function StartEffects(hasApp: bool): seq<Effect> {
    [Sound("Tink")] + Notify(hasApp, Recording)
  }

  /** What `stop_recording` produces when it stops a recording: the stop
      sound, then idle for a take that is dropped, or one dispatched
      worker for an accepted take. */
  function StopEffects(hasApp: bool, chunks: seq<Chunk>, rate: nat, minDuration: real): (r: seq<Effect>)
    requires rate > 0
    ensures |r| >= 1 && r[0] == Sound("Pop")
    ensures Dispatch(Flatten(chunks)) in r <==> Decide(chunks, rate, minDuration).Accepted?
    ensures forall a :: Dispatch(a) in r ==> a == Flatten(chunks)
    ensures Decide(chunks, rate, minDuration).Accepted? ==> r == [Sound("Pop"), Dispatch(Flatten(chunks))]
    ensures !Decide(chunks, rate, minDuration).Accepted? ==> r == [Sound("Pop")] + Notify(hasApp, Idle)
  {
    match Decide(chunks, rate, minDuration)
      case Accepted(audio) => [Sound("Pop"), Dispatch(audio)]
      case _ => [Sound("Pop")] + Notify(hasApp, Idle)
  }

  /** What the `app` engine's speech backend comes to: a transcript, or an
      exception with its message. */
  datatype Heard = Heard(text: string) | Raised(message: string)

  /** What the Whisper decoding in the `core` and `main.py` engines comes
      to: the segment texts, or an exception with its message. */
  datatype Decoded = Segments(texts: seq<string>) | DecodeFailed(message: string)

  /** The body of the `app` worker's `try`: correct when enabled and there
      is text, then type the final text when there is one. */
  function AppRun(cfg: AppConfig.Config, template: string, api: Gemini.Api, heard: Heard): Run {
    match heard
      case Raised(m) => Failed(m)
      case Heard(text) =>
        var final := AppFinalText(cfg, template, api, text);
        Finished((if AppConfig.GeminiEnabled(cfg) && text != "" then [Correction(text)] else [])
                 + (if final != "" then KeyStrokes(final) else []))
  }

  /** `_transcribe_and_type` of the `app` engine. */
  function AppWorker(hasApp: bool, cfg: AppConfig.Config, template: string, api: Gemini.Api, heard: Heard): seq<Effect> {
    Wrap(hasApp, AppRun(cfg, template, api, heard))
  }

  /** The text the `app` worker ends with: the transcript, corrected when
      correction is enabled and the transcript is not empty. */
  function AppFinalText(cfg: AppConfig.Config, template: string, api: Gemini.Api, text: string): (r: string)
    ensures !(cfg.geminiApiKey != "" && text != "") ==> r == text
    ensures r == "" <==> text == ""
  {
    if AppConfig.GeminiEnabled(cfg) && text != "" then Gemini.Corrected(text, cfg.geminiApiKey, template, cfg.geminiModel, api)
    else text
  }

  /** Key events are all that `type_text` produces. */
  lemma KeyStrokesOnlyKeys(text: string)
    ensures forall e :: e in KeyStrokes(text) ==> e.KeyDown? || e.KeyUp?
  {
    var r := KeyStrokes(text);
    forall e | e in r ensures e.KeyDown? || e.KeyUp? {
      var j :| 0 <= j < |r| && r[j] == e;
      var i := j / 2;
      assert r[2 * i] == KeyDown(text[i]) && r[2 * i + 1] == KeyUp(text[i]);
    }
  }

  /** A worker repeats an effect other than a status exactly as often as
      its body produced it. */
  lemma WrapCount(hasApp: bool, run: Run, e: Effect)
    requires !e.Show?
    ensures multiset(Wrap(hasApp, run))[e] == if run.Finished? then multiset(run.effects)[e] else 0
  {
    var before, after := Notify(hasApp, Processing), Notify(hasApp, Idle);
    var middle := match run
      case Failed(m) => Notify(hasApp, Error(ErrorMessage(m)))
      case Finished(effects) => effects;
    assert Wrap(hasApp, run) == before + middle + after;
    assert multiset(before)[e] == 0 && multiset(after)[e] == 0;
    if run.Failed? {
      assert multiset(middle)[e] == 0;
    }
  }

  /** The `app` worker asks for a correction at most once. */
  lemma AppWorkerCorrectsOnce(hasApp: bool, cfg: AppConfig.Config, template: string, api: Gemini.Api, heard: Heard, x: string)
    ensures multiset(AppWorker(hasApp, cfg, template, api, heard))[Correction(x)] <= 1
  {
    var e := Correction(x);
    var run := AppRun(cfg, template, api, heard);
    WrapCount(hasApp, run, e);
    if heard.Heard? {
      var text := heard.text;
      var final := AppFinalText(cfg, template, api, text);
      var c: seq<Effect> := if AppConfig.GeminiEnabled(cfg) && text != "" then [Correction(text)] else [];
      var k: seq<Effect> := if final != "" then KeyStrokes(final) else [];
      assert run.effects == c + k;
      KeyStrokesOnlyKeys(final);
      assert e !in k;
      assert multiset(c + k)[e] == multiset(c)[e] + multiset(k)[e];
    }
  }

  /** The `app` worker asks for a correction exactly when correction is
      enabled and the transcript is not empty. */
  lemma AppWorkerCorrects(hasApp: bool, cfg: AppConfig.Config, template: string, api: Gemini.Api, heard: Heard)
    ensures forall x :: Correction(x) in AppWorker(hasApp, cfg, template, api, heard)
                        <==> heard.Heard? && cfg.geminiApiKey != "" && heard.text != "" && x == heard.text
  {
    var run := AppRun(cfg, template, api, heard);
    if heard.Heard? {
      KeyStrokesOnlyKeys(AppFinalText(cfg, template, api, heard.text));
    }
    forall x ensures Correction(x) in AppWorker(hasApp, cfg, template, api, heard)
                     <==> heard.Heard? && cfg.geminiApiKey != "" && heard.text != "" && x == heard.text {
      WrapContains(hasApp, run, Correction(x));
    }
  }

  /** The body of the `app` worker enters exactly its final text. */
  lemma AppRunTypes(cfg: AppConfig.Config, template: string, api: Gemini.Api, text: string)
    ensures var run := AppRun(cfg, template, api, Heard(text));
            run.Finished? && Typed(run.effects) == AppFinalText(cfg, template, api, text)
  {
    var final := AppFinalText(cfg, template, api, text);
    var c: seq<Effect> := if AppConfig.GeminiEnabled(cfg) && text != "" then [Correction(text)] else [];
    var k: seq<Effect> := if final != "" then KeyStrokes(final) else [];
    assert AppRun(cfg, template, api, Heard(text)).effects == c + k;
    TypedAppend(c, k);
    KeyStrokesEnterText(final);
    if c != [] {
      TypedOne(Correction(text));
    }
  }

  /** The `app` worker types exactly its final text, and nothing when the
      backend raised. */
  lemma AppWorkerTypes(hasApp: bool, cfg: AppConfig.Config, template: string, api: Gemini.Api, heard: Heard)
    ensures Typed(AppWorker(hasApp, cfg, template, api, heard))
            == if heard.Heard? then AppFinalText(cfg, template, api, heard.text) else ""
  {
    WrapTyped(hasApp, AppRun(cfg, template, api, heard));
    if heard.Heard? {
      AppRunTypes(cfg, template, api, heard.text);
    }
  }

  /** The `app` worker shows processing first and idle last, and an error
      exactly when the backend raised, truncated to 30 characters; without
      an app it shows nothing. */
  lemma AppWorkerStatus(hasApp: bool, cfg: AppConfig.Config, template: string, api: Gemini.Api, heard: Heard)
    ensures var w := AppWorker(hasApp, cfg, template, api, heard);
            && (hasApp ==> |w| >= 2 && w[0] == Show(Processing) && w[|w| - 1] == Show(Idle))
            && (!hasApp ==> Silent(w))
            && (forall m :: Show(Error(m)) in w <==> hasApp && heard.Raised? && m == ErrorMessage(heard.message))
  {
    var run := AppRun(cfg, template, api, heard);
    if heard.Heard? {
      KeyStrokesOnlyKeys(AppFinalText(cfg, template, api, heard.text));
      assert forall k :: 0 <= k < |run.effects| ==> run.effects[k] in run.effects;
    }
    WrapShape(hasApp, run);
  }

  /** The text the `core` worker ends with: the transcript, corrected when
      a key is set and the transcript is not empty. */
  function CoreFinalText(apiKey: string, model: string, instructions: string, api: Gemini.Api, text: string): (r: string)
    ensures !(apiKey != "" && text != "") ==> r == text
    ensures r == "" <==> text == ""
  {
    if apiKey != "" && text != "" then ModelGemini.CorrectionResult(text, apiKey, model, instructions, api)
    else text
  }

  /** The body of the `core` worker's `try`, with the correction settings it
      needs passed in: join and strip the segments, then go on as
      `CoreSteps`. */
  function CoreRun(apiKey: string, model: string, instructions: string, api: Gemini.Api, decoded: Decoded): Run {
    match decoded
      case DecodeFailed(m) => Failed(m)
      case Segments(texts) => Finished(CoreSteps(apiKey, model, instructions, api, Strip(Concat(texts))))
  }

  /** What the `core` worker does with the transcript: correct it when a key
      is set and it is not empty, then paste the final text when there is
      one. */
  function CoreSteps(apiKey: string, model: string, instructions: string, api: Gemini.Api, text: string): seq<Effect> {
    var final := CoreFinalText(apiKey, model, instructions, api, text);
    (if apiKey != "" && text != "" then [Correction(text)] else [])
    + (if final != "" then [Paste(final)] else [])
  }

  /** `_transcribe_and_type` of the `core` engine, corrected. */
  function CoreWorker(hasApp: bool, apiKey: string, model: string, instructions: string, api: Gemini.Api, decoded: Decoded): seq<Effect> {
    Wrap(hasApp, CoreRun(apiKey, model, instructions, api, decoded))
  }

  /** The `core` worker asks for a correction exactly when a key is set and
      the stripped transcript is not empty. */
  lemma CoreWorkerCorrects(hasApp: bool, apiKey: string, model: string, instructions: string, api: Gemini.Api, decoded: Decoded)
    ensures forall x :: Correction(x) in CoreWorker(hasApp, apiKey, model, instructions, api, decoded)
                        <==> decoded.Segments? && apiKey != "" && x == Strip(Concat(decoded.texts)) && x != ""
  {
    var run := CoreRun(apiKey, model, instructions, api, decoded);
    forall x ensures Correction(x) in CoreWorker(hasApp, apiKey, model, instructions, api, decoded)
                     <==> decoded.Segments? && apiKey != "" && x == Strip(Concat(decoded.texts)) && x != "" {
      WrapContains(hasApp, run, Correction(x));
    }
  }

  /** The `core` worker's steps enter exactly its final text: they paste
      it once when it is not empty, and paste nothing else. */
  lemma CoreStepsType(apiKey: string, model: string, instructions: string, api: Gemini.Api, text: string)
    ensures Typed(CoreSteps(apiKey, model, instructions, api, text)) == CoreFinalText(apiKey, model, instructions, api, text)
    ensures var final := CoreFinalText(apiKey, model, instructions, api, text);
            multiset(CoreSteps(apiKey, model, instructions, api, text))[Paste(final)] == (if final != "" then 1 else 0)
    ensures forall x :: Paste(x) in CoreSteps(apiKey, model, instructions, api, text)
                        ==> x == CoreFinalText(apiKey, model, instructions, api, text)
  {
    var final := CoreFinalText(apiKey, model, instructions, api, text);
    var c: seq<Effect> := if apiKey != "" && text != "" then [Correction(text)] else [];
    var p: seq<Effect> := if final != "" then [Paste(final)] else [];
    TypedAppend(c, p);
    if c != [] {
      TypedOne(Correction(text));
    }
    if p != [] {
      TypedOne(Paste(final));
    }
  }

  /** The `core` worker pastes its final text when it is not empty, and
      nothing when decoding raised. */
  lemma CoreWorkerTypes(hasApp: bool, apiKey: string, model: string, instructions: string, api: Gemini.Api, decoded: Decoded)
    ensures Typed(CoreWorker(hasApp, apiKey, model, instructions, api, decoded))
            == if decoded.Segments? then CoreFinalText(apiKey, model, instructions, api, Strip(Concat(decoded.texts))) else ""
  {
    WrapTyped(hasApp, CoreRun(apiKey, model, instructions, api, decoded));
    if decoded.Segments? {
      CoreStepsType(apiKey, model, instructions, api, Strip(Concat(decoded.texts)));
    }
  }

  /** The `core` worker shows processing first and idle last, and an error
      exactly when decoding raised, truncated to 30 characters. */
  lemma CoreWorkerStatus(hasApp: bool, apiKey: string, model: string, instructions: string, api: Gemini.Api, decoded: Decoded)
    ensures var w := CoreWorker(hasApp, apiKey, model, instructions, api, decoded);
            && (hasApp ==> |w| >= 2 && w[0] == Show(Processing) && w[|w| - 1] == Show(Idle))
            && (!hasApp ==> Silent(w))
            && (forall m :: Show(Error(m)) in w <==> hasApp && decoded.DecodeFailed? && m == ErrorMessage(decoded.message))
  {
    var run := CoreRun(apiKey, model, instructions, api, decoded);
    assert run.Failed? <==> decoded.DecodeFailed?;
    assert run.Failed? ==> run.message == decoded.message;
    WrapShape(hasApp, run);
  }

  /** The message of the exception the `core` worker meets at its
      correction check: the `config` package's settings define no
      `gemini_enabled`. */
  const MissingEnabled: string := ModelGemini.MissingAttribute("gemini_enabled")

  /** `_transcribe_and_type` of the `core` engine as written: whenever
      decoding succeeds, reading `config.gemini_enabled` raises. */
  function CoreRunAsWritten(decoded: Decoded): Run {
    match decoded
      case DecodeFailed(m) => Failed(m)
      case Segments(_) => Failed(MissingEnabled)
  }

  /** The `core` worker as written. */
  function CoreWorkerAsWritten(hasApp: bool, decoded: Decoded): seq<Effect> {
    Wrap(hasApp, CoreRunAsWritten(decoded))
  }

  /** The discrepancy: as written, a recording that decodes to "hello"
      shows a truncated attribute error and pastes nothing, where the
      corrected worker without a key pastes "hello". */
  lemma CoreAsWrittenNeverPastes(model: string, instructions: string, api: Gemini.Api)
    ensures CoreWorkerAsWritten(true, Segments(["hello"]))
            == [Show(Processing), Show(Error("'AppConfig' object has no attr")), Show(Idle)]
    ensures Typed(CoreWorkerAsWritten(true, Segments(["hello"]))) == ""
    ensures Typed(CoreWorker(true, "", model, instructions, api, Segments(["hello"]))) == "hello"
  {
    assert ErrorMessage(MissingEnabled) == "'AppConfig' object has no attr";
    var w := CoreWorkerAsWritten(true, Segments(["hello"]));
    assert w == [Show(Processing), Show(Error("'AppConfig' object has no attr")), Show(Idle)];
    assert w[1..][1..][1..] == [];
    HelloTranscript();
    CoreWorkerTypes(true, "", model, instructions, api, Segments(["hello"]));
  }

  /** The one segment "hello" joins and strips to itself. */
  lemma HelloTranscript()
    ensures Strip(Concat(["hello"])) == "hello"
  {
    var h := "hello";
    assert Concat([h]) == h + Concat([]);
    assert h[0] == 'h' && h[4] == 'o' && !IsSpace(h[0]) && !IsSpace(h[4]);
    StripSurrounded("", h, "");
    assert "" + h + "" == h;
  }

  /** The body of the `main.py` worker's `try`: join and strip the
      segments, then paste the text when there is one. */
  function MainRun(decoded: Decoded): Run {
    match decoded
      case DecodeFailed(m) => Failed(m)
      case Segments(texts) =>
        var text := Strip(Concat(texts));
        Finished(if text != "" then [Paste(text)] else [])
  }

  /** `_transcribe_and_type` of `main.py`. */
  function MainWorker(hasApp: bool, decoded: Decoded): seq<Effect> {
    Wrap(hasApp, MainRun(decoded))
  }

  /** The `main.py` worker enters the stripped transcript, and nothing
      when decoding raised. */
  lemma MainWorkerTypes(hasApp: bool, decoded: Decoded)
    ensures Typed(MainWorker(hasApp, decoded)) == if decoded.Segments? then Strip(Concat(decoded.texts)) else ""
  {
    WrapTyped(hasApp, MainRun(decoded));
    if decoded.Segments? {
      var text := Strip(Concat(decoded.texts));
      if text != "" {
        TypedOne(Paste(text));
      }
    }
  }

  /** The `main.py` worker pastes the stripped transcript exactly when it
      is not empty, and nothing else. */
  lemma MainWorkerPastes(hasApp: bool, decoded: Decoded)
    ensures forall t :: Paste(t) in MainWorker(hasApp, decoded)
                        <==> decoded.Segments? && t == Strip(Concat(decoded.texts)) && t != ""
  {
    var run := MainRun(decoded);
    forall t ensures Paste(t) in MainWorker(hasApp, decoded) <==> decoded.Segments? && t == Strip(Concat(decoded.texts)) && t != "" {
      WrapContains(hasApp, run, Paste(t));
    }
  }

  /** The `main.py` worker shows processing first and idle last, and an
      error exactly when decoding raised, truncated to 30 characters. */
  lemma MainWorkerStatus(hasApp: bool, decoded: Decoded)
    ensures var w := MainWorker(hasApp, decoded);
            && (hasApp ==> |w| >= 2 && w[0] == Show(Processing) && w[|w| - 1] == Show(Idle))
            && (!hasApp ==> Silent(w))
            && (forall m :: Show(Error(m)) in w <==> hasApp && decoded.DecodeFailed? && m == ErrorMessage(decoded.message))
  {
    var run := MainRun(decoded);
    assert run.Failed? <==> decoded.DecodeFailed?;
    assert run.Failed? ==> run.message == decoded.message;
    WrapShape(hasApp, run);
  }
}
