/** The push-to-talk engine: the recording state machine driven by key and
    audio events, and the transcription workers of the three engine
    generations, all writing their effects to one `Host`. */
module Engine {
  import opened Capture
  import opened Pipeline
  import AppConfig
  import Settings
  import Gemini
  import ModelGemini
  import MainScript
  import Text

  /** Everything outside the engine that sees its effects: the menu-bar
      app, the speakers, the worker threads and the active window. */
  class Host {
    var log: seq<Effect>

    constructor ()
      ensures log == []
    {
      log := [];
    }
  }

  /** `type_text(text)` of the `app` engine: posts a key-down and a key-up
      event for each character, in order. */
  method TypeText(host: Host, text: string)
    modifies host
    ensures host.log == old(host.log) + KeyStrokes(text)
  {
    if text == "" {
      return;
    }
    var i := 0;
    while i < |text|
      invariant 0 <= i <= |text|
      invariant host.log == old(host.log) + KeyStrokes(text[..i])
    {
      assert text[..i + 1][..i] == text[..i];
      host.log := host.log + [KeyDown(text[i])];
      host.log := host.log + [KeyUp(text[i])];
      i := i + 1;
    }
    assert text[..i] == text;
  }

  /** Appending two pieces one after the other appends their
      concatenation. */
  lemma Regroup(log: seq<Effect>, a: seq<Effect>, b: seq<Effect>)
    ensures log + a + b == log + (a + b)
  {
  }

  /** Appending three pieces one after the other appends their
      concatenation. */
  lemma Regroup3(log: seq<Effect>, a: seq<Effect>, b: seq<Effect>, c: seq<Effect>)
    ensures log + a + b + c == log + (a + b + c)
  {
  }

  /** `VoiceInputEngine`: whether a recording is in progress, the chunks
      captured so far, and whether the input stream is open. */
  class VoiceInputEngine {
    const sampleRate: nat
    const minDuration: real
    const hotkey: Key
    const hasApp: bool
    const host: Host
    var isRecording: bool
    var audioChunks: seq<Chunk>
    var streaming: bool

    /** The stream is open exactly while a recording is in progress. */
    ghost predicate Valid()
      reads this
    {
      sampleRate > 0 && streaming == isRecording
    }

    /** The engine of the `app` package, set up from its configuration. */
    constructor FromAppConfig(cfg: AppConfig.Config, hasApp: bool, host: Host)
      requires AppConfig.WellFormed(cfg)
      ensures Valid() && !isRecording && audioChunks == []
      ensures sampleRate == cfg.sampleRate && minDuration == cfg.minDuration && hotkey == cfg.hotkey
      ensures this.hasApp == hasApp && this.host == host
    {
      sampleRate := cfg.sampleRate;
      minDuration := cfg.minDuration;
      hotkey := cfg.hotkey;
      this.hasApp := hasApp;
      this.host := host;
      isRecording := false;
      audioChunks := [];
      streaming := false;
    }

    /** The engine of the `core` package, set up from the `config`
        package's settings. */
    constructor FromSettings(cfg: Settings.Config, hasApp: bool, host: Host)
      requires Settings.WellFormed(cfg)
      ensures Valid() && !isRecording && audioChunks == []
      ensures sampleRate == cfg.sampleRate && minDuration == cfg.minDuration && hotkey == cfg.hotkey
      ensures this.hasApp == hasApp && this.host == host
    {
      sampleRate := cfg.sampleRate;
      minDuration := cfg.minDuration;
      hotkey := cfg.hotkey;
      this.hasApp := hasApp;
      this.host := host;
      isRecording := false;
      audioChunks := [];
      streaming := false;
    }

    /** The engine of `main.py`, with its fixed settings. */
    constructor ForMainScript(hasApp: bool, host: Host)
      ensures Valid() && !isRecording && audioChunks == []
      ensures sampleRate == MainScript.SampleRate && minDuration == MainScript.MinDuration
      ensures hotkey == MainScript.Hotkey
      ensures this.hasApp == hasApp && this.host == host
    {
      sampleRate := MainScript.SampleRate;
      minDuration := MainScript.MinDuration;
      hotkey := MainScript.Hotkey;
      this.hasApp := hasApp;
      this.host := host;
      isRecording := false;
      audioChunks := [];
      streaming := false;
    }

    /** `start_recording`: does nothing while recording; otherwise starts a
        recording with no chunks, plays the start sound, shows recording
        and opens the stream. */
    method StartRecording()
      requires Valid()
      modifies this, host
      ensures Valid() && isRecording
      ensures old(isRecording) ==> audioChunks == old(audioChunks) && host.log == old(host.log)
      ensures !old(isRecording) ==> audioChunks == [] && host.log == old(host.log) + StartEffects(hasApp)
    {
      if isRecording {
        return;
      }
      isRecording := true;
      audioChunks := [];
      host.log := host.log + [Sound("Tink")];
      host.log := host.log + Notify(hasApp, Recording);
      streaming := true;
    }

    /** The audio callback: while the stream is open, appends the chunk. */
    method OnAudio(chunk: Chunk)
      requires Valid()
      modifies this
      ensures Valid() && isRecording == old(isRecording) && streaming == old(streaming)
      ensures streaming ==> audioChunks == old(audioChunks) + [chunk]
      ensures !streaming ==> audioChunks == old(audioChunks)
    {
      if streaming {
        audioChunks := audioChunks + [chunk];
      }
    }

    /** `stop_recording`: does nothing unless recording; otherwise ends the
        recording, closes the stream, plays the stop sound, and then shows
        idle for an empty or too short take, or dispatches one worker with
        the concatenated audio. */
    method StopRecording()
      requires Valid()
      modifies this, host
      ensures Valid() && !isRecording && audioChunks == old(audioChunks)
      ensures !old(isRecording) ==> host.log == old(host.log)
      ensures old(isRecording) ==> host.log == old(host.log) + StopEffects(hasApp, old(audioChunks), sampleRate, minDuration)
    {
      if !isRecording {
        return;
      }
      isRecording := false;
      streaming := false;
      host.log := host.log + [Sound("Pop")];
      if audioChunks == [] {
        host.log := host.log + Notify(hasApp, Idle);
        return;
      }
      var audio := Flatten(audioChunks);
      ShorterThanBySamples(|audio|, sampleRate, minDuration);
      if ShorterThan(|audio|, sampleRate, minDuration) {
        host.log := host.log + Notify(hasApp, Idle);
        return;
      }
      host.log := host.log + [Dispatch(audio)];
    }

    /** The listener's `on_press`: the hotkey starts a recording, any other
        key is ignored. */
    method OnPress(key: Key)
      requires Valid()
      modifies this, host
      ensures Valid()
      ensures key != hotkey ==> isRecording == old(isRecording) && audioChunks == old(audioChunks) && host.log == old(host.log)
      ensures key == hotkey ==> isRecording
      ensures key == hotkey && !old(isRecording) ==> audioChunks == [] && host.log == old(host.log) + StartEffects(hasApp)
      ensures key == hotkey && old(isRecording) ==> audioChunks == old(audioChunks) && host.log == old(host.log)
    {
      if key == hotkey {
        StartRecording();
      }
    }

    /** The listener's `on_release`: releasing the hotkey during a recording
        stops it, anything else is ignored. */
    method OnRelease(key: Key)
      requires Valid()
      modifies this, host
      ensures Valid() && audioChunks == old(audioChunks)
      ensures !(key == hotkey && old(isRecording)) ==> isRecording == old(isRecording) && host.log == old(host.log)
      ensures key == hotkey && old(isRecording) ==> !isRecording
      ensures key == hotkey && old(isRecording) ==>
                host.log == old(host.log) + StopEffects(hasApp, old(audioChunks), sampleRate, minDuration)
    {
      if key == hotkey {
        if isRecording {
          StopRecording();
        }
      }
    }

    /** One push-to-talk take from idle: the hotkey goes down, the stream
        delivers `chunks`, the hotkey comes up. The take decided on is the
        chunks in delivery order. */
    method PushToTalk(chunks: seq<Chunk>)
      requires Valid() && !isRecording
      modifies this, host
      ensures Valid() && !isRecording && audioChunks == chunks
      ensures host.log == old(host.log) + StartEffects(hasApp) + StopEffects(hasApp, chunks, sampleRate, minDuration)
    {
      OnPress(hotkey);
      var i := 0;
      while i < |chunks|
        invariant 0 <= i <= |chunks|
        invariant Valid() && isRecording && audioChunks == chunks[..i]
        invariant host.log == old(host.log) + StartEffects(hasApp)
      {
        assert chunks[..i + 1] == chunks[..i] + [chunks[i]];
        OnAudio(chunks[i]);
        i := i + 1;
      }
      assert chunks[..i] == chunks;
      OnRelease(hotkey);
    }

    /** `_transcribe_and_type` of the `app` engine, on a dispatched take:
        the backend's outcome for the audio, the corrector and its
        settings decide the effects. */
    method AppTranscribeAndType(audio: seq<Sample>, transcribe: seq<Sample> -> Heard,
                                corrector: Gemini.GeminiCorrector, cfg: AppConfig.Config,
                                template: string, api: Gemini.Api)
      requires corrector.Valid()
      modifies host, corrector
      ensures corrector.Valid()
      ensures old(corrector.client) != null ==> corrector.client == old(corrector.client)
      ensures cfg.geminiApiKey == "" || transcribe(audio).Raised? ==> corrector.client == old(corrector.client)
      ensures host.log == old(host.log) + AppWorker(hasApp, cfg, template, api, transcribe(audio))
    {
      ghost var before := host.log;
      host.log := host.log + Notify(hasApp, Processing);
      var heard := transcribe(audio);
      ghost var middle: seq<Effect>;
      match heard {
        case Raised(m) =>
          middle := Notify(hasApp, Error(ErrorMessage(m)));
          host.log := host.log + Notify(hasApp, Error(ErrorMessage(m)));
        case Heard(text) =>
          CorrectAndType(text, corrector, cfg, template, api);
          middle := AppRun(cfg, template, api, heard).effects;
      }
      host.log := host.log + Notify(hasApp, Idle);
      Regroup3(before, Notify(hasApp, Processing), middle, Notify(hasApp, Idle));
    }

    /** The success path of the `app` worker: correct the transcript when
        correction is enabled and it is not empty, then type the final
        text when there is one. */
    method CorrectAndType(text: string, corrector: Gemini.GeminiCorrector, cfg: AppConfig.Config,
                          template: string, api: Gemini.Api)
      requires corrector.Valid()
      modifies host, corrector
      ensures corrector.Valid()
      ensures cfg.geminiApiKey != "" && !Text.AllSpace(text) ==> corrector.client != null
      ensures !(cfg.geminiApiKey != "" && !Text.AllSpace(text)) ==> corrector.client == old(corrector.client)
      ensures old(corrector.client) != null ==> corrector.client == old(corrector.client)
      ensures old(corrector.client) == null && corrector.client != null
              ==> fresh(corrector.client) && corrector.client.apiKey == cfg.geminiApiKey
      ensures host.log == old(host.log) + AppRun(cfg, template, api, Heard(text)).effects
    {
      var t := text;
      var asked: seq<Effect> := [];
      if corrector.Enabled(cfg) && t != "" {
        asked := [Correction(t)];
        host.log := host.log + asked;
        t := corrector.Correct(cfg, template, api, t);
      }
      assert t == AppFinalText(cfg, template, api, text);
      ghost var started := host.log;
      if t != "" {
        TypeText(host, t);
      }
      ghost var keys: seq<Effect> := if t != "" then KeyStrokes(t) else [];
      assert host.log == started + keys;
      Regroup(old(host.log), asked, keys);
    }

    /** `_transcribe_and_type` of the `core` engine, on a dispatched take,
        with the correction settings it needs passed in. */
    method CoreTranscribeAndType(audio: seq<Sample>, decode: seq<Sample> -> Decoded,
                                 slot: ModelGemini.ClientSlot, apiKey: string, model: string,
                                 instructions: string, api: Gemini.Api)
      requires slot.Valid()
      modifies host, slot
      ensures slot.Valid()
      ensures old(slot.client) != null ==> slot.client == old(slot.client)
      ensures apiKey == "" || decode(audio).DecodeFailed? ==> slot.client == old(slot.client)
      ensures host.log == old(host.log) + CoreWorker(hasApp, apiKey, model, instructions, api, decode(audio))
    {
      ghost var before := host.log;
      host.log := host.log + Notify(hasApp, Processing);
      var decoded := decode(audio);
      var middle: seq<Effect>;
      match decoded {
        case DecodeFailed(m) =>
          middle := Notify(hasApp, Error(ErrorMessage(m)));
          host.log := host.log + middle;
        case Segments(texts) =>
          var text := Text.Strip(Text.Concat(texts));
          CorrectAndPaste(text, slot, apiKey, model, instructions, api);
          middle := CoreSteps(apiKey, model, instructions, api, text);
      }
      host.log := host.log + Notify(hasApp, Idle);
      Regroup3(before, Notify(hasApp, Processing), middle, Notify(hasApp, Idle));
    }

    /** The success path of the `core` worker: correct the transcript when a
        key is set and it is not empty, then paste the final text when
        there is one. */
    method CorrectAndPaste(text: string, slot: ModelGemini.ClientSlot, apiKey: string, model: string,
                           instructions: string, api: Gemini.Api)
      requires slot.Valid()
      modifies host, slot
      ensures slot.Valid()
      ensures apiKey != "" && !Text.AllSpace(text) ==> slot.client != null
      ensures !(apiKey != "" && !Text.AllSpace(text)) ==> slot.client == old(slot.client)
      ensures old(slot.client) != null ==> slot.client == old(slot.client)
      ensures old(slot.client) == null && slot.client != null
              ==> fresh(slot.client) && slot.client.apiKey == apiKey
      ensures host.log == old(host.log) + CoreSteps(apiKey, model, instructions, api, text)
    {
      var t := text;
      var asked: seq<Effect> := [];
      if apiKey != "" && t != "" {
        asked := [Correction(t)];
        host.log := host.log + asked;
        t := slot.CorrectWithGemini(t, apiKey, model, instructions, api);
      }
      assert t == CoreFinalText(apiKey, model, instructions, api, text);
      var pasted: seq<Effect> := if t != "" then [Paste(t)] else [];
      host.log := host.log + pasted;
      Regroup(old(host.log), asked, pasted);
    }

    /** `_transcribe_and_type` of `main.py`, on a dispatched take: loads the
        model on first use, then pastes the stripped transcript. */
    method MainTranscribeAndType(audio: seq<Sample>, decode: seq<Sample> -> Decoded, models: MainScript.ModelSlot)
      requires models.Valid()
      modifies host, models
      ensures models.Valid() && models.model != null
      ensures old(models.model) != null ==> models.model == old(models.model)
      ensures host.log == old(host.log) + MainWorker(hasApp, decode(audio))
    {
      ghost var before := host.log;
      host.log := host.log + Notify(hasApp, Processing);
      var m := models.GetModel();
      var decoded := decode(audio);
      var middle: seq<Effect>;
      match decoded {
        case DecodeFailed(msg) =>
          middle := Notify(hasApp, Error(ErrorMessage(msg)));
        case Segments(texts) =>
          var text := Text.Strip(Text.Concat(texts));
          middle := if text != "" then [Paste(text)] else [];
          assert MainRun(decoded) == Finished(middle);
      }
      host.log := host.log + middle;
      host.log := host.log + Notify(hasApp, Idle);
      Regroup3(before, Notify(hasApp, Processing), middle, Notify(hasApp, Idle));
    }
  }
}
