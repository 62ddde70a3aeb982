# Push-to-talk voice input, modelled in Dafny

This project models the core of a macOS push-to-talk dictation tool. While
the right Command key is held, the tool records microphone audio. When the
key is released it checks that the take is long enough. It then hands the
take to a background worker, which transcribes it, optionally has a
language model correct the transcript, and types or pastes the result into
the active window. A menu-bar app shows the status throughout.

The model covers:

- **The word-replacement engine** (`WordReplacement`). It is a class that
  holds ordered `(input, output)` rules.
  - `apply` replaces each rule's input in turn, and each rule sees the
    text the earlier rules produced.
  - `set_rules` keeps only the rules whose input is non-empty.
  - `_load_csv` and `save_csv` are modelled over CSV records, seen as
    field lists. `csv.DictReader` is modelled as a function: the header is
    the first record, empty records are skipped, a name repeated in the
    header takes its last column, and a column the row does not reach
    holds `None`.
  - Proved: rules compose sequentially, filtering keeps order, and saving
    then loading gives back the normalized rules.
- **Python string operations** (`Text`). `str.strip` uses the exact
  `isspace` character set. `str.replace` is proved equal to an independent
  definition, `rep.join(s.split(pat))`, built from `find` and `split`.
- **The recording state machine and worker pipeline** (`Engine`,
  `Pipeline`).
  - One `VoiceInputEngine` class covers the three engine generations of
    the repository: app/engine.py, core/engine.py and main.py. Their
    recording logic is the same.
  - Each generation has its own constructor (its settings) and its own
    worker method.
  - Every outward effect is appended to a `Host.log`: sounds, status
    updates, worker dispatch, correction requests, key events and pastes.
  - Each worker method is proved equal to a trace function. Lemmas
    establish what that trace shows, corrects, types and pastes.
- **The two Gemini correctors** (`Gemini`, `ModelGemini`). Each is a pure
  result function with its passthrough rules and reply handling, plus a
  class holding the lazily created client.
- **The Google speech backend** (`GoogleSpeech`): the locale tag sent for
  the configured language, the outcome-to-transcript mapping, and the
  lazily created recogniser.
- **The two configuration models** (`AppConfig`, `Settings`): field
  bounds, the model-name validator, defaults and the derived "correction
  enabled" flag.
- **The constants and the lazily loaded Whisper model of main.py**
  (`MainScript`).

The speech recognisers, the language-model API, the environment and the
audio stream become parameters:
- `Gemini.Api` is a total function from model name and prompt to a
  `Reply`.
- `GoogleSpeech.Recognize` is a total function from samples, rate and
  locale to a `Recognition`.
- The Whisper decoding's outcome is a `Decoded` value.
- The environment is a `map`.
- Audio chunks are passed to `OnAudio` and `PushToTalk`.

The model states the behaviour the code has, including where a reader might expect otherwise:
- A Google `RequestError` yields `""` (app/google_speech.py:61-63). It is
  not raised as an error.
- `start_recording` checks only `is_recording`. A new take may start while
  a worker is still processing.
- No engine calls the word-replacement engine, so the pipeline does not
  apply replacement rules.
- A failing worker has no per-take token. It simply shows the error and
  then idle.

## Model

| member | source | states |
|---|---|---|
| Text.Strip | app/word_replacement.py:30 | the result is empty exactly when the input is all whitespace (Python's `isspace` set), otherwise starts and ends with a non-whitespace character, and is never longer than the input |
| Text.StripIsMiddle | app/word_replacement.py:30 | `strip` keeps a contiguous slice of the input and cuts off only whitespace before and after it |
| Text.StripSurrounded | app/word_replacement.py:30 | a stripped string with whitespace around it strips back to exactly itself, so `strip` removes the maximal whitespace ends |
| Text.StripIdempotent | app/word_replacement.py:30 | stripping twice is stripping once |
| Text.Prefix | app/engine.py:207 | `s[:n]` has `min(n, len(s))` characters and is the start of `s` |
| Text.FindFrom | app/word_replacement.py:44 | the returned index is at or after the start and holds an occurrence, no occurrence lies between the start and it, and -1 means none from the start on |
| Text.Find | app/word_replacement.py:44 | `find` returns the first occurrence, and -1 exactly when the pattern does not occur |
| Text.ReplaceAll | app/word_replacement.py:44 | `str.replace` with a non-empty pattern: a left-to-right scan that copies characters and writes the replacement for each non-overlapping occurrence; its meaning is pinned by `ReplaceAtFirst`, `ReplaceAbsent` and `ReplaceIsJoinOfSplit` |
| Text.Split | app/word_replacement.py:44 | `str.split` with a non-empty separator: the pieces between the occurrences successive `find` calls return; the reference side of `ReplaceIsJoinOfSplit` |
| Text.Join | app/word_replacement.py:44 | `sep.join(parts)`: the parts with the separator between neighbours; the reference side of `ReplaceIsJoinOfSplit` |
| Text.Concat | core/engine.py:92 | `"".join(...)` of the segment texts, in segment order |
| Text.ReplaceNone | app/word_replacement.py:44 | with no occurrence from a position on, `replace` copies the rest unchanged |
| Text.ReplaceBefore | app/word_replacement.py:44 | up to the first occurrence `replace` copies, then writes the replacement and resumes after the occurrence (non-overlapping, left to right) |
| Text.ReplaceAtFirst | app/word_replacement.py:44 | `replace` is the text before the first occurrence, the replacement, then the replaced remainder |
| Text.ReplaceAbsent | app/word_replacement.py:44 | a pattern that does not occur leaves the text unchanged |
| Text.ReplaceIsJoinOfSplit | app/word_replacement.py:44 | `s.replace(p, r) == r.join(s.split(p))` for every string and non-empty pattern |
| Text.ReplaceBySelf | app/word_replacement.py:44 | replacing a pattern by itself is the identity |
| WordReplacement.ApplyNoRules | app/word_replacement.py:39-45 | with no rules the text is returned unchanged |
| WordReplacement.ApplyRules | app/word_replacement.py:39-45 | the rules applied in list order, each `replace` seeing the previous result; pinned by `ApplyNoRules`, `ApplySnoc` and `ApplyAppend` |
| WordReplacement.ApplySnoc | app/word_replacement.py:43-44 | a rule added at the end is applied to what the earlier rules produced |
| WordReplacement.ApplyAppend | app/word_replacement.py:43-44 | applying two rule lists in a row is applying their concatenation |
| WordReplacement.ChainedRules | app/word_replacement.py:43-44 | `[("A","B"),("B","C")]` maps `"A"` to `"C"` |
| WordReplacement.AbsentRuleChangesNothing | app/word_replacement.py:44 | a rule whose input does not occur in the text it meets leaves that text unchanged |
| WordReplacement.KeepWithInput | app/word_replacement.py:55 | the kept rules are exactly the given rules with a non-empty input, never more of them |
| WordReplacement.KeepDistributes | app/word_replacement.py:55 | filtering keeps relative order: it distributes over concatenation |
| WordReplacement.KeepAllInputs | app/word_replacement.py:55 | rules that all have an input are kept exactly as given |
| WordReplacement.LastIndex | app/word_replacement.py:28-30 | the column a header name maps to is its last position, -1 when absent |
| WordReplacement.Lookup | app/word_replacement.py:28-31 | `row.get(name, "")` on a `DictReader` row: `""` for a name the header lacks, the field at the name's last column, `None` when the record is shorter |
| WordReplacement.DataRows | app/word_replacement.py:28-29 | the rows after the header: empty records skipped, an unreadable record failing, every other record looked up by header name |
| WordReplacement.DictRows | app/word_replacement.py:28-29 | `csv.DictReader`: the first record is the header, the rest are `DataRows` under it |
| WordReplacement.RowRule | app/word_replacement.py:30-33 | one row gives the rule `(strip(input), strip(output))`, or none when the stripped input is empty; used by `LoadedSnoc` and `LoadedRows` |
| WordReplacement.Loaded | app/word_replacement.py:29-35 | every loaded rule has a non-empty stripped input and a stripped output, at most one rule per row |
| WordReplacement.LoadedSnoc | app/word_replacement.py:29-33 | a row that loads appends its own rule, `(strip(input), strip(output))` or nothing for an empty input |
| WordReplacement.LoadedStops | app/word_replacement.py:29-35 | loading stops at the first row that raises and keeps the rules gathered before it |
| WordReplacement.ReadRules | app/word_replacement.py:29-33 | the loop over the reader's rows yields `Loaded(rows)` |
| WordReplacement.SaveRecords | app/word_replacement.py:62-66 | the saved records are the header `["input","output"]` then one record per rule, in rule order |
| WordReplacement.SavedRows | app/word_replacement.py:62-66 | reading the saved records back with the header yields one row per rule, field for field |
| WordReplacement.LoadedRows | app/word_replacement.py:29-33 | loading those rows yields each rule stripped, minus those whose stripped input is empty |
| WordReplacement.NormalizedStripped | app/word_replacement.py:30-33 | rules that are already stripped and have inputs load back as themselves |
| WordReplacement.SaveLoadRoundTrip | app/word_replacement.py:23-66 | saving and loading yields the normalized rules, and the rules themselves when they came from a load |
| WordReplacement.WordReplacementManager.constructor | app/word_replacement.py:15-21 | an existing file is loaded; otherwise the rules are empty and a header-only file is written |
| WordReplacement.WordReplacementManager.LoadCsv | app/word_replacement.py:23-37 | the rules become those the file's records load to, none when the file does not exist |
| WordReplacement.WordReplacementManager.Apply | app/word_replacement.py:39-45 | the result is the text after each stored rule in order, and the stored rules are untouched |
| WordReplacement.WordReplacementManager.GetRules | app/word_replacement.py:47-50 | returns the stored rules |
| WordReplacement.WordReplacementManager.SetRules | app/word_replacement.py:52-55 | stores exactly the given rules with an input, in order, keeping every stored input non-empty |
| WordReplacement.WordReplacementManager.SaveCsv | app/word_replacement.py:57-66 | the file holds the header and one record per stored rule |
| Capture.FlattenAppend | app/engine.py:175 | appending a chunk appends its samples at the end of the audio |
| Capture.FlattenLength | app/engine.py:175 | the concatenated audio has as many samples as the chunks together |
| Capture.Flatten | app/engine.py:175 | `np.concatenate(chunks)`: the chunks' samples, chunk after chunk; pinned by `FlattenAppend` and `FlattenLength` |
| Capture.ShorterThan | app/engine.py:176-178 | `len(audio) / sample_rate < min_duration` in exact arithmetic; restated without division by `ShorterThanBySamples` |
| Capture.ShorterThanBySamples | app/engine.py:176-178 | `len/rate < min_duration` holds exactly when `len < min_duration * rate` |
| Pipeline.Notify | app/engine.py:150-151 | a status update is made exactly when an app is attached |
| Pipeline.Wrap | app/engine.py:187-211 | the worker frame: processing, then the body's effects or the truncated error, then idle from the `finally`; its shape is proved by `WrapShape`, `WrapContains` and `WrapTyped` |
| Pipeline.StartEffects | app/engine.py:141-154 | the start sound, then the recording status when an app is attached |
| Pipeline.KeyStrokes | app/engine.py:73-87 | two events per character, a key-down then a key-up carrying it, in text order; nothing for `""` |
| Pipeline.TypedAppend | app/engine.py:78-85 | the text entered by consecutive events is the concatenation of what each part enters |
| Pipeline.KeyStrokesEnterText | app/engine.py:78-85 | the key events enter exactly the text they were made from |
| Pipeline.KeyStrokesOnlyKeys | app/engine.py:78-85 | `type_text` produces only key events |
| Pipeline.ErrorMessage | app/engine.py:207 | the shown message is the first `min(30, len)` characters of the exception's message |
| Pipeline.WrapShape | app/engine.py:187-211 | a worker shows processing first and idle last, an error exactly when its body raised, and nothing without an app |
| Pipeline.WrapContains | app/engine.py:192-211 | a non-status effect occurs in a worker exactly when its body finished and produced it |
| Pipeline.WrapTyped | app/engine.py:192-211 | a worker enters what its body entered, nothing when the body raised |
| Pipeline.WrapCount | app/engine.py:187-211 | a worker produces each non-status effect as often as its body did, and never when the body raised |
| Pipeline.Decide | app/engine.py:170-185 | no chunks gives no take; otherwise the audio is the chunks concatenated, accepted exactly when it lasts at least the minimum duration |
| Pipeline.StopEffects | app/engine.py:168-185 | the stop sound comes first; an accepted take gives exactly the stop sound and one dispatch carrying the concatenated audio, with no idle status; a missing or too-short take gives the stop sound then idle, with no dispatch |
| Pipeline.AppFinalText | app/engine.py:196-197 | the transcript is corrected only when correction is enabled and it is non-empty, and the final text is empty exactly when the transcript is |
| Pipeline.AppWorkerCorrects | app/engine.py:196-197 | the `app` worker asks for a correction of `x` exactly when correction is enabled, the transcript is non-empty and `x` is the transcript |
| Pipeline.AppWorkerCorrectsOnce | app/engine.py:196-197 | the `app` worker asks for a correction of any text at most once |
| Pipeline.AppRunTypes | app/engine.py:193-202 | the worker body enters exactly the final text |
| Pipeline.AppWorkerTypes | app/engine.py:192-211 | the `app` worker types its final text, and nothing when the backend raised |
| Pipeline.AppWorkerStatus | app/engine.py:187-211 | processing first, idle last, a truncated error exactly when the backend raised, nothing without an app |
| Pipeline.AppWorker | app/engine.py:187-211 | the `app` worker's effects: `Wrap` of its `try` body; what it corrects, types and shows is proved by `AppWorkerCorrects`, `AppWorkerTypes` and `AppWorkerStatus` |
| Pipeline.AppRun | app/engine.py:193-202 | the `try` body of the `app` worker: the backend's exception, or the correction request when enabled and the transcript is non-empty followed by the key events of the final text; what it enters is proved by `AppRunTypes` |
| Pipeline.CoreFinalText | core/engine.py:95-96 | corrected worker: the transcript is corrected only when a key is set and it is non-empty, and the final text is empty exactly when the transcript is |
| Pipeline.CoreSteps | core/engine.py:92-101 | corrected worker: the success path after decoding, the correction request when a key is set and the text is non-empty, then the paste of the final text; proved by `CoreStepsType` |
| Pipeline.CoreRun | core/engine.py:84-101 | corrected worker: the `try` body, the decoder's exception or `CoreSteps` of the joined, stripped segments |
| Pipeline.CoreWorkerCorrects | core/engine.py:92-96 | the corrected `core` worker asks for a correction exactly when a key is set and the joined, stripped transcript is non-empty |
| Pipeline.CoreStepsType | core/engine.py:95-101 | corrected worker: the success path enters exactly the final text; it pastes the final text once when it is non-empty and not at all when it is empty, and pastes nothing else |
| Pipeline.CoreWorkerTypes | core/engine.py:84-102 | the corrected `core` worker enters its final text, and nothing when decoding raised |
| Pipeline.CoreWorkerStatus | core/engine.py:79-110 | corrected worker: processing first, idle last, a truncated error exactly when decoding raised, nothing without an app |
| Pipeline.CoreWorker | core/engine.py:79-110 | corrected worker: `Wrap` of the join, strip, correct and paste body; what it corrects, pastes and shows is proved by `CoreWorkerCorrects`, `CoreWorkerTypes` and `CoreWorkerStatus` |
| Pipeline.CoreWorkerAsWritten | core/engine.py:79-110 | as written: every successful decode fails on the missing `gemini_enabled`, so the worker shows the truncated attribute error; exhibited by `CoreAsWrittenNeverPastes` |
| Pipeline.CoreRunAsWritten | core/engine.py:84-101 | as written: the decoder's exception, or for every successful decode the `AttributeError` that line 95 raises |
| Pipeline.CoreAsWrittenNeverPastes | core/engine.py:95 | as written, a take decoded as "hello" shows the error `'AppConfig' object has no attr` and pastes nothing; the corrected worker pastes "hello" |
| Pipeline.MainWorkerTypes | main.py:194-200 | the `main.py` worker enters the joined, stripped transcript, and nothing when decoding raised |
| Pipeline.MainWorkerPastes | main.py:194-200 | it pastes the transcript exactly when it is non-empty, and nothing else |
| Pipeline.MainWorkerStatus | main.py:180-211 | processing first, idle last, a truncated error exactly when decoding raised, nothing without an app |
| Pipeline.MainWorker | main.py:180-211 | `Wrap` of the join, strip and paste body; what it pastes and shows is proved by `MainWorkerTypes`, `MainWorkerPastes` and `MainWorkerStatus` |
| Pipeline.MainRun | main.py:194-200 | the `try` body of `main.py`'s worker: the decoder's exception, or the paste of the joined, stripped segments when they are non-empty; proved by `MainWorkerTypes` and `MainWorkerPastes` |
| Engine.TypeText | app/engine.py:67-87 | the loop posts exactly the key events of the text |
| Engine.VoiceInputEngine.FromAppConfig | app/engine.py:93-105 | a new engine is idle with no chunks, using the configured rate, minimum duration and hotkey |
| Engine.VoiceInputEngine.FromSettings | core/engine.py:27-32 | the same for the `config` package's settings |
| Engine.VoiceInputEngine.ForMainScript | main.py:116-122 | the same with the fixed constants of `main.py` |
| Engine.VoiceInputEngine.StartRecording | app/engine.py:141-154 | a no-op while recording; otherwise recording starts with no chunks after the start sound and the recording status, and the stream opens; `start_recording` of core/engine.py:34-47 and main.py:124-148 is the same |
| Engine.VoiceInputEngine.OnAudio | app/engine.py:124-132 | while the stream is open a chunk is appended at the end; otherwise nothing changes |
| Engine.VoiceInputEngine.StopRecording | app/engine.py:156-185 | a no-op unless recording; otherwise recording ends, the stream closes, and the log grows by exactly the stop effects of the captured chunks; `stop_recording` of core/engine.py:49-77 and main.py:150-178 is the same |
| Engine.VoiceInputEngine.OnPress | app/engine.py:109-111 | the hotkey starts a recording; any other key changes nothing, as in main.py:237-239 |
| Engine.VoiceInputEngine.OnRelease | app/engine.py:113-116 | releasing the hotkey during a recording stops it; anything else changes nothing, as in main.py:241-244 |
| Engine.VoiceInputEngine.PushToTalk | app/engine.py:141-185 | press, chunks, release from idle: the start effects, then the stop effects of exactly those chunks in delivery order |
| Engine.VoiceInputEngine.AppTranscribeAndType | app/engine.py:187-211 | the `app` worker's effects are `AppWorker` of the backend's outcome; without a key or when the backend raised the corrector's client is untouched, and an existing client is kept |
| Engine.VoiceInputEngine.CorrectAndType | app/engine.py:196-202 | the success path asks for a correction when enabled, then types the final text when it is non-empty; with a key and a transcript that is not blank a client exists afterwards, made fresh with the key when there was none; otherwise the client is as before; an existing client is never replaced |
| Engine.VoiceInputEngine.CoreTranscribeAndType | core/engine.py:79-110 | corrected worker: the effects are `CoreWorker` of the decoding outcome; without a key or when decoding raised the client slot is untouched, and an existing client is kept |
| Engine.VoiceInputEngine.CorrectAndPaste | core/engine.py:95-101 | corrected worker: on the success path it asks for a correction when a key is set, then pastes the final text when it is non-empty; with a key and a transcript that is not blank the slot holds a client afterwards, made fresh with the key when there was none; otherwise the slot is as before; an existing client is never replaced |
| Engine.VoiceInputEngine.MainTranscribeAndType | main.py:180-211 | the model is loaded on first use and kept; the effects are `MainWorker` of the decoding outcome |
| Gemini.PromptSubstitutes | app/gemini.py:45 | the prompt is the template with every `{text}` replaced by the input, and the template itself when it has no placeholder |
| Gemini.Prompt | app/gemini.py:45 | `template.replace("{text}", text)`; what it means is proved by `PromptSubstitutes` |
| Gemini.UseReply | app/gemini.py:56-61 | a reply whose stripped text is non-empty gives that stripped text; an empty or blank reply, no text or an exception gives the input |
| Gemini.Corrected | app/gemini.py:31-65 | blank input and a missing key pass the input through; the result is always the input or a non-empty stripped string |
| Gemini.CorrectedAsksApi | app/gemini.py:39-61 | with non-blank input and a key, the reply to the template prompt decides the result |
| Gemini.CorrectionComesFromReply | app/gemini.py:31-65 | the result differs from the input only when the API answered with a non-blank text, and is then that text stripped |
| Gemini.Client.constructor | app/gemini.py:28 | a client keeps the key it was made with |
| Gemini.GeminiCorrector.constructor | app/gemini.py:13-15 | a new corrector has no client |
| Gemini.GeminiCorrector.Enabled | app/gemini.py:17-20 | correction is enabled exactly when a key is configured |
| Gemini.GeminiCorrector.GetClient | app/gemini.py:22-29 | the first call makes the client with the configured key; every later call returns that same client, and at most one is made |
| Gemini.GeminiCorrector.Correct | app/gemini.py:31-65 | the result is `Corrected` of the input; once both passthrough checks pass a client exists, made with the configured key when there was none; otherwise the client is left as it was, and an existing one is never replaced |
| ModelGemini.Prompt | model/gemini.py:61-78 | the prompt is the instruction text, a line break, and the input as its last line |
| ModelGemini.CorrectionResult | model/gemini.py:40-102 | blank input and a missing key pass the input through; the result is always the input or a non-empty stripped string |
| ModelGemini.CorrectionResultFromReply | model/gemini.py:91-102 | a non-blank reply is returned stripped; an empty reply or an exception gives back the input |
| ModelGemini.CorrectWithGeminiAsWritten | model/gemini.py:50-55 | as written against the `config` package's settings, blank input passes through and any other input raises the missing-attribute error |
| ModelGemini.MissingAttribute | model/gemini.py:53 | the message of the `AttributeError` a settings object raises for an attribute it does not define |
| ModelGemini.AsWrittenRaises | model/gemini.py:53 | for the input "a" the code as written raises, where the corrected function returns a string |
| ModelGemini.ClientSlot.constructor | model/gemini.py:13-14 | the slot starts empty |
| ModelGemini.ClientSlot.GetGeminiClient | model/gemini.py:17-37 | the cached client is returned when there is one; otherwise one is made with the key and cached, at most one ever |
| ModelGemini.ClientSlot.CorrectWithGemini | model/gemini.py:40-102 | the result is `CorrectionResult` of the input; once both passthrough checks pass a client exists, made with the key when there was none; otherwise the slot is left as it was, and an existing client is never replaced |
| GoogleSpeech.LanguageTag | app/google_speech.py:49-53 | "ja" is sent as "ja-JP", "en" as "en-US", any other code unchanged |
| GoogleSpeech.TranscriptOf | app/google_speech.py:55-63 | a recognised text is returned stripped; "not understood" and a request failure both give `""` |
| GoogleSpeech.GoogleSpeechTranscriber.constructor | app/google_speech.py:17-19 | a new transcriber has no recogniser |
| GoogleSpeech.Recognizer.constructor | app/google_speech.py:30 | `sr.Recognizer()`: an opaque recogniser object, made by `GetRecognizer` at most once |
| GoogleSpeech.GoogleSpeechTranscriber.GetRecognizer | app/google_speech.py:25-32 | the recogniser is created on the first call and reused afterwards, at most one ever |
| GoogleSpeech.GoogleSpeechTranscriber.Load | app/google_speech.py:21-23 | after `load` a recogniser exists, and an existing one is kept |
| GoogleSpeech.GoogleSpeechTranscriber.Transcribe | app/google_speech.py:34-63 | one request with the configured rate and the locale tag of the configured language, whose outcome gives the transcript |
| AppConfig.ValidateModel | app/config.py:47-53 | a model name is accepted, unchanged, exactly when it is one of the five names; otherwise the error message lists them |
| AppConfig.Violations | app/config.py:16-40 | the error names a field exactly when its bound is broken, and is empty exactly when every bound holds |
| AppConfig.WellFormed | app/config.py:16-40 | the pydantic bounds: rate in 8000..48000, minimum duration at least 0.1, timeout in 1..30, and a model name the validator accepts; tied to construction by `Validate` |
| AppConfig.Getenv | app/config.py:27-34 | `os.getenv(name, default)`: the environment's value when the variable is set, otherwise the default; used by `Default` and `DefaultEnabledIffKeySet` |
| AppConfig.Validate | app/config.py:13-40 | construction succeeds, returning the configuration, exactly when every bound holds |
| AppConfig.DefaultsAreValid | app/config.py:15-40 | the defaults (16000 Hz, "medium", "ja", 0.3 s, timeout 5) pass validation whatever the environment holds |
| AppConfig.DefaultEnabledIffKeySet | app/config.py:27-45 | with the defaults, correction is enabled exactly when `GEMINI_API_KEY` is set and non-empty |
| AppConfig.Default | app/config.py:15-40 | `AppConfig()` with every field at its default, the two Gemini fields read from the environment; proved valid by `DefaultsAreValid` |
| AppConfig.GeminiEnabled | app/config.py:42-45 | correction is on exactly when the key is non-empty |
| Settings.ValidateModel | config/settings.py:16-22 | a model name is accepted, unchanged, exactly when it is one of the five names |
| Settings.Violations | config/settings.py:10-14 | the error names a field exactly when its bound is broken, and is empty exactly when every bound holds |
| Settings.WellFormed | config/settings.py:10-22 | the pydantic bounds: rate in 8000..48000, minimum duration at least 0.1, and a model name the validator accepts; tied to construction by `Validate` |
| Settings.Validate | config/settings.py:8-22 | construction succeeds exactly when every bound holds |
| Settings.DefaultsAreValid | config/settings.py:10-14 | the defaults (16000 Hz, "base", "ja", 0.3 s) pass validation |
| MainScript.TakesAtMinimum | main.py:33-37 | at 16000 Hz with a 0.3 s minimum, 8000 samples are dispatched and 4000 are dropped |
| MainScript.WhisperModel.constructor | main.py:104-108 | a model keeps its name, device and compute type |
| MainScript.ModelSlot.constructor | main.py:94-95 | no model is loaded at first |
| MainScript.ModelSlot.GetModel | main.py:97-110 | the first call loads "base" for the CPU with int8 weights; every later call returns that same model, and at most one is loaded |

## Left out

- Threads and locks. Everything is modelled sequentially, and a worker started by `stop_recording` is a `Dispatch` effect. This also leaves out:
  - the double-checked locking of the lazy clients and the model;
  - the read of `audio_chunks` outside the lock in app/engine.py:170-175.
- Audio capture. The stream is a `streaming` flag, and the callback is `OnAudio` appending a chunk. The aliasing of the list handed to `create_audio_stream` in core/engine.py:46 is not modelled; the engine's own field takes its place.
- Keyboard and text injection.
  - pynput is reduced to `OnPress` and `OnRelease` on a `Key` value.
  - CoreGraphics event posting becomes `KeyDown`/`KeyUp` effects.
  - The pbcopy and Cmd+V sequence of main.py:213-231 and core/text_input.py is one `Paste` effect.
  - Exceptions from injection are not modelled.
- Sounds. afplay is kept only as a `Sound` effect with its name.
- Printing and the `time.sleep` delays, including the two-second hold of the error status.
- Sample values and conversions.
  - Samples are reals whose values are never inspected.
  - The float32 to int16 PCM conversion is not modelled.
  - The request parameters `temperature`, `max_output_tokens`, `beam_size` and `vad_filter` are not modelled.
- Durations use exact real arithmetic rather than float division.
- CSV text syntax. Quoting and line splitting are not modelled: a file is a sequence of records, each a field list or a record the reader fails on. A missing file is `None`. `mkdir` is not modelled.
- Failures to construct the Gemini client, the recogniser or the Whisper model are not modelled. `GetClient`, `GetGeminiClient`, `GetRecognizer` and `GetModel` always succeed.
- The menu-bar app, the settings dialog and the rest of the GUI are not modelled. Status updates are `Show` effects.
- Gemini.Prompt: the template is a parameter. app/config.py defines no `gemini_prompt`, although app/gemini.py:45 reads it and the settings dialog app/settings.py uses it. With the config shown, that read raises inside the `try`, and `correct` returns its input.
- ModelGemini.Prompt: the fixed Japanese instruction text of model/gemini.py:61-78 is the `instructions` parameter. It is not reproduced.
- Pipeline.CoreWorker: the key, model and instructions of the `core` engine's correction are parameters, because the `config` package's settings define none of them (see Findings).
- GoogleSpeech.TranscriptOf: only the two exceptions the code catches are modelled. Any other exception from the recogniser is not.
- The Whisper wrappers app/whisper.py and model/whisper.py are not part of this model. Their outcome is the `Heard` or `Decoded` parameter.

## Findings

| source | as written | input that shows it | evidently intended | confidence | as-written member | corrected member |
|---|---|---|---|---|---|---|
| core/engine.py:95 | reads `config.gemini_enabled`, which the `AppConfig` of config/settings.py does not define; the `AttributeError` is caught by the worker's `except` | a take that decodes to the segment "hello", with an app attached | correct only when a key is set and the text is non-empty, then paste the text | not executed | Pipeline.CoreAsWrittenNeverPastes | Pipeline.CoreWorkerTypes |
| model/gemini.py:53 | reads `config.gemini_api_key`, which config/settings.py does not define, before the `try`, so the exception reaches the caller | the text "a" | pass the input through without a key, otherwise return the reply or the input | not executed | ModelGemini.AsWrittenRaises | ModelGemini.CorrectionResult |
