/** The settings of the single-file `main.py` tool and its lazily loaded
    Whisper model. */
module MainScript {
  import opened Capture
  import opened Pipeline

  const Hotkey: Key := RightCommand
  const SampleRate: nat := 16000
  const WhisperModelName: string := "base"
  const Language: string := "ja"
  const MinDuration: real := 0.3

  /** With these settings, half a second of audio is dispatched and a
      quarter second is dropped. */
  lemma TakesAtMinimum(a: Chunk, b: Chunk)
    requires |a| == 8000 && |b| == 4000
    ensures Decide([a], SampleRate, MinDuration) == Accepted(a)
    ensures Decide([b], SampleRate, MinDuration) == TooShort(b)
  {
    assert Flatten([a]) == a + Flatten([]);
    assert Flatten([b]) == b + Flatten([]);
  }

  /** A loaded `faster_whisper.WhisperModel`. */
  class WhisperModel {
    const name: string
    const device: string
    const computeType: string

    constructor (name: string, device: string, computeType: string)
      ensures this.name == name && this.device == device && this.computeType == computeType
    {
      this.name := name;
      this.device := device;
      this.computeType := computeType;
    }
  }

  /** The module-level `_model` slot. */
  class ModelSlot {
    var model: WhisperModel?
    /** How many models have been loaded. */
    ghost var loads: nat

    /** At most one model is ever loaded, and the slot holds it. */
    ghost predicate Valid()
      reads this
    {
      loads <= 1 && (model == null <==> loads == 0)
    }

    constructor ()
      ensures Valid() && model == null
    {
      model := null;
      loads := 0;
    }

    /** `get_model`: loads the configured model for the CPU with 8-bit
        weights on the first call, and returns that same model on every
        later call. */
    method GetModel() returns (m: WhisperModel)
      requires Valid()
      modifies this
      ensures Valid() && model == m
      ensures old(model) != null ==> m == old(model) && loads == old(loads)
      ensures old(model) == null ==> fresh(m) && loads == 1
      ensures old(model) == null ==> m.name == WhisperModelName && m.device == "cpu" && m.computeType == "int8"
    {
      if model == null {
        model := new WhisperModel(WhisperModelName, "cpu", "int8");
        loads := loads + 1;
      }
      m := model;
    }
  }
}
