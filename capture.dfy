/** What the audio stream and the keyboard listener hand to the engine:
    chunks of samples and key identities. */
module Capture {

  /** One sample as the input stream delivers it (mono float32). The model
      never looks at sample values, only at how many there are and in
      what order they arrived. */
  type Sample = real

  /** One block of samples delivered by one audio callback. */
  type Chunk = seq<Sample>

  /** A key as the keyboard listener reports it. */
  datatype Key = Key(name: string)

  /** `Key.cmd_r`, the right Command key. */
  const RightCommand: Key := Key("cmd_r")

  /** `np.concatenate(chunks).flatten()`: the chunks' samples, one chunk
      after the other. */
  function Flatten(chunks: seq<Chunk>): seq<Sample> {
    if chunks == [] then [] else chunks[0] + Flatten(chunks[1..])
  }

  /** Appending a chunk appends its samples at the end of the audio. */
  lemma {:induction false} FlattenAppend(chunks: seq<Chunk>, c: Chunk)
    ensures Flatten(chunks + [c]) == Flatten(chunks) + c
  {
    if chunks == [] {
      assert [] + [c] == [c];
    } else {
      FlattenAppend(chunks[1..], c);
      assert (chunks + [c])[1..] == chunks[1..] + [c];
    }
  }

  /** The total number of samples in the chunks. */
  function SampleCount(chunks: seq<Chunk>): nat {
    if chunks == [] then 0 else |chunks[0]| + SampleCount(chunks[1..])
  }

  /** Concatenation keeps every sample: its length is the chunks' total. */
  lemma {:induction false} FlattenLength(chunks: seq<Chunk>)
    ensures |Flatten(chunks)| == SampleCount(chunks)
  {
    if chunks != [] { FlattenLength(chunks[1..]); }
  }

  /** `len(audio) / sample_rate < min_duration`, with the duration taken
      exactly. */
  predicate ShorterThan(samples: nat, rate: nat, minDuration: real)
    requires rate > 0
  {
    (samples as real) / (rate as real) < minDuration
  }

  /** The duration test without a division: a take is too short exactly
      when it has fewer than `minDuration * rate` samples. */
  lemma ShorterThanBySamples(samples: nat, rate: nat, minDuration: real)
    requires rate > 0
    ensures ShorterThan(samples, rate, minDuration) <==> (samples as real) < minDuration * (rate as real)
  {
    var d := (samples as real) / (rate as real);
    assert d * (rate as real) == samples as real;
    if d < minDuration {
      assert d * (rate as real) < minDuration * (rate as real);
    } else {
      assert d * (rate as real) >= minDuration * (rate as real);
    }
  }
}
