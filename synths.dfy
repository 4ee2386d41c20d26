/** The Synth and GMCSynth objects of docs/GMC_Audio.js, without Tone.js: a
    Synth keeps a Scale and turns a mask of note states into the list of
    frequency labels it plays; a GMCSynth keeps the note states. The Tone.js
    PolySynth and its `triggerAttackRelease` call are not modelled: play
    returns the list it would hand to it. */
module Synths {
  import opened Wrappers
  import opened Scales

  /** The argument of play: an array of note states, a single number (as
      play_random passes) or undefined. */
  datatype ScaleState = States(states: seq<bool>) | Scalar(value: real) | Undefined

  datatype PlayError =
    | LengthMismatch  // "scale_state_array length must be equal to the current scale length"
    | NotAnObject     // reading `hasOwnProperty` of undefined

  /** The elements of `xs` whose mask entry is true, in index order. */
  function Masked<T>(xs: seq<T>, mask: seq<bool>): seq<T>
    requires |xs| == |mask|
  {
    if xs == [] then []
    else Masked(xs[..|xs| - 1], mask[..|mask| - 1]) + (if mask[|mask| - 1] then [xs[|xs| - 1]] else [])
  }

  /** The indices whose mask entry is true, in increasing order. */
  function TrueIndices(mask: seq<bool>): (idx: seq<nat>)
    ensures forall k :: 0 <= k < |idx| ==> idx[k] < |mask|
  {
    if mask == [] then []
    else TrueIndices(mask[..|mask| - 1]) + (if mask[|mask| - 1] then [|mask| - 1] else [])
  }

  /** TrueIndices lists exactly the true positions, each once and in
      increasing order. */
  lemma {:induction false} TrueIndicesExact(mask: seq<bool>)
    ensures forall i :: i in TrueIndices(mask) <==> 0 <= i < |mask| && mask[i]
    ensures forall k, l :: 0 <= k < l < |TrueIndices(mask)| ==> TrueIndices(mask)[k] < TrueIndices(mask)[l]
  {
    if mask != [] {
      var init := mask[..|mask| - 1];
      TrueIndicesExact(init);
      assert forall i :: 0 <= i < |init| ==> init[i] == mask[i];
    }
  }

  /** The masked list is `xs` read at TrueIndices: element `k` is `xs[i]`
      for the `k`-th true position `i`; it is no longer than `xs`. */
  lemma {:induction false} MaskedAtTrueIndices<T>(xs: seq<T>, mask: seq<bool>)
    requires |xs| == |mask|
    ensures |Masked(xs, mask)| == |TrueIndices(mask)| <= |xs|
    ensures forall k :: 0 <= k < |Masked(xs, mask)| ==> Masked(xs, mask)[k] == xs[TrueIndices(mask)[k]]
  {
    if xs != [] {
      var n := |xs| - 1;
      MaskedAtTrueIndices(xs[..n], mask[..n]);
      assert forall i :: 0 <= i < n ==> xs[..n][i] == xs[i];
    }
  }

  /** A synthesizer playing the notes of its scale. */
  class Synth {
    var scale: Scale

    /** Only the assignment `this.scale = new Scale(opts)` of the constructor. */
    constructor (scale: Scale)
      ensures this.scale == scale
    {
      this.scale := scale;
    }

    /** Fails unless the argument is an array as long as the scale;
        otherwise plays the labels of the notes whose state is true, in
        index order. */
    method Play(state: ScaleState) returns (r: Result<seq<NoteLabel>, PlayError>)
      requires scale.Valid()
      ensures r.Ok? <==> state.States? && |state.states| == |scale.notes|
      ensures state.Undefined? ==> r == Err(NotAnObject)
      ensures r.Ok? ==> r.value == Masked(scale.notesStr, state.states)
    {
      if state.Undefined? {
        return Err(NotAnObject);
      }
      if !(state.States? && |state.states| == |scale.notes|) {
        return Err(LengthMismatch);
      }
      var mask := state.states;
      var frequencies := [];
      for i := 0 to |mask|
        invariant frequencies == Masked(scale.notesStr[..i], mask[..i])
      {
        assert scale.notesStr[..i + 1][..i] == scale.notesStr[..i];
        assert mask[..i + 1][..i] == mask[..i];
        if mask[i] {
          frequencies := frequencies + [scale.notesStr[i]];
        }
      }
      assert scale.notesStr[..|mask|] == scale.notesStr && mask[..|mask|] == mask;
      return Ok(frequencies);
    }

    /** play_random as written: it passes the random note, a number, where
        play expects an array, so it always fails. */
    method PlayRandom(r: real) returns (res: Result<seq<NoteLabel>, PlayError>)
      requires 0.0 <= r < 1.0 && scale.Valid()
      ensures res.Err?
    {
      var note := scale.RandomNote(r);
      if note.Some? {
        res := Play(Scalar(note.value));
      } else {
        res := Play(Undefined);
      }
    }

    /** play_random as intended: plays the label of one random note of the
        scale, none when the scale is empty. */
    method PlayRandomNote(r: real) returns (played: Option<NoteLabel>)
      requires 0.0 <= r < 1.0 && scale.Valid()
      ensures played.Some? <==> scale.notes != []
      ensures played.Some? ==> played.value in scale.notesStr
    {
      var note := scale.RandomNote(r);
      if note.None? {
        return None;
      }
      var k :| 0 <= k < |scale.notes| && scale.notes[k] == note.value;
      assert scale.notesStr[k] == Hz(note.value);
      return Some(Hz(note.value));
    }
  }

  /** JavaScript's `Array.prototype.fill(v, start, end)` on a sequence:
      negative positions count from the end and both are clamped. */
  function Fill<T>(a: seq<T>, v: T, start: int, end: int): seq<T> {
    var lo, hi := Position(start, |a|), Position(end, |a|);
    seq(|a|, i requires 0 <= i < |a| => if lo <= i < hi then v else a[i])
  }

  function Position(k: int, len: nat): nat {
    if k < 0 then (if len + k < 0 then 0 else len + k) else (if k < len then k else len)
  }

  /** `new Array(n).fill(false).fill(true, 0, 1)`: only the first note is
      included, and there is no state at all for an empty scale. */
  function InitialNoteStates(n: nat): (states: seq<bool>)
    ensures |states| == n
    ensures forall i :: 0 <= i < n ==> (states[i] <==> i == 0)
  {
    Fill(Fill(seq(n, _ => false), false, 0, n), true, 0, 1)
  }

  /** `GMCSynth.default_opts`. */
  const DefaultOpts: map<string, OptionValue> := map["base" := Number(DefaultBase)]

  /** A synthesizer node's audio player: the instrument and which of its
      notes a trigger plays. */
  class GMCSynth {
    var currentOps: map<string, OptionValue>
    var instrument: Synth
    var noteStates: seq<bool>

    /** One state per note of the instrument's scale. */
    ghost predicate Valid()
      reads this, instrument, instrument.scale
    {
      instrument.scale.Valid() && |noteStates| == |instrument.scale.notes|
    }

    /** The options are the defaults overridden by `opts`; the instrument
        built from `opts` is passed in, as its constructor is Tone.js glue. */
    constructor (opts: map<string, OptionValue>, instrument: Synth)
      requires instrument.scale.Valid()
      ensures currentOps == DefaultOpts + opts && this.instrument == instrument
      ensures noteStates == InitialNoteStates(|instrument.scale.notes|)
      ensures Valid()
    {
      currentOps := DefaultOpts + opts;
      this.instrument := instrument;
      noteStates := InitialNoteStates(|instrument.scale.notes|);
    }

    /** Writes the state only for an index below the length; any other index
        (a negative one becomes a non-element property in JavaScript) leaves
        every state as it was. */
    method UpdateNoteInclusion(index: int, state: bool)
      modifies this`noteStates
      ensures noteStates == if 0 <= index < |old(noteStates)| then old(noteStates)[index := state] else old(noteStates)
      ensures old(Valid()) ==> Valid()
    {
      if index < |noteStates| {
        if 0 <= index {
          noteStates := noteStates[index := state];
        }
      }
    }

    /** The notes_str getter: the labels of the instrument's current notes,
        the same list the scale keeps. */
    function NotesStr(): (labels: seq<NoteLabel>)
      reads this, instrument, instrument.scale
      requires Valid()
      ensures labels == instrument.scale.notesStr
    {
      Labels(instrument.scale.notes)
    }

    /** trigger plays the instrument with the note states; as the states stay
        as long as the scale, it never fails. */
    method Trigger() returns (r: Result<seq<NoteLabel>, PlayError>)
      requires Valid()
      ensures r == Ok(Masked(instrument.scale.notesStr, noteStates))
    {
      r := instrument.Play(States(noteStates));
    }

    /** update_base on the instrument's scale: the base is set, the notes
        and labels are recomputed for it, and as the scale's type is one
        update_base knows, it never fails and one state per note remains. */
    method UpdateBase(frequency: real, toneFrequency: real -> real) returns (r: Result<seq<real>, ScaleError>)
      requires Valid()
      modifies instrument.scale
      ensures r.Ok?
      ensures r == ScaleNotes(instrument.scale.scaleType, instrument.scale.relatives, frequency, toneFrequency)
      ensures instrument.scale.base == frequency
      ensures instrument.scale.scaleType == old(instrument.scale.scaleType)
      ensures instrument.scale.relatives == old(instrument.scale.relatives)
      ensures instrument.scale.notes == r.value && instrument.scale.notesStr == Labels(r.value)
      ensures Valid()
    {
      r := instrument.scale.UpdateBase(frequency, toneFrequency);
    }

    /** random as written: it calls play_random, which always fails. */
    method Random(r: real) returns (res: Result<seq<NoteLabel>, PlayError>)
      requires 0.0 <= r < 1.0 && Valid()
      ensures res.Err?
    {
      res := instrument.PlayRandom(r);
    }

    /** random through the corrected play_random: one random note of the
        instrument's scale, none when the scale is empty. */
    method RandomNote(r: real) returns (played: Option<NoteLabel>)
      requires 0.0 <= r < 1.0 && Valid()
      ensures played.Some? <==> instrument.scale.notes != []
      ensures played.Some? ==> played.value in NotesStr()
    {
      played := instrument.PlayRandomNote(r);
    }
  }
}
