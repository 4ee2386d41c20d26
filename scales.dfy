/** Scales of docs/GMC_Audio.js: just-intonation and equal-tempered note
    lists, the Scale object that keeps its notes in step with its base, and
    the random note pick. Tone.js's `Tone.Frequency(midi, 'midi')` is an
    uninterpreted parameter `toneFrequency`. */
module Scales {
  import opened Wrappers

  /** A frequency label, `note + 'hz'`; number formatting is not modelled. */
  datatype NoteLabel = Hz(frequency: real)

  /** `JustRatios['slendro']` and `JustRatios['mP']`. */
  const Slendro: seq<real> := [1.0, 1.3125, 1.5, 1.75, 1.875, 2.0]
  const MinorPentatonic: seq<real> := [1.0, 32.0 / 27.0, 4.0 / 3.0, 3.0 / 2.0, 16.0 / 9.0, 2.0]

  /** `ETRelatives['M']` and `ETRelatives['MP']`, in semitones. */
  const Major: seq<real> := [0.0, 2.0, 4.0, 5.0, 7.0, 9.0, 11.0, 12.0]
  const MajorPentatonic: seq<real> := [0.0, 2.0, 4.0, 7.0, 9.0]

  /** The default base frequency, 440 Hz. */
  const DefaultBase: real := 440.0

  /** `ratios.map(ratio => ratio * base_frequency)`. */
  function JustScale(ratios: seq<real>, base: real): (notes: seq<real>)
    ensures |notes| == |ratios|
    ensures forall i :: 0 <= i < |ratios| ==> notes[i] == ratios[i] * base
  {
    if ratios == [] then [] else [ratios[0] * base] + JustScale(ratios[1..], base)
  }

  predicate Increasing(xs: seq<real>) {
    forall i, j :: 0 <= i < j < |xs| ==> xs[i] < xs[j]
  }

  /** With a positive base, increasing ratios give increasing frequencies. */
  lemma JustScaleIncreasing(ratios: seq<real>, base: real)
    requires Increasing(ratios) && 0.0 < base
    ensures Increasing(JustScale(ratios, base))
  {
    ScaledIncreasing(ratios, base, JustScale(ratios, base));
  }

  /** Any pointwise scaling of increasing values by a positive factor is increasing. */
  lemma ScaledIncreasing(ratios: seq<real>, base: real, notes: seq<real>)
    requires Increasing(ratios) && 0.0 < base && |notes| == |ratios|
    requires forall i :: 0 <= i < |notes| ==> notes[i] == ratios[i] * base
    ensures Increasing(notes)
  {
    forall i, j | 0 <= i < j < |notes| ensures notes[i] < notes[j] {
      assert notes[j] - notes[i] == (ratios[j] - ratios[i]) * base;
    }
  }

  /** Consecutive increase is enough for increase. */
  lemma {:induction false} IncreasingFromSteps(xs: seq<real>)
    requires forall i :: 0 <= i < |xs| - 1 ==> xs[i] < xs[i + 1]
    ensures Increasing(xs)
  {
    if |xs| > 1 {
      var init := xs[..|xs| - 1];
      IncreasingFromSteps(init);
      forall i, j | 0 <= i < j < |xs| ensures xs[i] < xs[j] {
        if j < |xs| - 1 {
          assert xs[i] == init[i] && xs[j] == init[j];
        } else if i < j - 1 {
          assert xs[i] == init[i] && xs[j - 1] == init[j - 1];
        }
      }
    }
  }

  /** The built-in just scales rise from the base to the octave above it. */
  lemma JustScalesSpanOctave(base: real)
    requires 0.0 < base
    ensures Increasing(JustScale(Slendro, base)) && Increasing(JustScale(MinorPentatonic, base))
    ensures JustScale(Slendro, base)[0] == base && JustScale(Slendro, base)[5] == 2.0 * base
    ensures JustScale(MinorPentatonic, base)[0] == base && JustScale(MinorPentatonic, base)[5] == 2.0 * base
  {
    IncreasingFromSteps(Slendro);
    IncreasingFromSteps(MinorPentatonic);
    JustScaleIncreasing(Slendro, base);
    JustScaleIncreasing(MinorPentatonic, base);
    var slendro, minor := JustScale(Slendro, base), JustScale(MinorPentatonic, base);
    assert slendro[0] == Slendro[0] * base && slendro[5] == Slendro[5] * base;
    assert minor[0] == MinorPentatonic[0] * base && minor[5] == MinorPentatonic[5] * base;
  }


  /** `delta_midis.map(d => Tone.Frequency(d + base_midi_note, 'midi'))`. */
  function ETScale(deltaMidis: seq<real>, baseMidi: real, toneFrequency: real -> real): (notes: seq<real>)
    ensures |notes| == |deltaMidis|
    ensures forall i :: 0 <= i < |deltaMidis| ==> notes[i] == toneFrequency(deltaMidis[i] + baseMidi)
  {
    if deltaMidis == [] then []
    else [toneFrequency(deltaMidis[0] + baseMidi)] + ETScale(deltaMidis[1..], baseMidi, toneFrequency)
  }

  /** The built-in equal-tempered scales start on the base midi note, and
      the major scale ends twelve semitones, an octave, above it. */
  lemma ETScalesFromBase(baseMidi: real, toneFrequency: real -> real)
    ensures |ETScale(Major, baseMidi, toneFrequency)| == 8
    ensures |ETScale(MajorPentatonic, baseMidi, toneFrequency)| == 5
    ensures ETScale(Major, baseMidi, toneFrequency)[0] == toneFrequency(baseMidi)
    ensures ETScale(MajorPentatonic, baseMidi, toneFrequency)[0] == toneFrequency(baseMidi)
    ensures ETScale(Major, baseMidi, toneFrequency)[7] == toneFrequency(baseMidi + 12.0)
  {
    assert Major[0] + baseMidi == baseMidi && MajorPentatonic[0] + baseMidi == baseMidi;
    assert Major[7] + baseMidi == baseMidi + 12.0;
  }

  /** `notes.map(note => note + 'hz')`. */
  function Labels(notes: seq<real>): (labels: seq<NoteLabel>)
    ensures |labels| == |notes|
    ensures forall i :: 0 <= i < |notes| ==> labels[i].frequency == notes[i]
  {
    seq(|notes|, i requires 0 <= i < |notes| => Hz(notes[i]))
  }

  datatype ScaleError = ScaleTypeNotImplemented

  /** The switch of update_base on the scale type. */
  function ScaleNotes(scaleType: string, relatives: seq<real>, base: real, toneFrequency: real -> real)
    : (r: Result<seq<real>, ScaleError>)
    ensures r.Ok? <==> scaleType == "just" || scaleType == "et"
    ensures r.Ok? ==> |r.value| == |relatives|
    ensures scaleType == "just" ==> r.Ok? && forall i :: 0 <= i < |relatives| ==> r.value[i] == relatives[i] * base
  {
    match scaleType
    case "just" => Ok(JustScale(relatives, base))
    case "et" => Ok(ETScale(relatives, base, toneFrequency))
    case _ => Err(ScaleTypeNotImplemented)
  }

  /** An option value as passed in `opts`. */
  datatype OptionValue = Number(number: real) | Text(text: string) | Numbers(numbers: seq<real>)

  /** The own properties a Scale has when it copies options. */
  const OwnKeys: set<string> := {"base", "type", "relatives"}

  /** The documented kinds of the three keys a Scale takes from `opts`. */
  predicate WellTyped(opts: map<string, OptionValue>) {
    && ("base" in opts ==> opts["base"].Number?)
    && ("type" in opts ==> opts["type"].Text?)
    && ("relatives" in opts ==> opts["relatives"].Numbers?)
  }

  function OptionBase(opts: map<string, OptionValue>): real
    requires WellTyped(opts)
  {
    if "base" in opts then opts["base"].number else DefaultBase
  }

  function OptionType(opts: map<string, OptionValue>): string
    requires WellTyped(opts)
  {
    if "type" in opts then opts["type"].text else "just"
  }

  function OptionRelatives(opts: map<string, OptionValue>): seq<real>
    requires WellTyped(opts)
  {
    if "relatives" in opts then opts["relatives"].numbers else Slendro
  }

  /** Option copying depends only on the three own keys: other keys, such
      as the `polyphony` and `release` a Synth passes on, are ignored. */
  lemma OptionsIgnoreOtherKeys(opts: map<string, OptionValue>, key: string, v: OptionValue)
    requires WellTyped(opts) && key !in OwnKeys
    ensures WellTyped(opts[key := v])
    ensures OptionBase(opts[key := v]) == OptionBase(opts)
    ensures OptionType(opts[key := v]) == OptionType(opts)
    ensures OptionRelatives(opts[key := v]) == OptionRelatives(opts)
  {
  }

  /** The index `Math.floor(r * (len - 1))` that random_note reads, for `r`
      drawn by `Math.random()` from [0, 1). For two or more notes it never
      reaches the last one. */
  function RandomIndex(len: nat, r: real): (k: int)
    requires 0.0 <= r < 1.0
    ensures len >= 2 ==> 0 <= k <= len - 2
    ensures len == 1 ==> k == 0
    ensures len == 0 ==> -1 <= k <= 0
  {
    var m := len as real - 1.0;
    if len >= 2 then
      FractionBelow(r, m);
      assert 0.0 <= r * m;
      (r * m).Floor
    else
      (r * m).Floor
  }

  lemma FractionBelow(r: real, m: real)
    requires 0.0 <= r < 1.0 && 0.0 < m
    ensures r * m < m
  {
    assert (1.0 - r) * m > 0.0;
  }

  /** Every index below the last is picked for some `r`. */
  lemma RandomIndexReachable(len: nat, k: nat)
    requires len >= 2 && k <= len - 2
    ensures exists r :: 0.0 <= r < 1.0 && RandomIndex(len, r) == k
  {
    var n := len as real - 1.0;
    var r := k as real / n;
    assert r * n == k as real;
    assert r < 1.0 by {
      assert k as real < n;
    }
    assert RandomIndex(len, r) == k;
  }

  /** random_note: the note at RandomIndex, or undefined (None) when there
      is no note at that index. */
  function PickNote(notes: seq<real>, r: real): (note: Option<real>)
    requires 0.0 <= r < 1.0
    ensures note.None? <==> notes == []
    ensures note.Some? ==> exists k :: 0 <= k < |notes| && note.value == notes[k] && (k < |notes| - 1 || |notes| == 1)
  {
    var k := RandomIndex(|notes|, r);
    if 0 <= k < |notes| then Some(notes[k]) else None
  }

  /** A scale: its base, type and relatives, and the notes and labels that
      update_base derives from them. */
  class Scale {
    var base: real
    var scaleType: string
    var relatives: seq<real>
    var notes: seq<real>
    var notesStr: seq<NoteLabel>

    /** The type is one update_base knows (a constructed scale always has
        one), the notes were derived from the relatives, one per relative,
        and the labels from the notes. */
    ghost predicate Valid()
      reads this
    {
      && (scaleType == "just" || scaleType == "et")
      && |notes| == |relatives| && notesStr == Labels(notes)
    }

    /** The first part of the constructor: the defaults, overwritten by the
        option keys that are own properties at that point. */
    constructor FromOptions(opts: map<string, OptionValue>)
      requires WellTyped(opts)
      ensures base == OptionBase(opts) && scaleType == OptionType(opts)
      ensures relatives == OptionRelatives(opts)
      ensures notes == [] && notesStr == []
    {
      base, scaleType, relatives := DefaultBase, "just", Slendro;
      notes, notesStr := [], [];
      new;
      var keys := opts.Keys;
      while keys != {}
        invariant keys <= opts.Keys
        invariant base == if "base" in opts && "base" !in keys then opts["base"].number else DefaultBase
        invariant scaleType == if "type" in opts && "type" !in keys then opts["type"].text else "just"
        invariant relatives == if "relatives" in opts && "relatives" !in keys then opts["relatives"].numbers else Slendro
        invariant notes == [] && notesStr == []
        decreases keys
      {
        var key :| key in keys;
        if key == "base" {
          base := opts[key].number;
        } else if key == "type" {
          scaleType := opts[key].text;
        } else if key == "relatives" {
          relatives := opts[key].numbers;
        }
        keys := keys - {key};
      }
    }

    /** The whole constructor: option copying, then update_base on the
        resulting base, whose failure aborts the construction. */
    static method Create(opts: map<string, OptionValue>, toneFrequency: real -> real)
      returns (r: Result<Scale, ScaleError>)
      requires WellTyped(opts)
      ensures r.Ok? <==> OptionType(opts) == "just" || OptionType(opts) == "et"
      ensures r.Ok? ==> fresh(r.value) && r.value.Valid()
      ensures r.Ok? ==> r.value.base == OptionBase(opts) && r.value.scaleType == OptionType(opts)
      ensures r.Ok? ==> r.value.relatives == OptionRelatives(opts)
      ensures r.Ok? ==>
        Ok(r.value.notes) == ScaleNotes(OptionType(opts), OptionRelatives(opts), OptionBase(opts), toneFrequency)
    {
      var scale := new Scale.FromOptions(opts);
      var notes := scale.UpdateBase(scale.base, toneFrequency);
      if notes.Err? {
        return Err(notes.error);
      }
      return Ok(scale);
    }

    /** Sets the base first, then recomputes the notes for the scale type and
        their labels; an unknown type fails after the base has been set,
        leaving the notes and labels as they were. */
    method UpdateBase(baseFrequency: real, toneFrequency: real -> real)
      returns (r: Result<seq<real>, ScaleError>)
      modifies this
      ensures base == baseFrequency
      ensures scaleType == old(scaleType) && relatives == old(relatives)
      ensures r == ScaleNotes(scaleType, relatives, baseFrequency, toneFrequency)
      ensures r.Ok? ==> notes == r.value && notesStr == Labels(notes)
      ensures r.Err? ==> notes == old(notes) && notesStr == old(notesStr)
      ensures old(Valid()) ==> r.Ok?
      ensures r.Ok? ==> Valid()
    {
      base := baseFrequency;
      if scaleType == "just" {
        notes := JustScale(relatives, base);
      } else if scaleType == "et" {
        notes := ETScale(relatives, base, toneFrequency);
      } else {
        return Err(ScaleTypeNotImplemented);
      }
      notesStr := Labels(notes);
      return Ok(notes);
    }

    /** random_note on the current notes. */
    function RandomNote(r: real): (note: Option<real>)
      reads this
      requires 0.0 <= r < 1.0
      ensures note.Some? ==> note.value in notes
    {
      PickNote(notes, r)
    }
  }
}
