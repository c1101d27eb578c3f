/** The MIDI helper of the hand-gesture music tool: note names to MIDI numbers, a
    comma-separated rhythm to note lengths in beats, and a preset (tempo, rhythm,
    notes) to a list of timed note_on/note_off messages. Times are exact reals. */
module Midi {
  import opened Common
  import Emotion

  /** The twelve pitch names of an octave, in semitone order. */
  const PitchNames: seq<string> := ["C", "C#", "D", "D#", "E", "F", "F#", "G", "G#", "A", "A#", "B"]

  function PitchIndex(p: string): (k: nat)
    requires p in PitchNames
    ensures k < |PitchNames| && PitchNames[k] == p
  {
    if PitchNames[0] == p then 0 else if PitchNames[1] == p then 1
    else if PitchNames[2] == p then 2 else if PitchNames[3] == p then 3
    else if PitchNames[4] == p then 4 else if PitchNames[5] == p then 5
    else if PitchNames[6] == p then 6 else if PitchNames[7] == p then 7
    else if PitchNames[8] == p then 8 else if PitchNames[9] == p then 9
    else if PitchNames[10] == p then 10 else 11
  }

  /** The key of `NOTE_TO_MIDI` for semitone `k` of octave `o`, e.g. "C#3". */
  function NoteName(o: nat, k: nat): string
    requires o < 5 && k < 12
  {
    PitchNames[k] + [('0' as int + o) as char]
  }

  datatype NoteResult = Note(number: int) | BadNote

  /** `note_name_to_number`: the entries of `NOTE_TO_MIDI` are exactly the names
      "C0" … "B4", and each maps to 12·(octave+1) plus its semitone; any other name
      raises `ValueError` (`BadNote`). */
  function NoteNameToNumber(name: string): (r: NoteResult)
    ensures r.Note? ==> 12 <= r.number <= 71
  {
    if |name| < 2 then BadNote
    else
      var d := name[|name| - 1];
      var p := name[..|name| - 1];
      if '0' <= d <= '4' && p in PitchNames then Note(12 * (d as int - '0' as int + 1) + PitchIndex(p))
      else BadNote
  }

  /** Each pitch name is found at its own position. */
  lemma PitchIndexOf(k: nat)
    requires k < 12
    ensures PitchIndex(PitchNames[k]) == k
  {
    if k == 0 {} else if k == 1 {} else if k == 2 {} else if k == 3 {}
    else if k == 4 {} else if k == 5 {} else if k == 6 {} else if k == 7 {}
    else if k == 8 {} else if k == 9 {} else if k == 10 {} else {}
  }

  /** Every table entry has the number of its octave and semitone. */
  lemma NoteTableEntries(o: nat, k: nat)
    requires o < 5 && k < 12
    ensures NoteNameToNumber(NoteName(o, k)) == Note(12 * (o + 1) + k)
  {
    var n := NoteName(o, k);
    assert n[..|n| - 1] == PitchNames[k];
    assert n[|n| - 1] == ('0' as int + o) as char;
    PitchIndexOf(k);
  }

  /** Only table entries are accepted. */
  lemma NoteTableOnly(name: string) returns (o: nat, k: nat)
    requires NoteNameToNumber(name).Note?
    ensures o < 5 && k < 12 && name == NoteName(o, k)
  {
    var p := name[..|name| - 1];
    var c := name[|name| - 1];
    o := c as int - '0' as int;
    k := PitchIndex(p);
    assert name == p + [c];
    assert PitchNames[k] == p;
    assert ('0' as int + o) as char == c;
  }

  /** Different names never share a number. */
  lemma NoteNumbersInjective(a: string, b: string)
    requires NoteNameToNumber(a).Note? && NoteNameToNumber(a) == NoteNameToNumber(b)
    ensures a == b
  {
    var pa, pb := a[..|a| - 1], b[..|b| - 1];
    var ka, kb := PitchIndex(pa), PitchIndex(pb);
    var oa, ob := a[|a| - 1] as int - '0' as int, b[|b| - 1] as int - '0' as int;
    assert 12 * (oa + 1) + ka == 12 * (ob + 1) + kb;
    assert oa == ob && ka == kb;
    assert a == pa + [a[|a| - 1]] && b == pb + [b[|b| - 1]];
  }

  /** Middle C and concert A. */
  lemma SomeNotes()
    ensures NoteNameToNumber("C4") == Note(60) && NoteNameToNumber("A4") == Note(69)
    ensures NoteNameToNumber("C0") == Note(12) && NoteNameToNumber("B4") == Note(71)
    ensures NoteNameToNumber("C5") == BadNote && NoteNameToNumber("Db3") == BadNote
  {
    assert "C4"[..1] == PitchNames[0];
    assert "A4"[..1] == PitchNames[9];
    assert "C0"[..1] == PitchNames[0];
    assert "B4"[..1] == PitchNames[11];
    assert "Db3"[..2] == "Db";
    assert "Db" !in PitchNames;
  }

  predicate IsDigit(c: char) {
    '0' <= c <= '9'
  }

  /** The digits of Python's `int()` literal: ASCII digits with single underscores
      between digits. */
  predicate IntBody(s: string) {
    && |s| >= 1 && IsDigit(s[0]) && IsDigit(s[|s| - 1])
    && (forall i :: 0 <= i < |s| ==> IsDigit(s[i]) || s[i] == '_')
    && (forall i :: 0 <= i < |s| - 1 ==> !(s[i] == '_' && s[i + 1] == '_'))
  }

  /** The value of the digits, ignoring the underscores. */
  function DigitsValue(s: string): nat {
    if s == [] then 0
    else if s[|s| - 1] == '_' then DigitsValue(s[..|s| - 1])
    else
      var c := s[|s| - 1] as int - '0' as int;
      DigitsValue(s[..|s| - 1]) * 10 + (if 0 <= c <= 9 then c else 0)
  }

  /** `int(s)` of a string without surrounding whitespace: an optional sign, then
      the digits; None is the `ValueError`. */
  function PyInt(s: string): Option<int> {
    if |s| >= 1 && (s[0] == '+' || s[0] == '-') then
      var v: int := DigitsValue(s[1..]);
      if IntBody(s[1..]) then Some(if s[0] == '-' then -v else v) else None
    else if IntBody(s) then Some(DigitsValue(s))
    else None
  }

  /** `int()` reads back the decimal rendering of a natural number. */
  lemma {:induction false} PyIntOfDecimal(n: nat)
    ensures PyInt(NatToString(n)) == Some(n)
  {
    var s := NatToString(n);
    assert IntBody(s);
    DecimalValue(n);
  }

  lemma {:induction false} DecimalValue(n: nat)
    ensures DigitsValue(NatToString(n)) == n
  {
    if n >= 10 {
      var s := NatToString(n);
      DecimalValue(n / 10);
      assert s[..|s| - 1] == NatToString(n / 10);
    }
  }

  /** The length in beats of one rhythm part: 4/d for an integer d > 0, else 1.0. */
  function LengthOf(part: string): real {
    var d := PyInt(Emotion.Strip(part));
    if d.Some? && d.value > 0 then 4.0 / (d.value as real) else 1.0
  }

  /** A string that neither starts nor ends with whitespace is its own strip. */
  lemma StripUnchanged(s: string)
    requires s != [] && !Emotion.IsPySpace(s[0]) && !Emotion.IsPySpace(s[|s| - 1])
    ensures Emotion.Strip(s) == s
  {
  }

  /** A decimal rendering of d > 0 is the whole-note fraction 4/d; "0" counts as
      one beat. */
  lemma LengthOfDecimal(d: nat)
    ensures LengthOf(NatToString(d)) == if d > 0 then 4.0 / (d as real) else 1.0
  {
    var s := NatToString(d);
    StripUnchanged(s);
    PyIntOfDecimal(d);
  }

  /** A negative part counts as one beat. */
  lemma LengthOfNegative(d: nat)
    ensures LengthOf("-" + NatToString(d)) == 1.0
  {
    var s := NatToString(d);
    var neg := "-" + s;
    assert neg[|neg| - 1] == s[|s| - 1];
    StripUnchanged(neg);
    assert neg[1..] == s;
    assert IntBody(s);
    var v: int := DigitsValue(s);
    assert PyInt(neg) == Some(-v);
  }

  /** A part with a fraction counts as one beat: `int("4.0")` raises. */
  lemma LengthOfFraction(d: nat)
    ensures LengthOf(NatToString(d) + ".0") == 1.0
  {
    var s := NatToString(d);
    var dot := s + ".0";
    assert dot[0] == s[0] && dot[|dot| - 1] == '0';
    StripUnchanged(dot);
    assert !IntBody(dot) by {
      assert dot[|s|] == '.';
    }
    assert PyInt(dot) == None;
  }

  /** Every length is positive and at most a whole note. */
  lemma LengthOfBounds(part: string)
    ensures 0.0 < LengthOf(part) <= 4.0
  {
    var p := PyInt(Emotion.Strip(part));
    if p.Some? && p.value > 0 {
      assert 4.0 / (p.value as real) <= 4.0;
    }
  }

  /** The lengths `parse_rhythm` gives for a pattern. */
  function Rhythm(pattern: Option<string>): (r: seq<real>)
    ensures |r| >= 1
  {
    if pattern.None? || pattern.value == [] then [1.0]
    else
      var parts := Split(pattern.value, ",");
      seq(|parts|, i requires 0 <= i < |parts| => LengthOf(parts[i]))
  }

  /** An empty or missing pattern is one beat; otherwise there is exactly one
      length per comma-separated part, each positive and at most a whole note. */
  lemma RhythmShape(pattern: Option<string>)
    ensures pattern.None? || pattern.value == [] ==> Rhythm(pattern) == [1.0]
    ensures pattern.Some? && pattern.value != [] ==>
      |Rhythm(pattern)| == |Split(pattern.value, ",")| &&
      forall i :: 0 <= i < |Rhythm(pattern)| ==> Rhythm(pattern)[i] == LengthOf(Split(pattern.value, ",")[i])
    ensures forall i :: 0 <= i < |Rhythm(pattern)| ==> 0.0 < Rhythm(pattern)[i] <= 4.0
  {
    var r := Rhythm(pattern);
    forall i | 0 <= i < |r| ensures 0.0 < r[i] <= 4.0 {
      if pattern.Some? && pattern.value != [] {
        LengthOfBounds(Split(pattern.value, ",")[i]);
      }
    }
  }

  /** `parse_rhythm(pattern)`: one length per comma-separated part. */
  method ParseRhythm(pattern: Option<string>) returns (lengths: seq<real>)
    ensures lengths == Rhythm(pattern)
    ensures pattern.Some? && pattern.value != [] ==> |lengths| == |Split(pattern.value, ",")|
  {
    if pattern.None? || pattern.value == [] {
      return [1.0];
    }
    var parts := Split(pattern.value, ",");
    lengths := [];
    for i := 0 to |parts|
      invariant lengths == seq(i, j requires 0 <= j < i => LengthOf(parts[j]))
    {
      lengths := lengths + [LengthOf(parts[i])];
    }
  }

  /** A pattern written as positive denominators reads back as their whole-note
      fractions. */
  lemma RhythmOfDenominators(ds: seq<nat>)
    requires |ds| >= 1 && forall i :: 0 <= i < |ds| ==> ds[i] > 0
    ensures var parts := seq(|ds|, i requires 0 <= i < |ds| => NatToString(ds[i]));
      Rhythm(Some(Join(parts, ","))) == seq(|ds|, i requires 0 <= i < |ds| => 4.0 / (ds[i] as real))
  {
    var parts := seq(|ds|, i requires 0 <= i < |ds| => NatToString(ds[i]));
    forall i | 0 <= i < |parts| ensures ',' !in parts[i] {
      assert forall k :: 0 <= k < |parts[i]| ==> IsDigit(parts[i][k]);
    }
    SplitJoin(parts, ",");
    assert Join(parts, ",") != [] by {
      assert |parts[0]| >= 1;
      JoinStartsWith(parts, ",");
    }
    forall i | 0 <= i < |ds| ensures LengthOf(parts[i]) == 4.0 / (ds[i] as real) {
      LengthOfDecimal(ds[i]);
    }
  }

  lemma JoinStartsWith(parts: seq<string>, sep: string)
    requires |parts| >= 1
    ensures |Join(parts, sep)| >= |parts[0]|
  {
  }

  datatype Kind = NoteOn | NoteOff

  /** `mido.Message(kind, note=…, velocity=…, time=…)` with the time in seconds. */
  datatype Msg = Msg(kind: Kind, note: int, velocity: int, time: real)

  /** The result of `note_name_to_number` for every name of the list. */
  function Numbers(notes: seq<string>): (ns: seq<NoteResult>)
    ensures |ns| == |notes|
  {
    seq(|notes|, i requires 0 <= i < |notes| => NoteNameToNumber(notes[i]))
  }

  /** The messages for the notes from position `i` on, given their looked-up
      numbers `ns`, starting at time `t`: a valid note gives its note_on at `t` and
      its note_off one duration later, where the next note starts; an invalid one
      is skipped without advancing time, but still uses up its rhythm slot
      `i mod |lengths|`. */
  function Emit(ns: seq<NoteResult>, i: nat, lengths: seq<real>, beat: real, t: real): (r: seq<Msg>)
    requires i <= |ns| && |lengths| > 0
    ensures |r| % 2 == 0 && |r| <= 2 * (|ns| - i)
    ensures forall k :: 0 <= k < |r| ==> r[k].velocity == 64
    decreases |ns| - i
  {
    if i == |ns| then []
    else
      var d := lengths[i % |lengths|] * beat;
      match ns[i]
      case BadNote => Emit(ns, i + 1, lengths, beat, t)
      case Note(n) => [Msg(NoteOn, n, 64, t), Msg(NoteOff, n, 64, t + d)] + Emit(ns, i + 1, lengths, beat, t + d)
  }

  /** The number of valid notes from position `i` on. */
  function ValidCount(ns: seq<NoteResult>, i: nat): nat
    requires i <= |ns|
    decreases |ns| - i
  {
    if i == |ns| then 0
    else (if ns[i].Note? then 1 else 0) + ValidCount(ns, i + 1)
  }

  /** Two messages per valid note. */
  lemma {:induction false} EmitCount(ns: seq<NoteResult>, i: nat, lengths: seq<real>, beat: real, t: real)
    requires i <= |ns| && |lengths| > 0
    ensures |Emit(ns, i, lengths, beat, t)| == 2 * ValidCount(ns, i)
    decreases |ns| - i
  {
    if i < |ns| {
      EmitCount(ns, i + 1, lengths, beat, t + lengths[i % |lengths|] * beat);
      EmitCount(ns, i + 1, lengths, beat, t);
    }
  }

  /** Pair `p` is a note_on followed by the note_off of the same note, both with
      velocity 64, for the note at some position `j >= i`, the note_off one
      duration of rhythm slot `j mod |lengths|` after the note_on. */
  predicate PairAt(e: seq<Msg>, p: nat, ns: seq<NoteResult>, i: nat, lengths: seq<real>, beat: real)
    requires |lengths| > 0
  {
    && 2 * p + 1 < |e|
    && e[2 * p].kind == NoteOn && e[2 * p + 1].kind == NoteOff
    && e[2 * p].note == e[2 * p + 1].note
    && e[2 * p].velocity == 64 && e[2 * p + 1].velocity == 64
    && exists j :: i <= j < |ns| && ns[j] == Note(e[2 * p].note)
                   && e[2 * p + 1].time == e[2 * p].time + lengths[j % |lengths|] * beat
  }

  /** The messages come in note_on/note_off pairs; the first starts at `t` and each
      pair starts where the previous note_off is. */
  lemma {:induction false} EmitPairs(ns: seq<NoteResult>, i: nat, lengths: seq<real>, beat: real, t: real)
    requires i <= |ns| && |lengths| > 0
    ensures var e := Emit(ns, i, lengths, beat, t);
      && |e| % 2 == 0
      && (|e| > 0 ==> e[0].time == t)
      && (forall p :: 0 <= p < |e| / 2 ==> PairAt(e, p, ns, i, lengths, beat))
      && (forall p :: 0 <= p < |e| / 2 - 1 ==> e[2 * p + 2].time == e[2 * p + 1].time)
    decreases |ns| - i
  {
    if i < |ns| {
      var d := lengths[i % |lengths|] * beat;
      match ns[i]
      case BadNote =>
        EmitPairs(ns, i + 1, lengths, beat, t);
        var e := Emit(ns, i + 1, lengths, beat, t);
        forall p | 0 <= p < |e| / 2 ensures PairAt(e, p, ns, i, lengths, beat) {
          assert PairAt(e, p, ns, i + 1, lengths, beat);
        }
      case Note(n) =>
        EmitPairs(ns, i + 1, lengths, beat, t + d);
        var rest := Emit(ns, i + 1, lengths, beat, t + d);
        var e := [Msg(NoteOn, n, 64, t), Msg(NoteOff, n, 64, t + d)] + rest;
        assert Emit(ns, i, lengths, beat, t) == e;
        assert |e| / 2 == |rest| / 2 + 1;
        forall p | 0 <= p < |e| / 2 ensures PairAt(e, p, ns, i, lengths, beat) {
          if p == 0 {
            assert ns[i] == Note(e[0].note);
          } else {
            assert e[2 * p] == rest[2 * (p - 1)] && e[2 * p + 1] == rest[2 * (p - 1) + 1];
            assert PairAt(rest, p - 1, ns, i + 1, lengths, beat);
          }
        }
        forall p | 0 <= p < |e| / 2 - 1 ensures e[2 * p + 2].time == e[2 * p + 1].time {
          if p > 0 {
            assert e[2 * p + 2] == rest[2 * (p - 1) + 2] && e[2 * p + 1] == rest[2 * (p - 1) + 1];
          }
        }
    }
  }

  /** A preset: each key may be missing. */
  datatype Preset = Preset(tempo: Option<real>, rhythm: Option<string>, notes: Option<seq<string>>)

  /** `preset.get(...)` with the defaults 120 bpm, "4,4,4,4" and a C major arpeggio. */
  function TempoOf(preset: Preset): real {
    if preset.tempo.Some? then preset.tempo.value else 120.0
  }

  function RhythmOf(preset: Preset): string {
    if preset.rhythm.Some? then preset.rhythm.value else "4,4,4,4"
  }

  function NotesOf(preset: Preset): seq<string> {
    if preset.notes.Some? then preset.notes.value else ["C3", "E3", "G3", "C4"]
  }

  /** The messages of `generate_midi_messages(preset)`, or None for the
      `ZeroDivisionError` of a zero tempo. */
  function Messages(preset: Preset): (r: Option<seq<Msg>>)
    ensures r.None? <==> TempoOf(preset) == 0.0
    ensures r.Some? ==> |r.value| % 2 == 0 && |r.value| <= 2 * |NotesOf(preset)|
  {
    if TempoOf(preset) == 0.0 then None
    else Some(Emit(Numbers(NotesOf(preset)), 0, Rhythm(Some(RhythmOf(preset))), 60.0 / TempoOf(preset), 0.0))
  }

  /** The loop of `generate_midi_messages`: two messages per valid name, the clock
      moving on by the note's duration. */
  method EmitAll(notes: seq<string>, lengths: seq<real>, beat: real) returns (messages: seq<Msg>)
    requires |lengths| > 0
    ensures messages == Emit(Numbers(notes), 0, lengths, beat, 0.0)
  {
    ghost var ns := Numbers(notes);
    messages := [];
    var current := 0.0;
    var patternLength := |lengths|;
    for i := 0 to |notes|
      invariant messages + Emit(ns, i, lengths, beat, current) == Emit(ns, 0, lengths, beat, 0.0)
    {
      var duration := lengths[i % patternLength] * beat;
      var number := NoteNameToNumber(notes[i]);
      assert ns[i] == number && duration == lengths[i % |lengths|] * beat;
      if number.Note? {
        var pair := [Msg(NoteOn, number.number, 64, current), Msg(NoteOff, number.number, 64, current + duration)];
        ghost var rest := Emit(ns, i + 1, lengths, beat, current + duration);
        assert Emit(ns, i, lengths, beat, current) == pair + rest;
        assert messages + (pair + rest) == (messages + pair) + rest;
        messages := messages + pair;
        current := current + duration;
      } else {
        assert Emit(ns, i, lengths, beat, current) == Emit(ns, i + 1, lengths, beat, current);
      }
    }
  }

  /** `generate_midi_messages(preset)`. */
  method GenerateMidiMessages(preset: Preset) returns (r: Option<seq<Msg>>)
    ensures r == Messages(preset)
  {
    var tempo := TempoOf(preset);
    var lengths := ParseRhythm(Some(RhythmOf(preset)));
    if tempo == 0.0 {
      return None;
    }
    var messages := EmitAll(NotesOf(preset), lengths, 60.0 / tempo);
    r := Some(messages);
  }

  /** With a non-zero tempo there are two messages per valid name, paired and back
      to back from time 0, each note lasting its rhythm slot's beats at 60/tempo
      seconds a beat; every sounded note is in the table's range. */
  lemma MessagesShape(preset: Preset)
    requires TempoOf(preset) != 0.0
    ensures var e := Messages(preset).value;
      var ns := Numbers(NotesOf(preset));
      var lengths := Rhythm(Some(RhythmOf(preset)));
      var beat := 60.0 / TempoOf(preset);
      && |e| == 2 * ValidCount(ns, 0)
      && (|e| > 0 ==> e[0].time == 0.0)
      && (forall p :: 0 <= p < |e| / 2 ==> PairAt(e, p, ns, 0, lengths, beat) && 12 <= e[2 * p].note <= 71)
      && (forall p :: 0 <= p < |e| / 2 - 1 ==> e[2 * p + 2].time == e[2 * p + 1].time)
  {
    var ns := Numbers(NotesOf(preset));
    var lengths := Rhythm(Some(RhythmOf(preset)));
    var beat := 60.0 / TempoOf(preset);
    EmitCount(ns, 0, lengths, beat, 0.0);
    EmitPairs(ns, 0, lengths, beat, 0.0);
    var e := Emit(ns, 0, lengths, beat, 0.0);
    forall p | 0 <= p < |e| / 2 ensures 12 <= e[2 * p].note <= 71 {
      assert PairAt(e, p, ns, 0, lengths, beat);
      var j :| 0 <= j < |ns| && ns[j] == Note(e[2 * p].note);
      assert ns[j] == NoteNameToNumber(NotesOf(preset)[j]);
    }
  }
}
