/**
  Tempo feedback (`_update_tempo` in OhmRGB/OhmModes.py): the song tempo is
  mapped affinely from [TEMPO_BOTTOM, TEMPO_TOP] onto [0, 127], truncated to an
  integer the way Python's `int()` does, and written to every tempo encoder.
  The tempo is an exact real here; the result is not clamped.
*/
module TempoSync {

  /** Tempo mapped to the top of the controller range (`TEMPO_TOP`). */
  const TempoTop: real := 200.0
  /** Tempo mapped to zero (`TEMPO_BOTTOM`). */
  const TempoBottom: real := 60.0
  /** Largest controller value, reached at `TempoTop`. */
  const ControllerMax: real := 127.0

  /** Python's `int()` on a number: truncation toward zero. */
  function Truncate(x: real): (r: int)
    ensures 0.0 <= x ==> r as real <= x < r as real + 1.0
    ensures x < 0.0 ==> r as real - 1.0 < x <= r as real
  {
    if x >= 0.0 then x.Floor else -((-x).Floor)
  }

  /** The controller value written for `tempo`:
      `int((tempo - TEMPO_BOTTOM) / (TEMPO_TOP - TEMPO_BOTTOM) * 127)`. */
  function Normalize(tempo: real): (v: int)
    // within the tempo range the value fits a 7-bit controller
    ensures TempoBottom <= tempo <= TempoTop ==> 0 <= v <= 127
    // below the range the value is never positive, above it never below 127
    ensures tempo < TempoBottom ==> v <= 0
    ensures TempoTop <= tempo ==> 127 <= v
    // the exact value: from the bottom of the range up, the last value whose
    // tempo is reached; below it, the first value whose tempo is not below
    ensures TempoBottom <= tempo ==> TempoFor(v) <= tempo < TempoFor(v + 1)
    ensures tempo < TempoBottom ==> TempoFor(v - 1) < tempo <= TempoFor(v)
  {
    var x := (tempo - TempoBottom) / (TempoTop - TempoBottom) * ControllerMax;
    assert tempo == TempoBottom + x * (TempoTop - TempoBottom) / ControllerMax;
    Truncate(x)
  }

  /** The tempo at which the controller value `v` is exactly reached. */
  function TempoFor(v: int): real {
    TempoBottom + v as real * (TempoTop - TempoBottom) / ControllerMax
  }

  /** Truncation toward zero never decreases as its argument grows. */
  lemma TruncateMonotone(x: real, y: real)
    requires x <= y
    ensures Truncate(x) <= Truncate(y)
  {
    if x < 0.0 && 0.0 <= y {
      assert Truncate(x) <= 0 <= Truncate(y);
    }
  }

  /** The controller value is non-decreasing in the tempo, over all tempos. */
  lemma NormalizeMonotone(t1: real, t2: real)
    requires t1 <= t2
    ensures Normalize(t1) <= Normalize(t2)
  {
    var a := (t1 - TempoBottom) / (TempoTop - TempoBottom) * ControllerMax;
    var b := (t2 - TempoBottom) / (TempoTop - TempoBottom) * ControllerMax;
    assert a <= b;
    TruncateMonotone(a, b);
  }

  /** Every integer controller value is hit exactly at its own tempo. */
  lemma NormalizeTempoFor(v: int)
    ensures Normalize(TempoFor(v)) == v
  {
    var x := (TempoFor(v) - TempoBottom) / (TempoTop - TempoBottom) * ControllerMax;
    assert x == v as real;
  }

  /** The end points and midpoint of the range, and tempos outside it:
      no clamping above, truncation toward zero (not flooring) below. */
  lemma NormalizeExamples()
    ensures Normalize(60.0) == 0
    ensures Normalize(130.0) == 63
    ensures Normalize(200.0) == 127
    ensures Normalize(210.0) == 136
    ensures Normalize(59.0) == 0
    ensures Normalize(50.0) == -9
  {
  }

  /** A tempo encoder: its identity and the value last written to it. */
  datatype Encoder = Encoder(id: nat, value: int)

  /** `_update_tempo` over the registered tempo encoders: each one receives
      the normalised tempo, and nothing else about the encoders changes. */
  method UpdateTempo(tempo: real, encoders: seq<Encoder>) returns (r: seq<Encoder>)
    ensures |r| == |encoders|
    ensures forall i :: 0 <= i < |r| ==> r[i].id == encoders[i].id
    ensures forall i :: 0 <= i < |r| ==> r[i].value == Normalize(tempo)
  {
    var v := Normalize(tempo);
    r := encoders;
    var i := 0;
    while i < |r|
      invariant 0 <= i <= |r| == |encoders|
      invariant forall k :: 0 <= k < |r| ==> r[k].id == encoders[k].id
      invariant forall k :: 0 <= k < i ==> r[k].value == v
    {
      r := r[i := r[i].(value := v)];
      i := i + 1;
    }
  }
}
