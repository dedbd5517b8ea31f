/**
  Distribution of send encoders across channel strips
  (`set_send_controls` and its twin `set_instrument_send_controls` in
  OhmRGB/OhmModes.py, lines 183-205).

  Both methods are defined on the `OhmModes` control surface itself and work on
  its own attributes `_channel_strips`, `send_index` and `_send_controls`. They
  are not the framework `MixerComponent.set_send_controls` that `_setup_mixer`
  calls (lines 139-140); nothing in OhmModes.py calls the modelled methods or
  sets `_channel_strips` or `send_index`, so these are parameters here.

  A channel strip's send assignment is the list handed to the strip's own
  `set_send_controls`: one entry per send position, `None` marking a send with
  no control. The surface state is an immutable value; an operation returns the
  state as it is afterwards.
*/
module SendRouter {
  import opened Wrappers

  /** A physical send encoder, referenced by identity. */
  datatype Control = Control(id: nat)

  /** One strip's send assignment, position by position. */
  type SendList = seq<Option<Control>>

  /** The argument of `set_send_controls`: Python `None`, or a list whose
      entries may themselves be `None`. */
  type Controls = Option<seq<Option<Control>>>

  /** The part of the `OhmModes` surface these operations read and write:
      the channel strips' send assignments (`_channel_strips`), the
      configured `send_index` (an integer or `None`) and the recorded
      `_send_controls`. */
  datatype Surface = Surface(strips: seq<SendList>, sendIndex: Option<int>, sendControls: Controls)

  /** Python truthiness of the argument: only a non-empty list is true. */
  predicate Truthy(controls: Controls) {
    controls.Some? && |controls.value| > 0
  }

  /** How many absence slots a strip gets when there are no controls:
      one when `send_index` is `None`, otherwise `len(range(send_index))`,
      which is zero for a negative index. */
  function AbsenceCount(sendIndex: Option<int>): nat {
    match sendIndex
    case None => 1
    case Some(n) => if n < 0 then 0 else n
  }

  /** The list of absence slots a strip receives when there are no controls. */
  function AbsenceSlots(sendIndex: Option<int>): SendList {
    seq(AbsenceCount(sendIndex), _ => None)
  }

  /** A send list made only of absence markers. */
  predicate AllAbsent(s: SendList) {
    forall j :: 0 <= j < |s| ==> s[j] == None
  }

  /** Python's `zip(strips, controls)` followed by `strip.set_send_controls([control])`:
      the first `min(|strips|, |cs|)` strips each get the one control at their
      position, the others keep what they had. */
  function PairByPosition(strips: seq<SendList>, cs: seq<Option<Control>>): (r: seq<SendList>)
    ensures |r| == |strips|
    ensures forall i :: 0 <= i < |strips| && i < |cs| ==> r[i] == [cs[i]]
    ensures forall i :: |cs| <= i < |strips| ==> r[i] == strips[i]
    decreases |strips|
  {
    if |strips| == 0 || |cs| == 0 then strips
    else [[cs[0]]] + PairByPosition(strips[1..], cs[1..])
  }

  /** `set_send_controls(controls)`: records the argument, then either pairs
      strips with controls by position or, for `None` or an empty list, gives
      every strip its absence slots. */
  function SetSendControls(m: Surface, controls: Controls): (m': Surface)
    // `_send_controls` always equals the argument afterwards
    ensures m'.sendControls == controls
    // nothing else about the surface changes, and no strip is added or lost
    ensures m'.sendIndex == m.sendIndex
    ensures |m'.strips| == |m.strips|
    // paired strips get exactly the one control at their position
    ensures Truthy(controls) ==>
      forall i :: 0 <= i < |m.strips| && i < |controls.value| ==> m'.strips[i] == [controls.value[i]]
    // strips past the end of the control list keep their previous assignment
    ensures Truthy(controls) ==>
      forall i :: |controls.value| <= i < |m.strips| ==> m'.strips[i] == m.strips[i]
    // no controls and no send index: every strip gets exactly one absence slot
    ensures !Truthy(controls) && m.sendIndex.None? ==>
      forall i :: 0 <= i < |m.strips| ==> m'.strips[i] == [None]
    // no controls and a send index n: every strip gets max(n, 0) absence slots
    ensures !Truthy(controls) && m.sendIndex.Some? ==>
      forall i :: 0 <= i < |m.strips| ==>
        |m'.strips[i]| == (if m.sendIndex.value < 0 then 0 else m.sendIndex.value) && AllAbsent(m'.strips[i])
  {
    var strips :=
      if Truthy(controls) then PairByPosition(m.strips, controls.value)
      else seq(|m.strips|, _ => AbsenceSlots(m.sendIndex));
    m.(strips := strips, sendControls := controls)
  }

  /** `set_instrument_send_controls(controls)`, written as the loops of the
      source: it has exactly the effect of `set_send_controls`. */
  method SetInstrumentSendControls(m: Surface, controls: Controls) returns (m': Surface)
    ensures m' == SetSendControls(m, controls)
  {
    var strips := m.strips;
    if Truthy(controls) {
      var cs := controls.value;
      var n := if |strips| < |cs| then |strips| else |cs|;
      var i := 0;
      while i < n
        invariant 0 <= i <= n
        invariant |strips| == |m.strips|
        invariant forall k :: 0 <= k < i ==> strips[k] == [cs[k]]
        invariant forall k :: i <= k < |strips| ==> strips[k] == m.strips[k]
      {
        strips := strips[i := [cs[i]]];
        i := i + 1;
      }
      assert strips == PairByPosition(m.strips, cs);
    } else {
      var slots := AbsenceSlots(m.sendIndex);
      var i := 0;
      while i < |strips|
        invariant 0 <= i <= |strips|
        invariant |strips| == |m.strips|
        invariant forall k :: 0 <= k < i ==> strips[k] == slots
      {
        strips := strips[i := slots];
        i := i + 1;
      }
      assert strips == seq(|m.strips|, _ => slots);
    }
    m' := m.(strips := strips, sendControls := controls);
  }

  /** Calling `set_send_controls` twice with the same argument leaves the
      surface as one call does. */
  lemma SetSendControlsIdempotent(m: Surface, controls: Controls)
    ensures SetSendControls(SetSendControls(m, controls), controls) == SetSendControls(m, controls)
  {
    var once := SetSendControls(m, controls);
    var twice := SetSendControls(once, controls);
    assert twice.strips == once.strips;
  }

  /** Controls beyond the strip count are ignored: truncating the list to the
      number of strips assigns the same sends. */
  lemma ExtraControlsIgnored(m: Surface, cs: seq<Option<Control>>)
    requires |m.strips| <= |cs|
    ensures SetSendControls(m, Some(cs)).strips == SetSendControls(m, Some(cs[..|m.strips|])).strips
  {
    var a := SetSendControls(m, Some(cs)).strips;
    var b := SetSendControls(m, Some(cs[..|m.strips|])).strips;
    assert forall i :: 0 <= i < |m.strips| ==> a[i] == b[i];
  }

  /** `None` and an empty list are both false in Python: they assign the same
      sends, and differ only in what is recorded. */
  lemma AbsentAndEmptyAgree(m: Surface)
    ensures SetSendControls(m, None) == SetSendControls(m, Some([])).(sendControls := None)
  {
  }

  /** A call that reaches every strip (no controls at all, or at least one
      control per strip) wipes out whatever an earlier call assigned. */
  lemma CoveringCallOverrides(m: Surface, first: Controls, second: Controls)
    requires !Truthy(second) || |second.value| >= |m.strips|
    ensures SetSendControls(SetSendControls(m, first), second) == SetSendControls(m, second)
  {
    var a := SetSendControls(SetSendControls(m, first), second);
    var b := SetSendControls(m, second);
    assert a.strips == b.strips;
  }

  /** Eight strips and two controls: strips 0 and 1 are bound to the two
      controls, strips 2 to 7 keep their previous sends. */
  lemma TwoControlsOnEightStrips(prev: seq<SendList>, c1: Control, c2: Control)
    requires |prev| == 8
    ensures var m' := SetSendControls(Surface(prev, Some(2), None), Some([Some(c1), Some(c2)]));
      && m'.strips[0] == [Some(c1)] && m'.strips[1] == [Some(c2)]
      && m'.strips[2..] == prev[2..]
  {
  }

  /** An empty control list with a send index of 2, 0, -1 and none at all. */
  lemma EmptyControlsArity(prev: seq<SendList>)
    requires |prev| == 8
    ensures SetSendControls(Surface(prev, Some(2), None), Some([])).strips == seq(8, _ => [None, None])
    ensures SetSendControls(Surface(prev, Some(0), None), Some([])).strips == seq(8, _ => [])
    ensures SetSendControls(Surface(prev, Some(-1), None), Some([])).strips == seq(8, _ => [])
    ensures SetSendControls(Surface(prev, None, None), None).strips == seq(8, _ => [None])
  {
    assert AbsenceSlots(Some(2)) == [None, None];
  }
}
