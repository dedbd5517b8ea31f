# OhmRGB send distribution and tempo feedback

This project is a Dafny model of two self-contained pieces of the OhmRGB
control-surface script for Ableton Live (`OhmRGB/OhmModes.py`).

- **Send distribution** (module `SendRouter`, file `send_router.dfy`). This covers
  `set_send_controls` and its twin `set_instrument_send_controls`. Both are methods
  of the `OhmModes` surface itself and work on its own attributes, which the model
  holds as one value (`Surface`) with three parts: the channel strips' send
  assignments (`_channel_strips`, as `seq<seq<Option<Control>>>`), the configured
  `send_index` (an integer or `None`), and the recorded `_send_controls`. They are
  not the framework `MixerComponent.set_send_controls` that `_setup_mixer` calls at
  lines 139-140; nothing in the file calls the modelled methods or sets
  `_channel_strips` or `send_index`, so those are inputs here.
  - A non-empty control list is paired with the strips by position, with Python `zip`
    truncation. Each paired strip gets a one-element send list. Unpaired strips keep
    what they had.
  - `None` or an empty list gives every strip a list of `None` absence slots. There is
    one slot when `send_index` is `None`. Otherwise there are `len(range(send_index))`
    slots, so a negative index gives none.
- **Tempo feedback** (module `TempoSync`, file `tempo_sync.dfy`). This covers
  `_update_tempo` with `TEMPO_TOP = 200` and `TEMPO_BOTTOM = 60`. The tempo is mapped
  affinely onto the controller range 0..127. It is truncated toward zero, as Python's
  `int()` does, and written to every tempo encoder. It is not clamped.
- Module `Wrappers` (file `wrappers.dfy`) holds the `Option` type that stands in for
  Python's `None`.

Points of the code's behaviour that the model keeps as written:

- Strips past the control count keep their previous sends, because `zip` stops at
  the shorter list. They are not reset to an absence marker.
- The tempo value is truncated by `int()`, not rounded, so tempo 130 gives 63.

## Model

| member | source | states |
|---|---|---|
| SendRouter.PairByPosition | OhmRGB/OhmModes.py:185-187 | `zip` pairing: the first min(strips, controls) strips get exactly `[controls[i]]`; later strips are unchanged; the strip count is kept |
| SendRouter.SetSendControls | OhmRGB/OhmModes.py:183-193 | `_send_controls` equals the argument afterwards. With a non-empty list, paired strips get `[controls[i]]` and the rest keep their sends. With `None` or `[]`, every strip gets `[None]` when `send_index` is `None`, or `max(n, 0)` absence slots when it is `n`. The send index and the strip count do not change |
| SendRouter.SetInstrumentSendControls | OhmRGB/OhmModes.py:195-205 | the loop form of `set_instrument_send_controls` has exactly the same effect on the strips and on `_send_controls` as `set_send_controls` |
| SendRouter.SetSendControlsIdempotent | OhmRGB/OhmModes.py:183-193 | calling twice with the same argument leaves the surface state as one call does |
| SendRouter.ExtraControlsIgnored | OhmRGB/OhmModes.py:186-187 | controls beyond the strip count are ignored: truncating the list to the strip count assigns the same sends |
| SendRouter.AbsentAndEmptyAgree | OhmRGB/OhmModes.py:184-191 | `None` and `[]` are both false for `if controls:`: the resulting states are equal except for the recorded `_send_controls` |
| SendRouter.CoveringCallOverrides | OhmRGB/OhmModes.py:183-193 | a call that reaches every strip (no controls, or at least one per strip) erases the effect of any earlier call |
| SendRouter.TwoControlsOnEightStrips | OhmRGB/OhmModes.py:185-187 | with eight strips and two controls, strips 0 and 1 get the two controls and strips 2 to 7 keep their previous sends |
| SendRouter.EmptyControlsArity | OhmRGB/OhmModes.py:188-193 | with no controls, `send_index` 2 gives two absence slots per strip, 0 and -1 give an empty list rather than `[None]`, and `None` gives `[None]` |
| TempoSync.Truncate | OhmRGB/OhmModes.py:174 | `int()` truncates toward zero: for a non-negative x the result r satisfies r <= x < r + 1, and for a negative x it satisfies r - 1 < x <= r |
| TempoSync.Normalize | OhmRGB/OhmModes.py:170-174 | for tempo in [60, 200] the value is in [0, 127]; below 60 it is at most 0; from 200 upward it is at least 127. Exactly: from tempo 60 upward the value is the largest v whose tempo 60 + v * 140 / 127 does not exceed the tempo, and below 60 it is the smallest v whose tempo is not below it (truncation toward zero, neither rounding nor flooring) |
| TempoSync.TruncateMonotone | OhmRGB/OhmModes.py:174 | truncation toward zero is non-decreasing |
| TempoSync.NormalizeMonotone | OhmRGB/OhmModes.py:172-174 | the controller value is non-decreasing in the tempo, for every tempo |
| TempoSync.NormalizeTempoFor | OhmRGB/OhmModes.py:172-174 | every integer controller value v is produced exactly at tempo 60 + v * 140 / 127 |
| TempoSync.NormalizeExamples | OhmRGB/OhmModes.py:60-61 | tempo 60 gives 0, 130 gives 63, 200 gives 127, 210 gives 136 (no clamping), 59 gives 0 and 50 gives -9 (toward zero, not floor) |
| TempoSync.UpdateTempo | OhmRGB/OhmModes.py:170-174 | every tempo encoder receives the same normalised value; the encoder list and each encoder's identity are otherwise unchanged |

## Left out

- Mode and layer arbitration (`ModesComponent`, `AddLayerMode`, `Layer`, priorities, lines 85-92) is left out. It is implemented in the Ableton framework, which is not part of this model, so a model of it would be invented behaviour.
- The component setup methods (`_setup_session`, `_setup_mixer`, `_setup_device`, `_setup_transport`, `_create_drum_group`, `_create_session_overview`) are left out. They are construction glue around framework objects. `_setup_device` always raises `NotImplementedError`.
- Listener plumbing (`_on_tempo_changed`, the no-op `_on_time_signature_changed`, `_on_song_changed` subject wiring) and debug logging are left out. They are host event I/O. The song tempo that `_update_tempo` reads from the host is a parameter here.
- `disconnect` (lines 176-178) delegates to the framework's `disconnect`, which is not modelled. Whether a tempo change after teardown still reaches `_update_tempo` is therefore not decided here, and the model has no listener and no teardown guard.
- `DeviceComponent._get_device` in `aumhaa/aumhaa/v2/control_surface/components/device.py` is left out. It is a one-line accessor over a framework device provider.
- TempoSync.Normalize: computed over exact reals, so IEEE-754 double rounding in `norm * 127` is not modelled. The exact value `(t - 60) / 140 * 127` of a double tempo `t` is an integer only when `t = 60 + 140 m`, and there every float step is exact, so no rounding occurs. A difference from the model can only appear where the exact value is not an integer but lies within a few ulps of one, on either side, so that the float product rounds across it.
- SendRouter.SetSendControls: `controls` is modelled as `None` or a list. Other containers, whose Python truthiness and `zip` iteration could differ, are not modelled. Each strip's own `set_send_controls` is modelled as replacing that strip's send list.
- TempoSync.UpdateTempo: an encoder's `value` setter is modelled as storing the value. Any MIDI output it triggers is hardware I/O and is not modelled.
