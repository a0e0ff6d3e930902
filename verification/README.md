# RGB_Multiplex display driver — Dafny model

This project models the display-driver engine of the `RGBMultiplex` Arduino library.
The driver runs an array of N on/off RGB LEDs from only N anode-select lines and three
shared colour lines. It does this by time-division multiplexing. Each scan step (`Update`)
selects at most one LED. It drives the three active-low colour channels from that LED's
entry and then moves the scan cursor on. A global brightness of 0..8 dims the whole
array frame by frame: a step is lit only while the dimming phase (0..7) is below the
brightness.

The driver is an immutable record `Driver(values, cursor, phase, brightness)`. Each
operation is a pure function. `Update` returns the line levels the step leaves behind
(`Pins`: the red, green and blue levels and the set of anodes driven HIGH) together with
the next driver.

Files:
- `basics.dfy` — the byte type `uint8` (LED indices, counts and brightness are `uint8_t`), `Option`, `Min`.
- `colors.dfy` — the LED entry `RGB` and the 3-bit `Color3Bits` enum with its bit codec.
- `multiplex.dfy` — the driver state and all operations: constructor, both `SetColor` forms, `Off`, `AllOff`, `Begin`, `Update`, and the brightness setter and getter.
- `pinwrites.dfy` — `Update` replayed one line write at a time, in the firmware's order, and proved to leave exactly the levels the summary describes.
- `arith.dfy` — a few facts about division with remainder.
- `dutycycle.dfy` — multi-step counting. The pair (phase, cursor) acts as one counter modulo 8·N, and each step advances it by one. This gives the duty cycle and the period of the scan.
- `scenarios.dfy` — what a caller sees over several steps, including small concrete runs.

Notes on the driver's behaviour, as `src/RGB_Multiplex.cpp` implements it:
- The phase advances when the NEW cursor equals N−1 (`src/RGB_Multiplex.cpp:125-127`). For N ≥ 2 that is the step that moves onto the last LED, one step before the cursor wraps to 0. With one LED the new cursor is always 0 = N−1, so the phase advances on every step. As a result, for N ≥ 2 the dimmed frames do not line up with scan passes: LED N−1 is always shown with the phase of the following pass (`Scenarios.ThreeLedsHalfBrightness`).
- The cursor ranges over all of [0, N).
- Brightness 8 lights every step and 0 lights none (`src/RGB_Multiplex.cpp:110-113`). The comment at line 109 ("7=on every cycle") does not match the code, and neither does the header's "1-8" range: level 0 is accepted and blanks every step.
- Each `AllOff` forces its own scan step. For N ≥ 2, two in a row therefore step the cursor to two different LEDs, though neither step shows a colour.
- `Begin` ends with one forced `Update`. So for N ≥ 2, on a fresh driver the first caller-driven step selects LED 1, not LED 0 (`Scenarios.BeginAdvancesCursor`).
- The colour argument of `SetColor(led_index, Color3Bits)` is a byte that may hold any value; only its low three bits are read (`src/RGB_Multiplex.cpp:74-77`), so a byte of 9 writes red. The named colours are modelled as `Color3Bits`, with `Black` for the firmware's `kOff`, and any byte through `Multiplex.SetColorByte`.

## Model

| member | source | states |
|---|---|---|
| Colors.Decode | src/RGB_Multiplex.cpp:73-77 | the decoded triple lights red exactly for red, yellow, magenta and white; green exactly for green, yellow, cyan and white; blue exactly for blue, magenta, cyan and white |
| Colors.Encode | src/RGB_Multiplex.h:12-22 | every on/off triple is the decoding of some colour, so the eight colours cover all channel combinations |
| Colors.EncodeDecode | src/RGB_Multiplex.h:13-22 | packing a colour's channel triple gives the colour back, so the encoding loses nothing |
| Colors.CodesAreZeroToSeven | src/RGB_Multiplex.h:13-22 | the eight named values have distinct codes, and every byte 0..7 is one of them |
| Colors.MixturesAreUnions | src/RGB_Multiplex.h:12-22 | yellow = red or green, magenta = red or blue, cyan = green or blue, white = all three, black (`kOff`) = 0 |
| Colors.DecodeReadsBits | src/RGB_Multiplex.cpp:74-77 | red, green and blue come from bits 0, 1 and 2 of the enum's byte |
| Multiplex.New | src/RGB_Multiplex.cpp:27-35 | a new driver has N entries, all off, with cursor 0, phase 0 and brightness 8, and it satisfies the driver invariant |
| Multiplex.SetColor | src/RGB_Multiplex.cpp:53-71 | for an in-range index the entry becomes exactly (r,g,b), and every other entry, the cursor, the phase and the brightness are unchanged; an index ≥ N leaves the driver unchanged |
| Multiplex.SetColorBits | src/RGB_Multiplex.cpp:73-79 | for an in-range index, reading the stored entry back as a colour gives exactly the colour written; other entries and the counters are unchanged; an index ≥ N changes nothing |
| Multiplex.SetColorByte | src/RGB_Multiplex.cpp:73-78 | for any byte and an in-range index, the stored entry reads back as the colour whose code is the byte's low three bits; other entries and the counters are unchanged; an index ≥ N changes nothing |
| Multiplex.SetColorByteLowBits | src/RGB_Multiplex.cpp:74-77 | bits above bit 2 are ignored (a byte of 9 writes red only), and a named colour's byte gives the same result as the named overload |
| Multiplex.SetColorBitsDecodes | src/RGB_Multiplex.cpp:73-78 | the enum overload equals the triple form called with bits 0, 1 and 2 of the colour's byte; white writes all-on, black (`kOff`) writes all-off, yellow writes red and green |
| Multiplex.SetColorFrames | src/RGB_Multiplex.cpp:53-71 | writes to different LEDs commute, and a second write to the same LED overrides the first |
| Multiplex.Drive | src/RGB_Multiplex.cpp:115-117 | a channel line is driven LOW exactly when its channel is on (active-low) |
| Multiplex.NextCursor | src/RGB_Multiplex.cpp:125 | the cursor moves to the next LED and wraps to 0 after the last |
| Multiplex.Update | src/RGB_Multiplex.cpp:94-134 | a step is lit iff brightness > 0 and phase < brightness; when lit, only the cursor's anode is HIGH and each channel is LOW iff the cursor's entry has it on; otherwise all lines are off; the cursor advances cyclically; the phase advances mod 8 exactly when the new cursor is N−1; the table and brightness are untouched and the invariant is kept |
| Multiplex.AtMostOneAnode | src/RGB_Multiplex.cpp:106-124 | after any step at most one anode is HIGH |
| Multiplex.Off | src/RGB_Multiplex.cpp:81-85 | an out-of-range index changes nothing and forces no step; otherwise the LED's entry is cleared and exactly one step runs: the counters move as one `Update` does, and when lit only the cursor's anode is HIGH with the channels driven from the cleared table's entry at the cursor, otherwise all lines are off |
| Multiplex.OffIsOneStep | src/RGB_Multiplex.cpp:81-85 | the forced step drives at most one anode; clearing the LED under the cursor shows no colour; clearing an already-off LED is exactly one `Update` |
| Multiplex.AllOff | src/RGB_Multiplex.cpp:87-92 | every entry is cleared and exactly one step runs; the counters move as one `Update` would; that step shows no colour and drives the cursor's anode alone when lit, no anode otherwise |
| Multiplex.AllOffTwice | src/RGB_Multiplex.cpp:87-92 | a second `AllOff` leaves every entry off and again shows no colour |
| Multiplex.Begin | src/RGB_Multiplex.cpp:37-45 | `Begin` keeps the table's N entries and turns them all off; the counters, phase and brightness move exactly as one `Update` would; the forced step shows no colour and drives the cursor's anode alone when lit, no anode otherwise |
| Multiplex.SetGlobalBrightness | src/RGB_Multiplex.cpp:136-139 | the stored brightness is the request if it is at most 8, else 8; nothing else changes |
| Multiplex.GetGlobalBrightness | src/RGB_Multiplex.cpp:141-143 | returns the stored level, which is at most 8 |
| Multiplex.BrightnessRoundTrip | src/RGB_Multiplex.cpp:136-143 | set-then-get returns min(x, 8), and 0 for 0; setting the same level twice equals setting it once |
| Multiplex.BrightnessExtremes | src/RGB_Multiplex.cpp:110-113 | with brightness 8 every step selects the cursor's LED; with brightness 0 every step is blank |
| Multiplex.NewLightsFirstStep | src/RGB_Multiplex.h:51-52 | the defaults (brightness 8, phase 0) make a fresh driver's first step select LED 0 |
| PinWrites.ReplayUpdate | src/RGB_Multiplex.cpp:103-128 | replaying the step's individual line writes from any prior levels leaves exactly the levels `Update` reports; at most one anode is HIGH; lines the driver does not own are untouched; the counters agree with `Update` |
| DutyCycle.Run | src/RGB_Multiplex.cpp:94-134 | any number of steps keeps the invariant and leaves the table and brightness unchanged |
| DutyCycle.Tick | src/RGB_Multiplex.cpp:125-127 | the frame position phase·N + next-cursor lies below 8·N |
| DutyCycle.TickStep | src/RGB_Multiplex.cpp:125-127 | every step advances the frame position by exactly one, modulo 8·N |
| DutyCycle.LitIffEarly | src/RGB_Multiplex.cpp:110-113 | a step is lit iff its frame position is below N·brightness |
| DutyCycle.PhaseIffBlock | src/RGB_Multiplex.cpp:125-127 | a step runs with phase p iff its frame position lies in the p-th block of N positions |
| DutyCycle.LitStepsByTick | src/RGB_Multiplex.cpp:109-113 | the lit steps among k steps are the frame positions below N·brightness that those steps visit |
| DutyCycle.PhaseStepsByTick | src/RGB_Multiplex.cpp:125-127 | the steps of phase p among k steps are the visited positions in the p-th block |
| DutyCycle.LitDutyCycle | src/RGB_Multiplex.cpp:109-113 | from any reachable state, exactly N·brightness of any 8·N consecutive steps are lit |
| DutyCycle.PhaseDutyCycle | src/RGB_Multiplex.cpp:125-127 | from any reachable state, each phase value occurs exactly N times in any 8·N consecutive steps |
| DutyCycle.RunTick | src/RGB_Multiplex.cpp:125-127 | after k steps the frame position has moved k places on, modulo 8·N |
| DutyCycle.RunCursor | src/RGB_Multiplex.cpp:125 | after k steps the cursor has moved k LEDs on, modulo N |
| DutyCycle.FramePeriodic | src/RGB_Multiplex.cpp:125-127 | after 8·N steps the driver is exactly back in its starting state |
| Scenarios.SetColorShownOnItsTurn | src/RGB_Multiplex.cpp:114-118 | at full brightness, a colour written with `SetColor` is shown on the LED's next turn: that LED's anode alone is HIGH and its channels follow the written triple |
| Scenarios.FirstPassInOrder | src/RGB_Multiplex.cpp:118-125 | from cursor 0 at full brightness, step j of the first pass selects exactly LED j |
| Scenarios.ThreeLedsFullBrightness | src/RGB_Multiplex.cpp:114-118 | three LEDs set red, green and blue: the first three steps drive red, then green, then blue LOW, each with only its own anode HIGH |
| Scenarios.ThreeLedsHalfBrightness | src/RGB_Multiplex.cpp:109-127 | three LEDs at brightness 4: 12 of 24 steps are lit, and in the fourth pass LEDs 0 and 1 are shown while LED 2 is already blanked |
| Scenarios.BeginAdvancesCursor | src/RGB_Multiplex.cpp:37-45 | on a fresh driver of two or more LEDs, `Begin` selects LED 0 with no colour and leaves the cursor at LED 1 |

## Left out

- Power model (`SetResistorValues`, `SetForwardVoltages`, `SetSupplyVoltage`, `GetSupplyVoltage`, `GetEstimatedCurrent`, `GetEstimatedMaxCurrent`, `src/RGB_Multiplex.cpp:145-184`): float arithmetic. `GetEstimatedCurrent` is the larger of 0 and the maximum over LEDs of each LED's sum of per-channel currents (Vcc − Vf)/R; it is 0 for N = 0 and when every lit LED's sum is negative (Vcc < Vf). A channel counts only if it is on and its resistor value is > 0. `GetEstimatedMaxCurrent` is the same sum with all three channels on.
- Auto-update (`StartAutoUpdate`, `StopAutoUpdate`, the 100 µs alarm callback and the global instance variable, `src/RGB_Multiplex.cpp:3-25, 47-50`): platform interrupt plumbing. The model is the caller-driven mode, where the caller invokes `Update` directly.
- Critical sections (`src/RGB_Multiplex.cpp:56-69, 96-101, 130-132`): concurrency primitives. The model is sequential. In the source, `SetColor` and `Update` each use their own function-local static critical section, so they do not exclude each other. `Off` and `AllOff` take no lock at all.
- Hardware set-up in `Begin` (`pinMode` and the initial `digitalWrite`s): `Begin` is modelled by its effect on the driver, which is `AllOff`.
- Line identities: the model treats the anode lines and the three channel lines as distinct abstract lines. The firmware's numeric pin identifiers, and any aliasing if a caller passes one pin twice, are not modelled.
- A driver built for 0 LEDs: construction, `SetColor`, `Off` and brightness work. `Update` would compute `% 0`, however, so `Update`, `AllOff` and `Begin` require at least one LED.
- Scenarios.SetColorShownOnItsTurn: stated for brightness 8 only. With dimming, the LED's next turn can fall on a blank phase, so "shown on its next turn" does not hold for every brightness > 0.
- The demo application (`src/main.cpp`) and the stale duplicate header at the repository root.
