# edu:bit Sound Bit event registry, modelled in Dafny

This project models the two pieces of logic in the edu:bit block-editor
extension. The rest of the extension is board bring-up.

- `sound_bit.dfy`, module `SoundBit`: the `edubit_sound_sensor` namespace.
  - `compareSoundSensor` checks a sound level against a threshold with `>` or `<`.
  - `onEvent` registers a condition in four parallel module-level arrays
    (compare types, thresholds, pins, last compare results). It also bumps the
    event counter `eventType`, subscribes the handler on the pin's event
    source under the new counter value, and starts a background poller on
    first use only.
  - One pass of the poller re-evaluates every condition. It raises event
    `i + 1` on the pin's source exactly when condition `i` goes from false to
    true, and stores the new result.
- `main.dfy`, module `Edubit`: the `limit` clamp.

The registry is the class `SoundSensorMonitor`. Its fields are the
namespace's variables: `bgFunctionCreated`, `eventType`, `compareTypesArray`,
`thresholdsArray`, `pinsArray` and `oldCompareResult`. Two more fields record
what the namespace asks of the host:
- `subscriptions`: the (source, value) pairs handed to `control.onEvent`;
- `pollersStarted`: how many pollers were handed to `control.inBackground`.

A ghost field `conditions` views the three parallel registration arrays as
one sequence of `Condition` records. `Valid()` is the registry invariant:
- all arrays have length `eventType`;
- the subscription at index `i` is (source of pin `i`, `i + 1`);
- `bgFunctionCreated` holds exactly when something is registered;
- exactly one poller has been started once something is registered.

A poll pass is specified by pure functions:
- `Holds` is the comparison;
- `RaisedBefore` and `Raised` give the events of one pass, in order;
- `NextResults` gives the results the pass stores;
- `Trace` gives the events of successive passes, which stands for the first
  passes of the poller's endless loop.

Each time a sound level would be read from the pin, the model takes it as a
parameter instead: one sample per condition per pass.

Two conditions on the same pin with `> 200` and `< 800` both fire on a first
level of 500. Both comparisons hold, and both stored results start out false.
`TwoConditionsScenario` states this behaviour of the code.

## Model

| member | source | states |
|---|---|---|
| `SoundBit.CompareSoundSensor` | sound_bit.ts:71-87 | The result is true iff the compare type is MoreThan and the level is above the threshold, or it is LessThan and the level is below it. In every other case it is false. |
| `SoundBit.Holds` | sound_bit.ts:73-85 | The comparison that `compareSoundSensor` applies to a level. A level equal to the threshold satisfies neither comparison. |
| `SoundBit.ComparisonsPartition` | sound_bit.ts:73-85 | The two comparisons never hold together. One of them holds iff the level differs from the threshold. |
| `SoundBit.EventSource` | sound_bit.ts:156-164 | Maps P0, P1 and P2 to the IO_P0, IO_P1 and IO_P2 sources. `PinOf` undoes the map, so it is injective. |
| `SoundBit.EventSourceOfPinOf` | sound_bit.ts:156-164 | Every one of the three sources is the image of its pin, so the map is a bijection. |
| `SoundBit.EventSourceInjective` | sound_bit.ts:156-164 | Distinct pins get distinct event sources. |
| `SoundBit.RaisedBefore` | sound_bit.ts:124-131 | The events a pass raises while it walks indices 0 to k-1, in the order raised. Index i adds (source of pin i, i+1) exactly when its comparison holds and its stored result was false. There are at most k of them. |
| `SoundBit.Raised` | sound_bit.ts:124-131 | The events of one whole pass: at most one per condition, and each one is the event (source of pin v-1, v) of a condition v-1 that rose. |
| `SoundBit.NextResults` | sound_bit.ts:133-139 | The results a pass stores: one per condition, each equal to that condition's comparison on the pass's level, whatever was stored before. |
| `SoundBit.Trace` | sound_bit.ts:122-142 | Successive passes of the endless loop over a fixed registry. Each pass raises `Raised` from the results the previous pass stored (`NextResults`), giving one list of events per pass. |
| `SoundBit.RaisedAreRisingEdges` | sound_bit.ts:124-131 | Every event raised while walking indices below k has a value v with 1 <= v <= k. Its source is that of the pin of condition v-1, and that condition rose. Values strictly increase, so no event is raised twice in one pass. |
| `SoundBit.RaisedExactlyOnRisingEdges` | sound_bit.ts:127-139 | The event of index i is raised iff its new comparison is true and its stored result was false. It is never raised on true to true, true to false, or false to false. |
| `SoundBit.TraceFiresOnRisingEdges` | sound_bit.ts:122-142 | Across passes, condition i raises its event in pass t iff its comparison holds on pass t's level and did not hold on pass t-1's level. For the first pass, the starting stored result takes the place of pass t-1. |
| `SoundBit.SingleConditionScenario` | sound_bit.ts:119-147 | A condition `P0 > 500` polled on 300, 300, 600, 600, 300, 600 raises (IO_P0, 1) in the third and sixth passes only. |
| `SoundBit.TwoConditionsScenario` | sound_bit.ts:102-147 | Two conditions on P1, `> 200` and `< 800`, keep separate edge state. They both fire on a first level of 500, neither fires while it stays at 500, and only the second fires after 900 then 100. |
| `SoundBit.SoundSensorMonitor.constructor` | sound_bit.ts:33-45 | Initial state: no poller started, counter 0, every array empty, nothing subscribed. |
| `SoundBit.SoundSensorMonitor.OnEvent` | sound_bit.ts:102-149 | The counter grows by exactly 1. Each array gains one entry, and the new stored result is false. Earlier entries stay the same. The handler is subscribed under (source of the pin, new counter value). The poller flag is set and exactly one poller has been started. The registry invariant is kept. |
| `SoundBit.SoundSensorMonitor.PollPass` | sound_bit.ts:124-141 | Each stored result becomes that condition's new comparison result. Nothing else changes. The returned events are exactly the events of the rising conditions, in index order, and each one is the (source, value) pair its handler was subscribed under. |
| `Edubit.Limit` | main.ts:36-44 | Returns the value unchanged inside [min, max], min below min, and max when the value is at least min and above max. The result lies in [min, max] whenever min <= max. |
| `Edubit.LimitIdempotent` | main.ts:36-44 | When min <= max, limiting twice is the same as limiting once. |
| `Edubit.LimitMonotone` | main.ts:36-44 | When min <= max, limiting preserves the order of values. |

## Left out

- The sensor read, `pins.analogReadPin` in `readSoundSensor` (sound_bit.ts:56-58), is a hardware read. The model takes the level as a parameter. The 0-1023 range is a hardware fact that the code does not check, so the model does not assume it.
- The handler passed to `onEvent` is a call into user code. `subscriptions` stores only the (source, value) pair. Delivering a raised event to its handler is the host event bus's job and is not modelled.
- `control.raiseEvent` is modelled by the list of events that `PollPass` returns.
- The background task, done by `control.inBackground`, `while (true)` and `basic.pause(20)`, is cooperative scheduling. One pass is a terminating method, and `Trace` covers finitely many passes. The pauses are not modelled. Neither is a registration that happens in the middle of a pass.
- Pins and event sources are three-valued datatypes, not the numeric host constants (`AnalogPin.P0`, `MICROBIT_ID_IO_P0`, ...). Their numeric values are not modelled. Because the pin type has only three values, the `return null` fallthrough of `getEventSource` cannot be reached.
- The default pin `P1` of `readSoundSensor` and `compareSoundSensor` is not modelled. Every caller in the model passes a pin.
- TypeScript `number` is a float. Levels, thresholds and `limit`'s arguments are modelled as `int`, so NaN and fractions are out of scope.
- Board bring-up in main.ts:5-24 is left out. It consists of digital reads and motor and servo calls into a module that is not part of this model.
