/** Model of the edu:bit Sound Bit block namespace `edubit_sound_sensor`:
    comparing a sound level with a threshold, and an edge-triggered event
    registry whose background poller raises an event each time a registered
    comparison turns from false to true.

    The analog read of the sensor is not modelled as a call: every operation
    that would read the pin takes the sample it would have read as a
    parameter. The host event bus is modelled by recording the (source, value)
    pairs that are subscribed and by returning the pairs that are raised. */
module SoundBit {

  /** The three pins a Sound Bit can be plugged into. */
  datatype SoundBitPin = P1 | P0 | P2

  /** The comparison an event or a compare block applies. */
  datatype SoundSensorCompareType = MoreThan | LessThan

  /** The host event bus sources of the three IO pins. */
  datatype EventBusSource = MicrobitIdIoP0 | MicrobitIdIoP1 | MicrobitIdIoP2

  /** A (source, value) pair of the event bus: what a handler is subscribed
      under and what the poller raises. */
  datatype Event = Event(source: EventBusSource, value: int)

  /** One registered condition: the entries at one index of the three
      parallel registration arrays. */
  datatype Condition = Condition(pin: SoundBitPin, compareType: SoundSensorCompareType, threshold: int)

  /** Whether a sound level satisfies a comparison against a threshold: it
      must lie strictly above (MoreThan) or strictly below (LessThan), so a
      level equal to the threshold satisfies neither. */
  function Holds(sample: int, compareType: SoundSensorCompareType, threshold: int): (r: bool)
    ensures sample == threshold ==> !r
  {
    match compareType
    case MoreThan => threshold < sample
    case LessThan => sample < threshold
  }

  /** The two comparisons never hold together, and one of them holds exactly
      when the sample differs from the threshold. */
  lemma ComparisonsPartition(sample: int, threshold: int)
    ensures !(Holds(sample, MoreThan, threshold) && Holds(sample, LessThan, threshold))
    ensures Holds(sample, MoreThan, threshold) || Holds(sample, LessThan, threshold) <==> sample != threshold
  {
  }

  /** `compareSoundSensor`, given the level `readSoundSensor(pin)` returns. */
  method CompareSoundSensor(sample: int, compareType: SoundSensorCompareType, threshold: int)
    returns (result: bool)
    ensures result <==> ((compareType == MoreThan && sample > threshold)
                         || (compareType == LessThan && sample < threshold))
    ensures result == Holds(sample, compareType, threshold)
  {
    result := false;
    match compareType {
      case MoreThan =>
        if sample > threshold {
          result := true;
        }
      case LessThan =>
        if sample < threshold {
          result := true;
        }
    }
  }

  /** Which pin an event source belongs to: the inverse of EventSource. */
  function PinOf(source: EventBusSource): SoundBitPin
  {
    match source
    case MicrobitIdIoP0 => P0
    case MicrobitIdIoP1 => P1
    case MicrobitIdIoP2 => P2
  }

  /** `getEventSource`: the event bus source of a pin. PinOf undoes it, so
      distinct pins have distinct sources. */
  function EventSource(pin: SoundBitPin): (source: EventBusSource)
    ensures PinOf(source) == pin
  {
    match pin
    case P0 => MicrobitIdIoP0
    case P1 => MicrobitIdIoP1
    case P2 => MicrobitIdIoP2
  }

  /** Every event source is the source of some pin. */
  lemma EventSourceOfPinOf(source: EventBusSource)
    ensures EventSource(PinOf(source)) == source
  {
  }

  /** Distinct pins raise and subscribe on distinct sources. */
  lemma EventSourceInjective(p: SoundBitPin, q: SoundBitPin)
    ensures EventSource(p) == EventSource(q) ==> p == q
  {
  }

  /** The event raised for the condition at index `i` of the registry: on the
      source of its pin, with value `i + 1`. */
  function EventFor(conditions: seq<Condition>, i: nat): Event
    requires i < |conditions|
  {
    Event(EventSource(conditions[i].pin), i + 1)
  }

  /** Whether the condition at index `i` rises in a pass: its comparison holds
      on this pass's sample and did not hold on the previous pass. */
  predicate Rises(conditions: seq<Condition>, previous: seq<bool>, samples: seq<int>, i: nat)
    requires |previous| == |conditions| == |samples|
    requires i < |conditions|
  {
    Holds(samples[i], conditions[i].compareType, conditions[i].threshold) && !previous[i]
  }

  /** The events a poll pass raises while it walks indices `0 .. k-1`, in
      the order that it raises them. */
  function RaisedBefore(conditions: seq<Condition>, previous: seq<bool>, samples: seq<int>, k: nat): (r: seq<Event>)
    requires |previous| == |conditions| == |samples|
    requires k <= |conditions|
    ensures |r| <= k
  {
    if k == 0 then []
    else
      RaisedBefore(conditions, previous, samples, k - 1)
      + (if Rises(conditions, previous, samples, k - 1) then [EventFor(conditions, k - 1)] else [])
  }

  /** The events of a whole poll pass: at most one per condition, each one
      the event of a condition that rises. */
  function Raised(conditions: seq<Condition>, previous: seq<bool>, samples: seq<int>): (r: seq<Event>)
    requires |previous| == |conditions| == |samples|
    ensures |r| <= |conditions|
    ensures forall e :: e in r ==>
              1 <= e.value <= |conditions| && e == EventFor(conditions, e.value - 1)
              && Rises(conditions, previous, samples, e.value - 1)
  {
    RaisedAreRisingEdges(conditions, previous, samples, |conditions|);
    RaisedBefore(conditions, previous, samples, |conditions|)
  }

  /** The comparison results a poll pass stores, one per condition. */
  function NextResults(conditions: seq<Condition>, samples: seq<int>): (r: seq<bool>)
    requires |samples| == |conditions|
    ensures |r| == |conditions|
    ensures forall i :: 0 <= i < |conditions| ==>
              r[i] == Holds(samples[i], conditions[i].compareType, conditions[i].threshold)
  {
    seq(|conditions|, i requires 0 <= i < |conditions| =>
      Holds(samples[i], conditions[i].compareType, conditions[i].threshold))
  }

  /** One sample per condition in every pass. */
  predicate WellFormedPasses(conditions: seq<Condition>, passes: seq<seq<int>>)
  {
    forall t :: 0 <= t < |passes| ==> |passes[t]| == |conditions|
  }

  /** The events raised by successive passes of the poller over a fixed set
      of conditions, starting from the stored results `previous`: one list of
      events per pass. */
  function Trace(conditions: seq<Condition>, previous: seq<bool>, passes: seq<seq<int>>): (r: seq<seq<Event>>)
    requires |previous| == |conditions|
    requires WellFormedPasses(conditions, passes)
    ensures |r| == |passes|
    decreases |passes|
  {
    if passes == [] then []
    else
      [Raised(conditions, previous, passes[0])]
      + Trace(conditions, NextResults(conditions, passes[0]), passes[1..])
  }

  /** Every event a pass raises belongs to a rising condition at an index the
      pass has walked: its value is that index plus one and its source is the
      one of that condition's pin. Values strictly increase along the list, so
      no event is raised twice in a pass. */
  lemma {:induction false} RaisedAreRisingEdges(conditions: seq<Condition>, previous: seq<bool>, samples: seq<int>, k: nat)
    requires |previous| == |conditions| == |samples|
    requires k <= |conditions|
    ensures |RaisedBefore(conditions, previous, samples, k)| <= k
    ensures forall j :: 0 <= j < |RaisedBefore(conditions, previous, samples, k)| ==>
              var e := RaisedBefore(conditions, previous, samples, k)[j];
              1 <= e.value <= k && e == EventFor(conditions, e.value - 1)
              && Rises(conditions, previous, samples, e.value - 1)
    ensures forall a, b :: 0 <= a < b < |RaisedBefore(conditions, previous, samples, k)| ==>
              RaisedBefore(conditions, previous, samples, k)[a].value
              < RaisedBefore(conditions, previous, samples, k)[b].value
  {
    if k > 0 {
      RaisedAreRisingEdges(conditions, previous, samples, k - 1);
    }
  }

  /** A pass raises the event of index `i` exactly when that condition rises:
      never when its comparison stays true, turns false or stays false. */
  lemma {:induction false} RaisedExactlyOnRisingEdges(conditions: seq<Condition>, previous: seq<bool>, samples: seq<int>, k: nat)
    requires |previous| == |conditions| == |samples|
    requires k <= |conditions|
    ensures forall i :: 0 <= i < k ==>
              (EventFor(conditions, i) in RaisedBefore(conditions, previous, samples, k)
               <==> Rises(conditions, previous, samples, i))
  {
    if k > 0 {
      RaisedExactlyOnRisingEdges(conditions, previous, samples, k - 1);
      RaisedAreRisingEdges(conditions, previous, samples, k - 1);
      var before := RaisedBefore(conditions, previous, samples, k - 1);
      forall j | 0 <= j < |before|
        ensures before[j] != EventFor(conditions, k - 1)
      {
        assert before[j].value <= k - 1;
      }
      forall i | 0 <= i < k - 1
        ensures EventFor(conditions, i) in RaisedBefore(conditions, previous, samples, k)
                <==> EventFor(conditions, i) in before
      {
        assert EventFor(conditions, i).value != EventFor(conditions, k - 1).value;
      }
    }
  }

  /** Across passes, the event of condition `i` is raised in pass `t` exactly
      when its comparison holds on that pass's sample and did not hold on the
      previous pass's sample (or, in the first pass, in the stored result it
      starts from): the poller is edge-triggered. */
  lemma {:induction false} TraceFiresOnRisingEdges(conditions: seq<Condition>, previous: seq<bool>, passes: seq<seq<int>>, t: nat, i: nat)
    requires |previous| == |conditions|
    requires WellFormedPasses(conditions, passes)
    requires t < |passes| && i < |conditions|
    ensures |Trace(conditions, previous, passes)| == |passes|
    ensures EventFor(conditions, i) in Trace(conditions, previous, passes)[t]
            <==> Holds(passes[t][i], conditions[i].compareType, conditions[i].threshold)
                 && !(if t == 0 then previous[i]
                      else Holds(passes[t - 1][i], conditions[i].compareType, conditions[i].threshold))
    decreases t
  {
    var rest := passes[1..];
    assert WellFormedPasses(conditions, rest) by {
      forall u | 0 <= u < |rest| ensures |rest[u]| == |conditions| {
        assert rest[u] == passes[u + 1];
      }
    }
    var next := NextResults(conditions, passes[0]);
    if t == 0 {
      RaisedExactlyOnRisingEdges(conditions, previous, passes[0], |conditions|);
    } else {
      TraceFiresOnRisingEdges(conditions, next, rest, t - 1, i);
      assert rest[t - 1] == passes[t];
      if t > 1 {
        assert rest[t - 2] == passes[t - 1];
      }
    }
  }

  /** One condition `P0 > 500` polled on the levels 300, 300, 600, 600, 300,
      600: its event is raised in the third and the sixth pass only. */
  lemma SingleConditionScenario()
    ensures Trace([Condition(P0, MoreThan, 500)], [false], [[300], [300], [600], [600], [300], [600]])
            == [[], [], [Event(MicrobitIdIoP0, 1)], [], [], [Event(MicrobitIdIoP0, 1)]]
  {
    var cs := [Condition(P0, MoreThan, 500)];
    var e := Event(MicrobitIdIoP0, 1);
    assert NextResults(cs, [300]) == [false];
    assert NextResults(cs, [600]) == [true];
    assert Raised(cs, [false], [300]) == [];
    assert Raised(cs, [false], [600]) == [e];
    assert Raised(cs, [true], [600]) == [];
    assert Raised(cs, [true], [300]) == [];
    assert Trace(cs, [false], [[600]]) == [[e]];
    assert Trace(cs, [true], [[300], [600]]) == [[], [e]];
    assert Trace(cs, [true], [[600], [300], [600]]) == [[], [], [e]];
    assert Trace(cs, [false], [[600], [600], [300], [600]]) == [[e], [], [], [e]];
    assert Trace(cs, [false], [[300], [600], [600], [300], [600]]) == [[], [e], [], [], [e]];
  }

  /** Two conditions on one pin, `> 200` and `< 800`, keep separate edge
      state. A first level of 500 satisfies both, so both events are raised;
      held at 500 neither is raised again; at 900 and then 100 only the
      second one is raised. */
  lemma TwoConditionsScenario()
    ensures Trace([Condition(P1, MoreThan, 200), Condition(P1, LessThan, 800)], [false, false],
                  [[500, 500], [500, 500], [900, 900], [100, 100]])
            == [[Event(MicrobitIdIoP1, 1), Event(MicrobitIdIoP1, 2)], [], [], [Event(MicrobitIdIoP1, 2)]]
  {
    var cs := [Condition(P1, MoreThan, 200), Condition(P1, LessThan, 800)];
    var e1, e2 := Event(MicrobitIdIoP1, 1), Event(MicrobitIdIoP1, 2);
    assert NextResults(cs, [500, 500]) == [true, true];
    assert NextResults(cs, [900, 900]) == [true, false];
    assert Raised(cs, [false, false], [500, 500]) == [e1, e2];
    assert Raised(cs, [true, true], [500, 500]) == [];
    assert Raised(cs, [true, true], [900, 900]) == [];
    assert Raised(cs, [true, false], [100, 100]) == [e2];
    assert Trace(cs, [true, false], [[100, 100]]) == [[e2]];
    assert Trace(cs, [true, true], [[900, 900], [100, 100]]) == [[], [e2]];
    assert Trace(cs, [true, true], [[500, 500], [900, 900], [100, 100]]) == [[], [], [e2]];
  }

  /** The registry of `edubit_sound_sensor`: its module-level state, plus a
      record of what it asked the host to do. */
  class SoundSensorMonitor {
    var bgFunctionCreated: bool
    var eventType: nat
    var compareTypesArray: seq<SoundSensorCompareType>
    var thresholdsArray: seq<int>
    var pinsArray: seq<SoundBitPin>
    var oldCompareResult: seq<bool>

    /** The (source, value) pairs handed to `control.onEvent`, in order. */
    var subscriptions: seq<Event>
    /** How many times the poller was handed to `control.inBackground`. */
    var pollersStarted: nat

    /** The registered conditions, one per index of the parallel arrays. */
    ghost var conditions: seq<Condition>

    /** The registry invariant: the arrays are parallel and as long as the
        counter, the handler of index `i` was subscribed on its pin's source
        under value `i + 1`, and exactly one poller runs once anything has
        been registered. */
    ghost predicate Valid()
      reads this
    {
      |compareTypesArray| == eventType
      && |thresholdsArray| == eventType
      && |pinsArray| == eventType
      && |oldCompareResult| == eventType
      && |conditions| == eventType
      && (forall i :: 0 <= i < eventType ==>
            conditions[i] == Condition(pinsArray[i], compareTypesArray[i], thresholdsArray[i]))
      && |subscriptions| == eventType
      && (forall i :: 0 <= i < eventType ==> subscriptions[i] == EventFor(conditions, i))
      && (bgFunctionCreated <==> eventType > 0)
      && pollersStarted == (if bgFunctionCreated then 1 else 0)
    }

    /** The state of the namespace when the program starts. */
    constructor ()
      ensures Valid()
      ensures !bgFunctionCreated && eventType == 0 && pollersStarted == 0
      ensures compareTypesArray == [] && thresholdsArray == [] && pinsArray == []
      ensures oldCompareResult == [] && subscriptions == [] && conditions == []
    {
      bgFunctionCreated := false;
      eventType := 0;
      compareTypesArray := [];
      thresholdsArray := [];
      pinsArray := [];
      oldCompareResult := [];
      subscriptions := [];
      pollersStarted := 0;
      conditions := [];
    }

    /** `onEvent`: registers a condition under the next event value, on the
        source of its pin, and starts the poller on the first registration
        only. Earlier entries are unchanged. */
    method OnEvent(pin: SoundBitPin, compareType: SoundSensorCompareType, threshold: int)
      requires Valid()
      modifies this
      ensures Valid()
      ensures eventType == old(eventType) + 1
      ensures compareTypesArray == old(compareTypesArray) + [compareType]
      ensures thresholdsArray == old(thresholdsArray) + [threshold]
      ensures pinsArray == old(pinsArray) + [pin]
      ensures oldCompareResult == old(oldCompareResult) + [false]
      ensures conditions == old(conditions) + [Condition(pin, compareType, threshold)]
      ensures subscriptions == old(subscriptions) + [Event(EventSource(pin), eventType)]
      ensures bgFunctionCreated && pollersStarted == 1
    {
      eventType := eventType + 1;

      compareTypesArray := compareTypesArray + [compareType];
      thresholdsArray := thresholdsArray + [threshold];
      pinsArray := pinsArray + [pin];
      conditions := conditions + [Condition(pin, compareType, threshold)];

      oldCompareResult := oldCompareResult + [false];

      subscriptions := subscriptions + [Event(EventSource(pin), eventType)];

      if !bgFunctionCreated {
        pollersStarted := pollersStarted + 1;
        bgFunctionCreated := true;
      }
    }

    /** One pass of the background poller's `for` loop. `samples[i]` is the
        sound level read for condition `i`. The pass stores every new
        comparison result, touches nothing else, and returns the events it
        raises: exactly those of the rising conditions, each one a pair some
        handler was subscribed under. */
    method PollPass(samples: seq<int>) returns (raised: seq<Event>)
      requires Valid()
      requires |samples| == eventType
      modifies this`oldCompareResult
      ensures Valid()
      ensures |oldCompareResult| == eventType
      ensures forall i :: 0 <= i < eventType ==>
                oldCompareResult[i] == Holds(samples[i], compareTypesArray[i], thresholdsArray[i])
      ensures oldCompareResult == NextResults(conditions, samples)
      ensures raised == Raised(conditions, old(oldCompareResult), samples)
      ensures forall i :: 0 <= i < eventType ==>
                (Event(EventSource(pinsArray[i]), i + 1) in raised
                 <==> Holds(samples[i], compareTypesArray[i], thresholdsArray[i]) && !old(oldCompareResult)[i])
      ensures forall j :: 0 <= j < |raised| ==>
                1 <= raised[j].value <= eventType && raised[j] == subscriptions[raised[j].value - 1]
      ensures forall a, b :: 0 <= a < b < |raised| ==> raised[a].value < raised[b].value
    {
      ghost var previous := oldCompareResult;
      raised := [];
      var i := 0;
      while i < eventType
        invariant 0 <= i <= eventType
        invariant |oldCompareResult| == eventType
        invariant forall k :: 0 <= k < i ==>
                    oldCompareResult[k] == Holds(samples[k], compareTypesArray[k], thresholdsArray[k])
        invariant forall k :: i <= k < eventType ==> oldCompareResult[k] == previous[k]
        invariant raised == RaisedBefore(conditions, previous, samples, i)
      {
        var result := CompareSoundSensor(samples[i], compareTypesArray[i], thresholdsArray[i]);
        if result {
          if !oldCompareResult[i] {
            raised := raised + [Event(EventSource(pinsArray[i]), i + 1)];
          }
          oldCompareResult := oldCompareResult[i := true];
        } else {
          oldCompareResult := oldCompareResult[i := false];
        }
        i := i + 1;
      }
      RaisedExactlyOnRisingEdges(conditions, previous, samples, eventType);
      RaisedAreRisingEdges(conditions, previous, samples, eventType);
      forall i | 0 <= i < eventType
        ensures EventFor(conditions, i) == Event(EventSource(pinsArray[i]), i + 1)
      {
      }
    }
  }
}
