/** The conversion driver of JFRToFlameGraphWriter.java: its option fields and their
    defaults, the frame namer it configures, and the loop that feeds every qualifying
    event of a recording to a flame-graph output writer. */
module FlameGraph {
  import opened Platform
  import opened Jmc
  import opened EventTypes
  import opened StackBuilder

  // ---------------------------------------------------------------------------
  // The output writer, as the log of the calls it receives

  /** One call on a `FlameGraphOutputWriter`. */
  datatype WriterCall =
    | Initialize
    | ProcessEvent(startTimestamp: int, endTimestamp: int, duration: int, stack: seq<string>, value: int)
    | WriteOutput

  /** A flame-graph output writer, seen only through the calls made on it; how it folds
      stacks and what it writes is FlameGraphOutputWriter's business, not part of this model. */
  class FlameGraphOutputWriter {
    var calls: seq<WriterCall>

    constructor ()
      ensures calls == []
    {
      calls := [];
    }

    method Initialize()
      modifies this
      ensures calls == old(calls) + [WriterCall.Initialize]
    {
      calls := calls + [WriterCall.Initialize];
    }

    method ProcessEvent(startTimestamp: int, endTimestamp: int, duration: int, stack: seq<string>, value: int)
      modifies this
      ensures calls == old(calls) + [WriterCall.ProcessEvent(startTimestamp, endTimestamp, duration, stack, value)]
    {
      calls := calls + [WriterCall.ProcessEvent(startTimestamp, endTimestamp, duration, stack, value)];
    }

    method WriteOutput()
      modifies this
      ensures calls == old(calls) + [WriterCall.WriteOutput]
    {
      calls := calls + [WriterCall.WriteOutput];
    }
  }

  // ---------------------------------------------------------------------------
  // The event-filtering pipeline as a function

  /** The arguments `getFrameName` passes to the frame formatter: frames are told apart
      by line unless line numbers are ignored; return values and arguments are hidden and
      class names are package-qualified whatever the other display options say. */
  function FrameFormat(ignoreLineNumbers: bool): FormatOptions
  {
    FormatOptions(
      FrameSeparator(if !ignoreLineNumbers then Line else Method, false),
      false, false, true, true, false, true)
  }

  /** Frames are categorised by LINE unless line numbers are ignored, then by METHOD;
      the remaining display choices are fixed. */
  lemma FrameFormatChoice(ignoreLineNumbers: bool)
    ensures FrameFormat(ignoreLineNumbers).separator.categorization == Line <==> !ignoreLineNumbers
    ensures FrameFormat(ignoreLineNumbers).separator.categorization == Method <==> ignoreLineNumbers
    ensures var o := FrameFormat(ignoreLineNumbers);
      && !o.separator.distinguishByOptimization
      && !o.showReturnValue && !o.showReturnValuePackage
      && o.showClassName && o.showClassPackageName
      && !o.showArguments && o.showArgumentsPackage
  {
  }

  /** An event the loop forwards: it matches the chosen category and has a stack trace. */
  predicate Qualifies(eventType: EventType, item: Item)
  {
    eventType.Matches(item) && item.stackTrace.Some?
  }

  /** The `processEvent` call the loop makes for a qualifying event whose weight is `value`. */
  function EventCall(item: Item, value: int, format: Formatter, options: FormatOptions): WriterCall
    requires item.stackTrace.Some?
  {
    ProcessEvent(0, 0, 0, NamedFrames(item.stackTrace.value.frames, format, options), value)
  }

  /** What scanning `items` in order sends to the writer, and the exception that stopped
      the scan, if any. */
  datatype Forwarded = Forwarded(calls: seq<WriterCall>, failure: Option<Throwable>)

  /** What one event adds in front of what the events after it send: nothing when it
      does not qualify, its `processEvent` call when its weight is known, and otherwise
      the exception, which ends the scan. */
  function Step(item: Item, rest: Forwarded, eventType: EventType, format: Formatter, options: FormatOptions): Forwarded
  {
    if !Qualifies(eventType, item) then rest
    else
      match eventType.GetValue(item)
      case Failure(e) => Forwarded([], Some(e))
      case Success(v) => Forwarded([EventCall(item, v, format, options)] + rest.calls, rest.failure)
  }

  /** The calls the scan of `items` makes, in order, and the exception that ended it. */
  function Forward(items: seq<Item>, eventType: EventType, format: Formatter, options: FormatOptions): Forwarded
    decreases |items|
  {
    if items == [] then Forwarded([], None)
    else Step(items[0], Forward(items[1..], eventType, format, options), eventType, format, options)
  }

  /** Scanning two runs of events one after the other: the second run is reached only
      when no exception ended the first. */
  lemma {:induction false} ForwardConcat(a: seq<Item>, b: seq<Item>, eventType: EventType, format: Formatter, options: FormatOptions)
    ensures var fa := Forward(a, eventType, format, options);
      Forward(a + b, eventType, format, options)
        == if fa.failure.None? then After(fa.calls, Forward(b, eventType, format, options)) else fa
    decreases |a|
  {
    if a == [] {
      assert a + b == b;
    } else {
      assert (a + b)[0] == a[0];
      assert (a + b)[1..] == a[1..] + b;
      ForwardConcat(a[1..], b, eventType, format, options);
    }
  }

  /** The events of a recording, iterable by iterable. */
  function Flatten(recording: seq<seq<Item>>): seq<Item>
  {
    if recording == [] then [] else Flatten(recording[..|recording| - 1]) + recording[|recording| - 1]
  }

  lemma {:induction false} FlattenConcat(a: seq<seq<Item>>, b: seq<seq<Item>>)
    ensures Flatten(a + b) == Flatten(a) + Flatten(b)
    decreases |b|
  {
    if b == [] {
      assert a + b == a;
    } else {
      var b', last := b[..|b| - 1], b[|b| - 1];
      assert (a + b)[..|a + b| - 1] == a + b';
      assert (a + b)[|a + b| - 1] == last;
      calc {
        Flatten(a + b);
        Flatten(a + b') + last;
        { FlattenConcat(a, b'); }
        (Flatten(a) + Flatten(b')) + last;
        Flatten(a) + (Flatten(b') + last);
      }
    }
  }

  /** Scanning the first `j + 1` iterables: the first `j`, then iterable `j`. */
  lemma ForwardRecordingStep(recording: seq<seq<Item>>, j: nat, eventType: EventType, format: Formatter, options: FormatOptions)
    requires j < |recording|
    requires Forward(Flatten(recording[..j]), eventType, format, options).failure.None?
    ensures Forward(Flatten(recording[..j + 1]), eventType, format, options)
      == After(Forward(Flatten(recording[..j]), eventType, format, options).calls,
              Forward(recording[j], eventType, format, options))
  {
    assert recording[..j + 1][..j] == recording[..j];
    ForwardConcat(Flatten(recording[..j]), recording[j], eventType, format, options);
  }

  /** Once an exception has stopped the scan, the iterables after it are never read. */
  lemma ForwardRecordingStops(recording: seq<seq<Item>>, j: nat, eventType: EventType, format: Formatter, options: FormatOptions)
    requires j <= |recording|
    requires Forward(Flatten(recording[..j]), eventType, format, options).failure.Some?
    ensures Forward(Flatten(recording), eventType, format, options)
      == Forward(Flatten(recording[..j]), eventType, format, options)
  {
    assert recording == recording[..j] + recording[j..];
    FlattenConcat(recording[..j], recording[j..]);
    ForwardConcat(Flatten(recording[..j]), Flatten(recording[j..]), eventType, format, options);
  }

  /** The full log of a conversion run: initialize, the forwarded events, and, when no
      exception stopped the scan, one final writeOutput. */
  function ConversionLog(recording: seq<seq<Item>>, eventType: EventType, format: Formatter, options: FormatOptions): seq<WriterCall>
  {
    var f := Forward(Flatten(recording), eventType, format, options);
    [WriterCall.Initialize] + f.calls + (if f.failure.None? then [WriterCall.WriteOutput] else [])
  }

  /** `calls` already sent, followed by what the rest of the scan sends. */
  function After(calls: seq<WriterCall>, rest: Forwarded): Forwarded
  {
    Forwarded(calls + rest.calls, rest.failure)
  }

  // ---------------------------------------------------------------------------
  // Properties of the pipeline

  /** Reference definition of the filter: the qualifying events, in order. */
  function Qualifying(items: seq<Item>, eventType: EventType): (r: seq<Item>)
    ensures |r| <= |items|
    ensures forall i :: 0 <= i < |r| ==> Qualifies(eventType, r[i]) && r[i] in items
  {
    if items == [] then []
    else if Qualifies(eventType, items[0]) then [items[0]] + Qualifying(items[1..], eventType)
    else Qualifying(items[1..], eventType)
  }

  /** Every qualifying event among `items` has a weight. */
  predicate AllWeighed(items: seq<Item>, eventType: EventType)
  {
    forall item :: item in items && Qualifies(eventType, item) ==> eventType.GetValue(item).Success?
  }

  /** Reference definition of the forwarding: one call per event, with that event's weight. */
  function CallsFor(events: seq<Item>, eventType: EventType, format: Formatter, options: FormatOptions): (r: seq<WriterCall>)
    requires forall i :: 0 <= i < |events| ==> events[i].stackTrace.Some? && eventType.GetValue(events[i]).Success?
    ensures |r| == |events|
  {
    if events == [] then []
    else
      var call := EventCall(events[0], eventType.GetValue(events[0]).value, format, options);
      [call] + CallsFor(events[1..], eventType, format, options)
  }

  /** When every qualifying event has a weight, the scan completes and makes exactly one
      call per qualifying event, in order: filter, then map. Otherwise it reports an
      exception. */
  lemma {:induction false} ForwardFiltersThenMaps(items: seq<Item>, eventType: EventType, format: Formatter, options: FormatOptions)
    ensures Forward(items, eventType, format, options).failure.None? <==> AllWeighed(items, eventType)
    ensures AllWeighed(items, eventType) ==>
      var q := Qualifying(items, eventType);
      Forward(items, eventType, format, options).calls == CallsFor(q, eventType, format, options)
      && |Forward(items, eventType, format, options).calls| == |q|
    decreases |items|
  {
    if items != [] {
      var item, rest := items[0], items[1..];
      ForwardFiltersThenMaps(rest, eventType, format, options);
      assert forall x :: x in items <==> x == item || x in rest;
      if Qualifies(eventType, item) && eventType.GetValue(item).Success? {
        var q := Qualifying(items, eventType);
        assert q == [item] + Qualifying(rest, eventType);
        if AllWeighed(items, eventType) {
          assert q[1..] == Qualifying(rest, eventType);
        }
      }
    }
  }

  /** An event the category matches but cannot weigh ends the scan: the events before it
      have been forwarded and nothing after it is. */
  lemma ForwardStopsAtFailure(items: seq<Item>, i: nat, eventType: EventType, format: Formatter, options: FormatOptions)
    requires i < |items| && Qualifies(eventType, items[i]) && eventType.GetValue(items[i]).Failure?
    requires AllWeighed(items[..i], eventType)
    ensures Forward(items, eventType, format, options)
      == Forwarded(CallsFor(Qualifying(items[..i], eventType), eventType, format, options),
                   Some(eventType.GetValue(items[i]).error))
  {
    assert items == items[..i] + items[i..];
    ForwardConcat(items[..i], items[i..], eventType, format, options);
    ForwardFiltersThenMaps(items[..i], eventType, format, options);
  }

  /** Events that do not qualify make no difference: scanning only the qualifying ones
      sends the same calls. */
  lemma {:induction false} ForwardIgnoresUnqualified(items: seq<Item>, eventType: EventType, format: Formatter, options: FormatOptions)
    ensures Forward(Qualifying(items, eventType), eventType, format, options) == Forward(items, eventType, format, options)
    decreases |items|
  {
    if items != [] {
      ForwardIgnoresUnqualified(items[1..], eventType, format, options);
      if Qualifies(eventType, items[0]) {
        ForwardCons(items[0], Qualifying(items[1..], eventType), eventType, format, options);
      }
    }
  }

  /** Scanning an event followed by more events: one `Step` in front of the rest. */
  lemma ForwardCons(item: Item, rest: seq<Item>, eventType: EventType, format: Formatter, options: FormatOptions)
    ensures Forward([item] + rest, eventType, format, options)
      == Step(item, Forward(rest, eventType, format, options), eventType, format, options)
  {
  }

  /** Every forwarded call is a `processEvent(0, 0, 0, stack, value)`. */
  lemma {:induction false} ForwardSendsOnlyEvents(items: seq<Item>, eventType: EventType, format: Formatter, options: FormatOptions)
    ensures var calls := Forward(items, eventType, format, options).calls;
      forall k :: 0 <= k < |calls| ==>
        calls[k].ProcessEvent? && calls[k].startTimestamp == 0 && calls[k].endTimestamp == 0 && calls[k].duration == 0
    ensures |Forward(items, eventType, format, options).calls| <= |items|
    decreases |items|
  {
    if items != [] {
      ForwardSendsOnlyEvents(items[1..], eventType, format, options);
    }
  }

  /** A run initializes the writer first and only then feeds it events; `writeOutput` is
      made once, as the last call, exactly when no exception stopped the scan. */
  lemma ConversionLogShape(recording: seq<seq<Item>>, eventType: EventType, format: Formatter, options: FormatOptions)
    ensures var log := ConversionLog(recording, eventType, format, options);
      && log[0] == WriterCall.Initialize
      && (forall k :: 0 < k < |log| ==> !log[k].Initialize?)
      && (forall k :: 0 <= k < |log| - 1 ==> !log[k].WriteOutput?)
      && (log[|log| - 1].WriteOutput? <==> Forward(Flatten(recording), eventType, format, options).failure.None?)
      && (forall k :: 0 < k < |log| && !log[k].WriteOutput? ==>
            log[k].ProcessEvent? && log[k].startTimestamp == 0 && log[k].endTimestamp == 0 && log[k].duration == 0)
  {
    var f := Forward(Flatten(recording), eventType, format, options);
    ForwardSendsOnlyEvents(Flatten(recording), eventType, format, options);
    var log := ConversionLog(recording, eventType, format, options);
    assert forall k :: 0 < k <= |f.calls| ==> log[k] == f.calls[k - 1];
  }

  // ---------------------------------------------------------------------------
  // The converter

  class JfrToFlameGraphWriter {
    var help: bool
    var decompress: bool
    var ignoreLineNumbers: bool
    var showReturnValue: bool
    var useSimpleNames: bool
    var hideArguments: bool
    var printJfrDetails: bool
    var printTimestamp: bool
    var startTimestamp: int
    var endTimestamp: int
    var eventType: EventType

    /** A converter with every option at its default. */
    constructor ()
      ensures !help && !decompress && !ignoreLineNumbers && !showReturnValue
      ensures !useSimpleNames && !hideArguments && !printJfrDetails && !printTimestamp
      ensures startTimestamp == LongMinValue && endTimestamp == LongMaxValue
      ensures eventType == MethodProfilingSample
    {
      help, decompress, ignoreLineNumbers := false, false, false;
      showReturnValue, useSimpleNames, hideArguments := false, false, false;
      printJfrDetails, printTimestamp := false, false;
      startTimestamp, endTimestamp := LongMinValue, LongMaxValue;
      eventType := MethodProfilingSample;
    }

    /** `getFrameName`: the formatter's name for `frame` under this converter's options. */
    function GetFrameName(frame: Frame, format: Formatter): Option<string>
      reads this
    {
      format(frame, FrameFormat(ignoreLineNumbers))
    }

    /** `getStack`: push the name of every named frame, in trace order. */
    method GetStack(stackTrace: StackTrace, format: Formatter) returns (stack: seq<string>)
      ensures stack == NamedFrames(stackTrace.frames, format, FrameFormat(ignoreLineNumbers))
    {
      var frames := stackTrace.frames;
      stack := [];
      for i := 0 to |frames|
        invariant stack == NamedFrames(frames[..i], format, FrameFormat(ignoreLineNumbers))
      {
        assert frames[..i + 1][..i] == frames[..i];
        var frameName := GetFrameName(frames[i], format);
        if frameName.Some? {
          stack := stack + [frameName.value];
        }
      }
      assert frames[..|frames|] == frames;
    }

    /** The inner loop of `convertToStacks` over one iterable of the recording. */
    method ForwardItems(writer: FlameGraphOutputWriter, items: seq<Item>, format: Formatter)
      returns (failure: Option<Throwable>)
      modifies writer
      ensures writer.calls == old(writer.calls) + Forward(items, eventType, format, FrameFormat(ignoreLineNumbers)).calls
      ensures failure == Forward(items, eventType, format, FrameFormat(ignoreLineNumbers)).failure
    {
      ghost var options := FrameFormat(ignoreLineNumbers);
      for k := 0 to |items|
        invariant writer.calls == old(writer.calls) + Forward(items[..k], eventType, format, options).calls
        invariant Forward(items[..k], eventType, format, options).failure == None
      {
        var item := items[k];
        ghost var done := Forward(items[..k], eventType, format, options);
        assert items[..k + 1] == items[..k] + [item];
        ForwardConcat(items[..k], [item], eventType, format, options);
        assert Forward([item], eventType, format, options)
          == Step(item, Forwarded([], None), eventType, format, options);
        if !eventType.Matches(item) {
          continue;
        }
        var stackTrace := item.stackTrace;
        if stackTrace.None? {
          continue;
        }
        var stack := GetStack(stackTrace.value, format);
        var value := eventType.GetValue(item);
        if value.Failure? {
          assert items == items[..k + 1] + items[k + 1..];
          ForwardConcat(items[..k + 1], items[k + 1..], eventType, format, options);
          return Some(value.error);
        }
        writer.ProcessEvent(0, 0, 0, stack, value.value);
      }
      assert items[..|items|] == items;
      failure := None;
    }

    /** The outer loop of `convertToStacks`, over the iterables of the recording. */
    method ForwardRecording(writer: FlameGraphOutputWriter, recording: seq<seq<Item>>, format: Formatter)
      returns (failure: Option<Throwable>)
      modifies writer
      ensures writer.calls == old(writer.calls) + Forward(Flatten(recording), eventType, format, FrameFormat(ignoreLineNumbers)).calls
      ensures failure == Forward(Flatten(recording), eventType, format, FrameFormat(ignoreLineNumbers)).failure
    {
      ghost var options := FrameFormat(ignoreLineNumbers);
      ghost var start := writer.calls;
      for j := 0 to |recording|
        invariant writer.calls == start + Forward(Flatten(recording[..j]), eventType, format, options).calls
        invariant Forward(Flatten(recording[..j]), eventType, format, options).failure == None
      {
        ghost var before := Forward(Flatten(recording[..j]), eventType, format, options);
        ghost var here := Forward(recording[j], eventType, format, options);
        ForwardRecordingStep(recording, j, eventType, format, options);
        failure := ForwardItems(writer, recording[j], format);
        assert writer.calls == start + (before.calls + here.calls);
        if failure.Some? {
          ForwardRecordingStops(recording, j + 1, eventType, format, options);
          return;
        }
      }
      assert recording[..|recording|] == recording;
      failure := None;
    }

    /** `convertToStacks`: a fresh writer, initialized, receives one `processEvent` per
        qualifying event in recording order and then one `writeOutput`; an exception
        from a weight strategy ends the run before `writeOutput`. */
    method ConvertToStacks(recording: seq<seq<Item>>, format: Formatter)
      returns (writer: FlameGraphOutputWriter, failure: Option<Throwable>)
      ensures fresh(writer)
      ensures writer.calls == ConversionLog(recording, eventType, format, FrameFormat(ignoreLineNumbers))
      ensures failure == Forward(Flatten(recording), eventType, format, FrameFormat(ignoreLineNumbers)).failure
    {
      writer := new FlameGraphOutputWriter();
      writer.Initialize();
      failure := ForwardRecording(writer, recording, format);
      if failure.None? {
        writer.WriteOutput();
      }
    }

    /** `process`: when asked for recording details, nothing is converted (that report
        is not implemented); otherwise the recording is converted. */
    method Process(recording: seq<seq<Item>>, format: Formatter)
      returns (writer: FlameGraphOutputWriter?, failure: Option<Throwable>)
      ensures printJfrDetails ==> writer == null && failure == None
      ensures !printJfrDetails ==> writer != null && fresh(writer)
      ensures !printJfrDetails ==>
        writer.calls == ConversionLog(recording, eventType, format, FrameFormat(ignoreLineNumbers))
      ensures !printJfrDetails ==>
        failure == Forward(Flatten(recording), eventType, format, FrameFormat(ignoreLineNumbers)).failure
    {
      if printJfrDetails {
        writer, failure := null, None;
      } else {
        writer, failure := ConvertToStacks(recording, format);
      }
    }
  }
}
