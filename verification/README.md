# jfr-flame-graph: event selection and stack forwarding, in Dafny

This project models the part of jfr-flame-graph that reads a Java Flight Recorder
recording and feeds it to a flame-graph output writer. It covers two files.

- `EventType.java` defines the event categories a flame graph can be drawn for: `cpu`,
  `allocation-tlab`, `allocation-outside-tlab`, `exceptions`, `monitor-blocked` and `io`.
  Each category has a command-line option, the JFR event type names it matches, and a
  value-field strategy that turns an event into a weight. `EventTypeConverter` maps an
  option back to its category. Modelled in `event_type.dfy`, module `EventTypes`.
- `JFRToFlameGraphWriter.java` holds the converter's option fields and their defaults.
  `getStack` turns a stack trace into a stack of frame names. `convertToStacks` scans
  every event of the recording. It forwards each event that matches the chosen category
  and has a stack trace as one `processEvent(0, 0, 0, stack, value)` call, then calls
  `writeOutput` once. Modelled in `stack_builder.dfy` (module `StackBuilder`: what
  `getStack` computes) and `flame_graph_writer.dfy` (module `FlameGraph`).

The library the converter calls, JDK Mission Control (JMC), appears in `jmc.dfy` only
as data: frames, stack traces, events and their attributes. Its frame formatter
`StacktraceFormatToolkit.formatFrame` is a function parameter (`Formatter`). Java's
null, exceptions and `long` bounds are in `platform.dfy`.

The output writer is a class, `FlameGraphOutputWriter`, that records the calls it
receives (`Initialize`, `ProcessEvent`, `WriteOutput`). `ConvertToStacks` is proved to
leave exactly the log `ConversionLog` in it. `Forward` and its lemmas pin that log down.
`Qualifying` and `CallsFor` give an independent filter-then-map definition, and the
lemmas relate the two.

Four points where the code may not do what a reader of a flame-graph tool expects; the
model follows the code:
- `getStack` does not reverse the frames. It pushes named frames in `getFrames()` order,
  so the last named frame ends up on top of the stack.
- The frame name depends only on `ignoreLineNumbers`. `formatFrame` gets fixed arguments
  for return values, class names and arguments. The `--show-return-value`,
  `--use-simple-names` and `--hide-arguments` fields exist, but `getFrameName` does not
  read them.
- The folding aggregator is not in these files. This model stops at the calls made on
  the writer.
- A weight strategy that cannot find its attribute throws a `NullPointerException`. The
  exception leaves `convertToStacks`, so `writeOutput` is never called.

## Model

| member | source | states |
|---|---|---|
| EventTypes.ValuesListEveryTypeOnce | src/main/java/com/github/chrishantha/jfr/flamegraph/output/EventType.java:46-51 | `values()` lists each of the six categories exactly once |
| EventTypes.ToStringIsOption | src/main/java/com/github/chrishantha/jfr/flamegraph/output/EventType.java:72-75 | `toString` of each category is its command-line option ("cpu" for METHOD_PROFILING_SAMPLE, and so on) |
| EventTypes.OptionsDistinct | src/main/java/com/github/chrishantha/jfr/flamegraph/output/EventType.java:46-51 | two categories with the same option are the same category |
| EventTypes.EventNamesDisjoint | src/main/java/com/github/chrishantha/jfr/flamegraph/output/EventType.java:46-51 | the name lists are pairwise disjoint, so an event matches at most one category |
| EventTypes.MatchesIffNamed | src/main/java/com/github/chrishantha/jfr/flamegraph/output/EventType.java:63-66 | `matches` holds iff the event's type name is one of the category's names; IO accepts exactly the four file and socket read/write names |
| EventTypes.CountWeighsOne | src/main/java/com/github/chrishantha/jfr/flamegraph/output/EventType.java:98-103 | COUNT weighs every event 1, so CPU samples and Java exceptions weigh 1 |
| EventTypes.GetValueDispatch | src/main/java/com/github/chrishantha/jfr/flamegraph/output/EventType.java:68-70 | `getValue` delegates to DURATION for monitor-blocked and io, TLAB_SIZE for allocation-tlab, ALLOCATION_SIZE for allocation-outside-tlab |
| EventTypes.GetValueFailsOnlyWithoutAccessor | src/main/java/com/github/chrishantha/jfr/flamegraph/output/EventType.java:104-142 | a strategy throws, always a NullPointerException, exactly when the attribute it reads is missing and, for DURATION, the start or the end time is missing as well (DURATION falls back to end minus start); TLAB_SIZE's fallback adds nothing |
| EventTypes.GetValueReadsAttribute | src/main/java/com/github/chrishantha/jfr/flamegraph/output/EventType.java:117-141 | a present duration is the DURATION weight; a present TLAB size is the weight of both TLAB_SIZE and ALLOCATION_SIZE, because the latter reads it first |
| EventTypes.TypesByOptionKeys | src/main/java/com/github/chrishantha/jfr/flamegraph/output/EventType.java:81-85 | the map filled by putting each category under its option has exactly those options as keys, each mapped to a category with that option |
| EventTypes.TypesByOptionLookup | src/main/java/com/github/chrishantha/jfr/flamegraph/output/EventType.java:88-93 | a string is a key of the converter's map iff it is the option of some category, and then it maps to that category |
| EventTypes.ConvertRoundTrip | src/main/java/com/github/chrishantha/jfr/flamegraph/output/EventType.java:81-94 | looking up `t.toString()` in the converter's map gives `t` back, for every category |
| EventTypes.TypesByOptionHoldsSix | src/main/java/com/github/chrishantha/jfr/flamegraph/output/EventType.java:79-85 | the converter's map has six entries, keyed by the six option strings |
| EventTypes.EventTypeConverter.constructor | src/main/java/com/github/chrishantha/jfr/flamegraph/output/EventType.java:79-85 | the initializer's loop over `values()` leaves the map equal to `TypesByOption(Values)`, with six entries |
| EventTypes.EventTypeConverter.Convert | src/main/java/com/github/chrishantha/jfr/flamegraph/output/EventType.java:87-94 | succeeds iff the string is some category's option, and then returns the category with that option, so `convert(t.toString()) == t` for every category; otherwise fails with IllegalArgumentException "Event type [s] does not exist." |
| StackBuilder.NamedFramesAppend | src/main/java/com/github/chrishantha/jfr/flamegraph/output/JFRToFlameGraphWriter.java:230-239 | the stack of a concatenated trace is the concatenation of the stacks: frames are handled one at a time, in order |
| StackBuilder.NamedFramesSize | src/main/java/com/github/chrishantha/jfr/flamegraph/output/JFRToFlameGraphWriter.java:232-236 | the stack is at most as long as the trace, and equally long iff every frame gets a name |
| StackBuilder.NamedFramesPositions | src/main/java/com/github/chrishantha/jfr/flamegraph/output/JFRToFlameGraphWriter.java:230-239 | the stack holds exactly the names of the named frames, at strictly increasing trace positions, with every named frame included |
| StackBuilder.NamedFramesEmpty | src/main/java/com/github/chrishantha/jfr/flamegraph/output/JFRToFlameGraphWriter.java:231-238 | the stack is empty iff no frame of the trace gets a name |
| StackBuilder.NamedFramesTop | src/main/java/com/github/chrishantha/jfr/flamegraph/output/JFRToFlameGraphWriter.java:231-238 | the top of a non-empty stack is the name of a frame after which no frame is named, i.e. the last named frame |
| FlameGraph.FrameFormatChoice | src/main/java/com/github/chrishantha/jfr/flamegraph/output/JFRToFlameGraphWriter.java:241-253 | frames are categorised by LINE iff line numbers are not ignored, else by METHOD; no optimisation split, no return values, no arguments, package-qualified class names |
| FlameGraph.FlameGraphOutputWriter.constructor | src/main/java/com/github/chrishantha/jfr/flamegraph/output/JFRToFlameGraphWriter.java:126 | a new writer has received no calls |
| FlameGraph.FlameGraphOutputWriter.Initialize | src/main/java/com/github/chrishantha/jfr/flamegraph/output/JFRToFlameGraphWriter.java:127 | appends one `initialize` call to the writer's log |
| FlameGraph.FlameGraphOutputWriter.ProcessEvent | src/main/java/com/github/chrishantha/jfr/flamegraph/output/JFRToFlameGraphWriter.java:143 | appends one `processEvent` call, with its arguments, to the writer's log |
| FlameGraph.FlameGraphOutputWriter.WriteOutput | src/main/java/com/github/chrishantha/jfr/flamegraph/output/JFRToFlameGraphWriter.java:149 | appends one `writeOutput` call to the writer's log |
| FlameGraph.ForwardConcat | src/main/java/com/github/chrishantha/jfr/flamegraph/output/JFRToFlameGraphWriter.java:130-145 | scanning `a + b` sends `a`'s calls then `b`'s; `b` is reached only if no exception stopped the scan of `a` |
| FlameGraph.ForwardFiltersThenMaps | src/main/java/com/github/chrishantha/jfr/flamegraph/output/JFRToFlameGraphWriter.java:130-145 | the scan completes iff every qualifying event has a weight; then it makes exactly one call per qualifying event (matching category, non-null stack trace), in iteration order, with its stack and weight |
| FlameGraph.ForwardStopsAtFailure | src/main/java/com/github/chrishantha/jfr/flamegraph/output/JFRToFlameGraphWriter.java:141-143 | a qualifying event whose weight throws ends the scan with that exception, after the calls for the qualifying events before it |
| FlameGraph.ForwardIgnoresUnqualified | src/main/java/com/github/chrishantha/jfr/flamegraph/output/JFRToFlameGraphWriter.java:132-139 | events that fail `matches` or have no stack trace change nothing: scanning only the qualifying events sends the same calls |
| FlameGraph.ForwardSendsOnlyEvents | src/main/java/com/github/chrishantha/jfr/flamegraph/output/JFRToFlameGraphWriter.java:142-143 | every forwarded call is `processEvent(0, 0, 0, stack, value)`, and there are no more of them than events |
| FlameGraph.ConversionLogShape | src/main/java/com/github/chrishantha/jfr/flamegraph/output/JFRToFlameGraphWriter.java:125-151 | a run initializes the writer first, then sends only zero-timestamp events; `writeOutput` is made once, as the last call, iff no exception stopped the scan |
| FlameGraph.JfrToFlameGraphWriter.constructor | src/main/java/com/github/chrishantha/jfr/flamegraph/output/JFRToFlameGraphWriter.java:47-89 | flags default to false, the timestamp bounds to `Long.MIN_VALUE` and `Long.MAX_VALUE`, the event type to METHOD_PROFILING_SAMPLE |
| FlameGraph.JfrToFlameGraphWriter.GetStack | src/main/java/com/github/chrishantha/jfr/flamegraph/output/JFRToFlameGraphWriter.java:230-239 | the loop pushes exactly `NamedFrames` of the trace under this converter's frame format |
| FlameGraph.JfrToFlameGraphWriter.ForwardItems | src/main/java/com/github/chrishantha/jfr/flamegraph/output/JFRToFlameGraphWriter.java:131-144 | the inner loop appends exactly `Forward(items)`'s calls to the writer and reports its exception |
| FlameGraph.JfrToFlameGraphWriter.ForwardRecording | src/main/java/com/github/chrishantha/jfr/flamegraph/output/JFRToFlameGraphWriter.java:130-145 | the outer loop appends exactly `Forward` of the whole recording, iterable after iterable, to the writer and reports its exception |
| FlameGraph.JfrToFlameGraphWriter.ConvertToStacks | src/main/java/com/github/chrishantha/jfr/flamegraph/output/JFRToFlameGraphWriter.java:125-151 | a fresh writer ends up with exactly `ConversionLog` of the recording; the exception returned is the scan's |
| FlameGraph.JfrToFlameGraphWriter.Process | src/main/java/com/github/chrishantha/jfr/flamegraph/output/JFRToFlameGraphWriter.java:101-109 | with `--print-jfr-details` nothing is converted; otherwise the result is that of `ConvertToStacks` |

## Left out

- `loadRecording` and `decompressFile`: file and GZIP I/O. The recording is given to `ConvertToStacks` and `Process` as a sequence of iterables of events.
- `printJFRDetails` only prints "not implemented yet", and its body and `matchesTimeRange` are commented out. `Process` models only the choice not to convert. The start and end timestamp fields are therefore never read.
- The output sink (`FileWriter`, `PrintWriter(System.out)`, `BufferedWriter`) and the `jfrdump`, `outputFile` and `outputType` fields are I/O and writer selection. `writeOutput` appears only as a logged call.
- `FlameGraphOutputWriter` and `OutputType` are not part of this model. How the writer folds stacks and what it writes are not represented, and neither is the `OutputWriterParameters` argument to `initialize`.
- JMC is not modelled: `formatFrame` is an opaque function parameter, and attribute accessors are attributes that are present or missing on an event.
- EventTypes.ValueField.GetValue: an accessor that exists but yields null for the event is not represented (an attribute is either present with a value or missing). In the source that case throws a NullPointerException at EventType.java lines 114, 125 and 138 without any fallback. In particular, ALLOCATION_SIZE does not fall back to the allocation size when a TLAB size accessor exists but yields null.
- `getStackTrace`: a null stack trace is `None`. The NullPointerException it would throw on an event type with no stack-trace accessor at all is not modelled.
- EventTypes.ValueField.GetValue: quantities are taken as already converted to milliseconds or kibibytes. JMC's unit conversion and `longValue` truncation, possibly via floating point, are not modelled. The DURATION fallback subtracts converted values, while JMC converts the difference. 64-bit overflow is not modelled either.
- `EventTypeConverter`'s map is a static field in Java, filled once by a static initializer. Here it is an instance field filled by the constructor.
- JCommander argument parsing (the `@Parameter` annotations, `help`) is not modelled beyond the fields' default values.
- `java.util.Stack` is a sequence, bottom first. Each event gets a fresh stack, so aliasing plays no part.
