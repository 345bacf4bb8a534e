/** The parts of the JDK Mission Control (JMC) library the converter talks to, reduced
    to the values it reads. The library's own behaviour (frame formatting, unit
    conversion, recording parsing) is not modelled: it arrives as data or as a
    function parameter. */
module Jmc {
  import opened Platform

  /** One frame of a recorded stack trace. */
  datatype Frame = Frame(typeName: string, methodName: string, lineNumber: Option<int>)

  /** A recorded stack trace: its frames in the order `getFrames()` yields them. */
  datatype StackTrace = StackTrace(frames: seq<Frame>)

  /** The quantity attributes a weight strategy may look up on an event. `None` stands
      for an event type that has no accessor for that attribute. Time quantities are in
      milliseconds and memory quantities in kibibytes, i.e. already converted. */
  datatype Attributes = Attributes(
    duration: Option<int>,
    startTime: Option<int>,
    endTime: Option<int>,
    tlabSize: Option<int>,
    allocationSize: Option<int>)

  /** One event of a recording: the name of its type, its stack trace (null when the
      event carries none) and its quantity attributes. */
  datatype Item = Item(typeName: string, stackTrace: Option<StackTrace>, attributes: Attributes)

  /** How frames are told apart: by line number or by method only. */
  datatype FrameCategorization = Line | Method

  /** `FrameSeparator(categorization, distinguishFramesByOptimization)`. */
  datatype FrameSeparator = FrameSeparator(categorization: FrameCategorization, distinguishByOptimization: bool)

  /** The arguments `StacktraceFormatToolkit.formatFrame` takes after the frame, in the
      order the library declares them. */
  datatype FormatOptions = FormatOptions(
    separator: FrameSeparator,
    showReturnValue: bool,
    showReturnValuePackage: bool,
    showClassName: bool,
    showClassPackageName: bool,
    showArguments: bool,
    showArgumentsPackage: bool)

  /** `StacktraceFormatToolkit.formatFrame`: the display name of a frame, or null. */
  type Formatter = (Frame, FormatOptions) -> Option<string>
}
