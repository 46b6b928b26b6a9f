/** Log-level routing of the Cauldron plugin: `Cauldron.log(level, msg)`
    writes exactly one line, to the logger's info or error output, with a
    prefix chosen by the level and the debugging flag. */
module Logging {

  /** `java.util.logging.Level`.  The built-in levels are singletons compared
      by reference; `Custom` stands for any other `Level` object (a subclass
      instance), which is equal to none of the built-in ones. */
  datatype Level =
    | Severe | Warning | Info | Config | Fine | Finer | Finest | All | Off
    | Custom(name: string, value: int)

  /** The two slf4j logger methods the plugin calls. */
  datatype Sink = InfoSink | ErrorSink

  /** One call on the logger: which method and the string passed to it. */
  datatype LogLine = LogLine(sink: Sink, text: string)

  const WarnPrefix := "[WARN] "
  const DebugPrefix := "[DEBUG] "
  const UncategorizedPrefix := "[UNCATEGORIZED] "

  /** The line `log(level, msg)` writes when the debugging flag is `debugging`.
      Only SEVERE reaches the error output; INFO and SEVERE are written as
      they are; WARNING is tagged as a warning; FINE is tagged as debug
      output only while debugging, and every other case (FINE without
      debugging, CONFIG, FINER, FINEST, ALL, OFF, custom levels) is tagged
      as uncategorized. */
  function Route(level: Level, debugging: bool, msg: string): (line: LogLine)
    ensures line.sink == ErrorSink <==> level == Severe
    ensures line.text == msg <==> level == Info || level == Severe
    ensures line.text == WarnPrefix + msg <==> level == Warning
    ensures line.text == DebugPrefix + msg <==> level == Fine && debugging
    ensures line.text == UncategorizedPrefix + msg <==>
              level != Info && level != Warning && level != Severe && !(level == Fine && debugging)
  {
    if level == Info then
      LogLine(InfoSink, msg)
    else if level == Warning then
      LogLine(InfoSink, WarnPrefix + msg)
    else if level == Severe then
      LogLine(ErrorSink, msg)
    else if level == Fine && debugging then
      LogLine(InfoSink, DebugPrefix + msg)
    else
      LogLine(InfoSink, UncategorizedPrefix + msg)
  }
}
