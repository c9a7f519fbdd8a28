/**
 The parts of a command-line command declaration that the application fixes:
 name, description and options with their defaults. Parsing the argument
 vector into option values is done by the command-line library and is not
 modelled; the actions below receive the parsed values.
 */
module CommandLine {
  import opened Exceptions

  /** A default produced by an option's default-value factory. */
  datatype DefaultValue = IntDefault(i: int) | StringDefault(s: string)

  datatype OptionSpec = OptionSpec(name: string, description: string, defaultValue: Option<DefaultValue>)

  datatype CommandSpec = CommandSpec(name: string, description: string, options: seq<OptionSpec>)

  /** What a command action leaves behind: the exit code it sets
      (`Environment.ExitCode`) and the line it prints, if any. */
  datatype Report = Report(exitCode: int, line: Option<string>)
}
