/**
 * The REPL commands of src/commands.rs: a table keyed by exact command words,
 * and the runtime record (display mode and variables) the commands update in
 * place.
 */
module Commands {
  import opened Wrappers

  datatype DisplayMode = Binary | Decimal | Hex

  /** The entries of the command table. */
  datatype Command = Exit | Vars | Bin | Dec | Hex | Clear

  function CommandName(c: Command): string
  {
    match c
    case Exit => "exit"
    case Vars => "vars"
    case Bin => "bin"
    case Dec => "dec"
    case Hex => "hex"
    case Clear => "clear"
  }

  /** The keys of the command table. */
  const CommandNames: set<string> := {"exit", "vars", "bin", "dec", "hex", "clear"}

  /** Exact-key lookup: a line names a command only when it is one of the six words. */
  function LookupCommand(name: string): (r: Option<Command>)
    ensures r.Some? <==> name in CommandNames
    ensures r.Some? ==> CommandName(r.value) == name
  {
    if name == "exit" then Some(Exit)
    else if name == "vars" then Some(Vars)
    else if name == "bin" then Some(Bin)
    else if name == "dec" then Some(Dec)
    else if name == "hex" then Some(Command.Hex)
    else if name == "clear" then Some(Clear)
    else None
  }

  lemma LookupCommandName(c: Command)
    ensures LookupCommand(CommandName(c)) == Some(c)
  {
  }

  /** A snapshot of the runtime record. */
  datatype Settings = Settings(displayMode: DisplayMode, vars: map<string, int>)

  /**
   * What a command does to the record. `exit` ends the process and `vars`
   * only prints, so neither changes it.
   */
  function Run(c: Command, s: Settings): (t: Settings)
    ensures c in {Bin, Dec, Command.Hex} ==> t.vars == s.vars
    ensures c == Clear ==> t.vars == map[] && t.displayMode == s.displayMode
    ensures c == Bin ==> t.displayMode == Binary
    ensures c == Dec ==> t.displayMode == Decimal
    ensures c == Command.Hex ==> t.displayMode == DisplayMode.Hex
    ensures c in {Exit, Vars} ==> t == s
  {
    match c
    case Exit => s
    case Vars => s
    case Bin => s.(displayMode := Binary)
    case Dec => s.(displayMode := Decimal)
    case Hex => s.(displayMode := DisplayMode.Hex)
    case Clear => s.(vars := map[])
  }

  /** Running a command a second time changes nothing. */
  lemma RunIdempotent(c: Command, s: Settings)
    ensures Run(c, Run(c, s)) == Run(c, s)
  {
  }

  /** Clearing the variables and switching the display mode are independent. */
  lemma ClearCommutes(c: Command, s: Settings)
    ensures Run(Clear, Run(c, s)) == Run(c, Run(Clear, s))
  {
  }

  /** After any display-mode command the mode is the last one chosen. */
  lemma LastModeWins(c1: Command, c2: Command, s: Settings)
    requires c1 in {Bin, Dec, Command.Hex} && c2 in {Bin, Dec, Command.Hex}
    ensures Run(c2, Run(c1, s)) == Run(c2, s)
  {
  }

  class RuntimeVariables {
    var displayMode: DisplayMode
    var vars: map<string, int>

    function Snapshot(): Settings
      reads this
    {
      Settings(displayMode, vars)
    }

    /** The start-up state of the REPL: decimal display, no variables. */
    constructor ()
      ensures displayMode == Decimal && vars == map[]
    {
      displayMode := Decimal;
      vars := map[];
    }

    method DecDisplayMode()
      modifies this
      ensures displayMode == Decimal && vars == old(vars)
      ensures Snapshot() == Run(Dec, old(Snapshot()))
    {
      displayMode := Decimal;
    }

    method HexDisplayMode()
      modifies this
      ensures displayMode == DisplayMode.Hex && vars == old(vars)
      ensures Snapshot() == Run(Command.Hex, old(Snapshot()))
    {
      displayMode := DisplayMode.Hex;
    }

    method BinDisplayMode()
      modifies this
      ensures displayMode == Binary && vars == old(vars)
      ensures Snapshot() == Run(Bin, old(Snapshot()))
    {
      displayMode := Binary;
    }

    /** Empties the variables; the terminal-clearing output is not modelled. */
    method ClearFunction()
      modifies this
      ensures vars == map[] && displayMode == old(displayMode)
      ensures Snapshot() == Run(Clear, old(Snapshot()))
    {
      vars := map[];
    }

    /** Calls the table entry for `c` on this record. */
    method Execute(c: Command)
      modifies this
      ensures Snapshot() == Run(c, old(Snapshot()))
    {
      match c
      case Exit =>
      case Vars =>
      case Bin => BinDisplayMode();
      case Dec => DecDisplayMode();
      case Hex => HexDisplayMode();
      case Clear => ClearFunction();
    }
  }
}
