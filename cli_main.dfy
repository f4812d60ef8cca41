/** `main` of the repository CLI: help for no command or a help flag, an
    error and help for a command the table does not have, and otherwise the
    command's handler with the remaining arguments. Printing, the handlers
    themselves and `process.exit` are left out: `main` is modelled by the
    decision it takes and the exit code that follows. */
module CliMain {

  /** The names of the `commands` table, in its order. */
  const Commands: seq<string> := [
    "dev", "serve", "build",
    "docker:up", "docker:down",
    "db:migrate", "db:generate", "db:seed", "db:push", "db:minato",
    "generate:app", "generate:lib",
    "status", "info", "clean", "reset", "logs",
    "test", "test:e2e",
    "rename", "rename:preview"
  ]

  /** The properties every plain object literal inherits from
      `Object.prototype`; indexing the table with one of them yields a
      value, not `undefined`. */
  const Inherited: seq<string> := [
    "constructor", "hasOwnProperty", "isPrototypeOf", "propertyIsEnumerable",
    "toLocaleString", "toString", "valueOf",
    "__proto__", "__defineGetter__", "__defineSetter__", "__lookupGetter__", "__lookupSetter__"
  ]

  /** What `main` does. */
  datatype Decision = ShowHelp | UnknownCommand(name: string) | RunHandler(name: string, args: seq<string>)

  /** No command (`undefined`, or the falsy empty string), `help`,
      `--help` or `-h`. */
  predicate WantsHelp(args: seq<string>) {
    |args| == 0 || args[0] == "" || args[0] == "help" || args[0] == "--help" || args[0] == "-h"
  }

  /** The lookup as written: `commands[command]` is truthy for the table's
      own names and for the inherited ones. */
  function DecideAsWritten(args: seq<string>): (d: Decision)
    ensures d == ShowHelp <==> WantsHelp(args)
    ensures d.RunHandler? <==> !WantsHelp(args) && (args[0] in Commands || args[0] in Inherited)
    ensures d.RunHandler? ==> d.name == args[0] && d.args == args[1..]
    ensures d.UnknownCommand? ==> d.name == args[0]
  {
    if WantsHelp(args) then ShowHelp
    else if args[0] in Commands || args[0] in Inherited then RunHandler(args[0], args[1..])
    else UnknownCommand(args[0])
  }

  /** `bun repo toString` is not reported as unknown: the inherited
      `toString` is called as if it were a handler. */
  lemma InheritedNameRuns()
    ensures DecideAsWritten(["toString"]) == RunHandler("toString", [])
    ensures "toString" !in Commands
  {
  }

  /** The lookup as intended: only the table's own names have a handler. */
  function Decide(args: seq<string>): (d: Decision)
    ensures d == ShowHelp <==> WantsHelp(args)
    ensures d.UnknownCommand? <==> !WantsHelp(args) && args[0] !in Commands
    ensures d.UnknownCommand? ==> d.name == args[0]
    ensures d.RunHandler? ==> d.name == args[0] && d.name in Commands && d.args == args[1..]
  {
    if WantsHelp(args) then ShowHelp
    else if args[0] in Commands then RunHandler(args[0], args[1..])
    else UnknownCommand(args[0])
  }

  /** The two lookups agree on every name that is not inherited. */
  lemma DecideAgrees(args: seq<string>)
    requires |args| == 0 || args[0] !in Inherited
    ensures DecideAsWritten(args) == Decide(args)
  {
  }

  /** The exit code: 0 after help, 1 for an unknown command, and for a
      handler 1 when it threw and 0 when it finished. */
  function ExitCode(d: Decision, handlerThrew: bool): (code: int)
    ensures code == 0 || code == 1
    ensures d.ShowHelp? ==> code == 0
    ensures d.UnknownCommand? ==> code == 1
    ensures d.RunHandler? ==> (code == 1 <==> handlerThrew)
  {
    match d
    case ShowHelp => 0
    case UnknownCommand(_) => 1
    case RunHandler(_, _) => if handlerThrew then 1 else 0
  }

  /** `main`, with the intended lookup (`Decide`): a run ends with 0 exactly
      when help was asked for or a table command's handler finished. As
      written (`DecideAsWritten`), a name inherited from `Object.prototype`
      also ends with 0 when its "handler" does not throw. */
  lemma MainExitCode(args: seq<string>, handlerThrew: bool)
    ensures ExitCode(Decide(args), handlerThrew) == 0 <==>
            WantsHelp(args) || (args[0] in Commands && !handlerThrew)
    ensures ExitCode(DecideAsWritten(args), handlerThrew) == 0 <==>
            WantsHelp(args) || ((args[0] in Commands || args[0] in Inherited) && !handlerThrew)
  {
  }
}
