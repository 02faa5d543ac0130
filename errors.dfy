/**
 * Every error value flag.go creates, as one datatype, and the text its
 * Error() method returns. The errors a Go program raises with panic (in Var,
 * alias and the bind* helpers) are values here too; the model returns them
 * where Go would unwind.
 */
module Errors {
  import opened Base
  import opened Values

  datatype FlagError =
      // varErr (flag.go:485-500)
    | BeginsWithDash(name: string)
    | ContainsEquals(name: string)
    | Redefined(cmd: string, name: string)
      // Flag.Set (flag.go:325-327)
    | EnumViolation(flag: string, allowed: set<string>)
      // Value.Set of a built-in value (flag.go:30-42, 67-73)
    | BadValue(valueError: ValueError)
      // Command.Set (flag.go:604-606)
    | NoSuchFlag(name: string)
      // parseOne (flag.go:820-888)
    | BadSyntax(token: string)
    | NotDefined(name: string)
    | InvalidBoolValue(value: string, name: string, cause: FlagError)
    | InvalidBoolFlag(name: string, cause: FlagError)
    | NeedsArgument(name: string)
    | InvalidValue(value: string, name: string, cause: FlagError)
      // parseSubCommandAndRun (flag.go:905)
    | NoSuchSubCommand(name: string)
      // ErrHelp (flag.go:20)
    | HelpRequested
      // the panics of alias, bindEnum, bindCfg and bindEnv (flag.go:1249, 1271, 1275, 1308, 1342)
    | AliasSameName(name: string)
    | AliasDefine(alias: string, flag: string, cause: FlagError)
    | EnumDefaultInvalid(flag: string, defValue: string, enums: seq<string>)
    | CfgSetFailed(notation: string, value: string, flag: string)
    | EnvSetFailed(flag: string, env: string, value: string, cause: FlagError)
      // bindCfg reading through the nil cfg field of a command made by OneCmd
    | NilConfig

  /** fmt's %q for text without characters that need escaping. */
  function Quote(s: string): (q: string)
    ensures |q| == |s| + 2 && q[0] == '"' && q[|q| - 1] == '"' && q[1..|q| - 1] == s
  {
    "\"" + s + "\""
  }

  /** fmt's %v for a []string: the elements between brackets, separated by blanks. */
  function Brackets(items: seq<string>): string
  {
    "[" + Join(items, " ") + "]"
  }

  function ValueErrorText(e: ValueError): string
  {
    match e
    case ErrParse => "parse error"
    case ErrRange => "value out of range"
  }

  /**
   * The elements of a set in some order: the order of a Go map's keys is
   * chosen at random on every iteration, so any listing is a possible one.
   */
  ghost function Listing(s: set<string>): (items: seq<string>)
    ensures Elements(items) == s && |items| == |s|
  {
    if s == {} then []
    else
      var x :| x in s;
      var rest := Listing(s - {x});
      assert |s - {x}| == |s| - 1;
      assert Elements([x] + rest) == {x} + Elements(rest);
      [x] + rest
  }

  /** The text of an error that wraps another: its own words, a colon, then the cause's text. */
  function Wrapped(text: string, cause: string): (m: string)
    ensures HasPrefix(m, text) && HasSuffix(m, ": " + cause)
  {
    assert (text + ": " + cause)[..|text|] == text;
    assert (text + ": " + cause)[|text|..] == ": " + cause;
    text + ": " + cause
  }

  /**
   * Error() of every error above. It is ghost because a set of enum values
   * is listed in map iteration order, which a program cannot predict.
   */
  ghost function Message(e: FlagError): string
  {
    match e
    case BeginsWithDash(name) => "flag " + Quote(name) + " begins with -"
    case ContainsEquals(name) => "flag " + Quote(name) + " contains ="
    case Redefined(cmd, name) =>
      if cmd == "" then "flag redefined: " + name else cmd + " flag redefined: " + name
    case EnumViolation(flag, allowed) =>
      "flag " + flag + " is a enum flag, needs one of these values " + Join(Listing(allowed), ", ")
    case BadValue(ve) => ValueErrorText(ve)
    case NoSuchFlag(name) => "no such flag -" + name
    case BadSyntax(token) => "bad flag syntax: " + token
    case NotDefined(name) => "flag provided but not defined: -" + name
    case InvalidBoolValue(value, name, cause) =>
      Wrapped("invalid boolean value " + Quote(value) + " for -" + name, Message(cause))
    case InvalidBoolFlag(name, cause) => Wrapped("invalid boolean flag " + name, Message(cause))
    case NeedsArgument(name) => "flag needs an argument: -" + name
    case InvalidValue(value, name, cause) =>
      Wrapped("invalid value " + Quote(value) + " for flag -" + name, Message(cause))
    case NoSuchSubCommand(name) =>
      "you are trying to run subcommand with name " + name + " but it doesn't exist"
    case HelpRequested => "flag: help requested"
    case AliasSameName(name) => "cannot add alias to the flag with the same name " + name
    case AliasDefine(alias, flag, cause) =>
      Wrapped("error while adding enums to the flag " + alias + " to flag " + flag + " ", Message(cause))
    case EnumDefaultInvalid(flag, defValue, enums) =>
      "you are trying to add enum feature to flag name [" + flag + "] but the default value of the flag is "
      + defValue + ", default value should be one of the value from enums " + Brackets(enums)
    case CfgSetFailed(notation, value, flag) =>
      "unable to set notation " + notation + " value " + value + " to flag " + flag
    case EnvSetFailed(flag, env, value, cause) =>
      Wrapped("error while setting value from environment, flag name " + flag + ",env " + env + ",value "
              + value + " ", Message(cause))
    case NilConfig => "runtime error: invalid memory address or nil pointer dereference"
  }

  /** An error that wraps another ends its text with a colon and the cause's text. */
  lemma MessageEndsWithCause(e: FlagError)
    requires e.InvalidBoolValue? || e.InvalidBoolFlag? || e.InvalidValue? || e.AliasDefine? || e.EnvSetFailed?
    ensures HasSuffix(Message(e), ": " + Message(e.cause))
  {
  }

  /**
   * The two redefinition messages differ exactly in the command-name prefix:
   * an unnamed command reports "flag redefined: x", a named one "<cmd> flag redefined: x".
   */
  lemma RedefinedMessage(cmd: string, name: string)
    ensures cmd == "" ==> Message(Redefined(cmd, name)) == "flag redefined: " + name
    ensures cmd != "" ==> Message(Redefined(cmd, name)) == cmd + " " + Message(Redefined("", name))
  {
  }
}
