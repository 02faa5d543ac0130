/**
 * The pieces of the help text of flag.go: UnquoteUsage's back-quoted name,
 * the header and the per-flag and per-subcommand lines of getDefaultUsage,
 * and the error getDefaultUsage builds from its isZeroValue failures.
 */
module Usage {
  import opened Base
  import opened Values
  import opened Flags

  /** UnquoteUsage's two results. */
  datatype Unquoted = Unquoted(name: string, usage: string)

  /**
   * The first back-quoted part of usage is the name, and usage loses those
   * two back quotes; with no closing quote, or no quote at all, the name is
   * the value's type word and usage is kept.
   */
  function Unquote(usage: string, v: Value): Unquoted
  {
    var i := IndexFrom(usage, '`', 0);
    if i == |usage| then Unquoted(ValueTypeName(v), usage)
    else
      var j := IndexFrom(usage, '`', i + 1);
      if j == |usage| then Unquoted(ValueTypeName(v), usage)
      else Unquoted(usage[i + 1..j], usage[..i] + usage[i + 1..j] + usage[j + 1..])
  }

  /** UnquoteUsage: scan for the first back quote, then for the next one. */
  method UnquoteUsage(flag: Flag) returns (name: string, usage: string)
    ensures Unquoted(name, usage) == Unquote(flag.usage, flag.value.v)
  {
    usage := flag.usage;
    var i := 0;
    while i < |usage|
      invariant i <= |usage| && usage == flag.usage
      invariant forall k :: 0 <= k < i ==> usage[k] != '`'
    {
      if usage[i] == '`' {
        IndexFromFirst(usage, '`', 0, i);
        var j := i + 1;
        while j < |usage|
          invariant i + 1 <= j <= |usage|
          invariant forall k :: i + 1 <= k < j ==> usage[k] != '`'
        {
          if usage[j] == '`' {
            IndexFromFirst(usage, '`', i + 1, j);
            name := usage[i + 1..j];
            usage := usage[..i] + name + usage[j + 1..];
            return;
          }
          j := j + 1;
        }
        IndexFromFirst(usage, '`', i + 1, |usage|);
        break;
      }
      i := i + 1;
    }
    if i == |usage| {
      IndexFromFirst(usage, '`', 0, i);
    }
    name := ValueTypeName(flag.value.v);
  }

  /** A back-quoted name is taken out and the quotes dropped: "a `name` to show" gives ("name", "a name to show"). */
  lemma UnquotePair(pre: string, name: string, post: string, v: Value)
    requires '`' !in pre && '`' !in name
    ensures Unquote(pre + "`" + name + "`" + post, v) == Unquoted(name, pre + name + post)
  {
    var u := pre + "`" + name + "`" + post;
    var i, j := |pre|, |pre| + 1 + |name|;
    assert forall k :: 0 <= k < i ==> u[k] == pre[k];
    assert forall k :: i + 1 <= k < j ==> u[k] == name[k - i - 1];
    IndexFromFirst(u, '`', 0, i);
    IndexFromFirst(u, '`', i + 1, j);
    assert u[..i] == pre && u[i + 1..j] == name && u[j + 1..] == post;
  }

  /** The example UnquoteUsage documents. */
  lemma UnquoteExample(v: Value)
    ensures Unquote("a `name` to show", v) == Unquoted("name", "a name to show")
  {
    var u := "a `name` to show";
    IndexFromFirst(u, '`', 0, 2);
    IndexFromFirst(u, '`', 3, 7);
    assert u[3..7] == "name";
    assert u[..2] + u[3..7] + u[8..] == "a name to show";
  }

  /** With at most one back quote the usage is kept and the name is the type word: "" for a bool flag. */
  lemma UnquoteFallback(usage: string, v: Value)
    requires forall a, b :: 0 <= a < b < |usage| ==> usage[a] != '`' || usage[b] != '`'
    ensures Unquote(usage, v) == Unquoted(ValueTypeName(v), usage)
    ensures IsBoolFlag(v) ==> Unquote(usage, v).name == ""
  {
    var i := IndexFrom(usage, '`', 0);
    if i < |usage| {
      var j := IndexFrom(usage, '`', i + 1);
      assert j == |usage|;
    }
  }

  /** getDefaultUsage's opening lines: the command's own usage, then how to call it. */
  function Header(usg: string, commandName: string, hasFlags: bool, hasSubCmds: bool): string
  {
    (if usg != "" then usg + "\n\n" else "")
    + (if hasFlags then "usage:\n  " + commandName + " [<flags>]\n" else "")
    + (if hasFlags && hasSubCmds then "  or\n" else "")
    + (if hasSubCmds then "  " + commandName + " [<sub-command>]\n" + "\nAvailable sub commands:\n" else "")
  }

  /**
   * The header opens with the command's own usage text and a blank line when
   * it has one, then the call forms: with flags and no subcommands it ends
   * with the flags form; with subcommands it ends with the subcommand form
   * and the heading of their list; with neither it is the usage text alone.
   */
  lemma HeaderShape(usg: string, commandName: string, hasFlags: bool, hasSubCmds: bool)
    ensures var h := Header(usg, commandName, hasFlags, hasSubCmds);
      && (!hasFlags && !hasSubCmds ==> h == if usg != "" then usg + "\n\n" else "")
      && (usg != "" ==> HasPrefix(h, usg + "\n\n"))
      && (hasFlags && !hasSubCmds ==> HasSuffix(h, "usage:\n  " + commandName + " [<flags>]\n"))
      && (hasSubCmds ==> HasSuffix(h, "  " + commandName + " [<sub-command>]\n" + "\nAvailable sub commands:\n"))
  {
    var intro := if usg != "" then usg + "\n\n" else "";
    var flags := if hasFlags then "usage:\n  " + commandName + " [<flags>]\n" else "";
    var or := if hasFlags && hasSubCmds then "  or\n" else "";
    var subs := if hasSubCmds then "  " + commandName + " [<sub-command>]\n" + "\nAvailable sub commands:\n" else "";
    var h := Header(usg, commandName, hasFlags, hasSubCmds);
    assert h == intro + flags + or + subs;
    assert h[..|intro|] == intro;
    assert h[|h| - |subs|..] == subs;
    if !hasSubCmds {
      assert h == intro + flags;
      assert h[|h| - |flags|..] == flags;
    }
  }

  /** The line for one subcommand: its name, then its usage text. */
  function SubCmdLine(name: string, usg: string): (l: string)
    ensures HasPrefix(l, "  " + name + "  ") && HasSuffix(l, usg + "\n")
    ensures |l| == |name| + |usg| + 5
  {
    var l := "  " + name + "  " + usg + "\n";
    assert l[..|name| + 4] == "  " + name + "  ";
    assert l[|l| - |usg| - 1..] == usg + "\n";
    l
  }

  /**
   * The short line for one flag: an alias points at the flag it stands for;
   * any other flag shows its usage (or a placeholder) and its default text.
   */
  function FlagLine(name: string, typeName: string, usage: string, defValue: string, aliasFor: string): (l: string)
    ensures |l| > 0 && l[|l| - 1] == '\n'
  {
    if aliasFor == "" then
      "  --" + name + " " + typeName + "  " + (if usage == "" then "usage not available" else usage)
      + ", (defaults to \"" + defValue + "\")\n"
    else "  --" + name + " " + typeName + "  alias for \"--" + aliasFor + "\"\n"
  }

  /**
   * Every line starts with the flag's name after two dashes and its type
   * word; an alias line names its flag instead of a default, and a flag
   * without usage text gets a placeholder.
   */
  lemma FlagLineShape(name: string, typeName: string, usage: string, defValue: string, aliasFor: string)
    ensures HasPrefix(FlagLine(name, typeName, usage, defValue, aliasFor), "  --" + name + " " + typeName + "  ")
    ensures aliasFor != "" ==>
              FlagLine(name, typeName, usage, defValue, aliasFor)
              == "  --" + name + " " + typeName + "  " + "alias for \"--" + aliasFor + "\"\n"
    ensures aliasFor == "" && usage == "" ==>
              FlagLine(name, typeName, usage, defValue, aliasFor)
              == "  --" + name + " " + typeName + "  " + "usage not available, (defaults to \"" + defValue + "\")\n"
  {
    var head := "  --" + name + " " + typeName + "  ";
    var line := FlagLine(name, typeName, usage, defValue, aliasFor);
    if aliasFor == "" {
      var u := if usage == "" then "usage not available" else usage;
      assert line == head + u + ", (defaults to \"" + defValue + "\")\n";
      assert line[..|head|] == head;
    } else {
      assert line == head + "alias for \"--" + aliasFor + "\"\n";
      assert line[..|head|] == head;
    }
  }

  /** Every error text followed by a newline, in order. */
  function Lines(errs: seq<string>): (s: string)
    ensures |s| >= |errs|
  {
    if errs == [] then "" else Lines(errs[..|errs| - 1]) + errs[|errs| - 1] + "\n"
  }

  /** The end of getDefaultUsage: the isZeroValue failures, one per line, as one error. */
  method ZeroValueError(errs: seq<string>) returns (err: Option<string>)
    ensures err.None? <==> errs == []
    ensures err.Some? ==> err.value == Lines(errs)
  {
    var errS := "";
    for i := 0 to |errs|
      invariant errS == Lines(errs[..i])
    {
      assert errs[..i + 1][..i] == errs[..i];
      errS := errS + errs[i] + "\n";
    }
    assert errs[..|errs|] == errs;
    err := if errS != "" then Some(errS) else None;
  }

  /**
   * getDefaultUsage never fills its list of isZeroValue failures, so the
   * error it returns is always nil.
   */
  method DefaultUsageError() returns (err: Option<string>)
    ensures err == None
  {
    var isZeroValueErrs: seq<string> := [];
    err := ZeroValueError(isZeroValueErrs);
  }
}
