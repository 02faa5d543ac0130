# turbo_flag command engine in Dafny

This project models the core of `turbo_flag`, a Go command-line flag
library derived from the standard `flag` package. It adds subcommands and
per-flag "features" (environment variables, config paths, enum
restrictions and aliases).

The model covers the following parts of `flag.go`:

- **Values.** The built-in flag values bool, int, int64, uint, uint64 and
  string form one tagged union (`Values.Value`). The Go variable a value
  writes through is a `ValueCell`, so a flag and its aliases can share it.
  The setters use the number parsing of `Strconv`. A setter stores the
  parsed result even when it also reports an error.
- **Flags.** A `Flag` is a class. Its four feature sets are fields that
  the features fill in. `Flag.Set` checks the enum set and then calls the
  value's setter.
- **Commands.** A `Command` is a class with the `formal` and `actual`
  flag tables, the remaining `args`, the subcommand table, the parent link
  and the shared configuration tree. Its methods change that state in
  place:
  - `varErr` (`VarErr`, `Define`);
  - the four features (`BindEnv`, `BindCfg`, `BindEnum`, `Alias`),
    applied in priority order;
  - `Set`;
  - `parseOne` (`ParseOne` and the methods it calls);
  - the `Parse` loop;
  - subcommand dispatch;
  - `SubCmd` and `Init`.
- **Specifications.** Each imperative method is proved against a pure
  specification:
  - `Tokenizer.StepSpec` and `RunSpec` for the scanner;
  - `Features.EnvSpec`, `CfgSpec`, `EnumSpec`, `AliasSpec` and
    `ApplyFeatures` for the features.

  The modules `ScannerFacts`, `FeatureFacts` and `Scenarios` prove what
  the library promises about those specifications. The module
  `Walkthrough` runs the alias test on the `Command` class itself, from
  `VarErr` to `Parse`.
- **Usage text.** The help text helpers are modelled: `UnquoteUsage`,
  `valueTypeName`, the command-name chain, the per-line shapes, and the
  error of `getDefaultUsage`, which is always nil.

Inputs that Go reads from the process are parameters of the model:

- The environment is a `map<string, string>` given to `BindEnv` and
  `VarErr`.
- The configuration tree is a store from dot paths to text (`ConfigTree`).
- A subcommand handler is an opaque number. `Parse` returns the call it
  would make (`HandlerCall`) instead of making it.
- `os.Exit` and `panic` in `handleError` are `Completion` values.
- The panics of `alias` and the `bind*` helpers are error values
  (`FlagError`) that the methods return.

Where the documentation and the code disagree, the model follows the code:

- `bindEnum` checks only the default text against the enum list
  (flag.go:1250). It never checks the current value, and values that came
  from an environment variable or the config are never enum-checked.
  `FeatureFacts.EnumChecksDefaultOnly` and
  `FeatureFacts.EnvValueEscapesEnum` state this.
- The comment on `Parse` says that it returns ErrHelp when `-help` or `-h`
  is given but not defined. No path in `parseOne` produces ErrHelp
  (flag.go:820-888): an undefined `-help` is "flag provided but not
  defined". `ScannerFacts.RunNoHelp` states this.
- A bool flag is set through its value's own `Set` (flag.go:859-868),
  not through `Flag.Set`. So the enum set of a bool flag is never checked
  when it is parsed. `ScannerFacts.BoolFlagSkipsEnum` states this.

## Model

| member | source | states |
|---|---|---|
| Strconv.ParseUint | flag.go:139-146 | Success only for non-empty decimal digits without a leading zero, and then the value is the number the digits denote (DecimalValue); conversely such digits give that number when it fits in 64 bits and a range error with the bound when it does not; a syntax error carries 0 |
| Strconv.ParseInt | flag.go:97-104 | Success only for an optional sign and canonical digits, and then the value is the signed number they denote (SignedValue); conversely such text gives that number when it fits in int64, and a range error with MaxInt64 or MinInt64 on the side it overflows; a syntax error carries 0 |
| Strconv.FormatUint | flag.go:150 | The text is canonical decimal digits (no leading zero unless the number is 0) denoting exactly the number |
| Strconv.FormatInt | flag.go:108 | The text is an optional '-' and canonical digits denoting exactly the number, with the '-' exactly for a negative number |
| Strconv.ParseFormatUint | flag.go:139-150 | The uint setter reads back every 64-bit value its String method writes, with no error |
| Strconv.ParseFormatInt | flag.go:97-108 | The int setter reads back every 64-bit value its String method writes, with no error |
| Strconv.ParseFormatBool | flag.go:67-78 | The bool setter reads back both values its String method writes |
| Values.NumError | flag.go:30-42 | No error exactly when parsing succeeded; a syntax error becomes errParse and a range error becomes errRange |
| Values.SetText | flag.go:67-184 | A setter keeps the value's kind, stores the zero value on a parse error and the bound on a range error, always accepts a string, and accepts bool text exactly when ParseBool does |
| Values.Render | flag.go:78-188 | A bool renders as "true" or "false", a string as itself, an int or int64 as signed canonical digits denoting it, a uint or uint64 as canonical digits denoting it |
| Values.IsBoolFlag | flag.go:80 | True exactly for a bool value, whose setter then accepts "true" with no error |
| Values.ValueTypeName | flag.go:670-687 | "" exactly for a bool flag, "int" exactly for int and int64, "uint" exactly for uint and uint64, "string" exactly for string |
| Values.SetRenderRoundTrip | flag.go:67-188 | Setting any value from the text String gives for another value of the same kind yields that value, with no error |
| Values.RenderSetRender | flag.go:67-188 | String, then Set, then String gives back the first text |
| Values.ValueCell.Set | flag.go:67-73 | The cell holds what the setter computed from its old value, and the setter's error is returned |
| Errors.Quote | flag.go:486-488 | The text between two double quotes |
| Errors.MessageEndsWithCause | flag.go:862-880 | The text of parseOne's wrapping errors, and of the panics of alias (flag.go:1276) and bindEnv (flag.go:1342), ends with a colon and the text of the error it wraps |
| Errors.RedefinedMessage | flag.go:493-501 | An unnamed command reports "flag redefined: x"; a named command adds its name and a blank in front |
| Flags.IsEnumValid | flag.go:310-322 | True exactly when the list is empty or contains the text |
| Flags.Keys | flag.go:331-337 | Lists every key of the set exactly once |
| Flags.Flag.constructor | flag.go:492 | A new flag has the given name, usage, value and default, empty feature sets, and is not an alias |
| Flags.Flag.Set | flag.go:324-329 | The new value and error are those of FlagSet: refuse text outside a non-empty enum set, else delegate to the value's setter |
| Flags.FlagSet | flag.go:324-329 | The value keeps its kind; success needs an empty enum set or an allowed text; a failure is the enum refusal, which leaves the value as it was, or the setter's error |
| Flags.NameCheck | flag.go:483-501 | No error exactly when the name has no leading '-', no '=' and is not yet defined; any error is one of the three that name it |
| Flags.FlagSetEnumGuard | flag.go:324-329 | Text outside a non-empty enum set gives an error and leaves the value unchanged; otherwise the result and failure are exactly the setter's |
| Flags.FlagSetRenderRoundTrip | flag.go:324-329 | Setting a flag from another value's text restores that value without error whenever the enum set allows the text |
| Flags.NameCheckNone | flag.go:485-497 | A name is accepted exactly when it has no leading '-', no '=' and is not yet defined |
| Flags.Flag.BecomeAliasOf | flag.go:1278-1286 | The alias takes the flag's env, cfg and enum sets and points to the flag; each records the other, and the alias also gets the flag's earlier aliases |
| Config.ConfigTree.constructor | flag.go:1106 | A new tree is empty |
| Config.ConfigTree.Get | flag.go:1304 | Returns the text stored under a path exactly when the path is present |
| Config.ConfigTree.Put | flag.go:1311-1316 | Only the given path changes, to the given text |
| Features.SortByIndex | flag.go:1227-1236 | The features come out sorted by priority index and as a permutation of the input |
| Features.AliasLast | flag.go:1263 | Alias carries the highest index, so in a sorted list only aliases follow an alias |
| Features.SortedUnique | flag.go:1227-1236 | With distinct indices, a sorted permutation is unique, so Go's unstable sort has one possible outcome |
| Features.OrderIndependent | flag.go:507-508 | Features with distinct indices are applied in the same order whatever order they were passed in |
| Tokenizer.SplitAtEquals | flag.go:843-852 | The token splits at its first '=' from position 1 on, with name + "=" + value giving the token back; with no such '=' the whole token is the name |
| Tokenizer.Classify | flag.go:820-842 | Not a flag exactly for no argument, or one shorter than 2 or without a leading '-'; "--" exactly for the terminator; a flag token is dashes + body with a body that does not start with '-' or '=' |
| Tokenizer.BoolStep | flag.go:859-868 | A bool flag is seen exactly when no error is reported, and no further argument is consumed |
| Tokenizer.ValueStep | flag.go:869-882 | A value flag is seen only without error and never lengthens the argument list |
| Tokenizer.NextStep | flag.go:870-878 | Taking the value from the next argument is seen only without error and consumes at most that argument |
| Tokenizer.SetStep | flag.go:879-887 | Once the text is known, the flag is seen exactly when no error is reported, and no argument is consumed |
| Tokenizer.FlagStep | flag.go:853-887 | After the lookup the step is seen only without error, never lengthens the arguments, and keeps the set of flags with values |
| Tokenizer.StepSpec | flag.go:820-888 | A step that sees a flag reports no error and strictly shortens the arguments, so the Parse loop ends |
| ScannerFacts.NotAFlagUntouched | flag.go:821-827 | No arguments, or a first one shorter than 2 or without '-', sees nothing and changes nothing, and Parse stops there without error |
| ScannerFacts.TerminatorEnds | flag.go:828-835 | "--" is consumed and ends the Parse loop without error |
| ScannerFacts.BadSyntaxUntouched | flag.go:836-840 | Dashes followed by nothing, '-' or '=' are "bad flag syntax" and nothing is consumed |
| ScannerFacts.SplitsAtFirstEquals | flag.go:843-852 | "name=value" gives that name and value, whatever the value holds |
| ScannerFacts.UnknownFlagFails | flag.go:853-857 | An undefined name fails with "not defined" after its token is consumed, and both the step and the Parse loop leave the set flags unchanged |
| ScannerFacts.BoolFlagKeepsNext | flag.go:859-868 | A bool flag consumes only its own token; a bare "-b" stores true through every flag that shares its value and marks b as set |
| ScannerFacts.BoolFlagSkipsEnum | flag.go:859-868 | A bool flag given "=value" stores the parsed bool through its value's own setter; its enum set plays no part, so text outside it is accepted |
| ScannerFacts.ValueFlagTakesNext | flag.go:869-882 | A value flag without "=value" takes the next argument through Flag.Set, and fails with "needs an argument" when none is left |
| ScannerFacts.StepSuffix | flag.go:820-888 | A step only takes arguments off the front |
| ScannerFacts.RunSuffix | flag.go:955-965 | The Parse loop only takes arguments off the front |
| ScannerFacts.StepMarks | flag.go:883-887 | A seen flag adds the name as typed to the set flags, and that name is defined; an unseen step leaves the set flags as they were |
| ScannerFacts.RunMarks | flag.go:955-965 | After the Parse loop the set flags have only grown, and only by defined names |
| ScannerFacts.StepNoHelp | flag.go:820-888 | parseOne never returns ErrHelp |
| ScannerFacts.RunNoHelp | flag.go:938-967 | Parse never fails with ErrHelp, whatever its comment says |
| Commands.GetFirstSubCommandWithArgs | flag.go:912-921 | ok exactly when the first argument exists and has no '-'; then the name followed by the rest is the input; otherwise ("", nil, false) |
| Commands.HandleError | flag.go:923-937 | ContinueOnError returns the error unchanged; ExitOnError exits with 0 for ErrHelp and 2 otherwise; PanicOnError panics with the error |
| Commands.Command.Main | flag.go:1105-1119 | A root command with an empty subcommand table, a fresh empty configuration tree and no flags |
| Commands.Command.One | flag.go:1378-1384 | A root command with neither a subcommand table nor a configuration tree |
| Commands.Command.Child | flag.go:1211-1216 | A child inherits the error handling, config path and config tree, and points to its parent |
| Commands.Command.Init | flag.go:1124-1127 | Sets the name and the error handling |
| Commands.Command.NFlag | flag.go:794 | The number of set flags, never more than the number of defined flags |
| Commands.Command.NArg | flag.go:807 | The number of remaining arguments |
| Commands.Command.Arg | flag.go:799-805 | The i'th remaining argument, or "" for any index out of range |
| Commands.Command.ChainIsLineage | flag.go:722-731 | The usage command name is the names from the root down to this command, joined by blanks |
| Commands.Command.UsageName | flag.go:722-731 | The parent walk builds exactly that chain name |
| Commands.Command.AliasShares | flag.go:1269-1288 | An alias and its flag hold one value cell, so each sees what is set through the other |
| Commands.Command.Define | flag.go:483-506 | Fails with the NameCheck error and leaves formal unchanged, or files a fresh flag under the name with the value's text as default |
| Commands.Command.VarErr | flag.go:483-513 | A rejected name leaves formal unchanged; an accepted one files the flag and ends in the state ApplyFeatures gives for the features sorted by index; on success every other new name stands for the flag: same value cell, usage, default text and sets, and marked as its alias |
| Commands.Command.ApplyAll | flag.go:507-511 | Applying the features stops at the first failure and matches ApplyFeatures; for a sorted list, every flag filed on the way stands for the flag |
| Commands.Command.ApplyTurn | flag.go:509-511 | One turn advances ApplyFeatures by one feature, and in a sorted list nothing is filed before the first alias feature |
| Commands.Command.ApplyOne | flag.go:509-511 | One feature acts as its specification says and no defined flag is removed; only alias adds flags, it leaves the flag's sets and value alone, and what was filed before still stands for the flag |
| Commands.Command.BindEnv | flag.go:1335-1346 | Matches EnvSpec: each variable is recorded, non-empty text goes through Flag.Set, and the first failure stops; actual is untouched |
| Commands.Command.EnvTurn | flag.go:1336-1345 | One variable as EnvStep says |
| Commands.Command.BindCfg | flag.go:1302-1322 | Matches CfgSpec: each path holding text sets the flag, any other path gets the current text written back, then all paths are recorded; actual is untouched |
| Commands.Command.CfgTurn | flag.go:1303-1318 | One path as CfgStep says, including the nil tree of a command made by OneCmd |
| Commands.Command.RecordCfgs | flag.go:1319-1321 | Every path is added to the flag's cfgs |
| Commands.Command.BindEnum | flag.go:1249-1256 | Matches EnumSpec: fails when the default is not allowed by the list, otherwise adds the list to the enum set |
| Commands.Command.AddAlias | flag.go:1270-1287 | Matches AliasStep; on success a fresh flag stands for the flag under the new name, and the two record each other |
| Commands.Command.AliasTurn | flag.go:1270-1287 | One alias name is filed and everything filed before is kept |
| Commands.Command.Alias | flag.go:1269-1288 | Matches AliasSpec; on success each name is defined, stands for the flag, and records the flag and every earlier alias, and every flag it filed stands for the flag |
| Commands.Command.Set | flag.go:602-616 | An unknown name fails with "no such flag" and changes nothing; otherwise the value seen through every sharing flag is FlagSet's, and the flag is marked set exactly on success |
| Commands.Command.SetBool | flag.go:859-868 | The result and new state are BoolStep's |
| Commands.Command.SetValue | flag.go:869-882 | The result and new state are ValueStep's |
| Commands.Command.SetNext | flag.go:870-878 | The result and new state are NextStep's |
| Commands.Command.SetAndMark | flag.go:879-887 | The result and new state are SetStep's |
| Commands.Command.ParseOne | flag.go:820-888 | The result and new state (arguments, set flags, values) are StepSpec's for the state on entry |
| Commands.Command.SetFlag | flag.go:843-888 | After the '=' search, the result and new state are StepSpec's |
| Commands.Command.TakeFlag | flag.go:844-857 | After the token is consumed, the result and new state are FlagStep's |
| Commands.Command.SetDefined | flag.go:859-887 | A defined flag is set as a bool flag or a value flag, as FlagStep says |
| Commands.Command.ParseSubCommandAndRun | flag.go:900-910 | Runs the named subcommand's handler with the remaining arguments exactly when the first argument names one; a dash-free unknown name is an error |
| Commands.Command.Parse | flag.go:944-967 | On dispatch, returns nil or the handled error without touching args, actual, values or parsed; otherwise marks parsed and ends in RunSpec's state and error, passed through handleError |
| Commands.Command.ParseFlags | flag.go:954-966 | Marks parsed, then ends in RunSpec's state and error for the given arguments |
| Commands.Command.ParseArgs | flag.go:956-965 | Repeats parseOne until no flag is seen, ending in RunSpec's state and error |
| Commands.Command.SubCmd | flag.go:1210-1225 | Files a fresh child under the name, with the handler; the child inherits the error handling and config and points to this command |
| FeatureFacts.PriorityOrder | flag.go:1227-1236 | One feature of each kind, passed in any order, is applied as Env, Cfg, Enum, Alias |
| FeatureFacts.EnvBeforeCfg | flag.go:1227-1236 | Env runs before Cfg in either passing order |
| FeatureFacts.EnvBeforeEnum | flag.go:1227-1236 | Env runs before Enum |
| FeatureFacts.EnvOne | flag.go:1335-1346 | A single variable acts as one bindEnv turn |
| FeatureFacts.CfgOne | flag.go:1302-1322 | A single path acts as one bindCfg turn and is then recorded |
| FeatureFacts.ApplyTwo | flag.go:507-511 | The second feature runs on the state the first leaves, unless the first fails |
| FeatureFacts.CfgOverridesEnv | flag.go:1302-1346 | With text at both, the config text is set on top of the environment's, whatever order the features were passed in |
| FeatureFacts.EnvValueEscapesEnum | flag.go:1249-1256 | Environment text outside an enum list given with it is stored, and the list is then added |
| FeatureFacts.EnumChecksDefaultOnly | flag.go:1249-1256 | bindEnum fails exactly when the list is non-empty and lacks the default, whatever the current value |
| FeatureFacts.CfgWritesBackCurrent | flag.go:1310-1316 | A missing path gets the flag's current text, the environment's when a variable set it, not the default |
| FeatureFacts.EnvLastWins | flag.go:1335-1346 | For a string flag without enums, every variable is recorded and the last non-empty one wins |
| FeatureFacts.AliasSpecDone | flag.go:1269-1288 | alias succeeds exactly when each name passes the checks in turn; then every name is defined and recorded as an alias |
| FeatureFacts.AliasSpecNames | flag.go:1269-1288 | alias succeeds exactly when no name is the flag's own and each passes varErr's checks against the earlier names too |
| FeatureFacts.AliasRepeatFails | flag.go:1269-1288 | A name given twice makes alias fail |
| Usage.UnquoteUsage | flag.go:650-668 | The result is Unquote's: the first back-quoted part with its quotes dropped, or the type word |
| Usage.UnquotePair | flag.go:650-668 | A back-quoted name is taken out and its quotes dropped from the usage |
| Usage.UnquoteExample | flag.go:645-648 | "a `name` to show" gives ("name", "a name to show") |
| Usage.UnquoteFallback | flag.go:662-667 | With at most one back quote the usage is kept and the name is the type word, "" for a bool flag |
| Usage.HeaderShape | flag.go:716-744 | The header opens with the usage text and a blank line when there is one; it ends with the flags form when there are flags and no subcommands, and with the subcommand form and list heading when there are subcommands |
| Usage.SubCmdLine | flag.go:746 | A subcommand line is its name, then its usage, indented and ended by a newline |
| Usage.FlagLine | flag.go:772-775 | Every flag line ends with a newline |
| Usage.FlagLineShape | flag.go:752-775 | A flag line starts with "--name type"; an alias line names its flag, and a flag without usage gets a placeholder |
| Usage.ZeroValueError | flag.go:781-790 | No error exactly when the list of failures is empty; otherwise the failures, one per line |
| Usage.DefaultUsageError | flag.go:714-790 | getDefaultUsage always returns a nil error |
| Scenarios.AliasScenario | flag_test.go:148-165 | "-p 12345" sets the password through its alias p and marks p as set |
| Walkthrough.NamesOk | flag_test.go:149-150 | "password" and "p" pass varErr's checks |
| Walkthrough.PasswordFeatures | flag_test.go:149-150 | The one alias feature files "p" and cannot fail |
| Walkthrough.PasswordView | flag_test.go:149-150 | With "p" standing for "password", Parse sees both names as one cell without enums |
| Walkthrough.AliasWalkthrough | flag_test.go:148-165 | Defining the flag through VarErr and parsing "-p 12345" on the command returns no error, sets the password cell to "12345", marks p as set and leaves no arguments |
| Scenarios.EnumScenario | flag_test.go:167-182 | "-options z" is refused by the enum set and the value stays "c" |
| Scenarios.EnumAllowedScenario | flag_test.go:183-192 | "-options a" is accepted and set |
| Scenarios.MixStep1 | flag_test.go:217 | A bare "-bool" sets true and consumes nothing more |
| Scenarios.MixStep2 | flag_test.go:218 | "-bool2=true" sets true from its own token |
| Scenarios.MixStep3 | flag_test.go:223 | "-string hello" takes the next argument |
| Scenarios.MixScenario | flag_test.go:202-266 | The bool, bool2 and string flags of testParse end set, and the extra argument remains |

## Left out

- Float64, duration, text and func values (flag.go:190-275) are not modelled: floating point, `time.ParseDuration`, reflection and foreign callbacks.
- Strconv.ParseInt: reads only the decimal part of base-0 syntax, so base prefixes such as "0x23", octal and underscores are syntax errors here.
- Strconv.ParseUint: same decimal-only limit as ParseInt.
- `int` and `uint` are taken to be 64 bits wide (`strconv.IntSize == 64`).
- Flags.Flag.BecomeAliasOf: copies the env, cfg and enum sets where Go shares the map objects. No code after `alias` (the last feature to run) changes them.
- Features.SortByIndex: `sort.Sort` is unstable, and the model fixes one admissible order (a stable insertion sort). `SortedUnique` shows the choice does not matter when indices are distinct.
- Errors.Message: ghost, because the enum set is listed in Go's random map order.
- Errors.Quote: does not escape quotes, backslashes or control characters as fmt's %q does. Quote is exact only for text without them.
- Values defined with `Var` from a user type are left out: the model has only the built-in values. So is a `Value` whose `IsBoolFlag` answers differently from call to call (the `boolFlagVar` of flag_test.go:313). Here IsBoolFlag is fixed by the value's kind.
- The full text of `getDefaultUsage` (flag.go:713-791) is not assembled. Lines come out in map order, the long form lists `qKeys`, and the "Use ... --help" line is repeated after every flag (flag.go:776-778). Only the name chain, the line shapes and the error are modelled.
- `isZeroValue` (flag.go:620-643), `GetFlagForPtr` and the `ptrs` table (flag.go:1348-1375) are left out: reflection and address printing.
- `LoadEnv`, `LoadCfg`, `bindCfgRecursiveAfterLoadCfg` (flag.go:1131-1208) and the dot-notation walk over nested maps are left out: file reading and decoding. The tree is a flat path-to-text store.
- `os.Getenv` is an explicit environment map.
- `os.Exit` and `panic` are `Completion` and `FlagError` values, not process control.
- A subcommand handler is opaque. `Parse` returns the call it would make, and what the handler does is not modelled.
- Commands.Command.SubCmd: requires a subcommand table. On a command made by `OneCmd` or `SubCmd`, Go writes to a nil map and panics.
- `MainCmd`'s read of `os.Args` and its call of `onCmd` are not modelled.
- Deprecated `Usage`, `PrintDefaults` and `SetOutput` are left out.
- `ParseWithoutArgs`, `Parsed`, `Args`, `Lookup`, `Name`, `Visit`, `VisitAll`, `sortFlags` and the typed definers (`Bool`, `IntVar`, ...) are thin wrappers around the modelled operations and are left out.
- Scenarios.MixScenario: uses only the bool, bool2 and string tokens of testParse. The others need float or duration values, or the base prefix "0x23".
- Scenarios.EnumScenario: the options flag is modelled without the alias and environment bindings of the test.
