/**
 * Stand-ins for the console component's input definition and input, and
 * the per-command argument/option configuration entries.
 */
module Console {
  import opened Wrappers
  import opened Values

  /** InputArgument modes. */
  const ARGUMENT_REQUIRED: int := 1
  const ARGUMENT_OPTIONAL: int := 2
  const ARGUMENT_IS_ARRAY: int := 4

  /** InputOption modes; they are distinct bits, so `a | b` is `a + b`. */
  const VALUE_NONE: int := 1
  const VALUE_REQUIRED: int := 2
  const VALUE_OPTIONAL: int := 4
  const VALUE_IS_ARRAY: int := 8

  /** One entry of a command's `field_arguments` configuration. */
  datatype ArgumentConfig = ArgumentConfig(name: string, mode: Option<int>, description: string, default: Option<string>)

  /** One entry of a command's `field_options` configuration. */
  datatype OptionConfig = OptionConfig(name: string, shortcut: seq<string>, mode: Option<int>, description: string, default: Option<string>)

  datatype InputArgument = InputArgument(name: string, mode: Option<int>, description: string, default: Option<string>)

  datatype InputOption = InputOption(name: string, shortcut: seq<string>, mode: Option<int>, description: string, default: Option<string>)

  function ArgumentNames(args: seq<InputArgument>): seq<string> {
    seq(|args|, i requires 0 <= i < |args| => args[i].name)
  }

  /**
   * The console exceptions a command's configure can raise: `Command::setName`'s
   * invalid name, then those of `new InputArgument(...)` and of
   * `InputDefinition::addArgument`.
   */
  datatype ConsoleError =
    | InvalidCommandName(name: string)
    | InvalidMode(mode: int)
    | DefaultForRequired(name: string)
    | DefaultForArray(name: string)
    | DuplicateArgument(name: string)
    | ArgumentAfterArray(name: string)
    | RequiredAfterOptional(name: string)

  /** An argument's mode bits; a null mode is OPTIONAL. */
  function ModeBits(mode: Option<int>): int {
    mode.GetOr(ARGUMENT_OPTIONAL)
  }

  /** The REQUIRED bit of the mode (Dafny's `/` and `%` read the bits of negative modes as two's complement does). */
  predicate IsRequired(a: InputArgument) {
    ModeBits(a.mode) % 2 == 1
  }

  /** The IS_ARRAY bit of the mode. */
  predicate IsArray(a: InputArgument) {
    ModeBits(a.mode) / 4 % 2 == 1
  }

  /**
   * `new InputArgument($name, $mode, $description, $default)`: a mode other
   * than null or 1 to 7 is invalid; a default is refused for the REQUIRED
   * mode, and a (scalar) default for an array argument. A null mode is
   * stored as OPTIONAL. Symfony stores `[]` as the default of an array
   * argument given none; the model keeps None, and nothing here reads it.
   */
  function NewArgument(name: string, mode: Option<int>, description: string, default: Option<string>): (r: Result<InputArgument, ConsoleError>)
    ensures r.Ok? <==>
      ((mode.None? || 1 <= mode.value <= 7) &&
       (default.Some? ==> ModeBits(mode) != ARGUMENT_REQUIRED && ModeBits(mode) / 4 % 2 == 0))
    ensures r.Ok? ==> r.value.name == name && r.value.mode == Some(ModeBits(mode)) && r.value.default == default
  {
    if mode.Some? && (mode.value > 7 || mode.value < 1) then Err(InvalidMode(mode.value))
    else if ModeBits(mode) == ARGUMENT_REQUIRED && default.Some? then Err(DefaultForRequired(name))
    else if ModeBits(mode) / 4 % 2 == 1 && default.Some? then Err(DefaultForArray(name))
    else Ok(InputArgument(name, Some(ModeBits(mode)), description, default))
  }

  /** Why addArgument refuses `arg` after `args`: a taken name, an array argument already added, or a required argument after an optional one. */
  function AddArgumentError(args: seq<InputArgument>, arg: InputArgument): Option<ConsoleError> {
    if arg.name in ArgumentNames(args) then Some(DuplicateArgument(arg.name))
    else if exists a | a in args :: IsArray(a) then Some(ArgumentAfterArray(arg.name))
    else if IsRequired(arg) && exists a | a in args :: !IsRequired(a) then Some(RequiredAfterOptional(arg.name))
    else None
  }

  /** The order addArgument keeps: distinct names, an array argument only in last place, and no required argument after an optional one. */
  predicate WellOrdered(args: seq<InputArgument>) {
    (forall i, j | 0 <= i < j < |args| :: args[i].name != args[j].name) &&
    (forall i | 0 <= i < |args| - 1 :: !IsArray(args[i])) &&
    (forall i, j | 0 <= i < j < |args| && IsRequired(args[j]) :: IsRequired(args[i]))
  }

  /** addArgument accepts an argument exactly when the arguments stay well ordered with it appended. */
  lemma AddArgumentKeepsOrder(args: seq<InputArgument>, arg: InputArgument)
    requires WellOrdered(args)
    ensures AddArgumentError(args, arg).None? <==> WellOrdered(args + [arg])
  {
    var r := args + [arg];
    if AddArgumentError(args, arg).None? {
      forall i, j | 0 <= i < j < |r| ensures r[i].name != r[j].name {
        if j == |args| {
          assert r[i] == args[i] && ArgumentNames(args)[i] == args[i].name;
        }
      }
      forall i | 0 <= i < |r| - 1 ensures !IsArray(r[i]) {
        assert r[i] == args[i] && args[i] in args;
      }
      forall i, j | 0 <= i < j < |r| && IsRequired(r[j]) ensures IsRequired(r[i]) {
        assert r[i] == args[i] && args[i] in args;
        if j < |args| {
          assert r[j] == args[j];
        }
      }
    } else {
      if arg.name in ArgumentNames(args) {
        var i :| 0 <= i < |args| && ArgumentNames(args)[i] == arg.name;
        assert r[i].name == r[|args|].name;
      } else if exists a | a in args :: IsArray(a) {
        var a :| a in args && IsArray(a);
        var i :| 0 <= i < |args| && args[i] == a;
        assert r[i] == a;
      } else {
        var a :| a in args && !IsRequired(a);
        var i :| 0 <= i < |args| && args[i] == a;
        assert r[i] == a && r[|args|] == arg;
      }
    }
  }

  function OptionNames(opts: seq<InputOption>): seq<string> {
    seq(|opts|, i requires 0 <= i < |opts| => opts[i].name)
  }

  /** The arguments and options a command accepts, in the order they were added. */
  class InputDefinition {
    var arguments: seq<InputArgument>
    var options: seq<InputOption>

    constructor()
      ensures arguments == [] && options == []
    {
      arguments := [];
      options := [];
    }

    predicate HasArgument(name: string)
      reads this
    {
      name in ArgumentNames(arguments)
    }

    predicate HasOption(name: string)
      reads this
    {
      name in OptionNames(options)
    }

    /** addArgument: the argument is appended, or the LogicException leaves the arguments as they were. */
    method AddArgument(arg: InputArgument) returns (error: Option<ConsoleError>)
      modifies this`arguments
      ensures error == AddArgumentError(old(arguments), arg)
      ensures arguments == if error.None? then old(arguments) + [arg] else old(arguments)
    {
      error := AddArgumentError(arguments, arg);
      if error.None? {
        arguments := arguments + [arg];
      }
    }

    method AddOption(opt: InputOption)
      modifies this`options
      ensures options == old(options) + [opt]
    {
      options := options + [opt];
    }
  }

  /** A parsed console input: the value bound to each defined argument and option. */
  datatype Input = Input(arguments: map<string, Value>, options: map<string, Value>)
}
