/**
 * The configuration shared by the five entity commands: the command name
 * and description taken from the adapter, the configured arguments and
 * options, and the identifier argument.
 */
module CommandBase {
  import opened Wrappers
  import opened Strings
  import opened Console
  import opened Adapter

  /** The action of a command class that does not set its own. */
  const INVALID_ACTION: string := "INVALID_ACTION"
  /** The one action that works without an identifier. */
  const CREATE_ACTION: string := "create"

  /** What separates the pieces of a command name. */
  const NAME_SEPARATOR: string := ":"

  /**
   * Symfony's command-name pattern `^[^:]++(:[^:]++)*$`: the name is one or
   * more pieces without a colon, separated by single colons, and no piece is
   * empty.
   */
  predicate ValidCommandName(name: string) {
    var pieces := SplitOn(name, NAME_SEPARATOR);
    forall k | 0 <= k < |pieces| :: pieces[k] != []
  }

  /**
   * A name built from colon-free pieces is valid exactly when no piece is
   * empty: an empty prefix, a prefix ending in a colon, a doubled colon or an
   * empty action all make the name invalid.
   */
  lemma CommandNameValid(prefixPieces: seq<string>, action: string)
    requires |prefixPieces| > 0
    requires forall k | 0 <= k < |prefixPieces| :: ':' !in prefixPieces[k]
    requires ':' !in action
    ensures ValidCommandName(Join(prefixPieces, NAME_SEPARATOR) + NAME_SEPARATOR + action) <==>
      (forall k | 0 <= k < |prefixPieces| :: prefixPieces[k] != []) && action != []
  {
    var name := Join(prefixPieces, NAME_SEPARATOR) + NAME_SEPARATOR + action;
    var ws := prefixPieces + [action];
    JoinAppend(prefixPieces, action, NAME_SEPARATOR);
    forall k | 0 <= k < |ws| ensures NAME_SEPARATOR[0] !in ws[k] {
      if k < |prefixPieces| {
        assert ws[k] == prefixPieces[k];
      }
    }
    SplitJoin(ws, NAME_SEPARATOR);
    assert SplitOn(name, NAME_SEPARATOR) == ws;
    PiecesNonEmpty(prefixPieces, action);
  }

  /** Every piece of the prefix and the action is non-empty exactly when every piece of the whole name is. */
  lemma PiecesNonEmpty(prefixPieces: seq<string>, action: string)
    ensures var ws := prefixPieces + [action];
      (forall k | 0 <= k < |ws| :: ws[k] != []) <==>
      (forall k | 0 <= k < |prefixPieces| :: prefixPieces[k] != []) && action != []
  {
    var ws := prefixPieces + [action];
    assert ws[|prefixPieces|] == action;
    assert forall k | 0 <= k < |prefixPieces| :: ws[k] == prefixPieces[k];
  }

  /** A null (or empty) command prefix gives a name that starts with a colon, which setName refuses. */
  lemma EmptyPrefixInvalid(action: string)
    ensures !ValidCommandName("" + NAME_SEPARATOR + action)
  {
    assert "" + NAME_SEPARATOR + action == NAME_SEPARATOR + action;
    SplitAtSeparator(NAME_SEPARATOR, action);
    assert SplitOn(NAME_SEPARATOR + action, NAME_SEPARATOR)[0] == [];
  }

  /** The argument `addArgument` builds from a `field_arguments` entry, or the constructor's exception. */
  function ConfiguredArgument(c: ArgumentConfig): Result<InputArgument, ConsoleError> {
    NewArgument(c.name, c.mode, c.description, c.default)
  }

  function ConfiguredOption(c: OptionConfig): InputOption {
    InputOption(c.name, c.shortcut, c.mode, c.description, c.default)
  }

  function ConfiguredOptions(configs: seq<OptionConfig>): seq<InputOption> {
    seq(|configs|, k requires 0 <= k < |configs| => ConfiguredOption(configs[k]))
  }

  /** The configured arguments added in order to `args`, up to the first one that fails, with its exception. */
  function AddConfigured(args: seq<InputArgument>, configs: seq<ArgumentConfig>): (seq<InputArgument>, Option<ConsoleError>)
    decreases |configs|
  {
    if configs == [] then (args, None)
    else
      match ConfiguredArgument(configs[0])
      case Err(e) => (args, Some(e))
      case Ok(arg) =>
        if AddArgumentError(args, arg).Some? then (args, AddArgumentError(args, arg))
        else AddConfigured(args + [arg], configs[1..])
  }

  /**
   * The arguments after configure, and the exception it ends with: the
   * configured arguments, then the identifier argument unless the action is
   * create or an argument of that name exists.
   */
  function ArgumentsAfterConfigure(before: seq<InputArgument>, configs: seq<ArgumentConfig>, action: string, identifier: InputArgument): (seq<InputArgument>, Option<ConsoleError>) {
    var added := AddConfigured(before, configs);
    if added.1.Some? then added
    else if action != CREATE_ACTION && identifier.name !in ArgumentNames(added.0) then
      if AddArgumentError(added.0, identifier).Some? then (added.0, AddArgumentError(added.0, identifier))
      else (added.0 + [identifier], None)
    else added
  }

  lemma ArgumentNamesAppend(args: seq<InputArgument>, more: seq<InputArgument>)
    ensures ArgumentNames(args + more) == ArgumentNames(args) + ArgumentNames(more)
  {
  }

  /** When every configured argument is accepted, they follow the earlier arguments, one per entry and in order. */
  lemma {:induction false} AddConfiguredAll(args: seq<InputArgument>, configs: seq<ArgumentConfig>)
    ensures var added := AddConfigured(args, configs);
      added.1.None? ==>
        |added.0| == |args| + |configs| && added.0[..|args|] == args &&
        forall k | 0 <= k < |configs| :: ConfiguredArgument(configs[k]) == Ok(added.0[|args| + k])
    ensures |args| <= |AddConfigured(args, configs).0| && AddConfigured(args, configs).0[..|args|] == args
    decreases |configs|
  {
    if configs != [] {
      match ConfiguredArgument(configs[0])
      case Err(e) =>
      case Ok(arg) =>
        if AddArgumentError(args, arg).None? {
          var next := args + [arg];
          var added := AddConfigured(next, configs[1..]);
          AddConfiguredAll(next, configs[1..]);
          assert added.0[..|args|] == added.0[..|next|][..|args|];
          if added.1.None? {
            forall k | 0 <= k < |configs| ensures ConfiguredArgument(configs[k]) == Ok(added.0[|args| + k]) {
              if k > 0 {
                assert configs[k] == configs[1..][k - 1];
              }
            }
          }
        }
    }
  }

  /** Configure keeps the order addArgument enforces, whether it completes or stops at an exception. */
  lemma {:induction false} AddConfiguredKeepsOrder(args: seq<InputArgument>, configs: seq<ArgumentConfig>)
    requires WellOrdered(args)
    ensures WellOrdered(AddConfigured(args, configs).0)
    decreases |configs|
  {
    if configs != [] {
      match ConfiguredArgument(configs[0])
      case Err(e) =>
      case Ok(arg) =>
        if AddArgumentError(args, arg).None? {
          AddArgumentKeepsOrder(args, arg);
          AddConfiguredKeepsOrder(args + [arg], configs[1..]);
        }
    }
  }

  /** The arguments configure leaves are well ordered. */
  lemma ConfigureKeepsOrder(before: seq<InputArgument>, configs: seq<ArgumentConfig>, action: string, identifier: InputArgument)
    requires WellOrdered(before)
    ensures WellOrdered(ArgumentsAfterConfigure(before, configs, action, identifier).0)
  {
    var added := AddConfigured(before, configs);
    AddConfiguredKeepsOrder(before, configs);
    AddArgumentKeepsOrder(added.0, identifier);
  }

  /**
   * When configure completes, the identifier names an argument exactly when
   * the action is not create or the argument was already there; the
   * configured arguments keep their order; and configure never adds a
   * second argument of the identifier's name.
   */
  lemma IdentifierArgumentRule(before: seq<InputArgument>, configs: seq<ArgumentConfig>, action: string, identifier: InputArgument)
    ensures var added := AddConfigured(before, configs);
      var r := ArgumentsAfterConfigure(before, configs, action, identifier);
      r.1.None? ==>
        added.1.None? &&
        (identifier.name in ArgumentNames(r.0) <==> action != CREATE_ACTION || identifier.name in ArgumentNames(added.0)) &&
        |added.0| <= |r.0| <= |added.0| + 1 && r.0[..|added.0|] == added.0 &&
        (|r.0| > |added.0| ==> r.0[|added.0|] == identifier && identifier.name !in ArgumentNames(added.0)) &&
        (action == CREATE_ACTION ==> r.0 == added.0)
  {
    var added := AddConfigured(before, configs);
    ArgumentNamesAppend(added.0, [identifier]);
    assert ArgumentNames([identifier]) == [identifier.name];
    assert (added.0 + [identifier])[..|added.0|] == added.0;
  }

  /**
   * A configured argument left at the default (null, so OPTIONAL) mode makes
   * every action but create fail when the REQUIRED identifier argument is
   * added after it.
   */
  lemma OptionalArgumentBlocksIdentifier(before: seq<InputArgument>, configs: seq<ArgumentConfig>, action: string, identifier: InputArgument, k: nat)
    requires k < |configs| && configs[k].mode.None?
    requires AddConfigured(before, configs).1.None?
    requires action != CREATE_ACTION && IsRequired(identifier)
    requires identifier.name !in ArgumentNames(AddConfigured(before, configs).0)
    ensures var r := ArgumentsAfterConfigure(before, configs, action, identifier);
      r.1 == Some(ArgumentAfterArray(identifier.name)) || r.1 == Some(RequiredAfterOptional(identifier.name))
  {
    var added := AddConfigured(before, configs);
    AddConfiguredAll(before, configs);
    var a := added.0[|before| + k];
    assert a in added.0 && !IsRequired(a);
  }

  /** A command: its adapter, its action, the configured arguments and options, and what configure sets. */
  class Command {
    const adapter: ServiceManagerAdapter
    const action: string
    const configArguments: seq<ArgumentConfig>
    const configOptions: seq<OptionConfig>
    const definition: InputDefinition
    var name: Option<string>
    var description: Option<string>

    /** A command class that names no action of its own gets INVALID_ACTION. */
    constructor(adapter: ServiceManagerAdapter, action: Option<string>, configArguments: seq<ArgumentConfig>, configOptions: seq<OptionConfig>)
      ensures this.adapter == adapter && this.action == action.GetOr(INVALID_ACTION)
      ensures this.configArguments == configArguments && this.configOptions == configOptions
      ensures fresh(definition) && definition.arguments == [] && definition.options == []
      ensures name == None && description == None
    {
      this.adapter := adapter;
      this.action := action.GetOr(INVALID_ACTION);
      this.configArguments := configArguments;
      this.configOptions := configOptions;
      definition := new InputDefinition();
      name := None;
      description := None;
    }

    /** Both adapter templates take the arguments configure gives them. */
    predicate TemplatesFormat()
      reads adapter
    {
      Format(adapter.commandDescription.GetOr(""), [action, adapter.classname.GetOr("")]).Some? &&
      Format(adapter.identifierArgumentDescription.GetOr(""), [adapter.shortName.GetOr("")]).Some?
    }

    /** The REQUIRED identifier argument, described with the adapter's short name. */
    function IdentifierArgument(): InputArgument
      reads adapter
      requires TemplatesFormat()
    {
      InputArgument(
        adapter.identifierArgument.GetOr(""),
        Some(ARGUMENT_REQUIRED),
        Format(adapter.identifierArgumentDescription.GetOr(""), [adapter.shortName.GetOr("")]).value,
        None)
    }

    /** The name configure gives the command: the adapter's prefix, a colon and the action. */
    function CommandName(): string
      reads adapter
    {
      adapter.commandPrefix.GetOr("") + NAME_SEPARATOR + action
    }

    /**
     * configure. Null adapter values print as the empty string. setName
     * refuses an invalid name before anything is set; otherwise the exception
     * of the first argument the console refuses ends it, and the options are
     * added only after every configured argument is.
     */
    method Configure() returns (error: Option<ConsoleError>)
      requires TemplatesFormat()
      modifies this`name, this`description, definition
      ensures !ValidCommandName(CommandName()) ==>
        error == Some(InvalidCommandName(CommandName())) &&
        name == old(name) && description == old(description) &&
        definition.arguments == old(definition.arguments) && definition.options == old(definition.options)
      ensures ValidCommandName(CommandName()) ==>
        name == Some(CommandName()) &&
        description == Some(Format(adapter.commandDescription.GetOr(""), [action, adapter.classname.GetOr("")]).value) &&
        (definition.arguments, error) == ArgumentsAfterConfigure(old(definition.arguments), configArguments, action, IdentifierArgument()) &&
        definition.options ==
          if AddConfigured(old(definition.arguments), configArguments).1.None? then old(definition.options) + ConfiguredOptions(configOptions)
          else old(definition.options)
    {
      var commandName := adapter.commandPrefix.GetOr("") + NAME_SEPARATOR + action;
      if !ValidCommandName(commandName) {
        return Some(InvalidCommandName(commandName));
      }
      name := Some(commandName);
      description := Some(Format(adapter.commandDescription.GetOr(""), [action, adapter.classname.GetOr("")]).value);

      var i := 0;
      while i < |configArguments|
        invariant 0 <= i <= |configArguments|
        invariant AddConfigured(definition.arguments, configArguments[i..]) == AddConfigured(old(definition.arguments), configArguments)
        invariant definition.options == old(definition.options)
        invariant ValidCommandName(CommandName()) && name == Some(CommandName())
        invariant description == Some(Format(adapter.commandDescription.GetOr(""), [action, adapter.classname.GetOr("")]).value)
      {
        var c := configArguments[i];
        assert configArguments[i..][0] == c && configArguments[i..][1..] == configArguments[i + 1..];
        var arg := NewArgument(c.name, c.mode, c.description, c.default);
        if arg.Err? {
          return Some(arg.error);
        }
        error := definition.AddArgument(arg.value);
        if error.Some? {
          return;
        }
        i := i + 1;
      }
      assert configArguments[i..] == [];

      var j := 0;
      while j < |configOptions|
        invariant 0 <= j <= |configOptions|
        invariant (definition.arguments, None) == AddConfigured(old(definition.arguments), configArguments)
        invariant definition.options == old(definition.options) + ConfiguredOptions(configOptions[..j])
        invariant ValidCommandName(CommandName()) && name == Some(CommandName())
        invariant description == Some(Format(adapter.commandDescription.GetOr(""), [action, adapter.classname.GetOr("")]).value)
      {
        var c := configOptions[j];
        assert ConfiguredOptions(configOptions[..j + 1]) == ConfiguredOptions(configOptions[..j]) + [ConfiguredOption(c)];
        definition.AddOption(InputOption(c.name, c.shortcut, c.mode, c.description, c.default));
        j := j + 1;
      }
      assert configOptions[..j] == configOptions;

      error := None;
      var identifier := adapter.identifierArgument.GetOr("");
      if action != CREATE_ACTION && !definition.HasArgument(identifier) {
        var text := Format(adapter.identifierArgumentDescription.GetOr(""), [adapter.shortName.GetOr("")]).value;
        var arg := NewArgument(identifier, Some(ARGUMENT_REQUIRED), text, None);
        assert arg == Ok(IdentifierArgument());
        error := definition.AddArgument(arg.value);
      }
    }
  }

  /** The pieces of a description template with two conversions, as the builder's configuration writes them. */
  lemma DescriptionOfTwoPlaceholders(head: string, middle: string, tail: string, action: string, classname: string)
    requires '%' !in head && '%' !in middle && '%' !in tail
    ensures Format(head + "%s" + middle + "%s" + tail, [action, classname]) == Some(head + action + middle + classname + tail)
  {
    FormatTwo(head, middle, tail, action, classname, []);
    assert [action, classname] + [] == [action, classname];
  }
}
