/**
 * The dependency-injection command builder: for every configured entity
 * class it registers one command adapter service (unless an existing
 * adapter service is named) and one console command service per enabled
 * action, each command pointing at the adapter.
 */
module CommandBuilder {
  import opened Wrappers
  import opened Strings
  import opened Placeholders
  import opened Console

  /** The five actions of the `$commands` table. */
  datatype Action = View | Create | Update | Delete | Undelete {
    function Name(): string {
      match this
      case View => "view"
      case Create => "create"
      case Update => "update"
      case Delete => "delete"
      case Undelete => "undelete"
    }

    /** The console command class registered for the action. */
    function CommandClass(): string {
      match this
      case View => "Fxp\\Component\\DoctrineConsole\\Command\\View"
      case Create => "Fxp\\Component\\DoctrineConsole\\Command\\Create"
      case Update => "Fxp\\Component\\DoctrineConsole\\Command\\Update"
      case Delete => "Fxp\\Component\\DoctrineConsole\\Command\\Delete"
      case Undelete => "Fxp\\Component\\DoctrineConsole\\Command\\Undelete"
    }
  }

  /** The keys of the `$commands` table, in declaration order. */
  const ACTIONS: seq<Action> := [View, Create, Update, Delete, Undelete]

  /** The adapter keys a class configuration may use (Configuration::getAdapters). */
  const ADAPTERS: seq<string> := ["adapter_id", "service_manager_adapter", "resource_adapter"]

  const SERVICE_NAMESPACE: string := "fxp_doctrine" + "_console."
  const ADAPTER_ID_PREFIX: string := SERVICE_NAMESPACE + "command_adapter" + "."
  const COMMAND_ID_PREFIX: string := SERVICE_NAMESPACE + "commands" + "."
  const OBJECT_FIELD_HELPER_ID: string := "fxp_doctrine_console.console.object_field_helper"
  const COMMAND_TAG: string := "console.command"
  const SERVICE_MANAGER_ADAPTER_CLASS: string := "Fxp\\Component\\DoctrineConsole\\Adapter\\ServiceManagerAdapter"
  const RESOURCE_ADAPTER_CLASS: string := "Fxp\\Component\\DoctrineConsole\\Adapter\\ResourceAdapter"

  /** A constructor argument or a method-call argument of a service definition. */
  datatype Arg =
    | Reference(id: string, ignoreOnInvalid: bool)
    | Scalar(value: Option<string>)
    | Expression(text: string)
    | Arguments(arguments: seq<ArgumentConfig>)
    | Options(options: seq<OptionConfig>)

  datatype MethodCall = MethodCall(name: string, args: seq<Arg>)

  /** A service definition: its class, constructor arguments, setter calls and tags. */
  datatype Definition = Definition(className: string, arguments: seq<Arg>, calls: seq<MethodCall>, tags: seq<string>)

  /** The `service_manager_adapter` block of a class configuration. */
  datatype ServiceManagerAdapterConfig = ServiceManagerAdapterConfig(
    managerId: string,
    shortName: Option<string>,
    commandPrefix: string,
    commandDescription: string,
    identifierField: string,
    identifierArgument: string,
    identifierArgumentDescription: string,
    displayNameMethod: Option<string>,
    newInstanceMethod: Option<string>,
    createMethod: Option<string>,
    getMethod: Option<string>,
    updateMethod: Option<string>,
    deleteMethod: Option<string>,
    undeleteMethod: Option<string>)

  /** The `resource_adapter` block of a class configuration. */
  datatype ResourceAdapterConfig = ResourceAdapterConfig(
    commandPrefix: string,
    commandDescription: string,
    identifierField: string,
    identifierArgument: string,
    identifierArgumentDescription: string,
    displayNameMethod: Option<string>)

  /** The block of one action: whether it is enabled and the extra arguments and options of its command. */
  datatype ActionConfig = ActionConfig(enabled: bool, fieldArguments: seq<ArgumentConfig>, fieldOptions: seq<OptionConfig>)

  /** The configuration of one entity class. */
  datatype ClassConfig = ClassConfig(
    adapterId: Option<string>,
    serviceManagerAdapter: Option<ServiceManagerAdapterConfig>,
    resourceAdapter: Option<ResourceAdapterConfig>,
    view: ActionConfig,
    create: ActionConfig,
    update: ActionConfig,
    delete: ActionConfig,
    undelete: ActionConfig)
  {
    function For(a: Action): ActionConfig {
      match a
      case View => view
      case Create => create
      case Update => update
      case Delete => delete
      case Undelete => undelete
    }

    predicate HasAdapter() {
      adapterId.Some? || serviceManagerAdapter.Some? || resourceAdapter.Some?
    }
  }

  /** The configuration error raised for a class without any adapter. */
  datatype ConfigError = MissingAdapter(classname: string)

  /** The text of the exception's sprintf template before its first `%s`, and between its two `%s`. */
  const MESSAGE_HEAD: string := "An adapter must " + "be configured " + "on \"fxp_" + "doctrine_" + "console." + "commands."
  const MESSAGE_MIDDLE: string := "\". Available adapters: \""
  const ADAPTER_SEPARATOR: string := "\", \""

  /** The exception message: sprintf of the template with the class name and the imploded adapter keys. */
  function ErrorMessage(e: ConfigError): Option<string> {
    Format(MESSAGE_HEAD + "%s" + MESSAGE_MIDDLE + "%s" + "\"", [e.classname, Join(ADAPTERS, ADAPTER_SEPARATOR)])
  }

  /** The command prefix with `:` and `-` turned into `_`, as in the adapter service id. */
  function Underscored(prefix: string): string {
    seq(|prefix|, i requires 0 <= i < |prefix| => if prefix[i] == ':' || prefix[i] == '-' then '_' else prefix[i])
  }

  /** buildAdapterId. */
  function AdapterId(commandPrefix: string): string {
    ADAPTER_ID_PREFIX + Replace(Replace(commandPrefix, ":", "_"), "-", "_")
  }

  /** The service id of an action's command, derived from its adapter's id. */
  function CommandId(adapterId: string, a: Action): string {
    Replace(adapterId, "command_adapter", "commands") + "." + a.Name()
  }

  function ServiceManagerAdapterDefinition(c: ServiceManagerAdapterConfig, classname: string): Definition {
    Definition(
      SERVICE_MANAGER_ADAPTER_CLASS,
      [Reference(c.managerId, false), Reference("validator", true)],
      [ MethodCall("setClass", [Scalar(Some(classname))]),
        MethodCall("setShortName", [Scalar(c.shortName)]),
        MethodCall("setCommandPrefix", [Scalar(Some(c.commandPrefix))]),
        MethodCall("setCommandDescription", [Scalar(Some(Escape(c.commandDescription)))]),
        MethodCall("setIdentifierField", [Scalar(Some(c.identifierField))]),
        MethodCall("setIdentifierArgument", [Scalar(Some(c.identifierArgument))]),
        MethodCall("setIdentifierArgumentDescription", [Scalar(Some(Escape(c.identifierArgumentDescription)))]),
        MethodCall("setDisplayNameMethod", [Scalar(c.displayNameMethod)]),
        MethodCall("setNewInstanceMethod", [Scalar(c.newInstanceMethod)]),
        MethodCall("setCreateMethod", [Scalar(c.createMethod)]),
        MethodCall("setGetMethod", [Scalar(c.getMethod)]),
        MethodCall("setUpdateMethod", [Scalar(c.updateMethod)]),
        MethodCall("setDeleteMethod", [Scalar(c.deleteMethod)]),
        MethodCall("setUndeleteMethod", [Scalar(c.undeleteMethod)]) ],
      [])
  }

  /** The expression that fetches the class's domain from the resource domain manager; backslashes are doubled. */
  function ResourceExpression(classname: string): string {
    "service(\"fxp_resource.domain_manager\").get(\"" + Replace(classname, "\\", "\\\\") + "\")"
  }

  function ResourceAdapterDefinition(c: ResourceAdapterConfig, classname: string): Definition {
    Definition(
      RESOURCE_ADAPTER_CLASS,
      [Expression(ResourceExpression(classname))],
      [ MethodCall("setCommandPrefix", [Scalar(Some(c.commandPrefix))]),
        MethodCall("setCommandDescription", [Scalar(Some(Escape(c.commandDescription)))]),
        MethodCall("setIdentifierField", [Scalar(Some(c.identifierField))]),
        MethodCall("setIdentifierArgument", [Scalar(Some(c.identifierArgument))]),
        MethodCall("setIdentifierArgumentDescription", [Scalar(Some(Escape(c.identifierArgumentDescription)))]),
        MethodCall("setDisplayNameMethod", [Scalar(c.displayNameMethod)]) ],
      [])
  }

  function CommandDefinition(a: Action, adapterId: string, arguments: seq<ArgumentConfig>, options: seq<OptionConfig>): Definition {
    Definition(
      a.CommandClass(),
      [Reference(OBJECT_FIELD_HELPER_ID, false), Reference(adapterId, false), Arguments(arguments), Options(options)],
      [],
      [COMMAND_TAG])
  }

  function CommandDefinitionFor(a: Action, adapterId: string, config: ClassConfig): Definition {
    CommandDefinition(a, adapterId, config.For(a).fieldArguments, config.For(a).fieldOptions)
  }

  // ----- Specification of buildCommands -----

  /** The adapter a class uses: its service id and the definition to register, if any. */
  datatype Adapter = Adapter(id: string, definition: Option<Definition>)

  /** buildAdapter's precedence: an existing service id, then a service manager adapter, then a resource adapter. */
  function SelectAdapter(config: ClassConfig, classname: string): Result<Adapter, ConfigError> {
    if config.adapterId.Some? then
      Ok(Adapter(config.adapterId.value, None))
    else if config.serviceManagerAdapter.Some? then
      var c := config.serviceManagerAdapter.value;
      Ok(Adapter(AdapterId(c.commandPrefix), Some(ServiceManagerAdapterDefinition(c, classname))))
    else if config.resourceAdapter.Some? then
      var c := config.resourceAdapter.value;
      Ok(Adapter(AdapterId(c.commandPrefix), Some(ResourceAdapterDefinition(c, classname))))
    else
      Err(MissingAdapter(classname))
  }

  function Register(defs: map<string, Definition>, ad: Adapter): map<string, Definition> {
    if ad.definition.Some? then defs[ad.id := ad.definition.value] else defs
  }

  /** What one action adds to the definitions. */
  function Step(defs: map<string, Definition>, adapterId: string, config: ClassConfig, a: Action): map<string, Definition> {
    if config.For(a).enabled then defs[CommandId(adapterId, a) := CommandDefinitionFor(a, adapterId, config)] else defs
  }

  /** The definitions after the commands of `actions`, taken in order, are added. */
  function AddCommands(defs: map<string, Definition>, adapterId: string, config: ClassConfig, actions: seq<Action>): map<string, Definition>
    decreases |actions|
  {
    if actions == [] then defs
    else AddCommands(Step(defs, adapterId, config, actions[0]), adapterId, config, actions[1..])
  }

  function BuildClass(defs: map<string, Definition>, classname: string, config: ClassConfig): Result<map<string, Definition>, ConfigError> {
    match SelectAdapter(config, classname)
    case Err(e) => Err(e)
    case Ok(ad) => Ok(AddCommands(Register(defs, ad), ad.id, config, ACTIONS))
  }

  /** The definitions once every class is processed, or up to the first class that fails, with its error. */
  datatype Outcome = Outcome(definitions: map<string, Definition>, error: Option<ConfigError>)

  function BuildAll(defs: map<string, Definition>, configs: seq<(string, ClassConfig)>): Outcome
    decreases |configs|
  {
    if configs == [] then Outcome(defs, None)
    else
      match BuildClass(defs, configs[0].0, configs[0].1)
      case Err(e) => Outcome(defs, Some(e))
      case Ok(next) => BuildAll(next, configs[1..])
  }

  /** The ids of the commands registered for the enabled actions among `actions`. */
  function EnabledCommandIds(adapterId: string, config: ClassConfig, actions: seq<Action>): set<string> {
    set a | a in actions && config.For(a).enabled :: CommandId(adapterId, a)
  }

  // ----- The container and the builder -----

  /** The container builder: the service definitions registered so far, by id. */
  class ContainerBuilder {
    var definitions: map<string, Definition>

    constructor(initial: map<string, Definition>)
      ensures definitions == initial
    {
      definitions := initial;
    }

    /** setDefinition: registers `def` under `id`, replacing any earlier definition. */
    method SetDefinition(id: string, def: Definition)
      modifies this
      ensures definitions == old(definitions)[id := def]
    {
      definitions := definitions[id := def];
    }
  }

  /** buildCommands: on a class without adapter it stops with the error; earlier classes stay registered. */
  method BuildCommands(container: ContainerBuilder, configs: seq<(string, ClassConfig)>) returns (error: Option<ConfigError>)
    modifies container
    ensures container.definitions == BuildAll(old(container.definitions), configs).definitions
    ensures error == BuildAll(old(container.definitions), configs).error
  {
    var i := 0;
    while i < |configs|
      invariant 0 <= i <= |configs|
      invariant BuildAll(container.definitions, configs[i..]) == BuildAll(old(container.definitions), configs)
    {
      var classname := configs[i].0;
      var config := configs[i].1;
      var r := BuildAdapter(container, config, classname);
      if r.Err? {
        return Some(r.error);
      }
      var adapterId := r.value;
      ghost var registered := container.definitions;
      var j := 0;
      while j < |ACTIONS|
        invariant 0 <= j <= |ACTIONS|
        invariant AddCommands(container.definitions, adapterId, config, ACTIONS[j..]) == AddCommands(registered, adapterId, config, ACTIONS)
      {
        var a := ACTIONS[j];
        var actionConfig := config.For(a);
        if actionConfig.enabled {
          BuildCommand(container, a, adapterId, actionConfig.fieldArguments, actionConfig.fieldOptions);
        }
        j := j + 1;
      }
      assert configs[i..][1..] == configs[i + 1..];
      i := i + 1;
    }
    error := None;
  }

  method BuildAdapter(container: ContainerBuilder, config: ClassConfig, classname: string) returns (r: Result<string, ConfigError>)
    modifies container
    ensures match SelectAdapter(config, classname)
            case Err(e) => r == Err(e) && container.definitions == old(container.definitions)
            case Ok(ad) => r == Ok(ad.id) && container.definitions == Register(old(container.definitions), ad)
  {
    if config.adapterId.Some? {
      r := Ok(config.adapterId.value);
    } else if config.serviceManagerAdapter.Some? {
      var id := BuildServiceManagerAdapter(container, config.serviceManagerAdapter.value, classname);
      r := Ok(id);
    } else if config.resourceAdapter.Some? {
      var id := BuildResourceAdapter(container, config.resourceAdapter.value, classname);
      r := Ok(id);
    } else {
      r := Err(MissingAdapter(classname));
    }
  }

  method BuildServiceManagerAdapter(container: ContainerBuilder, c: ServiceManagerAdapterConfig, classname: string) returns (id: string)
    modifies container
    ensures id == AdapterId(c.commandPrefix)
    ensures container.definitions == old(container.definitions)[id := ServiceManagerAdapterDefinition(c, classname)]
  {
    id := AdapterId(c.commandPrefix);
    container.SetDefinition(id, ServiceManagerAdapterDefinition(c, classname));
  }

  method BuildResourceAdapter(container: ContainerBuilder, c: ResourceAdapterConfig, classname: string) returns (id: string)
    modifies container
    ensures id == AdapterId(c.commandPrefix)
    ensures container.definitions == old(container.definitions)[id := ResourceAdapterDefinition(c, classname)]
  {
    id := AdapterId(c.commandPrefix);
    container.SetDefinition(id, ResourceAdapterDefinition(c, classname));
  }

  method BuildCommand(container: ContainerBuilder, a: Action, adapterId: string, arguments: seq<ArgumentConfig>, options: seq<OptionConfig>)
    modifies container
    ensures container.definitions == old(container.definitions)[CommandId(adapterId, a) := CommandDefinition(a, adapterId, arguments, options)]
  {
    container.SetDefinition(CommandId(adapterId, a), CommandDefinition(a, adapterId, arguments, options));
  }

  // ----- Service ids -----

  /** The adapter id is the fixed prefix followed by the command prefix with `:` and `-` made `_`. */
  lemma AdapterIdIsUnderscored(prefix: string)
    ensures AdapterId(prefix) == ADAPTER_ID_PREFIX + Underscored(prefix)
    ensures ':' !in Underscored(prefix) && '-' !in Underscored(prefix)
  {
    var once := Replace(prefix, ":", "_");
    ReplaceCharIsMap(prefix, ':', '_');
    ReplaceCharIsMap(once, '-', '_');
    assert Replace(once, "-", "_") == Underscored(prefix);
  }

  lemma AdapterIdOfCommandPrefix(prefix: string)
    requires prefix == "command:prefix"
    ensures AdapterId(prefix) == ADAPTER_ID_PREFIX + "command_prefix"
  {
    AdapterIdIsUnderscored(prefix);
    assert Underscored(prefix) == "command_prefix";
  }

  /** An adapter id that does not contain `command_adapter` only gets the action appended. */
  lemma CommandIdOfPlainId(adapterId: string, a: Action)
    requires !Occurs(adapterId, "command_adapter")
    ensures CommandId(adapterId, a) == adapterId + "." + a.Name()
  {
    ReplaceWithoutOccurrence(adapterId, "command_adapter", "commands");
  }

  lemma CommandIdOfServiceAdapterId(adapterId: string)
    requires adapterId == "service_adapter_id"
    ensures CommandId(adapterId, View) == "service_adapter_id.view"
  {
    AbsentCharRulesOut(adapterId, "command_adapter", 'm');
    CommandIdOfPlainId(adapterId, View);
  }

  /** The adapter-id prefix becomes the command-id prefix. */
  lemma ReplaceAdapterPrefix(prefix: string, head: string, pat: string, dot: string)
    requires head == SERVICE_NAMESPACE && pat == "command_adapter" && dot == "."
    requires prefix == head + pat + dot
    ensures Replace(prefix, pat, "commands") == COMMAND_ID_PREFIX
  {
    assert prefix == head + (pat + dot);
    assert Replace(head, pat, "commands") == head by {
      NamespaceLacksAdapterWord(head, pat);
      ReplaceWithoutOccurrence(head, pat, "commands");
    }
    assert Replace(pat + dot, pat, "commands") == "commands" + dot by {
      ReplaceAtHead(pat, dot, "commands");
      assert Replace(dot, pat, "commands") == dot;
    }
    ReplaceConcat(head, pat + dot, pat, "commands");
  }

  lemma NamespaceLacksAdapterWord(head: string, pat: string)
    requires head == SERVICE_NAMESPACE && pat == "command_adapter"
    ensures !Occurs(head, pat)
  {
    assert 'm' !in "fxp_doctrine" && 'm' !in "_console.";
    AbsentCharRulesOut(head, pat, 'm');
  }

  /**
   * The command id of a built adapter: `command_adapter` becomes `commands`
   * in the fixed prefix, and the (underscored) command prefix is rewritten
   * on its own.
   */
  lemma CommandIdOfBuiltAdapter(prefix: string, a: Action)
    ensures CommandId(AdapterId(prefix), a)
         == COMMAND_ID_PREFIX + Replace(Underscored(prefix), "command_adapter", "commands") + "." + a.Name()
  {
    AdapterIdIsUnderscored(prefix);
    ReplaceConcat(ADAPTER_ID_PREFIX, Underscored(prefix), "command_adapter", "commands");
    ReplaceAdapterPrefix(ADAPTER_ID_PREFIX, SERVICE_NAMESPACE, "command_adapter", ".");
  }

  lemma CommandIdOfCommandPrefix(prefix: string, underscored: string)
    requires prefix == "command:prefix" && underscored == "command_prefix"
    ensures CommandId(AdapterId(prefix), View) == COMMAND_ID_PREFIX + "command_prefix" + ".view"
  {
    CommandIdOfBuiltAdapter(prefix, View);
    assert Underscored(prefix) == underscored;
    AbsentCharRulesOut(underscored, "command_adapter", 't');
    ReplaceWithoutOccurrence(underscored, "command_adapter", "commands");
  }

  /** Two actions of one adapter never share a command id. */
  lemma CommandIdsDistinct(adapterId: string, a: Action, b: Action)
    requires a != b
    ensures CommandId(adapterId, a) != CommandId(adapterId, b)
  {
    var p := Replace(adapterId, "command_adapter", "commands") + ".";
    var x := CommandId(adapterId, a);
    var y := CommandId(adapterId, b);
    assert x == p + a.Name() && y == p + b.Name();
    assert x[|p|..] == a.Name() && y[|p|..] == b.Name();
    assert a.Name() != b.Name();
  }

  /** A built adapter's definition is never overwritten by one of its own commands. */
  lemma AdapterIdIsNoCommandId(prefix: string, a: Action)
    ensures AdapterId(prefix) != CommandId(AdapterId(prefix), a)
  {
    CommandIdOfBuiltAdapter(prefix, a);
    AdapterIdIsUnderscored(prefix);
    var k := |"fxp_doctrine_console.command"|;
    assert AdapterId(prefix)[k] == '_';
    assert CommandId(AdapterId(prefix), a)[k] == 's';
  }

  // ----- Which definitions buildCommands registers -----

  /** An enabled action's command is registered with its definition. */
  lemma {:induction false} AddCommandsRegisters(defs: map<string, Definition>, adapterId: string, config: ClassConfig, actions: seq<Action>, a: Action)
    requires a in actions && config.For(a).enabled
    ensures CommandId(adapterId, a) in AddCommands(defs, adapterId, config, actions)
    ensures AddCommands(defs, adapterId, config, actions)[CommandId(adapterId, a)] == CommandDefinitionFor(a, adapterId, config)
    decreases |actions|
  {
    var next := Step(defs, adapterId, config, actions[0]);
    if a in actions[1..] {
      AddCommandsRegisters(next, adapterId, config, actions[1..], a);
    } else {
      assert actions[0] == a;
      forall b | b in actions[1..] && config.For(b).enabled
        ensures CommandId(adapterId, b) != CommandId(adapterId, a)
      {
        CommandIdsDistinct(adapterId, b, a);
      }
      AddCommandsKeeps(next, adapterId, config, actions[1..], CommandId(adapterId, a));
    }
  }

  /** A key that is no enabled action's command id keeps its earlier definition, or stays absent. */
  lemma {:induction false} AddCommandsKeeps(defs: map<string, Definition>, adapterId: string, config: ClassConfig, actions: seq<Action>, k: string)
    requires forall a | a in actions && config.For(a).enabled :: CommandId(adapterId, a) != k
    ensures k in AddCommands(defs, adapterId, config, actions) <==> k in defs
    ensures k in defs ==> AddCommands(defs, adapterId, config, actions)[k] == defs[k]
    decreases |actions|
  {
    if actions != [] {
      var next := Step(defs, adapterId, config, actions[0]);
      assert actions[0] in actions;
      assert k in next <==> k in defs;
      assert k in defs ==> next[k] == defs[k];
      AddCommandsKeeps(next, adapterId, config, actions[1..], k);
    }
  }

  /** The keys after the commands are added: the earlier ones plus one per enabled action. */
  lemma {:induction false} AddCommandsKeySet(defs: map<string, Definition>, adapterId: string, config: ClassConfig, actions: seq<Action>)
    ensures AddCommands(defs, adapterId, config, actions).Keys == defs.Keys + EnabledCommandIds(adapterId, config, actions)
    decreases |actions|
  {
    if actions == [] {
      assert EnabledCommandIds(adapterId, config, actions) == {};
    } else {
      var a := actions[0];
      var next := Step(defs, adapterId, config, a);
      AddCommandsKeySet(next, adapterId, config, actions[1..]);
      var here := if config.For(a).enabled then {CommandId(adapterId, a)} else {};
      assert next.Keys == defs.Keys + here;
      assert EnabledCommandIds(adapterId, config, actions) == here + EnabledCommandIds(adapterId, config, actions[1..]) by {
        forall b | b in actions ensures b == a || b in actions[1..] {
          if b != a {
            var i :| 0 <= i < |actions| && actions[i] == b;
            assert i > 0;
            assert actions[1..][i - 1] == b;
          }
        }
      }
    }
  }

  /** A disabled action's command id is left as it was. */
  lemma DisabledActionUntouched(defs: map<string, Definition>, adapterId: string, config: ClassConfig, a: Action)
    requires !config.For(a).enabled
    ensures var k := CommandId(adapterId, a);
      (k in AddCommands(defs, adapterId, config, ACTIONS) <==> k in defs) &&
      (k in defs ==> AddCommands(defs, adapterId, config, ACTIONS)[k] == defs[k])
  {
    forall b | b in ACTIONS && config.For(b).enabled
      ensures CommandId(adapterId, b) != CommandId(adapterId, a)
    {
      CommandIdsDistinct(adapterId, b, a);
    }
    AddCommandsKeeps(defs, adapterId, config, ACTIONS, CommandId(adapterId, a));
  }

  /**
   * One class, by adapter precedence: the keys it adds are its adapter's
   * id (only when the adapter is built here) and the command ids of its
   * enabled actions, and a built adapter's definition stays in place.
   */
  lemma BuildClassRegisters(defs: map<string, Definition>, classname: string, config: ClassConfig)
    ensures BuildClass(defs, classname, config).Ok? <==> config.HasAdapter()
    ensures config.adapterId.Some? ==>
      var id := config.adapterId.value;
      var r := BuildClass(defs, classname, config);
      r.Ok? && r.value.Keys == defs.Keys + EnabledCommandIds(id, config, ACTIONS)
    ensures config.adapterId.None? && config.serviceManagerAdapter.Some? ==>
      var c := config.serviceManagerAdapter.value;
      var id := AdapterId(c.commandPrefix);
      var r := BuildClass(defs, classname, config);
      r.Ok? && r.value.Keys == defs.Keys + {id} + EnabledCommandIds(id, config, ACTIONS) &&
      r.value[id] == ServiceManagerAdapterDefinition(c, classname)
    ensures config.adapterId.None? && config.serviceManagerAdapter.None? && config.resourceAdapter.Some? ==>
      var c := config.resourceAdapter.value;
      var id := AdapterId(c.commandPrefix);
      var r := BuildClass(defs, classname, config);
      r.Ok? && r.value.Keys == defs.Keys + {id} + EnabledCommandIds(id, config, ACTIONS) &&
      r.value[id] == ResourceAdapterDefinition(c, classname)
  {
    BuildClassFails(defs, classname, config);
    if config.adapterId.Some? {
      BuildClassWithAdapterId(defs, classname, config);
    } else if config.serviceManagerAdapter.Some? {
      var c := config.serviceManagerAdapter.value;
      BuildClassWithBuiltAdapter(defs, classname, config, AdapterId(c.commandPrefix), ServiceManagerAdapterDefinition(c, classname));
    } else if config.resourceAdapter.Some? {
      var c := config.resourceAdapter.value;
      BuildClassWithBuiltAdapter(defs, classname, config, AdapterId(c.commandPrefix), ResourceAdapterDefinition(c, classname));
    }
  }

  /** With an adapter service id, only the commands are registered. */
  lemma BuildClassWithAdapterId(defs: map<string, Definition>, classname: string, config: ClassConfig)
    requires config.adapterId.Some?
    ensures var r := BuildClass(defs, classname, config);
      r.Ok? && r.value.Keys == defs.Keys + EnabledCommandIds(config.adapterId.value, config, ACTIONS)
  {
    var id := config.adapterId.value;
    assert BuildClass(defs, classname, config) == Ok(AddCommands(defs, id, config, ACTIONS));
    AddCommandsKeySet(defs, id, config, ACTIONS);
  }

  /** With a service manager or resource adapter, its definition is registered next to the commands. */
  lemma BuildClassWithBuiltAdapter(defs: map<string, Definition>, classname: string, config: ClassConfig, id: string, def: Definition)
    requires SelectAdapter(config, classname) == Ok(Adapter(id, Some(def)))
    requires exists prefix :: id == AdapterId(prefix)
    ensures var r := BuildClass(defs, classname, config);
      r.Ok? && r.value.Keys == defs.Keys + {id} + EnabledCommandIds(id, config, ACTIONS) && r.value[id] == def
  {
    var prefix :| id == AdapterId(prefix);
    assert BuildClass(defs, classname, config) == Ok(AddCommands(defs[id := def], id, config, ACTIONS));
    BuiltAdapterKept(defs, prefix, def, config);
  }

  /** A built adapter's definition survives the registration of its commands, which add their own ids. */
  lemma BuiltAdapterKept(defs: map<string, Definition>, prefix: string, def: Definition, config: ClassConfig)
    ensures var id := AdapterId(prefix);
      var r := AddCommands(defs[id := def], id, config, ACTIONS);
      r.Keys == defs.Keys + {id} + EnabledCommandIds(id, config, ACTIONS) && r[id] == def
  {
    var id := AdapterId(prefix);
    AddCommandsKeySet(defs[id := def], id, config, ACTIONS);
    forall b | b in ACTIONS && config.For(b).enabled
      ensures CommandId(id, b) != id
    {
      AdapterIdIsNoCommandId(prefix, b);
    }
    AddCommandsKeeps(defs[id := def], id, config, ACTIONS, id);
  }

  /** A class builds exactly when it has an adapter; otherwise the error names it. */
  lemma BuildClassFails(defs: map<string, Definition>, classname: string, config: ClassConfig)
    ensures BuildClass(defs, classname, config).Ok? <==> config.HasAdapter()
    ensures BuildClass(defs, classname, config).Err? ==> BuildClass(defs, classname, config).error == MissingAdapter(classname)
  {
  }

  /** buildCommands fails exactly when some class has no adapter, and then with the first such class. */
  lemma BuildAllFails(defs: map<string, Definition>, configs: seq<(string, ClassConfig)>)
    ensures BuildAll(defs, configs).error.None? <==> forall i | 0 <= i < |configs| :: configs[i].1.HasAdapter()
    ensures BuildAll(defs, configs).error.Some? ==>
      exists i | 0 <= i < |configs| ::
        !configs[i].1.HasAdapter() &&
        BuildAll(defs, configs).error == Some(MissingAdapter(configs[i].0)) &&
        forall j | 0 <= j < i :: configs[j].1.HasAdapter()
  {
    BuildAllSucceeds(defs, configs);
    BuildAllFirstFailure(defs, configs);
  }

  lemma {:induction false} BuildAllSucceeds(defs: map<string, Definition>, configs: seq<(string, ClassConfig)>)
    ensures BuildAll(defs, configs).error.None? <==> forall i | 0 <= i < |configs| :: configs[i].1.HasAdapter()
    decreases |configs|
  {
    if configs != [] {
      BuildClassFails(defs, configs[0].0, configs[0].1);
      var rest := configs[1..];
      assert forall i | 1 <= i < |configs| :: configs[i] == rest[i - 1];
      if configs[0].1.HasAdapter() {
        var next := BuildClass(defs, configs[0].0, configs[0].1).value;
        assert BuildAll(defs, configs) == BuildAll(next, rest);
        BuildAllSucceeds(next, rest);
      }
    }
  }

  lemma {:induction false} BuildAllFirstFailure(defs: map<string, Definition>, configs: seq<(string, ClassConfig)>)
    ensures BuildAll(defs, configs).error.Some? ==>
      exists i | 0 <= i < |configs| ::
        !configs[i].1.HasAdapter() &&
        BuildAll(defs, configs).error == Some(MissingAdapter(configs[i].0)) &&
        forall j | 0 <= j < i :: configs[j].1.HasAdapter()
    decreases |configs|
  {
    if configs != [] {
      BuildClassFails(defs, configs[0].0, configs[0].1);
      var rest := configs[1..];
      if !configs[0].1.HasAdapter() {
        assert BuildAll(defs, configs).error == Some(MissingAdapter(configs[0].0));
      } else {
        var next := BuildClass(defs, configs[0].0, configs[0].1).value;
        assert BuildAll(defs, configs) == BuildAll(next, rest);
        BuildAllFirstFailure(next, rest);
        if BuildAll(next, rest).error.Some? {
          var i :| 0 <= i < |rest| && !rest[i].1.HasAdapter() &&
            BuildAll(next, rest).error == Some(MissingAdapter(rest[i].0)) &&
            forall j | 0 <= j < i :: rest[j].1.HasAdapter();
          assert configs[i + 1] == rest[i];
          forall j | 0 <= j < i + 1 ensures configs[j].1.HasAdapter() {
            if j > 0 { assert configs[j] == rest[j - 1]; }
          }
        }
      }
    }
  }

  /** Registering only adds or replaces definitions: no earlier service id disappears. */
  lemma {:induction false} BuildAllKeepsKeys(defs: map<string, Definition>, configs: seq<(string, ClassConfig)>)
    ensures defs.Keys <= BuildAll(defs, configs).definitions.Keys
    decreases |configs|
  {
    if configs != [] {
      match SelectAdapter(configs[0].1, configs[0].0)
      case Err(_) =>
      case Ok(ad) =>
        var next := AddCommands(Register(defs, ad), ad.id, configs[0].1, ACTIONS);
        AddCommandsKeySet(Register(defs, ad), ad.id, configs[0].1, ACTIONS);
        BuildAllKeepsKeys(next, configs[1..]);
    }
  }

  /** The exception message names the class and then the three adapter keys, quoted and comma separated, in configuration order. */
  lemma MissingAdapterMessage(classname: string)
    ensures ErrorMessage(MissingAdapter(classname)) ==
      Some(MESSAGE_HEAD + classname + MESSAGE_MIDDLE +
        ("adapter_id" + ADAPTER_SEPARATOR + "service_manager_adapter" + ADAPTER_SEPARATOR + "resource_adapter") + "\"")
  {
    var joined := Join(ADAPTERS, ADAPTER_SEPARATOR);
    assert joined == "adapter_id" + ADAPTER_SEPARATOR + "service_manager_adapter" + ADAPTER_SEPARATOR + "resource_adapter";
    MessageLiterals();
    FormatTwo(MESSAGE_HEAD, MESSAGE_MIDDLE, "\"", classname, joined, []);
    assert [classname, joined] + [] == [classname, joined];
  }

  lemma MessageLiterals()
    ensures '%' !in MESSAGE_HEAD && '%' !in MESSAGE_MIDDLE && '%' !in "\""
  {
    assert '%' !in "An adapter must " && '%' !in "be configured ";
  }

  // ----- The descriptions carried by an adapter definition -----

  /**
   * The descriptions are wired with their `%s` escaped, so no `%s` is left
   * in the definition, and the adapter's setters restore them exactly when
   * they contained no `{s}` of their own.
   */
  lemma ServiceManagerDescriptionsRoundTrip(c: ServiceManagerAdapterConfig, classname: string)
    ensures var def := ServiceManagerAdapterDefinition(c, classname);
      def.calls[3] == MethodCall("setCommandDescription", [Scalar(Some(Escape(c.commandDescription)))]) &&
      def.calls[6] == MethodCall("setIdentifierArgumentDescription", [Scalar(Some(Escape(c.identifierArgumentDescription)))]) &&
      !Occurs(Escape(c.commandDescription), "%s") && !Occurs(Escape(c.identifierArgumentDescription), "%s")
    ensures !Occurs(c.commandDescription, "{s}") ==> Unescape(Escape(c.commandDescription)) == c.commandDescription
    ensures !Occurs(c.identifierArgumentDescription, "{s}") ==>
      Unescape(Escape(c.identifierArgumentDescription)) == c.identifierArgumentDescription
  {
    EscapeLeavesNoPlaceholder(c.commandDescription);
    EscapeLeavesNoPlaceholder(c.identifierArgumentDescription);
    if !Occurs(c.commandDescription, "{s}") { UnescapeEscape(c.commandDescription); }
    if !Occurs(c.identifierArgumentDescription, "{s}") { UnescapeEscape(c.identifierArgumentDescription); }
  }

  /** A class name without backslashes appears unchanged in the resource expression. */
  lemma ResourceExpressionOfPlainName(classname: string)
    requires '\\' !in classname
    ensures ResourceExpression(classname) == "service(\"fxp_resource.domain_manager\").get(\"" + classname + "\")"
  {
    AbsentCharRulesOut(classname, "\\", '\\');
    ReplaceWithoutOccurrence(classname, "\\", "\\\\");
  }

  // ----- The configurations of the builder's tests -----

  const DISABLED: ActionConfig := ActionConfig(false, [], [])
  const VIEW_ONLY_ENABLED: ActionConfig := ActionConfig(true, [], [])

  /** With only the view action enabled, exactly its command is added. */
  lemma {:induction false} AddOnlyView(defs: map<string, Definition>, adapterId: string, config: ClassConfig)
    requires config.view.enabled
    requires !config.create.enabled && !config.update.enabled && !config.delete.enabled && !config.undelete.enabled
    ensures AddCommands(defs, adapterId, config, ACTIONS) == defs[CommandId(adapterId, View) := CommandDefinitionFor(View, adapterId, config)]
  {
    var next := Step(defs, adapterId, config, View);
    assert ACTIONS[1..] == [Create, Update, Delete, Undelete];
    AddCommandsNoneEnabled(next, adapterId, config, ACTIONS[1..]);
  }

  /** Disabled actions add nothing. */
  lemma {:induction false} AddCommandsNoneEnabled(defs: map<string, Definition>, adapterId: string, config: ClassConfig, actions: seq<Action>)
    requires forall a | a in actions :: !config.For(a).enabled
    ensures AddCommands(defs, adapterId, config, actions) == defs
    decreases |actions|
  {
    if actions != [] {
      assert actions[0] in actions;
      AddCommandsNoneEnabled(defs, adapterId, config, actions[1..]);
    }
  }

  /** A class using an existing adapter service registers only its view command. */
  lemma BuildWithAdapterId(defs: map<string, Definition>, adapterId: string, config: ClassConfig)
    requires adapterId == "service_adapter_id"
    requires config == ClassConfig(Some(adapterId), None, None, VIEW_ONLY_ENABLED, DISABLED, DISABLED, DISABLED, DISABLED)
    ensures BuildAll(defs, [("FooClass", config)]) ==
      Outcome(defs["service_adapter_id.view" := CommandDefinition(View, adapterId, [], [])], None)
  {
    CommandIdOfServiceAdapterId(adapterId);
    assert [("FooClass", config)][1..] == [];
    AddOnlyView(defs, adapterId, config);
  }

  /** A class with a service manager adapter registers the adapter and its view command. */
  lemma BuildWithServiceManagerAdapter(defs: map<string, Definition>, prefix: string, c: ServiceManagerAdapterConfig, config: ClassConfig)
    requires prefix == "command:prefix"
    requires c == ServiceManagerAdapterConfig("service_manager_id", Some("Short Name"), prefix,
      "The command description", "id", "identifier", "The description of identifier argument of %s",
      Some("getId"), None, None, None, None, None, None)
    requires config == ClassConfig(None, Some(c), None, VIEW_ONLY_ENABLED, DISABLED, DISABLED, DISABLED, DISABLED)
    ensures var adapterId := ADAPTER_ID_PREFIX + "command_prefix";
      BuildAll(defs, [("FooClass", config)]) ==
        Outcome(defs[adapterId := ServiceManagerAdapterDefinition(c, "FooClass")]
                    [COMMAND_ID_PREFIX + "command_prefix" + ".view" := CommandDefinition(View, adapterId, [], [])], None)
  {
    AdapterIdOfCommandPrefix(prefix);
    CommandIdOfCommandPrefix(prefix, "command_prefix");
    var adapterId := AdapterId(prefix);
    var registered := defs[adapterId := ServiceManagerAdapterDefinition(c, "FooClass")];
    var built := BuildClass(defs, "FooClass", config);
    assert built.Ok?;
    assert BuildAll(defs, [("FooClass", config)]) == Outcome(built.value, None) by {
      assert [("FooClass", config)][1..] == [];
    }
    AddOnlyView(registered, adapterId, config);
  }
}
