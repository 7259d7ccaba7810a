# Doctrine console bundle: a Dafny model

This project models the core of the fxp doctrine-console bundle. That bundle gives every
configured Doctrine entity class five console commands: view, create, update, delete and
undelete. It has four parts:

- a container builder that turns the bundle configuration into service definitions (adapters and
  commands);
- a service-manager adapter that forwards each action to a manager method, after checking that
  the method exists;
- field helpers that add one console option per entity field or association, and write the
  values given on the command line back into the entity through its setters;
- a detail helper that lists an object's getters as a two-column table with humanized labels.

The model is split into modules that follow the program's own files:

| file | models |
|---|---|
| `wrappers.dfy` | `Option` and `Result` |
| `strings.dfy` | the PHP string functions the core uses: `str_replace`, `ucfirst`/`lcfirst`, `strtolower`, `implode`, splitting, and the `%s`/`%%` subset of `sprintf` (`Format`, which fails on any other conversion or on too few arguments) |
| `placeholders.dfy` | the `%s` to `{s}` escaping done by the container builder and undone by the adapter setters |
| `values.dfy` | PHP values, `empty()`, and case-insensitive method lookup |
| `console.dfy` | the Symfony console input definition and parsed input, with the exceptions `setName`, `new InputArgument` and `addArgument` raise |
| `command_builder.dfy` | `CommandBuilder` (the container is a class with a map of definitions; `BuildCommands` is a loop proved equal to the pure `BuildAll`) |
| `adapter.dfy` | `BaseServiceManagerAdapter` and `ServiceManagerAdapter` (the manager is a class that logs the calls it receives) |
| `object_field_util.dfy` | `ObjectFieldUtil` (an entity is a class with a set of method names and a log of setter calls) |
| `php_arrays.dfy` | PHP arrays with string keys: insertion order, in-place assignment, and `array_merge` |
| `object_field_helper.dfy` | `ObjectFieldHelper` (a class with a per-class memo of configs; the object manager logs metadata reads and repository queries) |
| `detail_object_helper.dfy` | `DetailObjectHelper` (`humanize`'s regular expression is written out as a tokenizer; the output table is a class holding its rows) |
| `command_base.dfy` | the `configure` of `Command/Base.php`, which stops at an invalid command name or at the first argument the console refuses |

Objects the core only calls are modelled by their observable effect: the service manager, the
object manager, repositories, the validator, and entity setters. Each is a class whose
methods append to a call log and answer through a function fixed at construction. "Not
invoked" in a contract means that the log is unchanged.

## Model

| member | source | states |
|---|---|---|
| CommandBuilder.BuildCommands | DependencyInjection/CommandBuilder.php:47-60 | The container ends with exactly `BuildAll`'s definitions. The error is `BuildAll`'s: the first class without an adapter stops the build. |
| CommandBuilder.BuildAllFails | DependencyInjection/CommandBuilder.php:47-60 | The build succeeds iff every class configures an adapter. Otherwise the error names the first class that does not. |
| CommandBuilder.BuildAllKeepsKeys | DependencyInjection/CommandBuilder.php:47-60 | Building never removes a service definition that was already there. |
| CommandBuilder.AddCommandsRegisters | DependencyInjection/CommandBuilder.php:52-57 | Every enabled action gets its command definition under its command id. |
| CommandBuilder.AddCommandsKeeps | DependencyInjection/CommandBuilder.php:52-57 | An id that is no enabled action's command id keeps its presence and its definition. |
| CommandBuilder.AddCommandsKeySet | DependencyInjection/CommandBuilder.php:52-57 | The ids after the loop are the old ids plus the command ids of the enabled actions. |
| CommandBuilder.EnabledCommandIds | DependencyInjection/CommandBuilder.php:52-57 | An id is in the set iff it is the command id of an enabled action in the list. |
| CommandBuilder.DisabledActionUntouched | DependencyInjection/CommandBuilder.php:55 | A disabled action's command id is neither added nor changed. |
| CommandBuilder.AddCommandsNoneEnabled | DependencyInjection/CommandBuilder.php:55 | When no action is enabled, the definitions are unchanged. |
| CommandBuilder.AddOnlyView | DependencyInjection/CommandBuilder.php:33-39 | With only view enabled, exactly the view command is added. |
| CommandBuilder.BuildAdapter | DependencyInjection/CommandBuilder.php:71-84 | The adapter id comes from the first configured key in the order adapter_id, service_manager_adapter, resource_adapter. A built adapter's definition is registered. Without any of the three keys the result is the missing-adapter error and the container is unchanged. |
| CommandBuilder.BuildClassFails | DependencyInjection/CommandBuilder.php:71-84 | A class builds iff it has an adapter. Otherwise the error is the missing-adapter error for that class. |
| CommandBuilder.BuildClassRegisters | DependencyInjection/CommandBuilder.php:71-84 | A class builds iff it has an adapter. The resulting map holds the adapter definition of the selected kind and each enabled command. |
| CommandBuilder.MissingAdapterMessage | DependencyInjection/CommandBuilder.php:80 | The error message names the configuration path of the class and lists the available adapters. |
| CommandBuilder.BuildServiceManagerAdapter | DependencyInjection/CommandBuilder.php:95-120 | It registers the service-manager adapter definition under the id derived from the command prefix, and changes nothing else. |
| CommandBuilder.ServiceManagerDescriptionsRoundTrip | DependencyInjection/CommandBuilder.php:105-108 | The descriptions the definition passes hold no `%s`. Unescaping them gives back the configured text whenever that text had no `{s}`. |
| CommandBuilder.BuildResourceAdapter | DependencyInjection/CommandBuilder.php:131-147 | It registers the resource adapter definition under the id derived from the command prefix, and changes nothing else. |
| CommandBuilder.ResourceExpressionOfPlainName | DependencyInjection/CommandBuilder.php:136 | For a class name without backslashes, the expression fetches that name from the domain manager. |
| CommandBuilder.BuildCommand | DependencyInjection/CommandBuilder.php:158-171 | It registers the command definition under the command id, and changes nothing else. |
| CommandBuilder.CommandIdOfPlainId | DependencyInjection/CommandBuilder.php:160 | An adapter id without `command_adapter` gives the command id adapter id + "." + action. |
| CommandBuilder.CommandIdOfServiceAdapterId | DependencyInjection/CommandBuilder.php:160 | The test's `service_adapter_id` gives `service_adapter_id.view`. |
| CommandBuilder.ReplaceAdapterPrefix | DependencyInjection/CommandBuilder.php:160 | The adapter namespace is rewritten to the commands namespace. |
| CommandBuilder.CommandIdOfBuiltAdapter | DependencyInjection/CommandBuilder.php:160 | The command id of a built adapter is the commands namespace + the underscored prefix + "." + action. |
| CommandBuilder.CommandIdOfCommandPrefix | DependencyInjection/CommandBuilder.php:160 | `command:prefix` gives the view command id `…commands.command_prefix.view`. |
| CommandBuilder.CommandIdsDistinct | DependencyInjection/CommandBuilder.php:160 | Two different actions never share a command id. |
| CommandBuilder.AdapterIdIsNoCommandId | DependencyInjection/CommandBuilder.php:160 | No command id collides with the id of its own adapter. |
| CommandBuilder.AdapterIdIsUnderscored | DependencyInjection/CommandBuilder.php:180-184 | The adapter id is the adapter namespace + the prefix with every `:` and `-` made `_`, and no `:` or `-` remains. |
| CommandBuilder.AdapterIdOfCommandPrefix | DependencyInjection/CommandBuilder.php:180-184 | `command:prefix` gives `…command_adapter.command_prefix`. |
| CommandBuilder.BuildWithAdapterId | DependencyInjection/CommandBuilder.php:47-60 | A class with `adapter_id` and only view enabled gets exactly its view command, on that adapter. |
| CommandBuilder.BuildWithServiceManagerAdapter | DependencyInjection/CommandBuilder.php:95-120 | A class with a service-manager adapter and only view enabled gets the adapter definition, with its method calls, and the view command. |
| Placeholders.UnescapeEscape | Adapter/ServiceManagerAdapter.php:56-59 | Unescaping undoes escaping on text without `{s}`. |
| Placeholders.EscapeLeavesNoPlaceholder | DependencyInjection/CommandBuilder.php:105 | No `%s` is left after escaping. |
| Adapter.Manager.Invoke | Adapter/BaseServiceManagerAdapter.php:108 | A call of a declared method is logged, and it answers with the manager's response. |
| Adapter.ServiceManagerAdapter.constructor | Adapter/BaseServiceManagerAdapter.php:96-99 | It keeps the manager and leaves every setting null. |
| Adapter.ServiceManagerAdapter.SetClass | Adapter/ServiceManagerAdapter.php:26-29 | The class name is stored as given. |
| Adapter.ServiceManagerAdapter.SetShortName | Adapter/ServiceManagerAdapter.php:36-39 | The short name is stored as given. |
| Adapter.ServiceManagerAdapter.SetCommandPrefix | Adapter/ServiceManagerAdapter.php:46-49 | The command prefix is stored as given. |
| Adapter.ServiceManagerAdapter.SetCommandDescription | Adapter/ServiceManagerAdapter.php:56-59 | The description is stored with every `{s}` turned back into `%s`. |
| Adapter.ServiceManagerAdapter.SetIdentifierField | Adapter/ServiceManagerAdapter.php:66-69 | The identifier field is stored as given. |
| Adapter.ServiceManagerAdapter.SetIdentifierArgument | Adapter/ServiceManagerAdapter.php:76-79 | The identifier argument is stored as given. |
| Adapter.ServiceManagerAdapter.SetIdentifierArgumentDescription | Adapter/ServiceManagerAdapter.php:86-89 | The description is stored with every `{s}` turned back into `%s`. |
| Adapter.ServiceManagerAdapter.SetDisplayNameMethod | Adapter/ServiceManagerAdapter.php:96-99 | The display-name method is stored as given. |
| Adapter.ServiceManagerAdapter.SetCreateMethod | Adapter/ServiceManagerAdapter.php:106-109 | The create method is stored as given. |
| Adapter.ServiceManagerAdapter.SetGetMethod | Adapter/ServiceManagerAdapter.php:116-119 | The get method is stored as given. |
| Adapter.ServiceManagerAdapter.SetUpdateMethod | Adapter/ServiceManagerAdapter.php:126-129 | The update method is stored as given. |
| Adapter.ServiceManagerAdapter.SetDeleteMethod | Adapter/ServiceManagerAdapter.php:136-139 | The delete method is stored as given. |
| Adapter.ServiceManagerAdapter.SetUndeleteMethod | Adapter/ServiceManagerAdapter.php:146-149 | The undelete method is stored as given. |
| Adapter.ServiceManagerAdapter.Validate | Adapter/BaseServiceManagerAdapter.php:226-234 | It succeeds iff the method name is set and the manager has that method, ignoring case. Otherwise the error names the action and the adapter's class. |
| Adapter.ErrorMessageText | Adapter/BaseServiceManagerAdapter.php:232 | The unsupported-method message names the action and the class, with null printed as empty. The not-found message (line 121) names the short name and the identifier. |
| Adapter.ServiceManagerAdapter.Create | Adapter/BaseServiceManagerAdapter.php:104-109 | A supported create method is invoked once and its result returned. Otherwise the error is unsupported-method and the manager is not invoked. |
| Adapter.ServiceManagerAdapter.Get | Adapter/BaseServiceManagerAdapter.php:114-125 | The get method is invoked with the identifier field and value. A null answer is the not-found error naming the short name and identifier. An unsupported method invokes nothing. |
| Adapter.ServiceManagerAdapter.Update | Adapter/BaseServiceManagerAdapter.php:130-134 | The update method is invoked with the instance, or the error is unsupported-method and nothing is invoked. |
| Adapter.ServiceManagerAdapter.Delete | Adapter/BaseServiceManagerAdapter.php:139-143 | The delete method is invoked with the instance, or the error is unsupported-method and nothing is invoked. |
| Adapter.ServiceManagerAdapter.Undelete | Adapter/BaseServiceManagerAdapter.php:148-153 | The undelete method is invoked with the identifier and its result returned, or the error is unsupported-method and nothing is invoked. |
| Adapter.LookupIgnoresCase | Adapter/BaseServiceManagerAdapter.php:231 | A name spelled with any mix of upper and lower case is found exactly when the name as written is. A declared method is found under every such spelling. |
| ObjectFieldUtil.OptionMode | Util/ObjectFieldUtil.php:35-37 | The mode always has VALUE_REQUIRED. It has VALUE_IS_ARRAY iff the type is `array`. It never has VALUE_NONE or VALUE_OPTIONAL. |
| ObjectFieldUtil.AddOptions | Util/ObjectFieldUtil.php:32-43 | The options become `OptionsAfter`, which the four lemmas below characterise. |
| ObjectFieldUtil.OptionsAfterExtends | Util/ObjectFieldUtil.php:32-43 | The existing options stay first and in order. |
| ObjectFieldUtil.OptionsAfterNames | Util/ObjectFieldUtil.php:39 | A name is an option afterwards iff it was one before, or it is a field that is not an argument. |
| ObjectFieldUtil.OptionsAfterDistinct | Util/ObjectFieldUtil.php:39 | Option names stay distinct. |
| ObjectFieldUtil.OptionsAfterAdded | Util/ObjectFieldUtil.php:40 | Each added option is the option of some field: no shortcut, the field's mode, and the description formatted with field and type. It is not an argument. |
| ObjectFieldUtil.GetFieldValue | Util/ObjectFieldUtil.php:53-64 | The value is the argument's if there is one, else the option's, else null. |
| ObjectFieldUtil.ConvertEmptyValue | Util/ObjectFieldUtil.php:73-82 | `{{null}}` becomes null and `{{empty}}` becomes the empty array. Every other value is unchanged, and no magic string remains. |
| ObjectFieldUtil.ConvertEmptyValueIdempotent | Util/ObjectFieldUtil.php:73-82 | Converting twice is converting once. |
| ObjectFieldUtil.SetFieldValue | Util/ObjectFieldUtil.php:91-103 | When the entity has the setter "set" + ucfirst(field) (ignoring case), exactly one call with the value is appended. Otherwise nothing changes and the error names the setter and the field. |
| ObjectFieldUtil.SetterFoundIgnoringCase | Util/ObjectFieldUtil.php:93-97 | A setter declared with any casing of "set" + field is found. |
| ObjectFieldUtil.LowerUcfirst | Util/ObjectFieldUtil.php:93 | Upper-casing the first letter does not change the lower-cased name. |
| ObjectFieldUtil.SetterErrorText | Util/ObjectFieldUtil.php:99 | The missing-setter message names the setter, then the property. |
| PhpArrays.Put | Helper/ObjectFieldHelper.php:180 | An assigned key keeps its position, or a new key goes last. Its value is the new one, and every other key keeps its value. |
| PhpArrays.PutUnique | Helper/ObjectFieldHelper.php:180 | Assignment keeps keys unique. |
| PhpArrays.MergeKeys | Helper/ObjectFieldHelper.php:105 | The merged keys are unique. The first array's keys come first and in order. A key is present iff it is in either array. |
| PhpArrays.LookupPresent | Helper/ObjectFieldHelper.php:116-118 | A key is looked up iff it is among the keys. |
| ObjectFieldHelper.ObjectFieldHelper.constructor | Helper/ObjectFieldHelper.php:51-56 | It starts with no cached configs. |
| ObjectFieldHelper.ObjectFieldHelper.GetConfigs | Helper/ObjectFieldHelper.php:65-79 | The config is `ConfigOf` the class metadata. Metadata is read only the first time a class is asked for; later calls read the cache. |
| ObjectFieldHelper.ObjectFieldHelper.LoadConfig | Helper/ObjectFieldHelper.php:72-75 | A class's config is cached as `ConfigOf` its metadata, and the metadata read is recorded. Other cached classes are unchanged. |
| ObjectFieldHelper.ObjectFieldHelper.AddConfigFields | Helper/ObjectFieldHelper.php:176-183 | The fields become `Collect` of the non-identifier field names with their types. |
| ObjectFieldHelper.ObjectFieldHelper.AddConfigAssociations | Helper/ObjectFieldHelper.php:191-199 | The associations become `Collect` of the owning single-valued associations with their target classes. |
| ObjectFieldHelper.ConfigOfContents | Helper/ObjectFieldHelper.php:176-199 | A field is configured iff it is a non-identifier field, and it maps to its type. An association is configured iff it is owning and single-valued, and it maps to its target class. |
| ObjectFieldHelper.CollectKeys | Helper/ObjectFieldHelper.php:178-181 | Collected keys are the old keys plus the kept names. |
| ObjectFieldHelper.CollectLookup | Helper/ObjectFieldHelper.php:178-181 | A kept name maps to its value; other keys keep their old values. |
| ObjectFieldHelper.CollectUnique | Helper/ObjectFieldHelper.php:178-181 | Collecting keeps keys unique. |
| ObjectFieldHelper.ObjectFieldHelper.InjectFieldOptions | Helper/ObjectFieldHelper.php:87-93 | The options become those of the fields (with their types), then those of the associations (with their targets). The config is cached. |
| ObjectFieldHelper.InjectedOptionNames | Helper/ObjectFieldHelper.php:87-93 | Option names stay distinct. A name is an option afterwards iff it was one, or it is a configured field or association that is not an argument. |
| ObjectFieldHelper.DescriptionText | Helper/ObjectFieldHelper.php:91-92 | The field description names the field. The association description names the association and its target. |
| ObjectFieldHelper.DescriptionsFormat | Helper/ObjectFieldHelper.php:91-92 | Both description templates format for any field. |
| ObjectFieldHelper.ObjectFieldHelper.InjectNewValues | Helper/ObjectFieldHelper.php:102-122 | The setter calls, repository queries and error are those of `Inject` over the merged field and association names. It stops at the first error. Associations follow the corrected rule of the first Findings row (see "Left out"). |
| ObjectFieldHelper.ObjectFieldHelper.InjectName | Helper/ObjectFieldHelper.php:108-121 | One name of the loop: the setter calls, queries and error afterwards are `Step`'s for that name. Associations follow the corrected rule of the first Findings row (see "Left out"). |
| ObjectFieldHelper.StepAppends | Helper/ObjectFieldHelper.php:108-121 | One name adds at most one setter call, and at most one query. A call is for that name's own setter, and only when its input is not empty and it is a field or an association. |
| ObjectFieldHelper.InjectedNamesOnce | Helper/ObjectFieldHelper.php:105 | Each field and association is visited once, fields first. |
| ObjectFieldHelper.InjectExtends | Helper/ObjectFieldHelper.php:107-121 | Injection only appends to the setter calls and to the queries. |
| ObjectFieldHelper.InjectSkipsEmpty | Helper/ObjectFieldHelper.php:110-112 | Names whose input is empty cause no call and no query. |
| ObjectFieldHelper.InjectSucceeds | Helper/ObjectFieldHelper.php:107-121 | If every non-empty name has its setter and every association target is found, there is no error. |
| ObjectFieldHelper.InjectCallsFromInput | Helper/ObjectFieldHelper.php:107-121 | Every appended setter call is for a visited name whose input was not empty. |
| ObjectFieldHelper.ObjectFieldHelper.SetAssociationValue | Helper/ObjectFieldHelper.php:158-168 | The repository is queried once. Under the corrected rule of the first Findings row, no match is the not-found error, with no setter call. Otherwise the first match goes through the setter. |
| ObjectFieldHelper.AssociationTarget | Helper/ObjectFieldHelper.php:161-167 | There is no target iff the query found nothing. A target is one of the matches. |
| ObjectFieldHelper.MissingTargetNotReported | Helper/ObjectFieldHelper.php:161-167 | As written, an empty result is never reported and gives null. The corrected rule reports it, and the two agree otherwise. |
| ObjectFieldHelper.ObjectFieldHelper.ValidateObject | Helper/ObjectFieldHelper.php:131-147 | Without a validator, or without violations, there is no error. Otherwise the error is the message that heads with the class and lists every violation. |
| ObjectFieldHelper.ViolationFormat | Helper/ObjectFieldHelper.php:141 | Each violation line is an end-of-line, then `  - `, the path, `: ` and the message. |
| ObjectFieldHelper.LinesAreJoined | Helper/ObjectFieldHelper.php:138-142 | The message is its header and violation texts joined by end-of-lines. |
| ObjectFieldHelper.ValidationMessageLines | Helper/ObjectFieldHelper.php:138-142 | Splitting the message on end-of-lines gives back the header and one text per violation, in order. |
| DetailObjectHelper.Humanize | Helper/DetailObjectHelper.php:31-43 | The result is `Humanized`: the regular-expression tokens as words, joined by spaces, first letter upper-cased. |
| DetailObjectHelper.Tokens | Helper/DetailObjectHelper.php:33 | Each token is non-empty, starts with a letter and is alphanumeric. |
| DetailObjectHelper.Spans | Helper/DetailObjectHelper.php:33 | The matches are in bounds, ordered and non-overlapping. |
| DetailObjectHelper.SpansAlnum | Helper/DetailObjectHelper.php:33 | Every match starts with a letter and holds only letters and digits. |
| DetailObjectHelper.MatchAt | Helper/DetailObjectHelper.php:33 | A match starts with a letter and covers only alphanumerics. |
| DetailObjectHelper.BacktrackEnd | Helper/DetailObjectHelper.php:33 | The all-capitals alternative ends at the longest prefix followed by the end or a capitalised word. |
| DetailObjectHelper.UpperRunEnd | Helper/DetailObjectHelper.php:33 | The run of capitals and digits is maximal. |
| DetailObjectHelper.LowerRunEnd | Helper/DetailObjectHelper.php:33 | The run of lower-case letters and digits is maximal. |
| DetailObjectHelper.WordOfToken | Helper/DetailObjectHelper.php:36-40 | An all-capitals token is lower-cased, and any other token has its first letter lower-cased. Either way the word starts lower-case and keeps its length. |
| DetailObjectHelper.HumanizedWords | Helper/DetailObjectHelper.php:42 | Splitting the result on spaces gives back the words, the first one capitalised. |
| DetailObjectHelper.UcfirstJoin | Helper/DetailObjectHelper.php:42 | Upper-casing the first letter of the joined words is upper-casing the first word. |
| DetailObjectHelper.WordCharacters | Helper/DetailObjectHelper.php:36-40 | Words stay alphanumeric. |
| DetailObjectHelper.HumanizedCamel | Helper/DetailObjectHelper.php:31-43 | A two-hump camel-case word becomes its two words, the first capitalised. |
| DetailObjectHelper.HumanizeLowerCamel | Helper/DetailObjectHelper.php:31-43 | `fooBar` becomes `Foo bar`. |
| DetailObjectHelper.HumanizeUpperCamel | Helper/DetailObjectHelper.php:31-43 | `FooBar` becomes `Foo bar`. |
| DetailObjectHelper.FormatValue | Helper/DetailObjectHelper.php:97-113 | The result is `Formatted`: dates in ISO 8601, booleans as `True`/`False`, arrays as their formatted items joined by a newline and two spaces. Objects without a string form fail. |
| DetailObjectHelper.ArrayLines | Helper/DetailObjectHelper.php:103-109 | Splitting a formatted array on the separator gives back the formatted items. |
| DetailObjectHelper.ArrayFailsWithElement | Helper/DetailObjectHelper.php:103-109 | One item that cannot be formatted makes the whole array fail. |
| DetailObjectHelper.FieldText | Helper/DetailObjectHelper.php:79-88 | A getter whose value formats gives that text. A getter that throws, or whose value does not format, gives the format-error text. |
| DetailObjectHelper.GetFieldValue | Helper/DetailObjectHelper.php:79-88 | The text is `FieldText` of the getter's result. |
| DetailObjectHelper.AccessorFilterFinding | Helper/DetailObjectHelper.php:61 | The corrected filter accepts only names the as-written one accepts, and `publish` is accepted as written but not corrected. |
| DetailObjectHelper.RowsOfShownMethods | Helper/DetailObjectHelper.php:58-66 | Every row belongs to a shown method, and every shown method has its row. A method is shown under the corrected name filter of the second Findings row (see "Left out"). |
| DetailObjectHelper.Table.AddRow | Helper/DetailObjectHelper.php:64 | The row is appended. |
| DetailObjectHelper.Display | Helper/DetailObjectHelper.php:51-69 | The table gains exactly the rows of the shown methods, in method order. A method is shown under the corrected name filter of the second Findings row (see "Left out"). |
| CommandBase.Command.constructor | Command/Base.php:37-65 | It keeps the adapter and the argument and option configs. The action defaults to `INVALID_ACTION`. |
| CommandBase.Command.Configure | Command/Base.php:70-89 | An invalid name (see `ValidCommandName`) ends configure with `InvalidCommandName` before anything is set. Otherwise the name is prefix + ":" + action, and the description is the formatted template. The arguments and the exception follow `ArgumentsAfterConfigure`: the configured arguments in order up to the first one the console refuses, then the identifier argument. The options are added only when every configured argument was. |
| CommandBase.CommandNameValid | Command/Base.php:74 | A name built from a prefix of colon-free pieces, a colon and a colon-free action is valid exactly when no piece and not the action is empty. So a prefix ending in a colon, or holding a doubled colon, is refused. |
| CommandBase.EmptyPrefixInvalid | Command/Base.php:74 | A null or empty command prefix gives a name starting with a colon, which setName refuses. |
| Console.NewArgument | Command/Base.php:78-80 | An argument is built exactly when its mode is null or 1 to 7 and, with a default, the mode is neither REQUIRED nor an array mode. A null mode is stored as OPTIONAL. |
| Console.InputDefinition.AddArgument | Command/Base.php:78-80 | The argument is appended, or the arguments stay as they were and the error is the taken name, an earlier array argument, or a required argument after an optional one. |
| Console.AddArgumentKeepsOrder | Command/Base.php:78-88 | For well-ordered arguments, addArgument accepts exactly the arguments that keep them well ordered: distinct names, an array argument only last, and no required argument after an optional one. |
| CommandBase.AddConfiguredAll | Command/Base.php:78-80 | When every configured argument is accepted, they follow the earlier ones, one per entry and in order. When one is refused, nothing earlier is lost. |
| CommandBase.AddConfiguredKeepsOrder | Command/Base.php:78-80 | Adding the configured arguments keeps the arguments well ordered. |
| CommandBase.ConfigureKeepsOrder | Command/Base.php:78-88 | The arguments configure leaves are well ordered, whether it completes or stops at an exception. |
| CommandBase.OptionalArgumentBlocksIdentifier | Command/Base.php:86-88 | A configured argument left at the default null mode (OPTIONAL) makes every action but create fail when the REQUIRED identifier argument follows it. |
| CommandBase.IdentifierArgumentRule | Command/Base.php:86-88 | When configure completes, the identifier is an argument afterwards iff the action is not create or it already was one. It is added at most once, at the end, and create adds nothing. |
| CommandBase.DescriptionOfTwoPlaceholders | Command/Base.php:75 | A two-placeholder description gets the action, then the class name. |
| Strings.ReplaceCharIsMap | DependencyInjection/CommandBuilder.php:183 | Replacing single characters maps each character independently. |
| Strings.SplitJoin | Helper/DetailObjectHelper.php:42 | Splitting joined parts on a separator they do not contain gives the parts back. |
| Strings.FormatTwo | Command/Base.php:75 | A template with two `%s` and literal text free of `%` formats to the text with both arguments in place. |

## Left out

- I/O: the rendering of the table (style, alignment), the console output, and the command
  runs of the concrete command classes are not part of this model. `Display` stops at the rows.
- The container's `Definition`, `Reference` and `Expression` objects are values here. Service
  resolution, tags and the resource adapter class itself (in the resource bundle) are not part
  of this model.
- `ServiceManagerAdapter` in this source has no `setNewInstanceMethod`, although the builder
  adds a call to it. The model keeps the call in the definition and has no such setter.
- The configuration tree (`Configuration.php`) is not part of this model. Its required keys and
  defaults are taken as given (for example every per-action config has `enabled`, field
  arguments and options).
- `array_merge` renumbers integer keys. Only the string keys the helpers use are modelled.
- `PHP_EOL` is taken to be `"\n"`.
- `sprintf` is modelled for `%s` and `%%` only. Any other conversion makes `Format` fail.
  `Command.Configure` therefore requires both adapter templates to format. Its contract does
  not cover a template with another conversion, which PHP would format or reject.
- CommandBase.Command.Configure: `setName`'s check follows the pattern of the console component's
  `Command::validateName`, which is not part of this repository. The checks of Symfony's `InputOption` constructor and of
  `InputDefinition::addOption` (an empty or taken name, a taken shortcut, an invalid mode, a default
  for `VALUE_NONE`) are not modelled: options are always appended. The argument checks follow the
  console component's `InputArgument` and `InputDefinition::addArgument`, which are not part of this
  repository.
- ObjectFieldHelper.ObjectFieldHelper.SetAssociationValue: implements the corrected rule of the first
  Findings row. As written, a `findBy` with no match calls the setter with null and raises nothing;
  the model raises `AssociationNotFound` instead. `MissingTargetNotReported` states how the two rules
  differ. The not-found error is the structured `AssociationNotFound(field, value)`; its message, which
  prints the value with `%s`, is not modelled.
- ObjectFieldHelper.ObjectFieldHelper.InjectNewValues: follows the corrected association rule through
  `Step`. As written, an association value with no matching row gets a null setter call and the loop
  goes on to the next name; the model stops there with `AssociationNotFound`.
- ObjectFieldHelper.ObjectFieldHelper.InjectName: the same corrected association rule, for one name.
- DetailObjectHelper.RowsOfShownMethods: uses the corrected filter `AccessorName` (names starting with
  get, has or is). As written, `/^get|has|is/` also invokes and shows public methods without
  parameters whose names only contain has or is (`publish`, `dispatch`, `persist`).
  `AccessorFilterFinding` states how the two filters differ.
- DetailObjectHelper.Display: the same corrected filter, so those methods are neither invoked nor shown.
- ObjectFieldHelper.ObjectFieldHelper.ValidateObject: the validator sees the entity's class and
  its setter calls, not the whole object. Constraint evaluation is a parameter.
- DetailObjectHelper.FormatValue: `IteratorAggregate` values, floats and the string conversion of
  arbitrary objects are not modelled. An object formats only through a given string form.
- DetailObjectHelper.Humanize: the regular expression is written out as a tokenizer over ASCII
  letters and digits. Other characters only separate tokens. PCRE's `$` without the `D` modifier also
  matches just before a final newline, so PHP turns `"AB\n"` into `"Ab"` where the model gives `""`.
  Method names never end in a newline.
- Manager and entity mutations made by the managers' own methods (for example the persisting of
  an instance) are outside this model. Only the calls made to them are recorded.
- Strings are sequences of characters; PHP's byte strings, and the case mapping of non-ASCII
  letters, are not modelled.

## Findings

| source | as written | input that shows it | evidently intended | confidence | as-written member | corrected member |
|---|---|---|---|---|---|---|
| Helper/ObjectFieldHelper.php:161-167 | The code checks `findBy`'s result against null, but `findBy` returns an array, so the check never fires. `$target[0]` of an empty array is null, and null is passed to the setter. | An association value with no matching row: the repository returns `[]`. | A missing target raises the "couldn't be found" error. | not executed | ObjectFieldHelper.AssociationTargetAsWritten | ObjectFieldHelper.AssociationTarget |
| Helper/DetailObjectHelper.php:61 | The pattern `/^get|has|is/` means "starts with get, or contains has, or contains is". | A public method `publish()` with no parameters is shown as a field. | Only names that start with get, has or is are shown. | not executed | DetailObjectHelper.AccessorNameAsWritten | DetailObjectHelper.AccessorName |
