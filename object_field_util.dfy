/**
 * Static helpers for the entity fields of a console command: one option
 * per field, reading a field's value from the input, the two magic values
 * `{{null}}` and `{{empty}}`, and calling a field's setter.
 */
module ObjectFieldUtil {
  import opened Wrappers
  import opened Strings
  import opened Values
  import opened Console

  const NULL_MAGIC: string := "{{null}}"
  const EMPTY_MAGIC: string := "{{empty}}"

  /** The mode of a field's option: a required value, and an array as well when the field's type is `array`. */
  function OptionMode(fieldType: string): (mode: int)
    ensures (mode / VALUE_REQUIRED) % 2 == 1
    ensures (mode / VALUE_IS_ARRAY) % 2 == 1 <==> fieldType == "array"
    ensures mode % 2 == 0 && (mode / VALUE_OPTIONAL) % 2 == 0
  {
    if fieldType == "array" then VALUE_REQUIRED + VALUE_IS_ARRAY else VALUE_REQUIRED
  }

  function FieldNames(fields: seq<(string, string)>): seq<string> {
    seq(|fields|, i requires 0 <= i < |fields| => fields[i].0)
  }

  /** The description template formats with every field's name and type. */
  predicate Describes(description: string, fields: seq<(string, string)>) {
    forall i | 0 <= i < |fields| :: Format(description, [fields[i].0, fields[i].1]).Some?
  }

  /** The option added for a field: no shortcut, no default, the description formatted with the field and its type. */
  function FieldOption(field: string, fieldType: string, description: string): InputOption
    requires Format(description, [field, fieldType]).Some?
  {
    InputOption(field, [], Some(OptionMode(fieldType)), Format(description, [field, fieldType]).value, None)
  }

  /** The options after addOptions: each field not yet an option or an argument is appended, in order. */
  function OptionsAfter(arguments: seq<InputArgument>, options: seq<InputOption>, fields: seq<(string, string)>, description: string): seq<InputOption>
    requires Describes(description, fields)
    decreases |fields|
  {
    if fields == [] then options
    else
      var field := fields[0].0;
      var next :=
        if field in OptionNames(options) || field in ArgumentNames(arguments) then options
        else options + [FieldOption(field, fields[0].1, description)];
      OptionsAfter(arguments, next, fields[1..], description)
  }

  /** addOptions. */
  method AddOptions(definition: InputDefinition, fields: seq<(string, string)>, description: string)
    requires Describes(description, fields)
    modifies definition`options
    ensures definition.options == OptionsAfter(definition.arguments, old(definition.options), fields, description)
  {
    var i := 0;
    while i < |fields|
      invariant 0 <= i <= |fields|
      invariant Describes(description, fields[i..])
      invariant OptionsAfter(definition.arguments, definition.options, fields[i..], description)
             == OptionsAfter(definition.arguments, old(definition.options), fields, description)
    {
      var field := fields[i].0;
      var fieldType := fields[i].1;
      var mode := OptionMode(fieldType);
      assert fields[i..][0] == fields[i] && fields[i..][1..] == fields[i + 1..];
      if !definition.HasOption(field) && !definition.HasArgument(field) {
        assert Format(description, [field, fieldType]) == Format(description, [fields[i..][0].0, fields[i..][0].1]);
        definition.AddOption(InputOption(field, [], Some(mode), Format(description, [field, fieldType]).value, None));
      }
      i := i + 1;
    }
  }

  /** The options already there stay, in place. */
  lemma {:induction false} OptionsAfterExtends(arguments: seq<InputArgument>, options: seq<InputOption>, fields: seq<(string, string)>, description: string)
    requires Describes(description, fields)
    ensures var r := OptionsAfter(arguments, options, fields, description);
      |options| <= |r| && r[..|options|] == options
    decreases |fields|
  {
    if fields != [] {
      var field := fields[0].0;
      var next :=
        if field in OptionNames(options) || field in ArgumentNames(arguments) then options
        else options + [FieldOption(field, fields[0].1, description)];
      OptionsAfterExtends(arguments, next, fields[1..], description);
      assert next[..|options|] == options;
    }
  }

  lemma OptionNamesAppend(options: seq<InputOption>, o: InputOption)
    ensures OptionNames(options + [o]) == OptionNames(options) + [o.name]
  {
  }

  /** A name is an option afterwards exactly when it was one before, or it is a field that is not an argument. */
  lemma {:induction false} OptionsAfterNames(arguments: seq<InputArgument>, options: seq<InputOption>, fields: seq<(string, string)>, description: string, name: string)
    requires Describes(description, fields)
    ensures name in OptionNames(OptionsAfter(arguments, options, fields, description)) <==>
      name in OptionNames(options) || (name in FieldNames(fields) && name !in ArgumentNames(arguments))
    decreases |fields|
  {
    if fields != [] {
      var field := fields[0].0;
      var next :=
        if field in OptionNames(options) || field in ArgumentNames(arguments) then options
        else options + [FieldOption(field, fields[0].1, description)];
      if next != options {
        OptionNamesAppend(options, FieldOption(field, fields[0].1, description));
      }
      OptionsAfterNames(arguments, next, fields[1..], description, name);
      assert FieldNames(fields) == [field] + FieldNames(fields[1..]);
    }
  }

  predicate Distinct(names: seq<string>) {
    forall i, j | 0 <= i < j < |names| :: names[i] != names[j]
  }

  /** addOptions never defines an option twice. */
  lemma {:induction false} OptionsAfterDistinct(arguments: seq<InputArgument>, options: seq<InputOption>, fields: seq<(string, string)>, description: string)
    requires Describes(description, fields)
    requires Distinct(OptionNames(options))
    ensures Distinct(OptionNames(OptionsAfter(arguments, options, fields, description)))
    decreases |fields|
  {
    if fields != [] {
      var field := fields[0].0;
      var next :=
        if field in OptionNames(options) || field in ArgumentNames(arguments) then options
        else options + [FieldOption(field, fields[0].1, description)];
      if next != options {
        OptionNamesAppend(options, FieldOption(field, fields[0].1, description));
        assert Distinct(OptionNames(next));
      }
      OptionsAfterDistinct(arguments, next, fields[1..], description);
    }
  }

  /** Every added option is the option of one of the fields, and never shares its name with an argument. */
  lemma {:induction false} OptionsAfterAdded(arguments: seq<InputArgument>, options: seq<InputOption>, fields: seq<(string, string)>, description: string)
    requires Describes(description, fields)
    ensures var r := OptionsAfter(arguments, options, fields, description);
      forall k | |options| <= k < |r| ::
        r[k].name !in ArgumentNames(arguments) &&
        exists i | 0 <= i < |fields| :: r[k] == FieldOption(fields[i].0, fields[i].1, description)
    decreases |fields|
  {
    if fields != [] {
      var field := fields[0].0;
      var next :=
        if field in OptionNames(options) || field in ArgumentNames(arguments) then options
        else options + [FieldOption(field, fields[0].1, description)];
      OptionsAfterAdded(arguments, next, fields[1..], description);
      var r := OptionsAfter(arguments, options, fields, description);
      OptionsAfterExtends(arguments, next, fields[1..], description);
      forall k | |options| <= k < |r|
        ensures r[k].name !in ArgumentNames(arguments)
        ensures exists i | 0 <= i < |fields| :: r[k] == FieldOption(fields[i].0, fields[i].1, description)
      {
        if k < |next| {
          assert r[k] == next[k] == FieldOption(fields[0].0, fields[0].1, description);
        } else {
          var i :| 0 <= i < |fields[1..]| && r[k] == FieldOption(fields[1..][i].0, fields[1..][i].1, description);
          assert fields[1..][i] == fields[i + 1];
        }
      }
    }
  }

  /** getFieldValue: the argument of that name, else the option of that name, else null. */
  function GetFieldValue(input: Input, fieldName: string): (value: Value)
    ensures fieldName in input.arguments ==> value == input.arguments[fieldName]
    ensures fieldName !in input.arguments && fieldName in input.options ==> value == input.options[fieldName]
    ensures fieldName !in input.arguments && fieldName !in input.options ==> value == Null
  {
    if fieldName in input.arguments then input.arguments[fieldName]
    else if fieldName in input.options then input.options[fieldName]
    else Null
  }

  /** convertEmptyValue: `{{null}}` becomes null and `{{empty}}` the empty array; nothing else changes. */
  function ConvertEmptyValue(value: Value): (r: Value)
    ensures r != Str(NULL_MAGIC) && r != Str(EMPTY_MAGIC)
    ensures value != Str(NULL_MAGIC) && value != Str(EMPTY_MAGIC) ==> r == value
    ensures value == Str(NULL_MAGIC) ==> r == Null
    ensures value == Str(EMPTY_MAGIC) ==> r == Arr([])
  {
    if value == Str(NULL_MAGIC) then Null
    else if value == Str(EMPTY_MAGIC) then Arr([])
    else value
  }

  /** Converting twice is converting once. */
  lemma ConvertEmptyValueIdempotent(value: Value)
    ensures ConvertEmptyValue(ConvertEmptyValue(value)) == ConvertEmptyValue(value)
  {
  }

  /** The setter of a field: `set` followed by the field name with its first letter upper-cased. */
  function SetterName(fieldName: string): string {
    "set" + Ucfirst(fieldName)
  }

  lemma LowerUcfirst(s: string)
    ensures ToLower(Ucfirst(s)) == ToLower(s)
  {
    if s != [] {
      ToLowerOfToUpper([s[0]]);
      assert ToLower(Ucfirst(s))[0] == ToLower(s)[0];
    }
  }

  /** Lower-casing distributes over concatenation. */
  lemma ToLowerConcat(a: string, b: string)
    ensures ToLower(a + b) == ToLower(a) + ToLower(b)
  {
  }

  /**
   * The setter is found whatever the case of the method's declaration, so
   * a class declaring `setvalidationdate` accepts the field `validationDate`.
   */
  lemma SetterFoundIgnoringCase(methods: set<string>, fieldName: string, declared: string)
    requires declared in methods && ToLower(declared) == ToLower("set" + fieldName)
    ensures HasMethod(methods, SetterName(fieldName))
  {
    LowerUcfirst(fieldName);
    ToLowerConcat("set", Ucfirst(fieldName));
    ToLowerConcat("set", fieldName);
  }

  /** The errors raised while injecting values. */
  datatype FieldError =
    | MissingSetter(setter: string, field: string)
    | AssociationNotFound(field: string, value: Value)

  /** The pieces of the missing-setter message around its two `%s` conversions. */
  const SETTER_HEAD: string := "The setter " + "method \""
  const SETTER_MIDDLE: string := "\" that should " + "be used for " + "property \""
  const SETTER_TAIL: string := SETTER_TAIL_HEAD + SETTER_TAIL_END
  const SETTER_TAIL_HEAD: string := "\" seems not " + "to exist. " + "Please check " + "your spelling "
  const SETTER_TAIL_END: string := "in the command " + "option or in " + "your " + "implementation " + "class."

  /** The InvalidArgumentException message of a missing setter. */
  function SetterErrorMessage(setter: string, field: string): Option<string> {
    Format(SETTER_HEAD + "%s" + SETTER_MIDDLE + "%s" + SETTER_TAIL, [setter, field])
  }

  /** No part of the missing-setter message holds a conversion. */
  lemma SetterPartsLiteral()
    ensures '%' !in SETTER_HEAD && '%' !in SETTER_MIDDLE && '%' !in SETTER_TAIL
  {
    SetterHeadLiteral();
    SetterTailLiteral();
  }

  lemma SetterHeadLiteral()
    ensures '%' !in SETTER_HEAD && '%' !in SETTER_MIDDLE
  {
    assert '%' !in "The setter " && '%' !in "method \"";
    assert '%' !in "\" that should " && '%' !in "be used for " && '%' !in "property \"";
  }

  lemma SetterTailLiteral()
    ensures '%' !in SETTER_TAIL
  {
    assert '%' !in SETTER_TAIL_HEAD by {
      assert '%' !in "\" seems not " && '%' !in "to exist. " && '%' !in "Please check " && '%' !in "your spelling ";
    }
    assert '%' !in SETTER_TAIL_END by {
      assert '%' !in "in the command " && '%' !in "option or in " && '%' !in "your " && '%' !in "implementation " && '%' !in "class.";
    }
  }

  /** The message names the setter, then the field. */
  lemma SetterErrorText(setter: string, field: string)
    ensures SetterErrorMessage(setter, field) == Some(SETTER_HEAD + setter + SETTER_MIDDLE + field + SETTER_TAIL)
  {
    SetterPartsLiteral();
    FormatTwo(SETTER_HEAD, SETTER_MIDDLE, SETTER_TAIL, setter, field, []);
    assert [setter, field] + [] == [setter, field];
  }

  /** An entity instance: its class, the methods the class declares, and the setter calls it has received. */
  class Entity {
    const className: string
    const methods: set<string>
    var setterCalls: seq<(string, Value)>

    constructor(className: string, methods: set<string>)
      ensures this.className == className && this.methods == methods && setterCalls == []
    {
      this.className := className;
      this.methods := methods;
      setterCalls := [];
    }
  }

  /** setFieldValue: calls the field's setter, or fails naming the setter and the field when the class has none. */
  method SetFieldValue(instance: Entity, fieldName: string, value: Value) returns (error: Option<FieldError>)
    modifies instance`setterCalls
    ensures HasMethod(instance.methods, SetterName(fieldName)) ==>
      instance.setterCalls == old(instance.setterCalls) + [(SetterName(fieldName), value)] && error == None
    ensures !HasMethod(instance.methods, SetterName(fieldName)) ==>
      instance.setterCalls == old(instance.setterCalls) && error == Some(MissingSetter(SetterName(fieldName), fieldName))
  {
    var setter := SetterName(fieldName);
    if !HasMethod(instance.methods, setter) {
      return Some(MissingSetter(setter, fieldName));
    }
    instance.setterCalls := instance.setterCalls + [(setter, value)];
    error := None;
  }
}
