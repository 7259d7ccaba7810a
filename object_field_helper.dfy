/**
 * The helper that reads Doctrine metadata into per-class field and
 * association configs (memoised), adds one console option per entry,
 * injects the console input into an instance and validates the instance.
 */
module ObjectFieldHelper {
  import opened Wrappers
  import opened Strings
  import opened Values
  import opened Console
  import opened PhpArrays
  import opened ObjectFieldUtil

  /**
   * What Doctrine's ClassMetadata answers for one class: its fields, which
   * of them are identifiers and their types; its associations, which are
   * on the inverse side, which are single-valued and their target classes.
   */
  datatype Metadata = Metadata(
    fieldNames: seq<string>,
    identifiers: set<string>,
    typeOfField: string -> string,
    associationNames: seq<string>,
    inverseSide: set<string>,
    singleValued: set<string>,
    targetClassOf: string -> string)

  /** The field configs (field => type) and association configs (association => target class) of a class. */
  datatype Config = Config(fields: Entries, associations: Entries)

  /** The fields that get a config: every field that is not an identifier. */
  function FieldKeep(meta: Metadata): set<string> {
    set f | f in meta.fieldNames && f !in meta.identifiers
  }

  /** The associations that get a config: the owning, single-valued ones. */
  function AssociationKeep(meta: Metadata): set<string> {
    set a | a in meta.associationNames && a !in meta.inverseSide && a in meta.singleValued
  }

  /** Assigns `valueOf(name)` to every kept name, in order, on top of `acc`. */
  function Collect(names: seq<string>, keep: set<string>, valueOf: string -> string, acc: Entries): Entries
    decreases |names|
  {
    if names == [] then acc
    else Collect(names[1..], keep, valueOf, if names[0] in keep then Put(acc, names[0], valueOf(names[0])) else acc)
  }

  /** The config getConfigs stores for a class. */
  function ConfigOf(meta: Metadata): Config {
    Config(
      Collect(meta.fieldNames, FieldKeep(meta), meta.typeOfField, []),
      Collect(meta.associationNames, AssociationKeep(meta), meta.targetClassOf, []))
  }

  lemma {:induction false} CollectKeys(names: seq<string>, keep: set<string>, valueOf: string -> string, acc: Entries, k: string)
    ensures k in Keys(Collect(names, keep, valueOf, acc)) <==> k in Keys(acc) || (k in names && k in keep)
    decreases |names|
  {
    if names != [] {
      var next := if names[0] in keep then Put(acc, names[0], valueOf(names[0])) else acc;
      CollectKeys(names[1..], keep, valueOf, next, k);
      assert k in names <==> k == names[0] || k in names[1..];
    }
  }

  lemma {:induction false} CollectLookup(names: seq<string>, keep: set<string>, valueOf: string -> string, acc: Entries, k: string)
    ensures Lookup(Collect(names, keep, valueOf, acc), k) ==
      if k in names && k in keep then Some(valueOf(k)) else Lookup(acc, k)
    decreases |names|
  {
    if names != [] {
      var next := if names[0] in keep then Put(acc, names[0], valueOf(names[0])) else acc;
      CollectLookup(names[1..], keep, valueOf, next, k);
      assert k in names <==> k == names[0] || k in names[1..];
    }
  }

  lemma {:induction false} CollectUnique(names: seq<string>, keep: set<string>, valueOf: string -> string, acc: Entries)
    requires UniqueKeys(acc)
    ensures UniqueKeys(Collect(names, keep, valueOf, acc))
    decreases |names|
  {
    if names != [] {
      if names[0] in keep {
        PutUnique(acc, names[0], valueOf(names[0]));
      }
      var next := if names[0] in keep then Put(acc, names[0], valueOf(names[0])) else acc;
      CollectUnique(names[1..], keep, valueOf, next);
    }
  }

  /**
   * A name has a field config exactly when it is a non-identifier field,
   * and its value is the field's type; it has an association config exactly
   * when it is an owning single-valued association, and its value is the
   * target class. Neither config holds a key twice.
   */
  lemma ConfigOfContents(meta: Metadata, k: string)
    ensures var c := ConfigOf(meta);
      UniqueKeys(c.fields) && UniqueKeys(c.associations) &&
      (k in Keys(c.fields) <==> k in meta.fieldNames && k !in meta.identifiers) &&
      (k in Keys(c.fields) ==> Lookup(c.fields, k) == Some(meta.typeOfField(k))) &&
      (k in Keys(c.associations) <==> k in meta.associationNames && k !in meta.inverseSide && k in meta.singleValued) &&
      (k in Keys(c.associations) ==> Lookup(c.associations, k) == Some(meta.targetClassOf(k)))
  {
    CollectKeys(meta.fieldNames, FieldKeep(meta), meta.typeOfField, [], k);
    CollectLookup(meta.fieldNames, FieldKeep(meta), meta.typeOfField, [], k);
    CollectUnique(meta.fieldNames, FieldKeep(meta), meta.typeOfField, []);
    CollectKeys(meta.associationNames, AssociationKeep(meta), meta.targetClassOf, [], k);
    CollectLookup(meta.associationNames, AssociationKeep(meta), meta.targetClassOf, [], k);
    CollectUnique(meta.associationNames, AssociationKeep(meta), meta.targetClassOf, []);
  }

  /** The object manager: the metadata of each class, and findBy on each class's repository. */
  class ObjectManager {
    const metadataOf: string -> Metadata
    /** `findBy([id => value])` on the repository of a class: the matching objects. */
    const repository: (string, string, Value) -> seq<Value>
    var metadataReads: seq<string>
    var queries: seq<(string, string, Value)>

    constructor(metadataOf: string -> Metadata, repository: (string, string, Value) -> seq<Value>)
      ensures this.metadataOf == metadataOf && this.repository == repository
      ensures metadataReads == [] && queries == []
    {
      this.metadataOf := metadataOf;
      this.repository := repository;
      metadataReads := [];
      queries := [];
    }

    method GetClassMetadata(className: string) returns (meta: Metadata)
      modifies this`metadataReads
      ensures meta == metadataOf(className)
      ensures metadataReads == old(metadataReads) + [className]
    {
      meta := metadataOf(className);
      metadataReads := metadataReads + [className];
    }

    /** getRepository(target)->findBy([id => value]). */
    method FindBy(target: string, id: string, value: Value) returns (found: seq<Value>)
      modifies this`queries
      ensures found == repository(target, id, value)
      ensures queries == old(queries) + [(target, id, value)]
    {
      found := repository(target, id, value);
      queries := queries + [(target, id, value)];
    }
  }

  /** getConfigs accepts a class name or an instance, whose class it takes. */
  datatype Subject = ClassName(name: string) | Instance(entity: Entity)

  function ClassOf(subject: Subject): string {
    match subject
    case ClassName(name) => name
    case Instance(entity) => entity.className
  }

  /** One constraint violation: the property path and the message. */
  datatype Violation = Violation(propertyPath: string, message: string)

  /** The validator: the violations of an instance, given its class and the values set on it. */
  type Validator = (string, seq<(string, Value)>) -> seq<Violation>

  /** The two option description templates, cut around their `%s` conversions. */
  const FIELD_HEAD: string := "The <comment>\""
  const FIELD_TAIL: string := "\"</comment>" + " field"
  const ASSOCIATION_MIDDLE: string := "\"</comment> " + "association " + "identifier of " + "<comment>\""
  const ASSOCIATION_TAIL: string := "\"</comment>"
  const FIELD_DESCRIPTION: string := FIELD_HEAD + "%s" + FIELD_TAIL
  const ASSOCIATION_DESCRIPTION: string := FIELD_HEAD + "%s" + ASSOCIATION_MIDDLE + "%s" + ASSOCIATION_TAIL

  /** A field's option is described by its name; an association's by its name and target class. */
  lemma DescriptionText(name: string, typeOrTarget: string)
    ensures Format(FIELD_DESCRIPTION, [name, typeOrTarget]) == Some(FIELD_HEAD + name + FIELD_TAIL)
    ensures Format(ASSOCIATION_DESCRIPTION, [name, typeOrTarget]) ==
      Some(FIELD_HEAD + name + ASSOCIATION_MIDDLE + typeOrTarget + ASSOCIATION_TAIL)
  {
    assert '%' !in "\"</comment>" && '%' !in " field";
    FormatOne(FIELD_HEAD, FIELD_TAIL, name, [typeOrTarget]);
    assert [name, typeOrTarget] == [name] + [typeOrTarget];
    assert '%' !in "association " && '%' !in "identifier of " && '%' !in "<comment>\"";
    FormatTwo(FIELD_HEAD, ASSOCIATION_MIDDLE, ASSOCIATION_TAIL, name, typeOrTarget, []);
    assert [name, typeOrTarget] + [] == [name, typeOrTarget];
  }

  lemma DescriptionsFormat(entries: Entries)
    ensures Describes(FIELD_DESCRIPTION, entries) && Describes(ASSOCIATION_DESCRIPTION, entries)
  {
    forall i | 0 <= i < |entries|
      ensures Format(FIELD_DESCRIPTION, [entries[i].0, entries[i].1]).Some?
      ensures Format(ASSOCIATION_DESCRIPTION, [entries[i].0, entries[i].1]).Some?
    {
      DescriptionText(entries[i].0, entries[i].1);
    }
  }

  /** The header of the validation error, cut around its `%s`. */
  const VALIDATION_HEAD: string := "Field validation" + " errors for \""
  const VALIDATION_TAIL: string := "\":"
  /** PHP_EOL on the platforms the bundle targets. */
  const EOL: string := "\n"
  const ITEM_HEAD: string := "  - "
  const ITEM_MIDDLE: string := ": "

  /** The line printed for one violation, without its leading end of line. */
  function ViolationText(v: Violation): string {
    ITEM_HEAD + v.propertyPath + ITEM_MIDDLE + v.message
  }

  /** The lines of all violations, each preceded by an end of line. */
  function ViolationLines(vs: seq<Violation>): string
    decreases |vs|
  {
    if vs == [] then [] else EOL + ViolationText(vs[0]) + ViolationLines(vs[1..])
  }

  /** The ValidatorException message for the violations of an instance of a class. */
  function ValidationMessage(className: string, vs: seq<Violation>): string {
    VALIDATION_HEAD + className + VALIDATION_TAIL + ViolationLines(vs)
  }

  /** sprintf('%s  - %s: %s', PHP_EOL, path, message). */
  lemma ViolationFormat(v: Violation)
    ensures Format("%s" + ITEM_HEAD + "%s" + ITEM_MIDDLE + "%s", [EOL, v.propertyPath, v.message]) ==
      Some(EOL + ViolationText(v))
  {
    var rest := ITEM_HEAD + "%s" + ITEM_MIDDLE + "%s" + "";
    assert "%s" + ITEM_HEAD + "%s" + ITEM_MIDDLE + "%s" == "%s" + rest;
    FormatConversionHead(rest, EOL, [v.propertyPath, v.message]);
    FormatTwo(ITEM_HEAD, ITEM_MIDDLE, "", v.propertyPath, v.message, []);
    assert [v.propertyPath, v.message] + [] == [v.propertyPath, v.message];
    assert [EOL, v.propertyPath, v.message] == [EOL] + [v.propertyPath, v.message];
    assert Format(rest, [v.propertyPath, v.message]) == Some(ITEM_HEAD + v.propertyPath + ITEM_MIDDLE + v.message + "");
    assert ITEM_HEAD + v.propertyPath + ITEM_MIDDLE + v.message + "" == ViolationText(v);
  }

  function ViolationTexts(vs: seq<Violation>): seq<string> {
    seq(|vs|, k requires 0 <= k < |vs| => ViolationText(vs[k]))
  }

  lemma {:induction false} LinesAreJoined(head: string, vs: seq<Violation>)
    ensures head + ViolationLines(vs) == Join([head] + ViolationTexts(vs), EOL)
    decreases |vs|
  {
    if vs == [] {
      assert [head] + ViolationTexts(vs) == [head];
    } else {
      var t := ViolationText(vs[0]);
      var tail := [t] + ViolationTexts(vs[1..]);
      LinesAreJoined(t, vs[1..]);
      assert ViolationTexts(vs) == tail;
      var ws := [head] + tail;
      assert ws[0] == head && ws[1..] == tail && |ws| >= 2;
      calc {
        Join(ws, EOL);
        head + EOL + Join(tail, EOL);
        head + EOL + (t + ViolationLines(vs[1..]));
        head + (EOL + t + ViolationLines(vs[1..]));
        head + ViolationLines(vs);
      }
    }
  }

  /**
   * Read line by line, the message is the header naming the class, then
   * one line per violation with its path and message, in order.
   */
  lemma ValidationMessageLines(className: string, vs: seq<Violation>)
    requires '\n' !in className
    requires forall k | 0 <= k < |vs| :: '\n' !in vs[k].propertyPath && '\n' !in vs[k].message
    ensures SplitOn(ValidationMessage(className, vs), EOL) ==
      [VALIDATION_HEAD + className + VALIDATION_TAIL] + ViolationTexts(vs)
  {
    var head := VALIDATION_HEAD + className + VALIDATION_TAIL;
    assert '\n' !in "Field validation" && '\n' !in " errors for \"" && '\n' !in VALIDATION_TAIL;
    assert '\n' !in head;
    var ws := [head] + ViolationTexts(vs);
    forall k | 0 <= k < |ws| ensures EOL[0] !in ws[k] {
      if k > 0 {
        assert ws[k] == ViolationText(vs[k - 1]);
      }
    }
    LinesAreJoined(head, vs);
    SplitJoin(ws, EOL);
  }

  /**
   * The association target found by setAssociationValue as written: the
   * null check is made on the array findBy returns, so it never fires, and
   * `$target[0]` of an empty result reads as null.
   */
  function AssociationTargetAsWritten(found: seq<Value>): Option<Value> {
    if Arr(found) == Null then None
    else if found == [] then Some(Null)
    else Some(found[0])
  }

  /** The association target as intended: the first object found, or an error when nothing matched. */
  function AssociationTarget(found: seq<Value>): (r: Option<Value>)
    ensures r.None? <==> found == []
    ensures r.Some? ==> r.value in found
  {
    if found == [] then None else Some(found[0])
  }

  /** As written, a missing target is never reported, and the association is set to null instead. */
  lemma MissingTargetNotReported(found: seq<Value>)
    ensures AssociationTargetAsWritten(found).Some?
    ensures found == [] ==> AssociationTargetAsWritten(found) == Some(Null) && AssociationTarget(found) == None
    ensures found != [] ==> AssociationTargetAsWritten(found) == AssociationTarget(found)
  {
  }

  /** What injectNewValues reads: the input, the instance's methods, the class config, the repositories, the identifier name. */
  datatype InjectContext = InjectContext(
    input: Input,
    methods: set<string>,
    config: Config,
    repository: (string, string, Value) -> seq<Value>,
    targetId: string)

  /** The setter calls made, the repository queries made, and the error that stopped the injection, if any. */
  datatype Injection = Injection(setterCalls: seq<(string, Value)>, queries: seq<(string, string, Value)>, error: Option<FieldError>)

  /** The effect of one name of injectNewValues: the calls and queries after it, and the error that stops the walk, if any. */
  function Step(ctx: InjectContext, setterCalls: seq<(string, Value)>, queries: seq<(string, string, Value)>, name: string): Injection {
    var raw := GetFieldValue(ctx.input, name);
    if IsEmpty(raw) then Injection(setterCalls, queries, None)
    else
      var value := ConvertEmptyValue(raw);
      var setter := SetterName(name);
      if name in Keys(ctx.config.fields) then
        if HasMethod(ctx.methods, setter) then Injection(setterCalls + [(setter, value)], queries, None)
        else Injection(setterCalls, queries, Some(MissingSetter(setter, name)))
      else if name in Keys(ctx.config.associations) then
        var target := Lookup(ctx.config.associations, name).GetOr("");
        var query := (target, ctx.targetId, value);
        var found := AssociationTarget(ctx.repository(target, ctx.targetId, value));
        if found.None? then Injection(setterCalls, queries + [query], Some(AssociationNotFound(name, value)))
        else if HasMethod(ctx.methods, setter) then Injection(setterCalls + [(setter, found.value)], queries + [query], None)
        else Injection(setterCalls, queries + [query], Some(MissingSetter(setter, name)))
      else Injection(setterCalls, queries, None)
  }

  /** The effect of injectNewValues over the remaining names, from the given calls and queries. */
  function Inject(ctx: InjectContext, setterCalls: seq<(string, Value)>, queries: seq<(string, string, Value)>, names: seq<string>): Injection
    decreases |names|
  {
    if names == [] then Injection(setterCalls, queries, None)
    else
      var s := Step(ctx, setterCalls, queries, names[0]);
      if s.error.Some? then s else Inject(ctx, s.setterCalls, s.queries, names[1..])
  }

  /** The names injectNewValues walks: the keys of array_merge(fields, associations). */
  function InjectedNames(config: Config): seq<string> {
    Keys(Merge(config.fields, config.associations))
  }

  /**
   * Every name is visited once: the merged names are the fields and the
   * associations, without repetition, the fields first.
   */
  lemma InjectedNamesOnce(meta: Metadata)
    ensures var c := ConfigOf(meta); var names := InjectedNames(c);
      UniqueKeys(Merge(c.fields, c.associations)) &&
      |Keys(c.fields)| <= |names| && names[..|Keys(c.fields)|] == Keys(c.fields) &&
      forall k :: k in names <==> k in Keys(c.fields) || k in Keys(c.associations)
  {
    var c := ConfigOf(meta);
    ConfigOfContents(meta, "");
    MergeKeys(c.fields, c.associations);
  }

  /** One name adds at most one setter call, for that name's setter when its input is not empty, and at most one query. */
  lemma StepAppends(ctx: InjectContext, setterCalls: seq<(string, Value)>, queries: seq<(string, string, Value)>, name: string)
    ensures var s := Step(ctx, setterCalls, queries, name);
      (s.setterCalls == setterCalls ||
        (|s.setterCalls| == |setterCalls| + 1 && s.setterCalls == setterCalls + [s.setterCalls[|setterCalls|]] &&
         s.setterCalls[|setterCalls|].0 == SetterName(name) && !IsEmpty(GetFieldValue(ctx.input, name)) &&
         (name in Keys(ctx.config.fields) || name in Keys(ctx.config.associations)))) &&
      (s.queries == queries || (|s.queries| == |queries| + 1 && s.queries == queries + [s.queries[|queries|]]))
  { }

  /** Injection only appends calls and queries. */
  lemma {:induction false} InjectExtends(ctx: InjectContext, setterCalls: seq<(string, Value)>, queries: seq<(string, string, Value)>, names: seq<string>)
    ensures var r := Inject(ctx, setterCalls, queries, names);
      |setterCalls| <= |r.setterCalls| && r.setterCalls[..|setterCalls|] == setterCalls &&
      |queries| <= |r.queries| && r.queries[..|queries|] == queries
    decreases |names|
  {
    if names != [] {
      var s := Step(ctx, setterCalls, queries, names[0]);
      StepAppends(ctx, setterCalls, queries, names[0]);
      assert |setterCalls| <= |s.setterCalls| && s.setterCalls[..|setterCalls|] == setterCalls;
      assert |queries| <= |s.queries| && s.queries[..|queries|] == queries;
      if s.error.None? {
        var r := Inject(ctx, s.setterCalls, s.queries, names[1..]);
        InjectExtends(ctx, s.setterCalls, s.queries, names[1..]);
        assert r.setterCalls[..|setterCalls|] == r.setterCalls[..|s.setterCalls|][..|setterCalls|];
        assert r.queries[..|queries|] == r.queries[..|s.queries|][..|queries|];
      }
    }
  }

  /** When the input leaves every name empty, nothing is set, nothing is queried and nothing fails. */
  lemma {:induction false} InjectSkipsEmpty(ctx: InjectContext, setterCalls: seq<(string, Value)>, queries: seq<(string, string, Value)>, names: seq<string>)
    requires forall k | 0 <= k < |names| :: IsEmpty(GetFieldValue(ctx.input, names[k]))
    ensures Inject(ctx, setterCalls, queries, names) == Injection(setterCalls, queries, None)
    decreases |names|
  {
    if names != [] {
      assert IsEmpty(GetFieldValue(ctx.input, names[0]));
      InjectSkipsEmpty(ctx, setterCalls, queries, names[1..]);
    }
  }

  /** Every name the input gives a value to has a setter, and every association value finds its target. */
  predicate Injectable(ctx: InjectContext, names: seq<string>) {
    forall k | 0 <= k < |names| && !IsEmpty(GetFieldValue(ctx.input, names[k])) ::
      (names[k] in Keys(ctx.config.fields) || names[k] in Keys(ctx.config.associations) ==>
        HasMethod(ctx.methods, SetterName(names[k]))) &&
      (names[k] !in Keys(ctx.config.fields) && names[k] in Keys(ctx.config.associations) ==>
        var value := ConvertEmptyValue(GetFieldValue(ctx.input, names[k]));
        ctx.repository(Lookup(ctx.config.associations, names[k]).GetOr(""), ctx.targetId, value) != [])
  }

  /** Injection fails only on a missing setter or a missing association target. */
  lemma {:induction false} InjectSucceeds(ctx: InjectContext, setterCalls: seq<(string, Value)>, queries: seq<(string, string, Value)>, names: seq<string>)
    requires Injectable(ctx, names)
    ensures Inject(ctx, setterCalls, queries, names).error == None
    decreases |names|
  {
    if names != [] {
      assert Injectable(ctx, names[1..]) by {
        forall k | 0 <= k < |names[1..]| ensures names[1..][k] == names[k + 1] { }
      }
      var name := names[0];
      var value := ConvertEmptyValue(GetFieldValue(ctx.input, name));
      var setter := SetterName(name);
      var target := Lookup(ctx.config.associations, name).GetOr("");
      var query := (target, ctx.targetId, value);
      var found := AssociationTarget(ctx.repository(target, ctx.targetId, value));
      InjectSucceeds(ctx, setterCalls, queries, names[1..]);
      InjectSucceeds(ctx, setterCalls + [(setter, value)], queries, names[1..]);
      if found.Some? {
        InjectSucceeds(ctx, setterCalls + [(setter, found.value)], queries + [query], names[1..]);
      }
    }
  }

  /** Each setter call is made for a field or association the input gives a value to. */
  lemma {:induction false} InjectCallsFromInput(ctx: InjectContext, setterCalls: seq<(string, Value)>, queries: seq<(string, string, Value)>, names: seq<string>)
    ensures var r := Inject(ctx, setterCalls, queries, names);
      forall c | c in r.setterCalls && c !in setterCalls ::
        exists k | 0 <= k < |names| ::
          c.0 == SetterName(names[k]) && !IsEmpty(GetFieldValue(ctx.input, names[k])) &&
          (names[k] in Keys(ctx.config.fields) || names[k] in Keys(ctx.config.associations))
    decreases |names|
  {
    if names != [] {
      var name := names[0];
      var s := Step(ctx, setterCalls, queries, name);
      var r := Inject(ctx, setterCalls, queries, names);
      StepAppends(ctx, setterCalls, queries, name);
      if s.error.None? {
        InjectCallsFromInput(ctx, s.setterCalls, s.queries, names[1..]);
      }
      forall c | c in r.setterCalls && c !in setterCalls
        ensures exists k | 0 <= k < |names| ::
          c.0 == SetterName(names[k]) && !IsEmpty(GetFieldValue(ctx.input, names[k])) &&
          (names[k] in Keys(ctx.config.fields) || names[k] in Keys(ctx.config.associations))
      {
        if c in s.setterCalls {
          assert c == s.setterCalls[|setterCalls|];
          assert names[0] == name;
        } else {
          var k :| 0 <= k < |names[1..]| &&
            c.0 == SetterName(names[1..][k]) && !IsEmpty(GetFieldValue(ctx.input, names[1..][k])) &&
            (names[1..][k] in Keys(ctx.config.fields) || names[1..][k] in Keys(ctx.config.associations));
          assert names[1..][k] == names[k + 1];
        }
      }
    }
  }

  class ObjectFieldHelper {
    const om: ObjectManager
    const validator: Option<Validator>
    /** Class name => its config, filled on first use. */
    var configs: map<string, Config>

    /** Every memoised config is the one the class's metadata gives. */
    ghost predicate Valid()
      reads this
    {
      forall c | c in configs :: configs[c] == ConfigOf(om.metadataOf(c))
    }

    constructor(om: ObjectManager, validator: Option<Validator>)
      ensures this.om == om && this.validator == validator && configs == map[]
      ensures Valid()
    {
      this.om := om;
      this.validator := validator;
      configs := map[];
    }

    /** getConfigs: the metadata is read on the first request for a class only. */
    method GetConfigs(subject: Subject) returns (config: Config)
      requires Valid()
      modifies this`configs, om`metadataReads
      ensures Valid()
      ensures config == ConfigOf(om.metadataOf(ClassOf(subject)))
      ensures configs == old(configs)[ClassOf(subject) := config]
      ensures ClassOf(subject) in old(configs) ==> om.metadataReads == old(om.metadataReads)
      ensures ClassOf(subject) !in old(configs) ==> om.metadataReads == old(om.metadataReads) + [ClassOf(subject)]
    {
      var className := ClassOf(subject);
      if className !in configs {
        LoadConfig(className);
        forall c | c in configs ensures configs[c] == ConfigOf(om.metadataOf(c)) {
          if c != className {
            assert configs[c] == old(configs)[c];
          }
        }
      }
      config := configs[className];
    }

    /** The first request for a class: an empty config, then the metadata's fields and associations. */
    method LoadConfig(className: string)
      modifies this`configs, om`metadataReads
      ensures configs == old(configs)[className := ConfigOf(om.metadataOf(className))]
      ensures om.metadataReads == old(om.metadataReads) + [className]
    {
      configs := configs[className := Config([], [])];
      var meta := om.GetClassMetadata(className);
      AddConfigFields(meta, className);
      AddConfigAssociations(meta, className);
    }

    /** addConfigFields: every non-identifier field, with its type. */
    method AddConfigFields(meta: Metadata, className: string)
      requires className in configs
      modifies this`configs
      ensures configs == old(configs)[className := old(configs)[className].(
        fields := Collect(meta.fieldNames, FieldKeep(meta), meta.typeOfField, old(configs)[className].fields))]
    {
      var names := meta.fieldNames;
      var fields := configs[className].fields;
      for i := 0 to |names|
        invariant Collect(names[i..], FieldKeep(meta), meta.typeOfField, fields)
               == Collect(names, FieldKeep(meta), meta.typeOfField, old(configs)[className].fields)
      {
        var field := names[i];
        assert names[i..][0] == field && names[i..][1..] == names[i + 1..];
        assert field in FieldKeep(meta) <==> field !in meta.identifiers;
        if field !in meta.identifiers {
          fields := Put(fields, field, meta.typeOfField(field));
        }
      }
      assert names[|names|..] == [];
      configs := configs[className := configs[className].(fields := fields)];
    }

    /** addConfigAssociations: every owning, single-valued association, with its target class. */
    method AddConfigAssociations(meta: Metadata, className: string)
      requires className in configs
      modifies this`configs
      ensures configs == old(configs)[className := old(configs)[className].(
        associations := Collect(meta.associationNames, AssociationKeep(meta), meta.targetClassOf, old(configs)[className].associations))]
    {
      var names := meta.associationNames;
      var associations := configs[className].associations;
      for i := 0 to |names|
        invariant Collect(names[i..], AssociationKeep(meta), meta.targetClassOf, associations)
               == Collect(names, AssociationKeep(meta), meta.targetClassOf, old(configs)[className].associations)
      {
        var association := names[i];
        assert names[i..][0] == association && names[i..][1..] == names[i + 1..];
        assert association in AssociationKeep(meta) <==>
          association !in meta.inverseSide && association in meta.singleValued;
        if association !in meta.inverseSide && association in meta.singleValued {
          associations := Put(associations, association, meta.targetClassOf(association));
        }
      }
      assert names[|names|..] == [];
      configs := configs[className := configs[className].(associations := associations)];
    }

    /** injectFieldOptions: the field options, then the association options. */
    method InjectFieldOptions(definition: InputDefinition, subject: Subject)
      requires Valid()
      modifies this`configs, om`metadataReads, definition`options
      ensures Valid()
      ensures configs == old(configs)[ClassOf(subject) := ConfigOf(om.metadataOf(ClassOf(subject)))]
      ensures ClassOf(subject) in old(configs) ==> om.metadataReads == old(om.metadataReads)
      ensures ClassOf(subject) !in old(configs) ==> om.metadataReads == old(om.metadataReads) + [ClassOf(subject)]
      ensures DescribesConfig(ConfigOf(om.metadataOf(ClassOf(subject))))
      ensures definition.options == InjectedOptions(definition.arguments, old(definition.options), ConfigOf(om.metadataOf(ClassOf(subject))))
    {
      var config := GetConfigs(subject);
      DescriptionsFormat(config.fields);
      DescriptionsFormat(config.associations);
      AddOptions(definition, config.fields, FIELD_DESCRIPTION);
      AddOptions(definition, config.associations, ASSOCIATION_DESCRIPTION);
    }

    /** injectNewValues: stops at the first missing setter or missing association target. */
    method InjectNewValues(input: Input, instance: Entity, targetId: string) returns (error: Option<FieldError>)
      requires Valid()
      modifies this`configs, om`metadataReads, om`queries, instance`setterCalls
      ensures Valid()
      ensures configs == old(configs)[instance.className := ConfigOf(om.metadataOf(instance.className))]
      ensures var config := ConfigOf(om.metadataOf(instance.className));
        var r := Inject(InjectContext(input, instance.methods, config, om.repository, targetId),
                        old(instance.setterCalls), old(om.queries), InjectedNames(config));
        instance.setterCalls == r.setterCalls && om.queries == r.queries && error == r.error
    {
      var config := GetConfigs(Instance(instance));
      var names := Keys(Merge(config.fields, config.associations));
      ghost var ctx := InjectContext(input, instance.methods, config, om.repository, targetId);
      var i := 0;
      while i < |names|
        invariant 0 <= i <= |names|
        invariant Valid() && configs == old(configs)[instance.className := config]
        invariant Inject(ctx, instance.setterCalls, om.queries, names[i..])
               == Inject(ctx, old(instance.setterCalls), old(om.queries), names)
      {
        assert names[i..][0] == names[i] && names[i..][1..] == names[i + 1..];
        error := InjectName(input, instance, config, targetId, names[i]);
        if error.Some? {
          return;
        }
        i := i + 1;
      }
      error := None;
    }

    /** One pass of the injectNewValues loop: the value of one name, converted and set through its setter or its association. */
    method InjectName(input: Input, instance: Entity, config: Config, targetId: string, name: string) returns (error: Option<FieldError>)
      modifies om`queries, instance`setterCalls
      ensures var s := Step(InjectContext(input, instance.methods, config, om.repository, targetId),
                            old(instance.setterCalls), old(om.queries), name);
        instance.setterCalls == s.setterCalls && om.queries == s.queries && error == s.error
    {
      error := None;
      var raw := GetFieldValue(input, name);
      if !IsEmpty(raw) {
        var value := ConvertEmptyValue(raw);
        if name in Keys(config.fields) {
          error := SetFieldValue(instance, name, value);
        } else if name in Keys(config.associations) {
          error := SetAssociationValue(instance, name, value, Lookup(config.associations, name).GetOr(""), targetId);
        }
      }
    }

    /** setAssociationValue, with the missing target reported. */
    method SetAssociationValue(instance: Entity, fieldName: string, value: Value, target: string, id: string) returns (error: Option<FieldError>)
      modifies om`queries, instance`setterCalls
      ensures om.queries == old(om.queries) + [(target, id, value)]
      ensures var found := AssociationTarget(om.repository(target, id, value));
        if found.None? then
          instance.setterCalls == old(instance.setterCalls) && error == Some(AssociationNotFound(fieldName, value))
        else if HasMethod(instance.methods, SetterName(fieldName)) then
          instance.setterCalls == old(instance.setterCalls) + [(SetterName(fieldName), found.value)] && error == None
        else
          instance.setterCalls == old(instance.setterCalls) && error == Some(MissingSetter(SetterName(fieldName), fieldName))
    {
      var found := om.FindBy(target, id, value);
      var targetObject := AssociationTarget(found);
      if targetObject.None? {
        return Some(AssociationNotFound(fieldName, value));
      }
      error := SetFieldValue(instance, fieldName, targetObject.value);
    }

    /** validateObject: the message of the ValidatorException, or None when there is no validator or no violation. */
    method ValidateObject(instance: Entity) returns (error: Option<string>)
      ensures validator.None? ==> error == None
      ensures validator.Some? ==>
        var vs := validator.value(instance.className, instance.setterCalls);
        (error == None <==> vs == []) &&
        (vs != [] ==> error == Some(ValidationMessage(instance.className, vs)))
    {
      if validator.None? {
        return None;
      }
      var vs := validator.value(instance.className, instance.setterCalls);
      if |vs| == 0 {
        return None;
      }
      assert '%' !in "Field validation" && '%' !in " errors for \"" && '%' !in VALIDATION_TAIL;
      FormatOne(VALIDATION_HEAD, VALIDATION_TAIL, instance.className, []);
      assert [instance.className] + [] == [instance.className];
      var msg := Format(VALIDATION_HEAD + "%s" + VALIDATION_TAIL, [instance.className]).value;
      var i := 0;
      while i < |vs|
        invariant 0 <= i <= |vs|
        invariant msg + ViolationLines(vs[i..]) == ValidationMessage(instance.className, vs)
      {
        ViolationFormat(vs[i]);
        assert vs[i..][0] == vs[i] && vs[i..][1..] == vs[i + 1..];
        msg := msg + Format("%s" + ITEM_HEAD + "%s" + ITEM_MIDDLE + "%s", [EOL, vs[i].propertyPath, vs[i].message]).value;
        i := i + 1;
      }
      assert vs[i..] == [];
      assert msg + ViolationLines([]) == msg;
      error := Some(msg);
    }
  }

  predicate DescribesConfig(config: Config) {
    Describes(FIELD_DESCRIPTION, config.fields) && Describes(ASSOCIATION_DESCRIPTION, config.associations)
  }

  /** The options after injectFieldOptions. */
  function InjectedOptions(arguments: seq<InputArgument>, options: seq<InputOption>, config: Config): seq<InputOption>
    requires DescribesConfig(config)
  {
    OptionsAfter(arguments, OptionsAfter(arguments, options, config.fields, FIELD_DESCRIPTION), config.associations, ASSOCIATION_DESCRIPTION)
  }

  /**
   * After injectFieldOptions a name is an option exactly when it was one
   * before, or it is a non-identifier field or an owning single-valued
   * association that is not an argument; no option is defined twice.
   */
  lemma InjectedOptionNames(arguments: seq<InputArgument>, options: seq<InputOption>, meta: Metadata, name: string)
    requires Distinct(OptionNames(options))
    ensures var c := ConfigOf(meta);
      DescribesConfig(c) &&
      Distinct(OptionNames(InjectedOptions(arguments, options, c))) &&
      (name in OptionNames(InjectedOptions(arguments, options, c)) <==>
        name in OptionNames(options) ||
        (name !in ArgumentNames(arguments) &&
          ((name in meta.fieldNames && name !in meta.identifiers) ||
           (name in meta.associationNames && name !in meta.inverseSide && name in meta.singleValued))))
  {
    var c := ConfigOf(meta);
    DescriptionsFormat(c.fields);
    DescriptionsFormat(c.associations);
    var middle := OptionsAfter(arguments, options, c.fields, FIELD_DESCRIPTION);
    OptionsAfterNames(arguments, options, c.fields, FIELD_DESCRIPTION, name);
    OptionsAfterNames(arguments, middle, c.associations, ASSOCIATION_DESCRIPTION, name);
    OptionsAfterDistinct(arguments, options, c.fields, FIELD_DESCRIPTION);
    OptionsAfterDistinct(arguments, middle, c.associations, ASSOCIATION_DESCRIPTION);
    ConfigOfContents(meta, name);
    KeysAreFieldNames(c.fields, name);
    KeysAreFieldNames(c.associations, name);
  }

  lemma {:induction false} KeysAreFieldNames(e: Entries, name: string)
    ensures name in Keys(e) <==> name in FieldNames(e)
    decreases |e|
  {
    KeysLength(e);
    assert Keys(e) == FieldNames(e);
  }
}
