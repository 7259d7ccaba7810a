/**
 * The command adapter for a service manager: it remembers which class it
 * serves, how the commands present it and which manager methods create,
 * find, update, delete and undelete instances, and it forwards each action
 * to the manager after checking that the configured method exists.
 */
module Adapter {
  import opened Wrappers
  import opened Strings
  import opened Values
  import opened Placeholders

  /** What the adapter passes to a manager method. */
  datatype CallArg =
    | NoArgument
    | Criteria(field: Option<string>, identifier: string)
    | Instance(instance: Value)
    | Identifier(identifier: string)

  datatype ManagerCall = ManagerCall(methodName: string, arg: CallArg)

  /**
   * The service manager the adapter wraps: the methods its class declares,
   * the value each call returns (its own behaviour, which is not part of
   * this model) and the calls it has received.
   */
  class Manager {
    const className: string
    const methods: set<string>
    const respond: ManagerCall -> Value
    var calls: seq<ManagerCall>

    constructor(className: string, methods: set<string>, respond: ManagerCall -> Value)
      ensures this.className == className && this.methods == methods && this.respond == respond
      ensures calls == []
    {
      this.className := className;
      this.methods := methods;
      this.respond := respond;
      calls := [];
    }

    /** `$manager->{$method}($arg)`, for a method the class declares. */
    method Invoke(call: ManagerCall) returns (v: Value)
      requires HasMethod(methods, call.methodName)
      modifies this`calls
      ensures calls == old(calls) + [call]
      ensures v == respond(call)
    {
      calls := calls + [call];
      v := respond(call);
    }
  }

  datatype AdapterError =
    | UnsupportedMethod(action: string, classname: Option<string>)
    | NotFound(shortName: Option<string>, identifier: string)

  /** The pieces of the two exception templates around their `%s` conversions. */
  const UNSUPPORTED_HEAD: string := "The \""
  const UNSUPPORTED_MIDDLE: string := "\" method for \""
  const UNSUPPORTED_TAIL: string := "\" adapter is " + "does not supported"
  const NOT_FOUND_HEAD: string := "The "
  const NOT_FOUND_MIDDLE: string := " with the " + "identifier \""
  const NOT_FOUND_TAIL: string := "\" does not exist"

  /** The exception message; sprintf prints a null argument as the empty string. */
  function ErrorMessage(e: AdapterError): Option<string> {
    match e
    case UnsupportedMethod(action, classname) =>
      Format(UNSUPPORTED_HEAD + "%s" + UNSUPPORTED_MIDDLE + "%s" + UNSUPPORTED_TAIL, [action, classname.GetOr("")])
    case NotFound(shortName, identifier) =>
      Format(NOT_FOUND_HEAD + "%s" + NOT_FOUND_MIDDLE + "%s" + NOT_FOUND_TAIL, [shortName.GetOr(""), identifier])
  }

  /** Both messages always format, naming the action and class, or the short name and identifier. */
  lemma ErrorMessageText(e: AdapterError)
    ensures e.UnsupportedMethod? ==>
      ErrorMessage(e) == Some(UNSUPPORTED_HEAD + e.action + UNSUPPORTED_MIDDLE + e.classname.GetOr("") + UNSUPPORTED_TAIL)
    ensures e.NotFound? ==>
      ErrorMessage(e) == Some(NOT_FOUND_HEAD + e.shortName.GetOr("") + NOT_FOUND_MIDDLE + e.identifier + NOT_FOUND_TAIL)
  {
    match e
    case UnsupportedMethod(action, classname) =>
      assert '%' !in "\" adapter is " && '%' !in "does not supported";
      FormatTwo(UNSUPPORTED_HEAD, UNSUPPORTED_MIDDLE, UNSUPPORTED_TAIL, action, classname.GetOr(""), []);
      assert [action, classname.GetOr("")] + [] == [action, classname.GetOr("")];
    case NotFound(shortName, identifier) =>
      assert '%' !in " with the " && '%' !in "identifier \"";
      FormatTwo(NOT_FOUND_HEAD, NOT_FOUND_MIDDLE, NOT_FOUND_TAIL, shortName.GetOr(""), identifier, []);
      assert [shortName.GetOr(""), identifier] + [] == [shortName.GetOr(""), identifier];
  }

  class ServiceManagerAdapter {
    const manager: Manager
    var classname: Option<string>
    var shortName: Option<string>
    var commandPrefix: Option<string>
    var commandDescription: Option<string>
    var identifierField: Option<string>
    var identifierArgument: Option<string>
    var identifierArgumentDescription: Option<string>
    var displayNameMethod: Option<string>
    var createMethod: Option<string>
    var getMethod: Option<string>
    var updateMethod: Option<string>
    var deleteMethod: Option<string>
    var undeleteMethod: Option<string>

    /** Only the manager is set; every other property starts out null. */
    constructor(manager: Manager)
      ensures this.manager == manager
      ensures classname == None && shortName == None && commandPrefix == None && commandDescription == None
      ensures identifierField == None && identifierArgument == None && identifierArgumentDescription == None
      ensures displayNameMethod == None && createMethod == None && getMethod == None
      ensures updateMethod == None && deleteMethod == None && undeleteMethod == None
    {
      this.manager := manager;
      classname := None;
      shortName := None;
      commandPrefix := None;
      commandDescription := None;
      identifierField := None;
      identifierArgument := None;
      identifierArgumentDescription := None;
      displayNameMethod := None;
      createMethod := None;
      getMethod := None;
      updateMethod := None;
      deleteMethod := None;
      undeleteMethod := None;
    }

    method SetClass(value: string)
      modifies this`classname
      ensures classname == Some(value)
    {
      classname := Some(value);
    }

    method SetShortName(value: Option<string>)
      modifies this`shortName
      ensures shortName == value
    {
      shortName := value;
    }

    method SetCommandPrefix(value: string)
      modifies this`commandPrefix
      ensures commandPrefix == Some(value)
    {
      commandPrefix := Some(value);
    }

    /** Turns the escaped placeholder `{s}` back into `%s`. */
    method SetCommandDescription(value: string)
      modifies this`commandDescription
      ensures commandDescription == Some(Unescape(value))
    {
      commandDescription := Some(Unescape(value));
    }

    method SetIdentifierField(value: string)
      modifies this`identifierField
      ensures identifierField == Some(value)
    {
      identifierField := Some(value);
    }

    method SetIdentifierArgument(value: string)
      modifies this`identifierArgument
      ensures identifierArgument == Some(value)
    {
      identifierArgument := Some(value);
    }

    /** Turns the escaped placeholder `{s}` back into `%s`. */
    method SetIdentifierArgumentDescription(value: string)
      modifies this`identifierArgumentDescription
      ensures identifierArgumentDescription == Some(Unescape(value))
    {
      identifierArgumentDescription := Some(Unescape(value));
    }

    method SetDisplayNameMethod(value: Option<string>)
      modifies this`displayNameMethod
      ensures displayNameMethod == value
    {
      displayNameMethod := value;
    }

    method SetCreateMethod(value: Option<string>)
      modifies this`createMethod
      ensures createMethod == value
    {
      createMethod := value;
    }

    method SetGetMethod(value: Option<string>)
      modifies this`getMethod
      ensures getMethod == value
    {
      getMethod := value;
    }

    method SetUpdateMethod(value: Option<string>)
      modifies this`updateMethod
      ensures updateMethod == value
    {
      updateMethod := value;
    }

    method SetDeleteMethod(value: Option<string>)
      modifies this`deleteMethod
      ensures deleteMethod == value
    {
      deleteMethod := value;
    }

    method SetUndeleteMethod(value: Option<string>)
      modifies this`undeleteMethod
      ensures undeleteMethod == value
    {
      undeleteMethod := value;
    }

    /** A configured method name that the manager's class declares, compared case-insensitively. */
    predicate Supports(methodName: Option<string>) {
      methodName.Some? && HasMethod(manager.methods, methodName.value)
    }

    /** validate: the method name to call, or the error naming the action and the class. */
    method Validate(action: string, methodName: Option<string>) returns (r: Result<string, AdapterError>)
      ensures r.Ok? <==> Supports(methodName)
      ensures r.Ok? ==> r.value == methodName.value && HasMethod(manager.methods, r.value)
      ensures r.Err? ==> r.error == UnsupportedMethod(action, classname)
    {
      if methodName.None? || !HasMethod(manager.methods, methodName.value) {
        r := Err(UnsupportedMethod(action, classname));
      } else {
        r := Ok(methodName.value);
      }
    }

    /** create: the manager's new instance; the manager is not called when the method is unsupported. */
    method Create() returns (r: Result<Value, AdapterError>)
      modifies manager`calls
      ensures Supports(createMethod) ==>
        var call := ManagerCall(createMethod.value, NoArgument);
        manager.calls == old(manager.calls) + [call] && r == Ok(manager.respond(call))
      ensures !Supports(createMethod) ==>
        manager.calls == old(manager.calls) && r == Err(UnsupportedMethod("create", classname))
    {
      var m := Validate("create", createMethod);
      if m.Err? {
        return Err(m.error);
      }
      var v := manager.Invoke(ManagerCall(m.value, NoArgument));
      r := Ok(v);
    }

    /** get: finds by `[identifierField => identifier]`; a null result is reported as not found. */
    method Get(identifier: string) returns (r: Result<Value, AdapterError>)
      modifies manager`calls
      ensures Supports(getMethod) ==>
        var call := ManagerCall(getMethod.value, Criteria(identifierField, identifier));
        manager.calls == old(manager.calls) + [call] &&
        r == if manager.respond(call) == Null then Err(NotFound(shortName, identifier)) else Ok(manager.respond(call))
      ensures !Supports(getMethod) ==>
        manager.calls == old(manager.calls) && r == Err(UnsupportedMethod("get", classname))
    {
      var m := Validate("get", getMethod);
      if m.Err? {
        return Err(m.error);
      }
      var instance := manager.Invoke(ManagerCall(m.value, Criteria(identifierField, identifier)));
      if instance == Null {
        r := Err(NotFound(shortName, identifier));
      } else {
        r := Ok(instance);
      }
    }

    /** update: hands the instance to the manager. */
    method Update(instance: Value) returns (error: Option<AdapterError>)
      modifies manager`calls
      ensures Supports(updateMethod) ==>
        manager.calls == old(manager.calls) + [ManagerCall(updateMethod.value, Instance(instance))] && error == None
      ensures !Supports(updateMethod) ==>
        manager.calls == old(manager.calls) && error == Some(UnsupportedMethod("update", classname))
    {
      var m := Validate("update", updateMethod);
      if m.Err? {
        return Some(m.error);
      }
      var _ := manager.Invoke(ManagerCall(m.value, Instance(instance)));
      error := None;
    }

    /** delete: hands the instance to the manager. */
    method Delete(instance: Value) returns (error: Option<AdapterError>)
      modifies manager`calls
      ensures Supports(deleteMethod) ==>
        manager.calls == old(manager.calls) + [ManagerCall(deleteMethod.value, Instance(instance))] && error == None
      ensures !Supports(deleteMethod) ==>
        manager.calls == old(manager.calls) && error == Some(UnsupportedMethod("delete", classname))
    {
      var m := Validate("delete", deleteMethod);
      if m.Err? {
        return Some(m.error);
      }
      var _ := manager.Invoke(ManagerCall(m.value, Instance(instance)));
      error := None;
    }

    /** undelete: the manager's result for the identifier, returned as is. */
    method Undelete(identifier: string) returns (r: Result<Value, AdapterError>)
      modifies manager`calls
      ensures Supports(undeleteMethod) ==>
        var call := ManagerCall(undeleteMethod.value, Identifier(identifier));
        manager.calls == old(manager.calls) + [call] && r == Ok(manager.respond(call))
      ensures !Supports(undeleteMethod) ==>
        manager.calls == old(manager.calls) && r == Err(UnsupportedMethod("undelete", classname))
    {
      var m := Validate("undelete", undeleteMethod);
      if m.Err? {
        return Err(m.error);
      }
      var v := manager.Invoke(ManagerCall(m.value, Identifier(identifier)));
      r := Ok(v);
    }
  }

  /**
   * Method lookup ignores case, as PHP's does: a name is found under any mix
   * of upper and lower case exactly when it is found as written, and a
   * declared method is found under every such spelling.
   */
  lemma LookupIgnoresCase(methods: set<string>, name: string, other: string)
    requires |other| == |name|
    requires forall i | 0 <= i < |name| :: other[i] == name[i] || other[i] == UpperChar(name[i]) || other[i] == LowerChar(name[i])
    ensures HasMethod(methods, other) <==> HasMethod(methods, name)
    ensures name in methods ==> HasMethod(methods, other)
  {
  }
}
