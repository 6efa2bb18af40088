/**
 * The grant-type registry: an ordered array from grant type to handler
 * class, validated once at construction and looked up per token request.
 */
module GrantTypeFactory {
  import opened Php
  import opened Protocol

  /** What reflection reports about a class name: whether the class is
      defined, and whether it implements the grant type handler interface. */
  datatype ClassTable = ClassTable(defined: string -> bool, implementsHandler: string -> bool)

  /** A constructed factory: the registry exactly as it was given. */
  datatype Factory = Factory(classes: PhpArray) {
    /** `getGrantTypeHandlers`. */
    function GetGrantTypeHandlers(): PhpArray {
      classes
    }
  }

  /** Every registered class exists and implements the handler interface. */
  predicate AllHandlers(rt: ClassTable, classes: PhpArray) {
    forall i :: 0 <= i < |classes| ==> rt.defined(classes[i].1) && rt.implementsHandler(classes[i].1)
  }

  function Unsupported(): OAuthError {
    Described(UnsupportedGrantType, DescUnsupportedGrantType)
  }

  /** The constructor: it refuses a registry holding a class that does not
      exist or is not a handler, and otherwise keeps the registry as given. */
  method NewFactory(rt: ClassTable, classes: PhpArray) returns (r: Result<Factory>)
    ensures r.Ok? <==> AllHandlers(rt, classes)
    ensures r.Ok? ==> r.value.GetGrantTypeHandlers() == classes
    ensures r.Err? ==> r.error == Unsupported()
  {
    for i := 0 to |classes|
      invariant forall k :: 0 <= k < i ==> rt.defined(classes[k].1) && rt.implementsHandler(classes[k].1)
    {
      if !rt.defined(classes[i].1) {
        return Err(Unsupported());
      }
      if !rt.implementsHandler(classes[i].1) {
        return Err(Unsupported());
      }
    }
    r := Ok(Factory(classes));
  }

  /** `$type ?: current(array_keys($this->classes))`: a falsy type selects
      the first registered key, which an empty registry does not have. */
  function SelectedType(f: Factory, grantType: Option<string>): (r: Option<string>)
    ensures Truthy(grantType) ==> r == grantType
    ensures !Truthy(grantType) ==> (r.Some? <==> f.classes != [])
    ensures !Truthy(grantType) && r.Some? ==> Get(f.classes, r.value) == Some(f.classes[0].1)
  {
    if Truthy(grantType) then grantType
    else if f.classes == [] then None
    else Some(f.classes[0].0)
  }

  /** `getGrantTypeHandler`: the class registered for the selected type, if
      it is still defined. */
  function GetGrantTypeHandler(f: Factory, rt: ClassTable, grantType: Option<string>): (r: Result<string>)
    ensures Truthy(grantType) ==>
              (r.Ok? <==> Get(f.classes, grantType.value).Some? && rt.defined(Get(f.classes, grantType.value).value))
    ensures Truthy(grantType) && r.Ok? ==> r.value == Get(f.classes, grantType.value).value
    ensures !Truthy(grantType) && f.classes != [] ==>
              (r.Ok? <==> rt.defined(f.classes[0].1)) && (r.Ok? ==> r.value == f.classes[0].1)
    ensures !Truthy(grantType) && f.classes == [] ==> r == Err(Unsupported())
    ensures r.Err? ==> r.error == Unsupported()
    ensures r.Ok? ==> rt.defined(r.value) && exists i :: 0 <= i < |f.classes| && f.classes[i].1 == r.value
  {
    var selected := SelectedType(f, grantType);
    if selected.None? then Err(Unsupported())
    else
      var handler := Get(f.classes, selected.value);
      if handler.None? || !rt.defined(handler.value) then Err(Unsupported())
      else Ok(handler.value)
  }

  /** In a constructed factory every registered type is served by its own
      class, and a type never registered is refused. */
  lemma RegisteredTypeResolves(f: Factory, rt: ClassTable, classes: PhpArray, t: string)
    requires f.GetGrantTypeHandlers() == classes && AllHandlers(rt, classes)
    requires Truthy(Some(t))
    ensures Get(classes, t).Some? ==> GetGrantTypeHandler(f, rt, Some(t)) == Ok(Get(classes, t).value)
    ensures Get(classes, t).None? ==> GetGrantTypeHandler(f, rt, Some(t)) == Err(Unsupported())
  {
    if Get(classes, t).Some? {
      var i :| 0 <= i < |classes| && classes[i] == (t, Get(classes, t).value);
      assert rt.defined(classes[i].1);
    }
  }

  /** `"0"` and `""` are falsy, so they select the first registered handler
      rather than a handler registered under that name. */
  lemma FalsyTypeSelectsFirst(rt: ClassTable)
    requires rt.defined("PasswordHandler")
    ensures var f := Factory([("password", "PasswordHandler"), ("0", "OtherHandler")]);
            && GetGrantTypeHandler(f, rt, Some("0")) == Ok("PasswordHandler")
            && GetGrantTypeHandler(f, rt, None) == Ok("PasswordHandler")
  {
  }
}
