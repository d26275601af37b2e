/** `type_is_user_defined`: whether a C type string names one of the
    structs of a state. The C-type parser is not part of this model; it is a
    function to an optional parsed type. */
module UserTypes {
  import opened Wrappers
  import opened Artifacts
  import opened Backend

  /** What the parser reports about a type: whether it is not a type it
      knows (a primitive), and the name of its base type. */
  datatype CType = CType(isUnknown: bool, baseTypeName: string)

  /** The part of a state `type_is_user_defined` reads: its structs, by name. */
  datatype StructState = StructState(structs: map<string, Struct>)

  /** `type_is_user_defined(type_str, state)`. The empty string, an
      unparsable type and a type the parser knows give `None`; an unknown
      type gives its base name iff that name is a struct of the state. With
      no state (the default `None`) an unknown type reaches
      `state._structs` and raises `AttributeError`. */
  function TypeIsUserDefined(parse: string -> Option<CType>, typeStr: string, state: Option<StructState>)
    : (r: Result<Option<string>, Exc>)
    ensures r.Failure? <==> typeStr != "" && parse(typeStr).Some? && parse(typeStr).value.isUnknown && state.None?
    ensures r.Failure? ==> r.error == AttributeError
    ensures (r.Success? && r.value.Some?) <==>
      && typeStr != ""
      && parse(typeStr).Some?
      && parse(typeStr).value.isUnknown
      && state.Some?
      && parse(typeStr).value.baseTypeName in state.value.structs
    ensures r.Success? && r.value.Some? ==> r.value.value == parse(typeStr).value.baseTypeName
  {
    if typeStr == "" then Success(None)
    else
      match parse(typeStr)
      case None => Success(None)
      case Some(t) =>
        if !t.isUnknown then Success(None)
        else
          match state
          case None => Failure(AttributeError)
          case Some(st) => Success(if t.baseTypeName in st.structs then Some(t.baseTypeName) else None)
  }
}
