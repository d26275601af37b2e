/** `DecompilerInterface.set_artifact`: lower the artifact if asked, look its
    exact class up in a fixed table of setters and call the one setter found. */
module Dispatch {
  import opened Wrappers
  import opened Artifacts
  import opened Backend
  import opened FunctionArtifacts

  /** The backend setters `set_artifact` can reach. */
  datatype SetterName =
    | SetFunctionSetter | SetFunctionHeaderSetter | SetStackVariableSetter | SetCommentSetter
    | SetGlobalVariableSetter | SetStructSetter | SetEnumSetter | SetPatchSetter

  /** The class each setter is written for. */
  function Target(s: SetterName): ArtifactClass {
    match s
    case SetFunctionSetter => FunctionClass
    case SetFunctionHeaderSetter => FunctionHeaderClass
    case SetStackVariableSetter => StackVariableClass
    case SetCommentSetter => CommentClass
    case SetGlobalVariableSetter => GlobalVariableClass
    case SetStructSetter => StructClass
    case SetEnumSetter => EnumClass
    case SetPatchSetter => PatchClass
  }

  /** `set_map`, keyed by exact class; the bare `Artifact` class is listed
      with no setter. */
  const SetMap: map<ArtifactClass, Option<SetterName>> := map[
    FunctionClass := Some(SetFunctionSetter),
    FunctionHeaderClass := Some(SetFunctionHeaderSetter),
    StackVariableClass := Some(SetStackVariableSetter),
    CommentClass := Some(SetCommentSetter),
    GlobalVariableClass := Some(SetGlobalVariableSetter),
    StructClass := Some(SetStructSetter),
    EnumClass := Some(SetEnumSetter),
    PatchClass := Some(SetPatchSetter),
    ArtifactBaseClass := None]

  /** `set_map.get(type(artifact), None)`: each of the eight concrete classes
      finds exactly the setter written for it; the bare `Artifact` class and
      every other class find none. */
  function Lookup(c: ArtifactClass): (r: Option<SetterName>)
    ensures r.None? <==> c == ArtifactBaseClass || c.OtherClass?
    ensures r.Some? ==> Target(r.value) == c
    ensures forall s :: Target(s) == c ==> r == Some(s)
  {
    if c in SetMap then SetMap[c] else None
  }

  /** Calls the setter `s` on an artifact of the class it is written for. */
  method Invoke(b: Backend, s: SetterName, x: Artifact) returns (r: Result<bool, Exc>, fanout: seq<SubCall>)
    requires Target(s) == ClassOf(x)
    ensures x.FunctionArt? && b.setters.functionOverride.Some? ==>
      r == Propagate(b.setters.functionOverride.value(x.func)) && fanout == []
    ensures x.FunctionArt? && b.setters.functionOverride.None? ==> FannedOut(b.setters, Planned(x.func), r, fanout)
    ensures !x.FunctionArt? ==> fanout == []
    ensures x.HeaderArt? ==> r == Propagate(b.setters.functionHeader(x.header))
    ensures x.StackVarArt? ==> r == Propagate(b.setters.stackVariable(x.svar))
    ensures x.CommentArt? ==> r == Propagate(b.setters.comment(x.comment))
    ensures x.GlobalVarArt? ==> r == Propagate(b.setters.globalVariable(x.gvar))
    ensures x.StructArt? ==> r == Propagate(b.setters.struct(x.struct))
    ensures x.EnumArt? ==> r == Propagate(b.setters.enum(x.enum))
    ensures x.PatchArt? ==> r == Propagate(b.setters.patch(x.patch))
  {
    fanout := [];
    match s
    case SetFunctionSetter =>
      if b.setters.functionOverride.Some? {
        r := Propagate(b.setters.functionOverride.value(x.func));
      } else {
        r, fanout := SetFunction(b.setters, x.func);
      }
    case SetFunctionHeaderSetter =>
      r := Propagate(b.setters.functionHeader(x.header));
    case SetStackVariableSetter =>
      r := Propagate(b.setters.stackVariable(x.svar));
    case SetCommentSetter =>
      r := Propagate(b.setters.comment(x.comment));
    case SetGlobalVariableSetter =>
      r := Propagate(b.setters.globalVariable(x.gvar));
    case SetStructSetter =>
      r := Propagate(b.setters.struct(x.struct));
    case SetEnumSetter =>
      r := Propagate(b.setters.enum(x.enum));
    case SetPatchSetter =>
      r := Propagate(b.setters.patch(x.patch));
  }

  /** The artifact `set_artifact` dispatches on: lowered iff `lower`, and
      `None` when lowering reaches an absent lifter (`AttributeError`). */
  function Prepared(b: Backend, a: Artifact, lower: bool): (x: Option<Artifact>)
    ensures x.None? <==> lower && b.lifter.None?
    ensures !lower ==> x == Some(a)
    ensures lower && b.lifter.Some? ==> x == Some(b.lifter.value.lower(a))
  {
    if !lower then Some(a)
    else if b.lifter.None? then None
    else Some(b.lifter.value.lower(a))
  }

  /** `set_artifact(artifact, lower)`. `invoked` names the one setter called,
      `fanout` the calls the base `_set_function` made in turn. */
  method SetArtifact(b: Backend, a: Artifact, lower: bool)
    returns (r: Result<bool, Exc>, invoked: Option<SetterName>, fanout: seq<SubCall>)
    ensures Prepared(b, a, lower).None? ==> r == Failure(AttributeError) && invoked.None? && fanout == []
    ensures var x := Prepared(b, a, lower);
      invoked.None? <==> x.None? || x.value.BaseArtifact? || x.value.OtherObject?
    ensures var x := Prepared(b, a, lower);
      invoked.None? && x.Some? ==> r == Success(false) && fanout == []
    ensures var x := Prepared(b, a, lower);
      invoked.Some? ==> x.Some? && Target(invoked.value) == ClassOf(x.value)
    ensures var x := Prepared(b, a, lower);
      x.Some? && x.value.FunctionArt? && b.setters.functionOverride.Some? ==>
        r == Propagate(b.setters.functionOverride.value(x.value.func))
    ensures var x := Prepared(b, a, lower);
      x.Some? && x.value.FunctionArt? && b.setters.functionOverride.None? ==>
        FannedOut(b.setters, Planned(x.value.func), r, fanout)
    ensures var x := Prepared(b, a, lower);
      x.Some? && x.value.HeaderArt? ==> r == Propagate(b.setters.functionHeader(x.value.header))
    ensures var x := Prepared(b, a, lower);
      x.Some? && x.value.StackVarArt? ==> r == Propagate(b.setters.stackVariable(x.value.svar))
    ensures var x := Prepared(b, a, lower);
      x.Some? && x.value.CommentArt? ==> r == Propagate(b.setters.comment(x.value.comment))
    ensures var x := Prepared(b, a, lower);
      x.Some? && x.value.GlobalVarArt? ==> r == Propagate(b.setters.globalVariable(x.value.gvar))
    ensures var x := Prepared(b, a, lower);
      x.Some? && x.value.StructArt? ==> r == Propagate(b.setters.struct(x.value.struct))
    ensures var x := Prepared(b, a, lower);
      x.Some? && x.value.EnumArt? ==> r == Propagate(b.setters.enum(x.value.enum))
    ensures var x := Prepared(b, a, lower);
      x.Some? && x.value.PatchArt? ==> r == Propagate(b.setters.patch(x.value.patch))
    ensures DefaultSetters(b.setters) ==>
      r == (if lower && b.lifter.None? then Failure(AttributeError) else Success(false))
  {
    var x := Prepared(b, a, lower);
    if x.None? {
      return Failure(AttributeError), None, [];
    }
    invoked := Lookup(ClassOf(x.value));
    match invoked
    case None =>
      r, fanout := Success(false), [];
    case Some(s) =>
      r, fanout := Invoke(b, s, x.value);
  }
}
