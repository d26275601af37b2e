/** The canonical artifacts the decompiler interface reads and writes. Only
    the fields the interface itself inspects matter to the model (a
    function's range, header and stack variables, a stack variable's offset);
    the rest are carried so that each kind is a value of its own. */
module Artifacts {
  import opened Wrappers
  import opened Dicts

  newtype byte = x: int | 0 <= x < 256

  datatype FunctionArgument = FunctionArgument(offset: int, name: string, typeName: string, size: int)

  datatype FunctionHeader = FunctionHeader(name: string, addr: int, returnType: string, args: seq<FunctionArgument>)

  datatype StackVariable = StackVariable(offset: int, name: string, typeName: string, size: int, addr: int)

  /** A function covers the half-open range `[addr, addr + size)`. Its stack
      variables are a dictionary keyed by frame offset. */
  datatype Function = Function(addr: int, size: int, header: Option<FunctionHeader>, stackVars: Dict<int, StackVariable>)

  datatype GlobalVariable = GlobalVariable(addr: int, name: string, typeName: string, size: int)

  datatype StructMember = StructMember(name: string, offset: int, typeName: string, size: int)

  datatype Struct = Struct(name: string, size: int, members: Dict<int, StructMember>)

  datatype Enum = Enum(name: string, members: Dict<string, int>)

  /** `decompiled` tells a comment the decompiler shows from one of the user's. */
  datatype Comment = Comment(addr: int, text: string, decompiled: bool)

  datatype Patch = Patch(addr: int, bytes: seq<byte>)

  /** A Python object handed to the interface as an artifact. The eight
      concrete kinds carry their data; `BaseArtifact` is an instance of the
      bare `Artifact` class and `OtherObject` any other class, a subclass of a
      concrete kind included, since dispatch looks at the exact class. */
  datatype Artifact =
    | FunctionArt(func: Function)
    | HeaderArt(header: FunctionHeader)
    | StackVarArt(svar: StackVariable)
    | CommentArt(comment: Comment)
    | GlobalVarArt(gvar: GlobalVariable)
    | StructArt(struct: Struct)
    | EnumArt(enum: Enum)
    | PatchArt(patch: Patch)
    | BaseArtifact
    | OtherObject(className: string)

  /** The exact class of an artifact, Python's `type(artifact)`. */
  datatype ArtifactClass =
    | FunctionClass | FunctionHeaderClass | StackVariableClass | CommentClass
    | GlobalVariableClass | StructClass | EnumClass | PatchClass
    | ArtifactBaseClass | OtherClass(name: string)

  function ClassOf(a: Artifact): ArtifactClass {
    match a
    case FunctionArt(_) => FunctionClass
    case HeaderArt(_) => FunctionHeaderClass
    case StackVarArt(_) => StackVariableClass
    case CommentArt(_) => CommentClass
    case GlobalVarArt(_) => GlobalVariableClass
    case StructArt(_) => StructClass
    case EnumArt(_) => EnumClass
    case PatchArt(_) => PatchClass
    case BaseArtifact => ArtifactBaseClass
    case OtherObject(n) => OtherClass(n)
  }
}
