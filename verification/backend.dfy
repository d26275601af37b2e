/** The live decompiler behind the interface, seen only through what the
    interface calls: the enumerators (`_functions`, `_structs`, ...), the
    getters (`_get_function`, ...), the setters (`_set_comment`, ...), the
    backend's `_decompile` and the artifact lifter. Each is an uninterpreted
    value of the record; `Default` is the base class with no override. */
module Backend {
  import opened Wrappers
  import opened Dicts
  import opened Artifacts

  /** The exceptions the interface distinguishes: it catches `ValueError`
      around a callback-driven set, hits `AttributeError` when it reads a
      field of `None`, and catches `Exception` around `_decompile`.
      `ValueError` stands for every instance of `ValueError`, subclasses such
      as `UnicodeDecodeError` included, since `except ValueError` catches
      them all; `OtherError` names any other instance of `Exception`.
      `BaseOnly` names an exception that derives from `BaseException` but
      not from `Exception` (`KeyboardInterrupt`, `SystemExit`,
      `GeneratorExit`), which `except Exception` lets through. */
  datatype Exc =
    | ValueError | AttributeError | NotImplementedError | OtherError(name: string)
    | BaseOnly(baseName: string)

  /** What a backend setter does: returns "did this change anything", or raises. */
  datatype SetResult = Changed(changed: bool) | Raised(exc: Exc)

  /** Python's call semantics for a setter: the exception propagates. */
  function Propagate(s: SetResult): (r: Result<bool, Exc>)
    ensures r.Success? <==> s.Changed?
    ensures s.Changed? ==> r.value == s.changed
    ensures s.Raised? ==> r.error == s.exc
  {
    match s
    case Changed(b) => Success(b)
    case Raised(e) => Failure(e)
  }

  /** The translation between the backend's addresses and types and the
      canonical ones; its internals are not part of this model. */
  datatype Lifter = Lifter(lift: Artifact -> Artifact, lower: Artifact -> Artifact, lowerAddr: int -> int)

  /** The backend's setters. `functionOverride` is `None` when the backend
      keeps the base class's `_set_function`, which fans out to the header
      and stack-variable setters. */
  datatype Setters = Setters(
    functionOverride: Option<Function -> SetResult>,
    functionHeader: FunctionHeader -> SetResult,
    stackVariable: StackVariable -> SetResult,
    comment: Comment -> SetResult,
    globalVariable: GlobalVariable -> SetResult,
    struct: Struct -> SetResult,
    enum: Enum -> SetResult,
    patch: Patch -> SetResult)

  datatype Backend = Backend(
    /** `artifact_lifer`: `None` when the interface is constructed with the
        default `artifact_lifter=None`; every use of it then raises
        `AttributeError`. */
    lifter: Option<Lifter>,
    decompilerAvailable: bool,
    /** `_decompile(function)`: the text, or the exception it raised. */
    decompileFunction: Function -> Result<Option<string>, Exc>,
    functions: Dict<int, Function>,
    getFunction: int -> Option<Function>,
    globalVars: Dict<int, GlobalVariable>,
    getGlobalVar: int -> Option<GlobalVariable>,
    structs: Dict<string, Struct>,
    getStruct: string -> Option<Struct>,
    /** Python truthiness of a struct object (`if artifact:`). */
    structTruthy: Struct -> bool,
    enums: Dict<string, Enum>,
    getEnum: string -> Option<Enum>,
    patches: Dict<int, Patch>,
    getPatch: int -> Option<Patch>,
    comments: Dict<int, Comment>,
    getComment: int -> Option<Comment>,
    setters: Setters)

  /** Every setter of the base class: no override, and each returns False. */
  ghost predicate DefaultSetters(s: Setters) {
    && s.functionOverride.None?
    && (forall h :: s.functionHeader(h) == Changed(false))
    && (forall v :: s.stackVariable(v) == Changed(false))
    && (forall c :: s.comment(c) == Changed(false))
    && (forall g :: s.globalVariable(g) == Changed(false))
    && (forall t :: s.struct(t) == Changed(false))
    && (forall e :: s.enum(e) == Changed(false))
    && (forall p :: s.patch(p) == Changed(false))
  }

  /** Every enumerator of the base class returns `{}`, every getter `None`. */
  ghost predicate DefaultQueries(b: Backend) {
    && b.functions == [] && b.globalVars == [] && b.structs == []
    && b.enums == [] && b.patches == [] && b.comments == []
    && (forall a :: b.getFunction(a) == None)
    && (forall a :: b.getGlobalVar(a) == None)
    && (forall n :: b.getStruct(n) == None)
    && (forall n :: b.getEnum(n) == None)
    && (forall a :: b.getPatch(a) == None)
    && (forall a :: b.getComment(a) == None)
  }

  const DefaultSetterValues := Setters(
    None,
    _ => Changed(false), _ => Changed(false), _ => Changed(false),
    _ => Changed(false), _ => Changed(false), _ => Changed(false), _ => Changed(false))

  /** The base class, with or without a lifter: `decompiler_available` is
      True and `_decompile` raises `NotImplementedError`. */
  function Default(lifter: Option<Lifter>): (b: Backend)
    ensures DefaultQueries(b) && DefaultSetters(b.setters)
    ensures b.decompilerAvailable
    ensures b.lifter == lifter
    ensures forall f :: b.decompileFunction(f) == Failure(NotImplementedError)
  {
    Backend(lifter, true, _ => Failure(NotImplementedError),
      [], _ => None, [], _ => None, [], _ => None, _ => true,
      [], _ => None, [], _ => None, [], _ => None, DefaultSetterValues)
  }
}
