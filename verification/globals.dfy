/** The two lookups over artifacts that belong to no function:
    `global_artifacts`, which merges the struct, global-variable and enum
    enumerations into one dictionary, and `global_artifact`, which routes a
    key by its Python type to the matching getter. */
module GlobalLookup {
  import opened Wrappers
  import opened Dicts
  import opened Artifacts
  import opened Backend

  /** A key of the merged dictionary: structs and enums are keyed by name
      (a `str`), global variables by address (an `int`); a `str` never
      equals an `int`. */
  datatype GlobalKey = NameKey(name: string) | AddrKey(addr: int)

  function StructEntries(b: Backend): Dict<GlobalKey, Artifact> {
    Embed(b.structs, (n: string) => NameKey(n), (s: Struct) => StructArt(s))
  }

  function GlobalVarEntries(b: Backend): Dict<GlobalKey, Artifact> {
    Embed(b.globalVars, (a: int) => AddrKey(a), (g: GlobalVariable) => GlobalVarArt(g))
  }

  function EnumEntries(b: Backend): Dict<GlobalKey, Artifact> {
    Embed(b.enums, (n: string) => NameKey(n), (e: Enum) => EnumArt(e))
  }

  /** `global_artifacts()`: `g.update(...)` with `_structs()`, then
      `_global_vars()`, then `_enums()`; a later source overwrites an
      earlier one on the same key. */
  function GlobalArtifacts(b: Backend): (r: Dict<GlobalKey, Artifact>)
    ensures ToMap(r) == ToMap(StructEntries(b)) + ToMap(GlobalVarEntries(b)) + ToMap(EnumEntries(b))
  {
    var empty: Dict<GlobalKey, Artifact> := [];
    assert ToMap(empty) + ToMap(StructEntries(b)) == ToMap(StructEntries(b));
    var withStructs := Update(empty, StructEntries(b));
    var withGlobals := Update(withStructs, GlobalVarEntries(b));
    Update(withGlobals, EnumEntries(b))
  }

  /** The names in the merged dictionary are the struct and enum names; a
      name that is both a struct and an enum is bound to the enum, a name
      that is only a struct to its struct. */
  lemma GlobalArtifactsNames(b: Backend)
    ensures forall n :: NameKey(n) in ToMap(GlobalArtifacts(b)) <==> n in ToMap(b.structs) || n in ToMap(b.enums)
    ensures forall n :: n in ToMap(b.enums) ==> ToMap(GlobalArtifacts(b))[NameKey(n)] == EnumArt(ToMap(b.enums)[n])
    ensures forall n :: n in ToMap(b.structs) && n !in ToMap(b.enums) ==>
      ToMap(GlobalArtifacts(b))[NameKey(n)] == StructArt(ToMap(b.structs)[n])
  {
    var mg := ToMap(GlobalVarEntries(b));
    EmbedToMap(b.structs, (n: string) => NameKey(n), (s: Struct) => StructArt(s));
    EmbedToMap(b.globalVars, (a: int) => AddrKey(a), (g: GlobalVariable) => GlobalVarArt(g));
    EmbedToMap(b.enums, (n: string) => NameKey(n), (e: Enum) => EnumArt(e));
    forall n ensures NameKey(n) !in mg {
    }
  }

  /** The addresses in the merged dictionary are the global variables', each
      bound to its variable: no struct or enum name can collide with one. */
  lemma GlobalArtifactsAddresses(b: Backend)
    ensures forall a :: AddrKey(a) in ToMap(GlobalArtifacts(b)) <==> a in ToMap(b.globalVars)
    ensures forall a :: a in ToMap(b.globalVars) ==>
      ToMap(GlobalArtifacts(b))[AddrKey(a)] == GlobalVarArt(ToMap(b.globalVars)[a])
  {
    var ms, me := ToMap(StructEntries(b)), ToMap(EnumEntries(b));
    EmbedToMap(b.structs, (n: string) => NameKey(n), (s: Struct) => StructArt(s));
    EmbedToMap(b.globalVars, (a: int) => AddrKey(a), (g: GlobalVariable) => GlobalVarArt(g));
    EmbedToMap(b.enums, (n: string) => NameKey(n), (e: Enum) => EnumArt(e));
    forall a ensures AddrKey(a) !in ms && AddrKey(a) !in me {
    }
  }

  /** With the base class's enumerators the merged dictionary is empty. */
  lemma DefaultGlobalArtifactsEmpty(b: Backend)
    requires DefaultQueries(b)
    ensures GlobalArtifacts(b) == []
  {
  }

  /** The Python type of the argument of `global_artifact`. A `bool` is an
      `int` to `isinstance`. */
  datatype LookupItem = IntItem(addr: int) | StrItem(name: string) | OtherItem

  /** `global_artifact(lookup_item)`. An `int` reaches only
      `_get_global_var`; a `str` yields the struct when `_get_struct` returns
      a truthy one and otherwise whatever `_get_enum` returns; anything else
      yields `None`. */
  function GlobalArtifact(b: Backend, item: LookupItem): (r: Option<Artifact>)
    ensures item.OtherItem? ==> r.None?
    ensures item.IntItem? ==> (r.Some? <==> b.getGlobalVar(item.addr).Some?)
    ensures item.IntItem? && r.Some? ==> r.value == GlobalVarArt(b.getGlobalVar(item.addr).value)
    ensures item.StrItem? && b.getStruct(item.name).Some? && b.structTruthy(b.getStruct(item.name).value) ==>
      r == Some(StructArt(b.getStruct(item.name).value))
    ensures item.StrItem? && !(b.getStruct(item.name).Some? && b.structTruthy(b.getStruct(item.name).value)) ==>
      (r.Some? <==> b.getEnum(item.name).Some?) && (r.Some? ==> r.value == EnumArt(b.getEnum(item.name).value))
  {
    match item
    case IntItem(a) =>
      (match b.getGlobalVar(a)
       case Some(g) => Some(GlobalVarArt(g))
       case None => None)
    case StrItem(n) =>
      var s := b.getStruct(n);
      if s.Some? && b.structTruthy(s.value) then Some(StructArt(s.value))
      else
        (match b.getEnum(n)
         case Some(e) => Some(EnumArt(e))
         case None => None)
    case OtherItem => None
  }

  /** A backend whose getters find exactly what its enumerators list, under
      the same key, and whose structs are all truthy. */
  ghost predicate Coherent(b: Backend) {
    && (forall a :: b.getGlobalVar(a).Some? <==> a in ToMap(b.globalVars))
    && (forall n :: b.getStruct(n).Some? <==> n in ToMap(b.structs))
    && (forall n :: b.getEnum(n).Some? <==> n in ToMap(b.enums))
    && (forall s :: b.structTruthy(s))
  }

  /** On a coherent backend `global_artifact` finds a key exactly when
      `global_artifacts` lists it. */
  lemma LookupAgreesWithListing(b: Backend, item: LookupItem)
    requires Coherent(b)
    ensures item.IntItem? ==> (GlobalArtifact(b, item).Some? <==> AddrKey(item.addr) in ToMap(GlobalArtifacts(b)))
    ensures item.StrItem? ==> (GlobalArtifact(b, item).Some? <==> NameKey(item.name) in ToMap(GlobalArtifacts(b)))
  {
    GlobalArtifactsNames(b);
    GlobalArtifactsAddresses(b);
  }

  /** For a name that is both a struct and an enum the two lookups disagree:
      the listing holds the enum (it was merged last) while the single lookup
      returns the struct (it is tried first). */
  lemma NameCollision(b: Backend, n: string)
    requires Coherent(b)
    requires n in ToMap(b.structs) && n in ToMap(b.enums)
    ensures GlobalArtifact(b, StrItem(n)).Some? && GlobalArtifact(b, StrItem(n)).value.StructArt?
    ensures NameKey(n) in ToMap(GlobalArtifacts(b)) && ToMap(GlobalArtifacts(b))[NameKey(n)].EnumArt?
  {
    GlobalArtifactsNames(b);
    GlobalArtifactsAddresses(b);
  }
}
