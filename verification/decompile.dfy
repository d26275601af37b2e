/** `DecompilerInterface.decompile`: find the function whose range holds an
    address, trying the address as given and then its lowered form, and ask
    the backend to decompile it. */
module Decompile {
  import opened Wrappers
  import opened Dicts
  import opened Artifacts
  import opened Backend

  /** `func.addr <= a < func.addr + func.size` */
  predicate Contains(f: Function, a: int) {
    f.addr <= a < f.addr + f.size
  }

  /** The position of the first function, in the enumerator's order, whose
      range holds `a`. */
  function FirstContaining(fs: seq<Function>, a: int): (r: Option<nat>)
    ensures r.Some? ==> r.value < |fs| && Contains(fs[r.value], a)
    ensures r.Some? ==> forall j :: 0 <= j < r.value ==> !Contains(fs[j], a)
    ensures r.None? <==> forall j :: 0 <= j < |fs| ==> !Contains(fs[j], a)
  {
    if |fs| == 0 then None
    else if Contains(fs[0], a) then Some(0)
    else
      match FirstContaining(fs[1..], a)
      case None => None
      case Some(i) => Some(i + 1)
  }

  /** The inner `for ... else` loop over `self._functions().items()`. */
  method FindContaining(fs: seq<Function>, a: int) returns (found: Option<Function>)
    ensures found.None? <==> forall j :: 0 <= j < |fs| ==> !Contains(fs[j], a)
    ensures found.None? <==> FirstContaining(fs, a).None?
    ensures found.Some? ==> found.value == fs[FirstContaining(fs, a).value]
  {
    var i := 0;
    while i < |fs|
      invariant i <= |fs|
      invariant forall j :: 0 <= j < i ==> !Contains(fs[j], a)
    {
      if Contains(fs[i], a) {
        return Some(fs[i]);
      }
      i := i + 1;
    }
    return None;
  }

  /** `except Exception` around `_decompile`: an exception that is an
      `Exception` is logged and turned into `None`; one that derives only
      from `BaseException` propagates; returned text passes through. */
  function Caught(r: Result<Option<string>, Exc>): (text: Result<Option<string>, Exc>)
    ensures text.Failure? <==> r.Failure? && r.error.BaseOnly?
    ensures text.Failure? ==> text.error == r.error
    ensures r.Failure? && !r.error.BaseOnly? ==> text == Success(None)
    ensures r.Success? ==> text == r
  {
    match r
    case Success(_) => r
    case Failure(e) => if e.BaseOnly? then r else Success(None)
  }

  /** The function `decompile` settles on: the first holding `addr`, else
      the first holding `low`. Both searches run over the same enumeration. */
  method Resolve(fs: seq<Function>, addr: int, low: int) returns (func: Option<Function>)
    ensures FirstContaining(fs, addr).Some? ==> func == Some(fs[FirstContaining(fs, addr).value])
    ensures FirstContaining(fs, addr).None? && FirstContaining(fs, low).Some? ==>
      func == Some(fs[FirstContaining(fs, low).value])
    ensures func.None? <==> FirstContaining(fs, addr).None? && FirstContaining(fs, low).None?
  {
    func := FindContaining(fs, addr);
    if func.None? {
      func := FindContaining(fs, low);
    }
  }

  /** `decompile(addr)`. The raw address is searched first; only when no
      function holds it is `lower_addr(addr)` searched. The pair of search
      addresses is built before either search, so an interface with no
      lifter raises `AttributeError` even when the raw address is held. */
  method Decompile(b: Backend, addr: int) returns (text: Result<Option<string>, Exc>)
    ensures !b.decompilerAvailable ==> text == Success(None)
    ensures b.decompilerAvailable && b.lifter.None? ==> text == Failure(AttributeError)
    ensures text.Failure? ==> b.decompilerAvailable
    ensures text.Failure? && b.lifter.Some? ==> text.error.BaseOnly?
    ensures DefaultQueries(b) && b.lifter.Some? ==> text == Success(None)
    ensures b.decompilerAvailable && b.lifter.Some? ==>
      var fs := Values(b.functions);
      var low := b.lifter.value.lowerAddr(addr);
      text ==
        if FirstContaining(fs, addr).Some? then Caught(b.decompileFunction(fs[FirstContaining(fs, addr).value]))
        else if FirstContaining(fs, low).Some? then Caught(b.decompileFunction(fs[FirstContaining(fs, low).value]))
        else Success(None)
    ensures text.Success? && text.value.Some? ==>
      && b.lifter.Some?
      && exists j :: 0 <= j < |b.functions| &&
           (Contains(b.functions[j].1, addr) || Contains(b.functions[j].1, b.lifter.value.lowerAddr(addr)))
  {
    if !b.decompilerAvailable {
      return Success(None);
    }
    if b.lifter.None? {
      return Failure(AttributeError);
    }
    var fs := Values(b.functions);
    var func := Resolve(fs, addr, b.lifter.value.lowerAddr(addr));
    if func.None? {
      return Success(None);
    }
    text := Caught(b.decompileFunction(func.value));
  }
}
