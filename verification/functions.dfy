/** The base class's function-level operations: `_set_function`, which fans a
    function out to the header and stack-variable setters, and the two
    stack-variable readers built on `_get_function`. */
module FunctionArtifacts {
  import opened Wrappers
  import opened Dicts
  import opened Artifacts
  import opened Backend

  /** One call `_set_function` makes into the backend. */
  datatype SubCall = HeaderCall(header: FunctionHeader) | StackVarCall(svar: StackVariable)

  function Outcome(s: Setters, c: SubCall): SetResult {
    match c
    case HeaderCall(h) => s.functionHeader(h)
    case StackVarCall(v) => s.stackVariable(v)
  }

  function StackVarCalls(vs: seq<StackVariable>): (cs: seq<SubCall>)
    ensures |cs| == |vs|
    ensures forall i :: 0 <= i < |vs| ==> cs[i] == StackVarCall(vs[i])
  {
    if |vs| == 0 then [] else StackVarCalls(vs[..|vs| - 1]) + [StackVarCall(vs[|vs| - 1])]
  }

  function HeaderCalls(f: Function): seq<SubCall> {
    if f.header.Some? then [HeaderCall(f.header.value)] else []
  }

  /** Every call `_set_function` owes the backend, in order: the header when
      there is one, then each stack variable in the dictionary's order. */
  function Planned(f: Function): seq<SubCall> {
    HeaderCalls(f) + StackVarCalls(Values(f.stackVars))
  }

  /** The OR of the booleans the calls returned, folded left to right as
      `update |= ...` does. */
  function AnyChanged(s: Setters, cs: seq<SubCall>): bool {
    |cs| > 0 && (AnyChanged(s, cs[..|cs| - 1]) || Outcome(s, cs[|cs| - 1]) == Changed(true))
  }

  /** The fold is true exactly when some call reported a change. */
  lemma {:induction false} AnyChangedExists(s: Setters, cs: seq<SubCall>)
    ensures AnyChanged(s, cs) <==> exists i :: 0 <= i < |cs| && Outcome(s, cs[i]) == Changed(true)
  {
    if |cs| > 0 {
      var p := cs[..|cs| - 1];
      AnyChangedExists(s, p);
      assert forall i :: 0 <= i < |p| ==> p[i] == cs[i];
      if AnyChanged(s, p) {
        var i :| 0 <= i < |p| && Outcome(s, p[i]) == Changed(true);
        assert cs[i] == p[i];
      }
    }
  }

  /** What a left-to-right fan-out over the calls `plan` reports when each
      call's exception propagates: the calls made are a prefix of the plan;
      on success all of them were made, all returned, and the result is true
      exactly when one of them reported a change; on failure the last call
      made raised the reported exception and the ones before it returned. */
  ghost predicate FannedOut(s: Setters, plan: seq<SubCall>, r: Result<bool, Exc>, calls: seq<SubCall>) {
    && calls <= plan
    && (r.Success? ==>
          && calls == plan
          && (forall i :: 0 <= i < |calls| ==> Outcome(s, calls[i]).Changed?)
          && (r.value <==> exists i :: 0 <= i < |calls| && Outcome(s, calls[i]) == Changed(true)))
    && (r.Failure? ==>
          && |calls| > 0
          && Outcome(s, calls[|calls| - 1]) == Raised(r.error)
          && (forall i :: 0 <= i < |calls| - 1 ==> Outcome(s, calls[i]).Changed?))
  }

  /** A call that returned `c`, made before a fan-out, ORs `c` into its result. */
  lemma FanOutAfter(s: Setters, h: SubCall, c: bool, plan: seq<SubCall>, r: Result<bool, Exc>, calls: seq<SubCall>)
    requires Outcome(s, h) == Changed(c)
    requires FannedOut(s, plan, r, calls)
    ensures FannedOut(s, [h] + plan, if r.Success? then Success(c || r.value) else r, [h] + calls)
  {
    var all := [h] + calls;
    assert forall i :: 0 < i < |all| ==> all[i] == calls[i - 1];
    if r.Success? {
      if c {
        assert Outcome(s, all[0]) == Changed(true);
      } else if r.value {
        var i :| 0 <= i < |calls| && Outcome(s, calls[i]) == Changed(true);
        assert Outcome(s, all[i + 1]) == Changed(true);
      }
      if exists i :: 0 <= i < |all| && Outcome(s, all[i]) == Changed(true) {
        var i :| 0 <= i < |all| && Outcome(s, all[i]) == Changed(true);
        if i > 0 {
          assert Outcome(s, calls[i - 1]) == Changed(true);
        }
      }
    } else {
      assert all[|all| - 1] == calls[|calls| - 1];
    }
  }

  /** The loop of `_set_function` over the stack variables: every variable
      is passed to `_set_stack_variable` until one raises. */
  method SetStackVariables(s: Setters, vs: seq<StackVariable>) returns (r: Result<bool, Exc>, calls: seq<SubCall>)
    ensures FannedOut(s, StackVarCalls(vs), r, calls)
  {
    var update := false;
    calls := [];
    var i := 0;
    while i < |vs|
      invariant i <= |vs|
      invariant calls == StackVarCalls(vs[..i])
      invariant forall j :: 0 <= j < |calls| ==> Outcome(s, calls[j]).Changed?
      invariant update == AnyChanged(s, calls)
    {
      var c := StackVarCall(vs[i]);
      assert StackVarCalls(vs[..i + 1]) == StackVarCalls(vs[..i]) + [c] by {
        assert vs[..i + 1][..i] == vs[..i];
      }
      var o := s.stackVariable(vs[i]);
      ghost var before := calls;
      calls := calls + [c];
      assert calls[..|calls| - 1] == before;
      if o.Raised? {
        assert StackVarCalls(vs[..i + 1]) == StackVarCalls(vs)[..i + 1];
        return Failure(o.exc), calls;
      }
      update := update || o.changed;
      i := i + 1;
    }
    assert vs[..i] == vs;
    AnyChangedExists(s, calls);
    r := Success(update);
  }

  /** `_set_function(func)`. The header setter is called only when there is
      a header; then every stack variable goes to its setter, none skipped
      because an earlier call already reported a change: the result is the
      OR of all of them. An exception from a setter propagates and ends the
      fan-out. */
  method SetFunction(s: Setters, f: Function) returns (r: Result<bool, Exc>, calls: seq<SubCall>)
    ensures FannedOut(s, Planned(f), r, calls)
    ensures f.header.Some? ==> |calls| > 0 && calls[0] == HeaderCall(f.header.value)
    ensures f.header.None? ==> forall i :: 0 <= i < |calls| ==> calls[i].StackVarCall?
  {
    var vs := Values(f.stackVars);
    if f.header.None? {
      assert Planned(f) == StackVarCalls(vs);
      r, calls := SetStackVariables(s, vs);
      return;
    }
    var h := HeaderCall(f.header.value);
    assert Planned(f) == [h] + StackVarCalls(vs);
    match s.functionHeader(f.header.value)
    case Raised(e) =>
      r, calls := Failure(e), [h];
    case Changed(c) =>
      var rest, tail := SetStackVariables(s, vs);
      FanOutAfter(s, h, c, StackVarCalls(vs), rest, tail);
      r := if rest.Success? then Success(c || rest.value) else rest;
      calls := [h] + tail;
  }

  /** `_get_stack_variable(addr, offset)`: `None` when the function is
      unknown, otherwise the entry at `offset` of its stack variables. */
  function GetStackVariable(b: Backend, addr: int, offset: int): (r: Option<StackVariable>)
    ensures b.getFunction(addr).None? ==> r.None?
    ensures r.Some? ==>
      exists i :: 0 <= i < |b.getFunction(addr).value.stackVars| && b.getFunction(addr).value.stackVars[i] == (offset, r.value)
    ensures b.getFunction(addr).Some? && r.None? ==>
      forall i :: 0 <= i < |b.getFunction(addr).value.stackVars| ==> b.getFunction(addr).value.stackVars[i].0 != offset
  {
    match b.getFunction(addr)
    case None => None
    case Some(f) =>
      var r := Get(f.stackVars, offset);
      ToMapKeys(f.stackVars);
      if r.Some? then
        var i :| 0 <= i < |f.stackVars| && f.stackVars[i].0 == offset;
        ToMapAt(f.stackVars, i);
        r
      else r
  }

  /** Stack variables keyed by their own `offset` field, read left to right:
      on a repeated offset the later variable wins. */
  function ByOffset(vs: seq<StackVariable>): map<int, StackVariable> {
    if |vs| == 0 then map[] else ByOffset(vs[..|vs| - 1])[vs[|vs| - 1].offset := vs[|vs| - 1]]
  }

  /** `ByOffset` holds exactly the offsets that occur. */
  lemma {:induction false} ByOffsetKeys(vs: seq<StackVariable>)
    ensures forall o :: o in ByOffset(vs) <==> exists i :: 0 <= i < |vs| && vs[i].offset == o
  {
    if |vs| > 0 {
      var p := vs[..|vs| - 1];
      ByOffsetKeys(p);
      assert ByOffset(vs) == ByOffset(p)[vs[|vs| - 1].offset := vs[|vs| - 1]];
      forall o | o in ByOffset(vs) ensures exists i :: 0 <= i < |vs| && vs[i].offset == o {
        if o != vs[|vs| - 1].offset {
          var i :| 0 <= i < |p| && p[i].offset == o;
          assert vs[i] == p[i];
        }
      }
      forall o | exists i :: 0 <= i < |vs| && vs[i].offset == o ensures o in ByOffset(vs) {
        var i :| 0 <= i < |vs| && vs[i].offset == o;
        if i < |p| {
          assert p[i] == vs[i];
        }
      }
    }
  }

  /** Each offset of `ByOffset` is bound to the last variable that carries it. */
  lemma {:induction false} ByOffsetLastWins(vs: seq<StackVariable>, i: nat)
    requires i < |vs|
    requires forall j :: i < j < |vs| ==> vs[j].offset != vs[i].offset
    ensures vs[i].offset in ByOffset(vs) && ByOffset(vs)[vs[i].offset] == vs[i]
  {
    if i < |vs| - 1 {
      var p := vs[..|vs| - 1];
      assert p[i] == vs[i];
      ByOffsetLastWins(p, i);
    }
  }

  /** The stack variables of the function `get(addr)` returns, in order. */
  function SvarsAt(get: int -> Option<Function>, addr: int): seq<StackVariable> {
    match get(addr)
    case None => []
    case Some(f) => Values(f.stackVars)
  }

  /** The inner loop of `_stack_variables`: `stack_vars[addr][svar.offset] = svar`. */
  method CollectByOffset(vs: seq<StackVariable>) returns (m: map<int, StackVariable>)
    ensures m == ByOffset(vs)
  {
    m := map[];
    var j := 0;
    while j < |vs|
      invariant j <= |vs|
      invariant m == ByOffset(vs[..j])
    {
      assert vs[..j + 1][..j] == vs[..j];
      m := m[vs[j].offset := vs[j]];
      j := j + 1;
    }
    assert vs[..j] == vs;
  }

  /** `out` holds, for the addresses `ks`, an entry for each one whose
      function has stack variables, with those variables by offset. */
  ghost predicate Collected(get: int -> Option<Function>, ks: seq<int>, out: map<int, map<int, StackVariable>>) {
    && (forall a :: a in out <==> a in ks && |SvarsAt(get, a)| > 0)
    && (forall a :: a in out ==> out[a] == ByOffset(SvarsAt(get, a)))
  }

  lemma CollectStep(get: int -> Option<Function>, ks: seq<int>, out: map<int, map<int, StackVariable>>, a: int,
                    inner: map<int, StackVariable>)
    requires Collected(get, ks, out)
    requires inner == ByOffset(SvarsAt(get, a))
    ensures |SvarsAt(get, a)| > 0 ==> Collected(get, ks + [a], out[a := inner])
    ensures |SvarsAt(get, a)| == 0 ==> Collected(get, ks + [a], out)
  {
  }

  /** The outer loop of `_stack_variables` over the enumerated addresses. */
  method CollectStackVariables(keys: seq<int>, get: int -> Option<Function>)
    returns (r: Result<map<int, map<int, StackVariable>>, Exc>)
    ensures r.Failure? <==> exists i :: 0 <= i < |keys| && get(keys[i]).None?
    ensures r.Failure? ==> r.error == AttributeError
    ensures r.Success? ==> forall a :: a in r.value <==> a in keys && |SvarsAt(get, a)| > 0
    ensures r.Success? ==> forall a :: a in r.value ==> r.value[a] == ByOffset(SvarsAt(get, a))
  {
    var out: map<int, map<int, StackVariable>> := map[];
    var i := 0;
    while i < |keys|
      invariant i <= |keys|
      invariant forall j :: 0 <= j < i ==> get(keys[j]).Some?
      invariant Collected(get, keys[..i], out)
    {
      var f := get(keys[i]);
      if f.None? {
        return Failure(AttributeError);
      }
      var vs := Values(f.value.stackVars);
      var inner := CollectByOffset(vs);
      CollectStep(get, keys[..i], out, keys[i], inner);
      if |vs| > 0 {
        out := out[keys[i] := inner];
      }
      assert keys[..i + 1] == keys[..i] + [keys[i]];
      i := i + 1;
    }
    assert keys[..i] == keys;
    r := Success(out);
  }

  /** `_stack_variables()`: for each function the enumerator lists, its stack
      variables by their offset. A function with no stack variable gets no
      entry (the `defaultdict` entry is made only on first write), and a
      listed address `_get_function` does not know ends the call with
      `AttributeError` (`None.stack_vars`). */
  method StackVariables(b: Backend) returns (r: Result<map<int, map<int, StackVariable>>, Exc>)
    ensures r.Failure? <==> exists i :: 0 <= i < |b.functions| && b.getFunction(b.functions[i].0).None?
    ensures r.Failure? ==> r.error == AttributeError
    ensures r.Success? ==> forall a :: a in r.value <==> a in Keys(b.functions) && |SvarsAt(b.getFunction, a)| > 0
    ensures r.Success? ==> forall a :: a in r.value ==> r.value[a] == ByOffset(SvarsAt(b.getFunction, a))
    ensures b.functions == [] ==> r == Success(map[])
  {
    var keys := Keys(b.functions);
    r := CollectStackVariables(keys, b.getFunction);
    if r.Failure? {
      var i :| 0 <= i < |keys| && b.getFunction(keys[i]).None?;
      assert keys[i] == b.functions[i].0;
    } else if b.functions == [] {
      assert keys == [];
      assert forall a :: a !in r.value;
      assert r.value == map[];
    }
  }
}
