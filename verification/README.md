# DecompilerInterface: a Dafny model

yodalib's `DecompilerInterface` is the façade that lets tooling read and
write decompiler state (functions, stack variables, global variables,
structs, enums, comments, patches) the same way in every decompiler. This
project models the decision logic of that façade and proves what it
promises.

The live decompiler is an abstract `Backend.Backend` record. It holds the
dictionaries the enumerators return (`_functions`, `_structs`, ...). It also
holds the getters, the setters, `_decompile` and the artifact lifter's
`lift`/`lower`/`lower_addr`, all as uninterpreted functions. The lifter is
optional: the constructor's `artifact_lifter` defaults to `None`, and every
path that lowers then raises `AttributeError`, which the model states.
`Backend.Default` is the base class with nothing overridden. Python
dictionaries are insertion-ordered association lists with unique keys
(`Dicts.Dict`), because the order decides two things: which function
`decompile` picks, and which write wins when keys collide. Exceptions are
values: a setter returns `Changed(bool)` or `Raised(exc)`, and an operation
whose exception propagates returns `Failure(exc)`.

The modules follow the pieces of `yodalib/api/decompiler_interface.py`:

- `Decompile`: `decompile`. It finds the first function whose half-open range
  `[addr, addr + size)` holds the address as given, and only if there is none,
  the first one that holds `lower_addr(addr)`. An `Exception` from `_decompile`
  becomes `None`; one that derives only from `BaseException` propagates.
- `FunctionArtifacts`: `_set_function`, `_get_stack_variable` and `_stack_variables`.
- `Dispatch`: `set_artifact`. It lowers the artifact when asked, looks up the
  exact class in `set_map` and calls the one setter it finds there.
- `GlobalLookup`: `global_artifacts` and `global_artifact`.
- `SetEvents`: `artifact_set_event_handler` and `DummyArtifactSetLock`. A set
  event is a tree: the events the backend fires while a setter runs are its
  children. The lock is a held/free flag. Taking a held lock would wait
  forever, and releasing a free one raises. The model records both as
  `Stuck`, and the contract of `Handle` shows that neither happens.
- `UserTypes`: `type_is_user_defined`. The C-type parser is a function that
  returns an optional `(is_unknown, base type name)` pair.
- `Discovery`: the selection logic of `discover_interface`. It is a function
  of the probe outcomes and the optional forced name.

Where the code and its documentation differ, the model follows the code:

- `type_is_user_defined` can raise. When `state` is left at its default
  `None` and the parser reports an unknown type, the code reads
  `state._structs` and raises `AttributeError`.
- `_stack_variables` raises `AttributeError` when `_get_function` returns
  `None` for an address that `_functions` lists. It also leaves out a function
  that has no stack variables. It keys each variable by the variable's own
  `offset` field, not by the key under which the function stores it.
- `discover_interface` never reaches its last `raise`. When no probe succeeds,
  `is_ghidra` is true, so the Ghidra branch is always taken. The only error is
  a forced name outside the supported set.
- The handler's documentation says it locks callback handlers "so you don't
  get infinite callbacks". The code does not stop a callback chain: under a
  held lock it enters `DummyArtifactSetLock` and calls the setter again, at
  every depth (`SetEvents.NoCutOff`). Only callbacks that check `locked()`
  themselves end such a chain.
- `global_artifacts` and `global_artifact` disagree when a struct and an enum
  share a name and the struct is truthy. The listing keeps the enum, because
  it is merged last. The single lookup returns the struct, because it is
  tried first (`GlobalLookup.NameCollision`). A falsy struct falls through
  to `_get_enum` at line 323, so the lookup then misses a listed struct with
  no enum of its name.

## Model

| member | source | states |
|---|---|---|
| Backend.Default | yodalib/api/decompiler_interface.py:120-290 | the base class with nothing overridden, over the lifter it was given (possibly none): `decompiler_available` is true, `_decompile` raises `NotImplementedError`, every enumerator returns an empty dictionary, every getter `None`, every setter false, and `_set_function` is the base fan-out |
| Decompile.FirstContaining | yodalib/api/decompiler_interface.py:134-140 | the chosen position holds a function whose range `addr <= a < addr + size` contains `a`, and no earlier function's range does; `None` exactly when no function contains `a` |
| Decompile.FindContaining | yodalib/api/decompiler_interface.py:134-139 | the `for ... else` scan returns the first function in enumeration order whose range holds the address, and `None` iff none does |
| Decompile.Resolve | yodalib/api/decompiler_interface.py:132-144 | the raw address is tried first; the lowered address is used only when no function holds the raw one; no function is chosen iff neither address is held |
| Decompile.Caught | yodalib/api/decompiler_interface.py:146-150 | an exception from `_decompile` that is an `Exception` yields `None`; one that derives only from `BaseException` (`KeyboardInterrupt`, `SystemExit`) propagates unchanged; returned text is passed through |
| Decompile.Decompile | yodalib/api/decompiler_interface.py:127-152 | `None` when the decompiler is unavailable; `AttributeError` when it is available and there is no lifter, even if the raw address is held, because both search addresses are computed first; otherwise the caught `_decompile` result of the first function holding `addr`, else of the first holding `lower_addr(addr)`, else `None`; with a lifter the only exception that escapes is one deriving only from `BaseException`; any text comes from a function holding one of the two addresses; the base class given a lifter yields `None` |
| FunctionArtifacts.AnyChangedExists | yodalib/api/decompiler_interface.py:166-175 | the left-to-right OR-assignment fold over `update` is true exactly when some setter call returned true |
| FunctionArtifacts.FanOutAfter | yodalib/api/decompiler_interface.py:166-173 | a header call that returned `c`, made before the stack-variable calls, ORs `c` into their result and leaves the call order and exception behaviour intact |
| FunctionArtifacts.SetStackVariables | yodalib/api/decompiler_interface.py:171-173 | every stack variable, in dictionary order, goes to `_set_stack_variable` with no short-circuit on a true result; the result is the OR of their results; the first exception propagates and no later call is made |
| FunctionArtifacts.SetFunction | yodalib/api/decompiler_interface.py:165-175 | the header setter is called first and only when the header is not `None`; then every stack variable's setter; the result is true iff one call returned true; an exception ends the calls and propagates |
| FunctionArtifacts.GetStackVariable | yodalib/api/decompiler_interface.py:194-199 | `None` when `_get_function` returns `None`; otherwise exactly the entry stored under `offset` in the function's stack variables, and `None` iff there is no such key |
| FunctionArtifacts.ByOffsetKeys | yodalib/api/decompiler_interface.py:205-206 | the per-function dictionary built by `stack_vars[addr][svar.offset] = svar` has exactly the offsets that occur among the variables |
| FunctionArtifacts.ByOffsetLastWins | yodalib/api/decompiler_interface.py:205-206 | on a repeated offset the variable written last is the one kept |
| FunctionArtifacts.CollectByOffset | yodalib/api/decompiler_interface.py:205-206 | the inner loop builds the same dictionary as writing the variables one by one, left to right, under their offsets (the reference `ByOffset`, whose contents `ByOffsetKeys` and `ByOffsetLastWins` state) |
| FunctionArtifacts.CollectStackVariables | yodalib/api/decompiler_interface.py:203-208 | fails with `AttributeError` iff some listed address has no function; otherwise has an entry exactly for the listed addresses whose function has a stack variable, each holding that function's variables by offset |
| FunctionArtifacts.StackVariables | yodalib/api/decompiler_interface.py:201-208 | the same for the addresses `_functions` lists; with no functions (the base class) the result is empty |
| Dispatch.Lookup | yodalib/api/decompiler_interface.py:345-360 | each of the eight concrete classes finds exactly the setter written for it; the bare `Artifact` class and every other class find none |
| Dispatch.Invoke | yodalib/api/decompiler_interface.py:365 | the setter called matches the artifact's kind and its boolean or exception is what is returned; a `Function` goes to the backend's override when there is one, else to the base `_set_function` fan-out |
| Dispatch.Prepared | yodalib/api/decompiler_interface.py:357-358 | the artifact dispatched on is the one given when `lower` is false, and the lifter's lowering of it otherwise; there is none (`AttributeError`, via `lower_artifact` at line 399) exactly when lowering is asked for and there is no lifter |
| Dispatch.SetArtifact | yodalib/api/decompiler_interface.py:331-365 | with `lower` and no lifter, `AttributeError` and no setter is called; otherwise the artifact is lowered iff `lower`; dispatch is on the class of that artifact; no setter is called and false is returned exactly for the bare `Artifact` and unlisted classes; otherwise the one matching setter's result is returned; with the base class's setters the result is false for every artifact, except `AttributeError` when lowering without a lifter |
| GlobalLookup.GlobalArtifacts | yodalib/api/decompiler_interface.py:297-308 | as a map, the result is the union of structs, then global variables, then enums, where a later source overrides an earlier one on the same key |
| GlobalLookup.GlobalArtifactsNames | yodalib/api/decompiler_interface.py:304-308 | the merged dictionary has exactly the struct and enum names; a name that is both a struct and an enum is bound to the enum; a name that is only a struct is bound to its struct |
| GlobalLookup.GlobalArtifactsAddresses | yodalib/api/decompiler_interface.py:304-308 | the merged dictionary has exactly the global variables' addresses, each bound to its variable, because no struct or enum name can equal an address |
| GlobalLookup.DefaultGlobalArtifactsEmpty | yodalib/api/decompiler_interface.py:217-259 | with the base class's enumerators `global_artifacts()` is empty |
| GlobalLookup.GlobalArtifact | yodalib/api/decompiler_interface.py:310-329 | an int is looked up only with `_get_global_var`; a string gives the struct when `_get_struct` returns a truthy one and otherwise exactly what `_get_enum` returns; any other type gives `None` |
| GlobalLookup.LookupAgreesWithListing | yodalib/api/decompiler_interface.py:297-329 | on a backend whose getters find exactly what its enumerators list and whose structs are all truthy, the single lookup finds a key iff the merged listing holds it |
| GlobalLookup.NameCollision | yodalib/api/decompiler_interface.py:304-327 | on a backend whose getters find exactly what its enumerators list and whose structs are all truthy, for a name that is both a struct and an enum the single lookup returns the struct while the listing holds the enum |
| SetEvents.ChooseGuard | yodalib/api/decompiler_interface.py:430 | the real lock is chosen iff it is not held; otherwise the no-op guard is used |
| SetEvents.Enter | yodalib/api/decompiler_interface.py:32-34 | entering `DummyArtifactSetLock` changes nothing and always succeeds; entering the real lock takes it when free and never returns when it is already held |
| SetEvents.Exit | yodalib/api/decompiler_interface.py:36-37 | leaving `DummyArtifactSetLock` changes nothing and always succeeds; leaving the real lock frees it when held and fails (`RuntimeError`) when it is free |
| SetEvents.ChosenGuardBalanced | yodalib/api/decompiler_interface.py:430-431 | the guard chosen for the lock's state can always be entered, and leaving it with the lock held restores the state the handler found |
| SetEvents.Settle | yodalib/api/decompiler_interface.py:432-435 | a `ValueError` from the setter reads as "no change"; any other exception propagates; a returned boolean is kept |
| SetEvents.Handle | yodalib/api/decompiler_interface.py:410-437 | with no lifter, `AttributeError` with the lock untouched and no setter called, since lowering comes first; the lock always ends as it started; with a lifter the real lock is acquired and released exactly once when it was free and never when it was held; the setter receives the lowered artifact, and so does every nested setter, in order, always with the lock held; the handler never blocks on the lock or releases a free lock; its result is the setter's result with `ValueError` as false |
| SetEvents.HandleWith | yodalib/api/decompiler_interface.py:430-437 | once lowered: the lock ends as it started, is acquired and released once iff it was free, every setter in the event tree receives its lowered artifact in order under the held lock, and the result is the setter's with `ValueError` as false |
| SetEvents.HandleFrom | yodalib/api/decompiler_interface.py:429-437 | events fired while a setter runs leave the lock as they found it and, under a held lock, never acquire it; each of their setters receives its lowered artifact under the held lock |
| SetEvents.NoCutOff | yodalib/api/decompiler_interface.py:429-433 | for a backend that fires a set event from inside every setter, `n` levels deep, the handler calls the setter `n + 1` times, each on the lowered artifact under the held lock: taking the lock does not stop a chain of callbacks at any depth |
| SetEvents.CallSetter | yodalib/api/decompiler_interface.py:433 | `setter_func(lowered_artifact, **kwargs)`: a bound setter receives the artifact and its result is the call's; a method's plain function receives the artifact as `self` and nothing for `artifact`, so the call raises `TypeError` before the body runs |
| SetEvents.DecoratedCall | yodalib/api/decompiler_interface.py:24-29 | a setter decorated with `artifact_set_event`, as written, ends in `TypeError` whatever the setter does (`AttributeError` with no lifter), and the lock is restored |
| SetEvents.DecoratedCallBound | yodalib/api/decompiler_interface.py:24-29 | with the method bound to the interface the decorated call returns the setter's own result on the lowered artifact, `ValueError` as false, and the lock is restored |
| SetEvents.DecoratorDropsSelf | yodalib/api/decompiler_interface.py:24-29 | for a setter that reports a change, the bound call returns true while the call as written raises `TypeError` |
| UserTypes.TypeIsUserDefined | yodalib/api/decompiler_interface.py:443-457 | a name is returned iff the string is non-empty, parses, is unknown to the parser and its base name is a struct of the state, and the name is that base name; `AttributeError` iff an unknown type is checked with no state; `None` otherwise |
| Discovery.Discover | yodalib/api/decompiler_interface.py:471-526 | fails iff a non-empty forced name is outside the supported set, and then with that name; otherwise the chosen backend qualifies (detected or forced) and no backend before it in the order IDA, Binja, angr, Ghidra qualifies |
| Discovery.NoSupportedNeverRaised | yodalib/api/decompiler_interface.py:479-524 | the final `raise` is never reached, whatever the probes and the forced name |
| Discovery.DetectionBeatsForcedName | yodalib/api/decompiler_interface.py:509-522 | a backend earlier in the chain wins over a later forced name |
| Discovery.ForcedNameDecidesWhenNothingDetected | yodalib/api/decompiler_interface.py:507-522 | with no backend detected, a valid forced name selects its backend, and with no forced name Ghidra is selected |

## Findings

| source | as written | input that shows it | evidently intended | confidence | as-written member | corrected member |
|---|---|---|---|---|---|---|
| yodalib/api/decompiler_interface.py:24-29 | `artifact_set_event` captures the plain function `f` and the handler calls `setter_func(lowered_artifact, **kwargs)` without `self`, so a decorated `_set_x(self, artifact, **kwargs)` gets the artifact as `self` and no `artifact`, and raises `TypeError`, which `except ValueError` does not catch | any decorated setter, for example one that returns True: the call raises `TypeError` instead of returning True (`SetEvents.DecoratorDropsSelf`) | the handler receives the method bound to the interface, so the setter's result comes back | medium; a reading of lines 27 and 433, not executed | SetEvents.DecoratedCall | SetEvents.DecoratedCallBound |

## Left out

- `yodalib/decompilers/ida/oneliner.py`: it is an installer (downloads, `pip` subprocesses, file-system changes) with no logic the façade uses.
- `_find_global_in_call_frames` and the `import idaapi` / `binaryninja` / `angr` probes: they inspect the environment, so their outcomes are the booleans of `Discovery.Probes`.
- The controller constructors that `discover_interface` calls: they are other classes, not part of this model. `Discovery.Discover` returns which backend would be constructed.
- The names of the supported decompilers and the set that holds them are defined in `yodalib/decompilers/__init__.py`, which is not part of this model. The model takes them to be `"ida"`, `"binja"`, `"angr"` and `"ghidra"`.
- Real `threading.Lock` semantics across threads: only the held/free flag is modelled, so atomicity between checking and acquiring is not.
- Logging (`_l.warning`, `_l.critical`), the UI hooks (`_init_ui_components`, `active_context`, `goto_address`), the empty `on_*_changed` callbacks, and `binary_hash`, `binary_path` and `get_func_size`, which only raise `NotImplementedError`.
- The internals of `ArtifactLifter`, `ArtifactDict` and `CTypeParser`: `lift`, `lower` and `lower_addr` are uninterpreted. Whether a lifter is present is modelled. No lift/lower round trip and no duplicate policy is claimed, because nothing modelled implements them. `lift_artifact` and `lower_artifact` are one-line delegations to the lifter's fields.
- The constructor's `self._error_on_artifact_duplicates = True`, which ignores its argument: only `ArtifactDict` would read it.
- `**kwargs` passed through to setters and getters, and `_set_struct`'s `header`/`members` flags: the base class ignores them.
- SetEvents.Handle: the setter is modelled as a callable whose only positional argument is the artifact. The `*args` the handler accepts (line 411) are dropped at line 433 and are not modelled; `**kwargs` are not modelled either.
- Truthiness of a parsed `CType` is taken to be true, and `type_str = None` is treated like `""` (both are falsy). The truthiness of a `Struct` is an uninterpreted `structTruthy`.
- FunctionArtifacts.StackVariables: its result is a map, so the insertion order of Python's result dictionary is not stated.
- SetEvents.Handle: the events fired while a setter runs are a finite tree given as input, so every modelled run ends. A backend that fires a set event from every setter would recurse until Python raises `RecursionError`; the handler does not cut such chains off, and doing so is left to the callbacks.
- SetEvents.Handle: the outcomes of nested events go to the backend that fired them. Their exceptions are not fed into the outer setter, whose own result is an input.
- GlobalLookup.GlobalArtifacts: the contract is about contents. The iteration order of the merged dictionary (struct keys first, then new global keys, then new enum keys) is not stated.
