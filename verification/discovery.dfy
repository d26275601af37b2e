/** The selection logic of `discover_interface`: which backend to construct,
    from an optional forced name and the outcome of the environment probes
    (whether `idaapi` and `binaryninja` import, and whether `angr` and
    `angrmanagement` import and a `workspace` global is found). */
module Discovery {
  import opened Wrappers

  datatype Decompiler = Ida | Binja | Angr | Ghidra

  /** The names of the supported decompilers. */
  function NameOf(d: Decompiler): string {
    match d
    case Ida => "ida"
    case Binja => "binja"
    case Angr => "angr"
    case Ghidra => "ghidra"
  }

  const Supported: set<string> := {"ida", "binja", "angr", "ghidra"}

  datatype Probes = Probes(hasIda: bool, hasBinja: bool, hasAngr: bool)

  datatype DiscoveryError = UnsupportedDecompiler(name: string) | NoSupportedDecompiler

  /** Python truthiness of `force_decompiler`: `None` and `""` force nothing. */
  predicate Forced(force: Option<string>) {
    force.Some? && force.value != ""
  }

  predicate ForcedTo(force: Option<string>, d: Decompiler) {
    force == Some(NameOf(d))
  }

  /** Whether backend `d` qualifies in the `if`/`elif` chain: detected, or
      named by the forced name; Ghidra is "detected" when nothing else is. */
  predicate Qualifies(p: Probes, force: Option<string>, d: Decompiler) {
    match d
    case Ida => p.hasIda || ForcedTo(force, Ida)
    case Binja => p.hasBinja || ForcedTo(force, Binja)
    case Angr => p.hasAngr || ForcedTo(force, Angr)
    case Ghidra => !(p.hasIda || p.hasBinja || p.hasAngr) || ForcedTo(force, Ghidra)
  }

  /** The fixed priority of the chain. */
  function Rank(d: Decompiler): nat {
    match d
    case Ida => 0
    case Binja => 1
    case Angr => 2
    case Ghidra => 3
  }

  /** `discover_interface(force_decompiler)`, up to the constructor call. */
  function Discover(p: Probes, force: Option<string>): (r: Result<Decompiler, DiscoveryError>)
    ensures r.Failure? <==> Forced(force) && force.value !in Supported
    ensures r.Failure? ==> r.error == UnsupportedDecompiler(force.value)
    ensures r.Success? ==> Qualifies(p, force, r.value)
    ensures r.Success? ==> forall d :: Rank(d) < Rank(r.value) ==> !Qualifies(p, force, d)
  {
    if Forced(force) && force.value !in Supported then Failure(UnsupportedDecompiler(force.value))
    else
      var isGhidra := !(p.hasIda || p.hasBinja || p.hasAngr);
      if p.hasIda || force == Some(NameOf(Ida)) then Success(Ida)
      else if p.hasBinja || force == Some(NameOf(Binja)) then Success(Binja)
      else if p.hasAngr || force == Some(NameOf(Angr)) then Success(Angr)
      else if isGhidra || force == Some(NameOf(Ghidra)) then Success(Ghidra)
      else Failure(NoSupportedDecompiler)
  }

  /** The final `raise` is unreachable: the only error is a forced name
      outside the supported set, whatever the probes say. */
  lemma NoSupportedNeverRaised(p: Probes, force: Option<string>)
    ensures Discover(p, force) != Failure(NoSupportedDecompiler)
  {
  }

  /** A detected backend wins over a later one even when the forced name
      says otherwise: forcing only decides among backends nothing earlier in
      the chain detected. */
  lemma DetectionBeatsForcedName(p: Probes, force: Option<string>, d: Decompiler)
    requires !Forced(force) || force.value in Supported
    requires ForcedTo(force, d)
    requires exists e :: Rank(e) < Rank(d) && Qualifies(p, force, e)
    ensures Discover(p, force).Success? && Discover(p, force).value != d
  {
  }

  /** With nothing detected the forced name decides, and with no forced name
      either the choice is Ghidra. */
  lemma ForcedNameDecidesWhenNothingDetected(p: Probes, force: Option<string>)
    requires !(p.hasIda || p.hasBinja || p.hasAngr)
    requires !Forced(force) || force.value in Supported
    ensures Forced(force) ==> Discover(p, force) == Success(if force.value == "ghidra" then Ghidra else
      if force.value == "ida" then Ida else if force.value == "binja" then Binja else Angr)
    ensures !Forced(force) ==> Discover(p, force) == Success(Ghidra)
  {
  }
}
