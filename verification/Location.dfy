/**
  Where functions may run: overloads for the CPU and the GPU share a name, and the checker
  refuses calls to CPU-only code from code that may run on the GPU.
*/
module Location {
  import opened Wrappers

  type Name = string

  datatype Location = Cpu | Anywhere | Gpu

  /** A direct call: to a name of the caller's own module, or to one of another module. */
  datatype Call = Local(name: Name) | Imported(mod: Name, name: Name)

  datatype Definition = Definition(name: Name, location: Location, calls: seq<Call>)

  /** For each module its function definitions, in source order. */
  type Modules = map<Name, seq<Definition>>

  /** The writer emits a definition for the GPU unless it is tagged for the CPU only. */
  predicate EmittedForGpu(d: Definition) {
    d.location != Cpu
  }

  // ---------------------------------------------------------------- how names are bound

  /** The binding of a name after one more definition: a CPU and a GPU one together count as callable anywhere. */
  function Merged(before: Option<Location>, location: Location): Location {
    if before == Some(Cpu) && location == Gpu then Anywhere
    else if before == Some(Gpu) && location == Cpu then Anywhere
    else location
  }

  /** The binding of a name after the first `n` definitions. */
  function Bound(defs: seq<Definition>, n: nat, name: Name): Option<Location>
    requires n <= |defs|
  {
    if n == 0 then None
    else if defs[n - 1].name == name then Some(Merged(Bound(defs, n - 1, name), defs[n - 1].location))
    else Bound(defs, n - 1, name)
  }

  /** A module's scope: what its function names are bound to. */
  class Scope {
    var bindings: map<Name, Location>

    constructor ()
      ensures bindings == map[]
    {
      bindings := map[];
    }

    method SetVariable(name: Name, location: Location)
      modifies this
      ensures bindings == old(bindings)[name := Merged(old(Lookup(name)), location)]
    {
      if name in bindings {
        if bindings[name] == Cpu && location == Gpu {
          bindings := bindings[name := Anywhere];
          return;
        } else if bindings[name] == Gpu && location == Cpu {
          bindings := bindings[name := Anywhere];
          return;
        }
      }
      bindings := bindings[name := location];
    }

    function Lookup(name: Name): Option<Location>
      reads this
    {
      if name in bindings then Some(bindings[name]) else None
    }
  }

  /** The location an imported name is given: the first definition found, merged with the second. */
  function FirstTwo(defs: seq<Definition>, name: Name, n: nat): Option<Location>
    requires n <= |defs|
    decreases |defs| - n
  {
    if n == |defs| then None
    else if defs[n].name != name then FirstTwo(defs, name, n + 1)
    else Some(WithNext(defs[n].location, Next(defs, name, n + 1)))
  }

  function WithNext(location: Location, next: Option<Location>): Location {
    if location == Cpu && next == Some(Gpu) then Anywhere
    else if location == Gpu && next == Some(Cpu) then Anywhere
    else location
  }

  /** The location of the first definition of a name from position `n`. */
  function Next(defs: seq<Definition>, name: Name, n: nat): Option<Location>
    requires n <= |defs|
    decreases |defs| - n
  {
    if n == |defs| then None
    else if defs[n].name == name then Some(defs[n].location)
    else Next(defs, name, n + 1)
  }

  method LookupFunction(defs: seq<Definition>, name: Name) returns (found: Option<Location>)
    ensures found == FirstTwo(defs, name, 0)
  {
    found := None;
    var i := 0;
    while i < |defs|
      invariant 0 <= i <= |defs|
      invariant found == None ==> FirstTwo(defs, name, 0) == FirstTwo(defs, name, i)
      invariant found.Some? ==> FirstTwo(defs, name, 0) == Some(WithNext(found.value, Next(defs, name, i)))
    {
      if defs[i].name == name {
        if found.Some? {
          if found.value == Cpu && defs[i].location == Gpu {
            found := Some(Anywhere);
          } else if found.value == Gpu && defs[i].location == Cpu {
            found := Some(Anywhere);
          }
          return;
        } else {
          found := Some(defs[i].location);
        }
      }
      i := i + 1;
    }
  }

  // ---------------------------------------------------------------- the check

  /** The location the checker gives to what a call names. */
  function CallLocation(modules: Modules, mod: Name, call: Call): Option<Location>
    requires mod in modules
  {
    match call
    case Local(name) => Bound(modules[mod], |modules[mod]|, name)
    case Imported(other, name) => if other in modules then FirstTwo(modules[other], name, 0) else None
  }

  /** A call passes when its name is known and, if that is CPU-only, the caller is too. */
  predicate CallAllowed(modules: Modules, mod: Name, d: Definition, call: Call)
    requires mod in modules
  {
    match CallLocation(modules, mod, call)
    case None => false
    case Some(location) => location == Cpu ==> d.location == Cpu
  }

  predicate ModuleAllowed(modules: Modules, mod: Name)
    requires mod in modules
  {
    forall i, j :: 0 <= i < |modules[mod]| && 0 <= j < |modules[mod][i].calls| ==>
      CallAllowed(modules, mod, modules[mod][i], modules[mod][i].calls[j])
  }

  /** What the checker carries through a pass. */
  class CheckContext {
    var inCpuMethodCount: int
    var inGpuMethodCount: int
    var clean: bool

    constructor ()
      ensures inCpuMethodCount == 0 && inGpuMethodCount == 0 && clean
    {
      inCpuMethodCount, inGpuMethodCount, clean := 0, 0, true;
    }

    method Enter(location: Location)
      modifies this
      ensures clean == old(clean)
      ensures inCpuMethodCount == old(inCpuMethodCount) + (if location == Cpu then 1 else 0)
      ensures inGpuMethodCount == old(inGpuMethodCount) + (if location == Gpu then 1 else 0)
    {
      match location
      case Gpu => inGpuMethodCount := inGpuMethodCount + 1;
      case Cpu => inCpuMethodCount := inCpuMethodCount + 1;
      case Anywhere =>
    }

    method Leave(location: Location)
      modifies this
      ensures clean == old(clean)
      ensures inCpuMethodCount == old(inCpuMethodCount) - (if location == Cpu then 1 else 0)
      ensures inGpuMethodCount == old(inGpuMethodCount) - (if location == Gpu then 1 else 0)
    {
      match location
      case Gpu => inGpuMethodCount := inGpuMethodCount - 1;
      case Cpu => inCpuMethodCount := inCpuMethodCount - 1;
      case Anywhere =>
    }

    method NoteCpuRequired()
      modifies this`clean
      ensures clean == (old(clean) && inCpuMethodCount != 0)
    {
      if inCpuMethodCount == 0 {
        clean := false;
      }
    }

    /** The location part of checking one call. */
    method CheckCall(modules: Modules, mod: Name, call: Call, scope: Scope, ghost d: Definition)
      requires mod in modules && clean && scope.Lookup(call.name) == Bound(modules[mod], |modules[mod]|, call.name)
      requires inCpuMethodCount != 0 <==> d.location == Cpu
      modifies this`clean
      ensures clean <==> CallAllowed(modules, mod, d, call)
      ensures clean <==> Answered(modules, mod, d, call)
    {
      CallMeans(modules, mod, d, call);
      var location: Option<Location>;
      match call {
        case Local(name) => location := scope.Lookup(name);
        case Imported(other, name) =>
          if other in modules {
            location := LookupFunction(modules[other], name);
          } else {
            location := None;
          }
      }
      if location == None {
        clean := false;
      } else if location.value == Cpu {
        NoteCpuRequired();
      }
    }
  }

  /** Binds every function of a module, then checks every call in it, stopping at the first error. */
  method CheckModule(modules: Modules, mod: Name) returns (clean: bool)
    requires mod in modules
    ensures clean <==> ModuleAllowed(modules, mod)
    ensures clean <==> EachAnswered(modules, mod)
    ensures NamesProper(modules, mod) ==> (clean <==> EachHasCode(modules, mod))
  {
    hide Answered, EachAnswered, EachHasCode, NamesProper;
    ModuleMeans(modules, mod);
    var defs := modules[mod];
    var scope := new Scope();
    for i := 0 to |defs|
      invariant forall name :: scope.Lookup(name) == Bound(defs, i, name)
    {
      scope.SetVariable(defs[i].name, defs[i].location);
    }
    var ctx := new CheckContext();
    for i := 0 to |defs|
      invariant ctx.clean && ctx.inCpuMethodCount == 0 && ctx.inGpuMethodCount == 0
      invariant forall name :: scope.Lookup(name) == Bound(defs, |defs|, name)
      invariant forall k, j :: 0 <= k < i && 0 <= j < |defs[k].calls| ==>
                CallAllowed(modules, mod, defs[k], defs[k].calls[j])
    {
      ctx.Enter(defs[i].location);
      for j := 0 to |defs[i].calls|
        invariant ctx.clean && ctx.inCpuMethodCount == (if defs[i].location == Cpu then 1 else 0)
        invariant ctx.inGpuMethodCount == (if defs[i].location == Gpu then 1 else 0)
        invariant forall name :: scope.Lookup(name) == Bound(defs, |defs|, name)
        invariant forall k :: 0 <= k < j ==> CallAllowed(modules, mod, defs[i], defs[i].calls[k])
      {
        ctx.CheckCall(modules, mod, defs[i].calls[j], scope, defs[i]);
        if !ctx.clean {
          return false;
        }
      }
      ctx.Leave(defs[i].location);
    }
    clean := true;
  }

  // ---------------------------------------------------------------- soundness

  /** One of the two places code can run. */
  type Side = l: Location | l != Anywhere witness Cpu

  function Opposite(side: Side): Side {
    if side == Cpu then Gpu else Cpu
  }

  /** The writer emits a definition for a side unless it is tagged for the other only. */
  predicate EmittedFor(side: Side, d: Definition) {
    d.location != Opposite(side)
  }

  /** Some definition of the name is emitted for the side. */
  ghost predicate HasCode(side: Side, defs: seq<Definition>, name: Name) {
    exists i :: 0 <= i < |defs| && defs[i].name == name && EmittedFor(side, defs[i])
  }

  /** Some definition of the name is emitted for the GPU. */
  ghost predicate HasGpuCode(defs: seq<Definition>, name: Name) {
    HasCode(Gpu, defs, name)
  }

  /** The definitions a call can reach. */
  function CalledDefinitions(modules: Modules, mod: Name, call: Call): seq<Definition>
    requires mod in modules
  {
    match call
    case Local(_) => modules[mod]
    case Imported(other, _) => if other in modules then modules[other] else []
  }

  /** Whatever the order of the definitions, a binding that is not for one side only has code for the other. */
  lemma {:induction false} BindingHasCode(side: Side, defs: seq<Definition>, n: nat, name: Name)
    requires n <= |defs| && Bound(defs, n, name).Some? && Bound(defs, n, name).value != Opposite(side)
    ensures HasCode(side, defs, name)
  {
    if defs[n - 1].name == name && EmittedFor(side, defs[n - 1]) {
    } else {
      BindingHasCode(side, defs, n - 1, name);
    }
  }

  lemma BindingHasGpuCode(defs: seq<Definition>, n: nat, name: Name)
    requires n <= |defs| && Bound(defs, n, name).Some? && Bound(defs, n, name).value != Cpu
    ensures HasGpuCode(defs, name)
  {
    BindingHasCode(Gpu, defs, n, name);
  }

  lemma {:induction false} NextHasCode(side: Side, defs: seq<Definition>, name: Name, n: nat)
    requires n <= |defs| && Next(defs, name, n) == Some(side)
    ensures HasCode(side, defs, name)
    decreases |defs| - n
  {
    if defs[n].name == name {
      assert EmittedFor(side, defs[n]);
    } else {
      NextHasCode(side, defs, name, n + 1);
    }
  }

  /** The same for the binding of an imported name. */
  lemma {:induction false} ImportHasCode(side: Side, defs: seq<Definition>, name: Name, n: nat)
    requires n <= |defs| && FirstTwo(defs, name, n).Some? && FirstTwo(defs, name, n).value != Opposite(side)
    ensures HasCode(side, defs, name)
    decreases |defs| - n
  {
    if defs[n].name != name {
      ImportHasCode(side, defs, name, n + 1);
    } else if defs[n].location == Opposite(side) {
      NextHasCode(side, defs, name, n + 1);
    } else {
      assert EmittedFor(side, defs[n]);
    }
  }

  lemma ImportHasGpuCode(defs: seq<Definition>, name: Name, n: nat)
    requires n <= |defs| && FirstTwo(defs, name, n).Some? && FirstTwo(defs, name, n).value != Cpu
    ensures HasGpuCode(defs, name)
  {
    ImportHasCode(Gpu, defs, name, n);
  }

  /** In a checked program every direct call in code emitted for the GPU names code emitted for the GPU. */
  lemma GpuCallsGpu(modules: Modules, mod: Name, i: nat, j: nat)
    requires mod in modules && ModuleAllowed(modules, mod)
    requires i < |modules[mod]| && j < |modules[mod][i].calls| && EmittedForGpu(modules[mod][i])
    ensures var call := modules[mod][i].calls[j];
            HasGpuCode(CalledDefinitions(modules, mod, call), call.name)
  {
    var d := modules[mod][i];
    var call := d.calls[j];
    assert CallAllowed(modules, mod, d, call);
    match call
    case Local(name) => BindingHasGpuCode(modules[mod], |modules[mod]|, name);
    case Imported(other, name) => ImportHasGpuCode(modules[other], name, 0);
  }

  /** One function calling another, module and position each. */
  datatype Function = Function(mod: Name, at: nat)

  predicate Exists(modules: Modules, f: Function) {
    f.mod in modules && f.at < |modules[f.mod]|
  }

  predicate GpuCode(modules: Modules, f: Function)
    requires Exists(modules, f)
  {
    EmittedForGpu(modules[f.mod][f.at])
  }

  /** What a call resolves to where only the GPU's definitions are. */
  ghost predicate ResolvesOnGpu(modules: Modules, mod: Name, call: Call, g: Function) {
    && Exists(modules, g) && GpuCode(modules, g)
    && g.mod == (match call case Local(_) => mod case Imported(other, _) => other)
    && modules[g.mod][g.at].name == call.name
  }

  ghost predicate CallsOnGpu(modules: Modules, f: Function, g: Function) {
    Exists(modules, f) &&
    exists j :: 0 <= j < |modules[f.mod][f.at].calls| && ResolvesOnGpu(modules, f.mod, modules[f.mod][f.at].calls[j], g)
  }

  /** A chain of direct calls as the GPU makes them. */
  ghost predicate GpuChain(modules: Modules, fs: seq<Function>) {
    && fs != [] && Exists(modules, fs[0]) && GpuCode(modules, fs[0])
    && forall k :: 0 <= k < |fs| - 1 ==> CallsOnGpu(modules, fs[k], fs[k + 1])
  }

  /** In a checked program no call is left open however far code emitted for the GPU calls on: from its first
      function, every call in every function of the chain resolves to a definition emitted for the GPU. */
  lemma {:induction false} ChainStaysOnGpu(modules: Modules, fs: seq<Function>, k: nat, j: nat) returns (g: Function)
    requires forall mod :: mod in modules ==> ModuleAllowed(modules, mod)
    requires GpuChain(modules, fs) && k < |fs|
    requires Exists(modules, fs[k]) ==> j < |modules[fs[k].mod][fs[k].at].calls|
    ensures Exists(modules, fs[k]) && GpuCode(modules, fs[k]) && j < |modules[fs[k].mod][fs[k].at].calls|
    ensures ResolvesOnGpu(modules, fs[k].mod, modules[fs[k].mod][fs[k].at].calls[j], g)
    ensures GpuChain(modules, fs[..k + 1] + [g])
  {
    var f := fs[k];
    if k > 0 {
      assert CallsOnGpu(modules, fs[k - 1], fs[k - 1 + 1]);
    }
    GpuCallsGpu(modules, f.mod, f.at, j);
    var call := modules[f.mod][f.at].calls[j];
    var defs := CalledDefinitions(modules, f.mod, call);
    var i :| 0 <= i < |defs| && defs[i].name == call.name && EmittedFor(Gpu, defs[i]);
    g := Function(match call case Local(_) => f.mod case Imported(other, _) => other, i);
    assert ResolvesOnGpu(modules, f.mod, call, g);
    var longer := fs[..k + 1] + [g];
    forall m | 0 <= m < |longer| - 1
      ensures CallsOnGpu(modules, longer[m], longer[m + 1])
    {
      if m < k {
        assert CallsOnGpu(modules, fs[m], fs[m + 1]);
      }
    }
  }

  // ---------------------------------------------------------------- how tight the binding is

  /** The locations a name is defined for, in source order. */
  function LocationsOf(defs: seq<Definition>, n: nat, name: Name): seq<Location>
    requires n <= |defs|
  {
    if n == 0 then []
    else LocationsOf(defs, n - 1, name) + if defs[n - 1].name == name then [defs[n - 1].location] else []
  }

  /** Defined once, or once for each side. */
  predicate ProperOverloads(locations: seq<Location>) {
    |locations| == 1 || locations == [Cpu, Gpu] || locations == [Gpu, Cpu]
  }

  function Fold(locations: seq<Location>): Option<Location> {
    if locations == [] then None
    else Some(Merged(Fold(locations[..|locations| - 1]), locations[|locations| - 1]))
  }

  lemma FoldProper(locations: seq<Location>)
    requires ProperOverloads(locations)
    ensures Fold(locations) == Some(if |locations| == 1 then locations[0] else Anywhere)
  {
    assert locations[..|locations| - 1][..0] == [];
    assert Fold([]) == None;
    if |locations| == 2 {
      assert locations[..1] == [locations[0]];
      assert [locations[0]][..0] == [];
      assert Fold(locations[..1]) == Some(locations[0]);
    }
  }

  lemma {:induction false} BoundByLocations(defs: seq<Definition>, n: nat, name: Name)
    requires n <= |defs|
    ensures Bound(defs, n, name) == Fold(LocationsOf(defs, n, name))
  {
    if n != 0 {
      BoundByLocations(defs, n - 1, name);
      var before := LocationsOf(defs, n - 1, name);
      assert before + [] == before;
      assert (before + [defs[n - 1].location])[..|before|] == before;
    }
  }

  // ---------------------------------------------------------------- imported names

  function LocationsFrom(defs: seq<Definition>, name: Name, n: nat): seq<Location>
    requires n <= |defs|
    decreases |defs| - n
  {
    if n == |defs| then []
    else (if defs[n].name == name then [defs[n].location] else []) + LocationsFrom(defs, name, n + 1)
  }

  lemma {:induction false} LocationsSplit(defs: seq<Definition>, name: Name, n: nat)
    requires n <= |defs|
    ensures LocationsOf(defs, n, name) + LocationsFrom(defs, name, n) == LocationsOf(defs, |defs|, name)
    decreases |defs| - n
  {
    if n < |defs| {
      LocationsSplit(defs, name, n + 1);
      var here := if defs[n].name == name then [defs[n].location] else [];
      assert LocationsOf(defs, n, name) + (here + LocationsFrom(defs, name, n + 1))
          == LocationsOf(defs, n, name) + here + LocationsFrom(defs, name, n + 1);
    }
  }

  /** The binding of an imported name, from its locations: only the first two count. */
  function FirstFold(locations: seq<Location>): Option<Location> {
    if locations == [] then None
    else Some(WithNext(locations[0], if |locations| > 1 then Some(locations[1]) else None))
  }

  lemma {:induction false} NextByLocations(defs: seq<Definition>, name: Name, n: nat)
    requires n <= |defs|
    ensures var ls := LocationsFrom(defs, name, n);
            Next(defs, name, n) == if ls == [] then None else Some(ls[0])
    decreases |defs| - n
  {
    if n < |defs| && defs[n].name != name {
      NextByLocations(defs, name, n + 1);
      assert [] + LocationsFrom(defs, name, n + 1) == LocationsFrom(defs, name, n + 1);
    }
  }

  lemma {:induction false} ImportByLocations(defs: seq<Definition>, name: Name, n: nat)
    requires n <= |defs|
    ensures FirstTwo(defs, name, n) == FirstFold(LocationsFrom(defs, name, n))
    decreases |defs| - n
  {
    if n < |defs| {
      if defs[n].name != name {
        ImportByLocations(defs, name, n + 1);
        assert [] + LocationsFrom(defs, name, n + 1) == LocationsFrom(defs, name, n + 1);
      } else {
        NextByLocations(defs, name, n + 1);
      }
    }
  }

  /** Both bindings of a name, from the locations of its definitions. */
  lemma BindingsByLocations(defs: seq<Definition>, name: Name)
    ensures Bound(defs, |defs|, name) == Fold(LocationsOf(defs, |defs|, name))
    ensures FirstTwo(defs, name, 0) == FirstFold(LocationsOf(defs, |defs|, name))
  {
    BoundByLocations(defs, |defs|, name);
    ImportByLocations(defs, name, 0);
    LocationsSplit(defs, name, 0);
    assert [] + LocationsFrom(defs, name, 0) == LocationsFrom(defs, name, 0);
  }

  // ---------------------------------------------------------------- exactly when a binding hides code

  /** The locations include one whose code is emitted for the side. */
  predicate SomeFor(side: Side, locations: seq<Location>) {
    exists i :: 0 <= i < |locations| && locations[i] != Opposite(side)
  }

  lemma {:induction false} CodeByLocations(side: Side, defs: seq<Definition>, n: nat, name: Name)
    requires n <= |defs|
    ensures SomeFor(side, LocationsOf(defs, n, name))
       <==> exists i :: 0 <= i < n && defs[i].name == name && EmittedFor(side, defs[i])
  {
    if n > 0 {
      CodeByLocations(side, defs, n - 1, name);
      var before, ls := LocationsOf(defs, n - 1, name), LocationsOf(defs, n, name);
      if SomeFor(side, before) {
        var k :| 0 <= k < |before| && before[k] != Opposite(side);
        assert ls[k] != Opposite(side);
      }
      if defs[n - 1].name == name {
        assert ls[|before|] == defs[n - 1].location;
      } else {
        assert before + [] == before;
      }
      if SomeFor(side, ls) {
        var k :| 0 <= k < |ls| && ls[k] != Opposite(side);
        if k < |before| {
          assert before[k] != Opposite(side);
        }
      }
    }
  }

  predicate OppositeSides(a: Location, b: Location) {
    (a == Cpu && b == Gpu) || (a == Gpu && b == Cpu)
  }

  /** How many definitions at the end alternate between the CPU and the GPU. */
  function Alternation(locations: seq<Location>): nat {
    var n := |locations|;
    if n == 0 || locations[n - 1] == Anywhere then 0
    else if n > 1 && OppositeSides(locations[n - 2], locations[n - 1]) then 1 + Alternation(locations[..n - 1])
    else 1
  }

  /** Every second definition of an alternation merges with the one before it, and the next one overwrites that. */
  lemma {:induction false} FoldByAlternation(locations: seq<Location>)
    requires locations != []
    ensures Fold(locations)
         == Some(if Alternation(locations) % 2 == 1 then locations[|locations| - 1] else Anywhere)
  {
    var n := |locations|;
    if n > 1 {
      FoldByAlternation(locations[..n - 1]);
    } else {
      assert locations[..n - 1] == [];
    }
  }

  /** A name with code for a side is bound, in its own module, to the other side only, exactly when its last
      definition is for the other side and ends an alternation of odd length. */
  lemma BindingHidesExactlyWhen(side: Side, defs: seq<Definition>, name: Name)
    requires LocationsOf(defs, |defs|, name) != []
    ensures var ls := LocationsOf(defs, |defs|, name);
            (Bound(defs, |defs|, name) == Some(Opposite(side)) && HasCode(side, defs, name)
             <==> HidesHere(side, ls))
  {
    BindingsByLocations(defs, name);
    CodeByLocations(side, defs, |defs|, name);
    FoldByAlternation(LocationsOf(defs, |defs|, name));
  }

  predicate HidesHere(side: Side, ls: seq<Location>) {
    ls != [] && ls[|ls| - 1] == Opposite(side) && Alternation(ls) % 2 == 1 && SomeFor(side, ls)
  }

  /** And in other modules exactly when its first definition is for the other side and the second, if any, is not
      for this side only. */
  lemma ImportHidesExactlyWhen(side: Side, defs: seq<Definition>, name: Name)
    requires LocationsOf(defs, |defs|, name) != []
    ensures var ls := LocationsOf(defs, |defs|, name);
            (FirstTwo(defs, name, 0) == Some(Opposite(side)) && HasCode(side, defs, name)
             <==> HidesFromImporters(side, ls))
  {
    BindingsByLocations(defs, name);
    CodeByLocations(side, defs, |defs|, name);
  }

  predicate HidesFromImporters(side: Side, ls: seq<Location>) {
    ls != [] && ls[0] == Opposite(side) && !(|ls| > 1 && ls[1] == side) && SomeFor(side, ls)
  }

  /** A module and its importers bind a name alike exactly when: if the first two definitions are for opposite sides
      or the first is for both, the alternation at the end has even length; otherwise it has odd length and the last
      definition is like the first. */
  lemma BindingsAgreeExactlyWhen(defs: seq<Definition>, name: Name)
    requires LocationsOf(defs, |defs|, name) != []
    ensures var ls := LocationsOf(defs, |defs|, name);
            (Bound(defs, |defs|, name) == FirstTwo(defs, name, 0)
             <==> if ls[0] == Anywhere || (|ls| > 1 && OppositeSides(ls[0], ls[1]))
                  then Alternation(ls) % 2 == 0
                  else Alternation(ls) % 2 == 1 && ls[|ls| - 1] == ls[0])
  {
    BindingsByLocations(defs, name);
    FoldByAlternation(LocationsOf(defs, |defs|, name));
  }

  /** For a name defined once, or once for the CPU and once for the GPU, both bindings are exact, agree, and do not
      depend on the order: they are for one side only just when the name has no code for the other. */
  lemma ProperBindingIsExact(side: Side, defs: seq<Definition>, name: Name)
    requires ProperOverloads(LocationsOf(defs, |defs|, name))
    ensures Bound(defs, |defs|, name).Some? && FirstTwo(defs, name, 0) == Bound(defs, |defs|, name)
    ensures Bound(defs, |defs|, name).value == Opposite(side) <==> !HasCode(side, defs, name)
  {
    BindingsByLocations(defs, name);
    CodeByLocations(side, defs, |defs|, name);
    var ls := LocationsOf(defs, |defs|, name);
    FoldProper(ls);
    if |ls| == 2 {
      assert ls[0] != Opposite(side) || ls[1] != Opposite(side);
    }
  }

  /** Two definitions are enough to hide GPU code: from the module itself, or from its importers. */
  lemma SecondDefinitionHidesGpuCode(name: Name)
    ensures var defs := [Definition(name, Anywhere, []), Definition(name, Cpu, [])];
            Bound(defs, 2, name) == Some(Cpu) && FirstTwo(defs, name, 0) == Some(Anywhere) && HasGpuCode(defs, name)
    ensures var defs := [Definition(name, Cpu, []), Definition(name, Anywhere, [])];
            Bound(defs, 2, name) == Some(Anywhere) && FirstTwo(defs, name, 0) == Some(Cpu) && HasGpuCode(defs, name)
  {
    var defs := [Definition(name, Anywhere, []), Definition(name, Cpu, [])];
    assert Bound(defs, 1, name) == Some(Anywhere);
    assert EmittedFor(Gpu, defs[0]);
    var swapped := [Definition(name, Cpu, []), Definition(name, Anywhere, [])];
    assert Bound(swapped, 1, name) == Some(Cpu);
    assert Next(swapped, name, 1) == Some(Anywhere);
    assert EmittedFor(Gpu, swapped[1]);
  }

  // ---------------------------------------------------------------- exactly which programs pass

  ghost predicate Defined(defs: seq<Definition>, name: Name) {
    exists k :: 0 <= k < |defs| && defs[k].name == name
  }

  /** The name is bound to the CPU only where it is called: in its own module when the definitions that end its list
      alternate an odd number of times, down to one for the CPU; elsewhere when the first is for the CPU and the
      second is not for the GPU. */
  predicate CpuOnly(modules: Modules, mod: Name, call: Call)
    requires mod in modules
  {
    var defs := CalledDefinitions(modules, mod, call);
    var ls := LocationsOf(defs, |defs|, call.name);
    && ls != []
    && if call.Local? then ls[|ls| - 1] == Cpu && Alternation(ls) % 2 == 1
       else ls[0] == Cpu && !(|ls| > 1 && ls[1] == Gpu)
  }

  /** The name called is defined, and the caller is for the CPU only if the name is. */
  ghost predicate Answered(modules: Modules, mod: Name, d: Definition, call: Call)
    requires mod in modules
  {
    Defined(CalledDefinitions(modules, mod, call), call.name) && (CpuOnly(modules, mod, call) ==> d.location == Cpu)
  }

  /** The name called is defined, and has code for the GPU if the caller has. */
  ghost predicate HasCodeFor(modules: Modules, mod: Name, d: Definition, call: Call)
    requires mod in modules
  {
    var defs := CalledDefinitions(modules, mod, call);
    && Defined(defs, call.name)
    && (d.location != Cpu ==> exists k :: 0 <= k < |defs| && defs[k].name == call.name && defs[k].location != Cpu)
  }

  ghost predicate EachAnswered(modules: Modules, mod: Name)
    requires mod in modules
  {
    forall i, j :: 0 <= i < |modules[mod]| && 0 <= j < |modules[mod][i].calls| ==>
      Answered(modules, mod, modules[mod][i], modules[mod][i].calls[j])
  }

  ghost predicate EachHasCode(modules: Modules, mod: Name)
    requires mod in modules
  {
    forall i, j :: 0 <= i < |modules[mod]| && 0 <= j < |modules[mod][i].calls| ==>
      HasCodeFor(modules, mod, modules[mod][i], modules[mod][i].calls[j])
  }

  /** The names a module calls are defined once or once for each side, if at all. */
  ghost predicate NamesProper(modules: Modules, mod: Name)
    requires mod in modules
  {
    forall i, j :: 0 <= i < |modules[mod]| && 0 <= j < |modules[mod][i].calls| ==>
      ProperName(modules, mod, modules[mod][i].calls[j])
  }

  ghost predicate ProperName(modules: Modules, mod: Name, call: Call)
    requires mod in modules
  {
    var defs := CalledDefinitions(modules, mod, call);
    Defined(defs, call.name) ==> ProperOverloads(LocationsOf(defs, |defs|, call.name))
  }

  lemma {:induction false} DefinedByLocations(defs: seq<Definition>, n: nat, name: Name)
    requires n <= |defs|
    ensures LocationsOf(defs, n, name) != [] <==> exists k :: 0 <= k < n && defs[k].name == name
  {
    if n > 0 {
      DefinedByLocations(defs, n - 1, name);
    }
  }

  /** One call, from the definitions alone.  A call from CPU-only code to a defined name always passes. */
  lemma CallMeans(modules: Modules, mod: Name, d: Definition, call: Call)
    requires mod in modules
    ensures CallAllowed(modules, mod, d, call) <==> Answered(modules, mod, d, call)
    ensures ProperName(modules, mod, call) ==>
              (CallAllowed(modules, mod, d, call) <==> HasCodeFor(modules, mod, d, call))
    ensures (d.location == Cpu ==>
               (CallAllowed(modules, mod, d, call) <==> Defined(CalledDefinitions(modules, mod, call), call.name)))
  {
    var defs := CalledDefinitions(modules, mod, call);
    var ls := LocationsOf(defs, |defs|, call.name);
    DefinedByLocations(defs, |defs|, call.name);
    BindingsByLocations(defs, call.name);
    if ls != [] {
      FoldByAlternation(ls);
      if ProperOverloads(ls) {
        ProperBindingIsExact(Gpu, defs, call.name);
      }
    }
  }

  lemma ModuleMeans(modules: Modules, mod: Name)
    requires mod in modules
    ensures ModuleAllowed(modules, mod) <==> EachAnswered(modules, mod)
    ensures NamesProper(modules, mod) ==> (ModuleAllowed(modules, mod) <==> EachHasCode(modules, mod))
  {
    hide CallAllowed, Answered, HasCodeFor, ProperName;
    forall i, j | 0 <= i < |modules[mod]| && 0 <= j < |modules[mod][i].calls|
      ensures var d := modules[mod][i];
              && (CallAllowed(modules, mod, d, d.calls[j]) <==> Answered(modules, mod, d, d.calls[j]))
              && (ProperName(modules, mod, d.calls[j]) ==>
                    (CallAllowed(modules, mod, d, d.calls[j]) <==> HasCodeFor(modules, mod, d, d.calls[j])))
    {
      CallMeans(modules, mod, modules[mod][i], modules[mod][i].calls[j]);
    }
  }

  // ---------------------------------------------------------------- CPU code

  /** Every direct call in code emitted for the CPU names code emitted for the CPU. */
  ghost predicate CpuCallsCpu(modules: Modules) {
    forall mod, i, j :: mod in modules && 0 <= i < |modules[mod]| && EmittedFor(Cpu, modules[mod][i])
                     && 0 <= j < |modules[mod][i].calls|
      ==> HasCode(Cpu, CalledDefinitions(modules, mod, modules[mod][i].calls[j]), modules[mod][i].calls[j].name)
  }

  /** No call in code emitted for the CPU is to a name bound to the GPU only. */
  predicate NoCallToGpuOnly(modules: Modules) {
    forall mod, i, j :: mod in modules && 0 <= i < |modules[mod]| && EmittedFor(Cpu, modules[mod][i])
                     && 0 <= j < |modules[mod][i].calls|
      ==> CallLocation(modules, mod, modules[mod][i].calls[j]) != Some(Gpu)
  }

  /** Every name called is defined once, or once for each side. */
  predicate CallsProper(modules: Modules) {
    forall mod, i, j :: mod in modules && 0 <= i < |modules[mod]| && 0 <= j < |modules[mod][i].calls|
      ==> var call := modules[mod][i].calls[j];
          var defs := CalledDefinitions(modules, mod, call);
          ProperOverloads(LocationsOf(defs, |defs|, call.name))
  }

  /** The binding a call is checked with hides CPU code from it. */
  predicate HidesCpuCode(modules: Modules, mod: Name, call: Call)
    requires mod in modules
  {
    var defs := CalledDefinitions(modules, mod, call);
    var ls := LocationsOf(defs, |defs|, call.name);
    if call.Local? then HidesHere(Cpu, ls) else HidesFromImporters(Cpu, ls)
  }

  /** Every call in CPU code to a name bound to the GPU only is to one whose binding hides CPU code. */
  predicate GpuOnlyCallsHide(modules: Modules) {
    forall mod, i, j :: mod in modules && 0 <= i < |modules[mod]| && EmittedFor(Cpu, modules[mod][i])
                     && 0 <= j < |modules[mod][i].calls|
      ==> (CallLocation(modules, mod, modules[mod][i].calls[j]) == Some(Gpu)
           ==> HidesCpuCode(modules, mod, modules[mod][i].calls[j]))
  }

  /** The check does not note that a call needs the GPU, so CPU code may call GPU-only code.  In a checked program
      CPU code calls only CPU code exactly when each of its calls to a name bound to the GPU only is to one whose
      definitions hide CPU code.  In particular it does when there is no such call, and where called names are
      properly overloaded only then. */
  lemma CpuCallsCpuExactlyWhen(modules: Modules)
    requires forall mod :: mod in modules ==> ModuleAllowed(modules, mod)
    ensures CpuCallsCpu(modules) <==> GpuOnlyCallsHide(modules)
    ensures NoCallToGpuOnly(modules) ==> CpuCallsCpu(modules)
    ensures CallsProper(modules) ==> (CpuCallsCpu(modules) <==> NoCallToGpuOnly(modules))
  {
    forall mod, i, j | mod in modules && 0 <= i < |modules[mod]| && 0 <= j < |modules[mod][i].calls|
      ensures var call := modules[mod][i].calls[j];
              (HasCode(Cpu, CalledDefinitions(modules, mod, call), call.name)
               <==> (CallLocation(modules, mod, call) == Some(Gpu) ==> HidesCpuCode(modules, mod, call)))
      ensures var call := modules[mod][i].calls[j];
              var defs := CalledDefinitions(modules, mod, call);
              ProperOverloads(LocationsOf(defs, |defs|, call.name)) ==>
                (HasCode(Cpu, defs, call.name) <==> CallLocation(modules, mod, call) != Some(Gpu))
    {
      var call := modules[mod][i].calls[j];
      assert CallAllowed(modules, mod, modules[mod][i], call);
      CpuCodeOf(modules, mod, call);
      var defs := CalledDefinitions(modules, mod, call);
      if ProperOverloads(LocationsOf(defs, |defs|, call.name)) {
        ProperBindingIsExact(Cpu, defs, call.name);
      }
    }
  }

  /** One call: the name has CPU code unless it is bound to the GPU only and hides none. */
  lemma CpuCodeOf(modules: Modules, mod: Name, call: Call)
    requires mod in modules && CallLocation(modules, mod, call).Some?
    ensures HasCode(Cpu, CalledDefinitions(modules, mod, call), call.name)
       <==> (CallLocation(modules, mod, call) == Some(Gpu) ==> HidesCpuCode(modules, mod, call))
  {
    var defs := CalledDefinitions(modules, mod, call);
    BindingsByLocations(defs, call.name);
    if CallLocation(modules, mod, call) != Some(Gpu) {
      match call
      case Local(name) => BindingHasCode(Cpu, defs, |defs|, name);
      case Imported(other, name) => ImportHasCode(Cpu, defs, name, 0);
    } else {
      match call
      case Local(name) => BindingHidesExactlyWhen(Cpu, defs, name);
      case Imported(other, name) => ImportHidesExactlyWhen(Cpu, defs, name);
    }
  }

  /** The input: a CPU function that calls a GPU-only one passes the check. */
  lemma CpuCallToGpuOnlyPasses(mod: Name, f: Name, g: Name)
    requires f != g
    ensures var modules := map[mod := [Definition(f, Cpu, [Local(g)]), Definition(g, Gpu, [])]];
            ModuleAllowed(modules, mod) && !HasCode(Cpu, modules[mod], g)
  {
    var defs := [Definition(f, Cpu, [Local(g)]), Definition(g, Gpu, [])];
    assert Bound(defs, 1, g) == None;
    assert Bound(defs, 2, g) == Some(Gpu);
  }

  /** With more definitions the binding may forget GPU code: a third one, for the CPU again, hides it. */
  lemma ThirdDefinitionHidesGpuCode(name: Name)
    ensures var defs := [Definition(name, Cpu, []), Definition(name, Gpu, []), Definition(name, Cpu, [])];
            Bound(defs, 3, name) == Some(Cpu) && HasGpuCode(defs, name)
  {
    var defs := [Definition(name, Cpu, []), Definition(name, Gpu, []), Definition(name, Cpu, [])];
    assert Bound(defs, 1, name) == Some(Cpu);
    assert Bound(defs, 2, name) == Some(Anywhere);
    assert EmittedFor(Gpu, defs[1]);
  }
}
