/** Agent profiles: inheritance in `ProfileRegistry` (src/runtime/profile-registry.ts) and
    the precedence of `SpawnConfigBuilder` (src/runtime/spawn-config.ts). */
module Profiles {
  import opened Optional

  datatype Field =
    | Description | Model | ThinkingLevel | Tools | Context | SystemPrompt | MaxContextMessages
    | MaxTokens | Temperature | Streaming | MaxIterations | ToolTimeoutMs

  /** The value of a property the object has; having it and being defined differ. */
  datatype Property = Undefined | Defined(value: string)

  datatype AgentProfile = AgentProfile(name: string, parent: Option<string>, fields: map<Field, Property>)

  type Registry = map<string, AgentProfile>

  datatype Error = NotFound(name: string) | Cycle(chain: seq<string>)

  datatype Result = Ok(profile: AgentProfile) | Err(error: Error)

  /** An empty `extends` counts as none. */
  predicate HasParent(p: AgentProfile) {
    p.parent.Some? && p.parent.value != ""
  }

  /** Child fields over parent fields; the child's own name and `extends`. */
  function Merge(parent: AgentProfile, child: AgentProfile): AgentProfile {
    AgentProfile(child.name, child.parent, parent.fields + child.fields)
  }

  ghost function Names(chain: seq<string>): set<string> {
    set n | n in chain
  }

  function ResolveInternal(reg: Registry, name: string, chain: seq<string>): Result
    decreases reg.Keys - Names(chain)
  {
    if name !in reg then Err(NotFound(name))
    else if name in chain then Err(Cycle(chain + [name]))
    else if !HasParent(reg[name]) then Ok(reg[name])
    else
      Longer(reg, name, chain);
      match ResolveInternal(reg, reg[name].parent.value, chain + [name])
      case Err(e) => Err(e)
      case Ok(parent) => Ok(Merge(parent, reg[name]))
  }

  lemma Longer(reg: Registry, name: string, chain: seq<string>)
    requires name in reg && name !in chain
    ensures reg.Keys - Names(chain + [name]) < reg.Keys - Names(chain)
  {
    assert name in reg.Keys - Names(chain) && name in Names(chain + [name]);
    assert forall n :: n in chain ==> n in chain + [name];
  }

  function Resolve(reg: Registry, name: string): Result {
    ResolveInternal(reg, name, [])
  }

  // ------------------------------------------------------------ the extends walk

  /** The name reached from `name` after following `extends` `i` times, if any. */
  ghost function WalkAt(reg: Registry, name: string, i: nat): Option<string> {
    if i == 0 then Some(name)
    else
      match WalkAt(reg, name, i - 1)
      case None => None
      case Some(n) => if n in reg && HasParent(reg[n]) then reg[n].parent else None
  }

  ghost predicate Misses(reg: Registry, name: string, missing: string) {
    missing !in reg && exists i: nat :: WalkAt(reg, name, i) == Some(missing)
  }

  ghost predicate Revisits(reg: Registry, name: string) {
    exists i: nat, j: nat :: i < j && RepeatsAt(reg, name, i, j)
  }

  ghost predicate RepeatsAt(reg: Registry, name: string, i: nat, j: nat) {
    WalkAt(reg, name, i).Some? && WalkAt(reg, name, i) == WalkAt(reg, name, j)
  }

  ghost predicate EndsAt(reg: Registry, name: string, i: nat) {
    var w := WalkAt(reg, name, i);
    w.Some? && w.value in reg && !HasParent(reg[w.value])
  }

  /** The `i`-th profile of the walk has the property `f`. */
  ghost predicate Has(reg: Registry, name: string, i: nat, f: Field) {
    var w := WalkAt(reg, name, i);
    w.Some? && w.value in reg && f in reg[w.value].fields
  }

  ghost function ValueAt(reg: Registry, name: string, i: nat, f: Field): Property
    requires Has(reg, name, i, f)
  {
    reg[WalkAt(reg, name, i).value].fields[f]
  }

  /** Profile `i` is the first, from profile `start` on, to have `f`. */
  ghost predicate Nearest(reg: Registry, name: string, start: nat, i: nat, f: Field) {
    start <= i && Has(reg, name, i, f) && forall j: nat :: start <= j < i ==> !Has(reg, name, j, f)
  }

  /** Each field is the nearest definition of it from profile `start` on. */
  ghost predicate Inherits(reg: Registry, name: string, start: nat, fields: map<Field, Property>) {
    && (forall i: nat, f :: start <= i && Has(reg, name, i, f) ==> f in fields)
    && (forall f :: f in fields ==>
          exists i: nat :: Nearest(reg, name, start, i, f) && ValueAt(reg, name, i, f) == fields[f])
  }

  lemma {:induction false} NoneStays(reg: Registry, name: string, i: nat, j: nat)
    requires i <= j && WalkAt(reg, name, i).None?
    ensures WalkAt(reg, name, j).None?
  {
    if i < j {
      NoneStays(reg, name, i, j - 1);
    }
  }

  /** A walk that comes back to a name goes round for ever. */
  lemma {:induction false} GoesRound(reg: Registry, name: string, i: nat, j: nat, k: nat)
    requires i < j && RepeatsAt(reg, name, i, j) && i <= k
    ensures WalkAt(reg, name, k) == WalkAt(reg, name, k + (j - i))
  {
    if i < k {
      GoesRound(reg, name, i, j, k - 1);
    }
  }

  ghost predicate GoesOn(reg: Registry, name: string, i: nat) {
    WalkAt(reg, name, i).Some? && WalkAt(reg, name, i + 1).Some?
  }

  /** A walk that comes back to a name goes round for ever. */
  lemma {:induction false} NeverEnds(reg: Registry, name: string, i: nat, j: nat, k: nat)
    requires i < j && RepeatsAt(reg, name, i, j)
    ensures GoesOn(reg, name, k)
    decreases k
  {
    if WalkAt(reg, name, k + 1).None? {
      if k < i {
        NoneStays(reg, name, k + 1, i);
      } else {
        GoesRound(reg, name, i, j, k);
        NoneStays(reg, name, k + 1, k + (j - i));
        if k > 0 {
          NeverEnds(reg, name, i, j, k - 1);
        }
      }
    }
  }

  // ---------------------------------------------------------- what resolve returns

  /** The walk from `root`, up to but not including its first repetition. */
  ghost predicate OnWalk(reg: Registry, root: string, chain: seq<string>) {
    && (forall i :: 0 <= i < |chain| ==> WalkAt(reg, root, i) == Some(chain[i]))
    && (forall i, j :: 0 <= i < j < |chain| ==> chain[i] != chain[j])
  }

  /** The walk from `root` up to and including its first repetition. */
  ghost predicate IsLoop(reg: Registry, root: string, chain: seq<string>) {
    && |chain| >= 2
    && var last := |chain| - 1;
    && OnWalk(reg, root, chain[..last])
    && chain[last] in chain[..last] && WalkAt(reg, root, last) == Some(chain[last])
  }

  /** What is known of a resolution that has walked `chain` from `root`. */
  ghost predicate Outcome(reg: Registry, root: string, walked: nat, r: Result) {
    match r
    case Err(NotFound(m)) => Misses(reg, root, m)
    case Err(Cycle(c)) =>
      IsLoop(reg, root, c)
    case Ok(p) =>
      && Inherits(reg, root, walked, p.fields)
      && WalkAt(reg, root, walked) == Some(p.name)
      && exists i: nat :: EndsAt(reg, root, i)
  }

  ghost predicate NamesAgree(reg: Registry) {
    forall n :: n in reg ==> reg[n].name == n
  }

  lemma {:induction false} InternalOutcome(reg: Registry, root: string, name: string, chain: seq<string>)
    requires NamesAgree(reg)
    requires OnWalk(reg, root, chain) && WalkAt(reg, root, |chain|) == Some(name)
    ensures Outcome(reg, root, |chain|, ResolveInternal(reg, name, chain))
    decreases reg.Keys - Names(chain)
  {
    if name !in reg {
    } else if name in chain {
      assert (chain + [name])[..|chain|] == chain;
    } else if !HasParent(reg[name]) {
      assert EndsAt(reg, root, |chain|);
      LastOneInherits(reg, root, |chain|, name);
    } else {
      var parent := reg[name].parent.value;
      Longer(reg, name, chain);
      InternalOutcome(reg, root, parent, chain + [name]);
      if ResolveInternal(reg, parent, chain + [name]).Ok? {
        MergeInherits(reg, root, |chain|, name, ResolveInternal(reg, parent, chain + [name]).profile);
      }
    }
  }

  lemma LastOneInherits(reg: Registry, root: string, i: nat, name: string)
    requires WalkAt(reg, root, i) == Some(name) && name in reg && !HasParent(reg[name])
    ensures Inherits(reg, root, i, reg[name].fields)
  {
    forall j: nat, f | i <= j && Has(reg, root, j, f)
      ensures j == i
    {
      if j > i {
        NoneStays(reg, root, i + 1, j);
      }
    }
    forall f | f in reg[name].fields
      ensures Nearest(reg, root, i, i, f) && ValueAt(reg, root, i, f) == reg[name].fields[f]
    {
    }
  }

  lemma MergeInherits(reg: Registry, root: string, i: nat, name: string, parent: AgentProfile)
    requires WalkAt(reg, root, i) == Some(name) && name in reg
    requires Inherits(reg, root, i + 1, parent.fields)
    ensures Inherits(reg, root, i, Merge(parent, reg[name]).fields)
  {
    var fields := Merge(parent, reg[name]).fields;
    forall f | f in fields
      ensures exists j: nat :: Nearest(reg, root, i, j, f) && ValueAt(reg, root, j, f) == fields[f]
    {
      if f in reg[name].fields {
        assert Nearest(reg, root, i, i, f);
      } else {
        var j: nat :| Nearest(reg, root, i + 1, j, f) && ValueAt(reg, root, j, f) == parent.fields[f];
        assert Nearest(reg, root, i, j, f);
      }
    }
  }

  /** The three ways a walk can go exclude each other. */
  lemma WalkWays(reg: Registry, name: string)
    ensures !(Revisits(reg, name) && exists m :: Misses(reg, name, m))
    ensures !(Revisits(reg, name) && exists i: nat :: EndsAt(reg, name, i))
    ensures !((exists m :: Misses(reg, name, m)) && exists i: nat :: EndsAt(reg, name, i))
    ensures forall m, n :: Misses(reg, name, m) && Misses(reg, name, n) ==> m == n
  {
    if Revisits(reg, name) {
      var i: nat, j: nat :| i < j && RepeatsAt(reg, name, i, j);
      forall k: nat
        ensures GoesOn(reg, name, k)
      {
        NeverEnds(reg, name, i, j, k);
      }
      assert forall m, k: nat :: m !in reg && WalkAt(reg, name, k) == Some(m) ==> !GoesOn(reg, name, k);
      assert forall k: nat :: EndsAt(reg, name, k) ==> !GoesOn(reg, name, k);
    }
    forall m, i: nat, k: nat | m !in reg && WalkAt(reg, name, i) == Some(m) && WalkAt(reg, name, k).Some?
      ensures k <= i
    {
      if i < k {
        NoneStays(reg, name, i + 1, k);
      }
    }
    forall i: nat, k: nat | EndsAt(reg, name, i) && WalkAt(reg, name, k).Some?
      ensures k <= i
    {
      if i < k {
        NoneStays(reg, name, i + 1, k);
      }
    }
  }

  /** `resolve` ends on every registry. It reports a cycle exactly when the `extends` walk
      comes back to a name, a missing profile exactly when the walk reaches it, and
      otherwise gives each field its nearest definition along the walk. */
  lemma ResolveMeaning(reg: Registry, name: string)
    requires NamesAgree(reg)
    ensures (Resolve(reg, name).Err? && Resolve(reg, name).error.Cycle?) <==> Revisits(reg, name)
    ensures forall m :: Resolve(reg, name) == Err(NotFound(m)) <==> Misses(reg, name, m)
    ensures Resolve(reg, name).Ok? <==> exists i: nat :: EndsAt(reg, name, i)
    ensures Resolve(reg, name).Ok? ==>
              && Inherits(reg, name, 0, Resolve(reg, name).profile.fields)
              && Resolve(reg, name).profile.name == name
  {
    InternalOutcome(reg, name, name, []);
    WalkWays(reg, name);
    match Resolve(reg, name)
    case Err(Cycle(c)) =>
      var i :| 0 <= i < |c| - 1 && c[i] == c[|c| - 1];
      assert RepeatsAt(reg, name, i, |c| - 1);
    case _ =>
  }

  /** The cycle in the error is the walk from the name asked for to its first repetition. */
  lemma CycleIsTheWalk(reg: Registry, name: string)
    requires NamesAgree(reg) && Revisits(reg, name)
    ensures exists c :: Resolve(reg, name) == Err(Cycle(c)) && IsLoop(reg, name, c)
  {
    InternalOutcome(reg, name, name, []);
    ResolveMeaning(reg, name);
    assert Resolve(reg, name) == Err(Cycle(Resolve(reg, name).error.chain));
  }

  // ------------------------------------------------------------------ the registry

  class ProfileRegistry {
    var profiles: Registry

    ghost predicate Valid()
      reads this
    {
      NamesAgree(profiles)
    }

    constructor ()
      ensures Valid() && profiles == map[]
    {
      profiles := map[];
    }

    method Register(profile: AgentProfile)
      requires Valid()
      modifies this
      ensures Valid() && profiles == old(profiles)[profile.name := profile]
    {
      profiles := profiles[profile.name := profile];
    }

    method Unregister(name: string) returns (removed: bool)
      requires Valid()
      modifies this
      ensures Valid() && removed == (name in old(profiles)) && profiles == old(profiles) - {name}
    {
      removed := name in profiles;
      profiles := profiles - {name};
    }
  }

  /** Registering or removing a profile off the walk changes nothing for `name`. */
  lemma OffTheWalk(reg: Registry, other: Registry, name: string)
    requires NamesAgree(reg) && NamesAgree(other)
    requires forall i: nat, n :: WalkAt(reg, name, i) == Some(n) ==>
               (n in reg <==> n in other) && (n in reg ==> reg[n] == other[n])
    ensures Resolve(reg, name) == Resolve(other, name)
  {
    SameInternal(reg, other, name, name, []);
  }

  lemma {:induction false} SameInternal(reg: Registry, other: Registry, root: string, name: string, chain: seq<string>)
    requires forall i: nat, n :: WalkAt(reg, root, i) == Some(n) ==>
               (n in reg <==> n in other) && (n in reg ==> reg[n] == other[n])
    requires WalkAt(reg, root, |chain|) == Some(name)
    ensures ResolveInternal(reg, name, chain) == ResolveInternal(other, name, chain)
    decreases reg.Keys - Names(chain)
  {
    if name in reg && name !in chain && HasParent(reg[name]) {
      Longer(reg, name, chain);
      SameInternal(reg, other, root, reg[name].parent.value, chain + [name]);
    }
  }

  // ------------------------------------------------------------------- the builder

  const CONFIGURABLE: set<Field> := {
    Model, ThinkingLevel, Tools, Context, SystemPrompt, MaxContextMessages,
    MaxTokens, Temperature, Streaming, MaxIterations, ToolTimeoutMs
  }

  /** Reading a property an object does not have gives `undefined`. */
  function Get(fields: map<Field, Property>, f: Field): Property {
    if f in fields then fields[f] else Undefined
  }

  /** `a ?? b` */
  function Or(a: Property, b: Property): Property {
    if a.Defined? then a else b
  }

  datatype SpawnConfig = SpawnConfig(profile: Option<string>, settings: map<Field, Property>,
                                     overrides: map<Field, Property>)

  class SpawnConfigBuilder {
    const registry: ProfileRegistry
    var profileName: Option<string>
    var profile: Option<AgentProfile>
    var overrides: map<Field, Property>

    constructor (registry: ProfileRegistry)
      ensures this.registry == registry && profileName == None && profile == None && overrides == map[]
    {
      this.registry := registry;
      profileName, profile, overrides := None, None, map[];
    }

    /** When `resolve` throws, the new name stays with the old profile. */
    method FromProfile(name: string) returns (thrown: Option<Error>)
      modifies this
      ensures profileName == Some(name) && overrides == old(overrides)
      ensures match Resolve(registry.profiles, name)
              case Ok(p) => thrown == None && profile == Some(p)
              case Err(e) => thrown == Some(e) && profile == old(profile)
    {
      profileName := Some(name);
      match Resolve(registry.profiles, name)
      case Err(e) =>
        thrown := Some(e);
      case Ok(p) =>
        thrown, profile := None, Some(p);
    }

    /** The eleven `with...` methods; the last call for a field wins. */
    method With(f: Field, value: Property)
      requires f in CONFIGURABLE
      modifies this
      ensures overrides == old(overrides)[f := value]
      ensures profileName == old(profileName) && profile == old(profile)
    {
      overrides := overrides[f := value];
    }

    method Build() returns (config: SpawnConfig)
      ensures config.profile == profileName && config.overrides == overrides
      ensures config.settings.Keys == CONFIGURABLE
      ensures forall f :: f in CONFIGURABLE ==>
                config.settings[f] == Setting(overrides, profile, f)
    {
      var base := if profile.Some? then profile.value.fields else map[];
      config := SpawnConfig(profileName, map f | f in CONFIGURABLE :: Or(Get(overrides, f), Get(base, f)), overrides);
    }
  }

  ghost function Setting(overrides: map<Field, Property>, base: Option<AgentProfile>, f: Field): Property {
    Or(Get(overrides, f), if base.Some? then Get(base.value.fields, f) else Undefined)
  }

  /** A built setting is the override, else the nearest property of that name along the
      walk, else undefined. */
  lemma SettingPrecedence(reg: Registry, name: string, overrides: map<Field, Property>, f: Field)
    requires NamesAgree(reg) && Resolve(reg, name).Ok?
    ensures
      var s := Setting(overrides, Some(Resolve(reg, name).profile), f);
      && (f in overrides && overrides[f].Defined? ==> s == overrides[f])
      && (!(f in overrides && overrides[f].Defined?) ==>
            && (forall i: nat :: Nearest(reg, name, 0, i, f) ==> s == ValueAt(reg, name, i, f))
            && ((forall i: nat :: !Has(reg, name, i, f)) ==> s == Undefined))
  {
    ResolveMeaning(reg, name);
    var fields := Resolve(reg, name).profile.fields;
    if f in fields {
      var j: nat :| Nearest(reg, name, 0, j, f) && ValueAt(reg, name, j, f) == fields[f];
      forall i: nat | Nearest(reg, name, 0, i, f)
        ensures i == j
      {
      }
    }
  }

  /** Profile `i` is the first of the walk that gives `f` a value. */
  ghost predicate NearestDefined(reg: Registry, name: string, i: nat, f: Field) {
    && Has(reg, name, i, f) && ValueAt(reg, name, i, f).Defined?
    && forall j: nat :: j < i && Has(reg, name, j, f) ==> ValueAt(reg, name, j, f) == Undefined
  }

  /** Without an override, the setting is the nearest value along the walk exactly when no
      nearer profile has the property with `undefined` in it. */
  lemma InheritsNearestValueIff(reg: Registry, name: string, i: nat, f: Field)
    requires NamesAgree(reg) && Resolve(reg, name).Ok? && NearestDefined(reg, name, i, f)
    ensures Setting(map[], Some(Resolve(reg, name).profile), f) == ValueAt(reg, name, i, f)
       <==> forall j: nat :: j < i ==> !Has(reg, name, j, f)
  {
    SettingPrecedence(reg, name, map[], f);
    if forall j: nat :: j < i ==> !Has(reg, name, j, f) {
      assert Nearest(reg, name, 0, i, f);
    } else {
      ResolveMeaning(reg, name);
      var fields := Resolve(reg, name).profile.fields;
      var j: nat :| Nearest(reg, name, 0, j, f) && ValueAt(reg, name, j, f) == fields[f];
    }
  }

  /** A child that has `model: undefined` hides its parent's model. */
  lemma UndefinedHidesParent()
    ensures
      var child := AgentProfile("child", Some("parent"), map[Model := Undefined]);
      var parent := AgentProfile("parent", None, map[Model := Defined("m")]);
      var r := Resolve(map["child" := child, "parent" := parent], "child");
      r.Ok? && Setting(map[], Some(r.profile), Model) == Undefined
  {
    var child := AgentProfile("child", Some("parent"), map[Model := Undefined]);
    var parent := AgentProfile("parent", None, map[Model := Defined("m")]);
    var reg := map["child" := child, "parent" := parent];
    assert ResolveInternal(reg, "parent", ["child"]) == Ok(parent);
    assert [] + ["child"] == ["child"];
    assert Resolve(reg, "child") == Ok(Merge(parent, child));
  }
}
