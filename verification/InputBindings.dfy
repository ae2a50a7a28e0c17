/** Which language gets which keyboard profile, and that no two get the same (src/detector.rs). */
module InputBindings {
  import opened Wrappers
  import opened Strings

  /** A pack id; the enabled packs are iterated in its order. */
  type Language = string

  datatype Profile = Profile(languageId: nat, klid: nat)

  type Requirements = set<string>

  datatype Descriptor = Descriptor(packId: Language, profiles: map<Profile, Requirements>)

  datatype Pack = Pack(hasModel: bool, descriptor: Option<Descriptor>)

  datatype Registry = Registry(packs: map<Language, Pack>, enabled: set<Language>)

  /** A pack only ever carries its own descriptor (`with_input_descriptor`). */
  ghost predicate Owned(r: Registry)
  {
    forall l :: l in r.packs && r.packs[l].descriptor.Some? ==> r.packs[l].descriptor.value.packId == l
  }

  function Active(r: Registry, l: Language): Option<Pack>
  {
    if l in r.enabled && l in r.packs then Some(r.packs[l]) else None
  }

  type Choices = map<Language, Profile>

  /** `bind_conservative_profile`: the adapters this executable has, and the Estonian exception. */
  predicate Supported(p: Profile, required: Requirements)
  {
    var known := p in {Profile(0x0409, 0x0409), Profile(0x0419, 0x0419), Profile(0x0425, 0x0425)};
    var missing := required - {"physical-key-v1"};
    known && (missing == {}
      || (p == Profile(0x0425, 0x0425) && "physical-key-v1" in required && missing == {"altgr-v1", "dead-key-v1"}))
  }

  /** The profile of a descriptor's pack: the chosen one if it exists, else its only one. */
  function Resolve(choices: Choices, d: Descriptor): (r: Option<Profile>)
    ensures r.Some? ==> r.value in d.profiles
    ensures r.Some? && d.packId in choices ==> r.value == choices[d.packId]
  {
    if d.packId in choices then
      if choices[d.packId] in d.profiles then Some(choices[d.packId]) else None
    else if |d.profiles| != 1 then None
    else
      SingleKey(d.profiles);
      var p :| p in d.profiles;
      Some(p)
  }

  lemma SingleKey(m: map<Profile, Requirements>)
    requires |m| == 1
    ensures exists p :: p in m
    ensures forall p, q :: p in m && q in m ==> p == q
  {
    assert |m.Keys| == 1;
    var p :| p in m.Keys;
    assert |m.Keys - {p}| == 0;
    assert m.Keys - {p} == {};
  }

  /** Language `l` reserves profile `p`: its pack lists it and no other profile was chosen for it. */
  predicate Reserves(r: Registry, choices: Choices, l: Language, p: Profile)
  {
    var pack := Active(r, l);
    pack.Some? && pack.value.descriptor.Some? && p in pack.value.descriptor.value.profiles
    && (l in choices ==> choices[l] == p)
  }

  function Claims(r: Registry, choices: Choices, among: set<Language>, p: Profile): set<Language>
  {
    set l | l in among && Reserves(r, choices, l, p)
  }

  /** The profile a language is bound to, if it is bound. */
  function Binding(r: Registry, choices: Choices, l: Language): Option<Profile>
  {
    var pack := Active(r, l);
    if pack.None? || !pack.value.hasModel || pack.value.descriptor.None? then None
    else
      var d := pack.value.descriptor.value;
      match Resolve(choices, d)
      case None => None
      case Some(p) =>
        if |Claims(r, choices, r.enabled, p)| == 1 && Supported(p, d.profiles[p]) then Some(p) else None
  }

  function Bindings(r: Registry, choices: Choices): (b: map<Language, Profile>)
    ensures forall l :: l in b <==> l in r.enabled && Binding(r, choices, l).Some?
    ensures forall l :: l in b ==> Binding(r, choices, l) == Some(b[l])
  {
    map l | l in r.enabled && Binding(r, choices, l).Some? :: Binding(r, choices, l).value
  }

  lemma BoundReserves(r: Registry, choices: Choices, l: Language)
    requires Owned(r) && Binding(r, choices, l).Some?
    ensures l in Claims(r, choices, r.enabled, Binding(r, choices, l).value)
    ensures |Claims(r, choices, r.enabled, Binding(r, choices, l).value)| == 1
  {
  }

  /** No two bound languages share a profile, whatever the registry and the choices are. */
  lemma BindingsAreCollisionFree(r: Registry, choices: Choices, a: Language, b: Language)
    requires Owned(r)
    requires a in Bindings(r, choices) && b in Bindings(r, choices)
      && Bindings(r, choices)[a] == Bindings(r, choices)[b]
    ensures a == b
  {
    hide Binding, Claims;
    BoundReserves(r, choices, a);
    BoundReserves(r, choices, b);
    var claims := Claims(r, choices, r.enabled, Bindings(r, choices)[a]);
    OnlyOne(claims, a, b);
  }

  lemma OnlyOne(s: set<Language>, a: Language, b: Language)
    requires |s| == 1 && a in s && b in s
    ensures a == b
  {
    assert |s - {a}| == 0;
    assert s - {a} == {};
  }

  // ---------- which language is bound to what ----------

  /** The three layouts this executable has adapters for, and what their packs may ask of it. */
  ghost predicate HasAdapter(p: Profile, required: Requirements)
  {
    || (p.languageId == p.klid && p.languageId in {1033, 1049, 1061} && required <= {"physical-key-v1"})
    || (p == Profile(1061, 1061) && required == {"physical-key-v1", "altgr-v1", "dead-key-v1"})
  }

  lemma SupportedIff(p: Profile, required: Requirements)
    ensures Supported(p, required) <==> HasAdapter(p, required)
  {
    var missing := required - {"physical-key-v1"};
    assert missing == {} <==> required <= {"physical-key-v1"};
    assert required == missing + (required * {"physical-key-v1"});
    if "physical-key-v1" in required && missing == {"altgr-v1", "dead-key-v1"} {
      assert required == {"physical-key-v1", "altgr-v1", "dead-key-v1"};
    }
    if required == {"physical-key-v1", "altgr-v1", "dead-key-v1"} {
      assert missing == {"altgr-v1", "dead-key-v1"};
    }
  }

  /** An enabled language with its pack lists the profile, and none other was chosen for it. */
  ghost predicate Wants(r: Registry, choices: Choices, l: Language, p: Profile)
  {
    && l in r.enabled && l in r.packs && r.packs[l].descriptor.Some? && p in r.packs[l].descriptor.value.profiles
    && (l in choices ==> choices[l] == p)
  }

  /** The profile was chosen for the language, or is the only one of its pack. */
  ghost predicate Decided(r: Registry, choices: Choices, l: Language, p: Profile)
    requires Wants(r, choices, l, p)
  {
    l in choices || r.packs[l].descriptor.value.profiles.Keys == {p}
  }

  lemma ResolveIs(choices: Choices, d: Descriptor, p: Profile)
    ensures Resolve(choices, d) == Some(p) <==>
      p in d.profiles && if d.packId in choices then choices[d.packId] == p else d.profiles.Keys == {p}
  {
    if d.packId !in choices && d.profiles.Keys == {p} {
      assert |d.profiles| == |d.profiles.Keys| == 1;
    }
    if d.packId !in choices && |d.profiles| == 1 {
      SingleKey(d.profiles);
      var q :| q in d.profiles;
      assert d.profiles.Keys == {q};
    }
  }

  /**
   * A language is bound to a profile exactly when its pack has a model and lists the profile, the choice between
   * its profiles is made, no other language wants the same profile, and there is an adapter for it.
   */
  lemma BindingIff(r: Registry, choices: Choices, l: Language, p: Profile)
    requires Owned(r)
    ensures l in Bindings(r, choices) && Bindings(r, choices)[l] == p <==>
      && Wants(r, choices, l, p) && Decided(r, choices, l, p) && r.packs[l].hasModel
      && (forall m :: Wants(r, choices, m, p) ==> m == l)
      && HasAdapter(p, r.packs[l].descriptor.value.profiles[p])
  {
    hide Supported, HasAdapter, Resolve, Claims, Bindings;
    if l in r.enabled && l in r.packs && r.packs[l].descriptor.Some? {
      var d := r.packs[l].descriptor.value;
      ResolveIs(choices, d, p);
      if p in d.profiles { SupportedIff(p, d.profiles[p]); }
      if Wants(r, choices, l, p) { OneClaimIff(r, choices, l, p); }
    }
  }

  lemma OneClaimIff(r: Registry, choices: Choices, l: Language, p: Profile)
    requires Wants(r, choices, l, p)
    ensures |Claims(r, choices, r.enabled, p)| == 1 <==> forall m :: Wants(r, choices, m, p) ==> m == l
  {
    var claims := Claims(r, choices, r.enabled, p);
    assert forall m :: m in claims <==> Wants(r, choices, m, p);
    if |claims| == 1 {
      forall m | m in claims
        ensures m == l
      {
        OnlyOne(claims, m, l);
      }
    }
    if forall m :: Wants(r, choices, m, p) ==> m == l { assert claims == {l}; }
  }

  // ---------- construction ----------

  ghost predicate Counted(r: Registry, choices: Choices, done: set<Language>, counts: map<Profile, nat>)
  {
    forall p :: CountOf(counts, p) == |Claims(r, choices, done, p)|
  }

  function CountOf(counts: map<Profile, nat>, p: Profile): nat
  {
    if p in counts then counts[p] else 0
  }

  /** One language's profiles are counted; the order of the profiles does not matter. */
  method CountProfiles(r: Registry, choices: Choices, l: Language, ghost done: set<Language>, before: map<Profile, nat>)
    returns (counts: map<Profile, nat>)
    requires l !in done && Counted(r, choices, done, before)
    ensures Counted(r, choices, done + {l}, counts)
  {
    counts := before;
    var pack := Active(r, l);
    if pack.None? || pack.value.descriptor.None? {
      assert forall p :: Claims(r, choices, done + {l}, p) == Claims(r, choices, done, p);
      return;
    }
    var left := pack.value.descriptor.value.profiles.Keys;
    while left != {}
      invariant left <= pack.value.descriptor.value.profiles.Keys
      invariant forall p ::
        CountOf(counts, p) == CountOf(before, p) + if p !in left && Reserves(r, choices, l, p) then 1 else 0
      decreases left
    {
      var p :| p in left;
      left := left - {p};
      if l in choices && choices[l] != p { continue; }
      counts := counts[p := if p in counts then counts[p] + 1 else 1];
    }
    forall p
      ensures CountOf(counts, p) == |Claims(r, choices, done + {l}, p)|
    {
      OneMoreClaim(r, choices, done, l, p);
    }
  }

  lemma OneMoreClaim(r: Registry, choices: Choices, done: set<Language>, l: Language, p: Profile)
    requires l !in done
    ensures |Claims(r, choices, done + {l}, p)|
         == |Claims(r, choices, done, p)| + if Reserves(r, choices, l, p) then 1 else 0
  {
    hide Reserves;
    var now, earlier := Claims(r, choices, done + {l}, p), Claims(r, choices, done, p);
    if Reserves(r, choices, l, p) {
      assert now == earlier + {l};
    } else {
      assert now == earlier;
    }
  }

  method CountAll(r: Registry, choices: Choices) returns (counts: map<Profile, nat>)
    ensures Counted(r, choices, r.enabled, counts)
  {
    hide Reserves, Claims;
    counts := map[];
    var left := SortedKeys(r.enabled);
    ghost var done: set<Language> := {};
    NothingCounted(r, choices);
    AscendingDistinct(left);
    while |left| > 0
      invariant forall l :: l in r.enabled <==> l in done || l in left
      invariant forall l :: l in left ==> l !in done
      invariant forall i, j :: 0 <= i < j < |left| ==> left[i] != left[j]
      invariant Counted(r, choices, done, counts)
      decreases |left|
    {
      var l, rest := left[0], left[1..];
      assert l in left && l !in rest;
      assert forall m :: m in left <==> m == l || m in rest;
      counts := CountProfiles(r, choices, l, done, counts);
      done := done + {l};
      left := rest;
    }
    assert done == r.enabled;
  }

  lemma NothingCounted(r: Registry, choices: Choices)
    ensures Counted(r, choices, {}, map[])
  {
    assert forall p :: Claims(r, choices, {}, p) == {};
  }

  /** `with_profile_selections`: count the claims, then bind what is claimed exactly once. */
  method BindAll(r: Registry, choices: Choices) returns (bindings: map<Language, Profile>)
    ensures bindings == Bindings(r, choices)
  {
    hide Reserves, Claims, Supported, Resolve;
    var counts := CountAll(r, choices);
    bindings := map[];
    var left := SortedKeys(r.enabled);
    while |left| > 0
      invariant forall l :: l in left ==> l in r.enabled
      invariant forall l :: l in bindings ==> l in r.enabled && Binding(r, choices, l) == Some(bindings[l])
      invariant forall l :: l in r.enabled && Binding(r, choices, l).Some? ==> l in bindings || l in left
      decreases |left|
    {
      var l := left[0];
      assert l in left;
      assert forall m :: m in left <==> m == l || m in left[1..];
      left := left[1..];
      var pack := Active(r, l);
      if pack.None? || !pack.value.hasModel || pack.value.descriptor.None? { continue; }
      var d := pack.value.descriptor.value;
      var p := Resolve(choices, d);
      if p.None? { continue; }
      assert CountOf(counts, p.value) == |Claims(r, choices, r.enabled, p.value)|;
      if p.value !in counts || counts[p.value] != 1 || !Supported(p.value, d.profiles[p.value]) { continue; }
      bindings := bindings[l := p.value];
    }
  }

  // ---------- queries ----------

  /** A snapshot: the bindings and, once the platform answered, which packs it resolved. */
  datatype Snapshot = Snapshot(bindings: map<Language, Profile>, resolved: Option<set<Language>>)

  predicate Eligible(s: Snapshot, l: Language)
  {
    l in s.bindings && (s.resolved.Some? ==> l in s.resolved.value)
  }

  function AutomaticTargets(s: Snapshot, source: Language): (t: set<Language>)
    ensures forall l :: l in t ==> source in s.bindings && l in s.bindings && l != source
  {
    set l | l in s.bindings && Eligible(s, source) && Eligible(s, l) && l != source
  }

  /** Both ends of an automatic switch are bound, and resolved as soon as the platform has answered. */
  lemma TargetIff(s: Snapshot, source: Language, l: Language)
    ensures l in AutomaticTargets(s, source) <==>
      && source != l && source in s.bindings && l in s.bindings
      && forall resolved :: s.resolved == Some(resolved) ==> source in resolved && l in resolved
  {
    if s.resolved.Some? { assert s.resolved == Some(s.resolved.value); }
  }

  ghost predicate OnlyUser(s: Snapshot, p: Profile, l: Language)
  {
    Eligible(s, l) && s.bindings[l] == p && forall m :: Eligible(s, m) && s.bindings[m] == p ==> m == l
  }

  /** The only eligible language with the profile, found by one pass that stops at a second one. */
  method LanguageForProfile(s: Snapshot, p: Profile) returns (r: Option<Language>)
    ensures r.Some? ==> Eligible(s, r.value) && s.bindings[r.value] == p
    ensures r.Some? <==> exists l :: OnlyUser(s, p, l)
  {
    var left := s.bindings.Keys;
    r := None;
    while left != {}
      invariant left <= s.bindings.Keys
      invariant r.Some? ==> r.value !in left && Eligible(s, r.value) && s.bindings[r.value] == p
      invariant forall l :: l in s.bindings && l !in left && Eligible(s, l) && s.bindings[l] == p ==> r == Some(l)
      decreases left
    {
      var l :| l in left;
      left := left - {l};
      if Eligible(s, l) && s.bindings[l] == p {
        if r.Some? {
          assert r.value != l;
          return None;
        }
        r := Some(l);
      }
    }
    assert r.Some? ==> OnlyUser(s, p, r.value);
  }

  /** Every eligible language is the one its own profile leads back to. */
  lemma ProfileLeadsBack(r: Registry, choices: Choices, s: Snapshot, l: Language)
    requires Owned(r) && s.bindings == Bindings(r, choices) && Eligible(s, l)
    ensures OnlyUser(s, s.bindings[l], l)
  {
    hide Bindings;
    forall m | Eligible(s, m) && s.bindings[m] == s.bindings[l]
      ensures m == l
    {
      BindingsAreCollisionFree(r, choices, m, l);
    }
  }
}
