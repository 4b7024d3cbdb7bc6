/** Lifecycle of hot-reloadable plugins: staging, verification gate, promotion and rollback. */
module HotReload {
  import opened Text

  datatype LifecycleState = Registered | Verified | Active | Draining | Retired

  datatype Manifest = Manifest(name: string, version: string, entrypoint: string)

  datatype Verifier = NoVerifier | Check(accepts: Manifest -> bool)

  datatype Outcome =
    | Done
    | EmptyName
    | EmptyVersion
    | NotFound
    | VerificationFailed
    | NotVerified
    | AlreadyActive
    | NoRollbackAvailable

  class PluginStage {
    const name: string
    const version: string
    const manifest: Manifest
    const registered: int
    var state: LifecycleState
    var verifiedAt: int
    var activatedAt: int

    constructor (manifest: Manifest, now: int)
      ensures name == manifest.name && version == manifest.version && this.manifest == manifest
      ensures state == Registered && registered == now
    {
      name, version, this.manifest, registered := manifest.name, manifest.version, manifest, now;
      state, verifiedAt, activatedAt := Registered, 0, 0;
    }
  }

  // ---------------------------------------------------------------- staging keys

  function Key(name: string, version: string): string {
    name + ":" + version
  }

  /** Names without a colon make the staging key unambiguous. */
  lemma {:induction false} KeyIsInjective(n1: string, v1: string, n2: string, v2: string)
    requires ':' !in n1 && ':' !in n2
    ensures Key(n1, v1) == Key(n2, v2) <==> n1 == n2 && v1 == v2
  {
    var k1, k2 := Key(n1, v1), Key(n2, v2);
    if k1 == k2 {
      assert k1[|n1|] == ':' && k2[|n2|] == ':';
      assert |n1| == |n2|;
      assert n1 == k1[..|n1|] && n2 == k2[..|n2|];
      assert v1 == k1[|n1| + 1..] && v2 == k2[|n2| + 1..];
    }
  }

  predicate IsBlank(s: string) {
    AllSpace(s)
  }

  /**
   The key has a colon at i, other than the one behind the name, that splits it into an acceptable name and
   version.
   */
  predicate SplitsElsewhere(name: string, version: string, i: nat) {
    var key := Key(name, version);
    i < |key| && i != |name| && key[i] == ':' && !IsBlank(key[..i]) && !IsBlank(key[i + 1..])
  }

  /** Another plugin can have been staged under this key. */
  predicate Ambiguous(name: string, version: string) {
    exists i :: 0 <= i < |Key(name, version)| && SplitsElsewhere(name, version, i)
  }

  /** Two plugins share a key only if it is ambiguous. */
  lemma SharedKeyIsAmbiguous(name: string, version: string, n: string, v: string)
    requires Key(n, v) == Key(name, version) && n != name && !IsBlank(n) && !IsBlank(v)
    ensures Ambiguous(name, version)
  {
    var key := Key(n, v);
    assert key[|n|] == ':' && key[..|n|] == n && key[|n| + 1..] == v;
    assert Key(name, version)[..|name|] == name;
    assert SplitsElsewhere(name, version, |n|);
  }

  lemma SplitIsAKey(name: string, version: string, i: nat)
    requires SplitsElsewhere(name, version, i)
    ensures var key := Key(name, version); Key(key[..i], key[i + 1..]) == key && key[..i] != name
  {
  }

  class Manager {
    var staged: map<string, PluginStage>            // by name:version
    var active: map<string, PluginStage>            // by name
    var previousActive: map<string, PluginStage>    // by name
    ghost var all: set<PluginStage>                 // every stage ever registered
    ghost var passed: set<PluginStage>              // every stage that ever passed verification

    ghost predicate Valid()
      reads this
    {
      && (forall k :: k in staged ==> staged[k] in all)
      && (forall n :: n in active ==> active[n] in all)
      && (forall n :: n in previousActive ==> previousActive[n] in all)
      && Filed()
    }

    /** Every active or rollback stage is filed under its own name and once passed verification. */
    ghost predicate Gated()
      reads `active, `previousActive, `passed
    {
      && (forall n :: n in active ==> active[n].name == n && active[n] in passed)
      && (forall n :: n in previousActive ==> previousActive[n].name == n && previousActive[n] in passed)
    }

    ghost predicate VerifiedPassed()
      reads `all, `passed, all
    {
      forall s :: s in all && s.state == Verified ==> s in passed
    }

    /** Stages are filed under their own key, and have a name and a version. */
    ghost predicate Filed()
      reads `staged
    {
      forall k :: k in staged ==>
        k == Key(staged[k].name, staged[k].version) && !IsBlank(staged[k].name) && !IsBlank(staged[k].version)
    }

    ghost predicate NoColons()
      reads `all
    {
      forall s :: s in all ==> ':' !in s.name
    }

    /** A rollback entry has an active counterpart of another version. */
    ghost predicate RollbackDiffers()
      reads `active, `previousActive
    {
      forall n :: n in previousActive ==>
        n in active && previousActive[n] != active[n] && previousActive[n].version != active[n].version
    }

    /** Only the active stage of a name has the state active, and draining is never observable. */
    ghost predicate OneActive()
      reads `active, `all, all
    {
      forall s :: s in all ==>
        s.state != Draining && (s.state == Active ==> s.name in active && active[s.name] == s)
    }

    ghost predicate Consistent()
      reads this, all
    {
      Gated() && VerifiedPassed() && RollbackDiffers() && OneActive()
    }

    constructor ()
      ensures Valid() && Consistent()
      ensures staged == map[] && active == map[] && previousActive == map[] && all == {} && passed == {}
    {
      staged, active, previousActive := map[], map[], map[];
      all, passed := {}, {};
    }

    method RegisterDiscoveredPlugin(manifest: Manifest, now: int) returns (stage: PluginStage?, r: Outcome)
      requires Valid()
      modifies this
      ensures Valid() && active == old(active) && previousActive == old(previousActive) && passed == old(passed)
      ensures r ==
        if IsBlank(manifest.name) then EmptyName else if IsBlank(manifest.version) then EmptyVersion else Done
      ensures r != Done ==> stage == null && staged == old(staged) && all == old(all)
      ensures r == Done ==> stage != null && fresh(stage) && stage.manifest == manifest && stage.state == Registered
      ensures r == Done ==> stage.name == manifest.name && stage.version == manifest.version && stage.registered == now
      ensures r == Done ==> staged == old(staged)[Key(manifest.name, manifest.version) := stage]
      ensures r == Done ==> all == old(all) + {stage}
      ensures old(Consistent()) ==> Consistent()
      ensures old(NoColons()) && ':' !in manifest.name ==> NoColons()
    {
      TrimBlank(manifest.name);
      TrimBlank(manifest.version);
      if TrimSpace(manifest.name) == "" {
        return null, EmptyName;
      }
      if TrimSpace(manifest.version) == "" {
        return null, EmptyVersion;
      }
      var key := Key(manifest.name, manifest.version);
      stage := new PluginStage(manifest, now);
      staged := staged[key := stage];
      all := all + {stage};
      r := Done;
    }

    method VerifyPluginStage(name: string, version: string, verifier: Verifier, now: int) returns (r: Outcome)
      requires Valid()
      modifies this`passed, all
      ensures Valid()
      ensures Key(name, version) !in staged ==> r == NotFound
      ensures Key(name, version) in staged ==>
        var refused := verifier.Check? && !verifier.accepts(staged[Key(name, version)].manifest);
        r == if refused then VerificationFailed else Done
      ensures r == Done ==> passed == old(passed) + {staged[Key(name, version)]}
      ensures r == Done ==> staged[Key(name, version)].verifiedAt == now
      ensures r != Done ==> passed == old(passed)
      ensures forall s :: s in all ==>
        s.state == if r == Done && s == staged[Key(name, version)] then Verified else old(s.state)
      ensures old(Consistent()) ==> Consistent()
    {
      var key := Key(name, version);
      if key !in staged {
        return NotFound;
      }
      var stage := staged[key];
      if verifier.Check? && !verifier.accepts(stage.manifest) {
        return VerificationFailed;
      }
      stage.state := Verified;
      stage.verifiedAt := now;
      passed := passed + {stage};
      r := Done;
    }

    /** The state of s after `promoted` became active and `displaced` lost its place. */
    ghost function StateAfter(s: PluginStage, promoted: PluginStage, displaced: PluginStage?,
                              before: LifecycleState): LifecycleState {
      if s == promoted then Active else if s == displaced then Retired else before
    }

    ghost function Lookup(m: map<string, PluginStage>, name: string): PluginStage? {
      if name in m then m[name] else null
    }

    /** Drains and retires the active stage of a name, if there is one. */
    method Displace(name: string)
      requires Valid()
      modifies all
      ensures forall s :: s in all ==> s.state == if s == Lookup(active, name) then Retired else old(s.state)
    {
      if name in active {
        active[name].state := Draining;
        active[name].state := Retired;
      }
    }

    method MakeActive(stage: PluginStage, now: int)
      requires stage in all
      modifies all
      ensures forall s :: s in all ==> s.state == if s == stage then Active else old(s.state)
      ensures stage.activatedAt == now
    {
      stage.state := Active;
      stage.activatedAt := now;
    }

    /** The switch of the active pointer, with the old active stage drained, saved and retired. */
    method Activate(name: string, stage: PluginStage, now: int)
      requires Valid() && stage in all && stage.state == Verified
      modifies this`active, this`previousActive, all
      ensures Valid()
      ensures active == old(active)[name := stage] && stage.activatedAt == now
      ensures previousActive ==
        if name in old(active) then old(previousActive)[name := old(active[name])] else old(previousActive)
      ensures forall s :: s in all ==> s.state == StateAfter(s, stage, Lookup(old(active), name), old(s.state))
      ensures old(Consistent()) && stage.name == name
              && (name in old(active) ==> old(active[name]).version != stage.version) ==>
        Consistent()
    {
      ghost var sound :=
        Consistent() && stage.name == name && (name in active ==> active[name].version != stage.version);
      Displace(name);
      if name in active {
        previousActive := previousActive[name := active[name]];
      }
      MakeActive(stage, now);
      active := active[name := stage];
      if sound {
        assert Gated() && RollbackDiffers();
        assert VerifiedPassed();
        assert OneActive();
      }
    }

    /** A stage found under a key has its name and version, unless the key is ambiguous. */
    lemma FiledStage(name: string, version: string)
      requires Valid() && Key(name, version) in staged
      ensures var stage := staged[Key(name, version)];
        && (stage.name == name ==> stage.version == version)
        && (stage.name != name ==> Ambiguous(name, version))
        && (NoColons() && ':' !in name ==> stage.name == name)
    {
      var stage := staged[Key(name, version)];
      if stage.name != name {
        SharedKeyIsAmbiguous(name, version, stage.name, stage.version);
      } else {
        assert Key(name, version)[|name| + 1..] == version && Key(name, stage.version)[|name| + 1..] == stage.version;
      }
      if NoColons() && ':' !in name {
        KeyIsInjective(name, version, stage.name, stage.version);
      }
    }

    method PromoteToActive(name: string, version: string, now: int) returns (r: Outcome)
      requires Valid()
      modifies this`active, this`previousActive, all
      ensures Valid()
      ensures r == if Key(name, version) !in staged then NotFound
        else if old(staged[Key(name, version)].state) != Verified then NotVerified
        else if name in old(active) && old(active[name]).version == version then AlreadyActive
        else Done
      ensures r != Done ==> active == old(active) && previousActive == old(previousActive)
      ensures r != Done ==> forall s :: s in all ==> s.state == old(s.state)
      ensures r == Done ==> active == old(active)[name := staged[Key(name, version)]]
      ensures r == Done ==> active[name].activatedAt == now
      ensures r == Done ==>
        (previousActive ==
         if name in old(active) then old(previousActive)[name := old(active[name])] else old(previousActive))
      ensures r == Done ==>
        forall s :: s in all ==> s.state == StateAfter(s, active[name], Lookup(old(active), name), old(s.state))
      ensures r == Done && active[name].name != name ==> Ambiguous(name, version)
      ensures r == Done && old(NoColons()) && ':' !in name ==> active[name].name == name
      ensures old(Consistent()) ==> (Consistent() <==> r != Done || active[name].name == name)
    {
      var key := Key(name, version);
      if key !in staged {
        return NotFound;
      }
      var stage := staged[key];
      if stage.state != Verified {
        return NotVerified;
      }
      if name in active && active[name].version == version {
        return AlreadyActive;
      }
      FiledStage(name, version);
      Activate(name, stage, now);
      r := Done;
    }

    method Rollback(name: string, now: int) returns (r: Outcome)
      requires Valid()
      modifies this`active, this`previousActive, all
      ensures Valid()
      ensures r == if name in old(previousActive) then Done else NoRollbackAvailable
      ensures r != Done ==> active == old(active) && previousActive == old(previousActive)
      ensures r != Done ==> forall s :: s in all ==> s.state == old(s.state)
      ensures r == Done ==> active == old(active)[name := old(previousActive[name])]
      ensures r == Done ==> active[name].activatedAt == now
      ensures r == Done ==> previousActive == old(previousActive) - {name}
      ensures r == Done ==>
        forall s :: s in all ==> s.state == StateAfter(s, active[name], Lookup(old(active), name), old(s.state))
      ensures old(Consistent()) ==> Consistent()
    {
      if name !in previousActive {
        return NoRollbackAvailable;
      }
      var prev := previousActive[name];
      Displace(name);
      MakeActive(prev, now);
      active := active[name := prev];
      previousActive := previousActive - {name};
      r := Done;
    }

    /**
     A promotion over an active stage, undone by a rollback: the earlier stage is active again, the
     promoted one is retired, every other stage and name is as before, and no further rollback is possible.
     */
    method PromoteThenRollback(name: string, version: string, now: int)
      requires Valid() && Consistent()
      requires Key(name, version) in staged && staged[Key(name, version)].state == Verified
      requires staged[Key(name, version)].name == name
      requires name in active && active[name].version != version
      modifies this`active, this`previousActive, all
      ensures Valid() && Consistent()
      ensures active == old(active) && previousActive == old(previousActive) - {name}
      ensures forall s :: s in all ==>
        s.state == StateAfter(s, active[name], staged[Key(name, version)], old(s.state))
    {
      ghost var before, stage, displaced := active, staged[Key(name, version)], active[name];
      var promoted := PromoteToActive(name, version, now);
      assert active[name] == stage && previousActive[name] == displaced;
      var undone := Rollback(name, now);
      assert active[name] == displaced;
      assert active == before;
    }
  }

  /**
   Together with the contract of promotion: promoting (name, version) can make a stage active under a name that
   is not its own if and only if its key is ambiguous. Such a promotion is the end of a run of three calls.
   */
  method PromoteForeignStage(name: string, version: string) returns (m: Manager)
    requires Ambiguous(name, version)
    ensures m.Valid() && name in m.active && m.active[name].name != name && !m.Consistent()
  {
    m := new Manager();
    var key := Key(name, version);
    var i :| 0 <= i < |key| && SplitsElsewhere(name, version, i);
    SplitIsAKey(name, version, i);
    var stage, registered := m.RegisterDiscoveredPlugin(Manifest(key[..i], key[i + 1..], ""), 0);
    var verified := m.VerifyPluginStage(name, version, NoVerifier, 1);
    var promoted := m.PromoteToActive(name, version, 2);
    assert promoted == Done && m.active[name] == stage;
  }

  /** A colon behind a name that is not blank makes the key ambiguous, whatever the version. */
  lemma ColonInNameIsAmbiguous(name: string, version: string, i: nat)
    requires i < |name| && name[i] == ':' && !IsBlank(name[..i])
    ensures Ambiguous(name, version)
  {
    var key := Key(name, version);
    assert key[..i] == name[..i] && key[i + 1..][|name| - i - 1] == ':';
    assert SplitsElsewhere(name, version, i);
  }
}
