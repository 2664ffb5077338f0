/** Deleting credentials from the environment, and the configuration that depends on them. */
module Credentials {
  import opened Wrappers

  datatype Family = Gemini | Groq | Vertex {
    function Base(): string {
      match this
      case Gemini => "GEMINI_API_KEY"
      case Groq => "GROQ_API_KEY"
      case Vertex => "VERTEX_GCP_SERVICE_ACCOUNT_KEY"
    }
  }

  const FAMILIES := [Gemini, Groq, Vertex]
  const MAX_CREDENTIAL_SLOTS: nat := 5

  const PROTECTED_ENV_KEYS := {
    "DATABASE_URL", "RENDER_API_KEY", "DASHBOARD_USERNAME", "DASHBOARD_PASSWORD", "DASHBOARD_SESSION_SECRET",
    "GITHUB_WEBHOOK_SECRET", "GITHUB_APP_ID", "GITHUB_APP_PRIVATE_KEY", "GITHUB_APP_INSTALLATION_ID"
  }

  /** `slot_env_name`, for the slots the dashboard manages. */
  function SlotVar(f: Family, slot: nat): string
    requires slot < MAX_CREDENTIAL_SLOTS
  {
    if slot == 0 then f.Base() else f.Base() + ['_', ('0' as int + slot) as char]
  }

  /** No two slots share a variable. */
  lemma SlotVarsDiffer(f: Family, i: nat, g: Family, j: nat)
    requires i < MAX_CREDENTIAL_SLOTS && j < MAX_CREDENTIAL_SLOTS
    ensures SlotVar(f, i) == SlotVar(g, j) ==> f == g && i == j
  {
    assert SlotVar(f, i)[1] == f.Base()[1] && SlotVar(g, j)[1] == g.Base()[1];
    assert SlotVar(f, i)[0] == f.Base()[0] && SlotVar(g, j)[0] == g.Base()[0];
    assert forall h: Family, k: nat | 0 < k < MAX_CREDENTIAL_SLOTS ::
      |SlotVar(h, k)| == |h.Base()| + 2 && SlotVar(h, k)[|h.Base()| + 1] == ('0' as int + k) as char;
  }

  /** `slot_index_for_var`. */
  method SlotIndexForVar(f: Family, key: string) returns (slot: Option<nat>)
    ensures slot.Some? ==> slot.value < MAX_CREDENTIAL_SLOTS && key == SlotVar(f, slot.value)
    ensures slot.None? ==> forall i: nat | i < MAX_CREDENTIAL_SLOTS :: key != SlotVar(f, i)
  {
    for i := 0 to MAX_CREDENTIAL_SLOTS
      invariant forall j: nat | j < i :: key != SlotVar(f, j)
    {
      if SlotVar(f, i) == key {
        return Some(i);
      }
    }
    slot := None;
  }

  /** The columns and rows a credential variable can be depended on by. */
  datatype Config = Config(provider: Option<Family>, keyIndex: map<Family, nat>, slotRows: set<(Family, nat)>)
  {
    /** No override means slot 0 is the active one. */
    function ActiveSlot(f: Family): nat {
      if f in keyIndex then keyIndex[f] else 0
    }

    function Live(): Option<(Family, nat)> {
      if provider.None? then None else Some((provider.value, ActiveSlot(provider.value)))
    }
  }

  type Env = set<string>

  predicate Managed(env: Env, f: Family, slot: nat) {
    slot < MAX_CREDENTIAL_SLOTS && SlotVar(f, slot) in env
  }

  /** Nothing configured points at a credential that is not there: the active provider's active
      slot, every key-index override and every slot_config row have their variable. */
  predicate NothingDangles(env: Env, c: Config) {
    && (c.Live().Some? ==> Managed(env, c.Live().value.0, c.Live().value.1))
    && (forall f | f in c.keyIndex :: Managed(env, f, c.keyIndex[f]))
    && (forall r | r in c.slotRows :: Managed(env, r.0, r.1))
  }

  datatype Dependents = Dependents(keyIndexOverride: bool, providerOverride: bool, slotConfig: bool) {
    predicate Any() { keyIndexOverride || providerOverride || slotConfig }
  }

  /** `dependents_of` for the variable of `slot`. */
  function DependentsOf(c: Config, f: Family, slot: nat): Dependents {
    Dependents(f in c.keyIndex && c.keyIndex[f] == slot,
               c.provider == Some(f) && c.ActiveSlot(f) == slot,
               (f, slot) in c.slotRows)
  }

  /** What a delete clears once the variable is gone; a raising write leaves what comes after it. */
  function Cleaned(c: Config, f: Family, slot: nat, indexWritable: bool, rowWritable: bool): Config {
    var d := DependentsOf(c, f, slot);
    if d.keyIndexOverride && !indexWritable then c
    else
      var c1 := if d.keyIndexOverride then c.(keyIndex := c.keyIndex - {f}) else c;
      if d.slotConfig && rowWritable then c1.(slotRows := c1.slotRows - {(f, slot)}) else c1
  }

  /** A delete touches nothing but its own slot: every other row, every other family's override and an
      override that points elsewhere stay; its own go if the writes work, the override first. */
  lemma OnlyItsOwnIsCleared(c: Config, f: Family, slot: nat, indexWritable: bool, rowWritable: bool)
    ensures var c' := Cleaned(c, f, slot, indexWritable, rowWritable);
            var overridden := f in c.keyIndex && c.keyIndex[f] == slot;
            && c'.provider == c.provider
            && (forall r | r != (f, slot) :: r in c'.slotRows <==> r in c.slotRows)
            && (forall g | g != f || !overridden ::
                  (g in c'.keyIndex <==> g in c.keyIndex) && (g in c.keyIndex ==> c'.keyIndex[g] == c.keyIndex[g]))
            && (overridden ==> (f in c'.keyIndex <==> !indexWritable))
            && ((f, slot) in c'.slotRows <==>
                  (f, slot) in c.slotRows && !(rowWritable && (overridden ==> indexWritable)))
  {
  }

  /** Taking away a variable leaves something dangling exactly if something still depends on it. */
  lemma DanglesIffDepended(env: Env, c: Config, f: Family, slot: nat)
    requires NothingDangles(env, c) && slot < MAX_CREDENTIAL_SLOTS
    ensures NothingDangles(env - {SlotVar(f, slot)}, c) <==> !DependentsOf(c, f, slot).Any()
  {
    forall g: Family, j: nat | j < MAX_CREDENTIAL_SLOTS
      ensures SlotVar(g, j) == SlotVar(f, slot) ==> g == f && j == slot
    {
      SlotVarsDiffer(g, j, f, slot);
    }
  }

  /** A variable that is no slot's can go at any time. */
  lemma OtherVarsAreFree(env: Env, c: Config, key: string)
    requires NothingDangles(env, c)
    requires forall f: Family, i: nat | i < MAX_CREDENTIAL_SLOTS :: key != SlotVar(f, i)
    ensures NothingDangles(env - {key}, c)
  {
  }

  /** A confirmed delete of a slot the active provider does not run on: it never changes the live
      pair, and leaves nothing dangling exactly if the writes it needed went through. */
  lemma CascadeIsSound(env: Env, c: Config, f: Family, slot: nat, indexWritable: bool, rowWritable: bool)
    requires NothingDangles(env, c) && slot < MAX_CREDENTIAL_SLOTS
    requires !DependentsOf(c, f, slot).providerOverride
    ensures var c' := Cleaned(c, f, slot, indexWritable, rowWritable);
            var d := DependentsOf(c, f, slot);
            && c'.Live() == c.Live()
            && (NothingDangles(env - {SlotVar(f, slot)}, c') <==>
                  (d.keyIndexOverride ==> indexWritable) && (d.slotConfig ==> rowWritable))
  {
    var c' := Cleaned(c, f, slot, indexWritable, rowWritable);
    assert NothingDangles(env, c') by {
      assert c'.keyIndex.Keys <= c.keyIndex.Keys && c'.slotRows <= c.slotRows;
    }
    DanglesIffDepended(env, c', f, slot);
  }

  /** A spare key's slot with an override, deleted while the override cannot be cleared: the override dangles. */
  lemma {:induction false} FailedClearDangles()
    ensures var env, c := {SlotVar(Groq, 1)}, Config(None, map[Groq := 1], {});
            && NothingDangles(env, c) && !DependentsOf(c, Groq, 1).providerOverride
            && !NothingDangles(env - {SlotVar(Groq, 1)}, Cleaned(c, Groq, 1, false, true))
  {
    hide SlotVar;
    CascadeIsSound({SlotVar(Groq, 1)}, Config(None, map[Groq := 1], {}), Groq, 1, false, true);
  }

  // ---- Which bulk deletes go through ----

  /** Not protected, and no slot's variable that something depends on. */
  ghost predicate Deletable(c: Config, key: string) {
    && key !in PROTECTED_ENV_KEYS
    && forall f: Family, i: nat | i < MAX_CREDENTIAL_SLOTS && key == SlotVar(f, i) :: !DependentsOf(c, f, i).Any()
  }

  ghost function Kept(c: Config, keys: seq<string>): seq<string> {
    if keys == [] then []
    else
      var last := keys[|keys| - 1];
      Kept(c, keys[..|keys| - 1]) + (if Deletable(c, last) then [last] else [])
  }

  /** The first position whose delete is tried and raises, or the end. */
  ghost function FirstRaise(c: Config, keys: seq<string>, raising: set<nat>): (n: nat)
    ensures n <= |keys|
    ensures n < |keys| ==> Deletable(c, keys[n]) && n in raising
    ensures forall j | 0 <= j < n :: !(Deletable(c, keys[j]) && j in raising)
  {
    if keys == [] then 0
    else
      var front := keys[..|keys| - 1];
      var n := FirstRaise(c, front, raising);
      if n < |front| then n
      else if Deletable(c, keys[|front|]) && |front| in raising then |front| else |keys|
  }

  lemma FirstRaiseIs(c: Config, keys: seq<string>, raising: set<nat>, n: nat)
    requires n <= |keys| && (n < |keys| ==> Deletable(c, keys[n]) && n in raising)
    requires forall j | 0 <= j < n :: !(Deletable(c, keys[j]) && j in raising)
    ensures FirstRaise(c, keys, raising) == n
  {
    hide Deletable;
    var m := FirstRaise(c, keys, raising);
    assert !(m < n) && !(n < m);
  }

  /** What goes through is deletable, and everything deletable goes through. */
  lemma {:induction false} KeptAreDeletable(c: Config, keys: seq<string>, key: string)
    ensures key in Kept(c, keys) <==> key in keys && Deletable(c, key)
  {
    hide Deletable;
    if keys != [] {
      KeptAreDeletable(c, keys[..|keys| - 1], key);
      assert keys == keys[..|keys| - 1] + [keys[|keys| - 1]];
    }
  }

  lemma NothingKept(c: Config, keys: seq<string>)
    ensures Kept(c, keys[..0]) == [] && keys[..|keys|] == keys
  {
  }

  lemma KeptNext(c: Config, keys: seq<string>, k: nat)
    requires k < |keys|
    ensures Kept(c, keys[..k + 1]) == Kept(c, keys[..k]) + (if Deletable(c, keys[k]) then [keys[k]] else [])
  {
    assert keys[..k + 1][..k] == keys[..k];
  }

  datatype Answer =
    | Deleted
    | Protected
    | ActiveProviderCredential
    | NeedsConfirmation
    | ServiceNotFound
    | DeleteRaised
    | StoreRaised

  class Credentials {
    var env: Env
    var config: Config

    constructor (env: Env, config: Config)
      ensures this.env == env && this.config == config
    {
      this.env, this.config := env, config;
    }

    method FindSlot(key: string) returns (found: Option<(Family, nat)>)
      ensures found.Some? ==> found.value.1 < MAX_CREDENTIAL_SLOTS && key == SlotVar(found.value.0, found.value.1)
      ensures found.None? ==> forall f: Family, i: nat | i < MAX_CREDENTIAL_SLOTS :: key != SlotVar(f, i)
    {
      for k := 0 to |FAMILIES|
        invariant forall j, i: nat | 0 <= j < k && i < MAX_CREDENTIAL_SLOTS :: key != SlotVar(FAMILIES[j], i)
      {
        var slot := SlotIndexForVar(FAMILIES[k], key);
        if slot.Some? {
          return Some((FAMILIES[k], slot.value));
        }
      }
      forall f: Family, i: nat | i < MAX_CREDENTIAL_SLOTS
        ensures key != SlotVar(f, i)
      {
        var j := if f.Gemini? then 0 else if f.Groq? then 1 else 2;
        assert FAMILIES[j] == f;
      }
      found := None;
    }

    /** `_cascade_delete`. */
    method CascadeDelete(key: string, confirm: bool, serviceFound: bool, deleteWorks: bool,
                         indexWritable: bool, rowWritable: bool)
      returns (answer: Answer)
      modifies this
      ensures !(answer.Deleted? || answer.StoreRaised?) ==> env == old(env) && config == old(config)
      ensures answer.Deleted? || answer.StoreRaised? ==> env == old(env) - {key}
      ensures config.Live() == old(config).Live()
      ensures NothingDangles(old(env), old(config)) && !answer.StoreRaised? ==> NothingDangles(env, config)
      ensures answer.StoreRaised? ==> !(indexWritable && rowWritable)
      ensures forall f: Family, i: nat | i < MAX_CREDENTIAL_SLOTS && key == SlotVar(f, i)
                && key !in PROTECTED_ENV_KEYS ::
                && (answer.ActiveProviderCredential? <==> old(config).Live() == Some((f, i)))
                && (answer.NeedsConfirmation? <==>
                      !answer.ActiveProviderCredential? && DependentsOf(old(config), f, i).Any() && !confirm)
                && (answer.Deleted? || answer.StoreRaised? ==>
                      config == Cleaned(old(config), f, i, indexWritable, rowWritable))
    {
      if key in PROTECTED_ENV_KEYS {
        return Protected;
      }
      var found := FindSlot(key);
      if found.Some? {
        forall f: Family, i: nat | i < MAX_CREDENTIAL_SLOTS && key == SlotVar(f, i)
          ensures f == found.value.0 && i == found.value.1
        {
          SlotVarsDiffer(f, i, found.value.0, found.value.1);
        }
        var d := DependentsOf(config, found.value.0, found.value.1);
        if d.providerOverride {
          return ActiveProviderCredential;
        }
        if d.Any() && !confirm {
          return NeedsConfirmation;
        }
      }
      if !serviceFound {
        return ServiceNotFound;
      }
      if !deleteWorks {
        return DeleteRaised;
      }
      ghost var before := env;
      env := env - {key};
      if found.None? {
        if NothingDangles(before, config) {
          OtherVarsAreFree(before, config, key);
        }
        return Deleted;
      }
      var (f, slot) := found.value;
      var d := DependentsOf(config, f, slot);
      if NothingDangles(before, config) {
        CascadeIsSound(before, config, f, slot, indexWritable, rowWritable);
      }
      answer := if (d.keyIndexOverride && !indexWritable) || (d.slotConfig && !rowWritable)
                then StoreRaised else Deleted;
      config := Cleaned(config, f, slot, indexWritable, rowWritable);
    }

    /** The delete loop of `_apply_render_patch`: exactly the deletable variables before the first delete
        that raises are gone, in order; `raising` are the positions whose delete raises. */
    method BulkDelete(keys: seq<string>, raising: set<nat>) returns (applied: seq<string>)
      modifies this`env
      ensures applied == Kept(config, keys[..FirstRaise(config, keys, raising)])
      ensures env == old(env) - (set key | key in applied)
      ensures NothingDangles(old(env), config) ==> NothingDangles(env, config)
    {
      hide Deletable, NothingDangles, DependentsOf, SlotVar, Kept, FirstRaise;
      applied := [];
      NothingKept(config, keys);
      for k := 0 to |keys|
        invariant applied == Kept(config, keys[..k])
        invariant forall j | 0 <= j < k :: !(Deletable(config, keys[j]) && j in raising)
        invariant env == old(env) - (set key | key in applied)
        invariant NothingDangles(old(env), config) ==> NothingDangles(env, config)
      {
        var key := keys[k];
        KeptNext(config, keys, k);
        var found := FindSlot(key);
        SlotDecides(key, found);
        if key in PROTECTED_ENV_KEYS {
          continue;
        }
        if found.Some? && DependentsOf(config, found.value.0, found.value.1).Any() {
          continue;
        }
        if k in raising {
          FirstRaiseIs(config, keys, raising, k);
          return;
        }
        FreeToDelete(key, found);
        env := env - {key};
        applied := applied + [key];
      }
      FirstRaiseIs(config, keys, raising, |keys|);
    }

    lemma SlotDecides(key: string, found: Option<(Family, nat)>)
      requires found.Some? ==> found.value.1 < MAX_CREDENTIAL_SLOTS && key == SlotVar(found.value.0, found.value.1)
      requires found.None? ==> forall f: Family, i: nat | i < MAX_CREDENTIAL_SLOTS :: key != SlotVar(f, i)
      ensures Deletable(config, key) <==>
                key !in PROTECTED_ENV_KEYS && !(found.Some? && DependentsOf(config, found.value.0, found.value.1).Any())
    {
      if found.Some? {
        forall f: Family, i: nat | i < MAX_CREDENTIAL_SLOTS && key == SlotVar(f, i)
          ensures f == found.value.0 && i == found.value.1
        {
          SlotVarsDiffer(f, i, found.value.0, found.value.1);
        }
      }
    }

    lemma FreeToDelete(key: string, found: Option<(Family, nat)>)
      requires found.Some? ==> found.value.1 < MAX_CREDENTIAL_SLOTS && key == SlotVar(found.value.0, found.value.1)
                               && !DependentsOf(config, found.value.0, found.value.1).Any()
      requires found.None? ==> forall f: Family, i: nat | i < MAX_CREDENTIAL_SLOTS :: key != SlotVar(f, i)
      ensures NothingDangles(env, config) ==> NothingDangles(env - {key}, config)
      ensures forall f: Family, i: nat | i < MAX_CREDENTIAL_SLOTS && key == SlotVar(f, i) ::
                !DependentsOf(config, f, i).Any()
    {
      if found.Some? {
        forall f: Family, i: nat | i < MAX_CREDENTIAL_SLOTS && key == SlotVar(f, i)
          ensures f == found.value.0 && i == found.value.1
        {
          SlotVarsDiffer(f, i, found.value.0, found.value.1);
        }
        if NothingDangles(env, config) {
          DanglesIffDepended(env, config, found.value.0, found.value.1);
        }
      } else if NothingDangles(env, config) {
        OtherVarsAreFree(env, config, key);
      }
    }
  }
}
