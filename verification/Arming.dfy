/** The dashboard's configuration PATCH: which (provider, slot) it makes live, which pairs it
    probes first, and that the stored settings stay readable. */
module Arming {
  import opened Wrappers
  import opened Bounds
  import Credentials

  type Provider = string
  type Slot = (Provider, int)

  predicate Known(p: Provider) { p in {"gemini", "groq", "vertex"} }

  /** The response keys a PATCH answers about. */
  datatype FieldKey = ProviderField | IndexField(provider: Provider)

  /** The settings a PATCH writes group by group. */
  datatype StoredSettings = StoredSettings(
    cooldown: Row,
    tokenCap: Option<int>,
    reset: Option<string>,
    reviewDrafts: Option<bool>,
    tuning: Row)

  /** `changesProvider` distinguishes an absent field from an explicit null, as does the outer option
      of the usage and draft fields. */
  datatype Patch = Patch(
    changesProvider: bool,
    provider: Option<Provider>,
    keyIndex: seq<(Provider, Option<int>)>,
    cooldown: Row,
    tokenCap: Option<Option<int>>,
    reset: Option<Option<string>>,
    reviewDrafts: Option<Option<bool>>,
    tuning: Row)
  {
    /** The keys of a JSON object are distinct. */
    predicate Valid() {
      forall i, j | 0 <= i < j < |keyIndex| :: keyIndex[i].0 != keyIndex[j].0
    }

    predicate Submits(p: Provider) {
      exists i | 0 <= i < |keyIndex| :: keyIndex[i].0 == p
    }

    /** The PATCH names a real provider to switch to. */
    predicate Switches() {
      changesProvider && provider.Some? && Known(provider.value)
    }

    ghost function Submitted(p: Provider): (index: Option<int>)
      requires Submits(p)
      ensures (p, index) in keyIndex
    {
      var i :| 0 <= i < |keyIndex| && keyIndex[i].0 == p;
      keyIndex[i].1
    }

    lemma SubmittedIs(i: nat)
      requires Valid() && i < |keyIndex|
      ensures Submits(keyIndex[i].0) && Submitted(keyIndex[i].0) == keyIndex[i].1
    {
      var j :| 0 <= j < |keyIndex| && keyIndex[j].0 == keyIndex[i].0 && Submitted(keyIndex[i].0) == keyIndex[j].1;
    }
  }

  /** The runtime_config columns at issue, and the models of the slot_config rows. */
  datatype Stored = Stored(provider: Option<Provider>, keyIndex: map<Provider, int>, models: map<Slot, string>)
  {
    /** A missing override is slot 0. */
    function Index(p: Provider): int {
      if p in keyIndex then keyIndex[p] else 0
    }

    /** The pair reviews run against. */
    function Live(): Option<Slot> {
      if provider.None? then None else Some((provider.value, Index(provider.value)))
    }
  }

  /** The slot `p` would run against after the PATCH: a submission wins, and a clear means slot 0. */
  ghost function EffectiveIndex(s: Stored, patch: Patch, p: Provider): int {
    if patch.Submits(p) then patch.Submitted(p).GetOr(0) else s.Index(p)
  }

  /** The pair a field newly arms, if it arms one. */
  ghost function Target(s: Stored, patch: Patch, key: FieldKey): Option<Slot> {
    match key
    case ProviderField =>
      if patch.Switches() && patch.provider != s.provider
      then Some((patch.provider.value, EffectiveIndex(s, patch, patch.provider.value))) else None
    case IndexField(p) =>
      if patch.Submits(p) && Known(p) && EffectiveIndex(s, patch, p) != s.Index(p)
         && (s.provider == Some(p) || (patch.Switches() && patch.provider == Some(p)))
      then Some((p, EffectiveIndex(s, patch, p))) else None
  }

  type Targets = map<Slot, seq<FieldKey>>

  /** `setdefault(pair, []).append(key)`. */
  function AddTarget(targets: Targets, pair: Slot, key: FieldKey): Targets {
    targets[pair := (if pair in targets then targets[pair] else []) + [key]]
  }

  ghost predicate Asks(targets: Targets, pair: Slot, key: FieldKey) {
    pair in targets && key in targets[pair]
  }

  ghost predicate ProbesExactly(targets: Targets, s: Stored, patch: Patch) {
    && (forall pair, key :: Asks(targets, pair, key) <==> Target(s, patch, key) == Some(pair))
    && (forall pair | pair in targets :: targets[pair] != [])
  }

  lemma AddedTargetAsks(targets: Targets, pair: Slot, key: FieldKey)
    ensures forall q, k :: Asks(AddTarget(targets, pair, key), q, k) <==> Asks(targets, q, k) || (q == pair && k == key)
  {
  }

  /** The PATCH has `pair` probed. */
  ghost predicate Probes(s: Stored, patch: Patch, pair: Slot) {
    exists key :: Target(s, patch, key) == Some(pair)
  }

  /** What a probe of a slot's stored model answers: `None` passes, `Some` is an error code. */
  type Probe = Slot -> Option<string>

  /** `model_check.problems`: a slot without a stored model fails before anything is probed. */
  function Answer(s: Stored, probe: Probe, pair: Slot): Option<string> {
    if pair !in s.models || s.models[pair] == "" then Some("model_required") else probe(pair)
  }

  /** The slot has a stored model and its probe came back clean. */
  predicate Proven(s: Stored, probe: Probe, pair: Slot) {
    pair in s.models && s.models[pair] != "" && probe(pair).None?
  }

  predicate InRange(patch: Patch) {
    forall i | 0 <= i < |patch.keyIndex| && patch.keyIndex[i].1.Some? ::
      0 <= patch.keyIndex[i].1.value < Credentials.MAX_CREDENTIAL_SLOTS
  }

  /** The arming probe of a field comes back clean, or the field arms nothing. */
  ghost predicate Cleared(s: Stored, patch: Patch, probe: Probe, key: FieldKey) {
    Target(s, patch, key).Some? ==> Proven(s, probe, Target(s, patch, key).value)
  }

  /** The provider field is written; `broken` are the columns whose write raises. */
  ghost predicate WritesProvider(s: Stored, patch: Patch, probe: Probe, broken: set<FieldKey>) {
    && patch.changesProvider && (patch.provider.None? || Known(patch.provider.value))
    && Cleared(s, patch, probe, ProviderField) && ProviderField !in broken
  }

  ghost predicate WritesIndex(s: Stored, patch: Patch, probe: Probe, broken: set<FieldKey>, p: Provider)
    ensures WritesIndex(s, patch, probe, broken, p) ==> patch.Submits(p)
  {
    && patch.Submits(p) && Known(p)
    && (patch.Submitted(p).Some? ==> 0 <= patch.Submitted(p).value < Credentials.MAX_CREDENTIAL_SLOTS)
    && Cleared(s, patch, probe, IndexField(p)) && IndexField(p) !in broken
  }

  ghost predicate Writes(s: Stored, patch: Patch, probe: Probe, broken: set<FieldKey>, key: FieldKey) {
    match key
    case ProviderField => WritesProvider(s, patch, probe, broken)
    case IndexField(p) => WritesIndex(s, patch, probe, broken, p)
  }

  /** The stored columns a PATCH leaves behind. */
  ghost predicate Patched(s: Stored, s': Stored, patch: Patch, probe: Probe, broken: set<FieldKey>) {
    && s'.models == s.models
    && s'.provider == (if WritesProvider(s, patch, probe, broken) then patch.provider else s.provider)
    && (forall p: Provider :: s'.Index(p) ==
          if WritesIndex(s, patch, probe, broken, p) then patch.Submitted(p).GetOr(0) else s.Index(p))
  }

  /** The failures found once every target outside `rest` was probed. */
  ghost predicate FailedSoFar(failures: map<FieldKey, string>, s: Stored, patch: Patch, probe: Probe, rest: set<Slot>) {
    forall key ::
      var target := Target(s, patch, key);
      if target.Some? && target.value !in rest && Answer(s, probe, target.value).Some?
      then key in failures && failures[key] == Answer(s, probe, target.value).value
      else key !in failures
  }

  lemma NothingFailedYet(targets: Targets, s: Stored, patch: Patch, probe: Probe)
    requires ProbesExactly(targets, s, patch)
    ensures FailedSoFar(map[], s, patch, probe, targets.Keys)
  {
    hide Target;
    forall key | Target(s, patch, key).Some?
      ensures Target(s, patch, key).value in targets
    {
      assert Asks(targets, Target(s, patch, key).value, key);
    }
  }

  lemma OneMoreProbed(targets: Targets, s: Stored, patch: Patch, probe: Probe, pair: Slot, rest: set<Slot>,
                      failures: map<FieldKey, string>)
    requires ProbesExactly(targets, s, patch) && pair in rest && rest <= targets.Keys
    requires FailedSoFar(failures, s, patch, probe, rest)
    ensures var answer := Answer(s, probe, pair);
            FailedSoFar(if answer.None? then failures else failures + map key | key in targets[pair] :: answer.value,
                        s, patch, probe, rest - {pair})
  {
    hide Target, Answer;
    forall key
      ensures key in targets[pair] <==> Target(s, patch, key) == Some(pair)
    {
      assert Asks(targets, pair, key) <==> Target(s, patch, key) == Some(pair);
    }
  }

  /** What a PATCH reports of the fields that arm something: what the probe said of the stored model, or that
      there is none. */
  ghost predicate Reports(failures: map<FieldKey, string>, s: Stored, patch: Patch, probe: Probe, key: FieldKey) {
    var target := Target(s, patch, key);
    if target.None? then key !in failures
    else if target.value !in s.models || s.models[target.value] == ""
    then key in failures && failures[key] == "model_required"
    else match probe(target.value)
         case None => key !in failures
         case Some(error) => key in failures && failures[key] == error
  }

  lemma AllProbed(failures: map<FieldKey, string>, s: Stored, patch: Patch, probe: Probe)
    requires FailedSoFar(failures, s, patch, probe, {})
    ensures forall key :: Reports(failures, s, patch, probe, key)
    ensures forall key :: key in failures <==> !Cleared(s, patch, probe, key)
  {
    hide Target;
  }

  lemma IndexWriteDecided(s: Stored, patch: Patch, probe: Probe, failures: set<FieldKey>, broken: set<FieldKey>, i: nat)
    requires patch.Valid() && i < |patch.keyIndex|
    requires forall key :: key in failures <==> !Cleared(s, patch, probe, key)
    ensures var (p, index) := patch.keyIndex[i];
            WritesIndex(s, patch, probe, broken, p) <==>
              Known(p) && (index.None? || 0 <= index.value < Credentials.MAX_CREDENTIAL_SLOTS)
              && IndexField(p) !in failures && IndexField(p) !in broken
  {
    patch.SubmittedIs(i);
  }

  class ConfigStore {
    var provider: Option<Provider>
    var keyIndex: map<Provider, int>
    var models: map<Slot, string>
    var settings: StoredSettings

    function Columns(): Stored
      reads this
    {
      Stored(provider, keyIndex, models)
    }

    constructor (stored: Stored, settings: StoredSettings)
      ensures Columns() == stored && this.settings == settings
    {
      provider, keyIndex, models := stored.provider, stored.keyIndex, stored.models;
      this.settings := settings;
    }

    method EffectiveIndexOf(patch: Patch, p: Provider) returns (index: int)
      requires patch.Valid()
      ensures index == EffectiveIndex(Columns(), patch, p)
    {
      for i := 0 to |patch.keyIndex|
        invariant forall j | 0 <= j < i :: patch.keyIndex[j].0 != p
      {
        if patch.keyIndex[i].0 == p {
          patch.SubmittedIs(i);
          return if patch.keyIndex[i].1.Some? then patch.keyIndex[i].1.value else 0;
        }
      }
      index := if p in keyIndex then keyIndex[p] else 0;
    }

    /** `_arming_probe_targets`. */
    method ArmingProbeTargets(patch: Patch) returns (targets: Targets)
      requires patch.Valid()
      ensures ProbesExactly(targets, Columns(), patch)
    {
      targets := map[];
      ghost var s := Columns();
      ghost var seen: set<Provider> := {};
      for i := 0 to |patch.keyIndex|
        invariant forall pair, key :: Asks(targets, pair, key) <==>
                    key.IndexField? && key.provider in seen && Target(s, patch, key) == Some(pair)
        invariant seen == set j | 0 <= j < i :: patch.keyIndex[j].0
        invariant forall pair | pair in targets :: targets[pair] != []
      {
        var p := patch.keyIndex[i].0;
        patch.SubmittedIs(i);
        seen := seen + {p};
        if Known(p) {
          var newIndex := EffectiveIndexOf(patch, p);
          if newIndex != (if p in keyIndex then keyIndex[p] else 0)
             && (provider == Some(p) || (patch.Switches() && patch.provider == Some(p))) {
            AddedTargetAsks(targets, (p, newIndex), IndexField(p));
            targets := AddTarget(targets, (p, newIndex), IndexField(p));
          }
        }
      }
      if patch.Switches() && patch.provider != provider {
        var slot := EffectiveIndexOf(patch, patch.provider.value);
        AddedTargetAsks(targets, (patch.provider.value, slot), ProviderField);
        targets := AddTarget(targets, (patch.provider.value, slot), ProviderField);
      }
    }

    /** `_arming_problems`: every field whose target fails its probe. */
    method ArmingProblems(patch: Patch, probe: Probe) returns (failures: map<FieldKey, string>, probed: set<Slot>)
      requires patch.Valid()
      ensures forall key :: key in failures <==> !Cleared(Columns(), patch, probe, key)
      ensures forall key :: Reports(failures, Columns(), patch, probe, key)
      ensures forall pair :: pair in probed <==> Probes(Columns(), patch, pair)
    {
      hide FailedSoFar, Target, Answer, Reports, Cleared;
      var targets := ArmingProbeTargets(patch);
      ghost var s := Columns();
      failures := map[];
      probed := targets.Keys;
      var rest := targets.Keys;
      NothingFailedYet(targets, s, patch, probe);
      while rest != {}
        invariant rest <= targets.Keys
        invariant FailedSoFar(failures, s, patch, probe, rest)
        decreases rest
      {
        var pair :| pair in rest;
        var answer := Answer(Columns(), probe, pair);
        OneMoreProbed(targets, s, patch, probe, pair, rest, failures);
        if answer.Some? {
          failures := failures + map key | key in targets[pair] :: answer.value;
        }
        rest := rest - {pair};
      }
      AllProbed(failures, s, patch, probe);
      forall pair
        ensures pair in probed <==> Probes(s, patch, pair)
      {
        if pair in targets {
          assert Asks(targets, pair, targets[pair][0]);
        }
      }
    }

    /** `_apply_config_patch`; `broken` and `brokenGroups` are the writes that raise, and `isTime` is what
        `time.fromisoformat` accepts. */
    method ApplyConfigPatch(patch: Patch, probe: Probe, broken: set<FieldKey>, brokenGroups: set<Group>,
                            isTime: string -> bool)
      returns (applied: seq<FieldKey>, probed: set<Slot>)
      requires patch.Valid()
      modifies this
      ensures Patched(old(Columns()), Columns(), patch, probe, broken)
      ensures forall pair :: pair in probed <==> Probes(old(Columns()), patch, pair)
      ensures forall key :: key in applied <==> Writes(old(Columns()), patch, probe, broken, key)
      ensures settings == PatchedSettings(old(settings), patch, brokenGroups, isTime)
    {
      hide Patched, Probes, PatchedSettings;
      ghost var s := Columns();
      var failures;
      failures, probed := ArmingProblems(patch, probe);
      applied := [];
      if patch.changesProvider && (patch.provider.None? || Known(patch.provider.value))
         && ProviderField !in failures && ProviderField !in broken {
        provider := patch.provider;
        applied := applied + [ProviderField];
      }
      ApplySettings(patch, brokenGroups, isTime);
      var indexes := ApplyKeyIndexes(patch, failures.Keys, broken, s, probe);
      applied := applied + indexes;
      PatchedColumns(s, Columns(), patch, probe, broken);
    }

    method ApplyKeyIndexes(patch: Patch, failures: set<FieldKey>, broken: set<FieldKey>, ghost s: Stored,
                           ghost probe: Probe)
      returns (applied: seq<FieldKey>)
      requires patch.Valid() && keyIndex == s.keyIndex
      requires forall key :: key in failures <==> !Cleared(s, patch, probe, key)
      modifies this`keyIndex
      ensures forall p: Provider :: Columns().Index(p) ==
                if WritesIndex(s, patch, probe, broken, p) then patch.Submitted(p).GetOr(0) else s.Index(p)
      ensures forall key :: key in applied <==> key.IndexField? && WritesIndex(s, patch, probe, broken, key.provider)
    {
      hide Cleared, Known, WritesIndex;
      applied := [];
      ghost var seen: set<Provider> := {};
      for i := 0 to |patch.keyIndex|
        invariant forall p: Provider :: Columns().Index(p) ==
                    if WritesIndex(s, patch, probe, broken, p) && p in seen
                    then patch.Submitted(p).GetOr(0) else s.Index(p)
        invariant seen == set j | 0 <= j < i :: patch.keyIndex[j].0
        invariant forall key :: key in applied <==>
                    key.IndexField? && WritesIndex(s, patch, probe, broken, key.provider) && key.provider in seen
      {
        var (p, index) := patch.keyIndex[i];
        patch.SubmittedIs(i);
        IndexWriteDecided(s, patch, probe, failures, broken, i);
        seen := seen + {p};
        if Known(p) && (index.None? || 0 <= index.value < Credentials.MAX_CREDENTIAL_SLOTS)
           && IndexField(p) !in failures && IndexField(p) !in broken {
          keyIndex := if index.None?
                      then map q | q in keyIndex && q != p :: keyIndex[q]
                      else keyIndex[p := index.value];
          applied := applied + [IndexField(p)];
        }
      }
    }

    method ApplyCooldown(fields: Row, broken: set<Group>)
      modifies this`settings
      ensures settings == old(settings).(cooldown := PatchedCooldown(old(settings).cooldown, fields, broken))
    {
      hide Usable;
      if fields != map[] {
        var merged := settings.cooldown + fields;
        var found := Problems(COOLDOWN_BOUNDS, merged, COOLDOWN_BASE, COOLDOWN_CAP);
        if found == [] && CooldownGroup !in broken {
          settings := settings.(cooldown := merged);
        }
      }
    }

    method ApplyTuning(fields: Row, broken: set<Group>)
      modifies this`settings
      ensures settings == old(settings).(tuning := PatchedTuning(old(settings).tuning, fields, broken))
    {
      hide Usable;
      if fields != map[] {
        var merged := settings.tuning + fields;
        var found := Problems(TUNING_BOUNDS, merged, BACKOFF_BASE, BACKOFF_CAP);
        if found == [] && IDLE_SLEEP in merged && merged[IDLE_SLEEP].Some? && merged[IDLE_SLEEP].value > 0.0
           && TuningGroup !in broken {
          settings := settings.(tuning := merged);
        }
      }
    }

    /** Each group is merged with what is stored, validated as a whole, and written whole or not at all. */
    method ApplySettings(patch: Patch, broken: set<Group>, isTime: string -> bool)
      modifies this`settings
      ensures settings == PatchedSettings(old(settings), patch, broken, isTime)
    {
      hide PatchedCooldown, PatchedTuning;
      ApplyCooldown(patch.cooldown, broken);
      if patch.tokenCap.Some? || patch.reset.Some? {
        var cap := patch.tokenCap.GetOr(settings.tokenCap);
        var reset := patch.reset.GetOr(settings.reset);
        if !(cap.Some? && cap.value <= 0) && reset.Some? && isTime(reset.value) && UsageGroup !in broken {
          settings := settings.(tokenCap := cap, reset := reset);
        }
      }
      if patch.reviewDrafts.Some? && DraftGroup !in broken {
        settings := settings.(reviewDrafts := patch.reviewDrafts.value);
      }
      ApplyTuning(patch.tuning, broken);
    }
  }

  lemma PatchedColumns(s: Stored, s': Stored, patch: Patch, probe: Probe, broken: set<FieldKey>)
    requires s'.models == s.models
    requires s'.provider == if WritesProvider(s, patch, probe, broken) then patch.provider else s.provider
    requires forall p: Provider :: s'.Index(p) ==
               if WritesIndex(s, patch, probe, broken, p) then patch.Submitted(p).GetOr(0) else s.Index(p)
    ensures Patched(s, s', patch, probe, broken)
  {
  }

  // ---- The settings ----

  datatype Group = CooldownGroup | UsageGroup | DraftGroup | TuningGroup

  const IDLE_SLEEP := "dispatcher_idle_sleep_seconds"

  predicate ReadableCooldown(row: Row) {
    Usable(COOLDOWN_BOUNDS, row, COOLDOWN_BASE, COOLDOWN_CAP)
  }

  predicate ReadableUsage(cap: Option<int>, reset: Option<string>, isTime: string -> bool) {
    (cap.Some? ==> cap.value > 0) && reset.Some? && isTime(reset.value)
  }

  predicate ReadableTuning(row: Row) {
    Usable(TUNING_BOUNDS, row, BACKOFF_BASE, BACKOFF_CAP) && Present(row, IDLE_SLEEP) && row[IDLE_SLEEP].value > 0.0
  }

  /** Every reader accepts what is stored. */
  predicate Readable(x: StoredSettings, isTime: string -> bool) {
    ReadableCooldown(x.cooldown) && ReadableUsage(x.tokenCap, x.reset, isTime) && ReadableTuning(x.tuning)
  }

  function PatchedCooldown(row: Row, fields: Row, broken: set<Group>): Row {
    if fields != map[] && ReadableCooldown(row + fields) && CooldownGroup !in broken then row + fields else row
  }

  function PatchedTuning(row: Row, fields: Row, broken: set<Group>): Row {
    if fields != map[] && ReadableTuning(row + fields) && TuningGroup !in broken then row + fields else row
  }

  function PatchedUsage(x: StoredSettings, patch: Patch, broken: set<Group>, isTime: string -> bool): StoredSettings {
    var cap, reset := patch.tokenCap.GetOr(x.tokenCap), patch.reset.GetOr(x.reset);
    if (patch.tokenCap.Some? || patch.reset.Some?) && ReadableUsage(cap, reset, isTime) && UsageGroup !in broken
    then x.(tokenCap := cap, reset := reset) else x
  }

  function PatchedSettings(x: StoredSettings, patch: Patch, broken: set<Group>, isTime: string -> bool): StoredSettings
  {
    PatchedUsage(x, patch, broken, isTime).(
      cooldown := PatchedCooldown(x.cooldown, patch.cooldown, broken),
      reviewDrafts := if patch.reviewDrafts.Some? && DraftGroup !in broken
                      then patch.reviewDrafts.value else x.reviewDrafts,
      tuning := PatchedTuning(x.tuning, patch.tuning, broken))
  }

  function PatchedAll(x: StoredSettings, patches: seq<(Patch, set<Group>)>, isTime: string -> bool): StoredSettings
    decreases |patches|
  {
    if patches == [] then x
    else PatchedAll(PatchedSettings(x, patches[0].0, patches[0].1, isTime), patches[1..], isTime)
  }

  /** From settings the readers accept, no sequence of PATCHes, whichever writes raise, stores any they
      would discard. */
  lemma {:induction false} PatchesKeepSettingsReadable(x: StoredSettings, patches: seq<(Patch, set<Group>)>,
                                                       isTime: string -> bool)
    requires Readable(x, isTime)
    ensures Readable(PatchedAll(x, patches, isTime), isTime)
    decreases |patches|
  {
    if patches != [] {
      PatchesKeepSettingsReadable(PatchedSettings(x, patches[0].0, patches[0].1, isTime), patches[1..], isTime);
    }
  }

  predicate Merges(want: Row, row: Row, fields: Row) {
    && want.Keys == row.Keys + fields.Keys
    && forall k | k in want :: want[k] == if k in fields then fields[k] else row[k]
  }

  /** Settings with every submitted field in place of the stored one, if every reader would accept them, are
      what a PATCH without failing writes stores: in full. */
  lemma {:induction false} AcceptablePatchIsStored(x: StoredSettings, want: StoredSettings, patch: Patch,
                                                   isTime: string -> bool)
    requires Readable(want, isTime)
    requires Merges(want.cooldown, x.cooldown, patch.cooldown) && Merges(want.tuning, x.tuning, patch.tuning)
    requires want.tokenCap == (if patch.tokenCap.Some? then patch.tokenCap.value else x.tokenCap)
    requires want.reset == (if patch.reset.Some? then patch.reset.value else x.reset)
    requires want.reviewDrafts == if patch.reviewDrafts.Some? then patch.reviewDrafts.value else x.reviewDrafts
    ensures PatchedSettings(x, patch, {}, isTime) == want
  {
    hide ReadableCooldown, ReadableTuning;
    assert want.cooldown == x.cooldown + patch.cooldown;
    assert want.tuning == x.tuning + patch.tuning;
  }

  // ---- Arming ----

  /** The live pair changed to one that was not probed, or failed its probe. */
  ghost predicate Unsound(s: Stored, s': Stored, patch: Patch, probe: Probe) {
    && s'.Live().Some? && s'.Live() != s.Live()
    && !(Probes(s, patch, s'.Live().value) && Proven(s, probe, s'.Live().value))
  }

  /** The PATCH switched the provider but did not get to write the key index it probed with. */
  ghost predicate HalfSwitched(s: Stored, patch: Patch, probe: Probe, broken: set<FieldKey>) {
    && patch.Switches() && patch.provider != s.provider && WritesProvider(s, patch, probe, broken)
    && var p := patch.provider.value;
       patch.Submits(p) && EffectiveIndex(s, patch, p) != s.Index(p) && !WritesIndex(s, patch, probe, broken, p)
  }

  /** An unprobed pair goes live if and only if a provider switch is written and the key index sent
      with it is not, because it is out of range or its write raised. */
  lemma UnsoundIffHalfSwitched(s: Stored, s': Stored, patch: Patch, probe: Probe, broken: set<FieldKey>)
    requires patch.Valid() && Patched(s, s', patch, probe, broken)
    ensures Unsound(s, s', patch, probe) <==> HalfSwitched(s, patch, probe, broken)
  {
    if HalfSwitched(s, patch, probe, broken) {
      HalfSwitchIsUnsound(s, s', patch, probe, broken);
    } else if s'.Live().Some? && s'.Live() != s.Live() {
      var p := s'.provider.value;
      if WritesProvider(s, patch, probe, broken) && patch.provider != s.provider {
        assert Target(s, patch, ProviderField) == Some((p, EffectiveIndex(s, patch, p)));
        assert Target(s, patch, ProviderField) == s'.Live();
      } else {
        assert s'.provider == s.provider && WritesIndex(s, patch, probe, broken, p);
        assert Target(s, patch, IndexField(p)) == s'.Live();
      }
    }
  }

  lemma HalfSwitchIsUnsound(s: Stored, s': Stored, patch: Patch, probe: Probe, broken: set<FieldKey>)
    requires patch.Valid() && Patched(s, s', patch, probe, broken) && HalfSwitched(s, patch, probe, broken)
    ensures Unsound(s, s', patch, probe)
  {
    var p := patch.provider.value;
    assert s'.Live() == Some((p, s.Index(p)));
    forall key
      ensures Target(s, patch, key) != s'.Live()
    {
      if Target(s, patch, key).Some? && Target(s, patch, key).value.0 == p {
        assert Target(s, patch, key).value.1 == EffectiveIndex(s, patch, p);
      }
    }
  }

  /** With slots in range and no failing write, whatever goes live has a stored model, was probed and passed. */
  lemma ArmingIsSound(s: Stored, s': Stored, patch: Patch, probe: Probe)
    requires patch.Valid() && InRange(patch) && Patched(s, s', patch, probe, {})
    requires s'.Live().Some? && s'.Live() != s.Live()
    ensures Probes(s, patch, s'.Live().value)
    ensures var pair := s'.Live().value; pair in s.models && s.models[pair] != "" && probe(pair).None?
  {
    UnsoundIffHalfSwitched(s, s', patch, probe, {});
    if HalfSwitched(s, patch, probe, {}) {
      var p := patch.provider.value;
      var index := patch.Submitted(p);
      assert (p, index) in patch.keyIndex;
      assert Target(s, patch, IndexField(p)) == Target(s, patch, ProviderField);
      assert WritesIndex(s, patch, probe, {}, p);
    }
  }

  /** If no pair the PATCH newly arms passes its probe, whichever writes raise, no other pair goes live. */
  lemma FailingProbesArmNothing(s: Stored, s': Stored, patch: Patch, probe: Probe, broken: set<FieldKey>)
    requires patch.Valid() && Patched(s, s', patch, probe, broken) && s'.Live().Some?
    requires forall pair | Probes(s, patch, pair) :: probe(pair).Some?
    ensures s'.Live() == s.Live()
  {
    if s'.provider != s.provider {
      var p := patch.provider.value;
      assert Target(s, patch, ProviderField) == Some((p, EffectiveIndex(s, patch, p)));
      assert Probes(s, patch, (p, EffectiveIndex(s, patch, p)));
    } else if s'.Live() != s.Live() {
      var p := s.provider.value;
      assert Target(s, patch, IndexField(p)) == Some((p, EffectiveIndex(s, patch, p)));
      assert Probes(s, patch, (p, EffectiveIndex(s, patch, p)));
    }
  }

  /** A switch to gemini, whose stored model the probe does not find: nothing is written. */
  lemma {:induction false} FailedProbeChangesNothing(model: string, s': Stored)
    requires model != ""
    requires var s := Stored(Some("groq"), map[], map[("gemini", 0) := model]);
             var patch := Patch(true, Some("gemini"), [], map[], None, None, None, map[]);
             var probe: Probe := pair => if pair == ("gemini", 0) then Some("model_not_found") else None;
             Patched(s, s', patch, probe, {})
    ensures s'.provider == Some("groq") && s'.Live() == Some(("groq", 0)) && forall p: Provider :: s'.Index(p) == 0
  {
    var s := Stored(Some("groq"), map[], map[("gemini", 0) := model]);
    var patch := Patch(true, Some("gemini"), [], map[], None, None, None, map[]);
    assert Target(s, patch, ProviderField) == Some(("gemini", 0));
  }

  /** A PATCH that re-sends what is stored, clears of unset overrides included, probes nothing. */
  lemma ResendingProbesNothing(s: Stored, patch: Patch, key: FieldKey)
    requires patch.Valid()
    requires patch.changesProvider ==> patch.provider == s.provider
    requires forall i | 0 <= i < |patch.keyIndex| :: patch.keyIndex[i].1.GetOr(0) == s.Index(patch.keyIndex[i].0)
    ensures Target(s, patch, key).None?
  {
    if key.IndexField? && patch.Submits(key.provider) {
      var i :| 0 <= i < |patch.keyIndex| && patch.keyIndex[i].0 == key.provider;
      patch.SubmittedIs(i);
    }
  }

  /** With no failing write, an unprobed pair goes live if and only if the PATCH switches the provider and
      sends it an out-of-range slot that has a stored model and passes its probe: the switch is then
      written on the strength of a slot that is refused. */
  lemma {:induction false} UnsoundIffOutOfRange(s: Stored, s': Stored, patch: Patch, probe: Probe)
    requires patch.Valid() && Patched(s, s', patch, probe, {})
    ensures Unsound(s, s', patch, probe) <==>
              && patch.Switches() && patch.provider != s.provider && patch.Submits(patch.provider.value)
              && var pair := (patch.provider.value, EffectiveIndex(s, patch, patch.provider.value));
                 && !(0 <= pair.1 < Credentials.MAX_CREDENTIAL_SLOTS) && pair.1 != s.Index(pair.0)
                 && pair in s.models && s.models[pair] != "" && probe(pair).None?
  {
    hide Patched, Unsound;
    UnsoundIffHalfSwitched(s, s', patch, probe, {});
    if patch.Switches() && patch.provider != s.provider && patch.Submits(patch.provider.value) {
      var p := patch.provider.value;
      assert Target(s, patch, ProviderField) == Some((p, EffectiveIndex(s, patch, p)));
      if EffectiveIndex(s, patch, p) != s.Index(p) {
        assert Target(s, patch, IndexField(p)) == Target(s, patch, ProviderField);
      }
    }
  }

  /** A switch to groq with its unprobed slot 0, sent along with slot 7, for which a row with a model is
      stored; and the same PATCH refused where there is none. */
  lemma {:induction false} OutOfRangeSlotArmsUnprobed(model: string)
    requires model != ""
    ensures var s := Stored(Some("gemini"), map[], map[("groq", 7) := model]);
            var patch := Patch(true, Some("groq"), [("groq", Some(7))], map[], None, None, None, map[]);
            var s' := s.(provider := Some("groq"));
            var probe: Probe := pair => None;
            patch.Valid() && Patched(s, s', patch, probe, {}) && Unsound(s, s', patch, probe)
    ensures var s := Stored(Some("gemini"), map[], map[]);
            var patch := Patch(true, Some("groq"), [("groq", Some(7))], map[], None, None, None, map[]);
            var probe: Probe := pair => None;
            patch.Valid() && Patched(s, s, patch, probe, {})
  {
    var patch := Patch(true, Some("groq"), [("groq", Some(7))], map[], None, None, None, map[]);
    var probe: Probe := pair => None;
    patch.SubmittedIs(0);
    var with := Stored(Some("gemini"), map[], map[("groq", 7) := model]);
    assert forall p: Provider :: !WritesIndex(with, patch, probe, {}, p);
    HalfSwitchIsUnsound(with, with.(provider := Some("groq")), patch, probe, {});
    var without := with.(models := map[]);
    assert Target(without, patch, ProviderField) == Some(("groq", 7));
    assert forall p: Provider :: !WritesIndex(without, patch, probe, {}, p);
  }
}
