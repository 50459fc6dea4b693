/** The journalled settings migration: a multi-store commit that survives crashes at any point,
    including crashes of the recovery itself.

    `Step` is the durable-level protocol; `CrashAtomicity` is about every run of it. The class is the
    source's coordinator. Each of its store operations may succeed, throw or crash, before or after
    taking effect, and every durable state it passes through is logged: the class is proved to make
    only protocol steps, so the theorem covers every crash point of every schedule. */
module Migration {
  import opened Options

  /** A plugin's stored record; digests of records are compared as values. */
  datatype PluginState = PluginState(
    pluginVersion: string, schemaVersion: nat, migrationVersion: nat, settings: map<string, string>)

  /** `settings.json`: version 1 with its runtime settings, or version 2. */
  datatype Settings = Legacy(defaultHarness: string, runtime: map<string, string>) | Desktop(defaultHarness: string)

  datatype JournalPlugin = JournalPlugin(pluginId: string, before: PluginState, target: PluginState)

  datatype Journal = Journal(legacy: Settings, targetSettings: Settings, plugins: seq<JournalPlugin>)

  /** Everything that survives a crash. */
  datatype Durable = Durable(journal: Option<Journal>, plugins: map<string, PluginState>, settings: Settings)

  // ---------------------------------------------------------------- the protocol

  ghost predicate WellFormed(j: Journal) {
    && j.legacy.Legacy? && j.targetSettings == Desktop(j.legacy.defaultHarness)
    && forall a, b :: 0 <= a < b < |j.plugins| ==> j.plugins[a].pluginId != j.plugins[b].pluginId
  }

  ghost predicate Mentions(j: Journal, id: string) {
    exists i :: 0 <= i < |j.plugins| && j.plugins[i].pluginId == id
  }

  ghost predicate AllBefore(j: Journal, plugins: map<string, PluginState>) {
    forall i :: 0 <= i < |j.plugins| ==>
      j.plugins[i].pluginId in plugins && plugins[j.plugins[i].pluginId] == j.plugins[i].before
  }

  ghost predicate AllTarget(j: Journal, plugins: map<string, PluginState>) {
    forall i :: 0 <= i < |j.plugins| ==>
      j.plugins[i].pluginId in plugins && plugins[j.plugins[i].pluginId] == j.plugins[i].target
  }

  ghost predicate RolledBack(d: Durable, j: Journal) {
    AllBefore(j, d.plugins) && d.settings == j.legacy
  }

  ghost predicate Committed(d: Durable, j: Journal) {
    AllTarget(j, d.plugins) && d.settings == j.targetSettings
  }

  /** One durable change. Between migrations the application may change anything but the journal. */
  ghost predicate Step(d: Durable, e: Durable) {
    || (d.journal.None? && e.journal.None?)
    || (d.journal.None? && e.journal.Some? && e == d.(journal := e.journal)
        && WellFormed(e.journal.value) && AllBefore(e.journal.value, d.plugins))
    || (d.journal.Some? && e.journal == d.journal && DuringMigration(d, e, d.journal.value))
    || (d.journal.Some? && e == d.(journal := None)
        && (RolledBack(d, d.journal.value) || Committed(d, d.journal.value)))
  }

  /** With a journal on disk: one plugin it mentions takes any value, or the settings are rewritten,
      to version 2 only once every plugin is at its target. */
  ghost predicate DuringMigration(d: Durable, e: Durable, j: Journal) {
    || (e.settings == d.settings && exists id :: Replaces(j, d.plugins, e.plugins, id))
    || (e.plugins == d.plugins && e.settings == j.targetSettings && AllTarget(j, d.plugins))
    || (e.plugins == d.plugins && e.settings == j.legacy)
  }

  ghost predicate Replaces(j: Journal, from: map<string, PluginState>, to: map<string, PluginState>, id: string) {
    Mentions(j, id) && id in to && to == from[id := to[id]]
  }

  ghost predicate Run(run: seq<Durable>) {
    forall i :: 0 <= i < |run| - 1 ==> Step(run[i], run[i + 1])
  }

  /** The plugin map with every target of a journal installed. */
  ghost predicate Installed(j: Journal, start: map<string, PluginState>, end: map<string, PluginState>) {
    && AllTarget(j, end)
    && end.Keys == start.Keys
    && forall id :: id in start && !Mentions(j, id) ==> end[id] == start[id]
  }

  /** Outside the plugins a journal mentions, nothing changed. */
  ghost predicate Frame(j: Journal, start: map<string, PluginState>, end: map<string, PluginState>) {
    && (forall id :: id in start && !Mentions(j, id) ==> id in end && end[id] == start[id])
    && (forall id :: id in end && id !in start ==> Mentions(j, id))
    && (forall id :: id in start ==> id in end)
  }

  /** What holds while the journal `j`, written over `start`, is on disk. */
  ghost predicate InFlight(start: Durable, j: Journal, d: Durable) {
    && d.journal == Some(j) && WellFormed(j) && AllBefore(j, start.plugins)
    && d.plugins.Keys == start.plugins.Keys
    && forall id :: id in start.plugins && !Mentions(j, id) ==> d.plugins[id] == start.plugins[id]
  }

  lemma {:induction false} InFlightThroughout(run: seq<Durable>, p: nat, k: nat)
    requires Run(run) && p < k < |run| && run[p].journal.None?
    requires forall i :: p < i <= k ==> run[i].journal.Some?
    ensures InFlight(run[p], run[p + 1].journal.value, run[k])
    decreases k
  {
    assert Step(run[k - 1], run[k - 1 + 1]);
    if k > p + 1 {
      InFlightThroughout(run, p, k - 1);
      InFlightStep(run[p], run[p + 1].journal.value, run[k - 1], run[k]);
    }
  }

  lemma InFlightStep(start: Durable, j: Journal, d: Durable, e: Durable)
    requires InFlight(start, j, d) && Step(d, e) && e.journal.Some?
    ensures InFlight(start, j, e)
  {
    if e.plugins != d.plugins {
      var id :| Replaces(j, d.plugins, e.plugins, id);
      assert id in start.plugins;
    }
  }

  lemma FlightFacts(start: Durable, j: Journal, d: Durable)
    requires InFlight(start, j, d)
    ensures d.journal == Some(j) && WellFormed(j)
  {}

  lemma PluginStep(d: Durable, j: Journal, i: nat, value: PluginState)
    requires d.journal == Some(j) && i < |j.plugins|
    ensures Step(d, d.(plugins := d.plugins[j.plugins[i].pluginId := value])) && Mentions(j, j.plugins[i].pluginId)
  {
    assert Replaces(j, d.plugins, d.plugins[j.plugins[i].pluginId := value], j.plugins[i].pluginId);
  }

  /** Crash atomicity: over every run, whenever the journal disappears again the stores are exactly
      as they were when it was written, with the legacy settings, or exactly those stores with every
      target installed and version 2 settings. No schedule of steps and crashes leaves a mixture. */
  lemma CrashAtomicity(run: seq<Durable>, p: nat, r: nat)
    requires Run(run) && p + 1 < r < |run| && run[p].journal.None? && run[r].journal.None?
    requires forall i :: p < i < r ==> run[i].journal.Some?
    ensures var j := run[p + 1].journal.value;
      || (run[r].plugins == run[p].plugins && run[r].settings == j.legacy)
      || (Installed(j, run[p].plugins, run[r].plugins) && run[r].settings == j.targetSettings)
  {
    var j := run[p + 1].journal.value;
    InFlightThroughout(run, p, r - 1);
    assert Step(run[r - 1], run[r - 1 + 1]);
    if RolledBack(run[r - 1], j) {
      BackToStart(run[p], j, run[r - 1]);
    }
  }

  lemma BackToStart(start: Durable, j: Journal, d: Durable)
    requires InFlight(start, j, d) && AllBefore(j, d.plugins)
    ensures d.plugins == start.plugins
  {
    forall id | id in start.plugins ensures d.plugins[id] == start.plugins[id] {
      if Mentions(j, id) {
        var i :| 0 <= i < |j.plugins| && j.plugins[i].pluginId == id;
      }
    }
  }

  // ---------------------------------------------------------------- planning

  /** What a plugin holds after its candidate settings were merged in, on its fields. */
  predicate Merged(before: PluginState, after: PluginState, candidate: map<string, string>) {
    && after.pluginVersion == before.pluginVersion && after.schemaVersion == before.schemaVersion
    && after.migrationVersion == before.migrationVersion
    && after.settings.Keys == before.settings.Keys + candidate.Keys
    && (forall k <- candidate :: k in after.settings && after.settings[k] == candidate[k])
    && (forall k <- before.settings ::
          k !in candidate ==> k in after.settings && after.settings[k] == before.settings[k])
  }

  function Target(before: PluginState, candidate: map<string, string>): (r: PluginState)
    ensures Merged(before, r, candidate)
  {
    before.(settings := before.settings + candidate)
  }

  /** The journal `prepare` builds over the stored plugins. */
  ghost predicate Plan(j: Journal, ids: seq<string>, stored: map<string, PluginState>, legacy: Settings,
                       candidates: map<string, map<string, string>>)
  {
    && WellFormed(j) && AllBefore(j, stored) && j.legacy == legacy && |j.plugins| == |ids|
    && forall i :: 0 <= i < |ids| ==>
      && ids[i] in candidates && j.plugins[i].pluginId == ids[i]
      && Merged(j.plugins[i].before, j.plugins[i].target, candidates[ids[i]])
  }

  /** Every listed plugin has its candidate settings, every other plugin is as it was. */
  ghost predicate AllMerged(ids: seq<string>, before: map<string, PluginState>, after: map<string, PluginState>,
                            candidates: map<string, map<string, string>>)
  {
    && after.Keys == before.Keys
    && (forall id <- ids :: id in candidates && id in before && Merged(before[id], after[id], candidates[id]))
    && (forall id <- before :: id !in ids ==> after[id] == before[id])
  }

  /** A planned journal that is installed leaves every listed plugin merged. */
  lemma PlanMerges(j: Journal, ids: seq<string>, stored: map<string, PluginState>, legacy: Settings,
                   candidates: map<string, map<string, string>>, after: map<string, PluginState>)
    requires Plan(j, ids, stored, legacy, candidates) && Installed(j, stored, after)
    ensures AllMerged(ids, stored, after, candidates)
  {
    forall id <- ids ensures id in candidates && id in stored && Merged(stored[id], after[id], candidates[id]) {
      var i :| 0 <= i < |ids| && ids[i] == id;
      assert j.plugins[i].pluginId == id;
    }
    forall id <- stored | id !in ids ensures after[id] == stored[id] {
      assert !Mentions(j, id);
    }
  }

  /** All or nothing, relative to the stores a migration started from. */
  ghost predicate AllOrNothing(start: Durable, end: Durable, j: Journal) {
    || (end.plugins == start.plugins && end.settings in {start.settings, j.legacy})
    || (Installed(j, start.plugins, end.plugins) && end.settings == j.targetSettings)
  }

  // ---------------------------------------------------------------- the coordinator

  /** How a store operation ends; `Threw` and `Crashed` may or may not have taken effect. */
  datatype Ending = Fine | Threw | Crashed

  datatype Recovery = NothingToDo | DidRollBack | DidCommit | VerificationFailed | RecoveryThrew | RecoveryCrashed

  datatype Migrated = Done | NotReady | Failed | Interrupted | MigrationCrashed

  class Coordinator {
    const pluginIds: seq<string>
    var journal: Option<Journal>
    var plugins: map<string, PluginState>
    var settings: Settings
    var runtimeReady: bool
    ghost var history: seq<Durable>

    function Now(): Durable
      reads this
    {
      Durable(journal, plugins, settings)
    }

    /** The log is a run of the protocol that ends in the current state, and a ready runtime has no
        unfinished migration. */
    ghost predicate Valid()
      reads this
    {
      && history != [] && history[|history| - 1] == Now() && Run(history)
      && (runtimeReady ==> journal.None?)
      && (journal.Some? ==> WellFormed(journal.value))
      && forall a, b :: 0 <= a < b < |pluginIds| ==> pluginIds[a] != pluginIds[b]
    }

    /** The log only grows. */
    twostate predicate Extends()
      reads this
    {
      |old(history)| <= |history| && history[..|old(history)|] == old(history)
    }

    /** A process start over existing stores. */
    constructor (pluginIds: seq<string>, stores: Durable, ghost past: seq<Durable>)
      requires forall a, b :: 0 <= a < b < |pluginIds| ==> pluginIds[a] != pluginIds[b]
      requires past != [] && past[|past| - 1] == stores && Run(past)
      requires stores.journal.Some? ==> WellFormed(stores.journal.value)
      ensures Valid() && !runtimeReady && Now() == stores && history == past
    {
      this.pluginIds := pluginIds;
      journal, plugins, settings := stores.journal, stores.plugins, stores.settings;
      runtimeReady := false;
      history := past;
    }

    /** One atomic file operation: it takes effect or not, and ends in any way; a fine ending means
        that it took effect. */
    method Write(next: Durable) returns (ending: Ending)
      requires Valid() && !runtimeReady && Step(Now(), next)
      requires next.journal.Some? ==> WellFormed(next.journal.value)
      modifies this
      ensures Valid() && !runtimeReady && Extends()
      ensures Now() == next || (Now() == old(Now()) && ending != Fine)
    {
      ending := *;
      var effective: bool := *;
      if ending == Fine || effective {
        journal, plugins, settings := next.journal, next.plugins, next.settings;
        history := history + [next];
      }
    }

    /** `readPersistedMigrationSettings`: an unreadable file reads as missing. */
    method ReadSettings(readable: bool) returns (persisted: Option<Settings>)
      ensures persisted == if readable then Some(settings) else None
    {
      persisted := if readable then Some(settings) else None;
    }

    /** `targetsMatch` and `beforeStatesMatch`: load every plugin and compare. */
    method StatesMatch(j: Journal, targets: bool) returns (matches: bool, ending: Ending)
      ensures ending == Fine && matches ==> if targets then AllTarget(j, plugins) else AllBefore(j, plugins)
      ensures ending == Fine && !matches ==> !(if targets then AllTarget(j, plugins) else AllBefore(j, plugins))
    {
      for i := 0 to |j.plugins|
        invariant forall k :: 0 <= k < i ==>
          && j.plugins[k].pluginId in plugins
          && plugins[j.plugins[k].pluginId] == if targets then j.plugins[k].target else j.plugins[k].before
      {
        ending := *;
        if ending != Fine {
          return false, ending;
        }
        var p := j.plugins[i];
        if p.pluginId !in plugins || plugins[p.pluginId] != (if targets then p.target else p.before) {
          return false, Fine;
        }
      }
      return true, Fine;
    }

    /** `recoverBeforeRuntime`. When it returns a decision, no journal remains and the stores are
        entirely before or entirely target; otherwise the runtime is not ready. The settings file is read
        twice: `readable` and `readableAgain` say how each reading goes. The decision is to commit exactly
        when the first succeeds on committed stores, and verification fails only if the second does not. */
    method Recover(readable: bool, readableAgain: bool) returns (r: Recovery)
      requires Valid()
      modifies this
      ensures Valid() && Extends()
      ensures runtimeReady <==> r in {NothingToDo, DidRollBack, DidCommit}
      ensures old(journal).None? ==> Now() == old(Now()) && r in {NothingToDo, RecoveryThrew, RecoveryCrashed}
      ensures old(journal).Some? ==> r != NothingToDo && Frame(old(journal).value, old(plugins), plugins)
      ensures old(journal).Some? && journal.None? ==>
        RolledBack(Now(), old(journal).value) || Committed(Now(), old(journal).value)
      ensures old(journal).Some? && journal.Some? ==> journal == old(journal)
      ensures r in {DidRollBack, DidCommit} ==>
        (r == DidCommit <==> readable && Committed(old(Now()), old(journal).value))
      ensures readableAgain ==> r != VerificationFailed
      ensures r == DidRollBack ==> old(journal).Some? && RolledBack(Now(), old(journal).value)
      ensures r == DidCommit ==> old(journal).Some? && Committed(Now(), old(journal).value)
    {
      runtimeReady := false;
      var ending: Ending := *;
      if ending == Threw { return RecoveryThrew; }
      if ending == Crashed { return RecoveryCrashed; }
      if journal.None? {
        runtimeReady := true;
        return NothingToDo;
      }
      var j := journal.value;
      var persisted := ReadSettings(readable);
      var committed := persisted == Some(j.targetSettings);
      if committed {
        committed, ending := StatesMatch(j, true);
        if ending == Threw { return RecoveryThrew; }
        if ending == Crashed { return RecoveryCrashed; }
      }
      if committed {
        ending := Write(Now().(journal := None));
        if ending == Threw { return RecoveryThrew; }
        if ending == Crashed { return RecoveryCrashed; }
        runtimeReady := true;
        return DidCommit;
      }
      r := RollBack(j, readableAgain);
    }

    method RollBack(j: Journal, readable: bool) returns (r: Recovery)
      requires Valid() && !runtimeReady && journal == Some(j)
      modifies this
      ensures Valid() && Extends()
      ensures runtimeReady <==> r == DidRollBack
      ensures r in {DidRollBack, VerificationFailed, RecoveryThrew, RecoveryCrashed}
      ensures Frame(j, old(plugins), plugins) && (journal.None? ==> RolledBack(Now(), j))
      ensures (journal.Some? ==> journal == Some(j))
      ensures r == DidRollBack ==> journal.None?
      ensures readable ==> r != VerificationFailed
    {
      hide Run;
      var ending := RestorePlugins(j);
      if ending == Threw { return RecoveryThrew; }
      if ending == Crashed { return RecoveryCrashed; }
      ending := Write(Now().(settings := j.legacy));
      if ending == Threw { return RecoveryThrew; }
      if ending == Crashed { return RecoveryCrashed; }
      var restored, ended := StatesMatch(j, false);
      if ended == Threw { return RecoveryThrew; }
      if ended == Crashed { return RecoveryCrashed; }
      var persisted := ReadSettings(readable);
      if !restored || persisted != Some(j.legacy) {
        return VerificationFailed;
      }
      ending := Write(Now().(journal := None));
      if ending == Threw { return RecoveryThrew; }
      if ending == Crashed { return RecoveryCrashed; }
      runtimeReady := true;
      return DidRollBack;
    }

    /** Puts every plugin's before-state back, one at a time. */
    method RestorePlugins(j: Journal) returns (ending: Ending)
      requires Valid() && !runtimeReady && journal == Some(j)
      modifies this
      ensures Valid() && !runtimeReady && journal == Some(j) && Extends()
      ensures Frame(j, old(plugins), plugins) && settings == old(settings)
      ensures ending == Fine ==> AllBefore(j, plugins)
    {
      hide Run, Step;
      for i := 0 to |j.plugins|
        invariant Valid() && !runtimeReady && journal == Some(j) && Extends()
        invariant Frame(j, old(plugins), plugins) && settings == old(settings)
        invariant forall k :: 0 <= k < i ==>
          j.plugins[k].pluginId in plugins && plugins[j.plugins[k].pluginId] == j.plugins[k].before
      {
        var p := j.plugins[i];
        PluginStep(Now(), j, i, p.before);
        ending := Write(Now().(plugins := plugins[p.pluginId := p.before]));
        if ending != Fine { return; }
      }
      ending := Fine;
    }

    method Prepare(legacy: Settings, candidates: map<string, map<string, string>>) returns (j: Journal, ending: Ending)
      requires Valid() && journal.None?
      ensures ending == Fine ==> Plan(j, pluginIds, plugins, legacy, candidates)
    {
      j := Journal(legacy, Desktop(legacy.defaultHarness), []);
      if !legacy.Legacy? { return j, Threw; }
      var entries: seq<JournalPlugin> := [];
      for i := 0 to |pluginIds|
        invariant |entries| == i
        invariant forall k :: 0 <= k < i ==>
          && pluginIds[k] in candidates && pluginIds[k] in plugins
          && entries[k] ==
             JournalPlugin(pluginIds[k], plugins[pluginIds[k]], Target(plugins[pluginIds[k]], candidates[pluginIds[k]]))
      {
        ending := *;
        if ending != Fine { return j, ending; }
        var id := pluginIds[i];
        if id !in plugins || id !in candidates { return j, Threw; }
        entries := entries + [JournalPlugin(id, plugins[id], Target(plugins[id], candidates[id]))];
      }
      return Journal(legacy, Desktop(legacy.defaultHarness), entries), Fine;
    }

    /** The loop over the plugins: the host may leave anything in the one it confirms. */
    method ConfirmPlugins(j: Journal, ghost start: Durable) returns (r: Migrated)
      requires Valid() && !runtimeReady && InFlight(start, j, Now()) && AllBefore(j, plugins)
      modifies this
      ensures Valid() && !runtimeReady && Extends() && InFlight(start, j, Now()) && r != NotReady
      ensures r == Done ==> AllTarget(j, plugins)
    {
      hide Run, Step, InFlight;
      FlightFacts(start, j, Now());
      for i := 0 to |j.plugins|
        invariant Valid() && !runtimeReady && Extends() && InFlight(start, j, Now()) && journal == Some(j)
        invariant forall k :: 0 <= k < |j.plugins| ==>
          && j.plugins[k].pluginId in plugins
          && plugins[j.plugins[k].pluginId] == if k < i then j.plugins[k].target else j.plugins[k].before
      {
        var p := j.plugins[i];
        if p.before == p.target { continue; }
        var value: PluginState := *;
        PluginStep(Now(), j, i, value);
        InFlightStep(start, j, Now(), Now().(plugins := plugins[p.pluginId := value]));
        var ending := Write(Now().(plugins := plugins[p.pluginId := value]));
        if ending == Crashed { return MigrationCrashed; }
        if ending == Threw { return Failed; }
        if plugins[p.pluginId] != p.target { return Failed; }
        var interrupt: bool := *;
        if interrupt { return Interrupted; }
      }
      return Done;
    }

    /** The forward half of `migrate`, up to the error that its catch block handles. */
    method Forward(j: Journal) returns (r: Migrated)
      requires Valid() && !runtimeReady && journal.None? && WellFormed(j) && AllBefore(j, plugins)
      modifies this
      ensures Valid() && Extends() && r != NotReady && (runtimeReady <==> r == Done)
      ensures journal.Some? ==> InFlight(old(Now()), j, Now())
      ensures journal.None? ==> Now() == old(Now()) || (Frame(j, old(plugins), plugins) && Committed(Now(), j))
      ensures r == Done ==> Frame(j, old(plugins), plugins) && Committed(Now(), j)
    {
      hide Run;
      var ending := Write(Now().(journal := Some(j)));
      if ending == Crashed { return MigrationCrashed; }
      if ending == Threw { return Failed; }
      var interrupt: bool := *;
      if interrupt { return Interrupted; }
      r := ConfirmPlugins(j, old(Now()));
      if r != Done { return; }
      ending := Write(Now().(settings := j.targetSettings));
      if ending == Crashed { return MigrationCrashed; }
      if ending == Threw { return Failed; }
      interrupt := *;
      if interrupt { return Interrupted; }
      var readable: bool := *;
      var persisted := ReadSettings(readable);
      if persisted != Some(j.targetSettings) { return Failed; }
      var matches, ended := StatesMatch(j, true);
      if ended == Crashed { return MigrationCrashed; }
      if ended == Threw || !matches { return Failed; }
      ending := Write(Now().(journal := None));
      if ending == Crashed { return MigrationCrashed; }
      if ending == Threw { return Failed; }
      runtimeReady := true;
      return Done;
    }

    /** `migrate`. Whatever happens, either the journal is on disk and in flight, or the stores are
        all-or-nothing; success means every target is installed. */
    method Migrate(legacy: Settings, candidates: map<string, map<string, string>>)
      returns (r: Migrated, ghost j: Journal)
      requires Valid()
      modifies this
      ensures Valid() && Extends()
      ensures r == NotReady <==> !old(runtimeReady)
      ensures r == NotReady ==> Now() == old(Now()) && !runtimeReady
      ensures journal.Some? && r != NotReady ==> InFlight(old(Now()), j, Now()) && !runtimeReady
      ensures journal.None? && r != NotReady ==> AllOrNothing(old(Now()), Now(), j)
      ensures r == Done ==>
        && runtimeReady && Plan(j, pluginIds, old(plugins), legacy, candidates)
        && Installed(j, old(plugins), plugins) && settings == j.targetSettings
      ensures r == Done ==>
        && legacy.Legacy? && settings == Desktop(legacy.defaultHarness)
        && AllMerged(pluginIds, old(plugins), plugins, candidates)
    {
      j := Journal(legacy, legacy, []);
      if !runtimeReady { return NotReady, j; }
      runtimeReady := false;
      ghost var start := Now();
      var payload, ending := Prepare(legacy, candidates);
      j := payload;
      if ending == Crashed { return MigrationCrashed, j; }
      if ending == Fine {
        r := Forward(payload);
        if r == Done { PlanMerges(j, pluginIds, start.plugins, legacy, candidates, plugins); }
        if r != Failed { return; }
      }
      ghost var middle := Now();
      var readable: bool := *;
      var readableAgain: bool := *;
      var recovery := Recover(readable, readableAgain);
      AfterRecovery(start, middle, Now(), j);
      if recovery == RecoveryCrashed { return MigrationCrashed, j; }
      if recovery == VerificationFailed || recovery == RecoveryThrew { return Failed, j; }
      ending := *;
      if ending == Crashed { runtimeReady := false; return MigrationCrashed, j; }
      if ending == Threw { runtimeReady := false; return Failed, j; }
      if recovery == DidCommit {
        PlanMerges(j, pluginIds, start.plugins, legacy, candidates, plugins);
        return Done, j;
      }
      return Failed, j;
    }
  }

  lemma AfterRecovery(start: Durable, middle: Durable, end: Durable, j: Journal)
    requires middle.journal.None? ==>
      end == middle &&
        (middle == start
         || (Frame(j, start.plugins, middle.plugins) && AllBefore(j, start.plugins) && Committed(middle, j)))
    requires middle.journal.Some? ==>
      && InFlight(start, j, middle) && Frame(j, middle.plugins, end.plugins)
      && (end.journal == None || end.journal == middle.journal)
      && (end.journal.None? ==> RolledBack(end, j) || Committed(end, j))
    ensures end.journal.None? ==> AllOrNothing(start, end, j)
    ensures end.journal.Some? ==> InFlight(start, j, end)
    ensures end.journal.None? && middle.journal.Some? && Committed(end, j) ==> Installed(j, start.plugins, end.plugins)
  {
    if middle.journal.Some? {
      assert forall id :: Mentions(j, id) ==> id in start.plugins;
      if end.journal.None? && RolledBack(end, j) {
        forall id | id in start.plugins ensures end.plugins[id] == start.plugins[id] {
          if Mentions(j, id) { var i :| 0 <= i < |j.plugins| && j.plugins[i].pluginId == id; }
        }
        assert end.plugins == start.plugins;
      }
    }
  }
}
