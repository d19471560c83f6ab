/**
 * The configuration file `data.json` as the engine sees it, the settings
 * merge of `update_settings`, the start-up defaults, and the five-second
 * configuration cache of the control loop.
 */
module Settings {
  import opened Wrappers
  import opened Scheduler
  import opened Scenarios

  /**
   * The keys the engine reads; `None` is a missing key.  `others` holds
   * every other top-level key (plant table, names of tabs, and so on) as
   * opaque JSON text.
   */
  datatype Config = Config(
    maintenanceMode: Option<bool>,
    vacationMode: Option<bool>,
    scheduledWaterings: Option<seq<ScheduleEntry>>,
    minWateringInterval: Option<real>,
    scenarios: Option<map<string, seq<Rule>>>,
    currentScenario: Option<string>,
    others: map<string, string>)

  /** The empty JSON object `{}`. */
  const EmptyConfig: Config := Config(None, None, None, None, None, None, map[])

  /** Python truthiness of the cache variable: set, and not the empty dict. */
  predicate Truthy(c: Option<Config>)
  {
    c.Some? && c.value != EmptyConfig
  }

  /** Defaults the code uses for the four settings keys. */
  const DefaultMaintenance: bool := false
  const DefaultVacation: bool := false
  const DefaultMinWateringInterval: real := 30.0

  /** The settings as `get_settings` reports them: every key read with its default. */
  datatype SettingsView = SettingsView(maintenanceMode: bool, vacationMode: bool, scheduledWaterings: seq<ScheduleEntry>, minWateringInterval: real)

  function EffectiveSettings(c: Config): (r: SettingsView)
    ensures c.maintenanceMode.Some? ==> r.maintenanceMode == c.maintenanceMode.value
    ensures c.maintenanceMode.None? ==> !r.maintenanceMode
    ensures c.vacationMode.Some? ==> r.vacationMode == c.vacationMode.value
    ensures c.vacationMode.None? ==> !r.vacationMode
    ensures c.scheduledWaterings.Some? ==> r.scheduledWaterings == c.scheduledWaterings.value
    ensures c.scheduledWaterings.None? ==> r.scheduledWaterings == []
    ensures c.minWateringInterval.Some? ==> r.minWateringInterval == c.minWateringInterval.value
    ensures c.minWateringInterval.None? ==> r.minWateringInterval == 30.0
  {
    SettingsView(
      c.maintenanceMode.GetOr(DefaultMaintenance),
      c.vacationMode.GetOr(DefaultVacation),
      c.scheduledWaterings.GetOr([]),
      c.minWateringInterval.GetOr(DefaultMinWateringInterval))
  }

  /** The body of an `update_settings` request: each of the four keys may be absent. */
  datatype SettingsRequest = SettingsRequest(
    maintenanceMode: Option<bool>,
    vacationMode: Option<bool>,
    scheduledWaterings: Option<seq<ScheduleEntry>>,
    minWateringInterval: Option<real>)

  /** Overwrites exactly the settings keys present in the request. */
  function MergeSettings(c: Config, req: SettingsRequest): (r: Config)
    ensures req.maintenanceMode.Some? ==> r.maintenanceMode == req.maintenanceMode
    ensures req.maintenanceMode.None? ==> r.maintenanceMode == c.maintenanceMode
    ensures req.vacationMode.Some? ==> r.vacationMode == req.vacationMode
    ensures req.vacationMode.None? ==> r.vacationMode == c.vacationMode
    ensures req.scheduledWaterings.Some? ==> r.scheduledWaterings == req.scheduledWaterings
    ensures req.scheduledWaterings.None? ==> r.scheduledWaterings == c.scheduledWaterings
    ensures req.minWateringInterval.Some? ==> r.minWateringInterval == req.minWateringInterval
    ensures req.minWateringInterval.None? ==> r.minWateringInterval == c.minWateringInterval
    ensures r.scenarios == c.scenarios && r.currentScenario == c.currentScenario && r.others == c.others
  {
    var c1 := if req.maintenanceMode.Some? then c.(maintenanceMode := req.maintenanceMode) else c;
    var c2 := if req.vacationMode.Some? then c1.(vacationMode := req.vacationMode) else c1;
    var c3 := if req.scheduledWaterings.Some? then c2.(scheduledWaterings := req.scheduledWaterings) else c2;
    if req.minWateringInterval.Some? then c3.(minWateringInterval := req.minWateringInterval) else c3
  }

  /** Sending the same settings twice has the effect of sending them once. */
  lemma MergeIdempotent(c: Config, req: SettingsRequest)
    ensures MergeSettings(MergeSettings(c, req), req) == MergeSettings(c, req)
  {
  }

  /** A request that names none of the four keys leaves the configuration as it was. */
  lemma MergeNothing(c: Config)
    ensures MergeSettings(c, SettingsRequest(None, None, None, None)) == c
  {
  }

  /** After a merge, the reported settings are the request's wherever it set them. */
  lemma MergeReported(c: Config, req: SettingsRequest)
    ensures var s := EffectiveSettings(MergeSettings(c, req));
      s.maintenanceMode == req.maintenanceMode.GetOr(EffectiveSettings(c).maintenanceMode)
      && s.vacationMode == req.vacationMode.GetOr(EffectiveSettings(c).vacationMode)
      && s.scheduledWaterings == req.scheduledWaterings.GetOr(EffectiveSettings(c).scheduledWaterings)
      && s.minWateringInterval == req.minWateringInterval.GetOr(EffectiveSettings(c).minWateringInterval)
  {
  }

  /** Start-up: each of the four settings keys that is missing gets its default; nothing else changes. */
  function WithDefaults(c: Config): (r: Config)
    ensures r.maintenanceMode.Some? && r.vacationMode.Some? && r.scheduledWaterings.Some? && r.minWateringInterval.Some?
    ensures c.maintenanceMode.Some? ==> r.maintenanceMode == c.maintenanceMode
    ensures c.vacationMode.Some? ==> r.vacationMode == c.vacationMode
    ensures c.scheduledWaterings.Some? ==> r.scheduledWaterings == c.scheduledWaterings
    ensures c.minWateringInterval.Some? ==> r.minWateringInterval == c.minWateringInterval
    ensures r.scenarios == c.scenarios && r.currentScenario == c.currentScenario && r.others == c.others
  {
    Config(
      Some(c.maintenanceMode.GetOr(DefaultMaintenance)),
      Some(c.vacationMode.GetOr(DefaultVacation)),
      Some(c.scheduledWaterings.GetOr([])),
      Some(c.minWateringInterval.GetOr(DefaultMinWateringInterval)),
      c.scenarios, c.currentScenario, c.others)
  }

  /** Filling in the defaults does not change what any reader of the settings sees. */
  lemma DefaultsAgree(c: Config)
    ensures EffectiveSettings(WithDefaults(c)) == EffectiveSettings(c)
  {
  }

  /** Filling in the defaults twice is filling them in once. */
  lemma WithDefaultsIdempotent(c: Config)
    ensures WithDefaults(WithDefaults(c)) == WithDefaults(c)
  {
  }

  /** Seconds a cached configuration stays fresh. */
  const CacheTtl: real := 5.0

  /** The loop reloads when there is no cache, no stamp, or the stamp is more than five seconds old. */
  predicate NeedsReload(cache: Option<Config>, cacheTime: Option<real>, now: real)
  {
    cache.None? || cacheTime.None? || now - cacheTime.value > CacheTtl
  }

  /** The file (`None` when it cannot be read or parsed), the cache and its stamp. */
  datatype Store = Store(file: Option<Config>, cache: Option<Config>, cacheTime: Option<real>)

  /** The reload step of the control loop; `None` is a failed read, which ends the tick. */
  function RefreshStep(st: Store, now: real): (r: Option<Store>)
    ensures !NeedsReload(st.cache, st.cacheTime, now) ==> r == Some(st)
    ensures NeedsReload(st.cache, st.cacheTime, now) ==>
      (r.Some? <==> st.file.Some?)
    ensures r.Some? ==>
      r.value.file == st.file && r.value.cache.Some? && !NeedsReload(r.value.cache, r.value.cacheTime, now)
    ensures r.Some? && NeedsReload(st.cache, st.cacheTime, now) ==>
      r.value.cache == st.file && r.value.cacheTime == Some(now)
  {
    if !NeedsReload(st.cache, st.cacheTime, now) then Some(st)
    else if st.file.None? then None
    else Some(st.(cache := st.file, cacheTime := Some(now)))
  }

  /** For five seconds after a reload the configuration is not read again. */
  lemma {:induction false} RefreshWithinTtl(st: Store, now: real, later: real)
    requires NeedsReload(st.cache, st.cacheTime, now) && st.file.Some?
    requires now <= later <= now + CacheTtl
    ensures RefreshStep(RefreshStep(st, now).value, later) == RefreshStep(st, now)
  {
    var r := RefreshStep(st, now).value;
    assert r.cacheTime == Some(now);
  }

  /** Once the stamp is more than five seconds old, the next step reloads from the file. */
  lemma StaleCacheReloads(st: Store, now: real)
    requires st.cache.Some? && st.cacheTime.Some? && now > st.cacheTime.value + CacheTtl
    requires st.file.Some?
    ensures RefreshStep(st, now) == Some(st.(cache := st.file, cacheTime := Some(now)))
  {
  }

  /** The reply of `update_settings`. */
  datatype UpdateReply = UpdateSucceeded | UpdateFailed

  /** `update_settings`: merge into the file's content, write it, and make it the cache stamped `now`. */
  function UpdateStep(st: Store, req: SettingsRequest, now: real): (r: (Store, UpdateReply))
    ensures st.file.None? ==> r == (st, UpdateFailed)
    ensures st.file.Some? ==>
      r.1 == UpdateSucceeded && r.0.file == Some(MergeSettings(st.file.value, req))
      && r.0.cache == r.0.file && r.0.cacheTime == Some(now)
    ensures r.1 == UpdateSucceeded ==> RefreshStep(r.0, now) == Some(r.0)
  {
    if st.file.None? then (st, UpdateFailed)
    else
      var merged := MergeSettings(st.file.value, req);
      (Store(Some(merged), Some(merged), Some(now)), UpdateSucceeded)
  }

  /** The start-up pass over the file. */
  function StartupStep(st: Store): (r: Store)
    ensures st.file.None? ==> r == st
    ensures st.file.Some? ==> r == st.(file := Some(WithDefaults(st.file.value)))
  {
    if st.file.None? then st else st.(file := Some(WithDefaults(st.file.value)))
  }

  /** The file together with the module globals `_config_cache` and `_config_cache_time`. */
  class ConfigStore {
    var file: Option<Config>
    var cache: Option<Config>
    var cacheTime: Option<real>

    function Snapshot(): Store
      reads this
    {
      Store(file, cache, cacheTime)
    }

    /** Start-up: whatever the file holds, and no cache yet. */
    constructor (content: Option<Config>)
      ensures Snapshot() == Store(content, None, None)
    {
      file := content;
      cache := None;
      cacheTime := None;
    }

    /** Fills in the missing settings keys of the file. */
    method InitDefaults()
      modifies this
      ensures Snapshot() == StartupStep(old(Snapshot()))
    {
      if file.Some? {
        var config := file.value;
        if config.maintenanceMode.None? {
          config := config.(maintenanceMode := Some(DefaultMaintenance));
        }
        if config.vacationMode.None? {
          config := config.(vacationMode := Some(DefaultVacation));
        }
        if config.scheduledWaterings.None? {
          config := config.(scheduledWaterings := Some([]));
        }
        if config.minWateringInterval.None? {
          config := config.(minWateringInterval := Some(DefaultMinWateringInterval));
        }
        file := Some(config);
      }
    }

    /** The reload step of the loop; `false` is a failed read. */
    method Refresh(now: real) returns (ok: bool)
      modifies this
      ensures ok == RefreshStep(old(Snapshot()), now).Some?
      ensures ok ==> Snapshot() == RefreshStep(old(Snapshot()), now).value
      ensures !ok ==> Snapshot() == old(Snapshot())
    {
      if cache.None? || cacheTime.None? || now - cacheTime.value > CacheTtl {
        if file.None? {
          return false;
        }
        cache := file;
        cacheTime := Some(now);
      }
      return true;
    }

    /** `update_settings`. */
    method UpdateSettings(req: SettingsRequest, now: real) returns (reply: UpdateReply)
      modifies this
      ensures (Snapshot(), reply) == UpdateStep(old(Snapshot()), req, now)
    {
      if file.None? {
        return UpdateFailed;
      }
      var config := file.value;
      if req.maintenanceMode.Some? {
        config := config.(maintenanceMode := req.maintenanceMode);
      }
      if req.vacationMode.Some? {
        config := config.(vacationMode := req.vacationMode);
      }
      if req.scheduledWaterings.Some? {
        config := config.(scheduledWaterings := req.scheduledWaterings);
      }
      if req.minWateringInterval.Some? {
        config := config.(minWateringInterval := req.minWateringInterval);
      }
      file := Some(config);
      cache := Some(config);
      cacheTime := Some(now);
      return UpdateSucceeded;
    }
  }
}
