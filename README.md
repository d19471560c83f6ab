# Irrigation controller: decision engine and pump timer in Dafny

This project models the logic core of a Raspberry Pi plant-watering controller. The controller is a Flask application with a background control loop, a registry of remote ESP32 sensor nodes, and a helper script that fetches plant pictures. The model covers:

- **Threshold language** (`Conditions`). It covers `eval_condition`: `"a-b"` is an inclusive range, `">x"` and `"<x"` are strict bounds, and a missing reading or anything else never matches.
- **Plant rule table and first-match search** (`Scenarios`). A rule is selected by its soil condition alone; the air conditions are evaluated and then ignored. The module also has the vacation-mode halving.
- **Pump and its timer** (`Pump`). It covers:
  - the module globals `pump_on_time`, `watering_duration_minutes` and `last_watering_time`;
  - the pump output, and the watering log written by `record_arrosage`;
  - the per-tick duration and leak check, the action of the selected rule, and manual start and stop.

  Every transition is a function on the value `PumpState`. The class `PumpTimer` performs the same transition in place, and each of its methods is proved equal to that function.
- **Fixed-time watering** (`Scheduler`). It models `check_scheduled_watering` as a loop over the entries. The loop is proved equal to a recursive first-verdict search.
- **Settings** (`Settings`). It covers the settings merge of `update_settings`, the start-up defaults, and the five-second configuration cache. The class `ConfigStore` holds the file and the cache.
- **One pass of `monitor_humidity`** (`Monitor`). The whole pass is a function `TickSpec`, and the method `Tick` runs it on the two objects. The proved properties are:
  - the timer invariant;
  - the log only grows;
  - the leak cutoff;
  - the guards on every start;
  - maintenance mode;
  - independence from the air readings.
- **Remote node command** (`NodeEndpoint`). It models the decision of `api_node_data` and the lemma relating it to the loop's search.
- **`format_duration`** (`Durations`) and **`rotate_log_file`** (`Rotation`). The files are a map from name to lines.
- **Node registry** (`Nodes`). It covers `nodes_api.py`: `nodes.json` is a map field of the class `NodeRegistry`.
- **Plant-image helpers** (`PlantImages`). These are the file name, the thumbnail rewrite, the extension, and the first-hit title search.
- **Python string built-ins** (`PyStr`). These are `str.strip`, `str.split`, `in`, `str.replace`, `rsplit`, `lower`, and the decimal part of `float()` and `int()`. They are written out on `seq<char>`.
- **Worked examples** (`WorkedExamples`). These are concrete cases: a three-band plant profile, the interval guard, the timer thresholds, a schedule entry and the vacation halving.

Instants are `real` seconds and durations are `real` minutes, as in the code. The following are parameters of the model:

- the clock (`now`, and a `WallClock` with weekday, hour and minute);
- the sensor readings;
- the content of the JSON files;
- the encyclopedia lookup.

A missing JSON key is an `Option` or `Field.Absent`. Where the code reads it with `.get(key, default)` the model uses the default. Where the code indexes it (`config['scenarios']`) the model gives the `KeyError` path, which ends the loop's pass.

### Behaviour of the code that the model follows

- The leak check is strict. A run of exactly 1.5 times its planned minutes is a normal stop (`WorkedExamples.LeakBoundaryIsNormalStop`).
- Manual start skips the anti-excess interval guard and does not set `last_watering_time`. Manual stop does not set it either.
- `"Arroser"` and `"Arroser légèrement"` start even with a zero or negative duration. Only `"Surveiller, arroser si nécessaire"` needs a duration above zero.
- The scheduler's guard is a fixed 5 minutes, independent of `min_watering_interval`.
- A `null` duration (JSON `null`, read as `None`) takes these paths. Under vacation mode the comparison `> 0` raises and the loop's pass ends, and so does monitoring's `> 0` on a stopped pump. Otherwise the code would store `None` as the planned duration (app.py:145, app.py:293), and the per-tick check at app.py:197 then never stops the pump. The model keeps the pump off for a rule and gives a schedule entry the one-minute default; both findings below show the behaviour as written. The node endpoint passes `null` through, or answers with an error reply when vacation mode multiplies it.
- The vacation flag of a pass is read from the configuration at the start of the pass, before the cache refresh.
- The cache is reloaded only when it is absent or more than 5 s old; at exactly 5 s it is still fresh.
- The node endpoint differs from the loop in four ways:
  - it has no interval guard;
  - it halves durations that are zero or negative too;
  - it answers only `water` (for the two watering texts) or `none`;
  - it reads every key with a default.
- An unreadable `nodes.json` is treated as `{}`.
- A log whose name has no `.csv` is its own backup name, so the older lines are lost. With `max_lines` 0 the whole file is "kept", because `lines[-0:]` is the whole list, and the backup is empty.

## Model

| member | source | states |
|---|---|---|
| Conditions.EvalCondition | app.py:341-379 | A missing reading, or a condition that is not text, never matches. |
| Conditions.EvalFailsClosed | app.py:341-379 | A condition holds only when its text has the shape of a range of two numbers, or a `>` or `<` followed by a number; any other text never holds. |
| Conditions.RangeDecided | app.py:351-360 | A stripped text containing `-` that splits into two numbers `lo` and `hi` matches exactly when `lo <= v <= hi`. |
| Conditions.BoundDecided | app.py:361-378 | A text without `-` whose `>` (or `<`, when there is no `>`) bound parses to `x` matches exactly when `v > x` (respectively `v < x`). |
| Conditions.RangeMeaning | app.py:351-358 | `"a-b"` holds exactly for `a <= v <= b`; both ends are included. |
| Conditions.GreaterMeaning | app.py:361-367 | `">x"`, with blanks or none before the number, holds exactly for `v > x`. |
| Conditions.LessMeaning | app.py:370-376 | `"<x"`, with blanks or none before the number, holds exactly for `v < x`. |
| Conditions.BoundText | app.py:349-366 | Operator, blanks and number strip to themselves, contain no `-`, and their bound parses back to the number. |
| Conditions.NegativeBoundNeverMatches | app.py:351-360 | `">-x"` and `"<-x"` reach the range branch and never match: a `-` condition does not fall through to `>`/`<`. |
| Conditions.OperatorNotNumber | app.py:356 | The text before the `-` of `">-x"` is not a number, so `float` raises. |
| Scenarios.FindMatchFrom | app.py:246-262 | A matched rule has its keys and a soil match, and every earlier rule was passed over. A missing key is reported at the first rule lacking it. No match means every rule was passed over. |
| Scenarios.FindMatch | app.py:254 | Without a soil reading no rule is selected. |
| Scenarios.AirReadingsIgnored | app.py:256-262 | Two readings with the same soil value select the same rule, whatever the air values. |
| Scenarios.AirReadingsIgnoredFrom | app.py:256-262 | The same, from any position of the search. |
| Scenarios.FirstMatchUnique | app.py:247-262 | Any index that matches, with every earlier rule passed over, is the one the search returns. |
| Scenarios.VacationDuration | app.py:269-271 | Under vacation mode a positive duration is exactly halved; any other duration is unchanged. |
| Scenarios.HalvedDuration | app.py:269-271 | Outside vacation mode the duration is kept as read, `null` included. Under vacation mode a number is halved when positive. A `null` raises (`null > 0`), exactly when vacation mode is on. |
| Scheduler.DayName | app.py:111 | The weekday's English lower-case name ends in "day". |
| Scheduler.ParseScheduleTime | app.py:125 | A time parses only when it splits at `:` into exactly two parts. |
| Scheduler.ScheduleTimeText | app.py:125 | `"H:M"` written in decimal reads back as `(H, M)`. |
| Scheduler.EntryVerdict | app.py:113-145 | An entry fires iff it is enabled (default true), lists today, has a valid time within one minute of now, passes the 5-minute guard and finds the pump off; it fires with `EntryMinutes`. It raises iff it is enabled and lists today but its time is malformed. |
| Scheduler.EntryMinutes | app.py:120 | An entry runs for its stored number; a missing key and a stored `null` both give the one-minute default. |
| Scheduler.EntryMinutesAsWritten | app.py:120 | `schedule.get('duration', 1)` is `None` exactly when the entry stores `null`; otherwise it is the entry's minutes. |
| Scheduler.DueFrom | app.py:113-150 | A triggered or failed entry is preceded only by entries that pass; "nothing due" means every entry passes. |
| Scheduler.Due | app.py:107-150 | A running pump is never started, and a start always respects the 5-minute guard. |
| Scheduler.DueStep | app.py:113-150 | An entry that passes hands the search to the next entry; one that fires or raises ends it there. |
| Scheduler.CheckEntry | app.py:113-148 | The loop body with its `continue` statements computes the entry's verdict. |
| Scheduler.FindDue | app.py:113-150 | The loop over the entries returns the first entry that fires or raises, or nothing due. |
| Scheduler.NoMidnightWrap | app.py:128-130 | 23:59 is not within a minute of 00:00. |
| Scheduler.NotToday | app.py:121-122 | An entry whose days do not include today never fires. |
| Pump.TimerVerdictAt | app.py:197-212 | The check is idle iff the timer is unset. It is a leak iff elapsed > 1.5 × planned. It is a normal stop iff planned ≤ elapsed ≤ 1.5 × planned. |
| Pump.LeakAfterDuration | app.py:199-202 | With a non-negative plan, a leak stop happens only after the planned minutes. |
| Pump.KeepRunningBelowPlan | app.py:212 | A running timer keeps going exactly while fewer than the planned minutes have passed. |
| Pump.StopAndRecord | app.py:204-211 | Pump off, timer cleared, last watering = stop instant, exactly one event (start, elapsed seconds) appended; the invariant holds. |
| Pump.TimerStep | app.py:197-222 | Either stop verdict turns the pump off, clears the timer, stamps the last watering and appends one event. Otherwise nothing changes. The invariant is preserved. |
| Pump.Started | app.py:291-294 | Pump on, timer set to now and the duration, log unchanged; the invariant holds. |
| Pump.StopIfRunning | app.py:318-330 | The pump ends off. A pump that was off is unchanged. The run is recorded only when a start instant is known. The invariant is preserved. |
| Pump.ActionStep | app.py:278-330 | A running pump's timer is never reset. A start needs a stopped pump and the interval guard, and stamps now. The watering texts start exactly when pump off and guard passed; monitoring also needs duration > 0. "Pas d'arrosage" stops. Other texts do nothing. The invariant is preserved. |
| Pump.StartedWithoutPlan | app.py:291-294 | A start that copies `None` into the planned duration leaves the pump on, stamped now, with no plan, which breaks the timer invariant. |
| Pump.UnplannedRunNeverStops | app.py:197 | The per-tick check never changes a run that has no planned duration. |
| Pump.RuleAction | app.py:264-330 | A numeric duration acts as `ActionStep`. A `null` duration never starts the pump: "Pas d'arrosage" still stops it and other texts change nothing. A start needs a stopped pump and the interval guard, a running pump is left as it is, and the invariant is preserved. |
| Pump.RuleActionLog | app.py:318-330 | The rule's action logs nothing, or exactly the run it stops. |
| Pump.RuleActionAsWritten | app.py:266-294 | With a `null` duration, a watering text on a stopped pump past the guard starts a run without a plan. In every other case it agrees with `RuleAction`. |
| Pump.NullRuleLeavesPumpRunning | app.py:197-294 | As written, such a start breaks the invariant, and the per-tick check leaves that run on at every later instant. |
| Pump.SecondStopLogsNothing | app.py:318-330 | Stopping a second time changes nothing, so a run is never logged twice. |
| Pump.ToMinutes | app.py:1057-1064 | A missing duration is 1 minute, a number is itself, a string reads as `float()` reads it (no value where `float` raises), and any other JSON value makes `float` raise. |
| Pump.ManualStepAsWritten | app.py:1059-1081 | Start with an unconvertible duration: the pump is on and `pump_on_time` is set, with no planned duration and an error reply. |
| Pump.ManualStartLeavesPumpRunning | app.py:1061-1064 | That start breaks the timer invariant, and the per-tick check never stops the pump. |
| Pump.ManualStep | app.py:1059-1081 | The last watering is never moved. Start needs a stopped pump and skips the interval guard. An unconvertible duration changes nothing. Stop always ends with the pump off and logs only when a start instant is known. Any other action is invalid and changes nothing. The invariant is preserved. |
| Pump.ManualStepAgrees | app.py:1059-1081 | As-written and corrected manual control agree on every request except the start with an unconvertible duration. |
| Pump.ManualStopTwice | app.py:1069-1078 | A second manual stop logs nothing more. |
| Pump.PumpTimer.constructor | app.py:1599-1600 | Pump off, no timer, no watering yet, empty log; the invariant holds. |
| Pump.PumpTimer.Record | app.py:406-408 | Appends exactly one event to the log and changes nothing else. |
| Pump.PumpTimer.Start | app.py:291-294 | The new state is `Started` of the old. |
| Pump.PumpTimer.StopRun | app.py:204-211 | The new state is `StopAndRecord` of the old. |
| Pump.PumpTimer.CheckTimer | app.py:197-222 | The verdict is `TimerVerdictAt` and the new state is `TimerStep` of the old. |
| Pump.PumpTimer.ApplyAction | app.py:276-330 | The new state is `RuleAction` of the old; a start happens only for a numeric duration. |
| Pump.PumpTimer.ManualControl | app.py:1050-1085 | New state and reply are `ManualStep` of the old state: the corrected definition. |
| Monitor.LoopConfig | app.py:162-170 | The pass starts from a truthy cache, else from the file. |
| Monitor.ScheduleSource | app.py:96-104 | The schedule is the `scheduled_waterings` list (default empty) of a truthy cache, else of the readable file; with neither it is empty. |
| Monitor.ScheduleApplied | app.py:140-145 | A triggered entry starts the pump with its duration and stamps the last watering. Otherwise nothing changes. |
| Monitor.CurrentRules | app.py:244 | The profile exists iff `scenarios` and `current_scenario` are present and the profile is listed; it is that entry. |
| Monitor.ScenarioStep | app.py:243-332 | A missing `scenarios` key or profile is `ScenarioKeyError`, no match is `NoScenario`, a missing key in a rule before the match is that rule's `RuleKeyError`. On the match: a missing `Action` or duration key is `RuleKeyError`; `null` under vacation mode, or `null` with monitoring on a stopped pump, is `RuleTypeError`; otherwise the rule is applied with its halved duration and the configured interval (default 30), and the pump becomes `RuleAction` of the old state. Only an applied rule changes the pump. Without a soil reading nothing is applied. |
| Monitor.MatchedWaterRuleStarts | app.py:264-294 | A selected watering rule with a numeric duration starts a stopped pump past the interval guard, for the duration after vacation mode. |
| Monitor.TickSpec | app.py:158-339 | An unreadable configuration ends the pass with nothing changed, and so does maintenance mode (its outcome is `MaintenancePause`). The store after the pass is either the same store or its cache refresh. |
| Monitor.TickConsistent | app.py:158-339 | Every pass preserves `pumpOn ⇔ pump_on_time set ⇔ duration set`. |
| Monitor.ScenarioStepLog | app.py:264-330 | The scenario step logs nothing, or exactly the run it stops. |
| Monitor.TickLogAppends | app.py:196-330 | A pass only appends to the watering log, at most two events. |
| Monitor.MaintenanceFreezes | app.py:172-178 | In maintenance mode a pass leaves pump, timer, log and cache unchanged. |
| Monitor.LeakCutoff | app.py:197-211 | A run past 1.5 × its plan is stopped and logged in the pass that sees it. Any pump running afterwards was started at now. |
| Monitor.StartNeedsGuard | app.py:134-316 | A pass that starts a stopped pump does so at now and stamps the last watering. A scheduled start passed the 5-minute guard; a rule start passed the configured interval. |
| Monitor.RuleActionStarts | app.py:288-294 | When the rule's action leaves the pump on, either it was already on and nothing changed, or it was off, the guard passed, and the run and last watering are stamped now. |
| Monitor.ScheduledNullLeavesPumpRunning | app.py:117-147 | As written, a due entry storing `null` starts a run with no plan, breaking the invariant, and the per-tick check never stops it. |
| Monitor.TickIgnoresAir | app.py:254-262 | The whole pass is the same for readings that differ only in air values. |
| Monitor.CheckScheduledWatering | app.py:91-150 | The outcome is `Due` over the schedule source, and the pump is started exactly on a trigger. |
| Monitor.ApplyScenario | app.py:264-330 | New pump state and outcome are `ScenarioStep`. |
| Monitor.Tick | app.py:158-339 | Pump, store, scheduler flag and outcome after the pass are `TickSpec` of the old state. |
| Settings.EffectiveSettings | app.py:671-676 | Missing keys read as False, False, [] and 30; each present key reads as its own value. |
| Settings.MergeSettings | app.py:697-711 | Each of the four keys is overwritten iff present in the request; profiles, current scenario and every other key are untouched. |
| Settings.MergeIdempotent | app.py:697-711 | Merging the same request twice equals merging it once. |
| Settings.MergeNothing | app.py:697-711 | A request with none of the four keys changes nothing. |
| Settings.MergeReported | app.py:671-711 | After a merge the reported settings are the request's wherever it set them, else the previous ones. |
| Settings.WithDefaults | app.py:1580-1587 | After start-up all four keys are present. A present key is kept, and nothing else changes. |
| Settings.DefaultsAgree | app.py:1580-1595 | Filling in defaults does not change the settings any reader sees. |
| Settings.WithDefaultsIdempotent | app.py:1580-1587 | Filling in defaults twice equals filling them in once. |
| Settings.RefreshStep | app.py:231-241 | A fresh cache is kept. A stale or missing one is reloaded from the file stamped now, and the reload fails iff the file is unreadable. Afterwards the cache is fresh. |
| Settings.RefreshWithinTtl | app.py:231-232 | Within 5 s of a reload the file is not read again. |
| Settings.StaleCacheReloads | app.py:231-237 | A cache more than 5 s old is replaced by the file content. |
| Settings.UpdateStep | app.py:688-723 | An unreadable file is an error with no change. Otherwise the merged config is written, becomes the cache stamped now, and is fresh for the loop. |
| Settings.StartupStep | app.py:1576-1597 | The file, when readable, gets its defaults; an unreadable file is left alone. |
| Settings.ConfigStore.constructor | app.py:49-51 | No cache and no stamp at start. |
| Settings.ConfigStore.InitDefaults | app.py:1576-1590 | The new store is `StartupStep` of the old. |
| Settings.ConfigStore.Refresh | app.py:231-241 | Success and new store are `RefreshStep`; a failure changes nothing. |
| Settings.ConfigStore.UpdateSettings | app.py:688-723 | New store and reply are `UpdateStep`. |
| NodeEndpoint.NodeRules | app.py:1246 | Missing `scenarios` gives no rules; otherwise the rules are the profile named by `current_scenario` (default "Monstera deliciosa"). |
| NodeEndpoint.NodeMatchFrom | app.py:1249-1260 | The endpoint's search returns the first rule whose soil condition holds, and every earlier rule failed. It never stops on a missing key. |
| NodeEndpoint.NodeDecision | app.py:1236-1266 | The mode flags are echoed. The answer is `water` exactly when `NodeWaters` holds (no maintenance, a soil value, a first match with a watering text); otherwise `none` with duration 0, in particular under maintenance or with no soil value. With `water`, the duration is the rule's (default 1), halved under vacation mode. The error reply comes exactly when vacation mode multiplies a `null` duration. |
| NodeEndpoint.FindMatchStep | app.py:247-262 | One step of the loop's search over a rule that has its keys. |
| NodeEndpoint.NodeMatchAgreesFrom | app.py:1250-1260 | Where every rule has its keys, the endpoint's search and the loop's search select the same rule. |
| NodeEndpoint.NodeMatchAgrees | app.py:1250-1260 | The same, for the whole profile. |
| NodeEndpoint.NodeHalvesNonPositive | app.py:1256-1259 | The endpoint halves a negative duration, which the loop leaves alone: -2 becomes -1. |
| Durations.TruncToInt | app.py:455 | `int()` truncates toward zero. |
| Durations.DurationParts | app.py:455-458 | `3600h + 60m + s = n`, with `0 <= m, s < 60`, `h >= 0` for `n >= 0`, and `h > 0` iff `n >= 3600`. |
| Durations.PartsUnique | app.py:456-458 | Any such decomposition is the one computed. |
| Durations.HoursShownIff | app.py:459 | The text shows hours iff there is at least one whole hour. |
| Durations.MinutesFirst | app.py:459 | Below an hour the text is `"<m>m <s>s"`. |
| Durations.FormatDuration | app.py:454-459 | The text has at least five characters and ends in `s`. |
| Rotation.KeepLast | app.py:389 | `lines[-k:]` is a suffix, of length k when `0 < k <= len`, and the whole list for k = 0. |
| Rotation.DropLast | app.py:394 | `lines[:-k]` is a prefix, and empty when k = 0 or k ≥ len. |
| Rotation.SlicesPartition | app.py:389-394 | Backup followed by kept lines is the original list, for every k. |
| Rotation.BackupName | app.py:392 | The name changes iff it contains `.csv`. |
| Rotation.RotateSpec | app.py:383-402 | A missing or short log leaves the files alone. A long one keeps its last lines, its older lines go to the backup name, and no other file changes. |
| Rotation.RotationSplits | app.py:387-398 | For a `.csv` log over a positive limit, exactly `max_lines` lines are kept, and backup plus log is the old log. |
| Rotation.ZeroLimitKeepsAll | app.py:387-398 | With limit 0 the log is rewritten unchanged and the backup is empty. |
| Rotation.NoCsvLosesBackup | app.py:392-398 | Without `.csv` the older lines are lost: only the kept lines remain under the same name. |
| Rotation.LogFiles.constructor | app.py:384-385 | The files as found. |
| Rotation.LogFiles.RotateLogFile | app.py:381-402 | The new files are `RotateSpec` of the old. |
| Nodes.NewEntry | nodes_api.py:33-43 | A new entry has the id, registration instant now, no last-seen, offline, and name and location taken from the info or defaulted. |
| Nodes.Refreshed | nodes_api.py:46-53 | The update keeps id, name, location and registration instant, and sets last-seen now and online. Battery and IP come from the info; solar charging defaults to False and firmware to "1.0". |
| Nodes.Registered | nodes_api.py:30-56 | Only the entry of the node id changes, and it is the only key that may be added. |
| Nodes.RegisterKeepsIdentity | nodes_api.py:33-53 | A known node keeps id, name, location and registration instant. Its firmware becomes the reported one or "1.0". |
| Nodes.RegisterTwice | nodes_api.py:30-56 | Re-registering with the same info only moves the last-seen instant. |
| Nodes.MarkIfStale | nodes_api.py:69-72 | An entry changes at most its status. It is offline iff it was offline already or was last seen more than 300 s ago. |
| Nodes.StaleMarked | nodes_api.py:63-73 | The listing keeps the key set and applies the offline rule to each entry. |
| Nodes.NeverMarkedOnline | nodes_api.py:68-72 | The listing never brings a node online. |
| Nodes.FreshNodeOnline | nodes_api.py:46-71 | A node that registered at most 300 s ago is listed online. |
| Nodes.LoggedReport | nodes_api.py:84-100 | Each log gets exactly one line, and only under its own condition: temperature or humidity present; soil present; watering event true. Old lines are kept. The new line holds the reported values, and a watering line with no reported duration logs 0. |
| Nodes.NodeRegistry.constructor | nodes_api.py:14-22 | The registry starts with the file as found and no logs. |
| Nodes.NodeRegistry.RegisterNode | nodes_api.py:30-56 | The saved map is `Registered` of the loaded one, and the returned entry is the stored one. |
| Nodes.NodeRegistry.GetAllNodes | nodes_api.py:63-73 | The loop over the entries returns `StaleMarked` of the loaded map. |
| Nodes.NodeRegistry.RecordNodeData | nodes_api.py:75-100 | The node's logs become `LoggedReport` of its old logs; the registry file is untouched. |
| PlantImages.FileChars | download_plant_images.py:138 | The result has no space, dot or slash, and its length is the name's minus its dots. |
| PlantImages.ChainIsFileChars | download_plant_images.py:138 | The three chained replaces act character by character. |
| PlantImages.FileCharsPlain | download_plant_images.py:138 | A text without space, dot or slash is its own file name. |
| PlantImages.PlantFilename | download_plant_images.py:136-138 | Spaces and slashes become `_` and dots are dropped. There is no space, dot or slash left, and the length is the name's minus its dots. |
| PlantImages.PlantFilenameIdempotent | download_plant_images.py:138 | A file name is its own file name. |
| PlantImages.FilenameCollides | download_plant_images.py:138 | "a b." and "a/b" share a file name. |
| PlantImages.OriginalImageUrl | download_plant_images.py:119-122 | A URL without `/thumb/` is unchanged. Otherwise the result is shorter, and is the replaced URL with one final `/`-free segment cut off. |
| PlantImages.CutLastSegment | download_plant_images.py:122 | After the replace, cutting at the last `/` removes a slash and one `/`-free segment. |
| PlantImages.ReplacedHasSlash | download_plant_images.py:122 | The replace leaves a `/` and does not lengthen the URL. |
| PlantImages.ThumbnailExample | download_plant_images.py:120-122 | `c/thumb/x/9px` becomes `c/x`, the shape of the example in the source. |
| PlantImages.ImageExtension | download_plant_images.py:170-174 | The extension is "png" iff the lower-cased URL contains ".png". It is "webp" iff it contains ".webp" but not ".png". Otherwise it is "jpg". |
| PlantImages.ExtensionIgnoresCase | download_plant_images.py:171-173 | The choice does not depend on letter case. |
| PlantImages.ImageFile | download_plant_images.py:176-177 | The target file name has exactly one dot. |
| PlantImages.WikiNames | download_plant_images.py:157-159 | The titles are the mapping entry, else the single name with spaces as `_`. |
| PlantImages.FirstHit | download_plant_images.py:162-166 | The first title whose lookup gives a usable URL, with every earlier one failing; none when all fail. |
| PlantImages.FindImageUrl | download_plant_images.py:162-166 | The loop's URL is usable iff some title hit, and then it is the first hit's URL. |
| PyStr.Split | app.py:353 | `split` with one separator gives one part more than there are separators. |
| PyStr.SplitWithout | app.py:353 | Text without the separator splits into itself. |
| PyStr.SplitAt | app.py:353 | The first separator ends the first part. |
| PyStr.StripUnpadded | app.py:349 | Text with non-blank ends is its own strip. |
| PyStr.StripPadded | app.py:366 | Leading blanks are removed by strip. |
| PyStr.StripLeftShape | app.py:349 | `lstrip` removes a prefix of white space and keeps a suffix that does not start with white space. |
| PyStr.StripRightShape | app.py:349 | `rstrip` removes a suffix of white space and keeps a prefix that does not end with white space. |
| PyStr.StripShape | app.py:349 | `strip` keeps one slice of the text, removes only white space around it, and leaves no white space at either end. |
| PyStr.StripAllSpace | app.py:349 | Blank text strips to the empty text. |
| PyStr.ParseNumNatStr | app.py:356 | `float(str(n)) == n` for every natural n. |
| PyStr.ParseUnsignedDigits | app.py:356 | A non-empty digit string reads as its decimal value. |
| PyStr.ParseNumSign | app.py:356 | A leading `-` negates the unsigned number after it, and a leading `+` keeps it. |
| PyStr.SplitFraction | app.py:356 | Digits, one `.` and digits split at the `.` into the two digit strings. |
| PyStr.ParseUnsignedFraction | app.py:356 | Such a text reads as the whole part plus the fraction digits over the matching power of ten. |
| PyStr.ParseNumUnsigned | app.py:356 | Unpadded text starting with a digit reads as an unsigned number. |
| PyStr.ParseNumDecimal | app.py:356 | `float("a.b")` is a + b / 10^|b| for digit strings a and b. |
| PyStr.ParseBlank | app.py:356-366 | Blank text is no number for `float()` and none for `int()`. |
| PyStr.ParseIntNatStr | app.py:125 | `int(str(n)) == n` for every natural n. |
| PyStr.ParseIntSigned | app.py:125 | `int("-n")` is -n and `int("+n")` is n. |
| PyStr.ParseIntRejectsFraction | app.py:125 | `int()` rejects a text with a decimal point. |
| PyStr.NatStrValue | app.py:459 | The decimal text of n reads back as n. |
| PyStr.Replace | app.py:392 | `str.replace` with a pattern replaced by itself gives back the text. |
| PyStr.ReplaceAbsent | app.py:392 | Replacing a pattern that does not occur changes nothing. |
| PyStr.ReplaceLength | app.py:392 | A longer replacement lengthens the text wherever the pattern occurs. |
| PyStr.ReplacePresent | download_plant_images.py:122 | When the pattern occurs, the replacement occurs in the result. |
| PyStr.ReplaceShrinks | download_plant_images.py:122 | A replacement no longer than the pattern never lengthens the text. |
| PyStr.BeforeLast | download_plant_images.py:122 | `rsplit(c, 1)[0]` is the prefix before the last `c`, and the whole text when there is none. |
| PyStr.Lower | download_plant_images.py:171 | `lower()` keeps the length and lower-cases each ASCII letter. |
| PyStr.LowerIdempotent | download_plant_images.py:171 | Lower-casing twice equals lower-casing once. |
| WorkedExamples.WetCondition | app.py:361-367 | `">55"` holds exactly above 55. |
| WorkedExamples.DryCondition | app.py:370-376 | `"<35"` holds exactly below 35. |
| WorkedExamples.MiddleCondition | app.py:351-358 | `"35-55"` holds exactly from 35 to 55. |
| WorkedExamples.WetSoil | app.py:247-262 | In the three-band profile a reading above 55 selects the first rule. |
| WorkedExamples.DrySoil | app.py:247-262 | A reading below 35 selects the second rule. |
| WorkedExamples.MiddleSoil | app.py:247-262 | A reading from 35 to 55 selects the third rule. |
| WorkedExamples.NoSoil | app.py:254 | Without a soil reading nothing is selected. |
| WorkedExamples.IntervalCases | app.py:283-286 | With a 30-minute interval, 10 minutes after the last watering refuses and 31 minutes allows. |
| WorkedExamples.TimerCases | app.py:197-222 | A one-minute plan keeps running at 0.9 minutes, stops at 1.0 and is a leak at 1.6. |
| WorkedExamples.LeakBoundaryIsNormalStop | app.py:202 | Exactly 1.5 × the plan is a normal stop. |
| WorkedExamples.ZeroSixHundred | app.py:125 | `"06:00"` is six o'clock. |
| WorkedExamples.ScheduleCases | app.py:113-145 | A Monday 06:00 entry fires at 06:01 and not at 06:03. |
| WorkedExamples.VacationCase | app.py:269-271 | Vacation mode turns 1.5 minutes into 0.75. |
| WorkedExamples.DryPassStartsPump | app.py:243-294 | A dry reading under vacation mode, with the pump off and no earlier watering, applies the second rule and starts the pump for 0.75 minutes with the default 30-minute interval. |
| WorkedExamples.NullScheduleCase | app.py:117-145 | A Monday 06:00 entry storing `null` fires at 06:00 with 1 minute in the model, while what the code reads is `None`. |
| WorkedExamples.NullRuleCase | app.py:266-294 | "Arroser" with `null` on a stopped pump: as written an unplanned run starts; the model leaves the pump off. |

## Left out

- Hardware is left out: GPIO, the DHT11 sensor and the ADS1115 analog converter. The pump output is the field `pumpOn`, and the sensor values are the parameter `Reading`. The voltage-to-percent conversion of `get_soil_moisture` is sensor calibration on floats.
- The monitor thread, its `while True` and its sleeps are left out, and so are the races between the web handlers and the thread. One pass is a sequential method. The several `datetime.now()` calls of one pass are modelled as one instant `now`.
- The Flask routes, templates, JSON and CSV responses and exports are left out, and so are the statistics, trends and alerts pages with their float aggregates. `parse_timestamp`, `get_node`, `get_node_history` and `api_register_node`'s request handling are left out too: they format or read `datetime` strings or are plain route plumbing.
- File contents are modelled only where they matter:
  - `data.json` and `nodes.json` are the fields of `ConfigStore` and `NodeRegistry`; `None` stands for an unreadable file;
  - the per-node CSV logs are sequences of tuples;
  - the watering log written by `record_arrosage` is the ghost field `PumpTimer.history`;
  - `record_temp_humidity` and `record_soil_moisture` only append sensor lines and are left out;
  - the `rotate_log_file` call inside `record_arrosage` is not chained to `Record`.
- Exact float semantics are left out. Instants, minutes and thresholds are `real`. `float()` is modelled for optional sign, digits and one decimal point; exponents, `inf`/`nan` and digit underscores are not recognised.
- JSON strings, booleans and lists for durations and intervals are left out; the model types durations as a number or `null`, and intervals as numbers. A string duration would be stored by the code (app.py:145, app.py:293) and then raise in the leak multiplication (app.py:199) on every later pass, with the pump left running.
- `null` is modelled for durations only. A `null` time, day list, `enabled` flag, action or threshold is not.
- Pump.ToMinutes: a JSON boolean is folded into `Other`, although Python's `float(True)` is 1.0.
- `str.lower` is modelled on ASCII letters only. The weekday name assumes the English locale.
- `load_config` and `save_config` only print or do nothing and are left out.
- The HTTP queries to the encyclopedia are left out: the lookup is the function parameter `lookup` of `FindImageUrl`. `download_image`'s request and file write are left out; only its URL rewrite is modelled. The creation of the images directory and the reading of the file are left out.
- Conditions.EvalCondition: its own contract states only the two cases in which it always fails. Its meaning on ranges and bounds is stated by `RangeDecided`, `BoundDecided`, `RangeMeaning`, `GreaterMeaning` and `LessMeaning`, and its failure on every other text by `EvalFailsClosed`. The three meaning lemmas are stated for natural-number thresholds; a negative bound is covered by `NegativeBoundNeverMatches`.
- A blanket exception in a pass ends the pass with the state reached so far. The exceptions modelled this way are:
  - a malformed schedule time;
  - a missing profile or rule key;
  - a failed reload;
  - a `null` rule duration met by vacation mode's `> 0`, or by monitoring's `> 0` on a stopped pump.

  Other exceptions (a failed log write, a type error on other odd JSON) are not modelled.
- The repository's hardware diagnostic scripts (pump, analog converter and soil sensor checks) are not part of this model.

## Findings

| source | as written | input that shows it | evidently intended | confidence | as-written member | corrected member |
|---|---|---|---|---|---|---|
| app.py:1061-1064 | Manual start drives the pump on and sets `pump_on_time` before `float(duration)` runs. When `float` raises, the handler replies with an error but leaves the pump running with no planned duration, so the per-tick duration and leak check (which needs both values) never stops it. | `{"action": "start", "duration": "abc"}` with the pump off | Convert the duration first, and leave the pump off with the timer unset when it is rejected | high (not executed) | Pump.ManualStepAsWritten, Pump.ManualStartLeavesPumpRunning | Pump.ManualStep, Pump.PumpTimer.ManualControl |
| app.py:266-294 | The loop copies the rule's duration into `watering_duration_minutes` without checking it. With `"Watering duration (minutes)": null` and vacation mode off, "Arroser" turns the pump on with `None` as the planned duration, and the stop check at app.py:197, which needs a planned duration, never ends that run. | the matched rule `{"Action": "Arroser", "Watering duration (minutes)": null}` with the pump off and the interval passed | Do not start a run without a planned duration | medium (not executed) | Pump.RuleActionAsWritten, Pump.NullRuleLeavesPumpRunning | Pump.RuleAction, Monitor.TickConsistent |
| app.py:117-145 | `schedule.get('duration', 1)` returns `None` for an entry that stores `null`, and the scheduler copies it into `watering_duration_minutes`, so the pump it starts has no planned duration and is never stopped by the per-tick check. | `{"time": "06:00", "days": ["monday"], "duration": null}` at Monday 06:00 with the pump off | Treat a `null` duration like a missing one (1 minute) | medium (not executed) | Scheduler.EntryMinutesAsWritten, Monitor.ScheduledNullLeavesPumpRunning | Scheduler.EntryMinutes, Monitor.TickConsistent |
