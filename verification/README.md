# Orbit: a verified model

Orbit runs services and scheduled jobs as containers on one machine. This project models the parts
of it that decide what happens: the cron engine and the job scheduler, the reconciler that turns a
declared stack into containers, the event bus, the health monitor, and the path from configuration
to the engine's create request. It proves what those parts guarantee for every input, every failure
of the engine and every interleaving of locked regions.

`dafny verify dfyconfig.toml` checks everything.

| file | content |
|---|---|
| `Wrappers.dfy`, `Text.dfy` | results, and the string and number parsing the program relies on |
| `Calendar.dfy` | the Gregorian calendar in UTC |
| `CronField.dfy`, `Cron.dfy`, `CronHorizon.dfy` | cron fields, the bounded search for the next run, and what its one-year horizon means in UTC |
| `SchedulerModel.dfy`, `Scheduler.dfy`, `Dormancy.dfy` | the scheduler as a state machine over its locked regions, the mutable objects that implement it, and jobs that stop for good |
| `Models.dfy`, `Validate.dfy`, `Spec.dfy`, `Labels.dfy` | workloads and triggers, validation, create requests, names and labels |
| `BusModel.dfy`, `BusRace.dfy`, `Bus.dfy` | the event bus as a state machine, once with each publish a single step and once with its sends outside the lock, and its channels and tables |
| `Health.dfy` | backoff and the monitor loop |
| `Engine.dfy`, `ReconcilerModel.dfy`, `Reconciler.dfy` | a fallible engine, the theory of a reconcile pass, and the reconciler |
| `Pipeline.dfy` | what an accepted configuration gives to the reconciler and to the scheduler |

Classes carry the state the program updates in place; each of their methods is tied to a step of a
state machine or to a relation between plain values, and the lemmas are about those.

## Findings

- The one-year search has no result in UTC exactly when the schedule selects by date only and none
  of the selected dates exists in the coming year (`CronHorizon.NoNextRunExactly`).
- A six-field schedule at second 0 and the five-field schedule of the same fields agree, except when
  only 29 February is selected and the search starts in the last minute of the 28 February before a
  leap year (`CronHorizon.SearchesAgreeExactly`, `CronHorizon.SearchesCanDisagree`).
- A step near the 64-bit maximum is refused in the fields that count from 1
  (`CronFields.LargestStep`).
- Two runs of one job can overlap when the job is registered again during a run, and only then
  (`SchedulerModel.ExclusiveExactly`, `SchedulerModel.ReregistrationOverlaps`).
- A "0 0 29 2 *" job runs once and never again, unless that one run lasts into the third year after:
  the search at its end finds nothing and deactivates it for good (`Dormancy.LeapDayJobRunsOnce`,
  `Dormancy.DormantExactly`).
- Validation counts the fields of a schedule and no more. A schedule it accepts can name minute 61 or
  30 February; the scheduler then refuses the job, and one refusal fails the whole sync
  (`Pipeline.RefusedExactly`, `Pipeline.BadMinutePasses`, `Pipeline.NoSuchDatePasses`).
- Syncing one stack drops the scheduled jobs of every other stack, since it removes every key it does
  not list (`Scheduler.JobScheduler.Sync`, `Scheduler.OtherStacksAreUnlisted`).
- Service containers are stamped with the hash found in the user's own labels, normally none. A further
  reconcile of an unchanged stack therefore replaces every service whose user labels lack the hash and
  whose container the reconcile before had made (`Spec.StampedHash`, `Reconciler.SecondReconcile`). The
  repository's README says containers are updated if the configuration changes.
- A successful reconcile leaves what an observer sees unchanged, container ids aside, exactly when it
  loaded, for each service and no other workload, a running container of the desired image that is
  current or has the built name, and left none beside its replacement
  (`Reconciler.ReconcileShowsNothing`). From a stack with distinct labels and built names that is
  exactly when the stack was realised already (`Reconciler.RealizedStays`). With two containers sharing
  a label a second reconcile can change what is seen although neither left anything behind
  (`Reconciler.TwinsMove`).
- Failed reconciles do no lasting harm: distinct labels and built names survive every run, wherever it
  fails, so the first success after any number of failures realises the stack
  (`Reconciler.Reconciler.Reconcile`, `Reconciler.Reconciler.ReconcileUntilSuccess`).
- A successful reconcile leaves one running container of the desired image per service, and nothing
  else of the stack, exactly when the managed containers it found carried distinct workload labels and
  none was left beside its replacement by a failed inspection (`Reconciler.ReconcileServes`). The
  latter needs a container of a desired workload that does not have its built name
  (`Reconciler.MisnamedIsDoubled`). Without such containers the names come out right too
  (`Reconciler.ReconcileConverges`).
- Loading does not look at the kind of a container, so a reconcile meets job runs in flight. Of those it
  loads and can inspect, one whose name, image and hash are a service's is taken for the service and
  runs on in its place; any other is removed, and reported so when no service has its name
  (`Reconciler.JobContainerFate`, `Reconciler.JobIsAdopted`).
- A publisher sends after releasing the lock. A send meets a closed channel, and panics, exactly when
  the bus was closed or that subscription cancelled since the publisher picked the channel
  (`BusRace.PanicsExactly`, `BusRace.RacePanics`).
- Backoff is the capped doubling for every attempt exactly when the base is no more than the maximum
  and the last doubling below the maximum can itself be doubled in 64 bits
  (`Health.BackoffIsCappedExactly`). Otherwise a delay can come out negative
  (`Health.LargeBaseWraps`).

## Model

| member | source | states |
|---|---|---|
| `Text.TrimSpaceExactly` | internal/scheduler/cron.go:219 | trimming takes the white space off both ends and nothing else |
| `Text.CaseKeepsOthers` | internal/docker/labels.go:15 | changing case leaves everything but letters of the other case alone |
| `CronFields.FieldBuilder.Add` | internal/scheduler/cron.go:286-295 | a number joins the set exactly when it lies in the bounds after 7 is read as Sunday; otherwise the set is unchanged |
| `CronFields.FieldBuilder.AddEvery` | internal/scheduler/cron.go:237-248 | a step segment adds the whole arithmetic progression, and is refused exactly when its first increment wraps past 64 bits |
| `CronFields.FieldBuilder.AddRange` | internal/scheduler/cron.go:250-272 | a range adds every number it names, and is refused exactly when one of them is out of bounds |
| `CronFields.ParseField` | internal/scheduler/cron.go:218-284 | accepts exactly the asterisk and the lists whose every segment is well formed and in range; the result is the union of the segments; an error is that of the first bad segment |
| `CronFields.ProgressionMember` | internal/scheduler/cron.go:242-246 | the numbers a step names are min plus multiples of the step, up to max |
| `CronFields.MeaningIsWellFormed` | internal/scheduler/cron.go:218-295 | an accepted list is non-empty, inside the bounds, and never holds a Sunday 7 |
| `CronFields.RenderedListMeans` | internal/scheduler/cron.go:230-283 | any written list of segments is accepted iff each fits, and reads back as the union of what they denote |
| `CronFields.LargestStep` | internal/scheduler/cron.go:242-246 | the largest 64-bit step is accepted for minutes and refused for days of the month |
| `CronFields.ReadsExactly` | internal/scheduler/cron.go:230-283 | a text reads as a segment iff a grammar of steps, ranges and values in unsigned or plus-signed 64-bit decimals spells that segment |
| `CronFields.FieldGrammar` | internal/scheduler/cron.go:218-284 | a field is accepted iff it is the asterisk or every listed text spells a segment that fits; its values are those the spelled segments denote |
| `CronFields.AcceptsExactly` | internal/scheduler/cron.go:218-295 | a field accepts a text iff it is the asterisk or every listed text spells a step, range or value inside the field's bounds, step wrap included, the bounds being all that is said of the field |
| `CronFields.FieldSays` | internal/scheduler/cron.go:218-295 | an accepted field holds a number iff its text says it: by the asterisk, or by a segment that names it, or for Sunday also by naming 7 |
| `Cron.ParseSchedule` | internal/scheduler/cron.go:25-114 | accepts exactly the non-blank expressions of 5 or 6 texts in a known zone whose every text is accepted at its own place, seconds first when there are six, and returns a schedule that matches an instant iff the zone's clock shows what each text says |
| `Cron.ReadableExactly` | internal/scheduler/cron.go:25-114 | which expressions are readable, text by text with the literal bounds of each place |
| `Cron.MeaningSays` | internal/scheduler/cron.go:69-113 | a parsed schedule matches exactly the instants at which the second, minute, hour, day, month and weekday of the zone's clock are those the texts at those places say, under the day rule |
| `Pipeline.WrittenMatches` | internal/scheduler/cron.go:69-113 | for every written lists of segments and any zone, the parsed schedule matches iff the local second, minute, hour and month are listed, and the day of the month or the weekday is |
| `Pipeline.LeadingZero` | internal/scheduler/cron.go:69-113 | putting a zero before five texts changes nothing of what is readable and gives the same schedule at second 0 |
| `Cron.MeaningIsWellFormed` | internal/scheduler/cron.go:40-113 | every field of a parsed schedule is an asterisk or a non-empty set inside its bounds, day of week within 0 to 6 |
| `Cron.DayRule` | internal/scheduler/cron.go:188-209 | with both day fields restricted either may match, otherwise both must, and the second Sunday test is redundant |
| `Cron.StartIsFirstBoundary` | internal/scheduler/cron.go:121-128 | the search starts at the first boundary strictly after the given instant |
| `Cron.FindNext` | internal/scheduler/cron.go:131-151 | the loop ends and returns the least matching boundary in the window, or none |
| `Cron.ZoneShifts` | internal/scheduler/cron.go:121-151 | a schedule matches an instant iff its fields in UTC match the instant plus the zone's offset then |
| `Cron.NextInFixedZone` | internal/scheduler/cron.go:121-151 | in a zone a constant offset ahead, whole minutes for a minute search, the next run plus the offset is the next run of the same fields in UTC after the instant plus the offset, absence included |
| `Cron.NextIsLeast` | internal/scheduler/cron.go:116-151 | in any time zone the next run is the least match strictly after the instant and before the limit, and is absent exactly when there is none |
| `Cron.NextIsUnique` | internal/scheduler/cron.go:116-151 | no other answer meets that description |
| `Cron.RunsEnumerateMatches` | internal/scheduler/cron.go:116-151 | iterating lists every matching boundary up to the last one reached, in order, without repeat or omission |
| `Calendar.DateOfIsInverse` | internal/scheduler/cron.go:153-162 | every day has a valid civil date that numbers back to it |
| `Calendar.DayNumberIsInverse` | internal/scheduler/cron.go:153-162 | every valid civil date is recovered from its day number |
| `Calendar.DatesAreConsecutive` | internal/scheduler/cron.go:153-162 | the day after a date is the next calendar date across month and year ends |
| `Calendar.WeekdaysFollow` | internal/scheduler/cron.go:188-209 | each day has the weekday after that of the day before |
| `Calendar.AddYearShape` | internal/scheduler/cron.go:132 | one year on is 365 or 366 days ahead at the same time of day, on the same date or on 1 March for 29 February |
| `Calendar.CalendarStarts` | internal/scheduler/cron.go:153-162 | the calendar is anchored: instant 0 is midnight on Monday, 1 January of year 1 |
| `Calendar.UnixEpoch` | internal/scheduler/cron.go:153-162 | and the Unix epoch is Thursday, 1 January 1970 |
| `CronHorizon.MatchSplits` | internal/scheduler/cron.go:153-186 | in UTC an instant matches iff its day and its time of day each do |
| `CronHorizon.WeekdayInMonth` | internal/scheduler/cron.go:131-140 | every weekday of every month has a whole day inside every window |
| `CronHorizon.NextByWeekday` | internal/scheduler/cron.go:116-151 | a schedule not restricted to dates alone always has a next run |
| `CronHorizon.NextByDate` | internal/scheduler/cron.go:116-151 | a selected date that exists in the coming year gives a next run, partial first and last days included |
| `CronHorizon.NoNextRunExactly` | internal/scheduler/cron.go:116-151 | no next run iff only dates are selected and each is impossible or a 29 February with no instant left in the window |
| `CronHorizon.AgreeWhenBothFire` | internal/scheduler/cron.go:122-151 | the two searches return the same instant whenever both return one |
| `CronHorizon.SearchesAgreeExactly` | internal/scheduler/cron.go:122-151 | they agree, absence included, iff not in the one leap-day corner, where the second search finds nothing |
| `CronHorizon.SearchesCanDisagree` | internal/scheduler/cron.go:122-151 | a concrete schedule and instant on which they differ |
| `SchedulerModel.FiredIsOk` | internal/scheduler/scheduler.go:147-158 | a dispatch finds no active job without a next run and starts at most one run of an object |
| `SchedulerModel.DispatchStarts` | internal/scheduler/scheduler.go:141-166 | over every run, a dispatch starts exactly the objects of the table that are active, idle and have their next run not after its clock reading, each with one more firing at that slot and one goroutine |
| `SchedulerModel.NothingDueRemains` | internal/scheduler/scheduler.go:141-166 | so after it every object in the table is inactive, running, or has its next run after the reading |
| `SchedulerModel.FinishedIsOk` | internal/scheduler/scheduler.go:168-177 | the end of a run frees the object and sets the first slot after the finish, or deactivates it |
| `SchedulerModel.StepKeepsInv` | internal/scheduler/scheduler.go:46-177 | every locked region keeps the table, the running flags, the flights and the firing chains consistent |
| `SchedulerModel.RunsAreSafe` | internal/scheduler/scheduler.go:46-177 | so does every interleaving of them over a clock that never goes back |
| `SchedulerModel.OneFlightPerRunningJob` | internal/scheduler/scheduler.go:141-177 | in every reachable state a job object is running iff exactly one goroutine runs it, in the table or not; an active one has a matching next run; the recompute never happens |
| `SchedulerModel.SlotsAreLeastMatches` | internal/scheduler/scheduler.go:168-177 | a slot is the first match after the search that found it, and fires no earlier |
| `SchedulerModel.SlotsIncrease` | internal/scheduler/scheduler.go:141-177 | a later slot lies after the end of every earlier run |
| `SchedulerModel.MissedOnlyWhileBusy` | internal/scheduler/scheduler.go:141-184 | a match that never fired fell after an earlier slot and not after that run's end |
| `SchedulerModel.FiringDiscipline` | internal/scheduler/scheduler.go:141-184 | over every run, one registration's slots are increasing matches, none early, none skipped except while busy |
| `SchedulerModel.HolderIsLast` | internal/scheduler/scheduler.go:65-116 | the event a key is held by is its last registration, if not dropped since by an unregistration or a sync that does not list it |
| `SchedulerModel.TableExactly` | internal/scheduler/scheduler.go:65-116 | in every interleaving the table holds exactly the keys so held, each with the job, hash, schedule and clock reading of that registration |
| `SchedulerModel.SyncEndsWithListed` | internal/scheduler/scheduler.go:91-116 | whatever interrupts a sync, it ends with exactly the listed keys registered and not dropped since |
| `SchedulerModel.InactiveExactly` | internal/scheduler/scheduler.go:168-177 | in every reachable state an object is inactive iff it is idle and its last search found nothing |
| `SchedulerModel.InactiveStays` | internal/scheduler/scheduler.go:141-177 | an inactive object never changes again in any run |
| `Dormancy.DormantExactly` | internal/scheduler/scheduler.go:168-177 | in UTC that is iff it is idle and its schedule selects only dates that do not exist in the year after its last run |
| `Dormancy.LeapDayJobRunsOnce` | internal/scheduler/scheduler.go:168-184 | a leap-day midnight job whose first run ends within two calendar years of it is never run again |
| `SchedulerModel.ExclusiveExactly` | internal/scheduler/scheduler.go:65-77 | a step lets two live objects share a key iff it registers a key whose run is in flight |
| `SchedulerModel.NoOverlapWhenRegisteredIdle` | internal/scheduler/scheduler.go:65-77 | without such registrations runs of one key never overlap |
| `SchedulerModel.ReregistrationOverlaps` | internal/scheduler/scheduler.go:65-77 | any schedule that fires twice reaches an overlap when registered again during its run |
| `Scheduler.JobKeyIsInjective` | internal/scheduler/scheduler.go:195-197 | for job names without a colon a key names one stack and one job |
| `Scheduler.OtherStacksAreUnlisted` | internal/scheduler/scheduler.go:107-113 | no valid job of another stack is among the keys a sync keeps |
| `Scheduler.PlanRegistration` | internal/scheduler/scheduler.go:50-63 | a job is registrable iff it has a readable schedule with a next run; each refusal has its own cause |
| `Scheduler.ScheduledJob.StartIfDue` | internal/scheduler/scheduler.go:147-158 | starts the object exactly when active, due and not running |
| `Scheduler.ScheduledJob.EndRun` | internal/scheduler/scheduler.go:169-177 | the object moves to its finished state with a recomputed next run |
| `Scheduler.JobScheduler.Insert` | internal/scheduler/scheduler.go:67-77 | a registration stores a fresh object under its key and takes the registering step |
| `Scheduler.JobScheduler.Register` | internal/scheduler/scheduler.go:46-80 | an error changes nothing; success is one registering step with the parsed schedule |
| `Scheduler.JobScheduler.Unregister` | internal/scheduler/scheduler.go:82-89 | removes the key only; objects in flight are unaffected |
| `Scheduler.JobScheduler.RegisterAll` | internal/scheduler/scheduler.go:96-105 | succeeds iff every scheduled job is registrable; removes no key either way |
| `Scheduler.JobScheduler.PruneExcept` | internal/scheduler/scheduler.go:107-113 | keeps exactly the listed keys with their objects |
| `Scheduler.JobScheduler.Sync` | internal/scheduler/scheduler.go:91-116 | on success the table holds, under the key of each scheduled job, its last definition in the list with the given hash, and beside those only the old entries whose key the list still names; a failure removes no key; either way it is a sequence of steps |
| `Scheduler.LastIsDefinition` | internal/scheduler/scheduler.go:96-105 | the definition a sync ends with is that of the last scheduled job of the list with the key |
| `Scheduler.JobScheduler.DispatchDue` | internal/scheduler/scheduler.go:141-166 | hands over exactly the objects of the table that are active, idle and have their next run not after the reading, each once, marked running with one more firing at that slot; every other object is as it was, and nothing in the table is left due |
| `Scheduler.JobScheduler.FinishRun` | internal/scheduler/scheduler.go:168-177 | ends the run of an object even after the table dropped it |
| `Labels.NormalizeIsNormal` | internal/docker/labels.go:14-22 | a normalised name is non-empty, lower-case name characters only, no separator at either end |
| `Labels.NormalIsFixedPoint` | internal/docker/labels.go:14-22 | the names left unchanged are exactly those in that form |
| `Labels.NormalizeIsIdempotent` | internal/docker/labels.go:14-22 | normalising twice is normalising once |
| `Labels.NormalizeWords` | internal/docker/labels.go:14-22 | a normalised name is the words of the name in lower case with one hyphen for each gap of other characters, whatever surrounds the first and last letter or digit dropped |
| `Labels.NoNameLeft` | internal/docker/labels.go:14-22 | a text without letters or digits becomes the fallback name |
| `Labels.BuiltFromNormal` | internal/docker/labels.go:24-26 | a container is named after its stack, a hyphen and its workload |
| `Labels.BuiltNameIsNormal` | internal/docker/labels.go:24-26 | a container name starts and ends with a letter or digit |
| `Labels.MergeLabels` | internal/docker/labels.go:28-37 | all keys of both, base winning on the common ones |
| `Labels.WorkloadLabelsIdentify` | internal/docker/labels.go:39-70 | user labels never change the managed, stack, kind, workload or hash label |
| `Validation.ValidateServices` | internal/config/validate.go:54-70 | accepts iff every service and image checks out and names are distinct |
| `Validation.ValidateJobs` | internal/config/validate.go:72-93 | the same for jobs |
| `Validation.ValidateTriggers` | internal/config/validate.go:95-108 | accepts iff every trigger checks out and names are distinct |
| `Validation.AcceptedTrigger` | internal/models/trigger.go:88-168 | an accepted trigger has exactly one match rule, of its own type unless it is an event trigger, and a named target |
| `Validation.Validate` | internal/config/validate.go:18-52 | accepts iff the version is orbit.dev/v1alpha1, the kind Stack, the name not blank, and every service, job, trigger and image obeys the rules written out field by field, with distinct names among each sort |
| `Validation.AcceptedExactly` | internal/config/validate.go:18-52 | the checks together amount to those rules |
| `Validation.ServiceExactly` | internal/models/service.go:118-152 | a service passes iff its name fits the pattern, its image is not blank, its restart policy is one of four or empty, every port, volume and health check is allowed, and no dependency is blank |
| `Validation.JobExactly` | internal/models/job.go:45-74 | a job passes iff its name fits, its image is not blank, its schedule has 5 or 6 fields, its timeout is a duration, its retry count is not negative and its volumes are allowed |
| `Validation.TriggerExactly` | internal/models/trigger.go:88-168 | a trigger passes iff it has exactly one match rule, well formed and of its type unless it is an event trigger, and a named target of a known kind |
| `Validation.ImageExactly` | internal/config/validate.go:110-127 | an image passes iff, trimmed, it is not empty, holds no blank, no slash at an end and no two in a row, and matches the pattern |
| `Validation.HealthExactly` | internal/models/service.go:72-100 | a health check passes iff its kind is one of three, the path, port or command that kind needs is there, and no time is negative |
| `Validation.AcceptedService` | internal/models/service.go:118-152 | an accepted service has a non-blank image, a well-formed name and only valid ports, volumes and health check |
| `Validation.AcceptedJob` | internal/models/job.go:45-74 | an accepted job has a non-blank image, valid volumes and a name without a colon |
| `Spec.ReadPort` | internal/docker/spec.go:114-131 | a mapping is accepted iff its ports, address and protocol are, in any letter case, and empty means tcp |
| `Spec.BuildPortBindings` | internal/docker/spec.go:109-140 | succeeds iff every mapping is buildable; exposed ports are the binding keys, and each key binds the ordered subsequence of its mappings |
| `Spec.BoundExactly` | internal/docker/spec.go:131-136 | a key has bindings iff some mapping has that key |
| `Spec.BindingsAddUp` | internal/docker/spec.go:131-136 | the bindings over all keys number as many as the mappings |
| `Spec.KeysExactly` | internal/docker/spec.go:131-132 | a port is exposed iff some mapping has its number and protocol, in any letter case, empty meaning tcp |
| `Spec.BindingsInOrder` | internal/docker/spec.go:133-136 | under each key the bindings are the address and host port of all its mappings, in the order of the list |
| `Spec.BuildMounts` | internal/docker/spec.go:84-107 | succeeds iff every volume is valid, with one bind mount per volume in order |
| `Spec.BuildCreateConfig` | internal/docker/spec.go:17-76 | succeeds iff image, name, volumes, ports and health check are buildable; the request then has the specification's image, command, directory, environment, every mount in order, exactly its ports' keys with their bindings in order, its restart mode and probe, and its user labels under the reserved ones |
| `Spec.RestartTable` | internal/docker/spec.go:207-230 | the restart mode by policy, with a retry limit of 3 for on-failure alone |
| `Spec.HealthCheckTable` | internal/docker/spec.go:142-205 | the probe's shell command by kind, and its times in nanoseconds with the defaults of 30 and 5 seconds |
| `Spec.HealthCheckBuilds` | internal/docker/spec.go:142-198 | a probe can be built iff its kind is one of three and has the port, path or command it needs |
| `Spec.ValidPortBuilds` | internal/models/service.go:18-34 | whatever port mapping validation accepts can be built |
| `Spec.AcceptedServiceBuilds` | internal/config/validate.go:18-93 | every service of an accepted configuration gets a create request |
| `Spec.AcceptedJobBuilds` | internal/config/validate.go:72-93 | so does every execution of every job of it |
| `Spec.RequestAcceptedService` | internal/controller/reconciler.go:211-225 | every accepted service gets a request, and it holds the service's own image, command, directory, environment, user labels, ports, bindings, mounts, restart mode and probe |
| `Spec.RequestAcceptedJob` | internal/scheduler/runner.go:55-71 | so does every execution of an accepted job, with the job's fields, no ports, and the configuration hash stamped |
| `Spec.ServiceRequest` | internal/controller/reconciler.go:211-225 | whatever request carries the specification made for a service is that service's request, field by field |
| `Spec.JobRequest` | internal/scheduler/runner.go:55-71 | the same for the specification made for a job's execution |
| `Spec.StampedHash` | internal/docker/client.go:93 | a job container is stamped with the configuration hash, a service container with the user's own hash label or nothing |
| `Health.PoliciesAreOrdered` | internal/health/checks.go:56-86 | on-failure restarts imply unless-stopped ones, which imply always ones; a running container is restarted only when unhealthy |
| `Health.LifecycleTable` | internal/health/checks.go:16-54 | the lifecycle of a container by the engine's word for its state |
| `Health.HealthTable` | internal/health/checks.go:16-54 | its health by the engine's word for it |
| `Health.ShouldRestartExactly` | internal/health/checks.go:56-86 | when each policy calls for a restart, in the engine's own words and exit code |
| `Health.BackoffDelay` | internal/health/checks.go:88-113 | the loop computes the 64-bit doubling stopped at the maximum |
| `Health.BackoffIsCappedExactly` | internal/health/checks.go:88-113 | for any 64-bit limits, defaults included, the delay is min(max, base * 2^(k-1)) for every attempt iff base is at most max and the last doubling below the maximum does not overflow when doubled |
| `Health.LargeBaseWraps` | internal/health/checks.go:104-113 | a base of 2^62 with the default maximum gives a negative delay on the second attempt |
| `Health.BackoffIsMonotone` | internal/health/checks.go:88-113 | with room to double the maximum, delays stay in [base, max] and never shrink as attempts grow |
| `Health.MonitorDelay` | internal/health/monitor.go:142 | with the monitor's limits a wait is min(60s, 5s * 2^(k-1)), k at least 1 |
| `Health.SinceResetIsSuffix` | internal/health/monitor.go:135-170 | what counts is the longest suffix of outcomes without a reset |
| `Health.AttemptsStep` | internal/health/monitor.go:94-170 | failures since the last reset grow by failed inspections and failed restarts and clear on a reset |
| `Health.ActionsStep` | internal/health/monitor.go:142-151 | each wait is the backoff of the attempts before it, followed by a restart if the container was running and a start if not |
| `Health.MonitorRun.WaitAndRestart` | internal/health/monitor.go:142-196 | one wait, at most one command, the counter and the stored status by outcome |
| `Health.MonitorRun.Observe` | internal/health/monitor.go:94-196 | the counter equals failures since the last reset over the whole history; without an error the stored status is what the last inspection showed |
| `Health.MonitorRun.ObserveOnce` | internal/health/monitor.go:94-196 | one observation by what was answered: a failed inspection counts; a quiet one clears the counter iff the container is running and not unhealthy; otherwise one wait of the capped doubling, a restart or a start, and the counter and stored status by its outcome |
| `Health.MonitorRun.Run` | internal/health/monitor.go:53-84 | the same over any number of ticks |
| `BusModel.ReplayConserves` | internal/events/bus.go:156-165 | consumed followed by buffered is exactly the offers that met a free slot; the buffer never exceeds its capacity |
| `BusModel.NothingDroppedWhenKeptUp` | internal/events/bus.go:156-165 | a consumer never more than a buffer behind loses nothing |
| `BusModel.StepKeepsInv` | internal/events/bus.go:39-172 | every call keeps the tables disjoint and equal to the open channels, and every channel's history equal to what it was due |
| `BusModel.RunsAreSafe` | internal/events/bus.go:39-172 | so does every sequence of calls |
| `BusModel.Delivery` | internal/events/bus.go:134-168 | over runs without cancelled publishes, a subscriber gets the matching events published while subscribed, less exactly those that met a full buffer |
| `BusModel.SubscriptionTerms` | internal/events/bus.go:66-103 | over every run, the channel of a subscription has the buffer asked for, 32 when not positive, and is for exactly the events of the listed types, of all types when none is listed |
| `BusModel.DeliversWhatWasAsked` | internal/events/bus.go:66-168 | without cancelled publishes a channel is offered exactly the events of the listed types published while it was subscribed, in order, and what is consumed and buffered is those less the ones that met a full buffer of the size asked for |
| `BusModel.ClosedExactlyByACloser` | internal/events/bus.go:154-158 | with each publish one step, a channel addressed at one moment is closed later iff the bus or the subscription was closed in between |
| `BusRace.RacesAreSound` | internal/events/bus.go:39-172 | with picks and sends as steps of their own, every interleaving keeps tables and queues in order |
| `BusRace.RacingDelivery` | internal/events/bus.go:156-165 | in every interleaving a channel is offered each event exactly as often as publishers sent it there, and what is consumed and buffered are the offers that met a free slot |
| `BusRace.OffersInSendOrder` | internal/events/bus.go:156-165 | a channel's offers are the events of the sends to it, in the order of the sends |
| `BusRace.CompleteDelivery` | internal/events/bus.go:134-168 | once every publish is complete, those are, as a multiset, the matching events published while it was subscribed |
| `BusRace.RacingTerms` | internal/events/bus.go:66-103 | a subscription's channel is for exactly the events of the types asked for in every interleaving too |
| `BusRace.CompleteDeliversAsked` | internal/events/bus.go:66-168 | once every publish is complete it has been offered, as a multiset, the events of the types asked for published while it was subscribed |
| `BusRace.PanicsExactly` | internal/events/bus.go:154-159 | a send panics iff the bus or the subscription was closed since its publish picked the channel |
| `BusRace.RacePanics` | internal/events/bus.go:154-159 | a run of four steps that panics |
| `BusRace.UndisturbedPublish` | internal/events/bus.go:134-168 | a pick followed by its sends in any order, with nothing in between, is the single publishing step |
| `Bus.Channel.Send` | internal/events/bus.go:157-164 | a send needs an open channel, never blocks, and drops on a full buffer |
| `Bus.Channel.Close` | internal/events/bus.go:48-61 | a channel is closed only while open, so at most once |
| `Bus.EventBus.Subscribe` | internal/events/bus.go:66-103 | an open bus gives a fresh, larger id and an empty channel of the buffer asked for, 32 when not positive, among the wildcards iff no type is listed and for exactly the listed types otherwise; a closed one refuses |
| `Bus.EventBus.Unsubscribe` | internal/events/bus.go:105-132 | closes and drops the one subscription, or says why not |
| `Bus.EventBus.Close` | internal/events/bus.go:39-64 | closes every open channel once and empties both tables; a second close changes nothing |
| `Bus.EventBus.Snapshot` | internal/events/bus.go:145-153 | picks every wildcard and every matching subscriber, each once |
| `Bus.EventBus.SendAll` | internal/events/bus.go:156-165 | offers the event to a prefix of the picked channels, to all of them unless the context is cancelled before or between the sends |
| `Bus.EventBus.Publish` | internal/events/bus.go:134-168 | refuses invalid events and a closed bus without effect; otherwise, undisturbed, is one publishing step that reaches every target unless cancelled |
| `Engine.Runtime.CreateContainer` | internal/docker/client.go:88-104 | creation under a free name from the request built of the specification and its own hash label, which is recorded; a failure may leave the new container behind |
| `Engine.Runtime.ListContainers` | internal/docker/client.go:171-202 | exactly the containers labelled managed and with the stack's name, of any kind, each once, in any order |
| `ReconcilerModel.CollapseMember` | internal/controller/actual_state.go:31-37 | the loaded map has exactly the non-empty workload labels listed, each with a container carrying it |
| `ReconcilerModel.CollapseKeepsLast` | internal/controller/actual_state.go:31-37 | of containers sharing a label the last listed is kept |
| `ReconcilerModel.NothingShadowedExactly` | internal/controller/actual_state.go:31-37 | loading hides no managed container iff labels are present and distinct |
| `ReconcilerModel.RunningServes` | internal/controller/reconciler.go:211-233 | a created and started container serves its service under the built name |
| `ReconcilerModel.ServiceStepProgress` | internal/controller/reconciler.go:95-169 | every way a service step can succeed carries the pass on: one container per finished service, loaded ones of the rest untouched, nothing else but hidden or abandoned ones |
| `ReconcilerModel.PruneStep` | internal/controller/reconciler.go:172-186 | removing one unwanted workload keeps that picture |
| `ReconcilerModel.LoadedFate` | internal/controller/reconciler.go:95-186 | a loaded container, of whatever kind, stays iff a service of its label wants it as it is or its inspection failed, and then only its state may have changed |
| `ReconcilerModel.ServedExactly` | internal/controller/reconciler.go:95-186 | a finished pass leaves one running container per service and nothing else iff loading showed every managed container and none was left behind |
| `ReconcilerModel.RealizesExactly` | internal/controller/reconciler.go:95-186 | the names are as built too iff moreover the containers kept had them |
| `ReconcilerModel.NothingAbandoned` | internal/controller/reconciler.go:112-118 | when containers of desired workloads have their built names, a failed inspection never leaves an old one beside a new one |
| `ReconcilerModel.ConvergesExactly` | internal/controller/reconciler.go:95-186 | from such names a finished pass realises the stack iff loading showed every managed container |
| `ReconcilerModel.RealizedView` | internal/controller/reconciler.go:95-186 | a realised stack shows exactly the desired (workload, name, image, running) view |
| `ReconcilerModel.ServedIsUnique` | internal/controller/reconciler.go:95-186 | a served stack has present and distinct labels, so a further pass hides nothing |
| `ReconcilerModel.UnchangedExactly` | internal/controller/reconciler.go:95-186 | any pass leaves the view unchanged iff it loaded a settled container for each service and no other workload, and left nothing behind |
| `ReconcilerModel.UnmovedIsServed` | internal/controller/reconciler.go:95-186 | from distinct labels and built names that is iff the stack was realised |
| `ReconcilerModel.SecondPassKeeps` | internal/controller/reconciler.go:120-147 | of the containers the first pass gave its services, a second pass that loads them keeps one iff it carries the configuration hash, iff the first kept it or the user's labels hold the hash; either way it looks the same |
| `ReconcilerModel.FixedPointExactly` | internal/controller/reconciler.go:95-186 | after any first pass, a second leaves the view unchanged iff it leaves nothing behind, finds no workload but the services, and meets each in its own container or another settled one |
| `ReconcilerModel.LoadsTheOwners` | internal/controller/reconciler.go:95-186 | when neither load hid anything and the first pass left nothing behind, the second meets each service in its own container |
| `ReconcilerModel.CreationKeepsSane` | internal/controller/reconciler.go:211-230 | a container created under its free built name keeps labels distinct and names as built |
| `Reconciler.LoadActualState` | internal/controller/actual_state.go:14-40 | the loop computes the collapse of the listing |
| `Reconciler.Reconciler.CreateAndStartService` | internal/controller/reconciler.go:203-250 | success adds one running container under a free name, made from the service's own request, a record and a report entry; a failure touches no existing container |
| `Reconciler.Reconciler.StopAndRemove` | internal/controller/reconciler.go:127-132 | only the one container is affected, and success means it is gone |
| `Reconciler.Reconciler.ReplaceService` | internal/controller/reconciler.go:126-138 | success removes the old container, adds the new one and reports both creation and replacement |
| `Reconciler.Reconciler.KeepService` | internal/controller/reconciler.go:140-168 | success leaves the same container running and reports it as skipped or updated by its former state |
| `Reconciler.Reconciler.ReconcileService` | internal/controller/reconciler.go:95-169 | a kept container had the desired hash and image, a replaced one did not; success or failure, only this workload's container and new ones change |
| `Reconciler.Reconciler.Prune` | internal/controller/reconciler.go:172-186 | removes exactly the loaded workloads that are not desired and reports them |
| `Reconciler.Reconciler.Reconcile` | internal/controller/reconciler.go:34-201 | a stack that breaks a rule is refused without effect; on every run, failed ones included, containers not labelled managed for this stack stay as they are, and distinct labels and built names stay so; on success each service has its container, kept iff the loaded one could be inspected and has its image and hash, or else made from the service's own request; the report says of each service which of these happened, and the records are complete |
| `Reconciler.StackExactly` | internal/models/workload.go:19-39 | which stacks the first check lets through, rule by rule |
| `Reconciler.ServicesKept` | internal/controller/reconciler.go:112-147 | a service keeps the container it was loaded with iff that one could be inspected, had the service's image and carried the configuration hash |
| `Reconciler.NewlyTold` | internal/controller/reconciler.go:95-169 | a service is reported as skipped, updated, created or recreated by whether its container was loaded, was running, or had to be made in place of an inspected one |
| `Reconciler.ForeignStays` | internal/controller/reconciler.go:34-201 | what only concerns the stack's managed containers leaves those of other labels untouched |
| `Reconciler.HealthNames` | internal/controller/reconciler.go:149-156 | the health a kept service is recorded with |
| `Reconciler.ReportedExactlyOnce` | internal/controller/reconciler.go:95-186 | with distinct names each service is reported exactly once across created, updated and skipped |
| `Reconciler.ReconcileServes` | internal/controller/reconciler.go:95-186 | success leaves exactly one running desired container per service and no other, iff the workload labels found were present and distinct and no inspection failure left a container behind |
| `Reconciler.ReconcileConverges` | internal/controller/reconciler.go:95-186 | when containers of desired workloads have their built names, none is left behind, and the stack is realised, names included, iff the labels found were present and distinct |
| `Reconciler.JobContainerFate` | internal/controller/actual_state.go:19-37 | a job run in flight survives iff it is taken for a service of its name, image and hash or its inspection failed; a job whose name no service has is removed and among the reported |
| `Reconciler.JobIsAdopted` | internal/controller/reconciler.go:112-147 | from a single running job container a reconcile ends with the job in the service's place, under a name not built for it |
| `Reconciler.MisnamedIsDoubled` | internal/controller/reconciler.go:112-118 | from a single misnamed container a failed inspection ends with two containers of the service |
| `Reconciler.ReconcileShowsNothing` | internal/controller/reconciler.go:95-186 | any successful reconcile leaves the view unchanged iff it loaded a settled container for each service and no other workload, and left nothing behind |
| `Reconciler.RealizedStays` | internal/controller/reconciler.go:95-186 | from distinct labels and built names it does iff the stack was realised, whatever the listing order and the inspections |
| `Reconciler.SecondReconcile` | internal/controller/reconciler.go:95-186 | after any first reconcile, a second leaves the view unchanged iff it leaves nothing behind, finds no workload but the services, and meets each in its own container or another settled one; of those it meets again it keeps exactly those stamped with the configuration hash |
| `Reconciler.ServedIsMetAgain` | internal/controller/reconciler.go:95-186 | after a first reconcile that found distinct labels and left nothing behind, it meets each in its own container, so the view stays iff nothing is left behind |
| `Reconciler.TwinsMove` | internal/controller/actual_state.go:31-37 | from two containers sharing a label, two reconciles that leave nothing behind after which the second has changed the view |
| `Reconciler.Reconciler.ReconcileTwice` | internal/controller/reconciler.go:34-201 | all of that of the method, with the state in between; from distinct labels and built names the view is the desired one after both |
| `Reconciler.Reconciler.ReconcileUntilSuccess` | internal/controller/reconciler.go:34-201 | from distinct labels and built names, any number of failed reconciles and then a successful one realise the stack |
| `Pipeline.AcceptedStack` | internal/daemon/bootstrap.go:110-124 | the stack built from an accepted configuration passes the reconciler's check and has named services with distinct names |
| `Pipeline.RefusedExactly` | internal/scheduler/scheduler.go:46-63 | a validated job is refused iff its zone is unknown, a field does not parse, or no run lies within the horizon |
| `Pipeline.NoRunExactly` | internal/scheduler/scheduler.go:60-63 | in UTC the last is iff only dates are selected and none exists in the coming year |
| `Pipeline.BadMinutePasses` | internal/models/job.go:16-28 | minute 61 passes validation and never registers |
| `Pipeline.NoSuchDatePasses` | internal/models/job.go:16-28 | 30 February passes validation, parses, and never registers |

## Left out

- Fractions of a second: clock readings are whole seconds, which the search truncates to anyway.
- Cron.Next: absence is a value of its own, where the program returns the zero time; an instant that is the zero time itself is not confused with it.
- Daylight saving and other zone rules: a zone is any offset function with any rule for one year later; the horizon results are for UTC only.
- Time-zone loading, duration parsing, IP parsing and the image-name pattern are parameters.
- Unicode case folding: names are lower-cased in ASCII only.
- Error texts: errors are constructors or short tags, and the monitor's stored message omits the exit code.
- Nil receivers and nil collaborators.
- Firing of triggers.
- The order of environment entries, the container's user and network mode, and the job's arguments, which the create request does not use.
- The scheduler's ticker, its interval and its listing.
- One execution of a job: a run is an opaque step that eventually ends.
- Scheduler.JobScheduler.Sync: stated for a sync no other call interrupts; what interrupted ones end with is `SchedulerModel.SyncEndsWithListed`.
- Scheduler.JobScheduler.RegisterAll: the same.
- Bus.EventBus.Publish: stated for a publish no other call interrupts; interrupted ones are the runs of `BusRace`.
- The attempts counter and subscription ids are unbounded integers.
- Handlers, routing of events to triggers, and event construction.
- The engine itself: it keeps the request each container was made from and shows name, image, state and labels; calls may fail at will, a failed call may still affect the container it names, but nothing else changes containers during a reconcile.
- Stack, job and trigger rows of the state store: their writes may fail and are otherwise not observed.
- The memory model below the mutexes: each locked region is one step.
