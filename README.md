# Cauldron for Sponge: task registry and log routing

This project models the core of `Cauldron`, the Sponge plugin object that lets
embedded JavaScript schedule callbacks on the server's executor. It covers:

- the task map `scheduledTasks`, an id → future map, and the three operations
  that use it: `scheduleTask`, `scheduleRepeatingTask` and `cancelTask`;
- the fixed decision table of `log(level, msg)`;
- the two accessors `getTarget` and `isDebugging`.

Modules:

- `TaskRegistry` (`task_registry.dfy`) describes the registry on values. A
  future appears there only as the request it was created for and its
  abstract state: `Pending` (waiting or running), `Done` or `Cancelled`. The
  module has the specification functions `Put`, `Cancel` and `Complete`. It
  also has a trace semantics `Run` over a sequence of calls, and lemmas about
  what holds across many calls: entries are never removed, a settled future
  stays settled, and `cancel(true)` fires at most once per future.
- `Logging` (`logging.dfy`) gives the routing of `log` as the total function
  `Route`. It returns the logger method that is called and the string passed
  to it.
- `CauldronPlugin` (`cauldron.dfy`) is the imperative part.
  - `Future` is a class with mutable state. It stands for `SpongeFuture`.
  - `Schedule` and `ScheduleAtFixedRate` stand for the executor. Each returns
    a fresh pending future.
  - `Cauldron` is a class whose field `scheduledTasks: map<Int32, Future>`
    its methods update in place.
  - `Cauldron.Valid()` says that every future is stored under its own hash
    code. That is what keeps two ids from sharing a handle.
  - `Cauldron.Entries()` maps the heap state to a `TaskRegistry.Registry`.
    The method contracts tie each method to the matching specification
    function.

Behaviour of the code that the model keeps:

- `cancelTask` never removes an entry, so cancelling a present id twice
  returns `true` both times.
- Ids are the futures' `hashCode()` values, not a counter. Two futures with
  the same hash code overwrite each other.
- Neither a negative delay nor a negative interval is rejected by the plugin.
  Both are passed to the executor unchanged.

Environment and executor:

- The future's hash code comes from outside the model. It is an extra
  `identity` argument of `ScheduleTask`, `ScheduleRepeatingTask` and the
  executor stand-ins.
- A future completing without being cancelled is `Future.Finish`: the run
  of a one-shot task ends, or a run of a fixed-rate task throws. A fixed-rate
  run that returns normally leaves its future pending. `Cauldron.CompleteTask`
  finishes the future under an id and is proved to change the registry as
  `TaskRegistry.Complete` says; in a trace this is the step `CompletionStep`.
  This is how the state outside the plugin can advance.
- Java's `Future.isDone()` is true for a cancelled future as well. So the
  source's test `!isDone() && !isCancelled()` holds exactly for `Pending`.

## Model

| member | source | states |
|---|---|---|
| `TaskRegistry.AfterCancel` | src/main/java/com/cauldronjs/Cauldron.java:76-78 | a pending handle becomes cancelled; a done or cancelled one keeps its state |
| `TaskRegistry.Put` | src/main/java/com/cauldronjs/Cauldron.java:138-140 | after storing under `id`, the id maps to the new pending entry; every other key keeps its entry; the key set grows by exactly `id` |
| `TaskRegistry.Cancel` | src/main/java/com/cauldronjs/Cauldron.java:72-80 | result is `true` iff the id is present, whatever its state; cancellation is requested iff the entry is pending; no key is removed or added; other entries are unchanged; a pending entry ends cancelled, a settled one is unchanged; an unknown id changes nothing |
| `TaskRegistry.RepeatingRequest` | src/main/java/com/cauldronjs/Cauldron.java:130-131 | the repeating task asks the executor for a fixed rate with initial delay 0 and period `interval` |
| `TaskRegistry.Run` | src/main/java/com/cauldronjs/Cauldron.java:72-141 | over any sequence of schedules, cancels and completions, the set of registered ids only grows |
| `TaskRegistry.CancelTwice` | src/main/java/com/cauldronjs/Cauldron.java:72-80 | a second cancel of the same id returns the same result as the first, requests no further cancellation and changes nothing |
| `TaskRegistry.CollisionOverwrites` | src/main/java/com/cauldronjs/Cauldron.java:138-140 | storing two futures under one id leaves only the later one |
| `TaskRegistry.TimeoutIgnored` | src/main/java/com/cauldronjs/Cauldron.java:130-134 | two repeating schedules that differ only in `timeout` give the same registry |
| `TaskRegistry.SettledIsStable` | src/main/java/com/cauldronjs/Cauldron.java:76-78 | a done or cancelled entry keeps its request and state through any calls that do not store a new future under its id |
| `TaskRegistry.QuietOnceSettled` | src/main/java/com/cauldronjs/Cauldron.java:73-78 | once an id is absent or its future is settled, no later cancel of it calls `cancel(true)` until a new future is stored under it |
| `TaskRegistry.CancelFiresAtMostOnce` | src/main/java/com/cauldronjs/Cauldron.java:72-80 | however many times an id is cancelled, `cancel(true)` is called on its future at most once while no new future replaces it |
| `Logging.Route` | src/main/java/com/cauldronjs/Cauldron.java:115-127 | only SEVERE goes to the error output; the text is the bare message iff INFO or SEVERE, `"[WARN] "`+msg iff WARNING, `"[DEBUG] "`+msg iff FINE while debugging, `"[UNCATEGORIZED] "`+msg in every other case |
| `CauldronPlugin.Future.IsDone` | src/main/java/com/cauldronjs/Cauldron.java:76 | true iff the future has completed or been cancelled |
| `CauldronPlugin.Future.IsCancelled` | src/main/java/com/cauldronjs/Cauldron.java:76 | true iff the future has been cancelled |
| `CauldronPlugin.Future.Cancel` | src/main/java/com/cauldronjs/Cauldron.java:77 | succeeds iff the future was pending; it is then cancelled, and otherwise unchanged |
| `CauldronPlugin.Schedule` | src/main/java/com/cauldronjs/Cauldron.java:138 | a fresh pending future for a one-shot request with the given delay |
| `CauldronPlugin.ScheduleAtFixedRate` | src/main/java/com/cauldronjs/Cauldron.java:131 | a fresh pending future for a fixed-rate request with the given initial delay and period |
| `CauldronPlugin.Cauldron.constructor` | src/main/java/com/cauldronjs/Cauldron.java:53-56 | the plugin starts with an empty task map |
| `CauldronPlugin.Cauldron.DistinctFutures` | src/main/java/com/cauldronjs/Cauldron.java:132-133 | two different ids never share a future |
| `CauldronPlugin.Cauldron.GetTarget` | src/main/java/com/cauldronjs/Cauldron.java:104-107 | always the descriptor with platform `"sponge"` and no version |
| `CauldronPlugin.Cauldron.IsDebugging` | src/main/java/com/cauldronjs/Cauldron.java:109-112 | always `true` |
| `CauldronPlugin.Cauldron.Log` | src/main/java/com/cauldronjs/Cauldron.java:114-127 | writes the line `Route` gives for the plugin's flag; FINE always comes out as `"[DEBUG] "`+msg on the info output |
| `CauldronPlugin.Cauldron.ScheduleTask` | src/main/java/com/cauldronjs/Cauldron.java:136-141 | returns the future's hash code; that id now maps to the fresh one-shot future; any older entry under it is replaced; every other entry stays; the registry is `Put` of the old one |
| `CauldronPlugin.Cauldron.ScheduleRepeatingTask` | src/main/java/com/cauldronjs/Cauldron.java:129-134 | as `ScheduleTask`, for a fresh fixed-rate future with initial delay 0 and period `interval`; `timeout` does not occur in the result |
| `CauldronPlugin.Cauldron.CompleteTask` | src/main/java/com/cauldronjs/Cauldron.java:76 | an environment step, not code of the plugin: the executor completing the future under the id, whose state line 76 reads; the map is unchanged; only the future under the id, if any, may change; the registry afterwards is `Complete` of the old one, so a pending future becomes done and a settled one stays as it was |
| `CauldronPlugin.Cauldron.CancelTask` | src/main/java/com/cauldronjs/Cauldron.java:71-80 | the map is unchanged; modifies only the future under the id, if any; returns `true` iff the id is present; calls `cancel(true)` iff that future is pending; the registry afterwards is the one `Cancel` gives |

## Left out

- `onServerStart`: creating the executor, setting up the working directory and creating and entering the `Isolate` are host plumbing and foreign calls. The model assumes the executor exists; calling a scheduling method before startup would throw a `NullPointerException` in the source.
- `getResource`: asset I/O through `PluginContainer`.
- `cwd`: it only returns a fixed filesystem path.
- `getMainIsolate`: it returns the `Isolate` created at startup, which is not part of this model.
- The static `instance` singleton and the Guice injection of `logger`, `configDirectory`, `pluginContainer` and `sponge`: framework binding.
- Timing and execution of callbacks: the executor is reduced to "returns a new pending future". A future completing without being cancelled (a one-shot run ending, or a fixed-rate run throwing) is the environment step `Future.Finish`. Repeated firing at a fixed rate is not modelled.
- Exceptions the executor may throw, such as an `IllegalArgumentException` for a non-positive period or a rejected execution: the executor stand-ins always return a future.
- Concurrency: the `HashMap` is used from several threads without synchronisation. The model is sequential.
- The environment may complete any pending future at any time, with `Future.Finish` or `CompletionStep`. That is more than the executor allows: a fixed-rate future completes only when a run throws, never after a run that returns normally. The lemmas hold for this larger set of behaviours.
- Java `hashCode` semantics: the id is an opaque 32-bit value supplied with each new future.
- `null` arguments to `log`: strings are never null in the model, and `Level` has no null. A null level fails every comparison at lines 116-122 of the source, so it writes `"[UNCATEGORIZED] "` + msg to the info output, the same as any `Custom` level.
- CauldronPlugin.Future.Cancel: the `mayInterruptIfRunning` flag has no effect on the model. Interrupting a callback that is already running is not modelled; only the state change to cancelled is.
