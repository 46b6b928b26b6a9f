/** The task registry of the Cauldron plugin, on values.

    `Cauldron.scheduledTasks` maps a task id (the future's `hashCode()`) to the
    future the executor returned.  Here a future is seen through what the
    registry can observe of it: the request it was created for and its state.
    The functions below are the specification of the imperative methods in
    module CauldronPlugin; the lemmas at the end are about sequences of calls.
 */
module TaskRegistry {

  /** Java's 32-bit `int`, used for ids, delays and periods. */
  newtype Int32 = x: int | -0x8000_0000 <= x < 0x8000_0000

  /** A script callback, known to the registry only by identity. */
  datatype Runnable = Runnable(token: nat)

  /** What the executor was asked for (all times in milliseconds). */
  datatype Request =
    | OneShot(task: Runnable, delay: Int32)
    | FixedRate(task: Runnable, initialDelay: Int32, period: Int32)

  /** Abstract state of a `SpongeFuture`: not yet completed (waiting,
      running, or a fixed-rate task between runs), completed without being
      cancelled, or cancelled. */
  datatype HandleState = Pending | Done | Cancelled

  /** `Future.isDone()`: true once the future completed in any way,
      cancellation included. */
  predicate IsDone(s: HandleState) { s != Pending }

  /** `Future.isCancelled()`. */
  predicate IsCancelled(s: HandleState) { s == Cancelled }

  /** Effect of `future.cancel(true)` on the handle: only a future that has
      not completed can become cancelled. */
  function AfterCancel(s: HandleState): (r: HandleState)
    ensures s == Pending ==> r == Cancelled
    ensures s != Pending ==> r == s
  {
    if IsDone(s) then s else Cancelled
  }

  /** Effect of the future completing without being cancelled: the run of a
      one-shot task ends, or a run of a fixed-rate task throws.  A fixed-rate
      run that returns normally leaves the future pending. */
  function AfterCompletion(s: HandleState): (r: HandleState)
    ensures s == Pending ==> r == Done
    ensures s != Pending ==> r == s
  {
    if IsDone(s) then s else Done
  }

  datatype Entry = Entry(request: Request, state: HandleState)

  type Registry = map<Int32, Entry>

  /** `scheduledTasks.put(id, future)` for a future just created for `req`. */
  function Put(reg: Registry, id: Int32, req: Request): (r: Registry)
    ensures r.Keys == reg.Keys + {id}
    ensures r[id] == Entry(req, Pending)
    ensures forall k :: k in reg && k != id ==> r[k] == reg[k]
  {
    reg[id := Entry(req, Pending)]
  }

  /** Outcome of `cancelTask(id)`: the value returned, whether
      `future.cancel(true)` was invoked, and the registry afterwards. */
  datatype CancelOutcome = CancelOutcome(found: bool, requested: bool, after: Registry)

  /** `cancelTask(id)`: a missing id gives `false` and changes nothing; a
      present id gives `true`, whatever the state of its future, and the
      future is asked to cancel only if it is neither done nor cancelled.
      The entry is never removed. */
  function Cancel(reg: Registry, id: Int32): (o: CancelOutcome)
    ensures o.found <==> id in reg
    ensures o.requested <==> id in reg && reg[id].state == Pending
    ensures o.after.Keys == reg.Keys
    ensures forall k :: k in reg && k != id ==> o.after[k] == reg[k]
    ensures id in reg ==> o.after[id].request == reg[id].request
    ensures id in reg && reg[id].state == Pending ==> o.after[id].state == Cancelled
    ensures id in reg && reg[id].state != Pending ==> o.after[id] == reg[id]
    ensures id !in reg ==> o.after == reg
  {
    if id !in reg then
      CancelOutcome(false, false, reg)
    else
      var e := reg[id];
      if !IsDone(e.state) && !IsCancelled(e.state) then
        CancelOutcome(true, true, reg[id := e.(state := AfterCancel(e.state))])
      else
        CancelOutcome(true, false, reg)
  }

  /** The future registered under `id` completing (see `AfterCompletion`);
      a step of the executor, outside the plugin. */
  function Complete(reg: Registry, id: Int32): (r: Registry)
    ensures r.Keys == reg.Keys
    ensures forall k :: k in reg && k != id ==> r[k] == reg[k]
    ensures id in reg ==> r[id] == reg[id].(state := AfterCompletion(reg[id].state))
  {
    if id in reg then reg[id := reg[id].(state := AfterCompletion(reg[id].state))] else reg
  }

  /** Calls on the plugin, and steps of the environment, in the order they happen. */
  datatype Call =
    | ScheduleCall(id: Int32, task: Runnable, delay: Int32)
    | RepeatingCall(id: Int32, task: Runnable, interval: Int32, timeout: Int32)
    | CancelCall(id: Int32)
    | CompletionStep(id: Int32)

  /** `scheduleRepeatingTask(task, interval, timeout)` asks for a fixed rate
      with initial delay 0 and period `interval`; `timeout` is not used. */
  function RepeatingRequest(task: Runnable, interval: Int32, timeout: Int32): (req: Request)
    ensures req.FixedRate? && req.task == task && req.initialDelay == 0 && req.period == interval
  {
    FixedRate(task, 0, interval)
  }

  function Step(reg: Registry, c: Call): Registry
  {
    match c
    case ScheduleCall(id, task, delay) => Put(reg, id, OneShot(task, delay))
    case RepeatingCall(id, task, interval, timeout) => Put(reg, id, RepeatingRequest(task, interval, timeout))
    case CancelCall(id) => Cancel(reg, id).after
    case CompletionStep(id) => Complete(reg, id)
  }

  /** The registry after a sequence of calls.  No call removes an entry. */
  function Run(reg: Registry, calls: seq<Call>): (r: Registry)
    ensures reg.Keys <= r.Keys
    decreases |calls|
  {
    if calls == [] then reg else Run(Step(reg, calls[0]), calls[1..])
  }

  /** True when `c` stores a new future under `id`. */
  predicate Reschedules(c: Call, id: Int32)
  {
    (c.ScheduleCall? || c.RepeatingCall?) && c.id == id
  }

  predicate NoReschedule(calls: seq<Call>, id: Int32)
  {
    forall i :: 0 <= i < |calls| ==> !Reschedules(calls[i], id)
  }

  /** How many of `calls` make `cancelTask(id)` invoke `future.cancel(true)`. */
  function CancelRequests(reg: Registry, calls: seq<Call>, id: Int32): nat
    decreases |calls|
  {
    if calls == [] then 0
    else
      var fired := calls[0] == CancelCall(id) && Cancel(reg, id).requested;
      (if fired then 1 else 0) + CancelRequests(Step(reg, calls[0]), calls[1..], id)
  }

  /** Cancelling twice: both calls report the same, the second requests no
      further cancellation and changes nothing. */
  lemma CancelTwice(reg: Registry, id: Int32)
    ensures var first := Cancel(reg, id);
            var second := Cancel(first.after, id);
            second.found == first.found && !second.requested && second.after == first.after
  {
  }

  /** Two schedules that collide on one id leave only the later future. */
  lemma CollisionOverwrites(reg: Registry, id: Int32, first: Request, second: Request)
    ensures Put(Put(reg, id, first), id, second) == Put(reg, id, second)
  {
  }

  /** The `timeout` argument of `scheduleRepeatingTask` has no effect. */
  lemma TimeoutIgnored(reg: Registry, id: Int32, task: Runnable, interval: Int32, t1: Int32, t2: Int32)
    ensures Step(reg, RepeatingCall(id, task, interval, t1)) == Step(reg, RepeatingCall(id, task, interval, t2))
  {
  }

  lemma NoRescheduleTail(calls: seq<Call>, id: Int32)
    requires calls != [] && NoReschedule(calls, id)
    ensures !Reschedules(calls[0], id) && NoReschedule(calls[1..], id)
  {
  }

  /** A future that is done or cancelled keeps its entry, request and state
      for as long as no new future is stored under its id. */
  lemma {:induction false} SettledIsStable(reg: Registry, calls: seq<Call>, id: Int32)
    requires id in reg && reg[id].state != Pending
    requires NoReschedule(calls, id)
    ensures id in Run(reg, calls) && Run(reg, calls)[id] == reg[id]
    decreases |calls|
  {
    if calls != [] {
      var next := Step(reg, calls[0]);
      assert next[id] == reg[id];
      NoRescheduleTail(calls, id);
      SettledIsStable(next, calls[1..], id);
    }
  }

  /** Once the id is absent, or its future is done or cancelled, no later
      `cancelTask(id)` invokes `cancel(true)` until a new future is stored
      under the id. */
  lemma {:induction false} QuietOnceSettled(reg: Registry, calls: seq<Call>, id: Int32)
    requires id !in reg || reg[id].state != Pending
    requires NoReschedule(calls, id)
    ensures CancelRequests(reg, calls, id) == 0
    decreases |calls|
  {
    if calls != [] {
      var next := Step(reg, calls[0]);
      assert id !in next || next[id].state != Pending;
      NoRescheduleTail(calls, id);
      QuietOnceSettled(next, calls[1..], id);
    }
  }

  /** However often `cancelTask(id)` is called, `cancel(true)` is invoked on
      the future under `id` at most once while that future stays registered. */
  lemma {:induction false} CancelFiresAtMostOnce(reg: Registry, calls: seq<Call>, id: Int32)
    requires NoReschedule(calls, id)
    ensures CancelRequests(reg, calls, id) <= 1
    decreases |calls|
  {
    if calls != [] {
      var next := Step(reg, calls[0]);
      NoRescheduleTail(calls, id);
      if calls[0] == CancelCall(id) && Cancel(reg, id).requested {
        assert next[id].state == Cancelled;
        QuietOnceSettled(next, calls[1..], id);
      } else {
        CancelFiresAtMostOnce(next, calls[1..], id);
      }
    }
  }
}
