/** The Cauldron plugin object: its task map, the scheduling and cancelling
    methods that update it in place, log routing and the two accessors. */
module CauldronPlugin {
  import opened TaskRegistry
  import opened Logging

  datatype Option<T> = None | Some(value: T)

  /** The platform descriptor handed to scripts (`TargetDescriptor`). */
  datatype TargetDescriptor = TargetDescriptor(platform: string, version: Option<string>)

  /** A `SpongeFuture` returned by the executor.  Its `hashCode()` is fixed
      when it is created; its state is advanced by `Cancel` and, from
      outside the plugin, by the future completing (`Finish`). */
  class Future {
    const request: Request
    const hashCode: Int32
    var state: HandleState

    constructor (request: Request, hashCode: Int32)
      ensures this.request == request && this.hashCode == hashCode && state == Pending
    {
      this.request := request;
      this.hashCode := hashCode;
      state := Pending;
    }

    /** `isDone()`: completed normally, exceptionally or by cancellation. */
    method IsDone() returns (done: bool)
      ensures done <==> state == Done || state == Cancelled
    {
      done := TaskRegistry.IsDone(state);
    }

    /** `isCancelled()`. */
    method IsCancelled() returns (cancelled: bool)
      ensures cancelled <==> state == Cancelled
    {
      cancelled := TaskRegistry.IsCancelled(state);
    }

    /** `cancel(mayInterruptIfRunning)`: succeeds, and leaves the future
      cancelled, exactly when it had not completed yet. */
    method Cancel(mayInterruptIfRunning: bool) returns (success: bool)
      modifies this
      ensures success <==> old(state) == Pending
      ensures state == AfterCancel(old(state))
    {
      success := state == Pending;
      state := AfterCancel(state);
    }

    /** The future completing without being cancelled: a one-shot task's run
      ends, or a fixed-rate task's run throws.  A step of the executor, not a
      call the plugin makes. */
    method Finish()
      modifies this
      ensures state == AfterCompletion(old(state))
    {
      state := AfterCompletion(state);
    }
  }

  /** `executorService.schedule(task, delay, MILLISECONDS)`: a new pending
      future.  Its hash code is chosen outside the model and given here. */
  method Schedule(task: Runnable, delay: Int32, identity: Int32) returns (f: Future)
    ensures fresh(f) && f.state == Pending
    ensures f.request == OneShot(task, delay) && f.hashCode == identity
  {
    f := new Future(OneShot(task, delay), identity);
  }

  /** `executorService.scheduleAtFixedRate(task, initialDelay, period, MILLISECONDS)`. */
  method ScheduleAtFixedRate(task: Runnable, initialDelay: Int32, period: Int32, identity: Int32)
    returns (f: Future)
    ensures fresh(f) && f.state == Pending
    ensures f.request == FixedRate(task, initialDelay, period) && f.hashCode == identity
  {
    f := new Future(FixedRate(task, initialDelay, period), identity);
  }

  class Cauldron {
    /** Set once in the constructor and never reassigned. */
    const targetDescriptor: TargetDescriptor := TargetDescriptor("sponge", None)
    /** Initialised to `true` and never reassigned. */
    const debugging: bool := true
    var scheduledTasks: map<Int32, Future>

    /** Every future is stored under its own hash code. */
    ghost predicate Valid()
      reads this, scheduledTasks.Values
    {
      forall k :: k in scheduledTasks ==> scheduledTasks[k].hashCode == k
    }

    /** What the registry holds, seen through each future's request and state. */
    ghost function Entries(): (reg: Registry)
      reads this, scheduledTasks.Values
      ensures reg.Keys == scheduledTasks.Keys
    {
      map k | k in scheduledTasks :: Entry(scheduledTasks[k].request, scheduledTasks[k].state)
    }

    constructor ()
      ensures Valid() && scheduledTasks == map[] && Entries() == map[]
    {
      scheduledTasks := map[];
    }

    /** Two ids never share a future. */
    lemma DistinctFutures(j: Int32, k: Int32)
      requires Valid() && j in scheduledTasks && k in scheduledTasks && j != k
      ensures scheduledTasks[j] != scheduledTasks[k]
    {
    }

    /** `getTarget()`. */
    method GetTarget() returns (target: TargetDescriptor)
      ensures target == TargetDescriptor("sponge", None)
    {
      target := targetDescriptor;
    }

    /** `isDebugging()`. */
    method IsDebugging() returns (on: bool)
      ensures on
    {
      on := debugging;
    }

    /** `log(level, msg)`: the one line written.  As debugging is always on,
      FINE messages always come out tagged as debug output. */
    method Log(level: Level, msg: string) returns (line: LogLine)
      ensures line == Route(level, debugging, msg)
      ensures level == Fine ==> line == LogLine(InfoSink, DebugPrefix + msg)
    {
      line := Route(level, debugging, msg);
    }

    /** `scheduleTask(task, delay)`: the new future is stored under its hash
      code, which is returned; an older entry under that id is replaced and
      every other entry is left as it was. */
    method ScheduleTask(task: Runnable, delay: Int32, identity: Int32) returns (id: Int32)
      requires Valid()
      modifies this
      ensures Valid()
      ensures id == identity && id in scheduledTasks && fresh(scheduledTasks[id])
      ensures scheduledTasks[id].request == OneShot(task, delay) && scheduledTasks[id].state == Pending
      ensures scheduledTasks.Keys == old(scheduledTasks.Keys) + {id}
      ensures forall k :: k in old(scheduledTasks) && k != id ==> scheduledTasks[k] == old(scheduledTasks[k])
      ensures Entries() == Put(old(Entries()), id, OneShot(task, delay))
    {
      var future := Schedule(task, delay, identity);
      scheduledTasks := scheduledTasks[future.hashCode := future];
      id := future.hashCode;
    }

    /** `scheduleRepeatingTask(task, interval, timeout)`: as `ScheduleTask`,
      for a fixed-rate future with initial delay 0 and period `interval`;
      `timeout` plays no part. */
    method ScheduleRepeatingTask(task: Runnable, interval: Int32, timeout: Int32, identity: Int32)
      returns (id: Int32)
      requires Valid()
      modifies this
      ensures Valid()
      ensures id == identity && id in scheduledTasks && fresh(scheduledTasks[id])
      ensures scheduledTasks[id].request == FixedRate(task, 0, interval) && scheduledTasks[id].state == Pending
      ensures scheduledTasks.Keys == old(scheduledTasks.Keys) + {id}
      ensures forall k :: k in old(scheduledTasks) && k != id ==> scheduledTasks[k] == old(scheduledTasks[k])
      ensures Entries() == Put(old(Entries()), id, RepeatingRequest(task, interval, timeout))
    {
      var future := ScheduleAtFixedRate(task, 0, interval, identity);
      scheduledTasks := scheduledTasks[future.hashCode := future];
      id := future.hashCode;
    }

    /** The future registered under `taskId`, if any, completing (a step of
      the executor): the registry changes as `Complete` says. */
    method CompleteTask(taskId: Int32)
      requires Valid()
      modifies if taskId in scheduledTasks then {scheduledTasks[taskId]} else {}
      ensures Valid() && scheduledTasks == old(scheduledTasks)
      ensures Entries() == Complete(old(Entries()), taskId)
    {
      if taskId in scheduledTasks {
        scheduledTasks[taskId].Finish();
      }
    }

    /** `cancelTask(taskId)`: `false` for an unknown id, with nothing
      changed; `true` for a known one, whose future is asked to cancel only
      if it is neither done nor cancelled.  No entry is removed and no other
      future is touched.  `requested` tells whether `cancel(true)` was called. */
    method CancelTask(taskId: Int32) returns (found: bool, ghost requested: bool)
      requires Valid()
      modifies if taskId in scheduledTasks then {scheduledTasks[taskId]} else {}
      ensures Valid() && scheduledTasks == old(scheduledTasks)
      ensures found <==> taskId in scheduledTasks
      ensures requested <==> found && old(scheduledTasks[taskId].state) == Pending
      ensures found ==> scheduledTasks[taskId].state == AfterCancel(old(scheduledTasks[taskId].state))
      ensures found == Cancel(old(Entries()), taskId).found
      ensures requested == Cancel(old(Entries()), taskId).requested
      ensures Entries() == Cancel(old(Entries()), taskId).after
    {
      var future := if taskId in scheduledTasks then Some(scheduledTasks[taskId]) else None;
      if future == None {
        return false, false;
      }
      var f := future.value;
      var done := f.IsDone();
      var cancelled := f.IsCancelled();
      requested := false;
      if !done && !cancelled {
        var _ := f.Cancel(true);
        requested := true;
      }
      found := true;
    }
  }
}
