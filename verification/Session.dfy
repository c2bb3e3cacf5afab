/** One controller session: the request handlers, the serve loop, and how they share
    the watchdog with its sweeps. */
module Session {
  import opened Outcomes
  import opened Numerals
  import opened Protocol
  import Watchdog

  type Id = Watchdog.Id

  // ---------------------------------------------------------------------------
  // The session as a state machine

  datatype TaskState = Running | Done | Failed | Cancelled

  datatype Task = Task(leaseId: Id, inject: bool, ttl: real, state: TaskState)

  /** `awaiting` are the tasks whose executor call has not returned; `injected` are
      the leases whose inject-phase execution returned ok. */
  datatype State = State(tasks: map<string, Task>, counter: nat, awaiting: set<string>, dog: Watchdog.Dog,
      injected: set<Id>)

  datatype Event =
    | Begin(leaseId: Id, inject: bool, ttl: real)
    | End(taskId: string, outcome: Watchdog.Outcome, now: real)
    | Cancel(taskId: string)
    | Sweep(e: Watchdog.Event)

  const ID_WIDTH := 6

  function TaskId(n: nat): string { "t-" + Padded(n, ID_WIDTH) }

  lemma TaskIdInjective(m: nat, n: nat)
    requires TaskId(m) == TaskId(n)
    ensures m == n
  {
    assert TaskId(m)[2..] == Padded(m, ID_WIDTH) && TaskId(n)[2..] == Padded(n, ID_WIDTH);
    PaddedInjective(m, n, ID_WIDTH);
  }

  function Deadline(now: real, ttl: real): real { now + if ttl < 0.0 then 0.0 else ttl }

  ghost predicate Enabled(s: State, e: Event) {
    match e
    case End(taskId, _, _) => taskId in s.awaiting
    case Sweep(e) => !e.Register? && Watchdog.Enabled(s.dog, e)
    case _ => true
  }

  function Next(s: State, e: Event): State {
    match e
    case Begin(leaseId, inject, ttl) =>
      var id := TaskId(s.counter + 1);
      s.(counter := s.counter + 1, tasks := s.tasks[id := Task(leaseId, inject, ttl, Running)],
          awaiting := s.awaiting + {id})
    case End(id, outcome, now) =>
      if id !in s.tasks then s
      else
        var task := s.tasks[id];
        var ended := s.(awaiting := s.awaiting - {id},
            tasks := s.tasks[id := task.(state := if outcome.Raised? then Failed else Done)]);
        if task.inject && outcome == Watchdog.Undone(true) then
          ended.(dog := Watchdog.Next(s.dog, Watchdog.Register(task.leaseId,
              Watchdog.Entry(Deadline(now, task.ttl), id))),
                 injected := s.injected + {task.leaseId})
        else ended
    case Cancel(id) =>
      if id in s.tasks then s.(tasks := s.tasks[id := s.tasks[id].(state := Cancelled)]) else s
    case Sweep(e) => s.(dog := Watchdog.Next(s.dog, e))
  }

  function After(s: State, events: seq<Event>): State
    decreases |events|
  {
    if events == [] then s else Next(After(s, events[..|events| - 1]), events[|events| - 1])
  }

  ghost predicate AllEnabled(s: State, events: seq<Event>)
    decreases |events|
  {
    events != [] ==>
      && AllEnabled(s, events[..|events| - 1])
      && Enabled(After(s, events[..|events| - 1]), events[|events| - 1])
  }

  /** The watchdog answers for exactly the leases injected with success, and the task
      ids handed out are exactly the first `counter` ones. */
  ghost predicate Inv(s: State) {
    && Watchdog.Inv(s.dog)
    && Watchdog.Tracked(s.dog) == s.injected
    && (forall id :: id in s.tasks <==> HandedOut(id, s.counter))
    && s.awaiting <= s.tasks.Keys
  }

  ghost predicate HandedOut(id: string, counter: nat) {
    exists n :: 1 <= n <= counter && id == TaskId(n)
  }

  /** The id a new task gets has never been handed out. */
  lemma NextTaskIdIsNew(s: State)
    requires Inv(s)
    ensures TaskId(s.counter + 1) !in s.tasks
  {
    if TaskId(s.counter + 1) in s.tasks {
      var n :| 1 <= n <= s.counter && TaskId(s.counter + 1) == TaskId(n);
      TaskIdInjective(s.counter + 1, n);
    }
  }

  lemma NextKeeps(s: State, e: Event)
    requires Inv(s) && Enabled(s, e)
    ensures Inv(Next(s, e))
    ensures s.tasks.Keys <= Next(s, e).tasks.Keys && s.injected <= Next(s, e).injected
    ensures e.Cancel? || (e.End? && !s.tasks[e.taskId].inject) ==> Next(s, e).dog == s.dog
  {
    match e
    case Begin(leaseId, inject, ttl) =>
      var s' := Next(s, e);
      forall id ensures HandedOut(id, s'.counter) <==> HandedOut(id, s.counter) || id == TaskId(s.counter + 1) {
        if id == TaskId(s.counter + 1) {
          assert 1 <= s'.counter <= s'.counter && id == TaskId(s'.counter);
        }
      }
    case End(id, outcome, now) =>
      var task := s.tasks[id];
      Watchdog.NextKeeps(s.dog, Watchdog.Register(task.leaseId, Watchdog.Entry(Deadline(now, task.ttl), id)));
    case Cancel(id) =>
    case Sweep(e) => Watchdog.NextKeeps(s.dog, e);
  }

  /** Session invariant: over any sequence of requests, with executor calls and
      sweeps interleaved in any way, the watchdog tracks exactly the leases whose
      injection returned ok, and task ids never repeat. */
  lemma {:induction false} SessionInvariant(s: State, events: seq<Event>)
    requires Inv(s) && AllEnabled(s, events)
    ensures Inv(After(s, events))
    ensures s.injected <= After(s, events).injected && s.tasks.Keys <= After(s, events).tasks.Keys
    decreases |events|
  {
    if events != [] {
      SessionInvariant(s, events[..|events| - 1]);
      NextKeeps(After(s, events[..|events| - 1]), events[|events| - 1]);
    }
  }

  // ---------------------------------------------------------------------------
  // Dispatch

  datatype Lease = Lease(id: Id, ttl: real)

  /** A turn the watchdog's runner gets while something is awaited. */
  datatype Tick = Tick(now: real, outcome: Watchdog.Outcome)

  /** What lies outside the agent while one line is served: the runner's turns until the
      line has come, the lease validator, how the executor call ends and when, and the
      runner's turns meanwhile. */
  datatype World = World(
    idle: seq<Tick>, validate: Option<Json> -> Option<Lease>,
    outcome: Watchdog.Outcome, now: real, ticks: seq<Tick>)

  datatype Action = Execute(lease: Lease, inject: bool) | CancelTask(taskId: Option<string>) | Inspect

  const INSPECTIONS := {"handshake", "capabilities.query", "task.status", "health.ping"}

  function StringMember(params: Members, name: string): Option<string> {
    match Get(params, name)
    case Some(Str(s)) => Some(s)
    case _ => None
  }

  /** `handle` up to the executor call.  A handler that raises is an internal error. */
  function Dispatch(executors: seq<set<string>>, name: string, params: Members,
      validate: Option<Json> -> Option<Lease>): Result<Action, int>
  {
    if "run_id" !in params || "agent_id" !in params then Err(INVALID_PARAMS)
    else if name == "task.execute" then
      var faultId := StringMember(params, "fault_id");
      if faultId.None? || faultId.value == "" then Err(INTERNAL_ERROR)
      else if forall faults | faults in executors :: faultId.value !in faults then Err(INTERNAL_ERROR)
      else
        match validate(Get(params, "lease"))
        case None => Err(INTERNAL_ERROR)
        case Some(lease) => Ok(Execute(lease, Get(params, "phase") in {None, Some(Str("inject"))}))
    else if name == "task.cancel" then Ok(CancelTask(StringMember(params, "task_id")))
    else if name in INSPECTIONS then Ok(Inspect)
    else Err(METHOD_NOT_FOUND)
  }

  /** A request to run a fault that some executor is for, under a lease that is valid. */
  predicate Runnable(executors: seq<set<string>>, name: string, params: Members,
      validate: Option<Json> -> Option<Lease>, lease: Lease)
  {
    && "run_id" in params && "agent_id" in params && name == "task.execute"
    && "fault_id" in params && params["fault_id"].Str? && params["fault_id"].s != ""
    && (exists faults | faults in executors :: params["fault_id"].s in faults)
    && validate(if "lease" in params then Some(params["lease"]) else None) == Some(lease)
  }

  /** Whether such a request is for an injection: that is what it is unless it says
      otherwise. */
  predicate ForInjection(params: Members) { "phase" !in params || params["phase"] == Str("inject") }

  /** What every request is taken for. */
  lemma DispatchedExactly(executors: seq<set<string>>, name: string, params: Members,
      validate: Option<Json> -> Option<Lease>, lease: Lease, taskId: Option<string>)
    ensures var a := Dispatch(executors, name, params, validate);
            && (a == Ok(Execute(lease, true)) <==>
                  Runnable(executors, name, params, validate, lease) && ForInjection(params))
            && (a == Ok(Execute(lease, false)) <==>
                  Runnable(executors, name, params, validate, lease) && !ForInjection(params))
            && (a == Ok(CancelTask(taskId)) <==>
                  && "run_id" in params && "agent_id" in params && name == "task.cancel"
                  && match taskId
                     case Some(id) => "task_id" in params && params["task_id"] == Str(id)
                     case None => "task_id" in params ==> !params["task_id"].Str?)
            && (a == Ok(Inspect) <==>
                  && "run_id" in params && "agent_id" in params
                  && name in {"handshake", "capabilities.query", "task.status", "health.ping"})
  {
  }

  /** Which error answers a request that is refused: a context that is not there, before
      anything else, a method nobody knows, or a handler that raised. */
  lemma RefusedExactly(executors: seq<set<string>>, name: string, params: Members,
      validate: Option<Json> -> Option<Lease>)
    ensures var a := Dispatch(executors, name, params, validate);
            && (a == Err(-32602) <==> "run_id" !in params || "agent_id" !in params)
            && (a == Err(-32601) <==>
                  && "run_id" in params && "agent_id" in params
                  && name !in {"task.execute", "task.cancel", "handshake", "capabilities.query", "task.status",
                               "health.ping"})
            && (a == Err(-32603) <==>
                  && "run_id" in params && "agent_id" in params && name == "task.execute"
                  && forall lease :: !Runnable(executors, name, params, validate, lease))
            && (a.Err? ==> a.error in {-32601, -32602, -32603})
  {
    var valid := validate(if "lease" in params then Some(params["lease"]) else None);
    if valid.Some? {
      DispatchedExactly(executors, name, params, validate, valid.value, None);
    }
  }

  function Sweeps(during: seq<Watchdog.Event>): seq<Event> {
    seq(|during|, i requires 0 <= i < |during| => Sweep(during[i]))
  }

  /** What a request does to the session, given what the runner did meanwhile. */
  function EventsOf(counter: nat, a: Result<Action, int>, w: World, during: seq<Watchdog.Event>): seq<Event> {
    match a
    case Ok(Execute(lease, inject)) =>
      [Begin(lease.id, inject, lease.ttl)] + Sweeps(during) + [End(TaskId(counter + 1), w.outcome, w.now)]
    case Ok(CancelTask(Some(id))) => [Cancel(id)]
    case _ => []
  }

  /** The reply, given the id of the task it ran or whether it knew the task to cancel. */
  function Reply(id: RpcId, a: Result<Action, int>, w: World, taskId: string, known: bool): Frame {
    match a
    case Err(code) => ErrorResponse(Some(id), code, "refused")
    case Ok(Execute(_, _)) =>
      if w.outcome.Raised? then ErrorResponse(Some(id), INTERNAL_ERROR, "raised")
      else ResultResponse(id, map["task_id" := Str(taskId), "state" := Str("done"), "ok" := Bool(w.outcome.ok)])
    case Ok(CancelTask(_)) => ResultResponse(id, map["state" := Str(if known then "cancelled" else "unknown")])
    case Ok(Inspect) => ResultResponse(id, map[])
  }

  /** An error, by either of its members. */
  predicate IsError(f: Frame, code: int) {
    && f.Response? && f.result.None? && f.error.Some?
    && Get(f.error.value, "code") == Some(Num(code)) && "message" in f.error.value
  }

  lemma ReplyIsValid(id: RpcId, a: Result<Action, int>, w: World, taskId: string, known: bool)
    ensures var f := Reply(id, a, w, taskId, known);
            && f.Response? && f.replyTo == Some(id) && Valid(f)
            && (match ErrorCode(a, w)
                case None => f.error.None?
                case Some(code) => IsError(f, code))
  {
  }

  /** The code of the error reply, if the reply is an error. */
  function ErrorCode(a: Result<Action, int>, w: World): Option<int> {
    match a
    case Err(code) => Some(code)
    case Ok(Execute(_, _)) => if w.outcome.Raised? then Some(INTERNAL_ERROR) else None
    case Ok(_) => None
  }

  /** The reply to a request that finds the session in state `s`. */
  function Answer(executors: seq<set<string>>, s: State, id: RpcId, name: string, params: Members, w: World): Frame {
    var a := Dispatch(executors, name, params, w.validate);
    var known := a.Ok? && a.value.CancelTask? && a.value.taskId.Some? && a.value.taskId.value in s.tasks;
    Reply(id, a, w, TaskId(s.counter + 1), known)
  }

  /** What the reply says: how the execution went and under which task, or whether the
      task to cancel was known. */
  lemma AnsweredExactly(executors: seq<set<string>>, s: State, id: RpcId, name: string, params: Members, w: World,
                        lease: Lease, taskId: Option<string>)
    ensures var f := Answer(executors, s, id, name, params, w);
            && (Runnable(executors, name, params, w.validate, lease) ==>
                  if w.outcome.Raised? then IsError(f, -32603)
                  else
                    && f.result.Some? && Get(f.result.value, "ok") == Some(Bool(w.outcome == Watchdog.Undone(true)))
                    && Get(f.result.value, "state") == Some(Str("done"))
                    && Get(f.result.value, "task_id") == Some(Str("t-" + Padded(s.counter + 1, 6))))
            && (Dispatch(executors, name, params, w.validate) == Ok(CancelTask(taskId)) ==>
                  && f.result.Some?
                  && Get(f.result.value, "state") == Some(Str(
                       if taskId.Some? && taskId.value in s.tasks then "cancelled" else "unknown")))
  {
    DispatchedExactly(executors, name, params, w.validate, lease, taskId);
    hide Dispatch, Runnable;
  }

  /** What one line writes, and what it does to the session. */
  function LineAnswer(executors: seq<set<string>>, s: State, l: Line, w: World): seq<Frame>
    requires !l.Unreadable?
  {
    match DecodeLine(l)
    case Err(code) => [ErrorResponse(None, code, "bad frame")]
    case Ok(Request(id, name, params)) => [Answer(executors, s, id, name, params, w)]
    case Ok(_) => []
  }

  function LineEvents(executors: seq<set<string>>, counter: nat, l: Line, w: World,
      during: seq<Watchdog.Event>): seq<Event>
    requires !l.Unreadable?
  {
    match DecodeLine(l)
    case Ok(Request(_, name, params)) => EventsOf(counter, Dispatch(executors, name, params, w.validate), w, during)
    case _ => []
  }

  /** One line served: what the runner did before it came and during its executor call,
      what was written, and the session it left. */
  datatype Exchange = Exchange(idle: seq<Watchdog.Event>, during: seq<Watchdog.Event>, answer: seq<Frame>, after: State)

  /** The line is answered from the session it finds when it comes. */
  ghost predicate LineServed(executors: seq<set<string>>, l: Line, w: World, s: State, x: Exchange) {
    && !l.Unreadable?
    && AllEnabled(s, Sweeps(x.idle))
    && var found := After(s, Sweeps(x.idle));
       var events := LineEvents(executors, found.counter, l, w, x.during);
       && x.answer == LineAnswer(executors, found, l, w)
       && AllEnabled(found, events) && x.after == After(found, events)
  }

  function StateAt(s: State, t: seq<Exchange>, k: nat): State
    requires k <= |t|
  {
    if k == 0 then s else t[k - 1].after
  }

  /** The first `n` lines were served, one after another. */
  ghost predicate Served(executors: seq<set<string>>, lines: seq<Line>, world: nat -> World, s: State,
      t: seq<Exchange>, n: nat)
  {
    && n <= |lines| && n <= |t|
    && (n > 0 ==>
          && Served(executors, lines, world, s, t, n - 1)
          && LineServed(executors, lines[n - 1], world(n - 1), StateAt(s, t, n - 1), t[n - 1]))
  }

  /** What was written for the first `n` lines. */
  function Written(t: seq<Exchange>, n: nat): seq<Frame>
    requires n <= |t|
  {
    if n == 0 then [] else Written(t, n - 1) + t[n - 1].answer
  }

  /** One valid response per reply owed, to whom it is owed, in order. */
  ghost predicate Settles(written: seq<Frame>, owed: seq<Option<RpcId>>) {
    Addressees(written) == owed && |written| == |owed| && forall f | f in written :: f.Response? && Valid(f)
  }

  lemma SettlesAppend(written: seq<Frame>, owed: seq<Option<RpcId>>, more: seq<Frame>, owed': seq<Option<RpcId>>)
    requires Settles(written, owed) && Settles(more, owed')
    ensures Settles(written + more, owed + owed')
  {
    AddresseesAppend(written, more);
  }

  lemma LineAnswerIsOwed(executors: seq<set<string>>, s: State, l: Line, w: World)
    requires !l.Unreadable?
    ensures Settles(LineAnswer(executors, s, l, w), Owed(l))
  {
    match DecodeLine(l)
    case Ok(Request(id, name, params)) =>
      var a := Dispatch(executors, name, params, w.validate);
      var known := a.Ok? && a.value.CancelTask? && a.value.taskId.Some? && a.value.taskId.value in s.tasks;
      ReplyIsValid(id, a, w, TaskId(s.counter + 1), known);
    case _ =>
  }

  lemma AnswerSettles(executors: seq<set<string>>, l: Line, w: World, s: State, x: Exchange)
    requires LineServed(executors, l, w, s, x)
    ensures !l.Unreadable? && Settles(x.answer, Owed(l))
  {
    LineAnswerIsOwed(executors, After(s, Sweeps(x.idle)), l, w);
  }

  lemma OwedLast(lines: seq<Line>, n: nat)
    requires n < |lines|
    ensures OwedAll(lines[..n + 1]) == OwedAll(lines[..n]) + Owed(lines[n])
  {
    OwedAppend(lines[..n], [lines[n]]);
    assert lines[..n] + [lines[n]] == lines[..n + 1] && OwedAll([lines[n]]) == Owed(lines[n]);
  }

  lemma LastServed(executors: seq<set<string>>, lines: seq<Line>, world: nat -> World, s: State, t: seq<Exchange>,
                   n: nat)
    requires 0 < n && Served(executors, lines, world, s, t, n)
    ensures !lines[n - 1].Unreadable? && Settles(t[n - 1].answer, Owed(lines[n - 1]))
  {
    AnswerSettles(executors, lines[n - 1], world(n - 1), StateAt(s, t, n - 1), t[n - 1]);
  }

  /** The lines served get exactly one frame per request line, with its id, and per line
      that is no frame, without one; none for anything else; in line order. */
  lemma {:induction false} ServedSettles(executors: seq<set<string>>, lines: seq<Line>, world: nat -> World, s: State,
                                         t: seq<Exchange>, n: nat)
    requires Served(executors, lines, world, s, t, n)
    ensures Settles(Written(t, n), OwedAll(lines[..n]))
  {
    if n > 0 {
      ServedSettles(executors, lines, world, s, t, n - 1);
      LastServed(executors, lines, world, s, t, n);
      SettlesAppend(Written(t, n - 1), OwedAll(lines[..n - 1]), t[n - 1].answer, Owed(lines[n - 1]));
      OwedLast(lines, n - 1);
    }
  }

  lemma {:induction false} ServedEarlier(executors: seq<set<string>>, lines: seq<Line>, world: nat -> World, s: State,
                                         t: seq<Exchange>, n: nat, k: nat)
    requires Served(executors, lines, world, s, t, n) && k <= n
    ensures Served(executors, lines, world, s, t, k)
  {
    if k < n {
      ServedEarlier(executors, lines, world, s, t, n - 1, k);
    }
  }

  /** Line by line: each was readable, and got what it is owed. */
  lemma EachServed(executors: seq<set<string>>, lines: seq<Line>, world: nat -> World, s: State, t: seq<Exchange>,
                   n: nat, k: nat)
    requires Served(executors, lines, world, s, t, n) && k < n
    ensures !lines[k].Unreadable? && Settles(t[k].answer, Owed(lines[k]))
  {
    ServedEarlier(executors, lines, world, s, t, n, k + 1);
    LastServed(executors, lines, world, s, t, k + 1);
  }

  /** A line that owes one response got one. */
  lemma SettledOne(answer: seq<Frame>, l: Line)
    requires Settles(answer, Owed(l))
    ensures |answer| == 1 <==> OwesOne(l)
  {
  }

  /** The session served the lines up to the first unreadable one. */
  ghost predicate ServedUpTo(executors: seq<set<string>>, lines: seq<Line>, world: nat -> World, s: State,
      t: seq<Exchange>)
  {
    && Served(executors, lines, world, s, t, |t|)
    && (|t| < |lines| ==> lines[|t|].Unreadable?)
  }

  lemma AllReadable(executors: seq<set<string>>, lines: seq<Line>, world: nat -> World, s: State, t: seq<Exchange>)
    requires ServedUpTo(executors, lines, world, s, t)
    ensures |t| == |lines| <==> forall l | l in lines :: !l.Unreadable?
  {
    if |t| == |lines| {
      forall k: nat | k < |lines| ensures !lines[k].Unreadable? {
        EachServed(executors, lines, world, s, t, |t|, k);
      }
    }
  }

  /** All that is owed is written exactly when no line is unreadable: the first one that
      is ends `serve`, which then still owes its own reply and all later ones.
      (`serve_sync` goes on with the same server, line by line.) */
  lemma SettlesExactly(executors: seq<set<string>>, lines: seq<Line>, world: nat -> World, s: State, t: seq<Exchange>)
    requires ServedUpTo(executors, lines, world, s, t)
    ensures Settles(Written(t, |t|), OwedAll(lines)) <==> forall l | l in lines :: !l.Unreadable?
  {
    AllReadable(executors, lines, world, s, t);
    ServedSettles(executors, lines, world, s, t, |t|);
    if |t| == |lines| {
      assert lines[..|t|] == lines;
    } else {
      OwedBeyond(lines, |t|);
    }
  }

  /** Every line gets exactly one response exactly when none is unreadable, a
      notification or a response. */
  lemma EveryLineExactly(executors: seq<set<string>>, lines: seq<Line>, world: nat -> World, s: State, t: seq<Exchange>)
    requires ServedUpTo(executors, lines, world, s, t)
    ensures |t| == |lines| && (forall x | x in t :: |x.answer| == 1) <==>
            forall l | l in lines :: !l.Unreadable? && OwesOne(l)
  {
    AllReadable(executors, lines, world, s, t);
    if |t| == |lines| {
      forall k: nat | k < |lines| ensures |t[k].answer| == 1 <==> OwesOne(lines[k]) {
        EachServed(executors, lines, world, s, t, |t|, k);
        SettledOne(t[k].answer, lines[k]);
      }
      assert (forall x | x in t :: |x.answer| == 1) <==> forall k: nat | k < |t| :: |t[k].answer| == 1;
    }
  }

  lemma StateStill(s: State, t: seq<Exchange>, x: Exchange, n: nat)
    requires n <= |t|
    ensures StateAt(s, t + [x], n) == StateAt(s, t, n) && (n < |t| ==> (t + [x])[n] == t[n])
  {
  }

  lemma {:induction false} ServedStill(executors: seq<set<string>>, lines: seq<Line>, world: nat -> World, s: State,
                                       t: seq<Exchange>, x: Exchange, n: nat)
    requires Served(executors, lines, world, s, t, n)
    ensures Served(executors, lines, world, s, t + [x], n)
  {
    if n > 0 {
      ServedStill(executors, lines, world, s, t, x, n - 1);
      StateStill(s, t, x, n - 1);
    }
  }

  lemma {:induction false} WrittenStill(t: seq<Exchange>, x: Exchange, n: nat)
    requires n <= |t|
    ensures Written(t + [x], n) == Written(t, n)
  {
    if n > 0 {
      WrittenStill(t, x, n - 1);
    }
  }

  lemma ServedNext(executors: seq<set<string>>, lines: seq<Line>, world: nat -> World, s: State, t: seq<Exchange>,
      x: Exchange)
    requires |t| < |lines| && Served(executors, lines, world, s, t, |t|)
    requires LineServed(executors, lines[|t|], world(|t|), StateAt(s, t, |t|), x)
    ensures Served(executors, lines, world, s, t + [x], |t| + 1)
    ensures Written(t + [x], |t| + 1) == Written(t, |t|) + x.answer
  {
    ServedStill(executors, lines, world, s, t, x, |t|);
    WrittenStill(t, x, |t|);
    StateStill(s, t, x, |t|);
  }

  lemma Extend(s: State, events: seq<Event>, e: Event)
    requires AllEnabled(s, events) && Inv(After(s, events)) && Enabled(After(s, events), e)
    ensures AllEnabled(s, events + [e]) && After(s, events + [e]) == Next(After(s, events), e)
    ensures Inv(After(s, events + [e]))
  {
    assert (events + [e])[..|events|] == events;
    NextKeeps(After(s, events), e);
  }

  /** Sweeps end no task. */
  lemma {:induction false} StillAwaiting(s: State, begin: Event, during: seq<Watchdog.Event>)
    requires begin.Begin?
    ensures var s' := After(s, [begin] + Sweeps(during));
            TaskId(s.counter + 1) in s'.awaiting && TaskId(s.counter + 1) in s'.tasks
    decreases |during|
  {
    var events := [begin] + Sweeps(during);
    if during == [] {
      assert events == [begin] && events[..0] == [];
    } else {
      var init := during[..|during| - 1];
      assert events[..|events| - 1] == [begin] + Sweeps(init);
      StillAwaiting(s, begin, init);
    }
  }

  /** The events of one execution leave the watchdog with the runner's turns, and then the
      registration if it is an injection that went well. */
  lemma {:induction false} ExecutedOver(s: State, begin: Event, during: seq<Watchdog.Event>)
    requires begin.Begin?
    ensures var s' := After(s, [begin] + Sweeps(during));
            && s'.dog == Watchdog.After(s.dog, during) && s'.injected == s.injected
            && s'.counter == s.counter + 1 && s'.awaiting == s.awaiting + {TaskId(s.counter + 1)}
            && s'.tasks == s.tasks[TaskId(s.counter + 1) := Task(begin.leaseId, begin.inject, begin.ttl, Running)]
    decreases |during|
  {
    var events := [begin] + Sweeps(during);
    if during == [] {
      assert events == [begin] && events[..0] == [];
    } else {
      var init := during[..|during| - 1];
      assert events[..|events| - 1] == [begin] + Sweeps(init);
      ExecutedOver(s, begin, init);
    }
  }

  /** What a request to run a fault does, by its own words.  If it asks for an injection,
      or does not say, and the executor reports success, the lease is registered with its
      ttl from now on; otherwise only the runner's turns change the watchdog. */
  ghost predicate Carried(params: Members, lease: Lease, w: World, during: seq<Watchdog.Event>, taskId: string,
                          before: State, after: State)
  {
    if w.outcome == Watchdog.Undone(true) && ForInjection(params) then
      && after.injected == before.injected + {lease.id}
      && after.dog == Watchdog.Next(Watchdog.After(before.dog, during), Watchdog.Register(lease.id,
             Watchdog.Entry(if lease.ttl < 0.0 then w.now else w.now + lease.ttl, taskId)))
    else
      && after.injected == before.injected
      && after.dog == Watchdog.After(before.dog, during)
  }

  /** The same for an execution that was begun for one or the other. */
  lemma ExecutionCarried(s: State, params: Members, lease: Lease, w: World, during: seq<Watchdog.Event>)
    ensures var id := TaskId(s.counter + 1);
            var s' := After(s, [Begin(lease.id, ForInjection(params), lease.ttl)] + Sweeps(during) +
                               [End(id, w.outcome, w.now)]);
            && Carried(params, lease, w, during, id, s, s')
            && s'.counter == s.counter + 1 && s'.awaiting == s.awaiting - {id}
            && s'.tasks == s.tasks[id := Task(lease.id, ForInjection(params), lease.ttl,
                                              if w.outcome.Raised? then Failed else Done)]
  {
    var begin := Begin(lease.id, ForInjection(params), lease.ttl);
    var events := [begin] + Sweeps(during);
    hide Watchdog.After, Watchdog.Next, TaskId;
    ExecutedOver(s, begin, during);
    var end := End(TaskId(s.counter + 1), w.outcome, w.now);
    assert (events + [end])[..|events|] == events;
    assert After(s, events + [end]) == Next(After(s, events), end);
  }

  lemma PhaseDecides(executors: seq<set<string>>, s: State, name: string, params: Members, lease: Lease, w: World,
                     during: seq<Watchdog.Event>)
    requires Runnable(executors, name, params, w.validate, lease)
    ensures var s' := After(s, EventsOf(s.counter, Dispatch(executors, name, params, w.validate), w, during));
            var id := TaskId(s.counter + 1);
            && Carried(params, lease, w, during, id, s, s')
            && s'.counter == s.counter + 1 && s'.awaiting == s.awaiting - {id}
            && s'.tasks == s.tasks[id := Task(lease.id, ForInjection(params), lease.ttl,
                                              if w.outcome.Raised? then Failed else Done)]
  {
    DispatchedExactly(executors, name, params, w.validate, lease, None);
    ExecutionCarried(s, params, lease, w, during);
    hide After, Carried, Dispatch, Runnable;
  }

  /** What a cancellation does: it marks the task it names, if that is known, whatever
      state it was in, and nothing else. */
  predicate Cancels(name: string, params: Members, id: string) {
    && "run_id" in params && "agent_id" in params && name == "task.cancel"
    && "task_id" in params && params["task_id"] == Str(id)
  }

  ghost predicate Marked(id: string, before: State, after: State) {
    after == if id in before.tasks then before.(tasks := before.tasks[id := before.tasks[id].(state := Cancelled)])
             else before
  }

  lemma CancelMarks(executors: seq<set<string>>, s: State, name: string, params: Members, id: string, w: World,
                    during: seq<Watchdog.Event>)
    requires Cancels(name, params, id)
    ensures Marked(id, s, After(s, EventsOf(s.counter, Dispatch(executors, name, params, w.validate), w, during)))
  {
    var cancel := Cancel(id);
    assert [cancel][..0] == [] && After(s, [cancel]) == Next(After(s, [cancel][..0]), cancel);
  }

  /** Each line is served from the session the line before it left, and the first one from
      the session there was. */
  lemma ServedInTurn(executors: seq<set<string>>, lines: seq<Line>, world: nat -> World, s: State, t: seq<Exchange>,
                     n: nat, k: nat)
    requires Served(executors, lines, world, s, t, n) && k < n
    ensures LineServed(executors, lines[k], world(k), if k == 0 then s else t[k - 1].after, t[k])
  {
    hide LineServed;
    ServedEarlier(executors, lines, world, s, t, n, k + 1);
  }

  /** What serving a line does, when that is a request to run a fault or to cancel a task. */
  lemma LineCarried(executors: seq<set<string>>, l: Line, w: World, s: State, x: Exchange, id: RpcId, name: string,
                    params: Members, lease: Lease, taskId: string)
    requires LineServed(executors, l, w, s, x) && DecodeLine(l) == Ok(Request(id, name, params))
    ensures var found := After(s, Sweeps(x.idle));
            && |x.answer| == 1 && x.answer[0].Response? && x.answer[0].replyTo == Some(id)
            && (Runnable(executors, name, params, w.validate, lease) ==>
                  Carried(params, lease, w, x.during, TaskId(found.counter + 1), found, x.after))
            && (Cancels(name, params, taskId) ==> Marked(taskId, found, x.after))
  {
    var found := After(s, Sweeps(x.idle));
    LineAnswerIsOwed(executors, found, l, w);
    if Runnable(executors, name, params, w.validate, lease) {
      PhaseDecides(executors, found, name, params, lease, w, x.during);
    }
    if Cancels(name, params, taskId) {
      CancelMarks(executors, found, name, params, taskId, w, x.during);
    }
    hide After, Carried, Dispatch, Runnable, Marked, AllEnabled;
  }

  // ---------------------------------------------------------------------------
  // The server

  class AgentServer {
    const executors: seq<set<string>>
    const watchdog: Watchdog.AgentWatchdog
    var tasks: map<string, Task>
    var counter: nat
    ghost var awaiting: set<string>
    ghost var injected: set<Id>

    ghost function View(): State
      reads this, watchdog
    {
      State(tasks, counter, awaiting, watchdog.View(), injected)
    }

    constructor (executors: seq<set<string>>)
      ensures Inv(View()) && this.executors == executors
      ensures fresh(watchdog)
    {
      this.executors := executors;
      watchdog := new Watchdog.AgentWatchdog();
      tasks, counter, awaiting, injected := map[], 0, {}, {};
    }

    /** The server is where `events` take the session `s`. */
    ghost predicate At(s: State, events: seq<Event>)
      reads this, watchdog
    {
      AllEnabled(s, events) && View() == After(s, events) && Inv(View())
    }

    /** One turn of the runner. */
    method Turn(tick: Tick, ghost s: State, ghost events: seq<Event>, ghost during: seq<Watchdog.Event>)
      returns (ghost e: Watchdog.Event)
      requires At(s, events + Sweeps(during))
      modifies watchdog
      ensures At(s, events + Sweeps(during + [e]))
    {
      e := watchdog.Tick(tick.now, tick.outcome);
      Extend(s, events + Sweeps(during), Sweep(e));
      assert events + Sweeps(during) + [Sweep(e)] == events + Sweeps(during + [e]);
    }

    /** The runner's turns during one await. */
    method Await(ticks: seq<Tick>, ghost s: State, ghost events: seq<Event>)
      returns (ghost during: seq<Watchdog.Event>)
      requires At(s, events)
      modifies watchdog
      ensures |during| == |ticks|
      ensures At(s, events + Sweeps(during))
    {
      during := [];
      assert events + Sweeps(during) == events;
      for i := 0 to |ticks|
        invariant |during| == i
        invariant At(s, events + Sweeps(during))
      {
        ghost var e := Turn(ticks[i], s, events, during);
        during := during + [e];
      }
    }

    /** `_on_task_execute` up to the executor call: a new running task. */
    method BeginTask(lease: Lease, inject: bool) returns (taskId: string)
      requires Inv(View())
      modifies this`counter, this`tasks, this`awaiting
      ensures taskId == TaskId(old(counter) + 1) && taskId !in old(tasks)
      ensures var events := [Begin(lease.id, inject, lease.ttl)];
              AllEnabled(old(View()), events) && View() == After(old(View()), events) && Inv(View())
    {
      ghost var begin := Begin(lease.id, inject, lease.ttl);
      NextTaskIdIsNew(View());
      Extend(View(), [], begin);
      assert [] + [begin] == [begin];
      counter := counter + 1;
      taskId := TaskId(counter);
      tasks := tasks[taskId := Task(lease.id, inject, lease.ttl, Running)];
      awaiting := awaiting + {taskId};
    }

    /** ... and from its return: a successful injection goes to the watchdog. */
    method EndTask(taskId: string, outcome: Watchdog.Outcome, now: real)
      requires taskId in tasks
      modifies this, watchdog
      ensures View() == Next(old(View()), End(taskId, outcome, now))
    {
      var task := tasks[taskId];
      awaiting := awaiting - {taskId};
      if outcome.Raised? {
        tasks := tasks[taskId := task.(state := Failed)];
        return;
      }
      if task.inject && outcome.ok {
        var _ := watchdog.RegisterLease(task.leaseId, task.ttl, now, taskId);
        injected := injected + {task.leaseId};
      }
      tasks := tasks[taskId := task.(state := Done)];
    }

    /** `_on_task_execute` for an accepted lease. */
    method TaskExecute(lease: Lease, inject: bool, w: World) returns (taskId: string, ghost during: seq<Watchdog.Event>)
      requires Inv(View())
      modifies this, watchdog
      ensures taskId == TaskId(old(counter) + 1) && taskId !in old(tasks)
      ensures var events := [Begin(lease.id, inject, lease.ttl)] + Sweeps(during) + [End(taskId, w.outcome, w.now)];
              AllEnabled(old(View()), events) && View() == After(old(View()), events)
      ensures Inv(View())
    {
      ghost var s, begin := View(), Begin(lease.id, inject, lease.ttl);
      taskId := BeginTask(lease, inject);
      during := Await(w.ticks, s, [begin]);
      StillAwaiting(s, begin, during);
      Extend(s, [begin] + Sweeps(during), End(taskId, w.outcome, w.now));
      EndTask(taskId, w.outcome, w.now);
    }

    /** `_on_task_cancel`: the task is marked, whatever state it was in. */
    method TaskCancel(taskId: Option<string>) returns (known: bool)
      requires Inv(View())
      modifies this`tasks
      ensures known <==> taskId.Some? && taskId.value in old(tasks)
      ensures View() == if taskId.Some? then Next(old(View()), Cancel(taskId.value)) else old(View())
      ensures tasks == if known then old(tasks)[taskId.value := old(tasks[taskId.value]).(state := Cancelled)]
                       else old(tasks)
      ensures Inv(View())
    {
      known := taskId.Some? && taskId.value in tasks;
      if taskId.Some? {
        NextKeeps(View(), Cancel(taskId.value));
      }
      if known {
        tasks := tasks[taskId.value := tasks[taskId.value].(state := Cancelled)];
      }
    }

    /** `handle`: every request gets one valid reply, under its own id. */
    method Handle(id: RpcId, name: string, params: Members, w: World)
      returns (f: Frame, ghost during: seq<Watchdog.Event>)
      requires Inv(View())
      modifies this, watchdog
      ensures f == Answer(executors, old(View()), id, name, params, w)
      ensures f.Response? && f.replyTo == Some(id) && Valid(f)
      ensures match ErrorCode(Dispatch(executors, name, params, w.validate), w)
              case None => f.error.None?
              case Some(code) => IsError(f, code)
      ensures var events := EventsOf(old(counter), Dispatch(executors, name, params, w.validate), w, during);
              AllEnabled(old(View()), events) && View() == After(old(View()), events)
      ensures forall lease | Runnable(executors, name, params, w.validate, lease) ::
                Carried(params, lease, w, during, TaskId(old(counter) + 1), old(View()), View())
      ensures forall task | Cancels(name, params, task) :: Marked(task, old(View()), View())
      ensures Inv(View())
    {
      ghost var s := View();
      var a := Dispatch(executors, name, params, w.validate);
      var taskId, known := "", false;
      taskId, known, during := Act(a, w);
      ReplyIsValid(id, a, w, taskId, known);
      f := Reply(id, a, w, taskId, known);
      forall lease | Runnable(executors, name, params, w.validate, lease)
        ensures Carried(params, lease, w, during, TaskId(s.counter + 1), s, View())
      {
        PhaseDecides(executors, s, name, params, lease, w, during);
      }
      forall task | Cancels(name, params, task) ensures Marked(task, s, View()) {
        CancelMarks(executors, s, name, params, task, w, during);
      }
    }

    method Act(a: Result<Action, int>, w: World)
      returns (taskId: string, known: bool, ghost during: seq<Watchdog.Event>)
      requires Inv(View())
      modifies this, watchdog
      ensures a.Ok? && a.value.Execute? ==> taskId == TaskId(old(counter) + 1)
      ensures a.Ok? && a.value.CancelTask? ==> (known <==> a.value.taskId.Some? && a.value.taskId.value in old(tasks))
      ensures var events := EventsOf(old(counter), a, w, during);
              AllEnabled(old(View()), events) && View() == After(old(View()), events)
      ensures Inv(View())
    {
      taskId, known, during := "", false, [];
      match a
      case Ok(Execute(lease, inject)) =>
        taskId, during := TaskExecute(lease, inject, w);
      case Ok(CancelTask(id)) =>
        if id.Some? {
          Extend(View(), [], Cancel(id.value));
          assert [] + [Cancel(id.value)] == [Cancel(id.value)];
        }
        known := TaskCancel(id);
      case _ =>
    }

    /** The runner's turns while the loop waits for input. */
    method Idle(ticks: seq<Tick>) returns (ghost idle: seq<Watchdog.Event>)
      requires Inv(View())
      modifies watchdog
      ensures AllEnabled(old(View()), Sweeps(idle)) && View() == After(old(View()), Sweeps(idle)) && Inv(View())
    {
      idle := Await(ticks, View(), []);
      assert [] + Sweeps(idle) == Sweeps(idle);
    }

    /** `serve`: the lines are answered in order until the end of input or the first
        unreadable line, and the watchdog's runner goes on while the loop waits. */
    method Serve(lines: seq<Line>, world: nat -> World)
      returns (written: seq<Frame>, ghost t: seq<Exchange>, ghost last: seq<Watchdog.Event>)
      requires Inv(View())
      modifies this, watchdog
      ensures ServedUpTo(executors, lines, world, old(View()), t) && written == Written(t, |t|)
      ensures var s := StateAt(old(View()), t, |t|); AllEnabled(s, Sweeps(last)) && View() == After(s, Sweeps(last))
      ensures Inv(View())
    {
      ghost var s := View();
      var served := 0;
      written, t := [], [];
      last := Idle(world(0).idle);
      while served < |lines| && !lines[served].Unreadable?
        invariant served <= |lines| && |t| == served
        invariant Served(executors, lines, world, s, t, served) && written == Written(t, served)
        invariant AllEnabled(StateAt(s, t, served), Sweeps(last)) &&
                  View() == After(StateAt(s, t, served), Sweeps(last))
        invariant Inv(View())
      {
        var reply, x := ServeLine(lines[served], world(served), StateAt(s, t, served), last);
        ServedNext(executors, lines, world, s, t, x);
        written, served, t := written + reply, served + 1, t + [x];
        last := Idle(world(served).idle);
      }
    }

    /** `_serve_line`, on the session the runner left. */
    method ServeLine(line: Line, w: World, ghost s: State, ghost idle: seq<Watchdog.Event>)
      returns (reply: seq<Frame>, ghost x: Exchange)
      requires Inv(View()) && !line.Unreadable?
      requires AllEnabled(s, Sweeps(idle)) && View() == After(s, Sweeps(idle))
      modifies this, watchdog
      ensures LineServed(executors, line, w, s, x) && x.answer == reply && x.after == View()
      ensures Inv(View())
    {
      ghost var during: seq<Watchdog.Event> := [];
      var frame := DecodeLine(line);
      match frame {
        case Err(code) => reply := [ErrorResponse(None, code, "bad frame")];
        case Ok(Request(id, name, params)) =>
          var f;
          f, during := Handle(id, name, params, w);
          reply := [f];
        case Ok(_) => reply := [];
      }
      x := Exchange(idle, during, reply, View());
    }
  }
}
