/** The agent-side watchdog.  A sweep lists the leases past their ttl and undoes
    them one by one; every undo is awaited, and other tasks run meanwhile, so the
    state machine below advances from one await to the next. */
module Watchdog {
  type Id = string

  datatype Entry = Entry(deadline: real, taskId: string)

  datatype Final = Expired | Dirty

  /** How an awaited undo ends. */
  datatype Outcome = Undone(ok: bool) | Raised

  function FinalOf(o: Outcome): Final { if o == Undone(true) then Expired else Dirty }

  /** A sweep in progress: the entry being compensated, the ids still to come, and
      what was registered since the sweep took its list. */
  datatype Sweep = Idle | Sweeping(now: real, id: Id, entry: Entry, pending: seq<Id>, renewed: map<Id, Entry>)

  /** One undo that was started, and what had been registered by then. */
  datatype Run = Run(id: Id, entry: Entry, now: real, renewed: map<Id, Entry>)

  datatype Dog = Dog(active: map<Id, Entry>, finals: map<Id, Final>, sweep: Sweep, log: seq<Run>)

  datatype Event =
    | Register(id: Id, entry: Entry)
    | Start(now: real, expired: seq<Id>)
    | Finish(outcome: Outcome)

  function Due(active: map<Id, Entry>, now: real): set<Id> {
    set id | id in active && active[id].deadline <= now
  }

  /** A list of all of `s`, each once: the order a dictionary yields them in. */
  ghost predicate Lists(l: seq<Id>, s: set<Id>) {
    (forall id :: id in l <==> id in s) && forall i, j | 0 <= i < j < |l| :: l[i] != l[j]
  }

  /** A second sweep does not start while one is under way: there is one runner. */
  ghost predicate Enabled(d: Dog, e: Event) {
    match e
    case Register(_, _) => true
    case Start(now, expired) => d.sweep.Idle? && Lists(expired, Due(d.active, now))
    case Finish(_) => d.sweep.Sweeping?
  }

  /** Up to the next await: pop the next pending entry and start its undo. */
  function PopNext(active: map<Id, Entry>, finals: map<Id, Final>, log: seq<Run>, now: real, pending: seq<Id>,
      renewed: map<Id, Entry>): Dog
  {
    if pending == [] || pending[0] !in active then Dog(active, finals, Idle, log)
    else
      var id := pending[0];
      Dog(active - {id}, finals, Sweeping(now, id, active[id], pending[1..], renewed),
          log + [Run(id, active[id], now, renewed)])
  }

  function Next(d: Dog, e: Event): Dog {
    match e
    case Register(id, entry) =>
      d.(active := d.active[id := entry],
         sweep := if d.sweep.Sweeping? then d.sweep.(renewed := d.sweep.renewed[id := entry]) else d.sweep)
    case Start(now, expired) => PopNext(d.active, d.finals, d.log, now, expired, map[])
    case Finish(outcome) =>
      if d.sweep.Idle? then d
      else PopNext(d.active, d.finals[d.sweep.id := FinalOf(outcome)], d.log, d.sweep.now, d.sweep.pending,
          d.sweep.renewed)
  }

  function After(d: Dog, events: seq<Event>): Dog
    decreases |events|
  {
    if events == [] then d else Next(After(d, events[..|events| - 1]), events[|events| - 1])
  }

  ghost predicate AllEnabled(d: Dog, events: seq<Event>)
    decreases |events|
  {
    events != [] ==>
      && AllEnabled(d, events[..|events| - 1])
      && Enabled(After(d, events[..|events| - 1]), events[|events| - 1])
  }

  // ---------------------------------------------------------------------------
  // What every interleaving keeps

  /** The pending ids are distinct and still registered; the ones nobody registered
      again are due. */
  ghost predicate PendingInv(active: map<Id, Entry>, now: real, pending: seq<Id>, renewed: map<Id, Entry>) {
    && (forall i, j | 0 <= i < j < |pending| :: pending[i] != pending[j])
    && forall id | id in pending ::
         && id in active
         && if id in renewed then active[id] == renewed[id] else active[id].deadline <= now
  }

  ghost predicate Inv(d: Dog) {
    && (d.sweep.Sweeping? ==>
          PendingInv(d.active, d.sweep.now, d.sweep.pending, d.sweep.renewed) && d.sweep.id !in d.sweep.pending)
    && forall r | r in d.log :: EarlyOnlyIfReplaced(r)
  }

  /** By the sweep's clock, which is taken once when it starts: an undo runs before its
      entry's deadline exactly when its id was registered again, with a deadline after
      that clock, while it was pending. */
  ghost predicate EarlyOnlyIfReplaced(r: Run) {
    r.entry.deadline > r.now <==> r.id in r.renewed && r.renewed[r.id].deadline > r.now
  }

  /** Every id the watchdog answers for. */
  function Tracked(d: Dog): set<Id> {
    d.active.Keys + d.finals.Keys + if d.sweep.Sweeping? then {d.sweep.id} else {}
  }

  function Registered(events: seq<Event>): set<Id> {
    set e | e in events && e.Register? :: e.id
  }

  lemma PopNextKeeps(active: map<Id, Entry>, finals: map<Id, Final>, log: seq<Run>, now: real, pending: seq<Id>,
      renewed: map<Id, Entry>)
    requires PendingInv(active, now, pending, renewed) && forall r | r in log :: EarlyOnlyIfReplaced(r)
    ensures var d := PopNext(active, finals, log, now, pending, renewed);
            && Inv(d) && Tracked(d) == active.Keys + finals.Keys
            && (d.sweep.Idle? <==> pending == [])
  {
    if pending != [] {
      assert pending[0] in pending;
      assert forall id | id in pending[1..] :: id in pending && id != pending[0];
    }
  }

  lemma NextKeeps(d: Dog, e: Event)
    requires Inv(d) && Enabled(d, e)
    ensures Inv(Next(d, e))
    ensures Tracked(Next(d, e)) == Tracked(d) + if e.Register? then {e.id} else {}
  {
    match e
    case Register(_, _) =>
    case Start(now, expired) =>
      PopNextKeeps(d.active, d.finals, d.log, now, expired, map[]);
    case Finish(outcome) =>
      PopNextKeeps(d.active, d.finals[d.sweep.id := FinalOf(outcome)], d.log, d.sweep.now, d.sweep.pending,
          d.sweep.renewed);
  }

  lemma RegisteredNext(events: seq<Event>, e: Event)
    ensures Registered(events + [e]) == Registered(events) + if e.Register? then {e.id} else {}
  {
    assert e in events + [e];
    forall x | x in events ensures x in events + [e] {}
  }

  /** Conservation: through any interleaving of registrations with the steps of
      sweeps, every registered id is active, being compensated, or final, and nothing
      else is; and by the clock its sweep took when it started, no undo runs early unless
      its id was registered again in time. */
  lemma {:induction false} Conservation(d: Dog, events: seq<Event>)
    requires Inv(d) && AllEnabled(d, events)
    ensures Inv(After(d, events))
    ensures Tracked(After(d, events)) == Tracked(d) + Registered(events)
    decreases |events|
  {
    if events != [] {
      var init, last := events[..|events| - 1], events[|events| - 1];
      Conservation(d, init);
      NextKeeps(After(d, init), last);
      RegisteredNext(init, last);
      assert events == init + [last];
    }
  }

  /** The early undo does happen: `b` is renewed while `a` is being undone, and is
      then undone at once. */
  lemma RenewedWhilePending(early: real, late: real)
    requires early < late
    ensures var d := Dog(map["a" := Entry(early, ""), "b" := Entry(early, "")], map[], Idle, []);
            var events := [Start(early, ["a", "b"]), Register("b", Entry(late, "")), Finish(Undone(true))];
            && AllEnabled(d, events)
            && After(d, events).log == [Run("a", Entry(early, ""), early, map[]),
                                        Run("b", Entry(late, ""), early, map["b" := Entry(late, "")])]
  {
    var d := Dog(map["a" := Entry(early, ""), "b" := Entry(early, "")], map[], Idle, []);
    var e0, e1, e2 := Start(early, ["a", "b"]), Register("b", Entry(late, "")), Finish(Undone(true));
    assert [e0, e1, e2][..2] == [e0, e1] && [e0, e1][..1] == [e0] && [e0][..0] == [];
    var empty: seq<Event> := [];
    assert After(d, empty) == d;
    assert After(d, [e0]) == Next(d, e0);
    assert After(d, [e0, e1]) == Next(Next(d, e0), e1);
    assert After(d, [e0, e1, e2]) == Next(Next(Next(d, e0), e1), e2);
    assert ["a", "b"][1..] == ["b"];
    assert Enabled(d, e0);
    assert AllEnabled(d, empty);
    assert AllEnabled(d, [e0]);
    assert AllEnabled(d, [e0, e1]);
  }

  // ---------------------------------------------------------------------------
  // A sweep nobody interrupts

  function Finishes(d: Dog, outcomes: seq<Outcome>): Dog
    decreases |outcomes|
  {
    if outcomes == [] then d else Finishes(Next(d, Finish(outcomes[0])), outcomes[1..])
  }

  function FinalsOf(ids: seq<Id>, outcomes: seq<Outcome>): map<Id, Final>
    requires |ids| == |outcomes|
  {
    if ids == [] then map[] else FinalsOf(ids[1..], outcomes[1..])[ids[0] := FinalOf(outcomes[0])]
  }

  function RunsOf(active: map<Id, Entry>, now: real, ids: seq<Id>): seq<Run>
    requires forall id | id in ids :: id in active
  {
    seq(|ids|, i requires 0 <= i < |ids| => assert ids[i] in ids; Run(ids[i], active[ids[i]], now, map[]))
  }

  lemma {:induction false} SweepOut(active: map<Id, Entry>, finals: map<Id, Final>, log: seq<Run>, now: real,
      pending: seq<Id>, outcomes: seq<Outcome>)
    requires PendingInv(active, now, pending, map[]) && |outcomes| == |pending|
    ensures Finishes(PopNext(active, finals, log, now, pending, map[]), outcomes) ==
            Dog(active - (set id | id in pending), finals + FinalsOf(pending, outcomes), Idle,
                log + RunsOf(active, now, pending))
    decreases |pending|
  {
    if pending == [] {
      assert active - (set id | id in pending) == active;
    } else {
      var id, rest := pending[0], pending[1..];
      FirstOut(active, finals, log, now, pending, outcomes);
      SweepOut(active - {id}, finals[id := FinalOf(outcomes[0])], log + [Run(id, active[id], now, map[])], now, rest,
          outcomes[1..]);
    }
  }

  /** Taking out the first entry and then the rest is taking them all out. */
  lemma FirstOut(active: map<Id, Entry>, finals: map<Id, Final>, log: seq<Run>, now: real, pending: seq<Id>,
      outcomes: seq<Outcome>)
    requires PendingInv(active, now, pending, map[]) && |outcomes| == |pending| > 0
    ensures PendingInv(active - {pending[0]}, now, pending[1..], map[])
    ensures active - {pending[0]} - (set x | x in pending[1..]) == active - (set x | x in pending)
    ensures finals[pending[0] := FinalOf(outcomes[0])] + FinalsOf(pending[1..], outcomes[1..]) ==
            finals + FinalsOf(pending, outcomes)
    ensures log + [Run(pending[0], active[pending[0]], now, map[])] +
            RunsOf(active - {pending[0]}, now, pending[1..]) ==
            log + RunsOf(active, now, pending)
  {
    FirstEntryOut(active, now, pending);
    FirstFinal(finals, pending, outcomes);
    RunsFirst(active, now, pending);
  }

  lemma FirstEntryOut(active: map<Id, Entry>, now: real, pending: seq<Id>)
    requires PendingInv(active, now, pending, map[]) && pending != []
    ensures pending[0] !in pending[1..] && PendingInv(active - {pending[0]}, now, pending[1..], map[])
    ensures active - {pending[0]} - (set x | x in pending[1..]) == active - (set x | x in pending)
  {
    assert pending == [pending[0]] + pending[1..];
    assert forall x | x in pending[1..] :: x in pending && x != pending[0];
  }

  lemma FirstFinal(finals: map<Id, Final>, pending: seq<Id>, outcomes: seq<Outcome>)
    requires |outcomes| == |pending| > 0 && pending[0] !in pending[1..]
    ensures finals[pending[0] := FinalOf(outcomes[0])] + FinalsOf(pending[1..], outcomes[1..]) ==
            finals + FinalsOf(pending, outcomes)
  {
    NotAmong(pending[1..], outcomes[1..], pending[0]);
  }

  lemma RunsFirst(active: map<Id, Entry>, now: real, ids: seq<Id>)
    requires ids != [] && forall id | id in ids :: id in active
    requires ids[0] !in ids[1..]
    ensures forall id | id in ids[1..] :: id in active - {ids[0]}
    ensures RunsOf(active, now, ids) == [Run(ids[0], active[ids[0]], now, map[])] +
            RunsOf(active - {ids[0]}, now, ids[1..])
  {
    assert forall id | id in ids[1..] :: id in ids && id != ids[0];
  }

  lemma {:induction false} NotAmong(ids: seq<Id>, outcomes: seq<Outcome>, id: Id)
    requires |ids| == |outcomes|
    ensures id in FinalsOf(ids, outcomes) <==> id in ids
  {
    if ids != [] {
      NotAmong(ids[1..], outcomes[1..], id);
    }
  }

  /** Each id is filed by its own outcome. */
  lemma {:induction false} FinalAt(ids: seq<Id>, outcomes: seq<Outcome>, i: nat)
    requires i < |ids| == |outcomes| && forall j, k | 0 <= j < k < |ids| :: ids[j] != ids[k]
    ensures ids[i] in FinalsOf(ids, outcomes) && FinalsOf(ids, outcomes)[ids[i]] == FinalOf(outcomes[i])
  {
    if i > 0 {
      FinalAt(ids[1..], outcomes[1..], i - 1);
    }
  }

  /** An uninterrupted sweep leaves exactly the entries whose deadline is after the
      clock, undoes every other one exactly once, and files each as expired when its
      undo returned ok and as dirty otherwise. */
  lemma UninterruptedSweep(d: Dog, now: real, expired: seq<Id>, outcomes: seq<Outcome>)
    requires Enabled(d, Start(now, expired)) && |outcomes| == |expired|
    ensures forall id | id in expired :: id in d.active
    ensures var d' := Finishes(Next(d, Start(now, expired)), outcomes);
            && d'.sweep.Idle?
            && d'.active == (map id | id in d.active && d.active[id].deadline > now :: d.active[id])
            && d'.finals == d.finals + FinalsOf(expired, outcomes)
            && d'.log == d.log + RunsOf(d.active, now, expired)
    ensures FinalsOf(expired, outcomes).Keys == Due(d.active, now)
  {
    SweepOut(d.active, d.finals, d.log, now, expired, outcomes);
    forall id ensures id in FinalsOf(expired, outcomes) <==> id in Due(d.active, now) {
      NotAmong(expired, outcomes, id);
    }
    assert d.active - (set id | id in expired) ==
           map id | id in d.active && d.active[id].deadline > now :: d.active[id];
  }

  // ---------------------------------------------------------------------------
  // The watchdog itself

  /** What the event loop does during one awaited undo: other tasks register leases,
      then the undo ends. */
  datatype Turn = Turn(registrations: seq<(Id, Entry)>, outcome: Outcome)

  function Registers(rs: seq<(Id, Entry)>): seq<Event> {
    seq(|rs|, i requires 0 <= i < |rs| => Register(rs[i].0, rs[i].1))
  }

  function Turns(world: nat -> Turn, n: nat): seq<Event> {
    if n == 0 then [] else Turns(world, n - 1) + Registers(world(n - 1).registrations) + [Finish(world(n - 1).outcome)]
  }

  lemma TurnsNext(first: Event, world: nat -> Turn, k: nat)
    ensures [first] + Turns(world, k) + Registers(world(k).registrations) + [Finish(world(k).outcome)] ==
            [first] + Turns(world, k + 1)
  {
  }

  function SweepEvents(now: real, expired: seq<Id>, world: nat -> Turn): seq<Event> {
    [Start(now, expired)] + Turns(world, |expired|)
  }

  lemma AfterNext(d: Dog, events: seq<Event>, e: Event)
    ensures After(d, events + [e]) == Next(After(d, events), e)
  {
    assert (events + [e])[..|events|] == events;
  }

  class AgentWatchdog {
    var active: map<Id, Entry>
    var finalStates: map<Id, Final>
    var sweep: Sweep
    ghost var log: seq<Run>

    ghost function View(): Dog
      reads this
    {
      Dog(active, finalStates, sweep, log)
    }

    constructor ()
      ensures View() == Dog(map[], map[], Idle, []) && Inv(View())
    {
      active, finalStates, sweep, log := map[], map[], Idle, [];
    }

    /** `register`: a negative ttl counts as none; the deadline is returned. */
    method RegisterLease(id: Id, ttl: real, now: real, taskId: string) returns (deadline: real)
      modifies this`active, this`sweep
      ensures deadline == now + if ttl < 0.0 then 0.0 else ttl
      ensures View() == Next(old(View()), Register(id, Entry(deadline, taskId)))
    {
      deadline := now + if ttl < 0.0 then 0.0 else ttl;
      Insert(id, Entry(deadline, taskId));
    }

    method Insert(id: Id, entry: Entry)
      modifies this`active, this`sweep
      ensures View() == Next(old(View()), Register(id, entry))
    {
      active := active[id := entry];
      if sweep.Sweeping? {
        sweep := sweep.(renewed := sweep.renewed[id := entry]);
      }
    }

    /** The list a sweep starts from. */
    method Listing(now: real) returns (expired: seq<Id>)
      ensures Lists(expired, Due(active, now))
    {
      expired := [];
      var rest := active.Keys;
      while rest != {}
        invariant rest <= active.Keys && Lists(expired, Due(active, now) - rest)
        decreases |rest|
      {
        var id :| id in rest;
        rest := rest - {id};
        if active[id].deadline <= now {
          expired := expired + [id];
        }
      }
      assert Due(active, now) - rest == Due(active, now);
    }

    method Pop(now: real, pending: seq<Id>, renewed: map<Id, Entry>)
      modifies this
      ensures View() == PopNext(old(active), old(finalStates), old(log), now, pending, renewed)
    {
      if pending == [] || pending[0] !in active {
        sweep := Idle;
      } else {
        var id := pending[0];
        sweep := Sweeping(now, id, active[id], pending[1..], renewed);
        log := log + [Run(id, active[id], now, renewed)];
        active := active - {id};
      }
    }

    /** One segment of the runner, from one await to the next: a sweep under way gets the
        outcome of its undo and goes on, and otherwise a new sweep starts. */
    method Tick(now: real, outcome: Outcome) returns (ghost e: Event)
      requires Inv(View())
      modifies this
      ensures !e.Register? && Enabled(old(View()), e) && View() == Next(old(View()), e)
      ensures Inv(View())
    {
      if sweep.Sweeping? {
        e := Finish(outcome);
        NextKeeps(View(), e);
        finalStates := finalStates[sweep.id := FinalOf(outcome)];
        Pop(sweep.now, sweep.pending, sweep.renewed);
      } else {
        var expired := Listing(now);
        e := Start(now, expired);
        NextKeeps(View(), e);
        Pop(now, expired, map[]);
      }
    }

    /** The registrations that land during one await. */
    method Await(rs: seq<(Id, Entry)>, ghost d: Dog, ghost events: seq<Event>)
      requires View() == After(d, events) && Inv(View()) && sweep.Sweeping?
      modifies this`active, this`sweep
      ensures View() == After(d, events + Registers(rs)) && Inv(View())
      ensures sweep.Sweeping? && sweep.now == old(sweep.now) && sweep.id == old(sweep.id) &&
              sweep.pending == old(sweep.pending)
    {
      assert events + Registers(rs[..0]) == events;
      for i := 0 to |rs|
        invariant View() == After(d, events + Registers(rs[..i])) && Inv(View())
        invariant sweep.Sweeping? && sweep.now == old(sweep.now) && sweep.id == old(sweep.id) &&
                  sweep.pending == old(sweep.pending)
      {
        var e := Register(rs[i].0, rs[i].1);
        assert events + Registers(rs[..i + 1]) == events + Registers(rs[..i]) + [e];
        AfterNext(d, events + Registers(rs[..i]), e);
        NextKeeps(View(), e);
        Insert(rs[i].0, rs[i].1);
      }
      assert rs[..|rs|] == rs;
    }

    /** Between two turns of the loop of `sweep`: the watchdog is where `events` take
        `d`, but for the next pop. */
    ghost predicate Midsweep(d: Dog, events: seq<Event>, now: real, pending: seq<Id>, renewed: map<Id, Entry>)
      reads this
    {
      && PendingInv(active, now, pending, renewed)
      && (forall r | r in log :: EarlyOnlyIfReplaced(r))
      && After(d, events) == PopNext(active, finalStates, log, now, pending, renewed)
    }

    /** One turn of the loop of `sweep`: pop, await the undo, file its outcome. */
    method CompensateNext(now: real, pending: seq<Id>, renewed: map<Id, Entry>, turn: Turn, ghost d: Dog,
        ghost events: seq<Event>)
      returns (renewed': map<Id, Entry>)
      requires pending != [] && Midsweep(d, events, now, pending, renewed)
      modifies this
      ensures Midsweep(d, events + Registers(turn.registrations) + [Finish(turn.outcome)], now, pending[1..], renewed')
    {
      PopNextKeeps(active, finalStates, log, now, pending, renewed);
      Pop(now, pending, renewed);
      Await(turn.registrations, d, events);
      AfterNext(d, events + Registers(turn.registrations), Finish(turn.outcome));
      finalStates := finalStates[sweep.id := FinalOf(turn.outcome)];
      renewed' := sweep.renewed;
    }

    /** `sweep`, with whatever the event loop interleaves at each undo. */
    method SweepLeases(now: real, world: nat -> Turn) returns (expired: seq<Id>)
      requires Inv(View()) && sweep.Idle?
      modifies this
      ensures Lists(expired, Due(old(active), now))
      ensures View() == After(old(View()), SweepEvents(now, expired, world))
      ensures Inv(View()) && sweep.Idle?
    {
      ghost var d := View();
      expired := Listing(now);
      ghost var first := Start(now, expired);
      var renewed: map<Id, Entry> := map[];
      AfterNext(d, [], first);
      for k := 0 to |expired|
        invariant Midsweep(d, [first] + Turns(world, k), now, expired[k..], renewed)
      {
        renewed := CompensateNext(now, expired[k..], renewed, world(k), d, [first] + Turns(world, k));
        TurnsNext(first, world, k);
        assert expired[k..][1..] == expired[k + 1..];
      }
      sweep := Idle;
    }
  }
}
