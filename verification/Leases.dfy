/** Fault leases and the only way an agent touches them: the lease state machine,
    the in-memory sink and the lease client. */
module Leases {
  import opened Outcomes
  import opened Numerals

  datatype State = Pending | Active | Releasing | Released | Expired | Orphaned | Dirty

  predicate CanTransition(from: State, to: State) {
    match from
    case Pending => to in {Active, Expired}
    case Active => to in {Releasing, Expired, Orphaned}
    case Orphaned => to == Releasing
    case Releasing => to in {Released, Dirty}
    case Dirty => to == Expired
    case Released => false
    case Expired => false
  }

  datatype Lease = Lease(
    id: string, targets: set<string>, createdAt: real, ttl: real, state: State,
    hasUndo: bool, hasProbes: bool, notes: string,
    injectedAt: Option<real>, releasedAt: Option<real>, mechanism: Option<string>, epoch: int)
  {
    predicate SafeTerminal() { state in {Released, Expired} }

    function Deadline(): real { createdAt + ttl }

    /** The validator every construction and every transition goes through. */
    predicate Invariants() {
      && (state == Active ==> hasUndo)
      && (state in {Active, Releasing} ==> hasProbes)
      && (state == Dirty ==> notes != "")
      && (injectedAt.Some? ==> createdAt <= injectedAt.value)
      && (releasedAt.Some? ==> SafeTerminal())
    }

    predicate Holds(wanted: set<string>) { !SafeTerminal() && targets * wanted != {} }
  }

  datatype LeaseError = Conflict(holders: set<string>) | InvalidLease | InvalidTransition | InvariantViolation
      | UnknownLease

  function Transition(l: Lease, to: State, mechanism: Option<string>, notes: Option<string>, now: real)
    : Result<Lease, LeaseError>
  {
    if !CanTransition(l.state, to) then Err(InvalidTransition)
    else
      var next := l.(state := to,
                     injectedAt := if to == Active then Some(now) else l.injectedAt,
                     epoch := if to == Active then l.epoch + 1 else l.epoch,
                     releasedAt := if to in {Released, Expired} then Some(now) else l.releasedAt,
                     mechanism := if mechanism.Some? then mechanism else l.mechanism,
                     notes := if notes.Some? then notes.value else l.notes);
      if next.Invariants() then Ok(next) else Err(InvariantViolation)
  }

  // ---------------------------------------------------------------------------
  // Ids

  const ID_WIDTH := 8

  function LeaseId(n: nat): string { "l-" + Padded(n, ID_WIDTH) }

  /** The sequence number the sink reads in an id, if it reads one. */
  function Sequence(id: string): Option<int> {
    if |id| >= 2 && id[..2] == "l-" then ParseInt(id[2..]) else None
  }

  /** `_lease_id` and the sink's parser are inverse, beyond eight digits too. */
  lemma SequenceOfLeaseId(n: nat)
    ensures Sequence(LeaseId(n)) == Some(n)
  {
    PaddedRoundTrip(n, ID_WIDTH);
    assert LeaseId(n)[2..] == Padded(n, ID_WIDTH);
  }

  type Store = map<string, Lease>

  /** No stored id reads as a number beyond `bound`. */
  predicate BoundedBy(s: Store, bound: int) {
    forall id | id in s && Sequence(id).Some? :: Sequence(id).value <= bound
  }

  /** The id after a bound on the sink is free, whatever other ids are stored. */
  lemma NextIdIsFresh(s: Store, bound: nat)
    requires BoundedBy(s, bound)
    ensures LeaseId(bound + 1) !in s
  {
    SequenceOfLeaseId(bound + 1);
  }

  // ---------------------------------------------------------------------------
  // Acquiring, on values

  /** `reaped(id)`: the sink accepts the reap of that lease. */
  datatype Request = Request(
    targets: set<string>, ttl: real, hasUndo: bool, hasProbes: bool, createdAt: real, now: real, reaped: string -> bool)

  function NewLease(n: nat, q: Request): Lease {
    Lease(LeaseId(n), q.targets, q.createdAt, q.ttl, Pending, q.hasUndo, q.hasProbes, "", None, None, None, 0)
  }

  function Overlap(s: Store, wanted: set<string>): set<string> {
    set id | id in s && s[id].Holds(wanted)
  }

  /** Best effort: a lease that may not expire, or whose reap the sink refuses, stays. */
  function ExpireQuietly(l: Lease, now: real, saved: bool): Lease {
    match Transition(l, Expired, Some("past-ttl"), None, now)
    case Ok(expired) => if saved then expired else l
    case Err(_) => l
  }

  function Reaped(l: Lease, id: string, q: Request): Lease {
    if l.Holds(q.targets) && l.Deadline() < q.now then ExpireQuietly(l, q.now, q.reaped(id)) else l
  }

  function Reap(s: Store, q: Request): Store {
    map id | id in s :: Reaped(s[id], id, q)
  }

  function Holders(s: Store, q: Request): set<string> {
    set id | id in s && s[id].Holds(q.targets) && !(s[id].Deadline() < q.now)
  }

  /** The store and the answer after `acquire` by a client whose counter is at `sequence`. */
  function Acquire(s: Store, sequence: nat, q: Request): (Store, Result<Lease, LeaseError>) {
    if q.ttl < 0.0 then (s, Err(InvalidLease))
    else if Holders(s, q) != {} then (Reap(s, q), Err(Conflict(Holders(s, q))))
    else
      var lease := NewLease(sequence + 1, q);
      (Reap(s, q)[lease.id := lease], Ok(lease))
  }

  /** `activate` and its siblings. */
  function Move(s: Store, id: string, to: State, mechanism: Option<string>, notes: Option<string>, now: real)
    : (Store, Result<Lease, LeaseError>)
  {
    if id !in s then (s, Err(UnknownLease))
    else match Transition(s[id], to, mechanism, notes, now)
         case Err(e) => (s, Err(e))
         case Ok(l) => (s[l.id := l], Ok(l))
  }

  // ---------------------------------------------------------------------------
  // The sink and the client

  class InMemoryLeaseSink {
    var leases: Store

    /** Leases are filed under their own id. */
    predicate Valid()
      reads this
    {
      Filed(leases)
    }

    constructor ()
      ensures Valid() && leases == map[]
    {
      leases := map[];
    }

    method Save(lease: Lease)
      modifies this
      ensures leases == old(leases)[lease.id := lease]
    {
      leases := leases[lease.id := lease];
    }

    method Load(id: string) returns (r: Option<Lease>)
      ensures r == if id in leases then Some(leases[id]) else None
    {
      r := if id in leases then Some(leases[id]) else None;
    }

    /** The high-water mark: the least bound on the sequences stored. */
    method NextSequence() returns (highest: nat)
      ensures BoundedBy(leases, highest)
      ensures highest == 0 || exists id | id in leases :: Sequence(id) == Some(highest)
    {
      highest := 0;
      var rest := leases.Keys;
      while rest != {}
        invariant rest <= leases.Keys
        invariant forall id | id in leases && id !in rest && Sequence(id).Some? :: Sequence(id).value <= highest
        invariant highest == 0 || exists id | id in leases :: Sequence(id) == Some(highest)
        decreases |rest|
      {
        var id :| id in rest;
        rest := rest - {id};
        match Sequence(id)
        case None =>
        case Some(n) => if n > highest { highest := n; }
      }
    }
  }

  /** The store with all but `rest` reaped. */
  function ReapExcept(s: Store, q: Request, rest: set<string>): Store {
    map id | id in s :: if id in rest then s[id] else Reaped(s[id], id, q)
  }

  /** All overlapping leases but `rest` are dealt with: `store` was `s`, and `live` are
      the holders met so far. */
  predicate Reaping(s: Store, q: Request, rest: set<string>, store: Store, live: set<string>) {
    rest <= Overlap(s, q.targets) && store == ReapExcept(s, q, rest) && live == Holders(s, q) - rest
  }

  lemma ReapBegins(s: Store, q: Request)
    ensures Reaping(s, q, Overlap(s, q.targets), s, {})
  {
  }

  lemma ReapNext(s: Store, q: Request, rest: set<string>, store: Store, live: set<string>, id: string)
    requires Reaping(s, q, rest, store, live) && id in rest
    ensures id in store && store[id] == s[id]
    ensures Reaping(s, q, rest - {id}, store[id := Reaped(s[id], id, q)],
                    if s[id].Deadline() < q.now then live else live + {id})
  {
    assert ReapExcept(s, q, rest - {id}) == ReapExcept(s, q, rest)[id := Reaped(s[id], id, q)];
  }

  lemma ReapEnds(s: Store, q: Request, store: Store, live: set<string>)
    requires Reaping(s, q, {}, store, live)
    ensures store == Reap(s, q) && live == Holders(s, q)
  {
  }

  predicate Filed(s: Store) { forall id | id in s :: s[id].id == id }

  class LeaseClient {
    const sink: InMemoryLeaseSink
    var sequence: nat

    constructor (sink: InMemoryLeaseSink)
      ensures this.sink == sink && BoundedBy(sink.leases, sequence)
      ensures sequence == 0 || exists id | id in sink.leases :: Sequence(id) == Some(sequence)
    {
      this.sink := sink;
      var highest := sink.NextSequence();
      sequence := highest;
    }

    /** `acquire`: the counter moves on whether or not the lease is granted, and the
        leases past their ttl are reaped whether or not another holder refuses. */
    method AcquireLease(q: Request) returns (r: Result<Lease, LeaseError>)
      requires sink.Valid()
      modifies this`sequence, sink
      ensures sequence == old(sequence) + 1
      ensures (sink.leases, r) == Acquire(old(sink.leases), old(sequence), q)
    {
      sequence := sequence + 1;
      if q.ttl < 0.0 {
        return Err(InvalidLease);
      }
      var lease := NewLease(sequence, q);
      var live := ReapOverlap(q);
      if live != {} {
        return Err(Conflict(live));
      }
      sink.Save(lease);
      return Ok(lease);
    }

    /** The loop of `acquire` over the overlapping leases. */
    method ReapOverlap(q: Request) returns (live: set<string>)
      requires sink.Valid()
      modifies sink
      ensures sink.leases == Reap(old(sink.leases), q) && live == Holders(old(sink.leases), q)
    {
      ghost var s := sink.leases;
      var rest := Overlap(sink.leases, q.targets);
      live := {};
      ReapBegins(s, q);
      while rest != {}
        invariant Reaping(s, q, rest, sink.leases, live)
        decreases |rest|
      {
        var id :| id in rest;
        ReapNext(s, q, rest, sink.leases, live, id);
        live := ReapOne(id, q, live);
        rest := rest - {id};
      }
      ReapEnds(s, q, sink.leases, live);
    }

    method ReapOne(id: string, q: Request, live: set<string>) returns (live': set<string>)
      requires id in sink.leases && sink.leases[id].id == id
      modifies sink
      ensures var existing := old(sink.leases[id]);
              var past := existing.Deadline() < q.now;
              && sink.leases == old(sink.leases)[id := if past then ExpireQuietly(existing, q.now, q.reaped(id))
                  else existing]
              && live' == if past then live else live + {id}
    {
      var existing := sink.leases[id];
      assert sink.leases[id := existing] == sink.leases;
      if existing.Deadline() < q.now {
        ExpireQuietlyInSink(existing, q.now, q.reaped(id));
        return live;
      }
      return live + {id};
    }

    method ExpireQuietlyInSink(lease: Lease, now: real, saved: bool)
      modifies sink
      ensures sink.leases == old(sink.leases)[lease.id := ExpireQuietly(lease, now, saved)] ||
              (ExpireQuietly(lease, now, saved) == lease && sink.leases == old(sink.leases))
    {
      var expired := Transition(lease, Expired, Some("past-ttl"), None, now);
      if expired.Ok? && saved {
        sink.Save(expired.value);
      }
    }

    /** `activate`, `mark_releasing`, `confirm_release`, `mark_dirty`, `mark_orphaned`. */
    method MoveLease(id: string, to: State, mechanism: Option<string>, notes: Option<string>, now: real)
      returns (r: Result<Lease, LeaseError>)
      modifies sink
      ensures (sink.leases, r) == Move(old(sink.leases), id, to, mechanism, notes, now)
    {
      var lease := sink.Load(id);
      if lease.None? {
        return Err(UnknownLease);
      }
      r := Transition(lease.value, to, mechanism, notes, now);
      if r.Ok? {
        sink.Save(r.value);
      }
    }
  }

  // ---------------------------------------------------------------------------
  // What an acquire does

  /** One overlapping lease past its deadline. */
  lemma ExpiresExactly(l: Lease, now: real, saved: bool)
    requires l.Invariants()
    ensures ExpireQuietly(l, now, saved) ==
            if saved && l.state in {Pending, Active, Dirty} then
              l.(state := Expired, releasedAt := Some(now), mechanism := Some("past-ttl"))
            else l
  {
  }

  /** A stored lease after an acquire: one that holds a wanted target past its deadline is
      reaped exactly when the sink accepts that and it was pending, active or dirty,
      and every other one is as it was. */
  lemma ReapedExactly(s: Store, sequence: nat, q: Request, id: string)
    requires BoundedBy(s, sequence) && q.ttl >= 0.0
    requires id in s && s[id].Invariants()
    ensures var (s', _) := Acquire(s, sequence, q);
            && id in s'
            && s'[id] ==
               if Wants(s[id], q) && s[id].createdAt + s[id].ttl < q.now && q.reaped(id) &&
                   s[id].state in {Pending, Active, Dirty} then
                 s[id].(state := Expired, releasedAt := Some(q.now), mechanism := Some("past-ttl"))
               else s[id]
  {
    NextIdIsFresh(s, sequence);
    ExpiresExactly(s[id], q.now, q.reaped(id));
    HoldsExactly(s[id], q);
    hide Transition;
  }

  /** A lease that is neither released nor expired, and has a target asked for. */
  predicate Wants(l: Lease, q: Request) {
    l.state !in {Released, Expired} && exists x | x in l.targets :: x in q.targets
  }

  /** ... and has not passed its deadline. */
  predicate InTheWay(l: Lease, q: Request) { Wants(l, q) && q.now <= l.createdAt + l.ttl }

  lemma HoldsExactly(l: Lease, q: Request)
    ensures l.Holds(q.targets) <==> Wants(l, q)
  {
    assert forall x :: x in l.targets * q.targets <==> x in l.targets && x in q.targets;
  }

  lemma HoldersExactly(s: Store, q: Request)
    ensures Holders(s, q) == set id | id in s && InTheWay(s[id], q)
  {
    forall id | id in s { HoldsExactly(s[id], q); }
  }

  /** The answer: granted exactly when no live lease within its ttl has a wanted target,
      and else refused with the ids of all that do.  What is granted is a new pending lease,
      on the terms asked for and under the next id, and it is stored.  A negative ttl is
      refused before anything is reaped. */
  lemma GrantedExactly(s: Store, sequence: nat, q: Request)
    ensures q.ttl < 0.0 ==> Acquire(s, sequence, q) == (s, Err(InvalidLease))
    ensures var (s', r) := Acquire(s, sequence, q);
            && (r.Ok? <==> q.ttl >= 0.0 && forall id | id in s :: !InTheWay(s[id], q))
            && (r.Err? && q.ttl >= 0.0 ==>
                  r.error == Conflict(set id | id in s && InTheWay(s[id], q)) && s'.Keys == s.Keys)
            && (r.Ok? ==>
                  && r.value.id == "l-" + Padded(sequence + 1, 8) && r.value.id in s' && s'[r.value.id] == r.value
                  && r.value.state == Pending && r.value.targets == q.targets
                  && r.value.createdAt == q.createdAt && r.value.ttl == q.ttl
                  && r.value.hasUndo == q.hasUndo && r.value.hasProbes == q.hasProbes && r.value.Invariants()
                  && r.value.injectedAt == r.value.releasedAt == None && r.value.mechanism.None?
                  && r.value.notes == "" && r.value.epoch == 0)
  {
    HoldersExactly(s, q);
    if exists id :: id in s && InTheWay(s[id], q) {
      var id :| id in s && InTheWay(s[id], q);
      assert id in Holders(s, q);
    }
  }

  /** The life of a lease: which moves a valid lease can make, table and validator
      together, and what each leaves on record. */
  lemma MovesExactly(l: Lease, to: State, mechanism: Option<string>, notes: Option<string>, now: real)
    requires l.Invariants()
    ensures var r := Transition(l, to, mechanism, notes, now);
            && (r.Ok? <==>
                  match to
                  case Pending => false
                  case Active => l.state == Pending && l.hasUndo && l.hasProbes && l.createdAt <= now
                  case Releasing => l.state in {Active, Orphaned} && l.hasProbes
                  case Released => l.state == Releasing
                  case Expired => l.state in {Pending, Active, Dirty}
                  case Orphaned => l.state == Active
                  case Dirty => l.state == Releasing && notes != Some("") && (notes.Some? || l.notes != ""))
            && (r.Ok? ==>
                  && r.value.injectedAt == (if to == Active then Some(now) else l.injectedAt)
                  && r.value.epoch == l.epoch + (if to == Active then 1 else 0)
                  && r.value.releasedAt == (if to == Released || to == Expired then Some(now) else None)
                  && r.value.mechanism == (if mechanism.Some? then mechanism else l.mechanism)
                  && r.value.notes == (if notes.Some? then notes.value else l.notes))
  {
  }

  /** A move is stored when it is one the lease can make, and changes nothing else. */
  lemma MoveStored(s: Store, id: string, to: State, mechanism: Option<string>, notes: Option<string>, now: real)
    requires Filed(s)
    ensures var (s', r) := Move(s, id, to, mechanism, notes, now);
            && (r.Ok? <==> id in s && Transition(s[id], to, mechanism, notes, now).Ok?)
            && (r.Err? ==> s' == s && (r.error == UnknownLease <==> id !in s))
            && (r.Ok? ==> r.value.id == id && r.value.state == to && s' == s[id := r.value])
  {
    if id in s {
      TransitionKeeps(s[id], to, mechanism, notes, now);
    }
  }

  // ---------------------------------------------------------------------------
  // Runs: any chain of clients, one after another, on one sink

  datatype Step =
    | NewClient
    | AcquireStep(q: Request)
    | MoveStep(id: string, to: State, mechanism: Option<string>, notes: Option<string>, at: real)

  /** `acquired` remembers when each lease was granted. */
  datatype World = World(store: Store, acquired: map<string, real>, sequence: nat, clock: real)

  /** The clock never runs backwards, and a new client takes its counter from the sink. */
  ghost predicate Next(w: World, step: Step, w': World) {
    match step
    case NewClient =>
      && w'.store == w.store && w'.acquired == w.acquired && w'.clock == w.clock
      && BoundedBy(w.store, w'.sequence)
      && (w'.sequence == 0 || exists id | id in w.store :: Sequence(id) == Some(w'.sequence))
    case AcquireStep(q) =>
      && w.clock <= q.createdAt <= q.now
      && var (store, r) := Acquire(w.store, w.sequence, q);
         && w' == World(store, if r.Ok? then w.acquired[r.value.id := q.now] else w.acquired, w.sequence + 1, q.now)
    case MoveStep(id, to, mechanism, notes, at) =>
      && w.clock <= at
      && w' == w.(store := Move(w.store, id, to, mechanism, notes, at).0, clock := at)
  }

  /** What every step keeps.  An older lease has a smaller sequence number. */
  ghost predicate Inv(w: World) {
    && Filed(w.store)
    && BoundedBy(w.store, w.sequence)
    && (forall id | id in w.store :: Sequence(id).Some? && id in w.acquired && w.acquired[id] <= w.clock)
    && (forall i, j | i in w.store && j in w.store && i != j :: Sequence(i) != Sequence(j))
    && forall i, j | i in w.store && j in w.store && Sequence(i).value < Sequence(j).value :: Exclusive(w, i, j)
  }

  /** Two live leases that share a target: the older one's deadline had passed,
      strictly, when the younger one was granted. */
  ghost predicate Exclusive(w: World, i: string, j: string)
    requires i in w.store && j in w.store && j in w.acquired
  {
    w.store[i].Holds(w.store[j].targets) && !w.store[j].SafeTerminal() ==> w.store[i].Deadline() < w.acquired[j]
  }

  /** A transition moves to its target state or refuses; it never leaves a safe
      terminal, and never touches what mutual exclusion rests on. */
  lemma TransitionKeeps(l: Lease, to: State, mechanism: Option<string>, notes: Option<string>, now: real)
    ensures var r := Transition(l, to, mechanism, notes, now);
            r.Ok? ==>
              && !l.SafeTerminal() && r.value.state == to && r.value.Invariants()
              && r.value.id == l.id && r.value.targets == l.targets
              && r.value.createdAt == l.createdAt && r.value.ttl == l.ttl
  {
  }

  /** The store changes only in lease states, and only away from live ones. */
  ghost predicate OnlyStates(s: Store, s': Store) {
    s'.Keys == s.Keys && forall id | id in s ::
      && s'[id].id == s[id].id && s'[id].targets == s[id].targets && s'[id].Deadline() == s[id].Deadline()
      && (s[id].SafeTerminal() ==> s'[id].SafeTerminal())
  }

  lemma ReapOnlyStates(s: Store, q: Request)
    ensures OnlyStates(s, Reap(s, q))
  {
    forall id | id in s { TransitionKeeps(s[id], Expired, Some("past-ttl"), None, q.now); }
  }

  lemma OnlyStatesKeepsInv(w: World, w': World)
    requires Inv(w) && OnlyStates(w.store, w'.store)
    requires w'.acquired == w.acquired && w'.sequence >= w.sequence && w'.clock >= w.clock
    ensures Inv(w')
  {
    forall i, j | i in w'.store && j in w'.store && Sequence(i).value < Sequence(j).value ensures Exclusive(w', i, j) {
      assert Exclusive(w, i, j);
    }
  }

  /** Adding a fresh lease whose live competitors are all past their deadline. */
  lemma AddKeepsInv(w: World, lease: Lease, w': World)
    requires Inv(w) && w.sequence > 0 && BoundedBy(w.store, w.sequence - 1) && lease.id == LeaseId(w.sequence)
    requires forall i | i in w.store && w.store[i].Holds(lease.targets) :: w.store[i].Deadline() < w.clock
    requires w' == w.(store := w.store[lease.id := lease], acquired := w.acquired[lease.id := w.clock])
    ensures Inv(w')
  {
    SequenceOfLeaseId(w.sequence);
    NextIdIsFresh(w.store, w.sequence - 1);
    forall i, j | i in w'.store && j in w'.store && Sequence(i).value < Sequence(j).value ensures Exclusive(w', i, j) {
      if j != lease.id {
        assert i != lease.id && Exclusive(w, i, j);
      }
    }
  }

  lemma GrantKeepsInv(w: World, q: Request, w': World)
    requires Inv(w) && Next(w, AcquireStep(q), w') && Acquire(w.store, w.sequence, q).1.Ok?
    ensures Inv(w')
  {
    ReapOnlyStates(w.store, q);
    var reaped := w.(store := Reap(w.store, q), sequence := w.sequence + 1, clock := q.now);
    OnlyStatesKeepsInv(w, reaped);
    forall i | i in reaped.store && reaped.store[i].Holds(q.targets) ensures reaped.store[i].Deadline() < q.now {
      assert i !in Holders(w.store, q);
    }
    AddKeepsInv(reaped, NewLease(w.sequence + 1, q), w');
  }

  lemma StepKeepsInv(w: World, step: Step, w': World)
    requires Inv(w) && Next(w, step, w')
    ensures Inv(w')
  {
    match step
    case NewClient =>
      forall i, j | i in w'.store && j in w'.store && Sequence(i).value < Sequence(j).value
          ensures Exclusive(w', i, j) {
        assert Exclusive(w, i, j);
      }
    case AcquireStep(q) =>
      if Acquire(w.store, w.sequence, q).1.Ok? {
        GrantKeepsInv(w, q, w');
      } else {
        ReapOnlyStates(w.store, q);
        OnlyStatesKeepsInv(w, w');
      }
    case MoveStep(id, to, mechanism, notes, at) =>
      if id in w.store {
        TransitionKeeps(w.store[id], to, mechanism, notes, at);
      }
      OnlyStatesKeepsInv(w, w');
  }

  /** Consecutive worlds of a run. */
  ghost predicate IsRun(worlds: seq<World>, steps: seq<Step>) {
    |worlds| == |steps| + 1 && forall k | 0 <= k < |steps| :: Next(worlds[k], steps[k], worlds[k + 1])
  }

  lemma {:induction false} RunKeepsInv(worlds: seq<World>, steps: seq<Step>, k: nat)
    requires IsRun(worlds, steps) && Inv(worlds[0]) && k <= |steps|
    ensures Inv(worlds[k])
  {
    if k > 0 {
      RunKeepsInv(worlds, steps, k - 1);
      StepKeepsInv(worlds[k - 1], steps[k - 1], worlds[k]);
    }
  }

  /** Mutual exclusion over all runs: at any point, and at any instant from then on,
      at most one live lease per target is within its ttl, even when reaps fail. */
  lemma MutualExclusion(worlds: seq<World>, steps: seq<Step>, k: nat, i: string, j: string, now: real)
    requires IsRun(worlds, steps) && Inv(worlds[0]) && k <= |steps|
    requires i in worlds[k].store && j in worlds[k].store && i != j
    requires worlds[k].clock <= now
    requires worlds[k].store[i].Holds(worlds[k].store[j].targets) && !worlds[k].store[j].SafeTerminal()
    ensures worlds[k].store[i].Deadline() < now || worlds[k].store[j].Deadline() < now
  {
    RunKeepsInv(worlds, steps, k);
    OneWithinTtl(worlds[k], i, j, now);
  }

  lemma OneWithinTtl(w: World, i: string, j: string, now: real)
    requires Inv(w) && i in w.store && j in w.store && i != j && w.clock <= now
    requires w.store[i].Holds(w.store[j].targets) && !w.store[j].SafeTerminal()
    ensures w.store[i].Deadline() < now || w.store[j].Deadline() < now
  {
    assert Sequence(i) != Sequence(j);
    if Sequence(i).value < Sequence(j).value {
      assert Exclusive(w, i, j);
    } else {
      assert Exclusive(w, j, i);
    }
  }

  /** ... because the older one's deadline had already passed when the younger one
      was granted. */
  lemma YoungerGrantedAfterDeadline(worlds: seq<World>, steps: seq<Step>, k: nat, older: string, younger: string)
    requires IsRun(worlds, steps) && Inv(worlds[0]) && k <= |steps|
    requires older in worlds[k].store && younger in worlds[k].store
    requires Sequence(older).Some? && Sequence(younger).Some? && Sequence(older).value < Sequence(younger).value
    requires worlds[k].store[older].Holds(worlds[k].store[younger].targets) && !worlds[k].store[younger].SafeTerminal()
    ensures younger in worlds[k].acquired && worlds[k].store[older].Deadline() < worlds[k].acquired[younger]
  {
    RunKeepsInv(worlds, steps, k);
    assert Exclusive(worlds[k], older, younger);
  }

  // ---------------------------------------------------------------------------
  // Freshness

  /** No `acquire`, refused or granted, overwrites a stored lease: every id keeps its
      lease, whose identity and terms never change. */
  lemma AcquireNeverOverwrites(s: Store, sequence: nat, q: Request)
    requires BoundedBy(s, sequence)
    ensures var (s', r) := Acquire(s, sequence, q);
            && s'.Keys == s.Keys + (if r.Ok? then {LeaseId(sequence + 1)} else {})
            && (r.Ok? ==> LeaseId(sequence + 1) !in s)
            && (forall id | id in s :: s'[id].id == s[id].id && s'[id].targets == s[id].targets)
            && BoundedBy(s', sequence + 1)
  {
    NextIdIsFresh(s, sequence);
    SequenceOfLeaseId(sequence + 1);
    ReapOnlyStates(s, q);
  }

  /** `s'` still has every lease of `s`, on the same terms. */
  ghost predicate Keeps(s: Store, s': Store) {
    forall id | id in s ::
      && id in s' && s'[id].id == s[id].id && s'[id].targets == s[id].targets && s'[id].Deadline() == s[id].Deadline()
      && (s[id].SafeTerminal() ==> s'[id].SafeTerminal())
  }

  lemma StepNeverOverwrites(w: World, step: Step, w': World)
    requires Filed(w.store) && BoundedBy(w.store, w.sequence) && Next(w, step, w')
    ensures Filed(w'.store) && BoundedBy(w'.store, w'.sequence) && Keeps(w.store, w'.store)
  {
    match step
    case NewClient =>
    case AcquireStep(q) =>
      AcquireKeeps(w.store, w.sequence, q);
    case MoveStep(id, to, mechanism, notes, at) =>
      if id in w.store {
        TransitionKeeps(w.store[id], to, mechanism, notes, at);
      }
  }

  lemma AcquireKeeps(s: Store, sequence: nat, q: Request)
    requires Filed(s) && BoundedBy(s, sequence)
    ensures var s' := Acquire(s, sequence, q).0; Filed(s') && BoundedBy(s', sequence + 1) && Keeps(s, s')
  {
    AcquireNeverOverwrites(s, sequence, q);
    ReapOnlyStates(s, q);
  }

  /** Over any run of successive clients, from any sink whatever ids it holds, no
      stored lease is ever overwritten, and the counter in use bounds every
      sequence in the sink. */
  lemma {:induction false} RunNeverOverwrites(worlds: seq<World>, steps: seq<Step>, k: nat)
    requires IsRun(worlds, steps) && k <= |steps|
    requires Filed(worlds[0].store) && BoundedBy(worlds[0].store, worlds[0].sequence)
    ensures Filed(worlds[k].store) && BoundedBy(worlds[k].store, worlds[k].sequence)
    ensures Keeps(worlds[0].store, worlds[k].store)
  {
    if k > 0 {
      RunNeverOverwrites(worlds, steps, k - 1);
      StepNeverOverwrites(worlds[k - 1], steps[k - 1], worlds[k]);
    }
  }

  /** A client whose counter is behind the sink does overwrite, exactly when the id it
      mints next is taken: two clients used in turn on one sink are not safe. */
  lemma StaleClientOverwrites(s: Store, sequence: nat, q: Request)
    requires Acquire(s, sequence, q).1.Ok?
    ensures |Acquire(s, sequence, q).0.Keys| == |s.Keys| + (if LeaseId(sequence + 1) in s then 0 else 1)
  {
    AcquireKeys(s, sequence, q);
  }

  lemma AcquireKeys(s: Store, sequence: nat, q: Request)
    requires Acquire(s, sequence, q).1.Ok?
    ensures Acquire(s, sequence, q).0.Keys == s.Keys + {LeaseId(sequence + 1)}
  {
  }

  lemma TwoClientsCollide(q: Request, q': Request)
    requires q.ttl >= 0.0 && q'.ttl >= 0.0 && q.targets !! q'.targets
    ensures var (s, first) := Acquire(map[], 0, q);
            var (s', second) := Acquire(s, 0, q');
            first.Ok? && second.Ok? && first.value.id == second.value.id && s'.Keys == {first.value.id}
  {
    var empty: Store := map[];
    assert Holders(empty, q) == {};
    AcquireKeys(empty, 0, q);
    var s := Acquire(empty, 0, q).0;
    assert s[LeaseId(1)].targets == q.targets;
    assert Holders(s, q') == {};
    AcquireKeys(s, 0, q');
  }
}
