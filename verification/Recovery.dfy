/** A sweep on the cluster: the undo that the watchdog awaits is the undo that changes
    the cluster, and its result is how the lease is filed.  Here each undo runs with
    nothing in between; `Interleaving` takes the system call by call. */
module Recovery {
  import opened Documents
  import opened Outcomes
  import opened Snapshots
  import opened SnapshotRuns
  import Watchdog

  type Id = Watchdog.Id

  /** Where the executor of a lease looks for annotated objects. */
  datatype Scope = Scope(namespace: string, kinds: set<string>)

  predicate InScope(r: Ref, s: Scope) { r.namespace == s.namespace && r.kind in s.kinds }

  /** Two executors look for the same objects or for none in common. */
  predicate Aligned(s: Scope, t: Scope) { s == t || s.namespace != t.namespace || s.kinds !! t.kinds }

  /** One undo: whether the listing succeeds, which object comes first in it, which later
      calls exit zero, and, if it raises, after how many of its writing calls. */
  datatype Undoing = Undoing(find: bool, pick: Ref, calls: UndoCalls, raises: Option<nat>)

  function Found(c: Cluster, s: Scope): set<Ref> { Pending(c, s.namespace, s.kinds) }

  predicate Finds(c: Cluster, s: Scope, u: Undoing) { u.find && u.pick in Found(c, s) }

  /** The listing yields an annotated object if there is one. */
  predicate CanUndo(c: Cluster, s: Scope, u: Undoing) { u.find && Found(c, s) != {} ==> u.pick in Found(c, s) }

  function UndoStep(c: Cluster, s: Scope, u: Undoing): Step
    requires Finds(c, s, u)
  {
    Step.Undo(u.pick, u.calls, if u.raises.Some? then u.raises.value else |UndoStates(c[u.pick], u.calls)|)
  }

  function AfterUndo(c: Cluster, s: Scope, u: Undoing): Cluster {
    if Finds(c, s, u) then Apply(c, UndoStep(c, s, u)) else c
  }

  function OutcomeOf(c: Cluster, s: Scope, u: Undoing): Watchdog.Outcome {
    if u.raises.Some? then Watchdog.Raised
    else Watchdog.Undone(Finds(c, s, u) ==> UndoSucceeds(c[u.pick], u.calls))
  }

  /** A lease is filed as expired exactly when its undo did not raise and found nothing,
      could not read what it found, or patched it.  A listing that fails finds nothing. */
  lemma ExpiredExactly(c: Cluster, s: Scope, u: Undoing)
    requires CanUndo(c, s, u)
    ensures Watchdog.FinalOf(OutcomeOf(c, s, u)) == Watchdog.Expired <==>
            u.raises.None? && (u.find && Found(c, s) != {} ==> !u.calls.get || u.calls.patch)
  {
    if u.find && Found(c, s) != {} {
      assert Finds(c, s, u) && c[u.pick].annotation.Some?;
    }
  }

  /** An undo that raises leaves the object it found as its last writing call did. */
  lemma RaisedPartway(c: Cluster, s: Scope, u: Undoing)
    requires Finds(c, s, u) && u.raises.Some?
    ensures var o, states, n := c[u.pick], UndoStates(c[u.pick], u.calls), u.raises.value;
            AfterUndo(c, s, u) ==
            c[u.pick := if n == 0 then o else if n <= |states| then states[n - 1] else states[|states| - 1]]
    ensures OutcomeOf(c, s, u) == Watchdog.Raised
  {
  }

  // ---------------------------------------------------------------------------
  // The watchdog on the cluster

  datatype World = World(dog: Watchdog.Dog, cluster: Cluster)

  datatype Event = Start(now: real, expired: seq<Id>) | Finish(u: Undoing)

  ghost predicate Enabled(w: World, scope: Id -> Scope, e: Event) {
    match e
    case Start(now, expired) => Watchdog.Enabled(w.dog, Watchdog.Start(now, expired))
    case Finish(u) => w.dog.sweep.Sweeping? && CanUndo(w.cluster, scope(w.dog.sweep.id), u)
  }

  function Next(w: World, scope: Id -> Scope, e: Event): World {
    match e
    case Start(now, expired) => w.(dog := Watchdog.Next(w.dog, Watchdog.Start(now, expired)))
    case Finish(u) =>
      if w.dog.sweep.Idle? then w
      else
        var s := scope(w.dog.sweep.id);
        World(Watchdog.Next(w.dog, Watchdog.Finish(OutcomeOf(w.cluster, s, u))), AfterUndo(w.cluster, s, u))
  }

  // ---------------------------------------------------------------------------
  // Who takes back what

  /** The leases still to be undone. */
  function Outstanding(d: Watchdog.Dog): set<Id> {
    d.active.Keys + if d.sweep.Sweeping? then {d.sweep.id} else {}
  }

  predicate AllSucceed(u: Undoing) { u.find && u.calls == UndoCalls(true, true, true, true) && u.raises.None? }

  /** Every annotated object is owed by one of these leases, whose executor would look for
      it, and by a different one each.  It need not be the one it was injected under. */
  ghost predicate Owes(c: Cluster, leases: set<Id>, scope: Id -> Scope, owes: map<Ref, Id>) {
    && (forall r :: r in owes <==> r in c && c[r].annotation.Some?)
    && (forall r | r in owes :: owes[r] in leases && InScope(r, scope(owes[r])))
    && Distinct(owes)
  }

  predicate Distinct(owes: map<Ref, Id>) { forall r, q | r in owes && q in owes && r != q :: owes[r] != owes[q] }

  lemma CleanUndoOf(c: Cluster, s: Scope, u: Undoing)
    requires AllSucceed(u) && CanUndo(c, s, u)
    ensures OutcomeOf(c, s, u) == Watchdog.Undone(true)
    ensures Finds(c, s, u) <==> exists r :: r in c && c[r].annotation.Some? && InScope(r, s)
    ensures Finds(c, s, u) ==>
              && u.pick in c && c[u.pick].annotation.Some? && InScope(u.pick, s)
              && AfterUndo(c, s, u) == c[u.pick := SnapshotRuns.Undone(c[u.pick])]
  {
    if Finds(c, s, u) {
      CleanUndoIsLastState(c[u.pick]);
    }
    assert forall r :: r in Found(c, s) <==> r in c && c[r].annotation.Some? && InScope(r, s);
  }

  /** The exchange: lease `id` takes over the object `r`, and the lease that owed it
      takes over what `id` owed. */
  function Swapped(owes: map<Ref, Id>, r: Ref, id: Id): map<Ref, Id>
    requires r in owes
  {
    map q | q in owes :: if q == r then id else if owes[q] == id then owes[r] else owes[q]
  }

  lemma SwappedDistinct(owes: map<Ref, Id>, r: Ref, id: Id)
    requires r in owes && Distinct(owes)
    ensures Distinct(Swapped(owes, r, id))
  {
    var owes' := Swapped(owes, r, id);
    forall p, q | p in owes' && q in owes' && p != q ensures owes'[p] != owes'[q] {
      assert owes[p] != owes[q];
      assert (p != r ==> owes[p] != owes[r]) && (q != r ==> owes[q] != owes[r]);
    }
  }

  lemma SwapOwes(c: Cluster, leases: set<Id>, scope: Id -> Scope, owes: map<Ref, Id>, r: Ref, id: Id)
    requires Owes(c, leases, scope, owes) && r in owes && id in leases
    requires InScope(r, scope(id)) && Aligned(scope(id), scope(owes[r]))
    ensures Owes(c, leases, scope, Swapped(owes, r, id))
  {
    assert scope(id) == scope(owes[r]);
    SwappedDistinct(owes, r, id);
  }

  lemma ClearOwes(c: Cluster, leases: set<Id>, scope: Id -> Scope, owes: map<Ref, Id>, r: Ref, o: Object)
    requires Owes(c, leases, scope, owes) && r in c && o.annotation.None?
    ensures Owes(c[r := o], leases, scope, owes - {r})
  {
  }

  /** A lease that owes nothing is not missed. */
  lemma FewerLeasesOwe(c: Cluster, leases: set<Id>, scope: Id -> Scope, owes: map<Ref, Id>, id: Id)
    requires Owes(c, leases, scope, owes) && forall q | q in owes :: owes[q] != id
    ensures Owes(c, leases - {id}, scope, owes)
  {
  }

  /** A clean undo for a lease leaves the other leases owing all that is left. */
  lemma UndoOwes(c: Cluster, leases: set<Id>, scope: Id -> Scope, owes: map<Ref, Id>, id: Id, u: Undoing)
    returns (owes': map<Ref, Id>)
    requires Owes(c, leases, scope, owes) && AllSucceed(u) && CanUndo(c, scope(id), u)
    requires forall i, j :: Aligned(scope(i), scope(j))
    ensures Owes(AfterUndo(c, scope(id), u), leases - {id}, scope, owes')
  {
    CleanUndoOf(c, scope(id), u);
    if Finds(c, scope(id), u) {
      var swapped := Swapped(owes, u.pick, id);
      MoreLeasesOwe(c, leases, leases + {id}, scope, owes);
      SwapOwes(c, leases + {id}, scope, owes, u.pick, id);
      ClearOwes(c, leases + {id}, scope, swapped, u.pick, SnapshotRuns.Undone(c[u.pick]));
      owes' := swapped - {u.pick};
      FewerLeasesOwe(AfterUndo(c, scope(id), u), leases + {id}, scope, owes', id);
      assert leases + {id} - {id} == leases - {id};
    } else {
      owes' := owes;
      forall r | r in owes ensures owes[r] != id {}
    }
  }

  lemma MoreLeasesOwe(c: Cluster, leases: set<Id>, more: set<Id>, scope: Id -> Scope, owes: map<Ref, Id>)
    requires Owes(c, leases, scope, owes) && leases <= more
    ensures Owes(c, more, scope, owes)
  {
  }

  predicate Unannotated(c: Cluster) { forall r | r in c :: c[r].annotation.None? }

  // ---------------------------------------------------------------------------
  // One sweep

  /** The cluster after the undos of some leases, in order. */
  function AfterUndos(c: Cluster, scope: Id -> Scope, ids: seq<Id>, undos: seq<Undoing>): Cluster
    requires |ids| == |undos|
  {
    if ids == [] then c else AfterUndos(AfterUndo(c, scope(ids[0]), undos[0]), scope, ids[1..], undos[1..])
  }

  /** How each of them ends, on the cluster its predecessors left. */
  function UndoOutcomes(c: Cluster, scope: Id -> Scope, ids: seq<Id>, undos: seq<Undoing>): (os: seq<Watchdog.Outcome>)
    requires |ids| == |undos|
    ensures |os| == |ids|
  {
    if ids == [] then []
    else [OutcomeOf(c, scope(ids[0]), undos[0])] +
         UndoOutcomes(AfterUndo(c, scope(ids[0]), undos[0]), scope, ids[1..], undos[1..])
  }

  lemma {:induction false} OutcomeAt(c: Cluster, scope: Id -> Scope, ids: seq<Id>, undos: seq<Undoing>, i: nat)
    requires i < |ids| == |undos|
    ensures UndoOutcomes(c, scope, ids, undos)[i] == OutcomeOf(AfterUndos(c, scope, ids[..i], undos[..i]),
            scope(ids[i]), undos[i])
  {
    if i > 0 {
      OutcomeAt(AfterUndo(c, scope(ids[0]), undos[0]), scope, ids[1..], undos[1..], i - 1);
      assert ids[..i][1..] == ids[1..][..i - 1] && undos[..i][1..] == undos[1..][..i - 1];
    }
  }

  function Finishes(w: World, scope: Id -> Scope, undos: seq<Undoing>): World
    decreases |undos|
  {
    if undos == [] then w else Finishes(Next(w, scope, Finish(undos[0])), scope, undos[1..])
  }

  /** The end of one compensation is the start of the next. */
  lemma FinishFirst(active: map<Id, Watchdog.Entry>, finals: map<Id, Watchdog.Final>, log: seq<Watchdog.Run>, now: real,
                    pending: seq<Id>, c: Cluster, scope: Id -> Scope, u: Undoing)
    requires pending != [] && pending[0] in active
    ensures var id := pending[0];
            var o := OutcomeOf(c, scope(id), u);
            var d := Watchdog.PopNext(active, finals, log, now, pending, map[]);
            var d' := Watchdog.PopNext(active - {id}, finals[id := Watchdog.FinalOf(o)],
                                       log + [Watchdog.Run(id, active[id], now, map[])], now, pending[1..], map[]);
            && Watchdog.Next(d, Watchdog.Finish(o)) == d'
            && Next(World(d, c), scope, Finish(u)) == World(d', AfterUndo(c, scope(id), u))
  {
  }

  /** From any point of a sweep nobody interrupts, the cluster goes through the undos in
      order and the watchdog through how they end. */
  lemma {:induction false} FinishesInOrder(active: map<Id, Watchdog.Entry>, finals: map<Id, Watchdog.Final>,
                                           log: seq<Watchdog.Run>, now: real, pending: seq<Id>, c: Cluster,
                                           scope: Id -> Scope, undos: seq<Undoing>)
    requires Watchdog.PendingInv(active, now, pending, map[]) && |undos| == |pending|
    ensures var d := Watchdog.PopNext(active, finals, log, now, pending, map[]);
            Finishes(World(d, c), scope, undos) ==
            World(Watchdog.Finishes(d, UndoOutcomes(c, scope, pending, undos)), AfterUndos(c, scope, pending, undos))
    decreases |pending|
  {
    if pending != [] {
      var id, rest := pending[0], pending[1..];
      assert forall x | x in rest :: x in pending && x != id;
      var outcome, os := OutcomeOf(c, scope(id), undos[0]), UndoOutcomes(c, scope, pending, undos);
      FinishFirst(active, finals, log, now, pending, c, scope, undos[0]);
      assert os[0] == outcome && os[1..] == UndoOutcomes(AfterUndo(c, scope(id), undos[0]), scope, rest, undos[1..]);
      FinishesInOrder(active - {id}, finals[id := Watchdog.FinalOf(outcome)],
          log + [Watchdog.Run(id, active[id], now, map[])],
                      now, rest, AfterUndo(c, scope(id), undos[0]), scope, undos[1..]);
    }
  }

  /** A whole sweep nobody interrupts. */
  function Swept(w: World, scope: Id -> Scope, now: real, expired: seq<Id>, undos: seq<Undoing>): World {
    Finishes(Next(w, scope, Start(now, expired)), scope, undos)
  }

  /** Whatever calls fail and wherever undos raise: a sweep nobody interrupts leaves
      exactly the leases not due, takes the cluster through the undos of the others in
      order, and files those by how their undos ended. */
  lemma SweepInOrder(w: World, scope: Id -> Scope, now: real, expired: seq<Id>, undos: seq<Undoing>)
    requires Enabled(w, scope, Start(now, expired)) && |undos| == |expired|
    ensures var w' := Swept(w, scope, now, expired, undos);
            && w'.cluster == AfterUndos(w.cluster, scope, expired, undos)
            && w'.dog.sweep.Idle?
            && w'.dog.active == (map id | id in w.dog.active && w.dog.active[id].deadline > now :: w.dog.active[id])
            && w'.dog.finals == w.dog.finals + Watchdog.FinalsOf(expired,
                UndoOutcomes(w.cluster, scope, expired, undos))
  {
    FinishesInOrder(w.dog.active, w.dog.finals, w.dog.log, now, expired, w.cluster, scope, undos);
    Watchdog.UninterruptedSweep(w.dog, now, expired, UndoOutcomes(w.cluster, scope, expired, undos));
  }

  /** Each lease is filed by how its own undo ended on the cluster it found. */
  lemma FiledByItsOwnUndo(w: World, scope: Id -> Scope, now: real, expired: seq<Id>, undos: seq<Undoing>, i: nat)
    requires Enabled(w, scope, Start(now, expired)) && i < |undos| == |expired|
    ensures var finals := Swept(w, scope, now, expired, undos).dog.finals;
            var found := AfterUndos(w.cluster, scope, expired[..i], undos[..i]);
            && expired[i] in finals
            && finals[expired[i]] == Watchdog.FinalOf(OutcomeOf(found, scope(expired[i]), undos[i]))
  {
    SweepInOrder(w, scope, now, expired, undos);
    OutcomeAt(w.cluster, scope, expired, undos, i);
    Watchdog.FinalAt(expired, UndoOutcomes(w.cluster, scope, expired, undos), i);
  }

  /** Each undo of the list yields an annotated object if there is one in its scope. */
  ghost predicate CanUndoAll(c: Cluster, scope: Id -> Scope, ids: seq<Id>, undos: seq<Undoing>)
    requires |ids| == |undos|
  {
    ids != [] ==>
      && CanUndo(c, scope(ids[0]), undos[0])
      && CanUndoAll(AfterUndo(c, scope(ids[0]), undos[0]), scope, ids[1..], undos[1..])
  }

  /** Every annotated object restored from its own snapshot. */
  function AllUndone(c: Cluster): Cluster {
    map r | r in c :: if c[r].annotation.Some? then SnapshotRuns.Undone(c[r]) else c[r]
  }

  function Ids(ids: seq<Id>): set<Id> { set id | id in ids }

  lemma AllUndoneNext(c: Cluster, r: Ref)
    requires r in c && c[r].annotation.Some?
    ensures AllUndone(c[r := SnapshotRuns.Undone(c[r])]) == AllUndone(c)
  {
  }

  lemma NothingToUndo(c: Cluster, scope: Id -> Scope, owes: map<Ref, Id>)
    requires Owes(c, {}, scope, owes)
    ensures AllUndone(c) == c
  {
    forall r | r in c ensures c[r].annotation.None? { assert r !in owes; }
  }

  /** Clean undos, one per lease, take back all that the leases owe, whichever annotated
      object each of them picks. */
  lemma {:induction false} UndosTakeBackAll(c: Cluster, scope: Id -> Scope, ids: seq<Id>, undos: seq<Undoing>,
      owes: map<Ref, Id>)
    requires |ids| == |undos| && CanUndoAll(c, scope, ids, undos) && forall u | u in undos :: AllSucceed(u)
    requires forall i, j :: Aligned(scope(i), scope(j))
    requires Owes(c, Ids(ids), scope, owes)
    ensures AfterUndos(c, scope, ids, undos) == AllUndone(c)
    ensures forall o | o in UndoOutcomes(c, scope, ids, undos) :: o == Watchdog.Undone(true)
    decreases |ids|
  {
    if ids == [] {
      assert Ids(ids) == {};
      NothingToUndo(c, scope, owes);
    } else {
      var owes' := FirstUndo(c, scope, ids, undos[0], owes);
      UndosTakeBackAll(AfterUndo(c, scope(ids[0]), undos[0]), scope, ids[1..], undos[1..], owes');
    }
  }

  lemma FirstUndo(c: Cluster, scope: Id -> Scope, ids: seq<Id>, u: Undoing, owes: map<Ref, Id>)
    returns (owes': map<Ref, Id>)
    requires ids != [] && CanUndo(c, scope(ids[0]), u) && AllSucceed(u)
    requires forall i, j :: Aligned(scope(i), scope(j))
    requires Owes(c, Ids(ids), scope, owes)
    ensures Owes(AfterUndo(c, scope(ids[0]), u), Ids(ids[1..]), scope, owes')
    ensures AllUndone(AfterUndo(c, scope(ids[0]), u)) == AllUndone(c)
    ensures OutcomeOf(c, scope(ids[0]), u) == Watchdog.Undone(true)
  {
    owes' := UndoOwes(c, Ids(ids), scope, owes, ids[0], u);
    assert ids == [ids[0]] + ids[1..];
    MoreLeasesOwe(AfterUndo(c, scope(ids[0]), u), Ids(ids) - {ids[0]}, Ids(ids[1..]), scope, owes');
    CleanUndoOf(c, scope(ids[0]), u);
    if Finds(c, scope(ids[0]), u) {
      AllUndoneNext(c, u.pick);
    }
  }

  /** One lease per injected fault, all of them due: if the sweep's undos succeed, each
      lease is filed as expired, and the cluster is what it was before the faults exactly
      when none of them wrote a key its target lacked. */
  lemma SweepRestoresCluster(c: Cluster, faults: map<Ref, Mutation>, leases: map<Ref, Id>, scope: Id -> Scope,
                             d: Watchdog.Dog, now: real, expired: seq<Id>, undos: seq<Undoing>)
    requires faults.Keys <= c.Keys && forall r | r in c :: c[r].annotation.None?
    requires forall i, j :: Aligned(scope(i), scope(j))
    requires Owes(InjectAll(c, faults), d.active.Keys, scope, leases)
    requires forall id | id in d.active :: d.active[id].deadline <= now
    requires Watchdog.Enabled(d, Watchdog.Start(now, expired)) && |undos| == |expired|
    requires CanUndoAll(InjectAll(c, faults), scope, expired, undos) && forall u | u in undos :: AllSucceed(u)
    ensures var w := Swept(World(d, InjectAll(c, faults)), scope, now, expired, undos);
            && w.dog.sweep.Idle? && w.dog.active == map[]
            && (forall id | id in d.active :: id in w.dog.finals && w.dog.finals[id] == Watchdog.Expired)
            && (w.cluster == c <==> forall r | r in faults :: Reversible(c[r].spec, faults[r]))
  {
    var injected := InjectAll(c, faults);
    assert Watchdog.Due(d.active, now) == d.active.Keys;
    assert Ids(expired) == d.active.Keys;
    UndosTakeBackAll(injected, scope, expired, undos, leases);
    SweepInOrder(World(d, injected), scope, now, expired, undos);
    AllExpired(expired, UndoOutcomes(injected, scope, expired, undos));
    AllUndoneIsOriginal(c, faults);
  }

  lemma {:induction false} AllExpired(ids: seq<Id>, outcomes: seq<Watchdog.Outcome>)
    requires |ids| == |outcomes| && forall o | o in outcomes :: o == Watchdog.Undone(true)
    ensures forall id | id in ids :: id in Watchdog.FinalsOf(ids, outcomes)
    ensures forall id | id in Watchdog.FinalsOf(ids, outcomes) ::
            Watchdog.FinalsOf(ids, outcomes)[id] == Watchdog.Expired
  {
    if ids != [] {
      assert forall o | o in outcomes[1..] :: o in outcomes;
      AllExpired(ids[1..], outcomes[1..]);
      assert outcomes[0] in outcomes && ids == [ids[0]] + ids[1..];
    }
  }

  lemma AllUndoneIsOriginal(c: Cluster, faults: map<Ref, Mutation>)
    requires faults.Keys <= c.Keys && forall r | r in c :: c[r].annotation.None?
    ensures AllUndone(InjectAll(c, faults)) == c <==> forall r | r in faults :: Reversible(c[r].spec, faults[r])
  {
    var undone := AllUndone(InjectAll(c, faults));
    forall r | r in faults ensures undone[r] == c[r] <==> Reversible(c[r].spec, faults[r]) {
      RestoreIsExact(c[r].spec, faults[r]);
    }
    if forall r | r in faults :: Reversible(c[r].spec, faults[r]) {
      assert forall r | r in c :: undone[r] == c[r];
    }
  }
}
