/** The agent as one system, call by call: the request being served, whose injection or
    undo runs on one thread, and the watchdog's sweep, whose undo runs on another.  The
    serve loop is serial and there is one runner, so at most these two are at work. */
module Interleaving {
  import opened Documents
  import opened Outcomes
  import opened Snapshots
  import opened SnapshotRuns
  import opened Recovery
  import opened ExecutorCalls
  import Watchdog

  /** A task being executed for a lease: an injection, or an undo the controller asks for. */
  datatype Request = Request(id: Id, injects: bool, at: Progress)

  datatype System = System(dog: Watchdog.Dog, cluster: Cluster, request: Option<Request>, undo: Progress)

  /** A lease is registered when its request ends, after the injection has returned. */
  datatype Move =
    | BeginInjection(id: Id, ref: Ref, m: Mutation, early: bool)
    | BeginRelease(id: Id)
    | RequestCall(up: bool, pick: Ref)
    | RequestRaises
    | EndRequest(entry: Watchdog.Entry)
    | BeginSweep(now: real, expired: seq<Id>)
    | SweepCall(up: bool, pick: Ref)
    | SweepRaises
    | EndUndo

  ghost predicate Enabled(w: System, scope: Id -> Scope, v: Move) {
    match v
    case BeginInjection(id, ref, _, _) => w.request.None? && ref in w.cluster && InScope(ref, scope(id))
    case BeginRelease(_) => w.request.None?
    case RequestCall(up, pick) =>
      w.request.Some? && !w.request.value.at.Done? && CanPick(w.cluster, w.request.value.at, up, pick)
    case RequestRaises => w.request.Some? && !w.request.value.at.Done?
    case EndRequest(_) => w.request.Some? && w.request.value.at.Done?
    case BeginSweep(now, expired) => Watchdog.Enabled(w.dog, Watchdog.Start(now, expired))
    case SweepCall(up, pick) => w.dog.sweep.Sweeping? && !w.undo.Done? && CanPick(w.cluster, w.undo, up, pick)
    case SweepRaises => w.dog.sweep.Sweeping? && !w.undo.Done?
    case EndUndo => w.dog.sweep.Sweeping? && w.undo.Done?
  }

  /** The watchdog goes on to the next undo, if there is one. */
  function WithDog(w: System, scope: Id -> Scope, dog: Watchdog.Dog): System {
    w.(dog := dog, undo := if dog.sweep.Sweeping? then Finding(scope(dog.sweep.id)) else Done(true))
  }

  function Called(w: System, up: bool, pick: Ref): System
    requires w.request.Some?
  {
    var p := w.request.value.at;
    w.(cluster := Effect(w.cluster, p, up), request := Some(w.request.value.(at := Proceed(w.cluster, p, up, pick))))
  }

  function SweepCalled(w: System, up: bool, pick: Ref): System {
    w.(cluster := Effect(w.cluster, w.undo, up), undo := Proceed(w.cluster, w.undo, up, pick))
  }

  function Next(w: System, scope: Id -> Scope, v: Move): System {
    match v
    case BeginInjection(id, ref, m, early) => w.(request := Some(Request(id, true, Reading(ref, m, early))))
    case BeginRelease(id) => w.(request := Some(Request(id, false, Finding(scope(id)))))
    case RequestCall(up, pick) => if w.request.Some? then Called(w, up, pick) else w
    case RequestRaises => w.(request := None)
    case EndRequest(entry) =>
      if w.request.Some? && w.request.value.injects && w.request.value.at == Done(true) then
        w.(request := None, dog := Watchdog.Next(w.dog, Watchdog.Register(w.request.value.id, entry)))
      else w.(request := None)
    case BeginSweep(now, expired) => WithDog(w, scope, Watchdog.Next(w.dog, Watchdog.Start(now, expired)))
    case SweepCall(up, pick) => SweepCalled(w, up, pick)
    case SweepRaises => WithDog(w, scope, Watchdog.Next(w.dog, Watchdog.Finish(Watchdog.Raised)))
    case EndUndo =>
      if w.undo.Done? then WithDog(w, scope, Watchdog.Next(w.dog, Watchdog.Finish(Watchdog.Undone(w.undo.ok)))) else w
  }

  /** A request is under way from its beginning until it ends or its executor raises. */
  lemma RequestUnderWay(w: System, scope: Id -> Scope, v: Move)
    ensures Next(w, scope, v).request.Some? <==>
            v.BeginInjection? || v.BeginRelease? || (w.request.Some? && !v.EndRequest? && !v.RequestRaises?)
    ensures v.BeginRelease? ==> Next(w, scope, v).request == Some(Request(v.id, false, Finding(scope(v.id))))
  {
  }

  function After(w: System, scope: Id -> Scope, moves: seq<Move>): System
    decreases |moves|
  {
    if moves == [] then w else Next(After(w, scope, Front(moves)), scope, Last(moves))
  }

  function Front(moves: seq<Move>): seq<Move>
    requires moves != []
  {
    moves[..|moves| - 1]
  }

  function Last(moves: seq<Move>): Move
    requires moves != []
  {
    moves[|moves| - 1]
  }

  // ---------------------------------------------------------------------------
  // Safety at every call

  /** What the executor of the request does next. */
  function RequestAt(w: System): Progress { if w.request.Some? then w.request.value.at else Done(true) }

  ghost predicate AllSound(c: Cluster, originals: map<Ref, Mapping>) {
    c.Keys == originals.Keys && forall r | r in c :: Sound(c[r], originals[r])
  }

  predicate FitIn(c: Cluster, originals: map<Ref, Mapping>, p: Progress) {
    p.On() ==> p.ref in c && p.ref in originals && Fit(c[p.ref], originals[p.ref], p)
  }

  ghost predicate Safe(w: System, originals: map<Ref, Mapping>) {
    && Watchdog.Inv(w.dog)
    && AllSound(w.cluster, originals)
    && FitIn(w.cluster, originals, RequestAt(w)) && FitIn(w.cluster, originals, w.undo)
    && (w.undo.Undoes() || w.undo.Done?) && (w.dog.sweep.Idle? ==> w.undo.Done?)
  }

  /** What the other executor does next, if it is at work on the same object. */
  function Beside(p: Progress, q: Progress): Progress {
    if p.On() && q.On() && p.ref == q.ref then q else Done(true)
  }

  /** Calls that lose nothing. */
  predicate CarefulIn(c: Cluster, p: Progress, up: bool, q: Progress) {
    p.On() && p.ref in c ==> CarefulCall(c[p.ref], p, up, Beside(p, q))
  }

  predicate CarefulMove(w: System, v: Move) {
    match v
    case RequestCall(up, _) => CarefulIn(w.cluster, RequestAt(w), up, w.undo)
    case SweepCall(up, _) => CarefulIn(w.cluster, w.undo, up, RequestAt(w))
    case _ => true
  }

  lemma CallSafe(c: Cluster, originals: map<Ref, Mapping>, p: Progress, up: bool, pick: Ref, q: Progress)
    requires AllSound(c, originals) && FitIn(c, originals, p) && FitIn(c, originals, q)
    requires CarefulIn(c, p, up, q) && (!p.Injects() || !q.Injects())
    ensures var c' := Effect(c, p, up);
            AllSound(c', originals) && FitIn(c', originals, Proceed(c, p, up, pick)) && FitIn(c', originals, q)
    ensures p.Undoes() ==> Proceed(c, p, up, pick).Undoes() || Proceed(c, p, up, pick).Done?
  {
    if p.On() {
      var o, x, other := c[p.ref], originals[p.ref], Beside(p, q);
      CallKeeps(o, x, p, up, other);
      CallSpares(o, x, p, up, other);
    }
  }

  lemma NextSafe(w: System, scope: Id -> Scope, v: Move, originals: map<Ref, Mapping>)
    requires Safe(w, originals) && Enabled(w, scope, v) && CarefulMove(w, v)
    ensures Safe(Next(w, scope, v), originals)
  {
    match v
    case RequestCall(up, pick) => CallSafe(w.cluster, originals, RequestAt(w), up, pick, w.undo);
    case SweepCall(up, pick) => CallSafe(w.cluster, originals, w.undo, up, pick, RequestAt(w));
    case EndRequest(entry) =>
      if w.request.value.injects {
        Watchdog.NextKeeps(w.dog, Watchdog.Register(w.request.value.id, entry));
      }
    case BeginSweep(now, expired) => Watchdog.NextKeeps(w.dog, Watchdog.Start(now, expired));
    case SweepRaises => Watchdog.NextKeeps(w.dog, Watchdog.Finish(Watchdog.Raised));
    case EndUndo => Watchdog.NextKeeps(w.dog, Watchdog.Finish(Watchdog.Undone(w.undo.ok)));
    case _ =>
  }

  ghost predicate CarefulRun(w: System, scope: Id -> Scope, moves: seq<Move>)
    decreases |moves|
  {
    moves != [] ==>
      && CarefulRun(w, scope, Front(moves))
      && Enabled(After(w, scope, Front(moves)), scope, Last(moves))
      && CarefulMove(After(w, scope, Front(moves)), Last(moves))
  }

  /** In every interleaving of the calls of injections, sweeps and undos, whatever calls
      fail and wherever executors raise: if each call is careful, then after each of
      them every object is at its original or one clean undo away from it. */
  lemma {:induction false} RunStaysSafe(w: System, scope: Id -> Scope, moves: seq<Move>, originals: map<Ref, Mapping>)
    requires CarefulRun(w, scope, moves) && Safe(w, originals)
    ensures Safe(After(w, scope, moves), originals)
    decreases |moves|
  {
    if moves != [] {
      RunStaysSafe(w, scope, Front(moves), originals);
      NextSafe(After(w, scope, Front(moves)), scope, Last(moves), originals);
    }
  }

  // ---------------------------------------------------------------------------
  // Who takes back what

  /** The leases still to be undone, and the one an injection is under way for. */
  function Leases(w: System): set<Id> {
    Outstanding(w.dog) + if Injecting(w) then {w.request.value.id} else {}
  }

  predicate Injecting(w: System) { w.request.Some? && w.request.value.injects }

  predicate OwesOnly(owes: map<Ref, Id>, id: Id, refs: set<Ref>) {
    forall q | q in owes && owes[q] == id :: q in refs
  }

  /** From its snapshot on, the object of an injection is owed by its own lease. */
  ghost predicate InjectionOwes(w: System, scope: Id -> Scope, owes: map<Ref, Id>)
    requires Injecting(w)
  {
    var id, p := w.request.value.id, w.request.value.at;
    && id !in Outstanding(w.dog) && (p.Injects() || p.Done?)
    && (p.On() ==> p.ref in w.cluster && InScope(p.ref, scope(id)))
    && match p
       case Annotating(r, _, _) => r !in owes && OwesOnly(owes, id, {})
       case Mutating(r, _) => r in owes && owes[r] == id
       case CleaningUp(r) => r in owes && owes[r] == id
       case Done(ok) => !ok ==> OwesOnly(owes, id, {})
       case _ => OwesOnly(owes, id, {})
  }

  /** Once the sweep's undo has found an object, its lease owes that object or nothing. */
  ghost predicate SweepOwes(w: System, scope: Id -> Scope, owes: map<Ref, Id>)
    requires w.dog.sweep.Sweeping?
  {
    var id, p := w.dog.sweep.id, w.undo;
    && (p.Undoes() || p.Done?)
    && (p.Finding? ==> p.scope == scope(id))
    && (p.On() ==> p.ref in w.cluster && InScope(p.ref, scope(id)) && OwesOnly(owes, id, {p.ref}))
    && (p.Done? ==> OwesOnly(owes, id, {}))
  }

  /** Every annotated object is owed by a lease of its own that is outstanding, or that an
      injection is under way for. */
  ghost predicate Covered(w: System, scope: Id -> Scope, owes: map<Ref, Id>) {
    && Owes(w.cluster, Leases(w), scope, owes)
    && (Injecting(w) ==> InjectionOwes(w, scope, owes))
    && (w.request.Some? && !w.request.value.injects ==> w.request.value.at.Undoes() || w.request.value.at.Done?)
    && (w.dog.sweep.Sweeping? ==> SweepOwes(w, scope, owes))
  }

  /** The calls of undos succeed; an injection goes to an unannotated object under a new
      lease, and cleans up if its mutation fails; nothing raises. */
  predicate Clean(w: System, v: Move) {
    match v
    case BeginInjection(id, _, _, _) => id !in Outstanding(w.dog)
    case RequestCall(up, _) => CleanCall(w.cluster, RequestAt(w), up)
    case SweepCall(up, _) => CleanCall(w.cluster, w.undo, up)
    case RequestRaises => false
    case SweepRaises => false
    case _ => true
  }

  predicate CleanCall(c: Cluster, p: Progress, up: bool) {
    if p.Reading? then up && p.ref in c && !p.early ==> c[p.ref].annotation.None?
    else up || p.Annotating? || p.Mutating?
  }

  /** While an injection is under way, no undo is that would look for its object. */
  predicate Apart(w: System, scope: Id -> Scope) {
    Injecting(w) && !w.request.value.at.Done? && w.dog.sweep.Sweeping? && !w.undo.Done? ==>
      scope(w.request.value.id) != scope(w.dog.sweep.id)
  }

  lemma ApartRefs(r: Ref, q: Ref, s: Scope, t: Scope)
    requires InScope(r, s) && InScope(q, t) && Aligned(s, t) && s != t
    ensures r != q
  {
  }

  /** The call that writes the snapshot. */
  lemma AnnotateCovers(w: System, scope: Id -> Scope, owes: map<Ref, Id>)
    requires Covered(w, scope, owes) && Injecting(w) && w.request.value.at.Annotating?
    ensures Covered(Called(w, true, w.request.value.at.ref), scope, owes[w.request.value.at.ref := w.request.value.id])
  {
  }

  /** The call that takes it back after a mutation that failed. */
  lemma CleanUpCovers(w: System, scope: Id -> Scope, pick: Ref, owes: map<Ref, Id>)
    requires Covered(w, scope, owes) && Injecting(w) && w.request.value.at.CleaningUp?
    ensures Covered(Called(w, true, pick), scope, owes - {w.request.value.at.ref})
  {
    var r := w.request.value.at.ref;
    ClearOwes(w.cluster, Leases(w), scope, owes, r, w.cluster[r].(annotation := None));
  }

  /** A call of an injection. */
  lemma InjectionCovers(w: System, scope: Id -> Scope, up: bool, pick: Ref, owes: map<Ref, Id>)
    returns (owes': map<Ref, Id>)
    requires Covered(w, scope, owes) && Injecting(w) && !w.request.value.at.Done? && Clean(w, RequestCall(up, pick))
    ensures Covered(Called(w, up, pick), scope, owes')
  {
    var id, p := w.request.value.id, w.request.value.at;
    match p
    case Annotating(r, _, _) =>
      if up {
        AnnotateCovers(w, scope, owes);
        owes' := owes[r := id];
      } else {
        owes' := owes;
      }
    case CleaningUp(r) =>
      CleanUpCovers(w, scope, pick, owes);
      owes' := owes - {r};
    case _ => owes' := owes;
  }

  /** The calls of an undo on its object, but for the last one, leave all annotations. */
  lemma WritesKeepOwes(c: Cluster, p: Progress, leases: set<Id>, scope: Id -> Scope, owes: map<Ref, Id>)
    requires Owes(c, leases, scope, owes) && (p.Fetching? || p.Resuming? || p.Restoring?)
    ensures Owes(Effect(c, p, true), leases, scope, owes)
  {
  }

  lemma ClearingOwes(c: Cluster, r: Ref, leases: set<Id>, scope: Id -> Scope, owes: map<Ref, Id>)
    requires Owes(c, leases, scope, owes) && r in c
    ensures Owes(Effect(c, Clearing(r), true), leases, scope, owes - {r})
  {
    ClearOwes(c, leases, scope, owes, r, c[r].(annotation := None));
  }

  /** A call of an undo the controller asked for. */
  lemma ReleaseCovers(w: System, scope: Id -> Scope, pick: Ref, owes: map<Ref, Id>) returns (owes': map<Ref, Id>)
    requires Covered(w, scope, owes) && w.request.Some? && !Injecting(w) && !w.request.value.at.Done?
    ensures Covered(Called(w, true, pick), scope, owes')
  {
    var p := w.request.value.at;
    owes' := owes;
    if p.Clearing? {
      if p.ref in w.cluster {
        ClearingOwes(w.cluster, p.ref, Leases(w), scope, owes);
        owes' := owes - {p.ref};
      }
    } else if p.On() {
      WritesKeepOwes(w.cluster, p, Leases(w), scope, owes);
    }
  }

  /** The sweep's undo finds an object: its lease takes that over from the lease that owed
      it, in exchange for what it owed itself. */
  lemma FindCovers(w: System, scope: Id -> Scope, pick: Ref, owes: map<Ref, Id>) returns (owes': map<Ref, Id>)
    requires Covered(w, scope, owes) && w.dog.sweep.Sweeping? && w.undo.Finding?
    requires CanPick(w.cluster, w.undo, true, pick) && Apart(w, scope) && forall i, j :: Aligned(scope(i), scope(j))
    ensures Covered(SweepCalled(w, true, pick), scope, owes')
  {
    var id, found := w.dog.sweep.id, Found(w.cluster, w.undo.scope);
    if pick in found {
      assert pick in owes && InScope(pick, scope(id));
      owes' := Swapped(owes, pick, id);
      SwapOwes(w.cluster, Leases(w), scope, owes, pick, id);
      SwapOnly(owes, pick, id);
      if Injecting(w) {
        SwapSpares(w, scope, pick, owes);
      }
    } else {
      owes' := owes;
      forall q | q in owes ensures owes[q] != id {
        assert q in found <==> InScope(q, scope(id));
      }
    }
  }

  lemma SwapOnly(owes: map<Ref, Id>, r: Ref, id: Id)
    requires r in owes && Distinct(owes)
    ensures OwesOnly(Swapped(owes, r, id), id, {r})
  {
    forall q | q in owes && q != r ensures Swapped(owes, r, id)[q] != id {
      assert owes[q] != owes[r];
    }
  }

  /** The exchange is none of the injection's business. */
  lemma SwapSpares(w: System, scope: Id -> Scope, r: Ref, owes: map<Ref, Id>)
    requires Covered(w, scope, owes) && Injecting(w) && Apart(w, scope)
    requires w.dog.sweep.Sweeping? && !w.undo.Done? && r in owes && InScope(r, scope(w.dog.sweep.id))
    requires forall i, j :: Aligned(scope(i), scope(j))
    ensures InjectionOwes(w, scope, Swapped(owes, r, w.dog.sweep.id))
  {
    var p := w.request.value.at;
    if p.On() {
      ApartRefs(p.ref, r, scope(w.request.value.id), scope(w.dog.sweep.id));
    }
    if !p.Done? {
      assert Aligned(scope(owes[r]), scope(w.dog.sweep.id));
    }
  }

  lemma SweepWriteCovers(w: System, scope: Id -> Scope, pick: Ref, owes: map<Ref, Id>)
    requires Covered(w, scope, owes) && w.dog.sweep.Sweeping?
    requires w.undo.Fetching? || w.undo.Resuming? || w.undo.Restoring?
    ensures Covered(SweepCalled(w, true, pick), scope, owes)
  {
    WritesKeepOwes(w.cluster, w.undo, Leases(w), scope, owes);
  }

  lemma SweepClearCovers(w: System, scope: Id -> Scope, pick: Ref, owes: map<Ref, Id>)
    requires Covered(w, scope, owes) && w.dog.sweep.Sweeping? && w.undo.Clearing?
    requires Apart(w, scope) && forall i, j :: Aligned(scope(i), scope(j))
    ensures Covered(SweepCalled(w, true, pick), scope, owes - {w.undo.ref})
  {
    var r := w.undo.ref;
    ClearingOwes(w.cluster, r, Leases(w), scope, owes);
    if Injecting(w) && w.request.value.at.On() {
      ApartRefs(w.request.value.at.ref, r, scope(w.request.value.id), scope(w.dog.sweep.id));
    }
  }

  /** A call of the sweep's undo. */
  lemma SweepCovers(w: System, scope: Id -> Scope, pick: Ref, owes: map<Ref, Id>) returns (owes': map<Ref, Id>)
    requires Covered(w, scope, owes) && w.dog.sweep.Sweeping? && !w.undo.Done?
    requires CanPick(w.cluster, w.undo, true, pick) && Apart(w, scope) && forall i, j :: Aligned(scope(i), scope(j))
    ensures Covered(SweepCalled(w, true, pick), scope, owes')
  {
    owes' := owes;
    if w.undo.Finding? {
      owes' := FindCovers(w, scope, pick, owes);
    } else if w.undo.Clearing? {
      SweepClearCovers(w, scope, pick, owes);
      owes' := owes - {w.undo.ref};
    } else {
      SweepWriteCovers(w, scope, pick, owes);
    }
  }

  lemma BeginCovers(w: System, scope: Id -> Scope, v: Move, owes: map<Ref, Id>)
    requires Covered(w, scope, owes) && Enabled(w, scope, v) && Clean(w, v)
    requires v.BeginInjection? || v.BeginRelease?
    ensures Covered(Next(w, scope, v), scope, owes)
  {
    var w' := Next(w, scope, v);
    if v.BeginInjection? {
      MoreLeasesOwe(w.cluster, Leases(w), Leases(w'), scope, owes);
    }
  }

  /** A lease is registered, or owes nothing when it is not. */
  lemma EndRequestCovers(w: System, scope: Id -> Scope, entry: Watchdog.Entry, owes: map<Ref, Id>)
    requires Covered(w, scope, owes) && w.request.Some? && w.request.value.at.Done?
    ensures Covered(Next(w, scope, EndRequest(entry)), scope, owes)
  {
    var w' := Next(w, scope, EndRequest(entry));
    if Injecting(w) {
      var id := w.request.value.id;
      if w.request.value.at.ok {
        assert Leases(w') == Leases(w);
      } else {
        FewerLeasesOwe(w.cluster, Leases(w), scope, owes, id);
        assert Leases(w') == Leases(w) - {id};
      }
    }
  }

  lemma BeginSweepCovers(w: System, scope: Id -> Scope, now: real, expired: seq<Id>, owes: map<Ref, Id>)
    requires Covered(w, scope, owes) && Watchdog.Enabled(w.dog, Watchdog.Start(now, expired))
    ensures Covered(Next(w, scope, BeginSweep(now, expired)), scope, owes)
  {
    var w' := Next(w, scope, BeginSweep(now, expired));
    assert Outstanding(w'.dog) == Outstanding(w.dog);
    assert Leases(w') == Leases(w);
  }

  lemma FinishOutstanding(d: Watchdog.Dog, o: Watchdog.Outcome)
    requires d.sweep.Sweeping?
    ensures Outstanding(d) - {d.sweep.id} <= Outstanding(Watchdog.Next(d, Watchdog.Finish(o))) <= Outstanding(d)
  {
  }

  /** A lease whose undo is over owes nothing. */
  lemma EndUndoCovers(w: System, scope: Id -> Scope, owes: map<Ref, Id>)
    requires Covered(w, scope, owes) && w.dog.sweep.Sweeping? && w.undo.Done?
    ensures Covered(Next(w, scope, EndUndo), scope, owes)
  {
    var w' := Next(w, scope, EndUndo);
    FinishOutstanding(w.dog, Watchdog.Undone(w.undo.ok));
    FewerLeasesOwe(w.cluster, Leases(w), scope, owes, w.dog.sweep.id);
    MoreLeasesOwe(w.cluster, Leases(w) - {w.dog.sweep.id}, Leases(w'), scope, owes);
  }

  lemma RequestCovers(w: System, scope: Id -> Scope, up: bool, pick: Ref, owes: map<Ref, Id>)
    returns (owes': map<Ref, Id>)
    requires Covered(w, scope, owes) && Clean(w, RequestCall(up, pick)) && w.request.Some? && !w.request.value.at.Done?
    ensures Covered(Called(w, up, pick), scope, owes')
  {
    if Injecting(w) {
      owes' := InjectionCovers(w, scope, up, pick, owes);
    } else {
      owes' := ReleaseCovers(w, scope, pick, owes);
    }
  }

  /** Every clean move leaves each annotated object owed by a lease of its own. */
  lemma NextCovers(w: System, scope: Id -> Scope, v: Move, owes: map<Ref, Id>) returns (owes': map<Ref, Id>)
    requires Covered(w, scope, owes) && Enabled(w, scope, v) && Clean(w, v) && Apart(w, scope)
    requires forall i, j :: Aligned(scope(i), scope(j))
    ensures Covered(Next(w, scope, v), scope, owes')
  {
    owes' := owes;
    match v
    case RequestCall(up, pick) => owes' := RequestCovers(w, scope, up, pick, owes);
    case SweepCall(_, pick) => owes' := SweepCovers(w, scope, pick, owes);
    case EndRequest(entry) => EndRequestCovers(w, scope, entry, owes);
    case BeginSweep(now, expired) => BeginSweepCovers(w, scope, now, expired, owes);
    case EndUndo => EndUndoCovers(w, scope, owes);
    case _ => BeginCovers(w, scope, v, owes);
  }

  ghost predicate CleanRun(w: System, scope: Id -> Scope, moves: seq<Move>)
    decreases |moves|
  {
    moves != [] ==>
      var before := After(w, scope, Front(moves));
      && CleanRun(w, scope, Front(moves))
      && Enabled(before, scope, Last(moves)) && Clean(before, Last(moves)) && Apart(before, scope)
  }

  /** Nothing is injected and nothing is under way. */
  ghost predicate AtRest(w: System) {
    && Unannotated(w.cluster) && w.request.None?
    && Watchdog.Inv(w.dog) && w.dog.sweep.Idle? && w.undo == Done(true)
  }

  /** After every call of a clean run each annotated object is owed by a lease of its own
      that is outstanding, or for which an injection is under way. */
  lemma {:induction false} RunCovered(w: System, scope: Id -> Scope, moves: seq<Move>) returns (owes: map<Ref, Id>)
    requires AtRest(w) && CleanRun(w, scope, moves) && forall i, j :: Aligned(scope(i), scope(j))
    ensures Covered(After(w, scope, moves), scope, owes)
    decreases |moves|
  {
    if moves == [] {
      owes := map[];
    } else {
      var owed := RunCovered(w, scope, Front(moves));
      owes := NextCovers(After(w, scope, Front(moves)), scope, Last(moves), owed);
    }
  }

  // ---------------------------------------------------------------------------
  // Nothing outstanding, nothing mutated

  predicate Takes(v: Move, originals: map<Ref, Mapping>) {
    v.BeginInjection? ==> v.ref in originals && Undoable(originals[v.ref], v.m)
  }

  /** All mutations injected can be taken back from the original specs. */
  predicate AllUndoable(moves: seq<Move>, originals: map<Ref, Mapping>) {
    forall v | v in moves :: Takes(v, originals)
  }

  /** The injection that has yet to read its object is one of those. */
  predicate ReadsUndoable(w: System, originals: map<Ref, Mapping>) {
    var p := RequestAt(w);
    p.Reading? ==> p.ref in originals && p.ref in w.cluster && Undoable(originals[p.ref], p.m)
  }

  lemma MutatesInTime(w: System, scope: Id -> Scope, owes: map<Ref, Id>)
    requires Covered(w, scope, owes) && Injecting(w) && w.request.value.at.Mutating? && Apart(w, scope)
    requires forall i, j :: Aligned(scope(i), scope(j))
    requires w.undo.On() ==> w.dog.sweep.Sweeping?
    ensures w.cluster[w.request.value.at.ref].annotation.Some?
    ensures Beside(w.request.value.at, w.undo) == Done(true)
  {
    var p := w.request.value.at;
    if w.undo.On() {
      ApartRefs(p.ref, w.undo.ref, scope(w.request.value.id), scope(w.dog.sweep.id));
    }
  }

  lemma CleanIsCareful(w: System, scope: Id -> Scope, v: Move, owes: map<Ref, Id>, originals: map<Ref, Mapping>)
    requires Safe(w, originals) && Covered(w, scope, owes) && ReadsUndoable(w, originals)
    requires Enabled(w, scope, v) && Clean(w, v) && Apart(w, scope)
    requires forall i, j :: Aligned(scope(i), scope(j))
    ensures CarefulMove(w, v)
  {
    if v.RequestCall? && Injecting(w) && w.request.value.at.Mutating? {
      MutatesInTime(w, scope, owes);
    }
  }

  /** A clean run is careful: at every call, all that is mutated can be taken back. */
  lemma {:induction false} CleanRunSafe(w: System, scope: Id -> Scope, moves: seq<Move>, originals: map<Ref, Mapping>)
    returns (owes: map<Ref, Id>)
    requires AtRest(w) && CleanRun(w, scope, moves) && forall i, j :: Aligned(scope(i), scope(j))
    requires AllSound(w.cluster, originals) && AllUndoable(moves, originals)
    ensures var w' := After(w, scope, moves);
            Safe(w', originals) && Covered(w', scope, owes) && ReadsUndoable(w', originals)
    decreases |moves|
  {
    if moves == [] {
      owes := map[];
    } else {
      var before, v := After(w, scope, Front(moves)), Last(moves);
      assert v in moves && forall x | x in Front(moves) :: x in moves;
      var owed := CleanRunSafe(w, scope, Front(moves), originals);
      CleanIsCareful(before, scope, v, owed, originals);
      NextSafe(before, scope, v, originals);
      NextReads(before, scope, v, originals);
      owes := NextCovers(before, scope, v, owed);
    }
  }

  lemma NextReads(w: System, scope: Id -> Scope, v: Move, originals: map<Ref, Mapping>)
    requires ReadsUndoable(w, originals) && Enabled(w, scope, v) && Takes(v, originals)
    ensures ReadsUndoable(Next(w, scope, v), originals)
  {
  }

  lemma UnannotatedSound(c: Cluster)
    requires Unannotated(c)
    ensures AllSound(c, Specs(c))
  {
  }

  function Specs(c: Cluster): map<Ref, Mapping> { map r | r in c :: c[r].spec }

  lemma NothingOwed(c: Cluster, scope: Id -> Scope, owes: map<Ref, Id>, before: Cluster)
    requires Owes(c, {}, scope, owes) && Unannotated(before) && AllSound(c, Specs(before))
    ensures c == before
  {
    forall r | r in c ensures c[r] == before[r] {
      assert r !in owes;
    }
  }

  /** After every call of a clean run of undoable faults: if no lease is active or being
      compensated and no injection is under way, the cluster is exactly what it was. */
  lemma NothingOutstandingNothingMutated(w: System, scope: Id -> Scope, moves: seq<Move>)
    requires AtRest(w) && CleanRun(w, scope, moves) && forall i, j :: Aligned(scope(i), scope(j))
    requires AllUndoable(moves, Specs(w.cluster))
    ensures var w' := After(w, scope, moves);
            Outstanding(w'.dog) == {} && !Injecting(w') ==> w'.cluster == w.cluster
  {
    UnannotatedSound(w.cluster);
    var owes := CleanRunSafe(w, scope, moves, Specs(w.cluster));
    var w' := After(w, scope, moves);
    if Outstanding(w'.dog) == {} && !Injecting(w') {
      NothingOwed(w'.cluster, scope, owes, w.cluster);
    }
  }

  // ---------------------------------------------------------------------------
  // The race

  /** A run of moves that are all possible and clean, but whose calls may overlap on one
      object, goes from `w` to `w'`. */
  ghost predicate Leads(w: System, scope: Id -> Scope, moves: seq<Move>, w': System)
    decreases |moves|
  {
    if moves == [] then w' == w
    else
      var before := After(w, scope, Front(moves));
      && Leads(w, scope, Front(moves), before)
      && Enabled(before, scope, Last(moves)) && Clean(before, Last(moves)) && w' == Next(before, scope, Last(moves))
  }

  lemma {:induction false} LeadsTo(w: System, scope: Id -> Scope, moves: seq<Move>, w': System)
    requires Leads(w, scope, moves, w')
    ensures w' == After(w, scope, moves)
  {
  }

  lemma Extend(w: System, scope: Id -> Scope, moves: seq<Move>, x: System, v: Move)
    returns (moves': seq<Move>, x': System)
    requires Leads(w, scope, moves, x) && Enabled(x, scope, v) && Clean(x, v)
    ensures moves' == moves + [v] && x' == Next(x, scope, v) && Leads(w, scope, moves', x')
  {
    LeadsTo(w, scope, moves, x);
    moves', x' := moves + [v], Next(x, scope, v);
    assert Front(moves') == moves && Last(moves') == v;
  }

  /** The injection up to its snapshot. */
  lemma RaceSnapshot(w: System, scope: Id -> Scope, r: Ref, m: Mutation, b: Id) returns (moves: seq<Move>, x: System)
    requires AtRest(w) && r in w.cluster && InScope(r, scope(b)) && m.Patch? && b !in Outstanding(w.dog)
    ensures Leads(w, scope, moves, x)
    ensures moves == [BeginInjection(b, r, m, false), RequestCall(true, r), RequestCall(true, r)]
    ensures x == w.(cluster := w.cluster[r := Annotated(w.cluster[r], m)],
                    request := Some(Request(b, true, Mutating(r, m))))
  {
    assert Leads(w, scope, [], w);
    hide Leads, After;
    moves, x := Extend(w, scope, [], w, BeginInjection(b, r, m, false));
    moves, x := Extend(w, scope, moves, x, RequestCall(true, r));
    assert x.cluster == w.cluster;
    moves, x := Extend(w, scope, moves, x, RequestCall(true, r));
  }

  /** The sweep finds the object annotated. */
  lemma RaceFind(w: System, scope: Id -> Scope, moves: seq<Move>, x: System, r: Ref, a: Id, now: real)
    returns (moves': seq<Move>, x': System)
    requires Leads(w, scope, moves, x) && x.dog.sweep.Idle?
    requires x.dog.active.Keys == {a} && x.dog.active[a].deadline <= now
    requires Found(x.cluster, scope(a)) == {r}
    ensures Leads(w, scope, moves', x')
    ensures moves' == moves + [BeginSweep(now, [a]), SweepCall(true, r)]
    ensures x' == x.(dog := Watchdog.Next(x.dog, Watchdog.Start(now, [a])), undo := Fetching(r))
  {
    hide Leads, After;
    assert Watchdog.Due(x.dog.active, now) == {a};
    moves', x' := Extend(w, scope, moves, x, BeginSweep(now, [a]));
    moves', x' := Extend(w, scope, moves', x', SweepCall(true, r));
  }

  /** It has nothing to take back yet, and clears the snapshot. */
  lemma RaceRestore(w: System, scope: Id -> Scope, moves: seq<Move>, x: System, r: Ref, s: Snapshot)
    returns (moves': seq<Move>, x': System)
    requires Leads(w, scope, moves, x) && x.dog.sweep.Sweeping? && x.undo == Fetching(r)
    requires r in x.cluster && x.cluster[r] == Object(s.spec, Some(s)) && !s.rolloutPaused
    ensures Leads(w, scope, moves', x')
    ensures moves' == moves + [SweepCall(true, r), SweepCall(true, r), SweepCall(true, r)]
    ensures x' == x.(undo := Done(true), cluster := x.cluster[r := Object(s.spec, None)])
  {
    hide Leads, After;
    RestoresItself(s);
    moves', x' := Extend(w, scope, moves, x, SweepCall(true, r));
    assert x'.cluster == x.cluster;
    moves', x' := Extend(w, scope, moves', x', SweepCall(true, r));
    assert x'.cluster == x.cluster;
    moves', x' := Extend(w, scope, moves', x', SweepCall(true, r));
  }

  /** Then the mutation lands, its lease is registered, and the sweep's undo is over. */
  lemma RaceMutate(w: System, scope: Id -> Scope, moves: seq<Move>, x: System, r: Ref, b: Id, m: Mutation,
                   entry: Watchdog.Entry)
    returns (moves': seq<Move>, x': System)
    requires Leads(w, scope, moves, x) && x.request == Some(Request(b, true, Mutating(r, m)))
    requires x.dog.sweep.Sweeping? && x.dog.sweep.pending == [] && x.undo == Done(true) && r in x.cluster
    ensures Leads(w, scope, moves', x')
    ensures moves' == moves + [RequestCall(true, r), EndRequest(entry), EndUndo]
    ensures x' == x.(request := None, cluster := x.cluster[r := Effected(x.cluster[r], Mutating(r, m))],
                     dog := Watchdog.Dog(x.dog.active[b := entry],
                                         x.dog.finals[x.dog.sweep.id := Watchdog.Expired], Watchdog.Idle, x.dog.log))
  {
    hide Leads, After;
    moves', x' := Extend(w, scope, moves, x, RequestCall(true, r));
    moves', x' := Extend(w, scope, moves', x', EndRequest(entry));
    moves', x' := Extend(w, scope, moves', x', EndUndo);
  }

  /** The sweep that takes the fault's own lease finds nothing to undo. */
  lemma RaceMiss(w: System, scope: Id -> Scope, moves: seq<Move>, x: System, r: Ref, b: Id, late: real)
    returns (moves': seq<Move>, x': System)
    requires Leads(w, scope, moves, x) && x.dog.sweep.Idle?
    requires x.dog.active.Keys == {b} && x.dog.active[b].deadline <= late && Unannotated(x.cluster)
    ensures Leads(w, scope, moves', x')
    ensures moves' == moves + [BeginSweep(late, [b]), SweepCall(true, r), EndUndo]
    ensures x'.dog.active == map[] && x'.dog.sweep.Idle? && x'.dog.finals == x.dog.finals[b := Watchdog.Expired]
    ensures x'.cluster == x.cluster && x'.request == x.request
  {
    hide Leads, After;
    assert Watchdog.Due(x.dog.active, late) == {b};
    moves', x' := Extend(w, scope, moves, x, BeginSweep(late, [b]));
    assert Found(x.cluster, scope(b)) == {};
    moves', x' := Extend(w, scope, moves', x', SweepCall(true, r));
    moves', x' := Extend(w, scope, moves', x', EndUndo);
  }

  /** Between the snapshot and the mutation, as if nothing had been annotated. */
  lemma RaceWindow(w: System, scope: Id -> Scope, r: Ref, m: Mutation, a: Id, b: Id, now: real)
    returns (moves: seq<Move>, x: System)
    requires AtRest(w) && w.dog.active.Keys == {a} && w.dog.active[a].deadline <= now
    requires a != b && scope(a) == scope(b) && r in w.cluster && InScope(r, scope(b)) && m.Patch?
    ensures Leads(w, scope, moves, x)
    ensures moves == RaceOpens(r, m, a, b, now)
    ensures x == w.(request := Some(Request(b, true, Mutating(r, m))),
                    dog := Watchdog.Next(w.dog, Watchdog.Start(now, [a])))
  {
    hide Leads, After, Next;
    var s := Snapshot(w.cluster[r].spec, false);
    moves, x := RaceSnapshot(w, scope, r, m, b);
    assert Found(x.cluster, scope(a)) == {r};
    moves, x := RaceFind(w, scope, moves, x, r, a, now);
    moves, x := RaceRestore(w, scope, moves, x, r, s);
    assert x.cluster == w.cluster;
  }

  /** An injection under lease `b` up to its snapshot, and a sweep's undo for lease `a`. */
  function RaceOpens(r: Ref, m: Mutation, a: Id, b: Id, now: real): seq<Move> {
    [BeginInjection(b, r, m, false), RequestCall(true, r), RequestCall(true, r)] +
    [BeginSweep(now, [a]), SweepCall(true, r)] + [SweepCall(true, r), SweepCall(true, r), SweepCall(true, r)]
  }

  /** Then the rest of both, and the sweep that takes `b`. */
  function Race(r: Ref, m: Mutation, a: Id, b: Id, now: real, late: real, entry: Watchdog.Entry): seq<Move> {
    RaceOpens(r, m, a, b, now) + [RequestCall(true, r), EndRequest(entry), EndUndo] +
    [BeginSweep(late, [b]), SweepCall(true, r), EndUndo]
  }

  /** What the condition of the theorems is for.  No call fails and nothing raises, and
      both leases end up expired; yet the object stays mutated, with no snapshot and no
      lease outstanding. */
  lemma RaceLosesFault(w: System, scope: Id -> Scope, r: Ref, m: Mutation, a: Id, b: Id, now: real, late: real,
                       entry: Watchdog.Entry)
    requires AtRest(w) && w.dog.active.Keys == {a} && w.dog.active[a].deadline <= now && entry.deadline <= late
    requires a != b && scope(a) == scope(b) && r in w.cluster && InScope(r, scope(b))
    requires m.Patch? && Undoable(w.cluster[r].spec, m) && Alters(w.cluster[r].spec, m)
    ensures var x := After(w, scope, Race(r, m, a, b, now, late, entry));
            && Leads(w, scope, Race(r, m, a, b, now, late, entry), x)
            && Outstanding(x.dog) == {} && x.request.None?
            && x.dog.finals == w.dog.finals[a := Watchdog.Expired][b := Watchdog.Expired]
            && x.cluster == w.cluster[r := Object(Mutated(w.cluster[r].spec, m), None)] != w.cluster
  {
    var o := w.cluster[r];
    hide Leads, After, Next, RaceOpens;
    var moves, x := RaceWindow(w, scope, r, m, a, b, now);
    assert x.dog.active == map[];
    moves, x := RaceMutate(w, scope, moves, x, r, b, m, entry);
    assert x.dog.active == map[b := entry];
    moves, x := RaceMiss(w, scope, moves, x, r, b, late);
    LeadsTo(w, scope, moves, x);
    AltersExactly(o.spec, m);
    assert x.cluster[r] != o;
  }
}
