/** The executors call by call.  The agent runs an injection or undo on a thread of its
    own, so that between any two of its kubectl calls those of another may come. */
module ExecutorCalls {
  import opened Documents
  import opened Outcomes
  import opened Snapshots
  import opened SnapshotRuns
  import opened Recovery

  /** Which call an executor makes next, with what it has read so far: four calls of an
      injection, five of an undo. */
  datatype Progress =
    | Reading(ref: Ref, m: Mutation, early: bool)
    | Annotating(ref: Ref, m: Mutation, read: Mapping)
    | Mutating(ref: Ref, m: Mutation)
    | CleaningUp(ref: Ref)
    | Finding(scope: Scope)
    | Fetching(ref: Ref)
    | Resuming(ref: Ref, s: Snapshot)
    | Restoring(ref: Ref, s: Snapshot)
    | Clearing(ref: Ref)
    | Done(ok: bool)
  {
    predicate Injects() { Reading? || Annotating? || Mutating? || CleaningUp? }

    predicate Undoes() { Finding? || Fetching? || Resuming? || Restoring? || Clearing? }

    /** Whether the call is about one object. */
    predicate On() { !Finding? && !Done? }
  }

  /** What the call does to its object when it exits zero. */
  function Effected(o: Object, p: Progress): Object {
    match p
    case Annotating(_, m, read) => o.(annotation := Some(Snapshot(read, m.PauseRollout?)))
    case Mutating(_, m) => o.(spec := Mutated(o.spec, m))
    case CleaningUp(_) => o.(annotation := None)
    case Resuming(_, _) => o.(spec := Resumed(o.spec))
    case Restoring(_, s) => o.(spec := Overlay(o.spec, s.spec))
    case Clearing(_) => o.(annotation := None)
    case _ => o
  }

  /** What the executor does next, given its object and whether the call exited zero. */
  function Onward(o: Object, p: Progress, up: bool): Progress {
    match p
    case Reading(r, m, early) => if up && !early then Annotating(r, m, o.spec) else Done(false)
    case Annotating(r, m, _) => if !up then Done(false) else if m.Refused? then CleaningUp(r) else Mutating(r, m)
    case Mutating(r, _) => if up then Done(true) else CleaningUp(r)
    case CleaningUp(_) => Done(false)
    case Fetching(r) =>
      if !up || o.annotation.None? then Clearing(r)
      else if o.annotation.value.rolloutPaused then Resuming(r, o.annotation.value)
      else Restoring(r, o.annotation.value)
    case Resuming(r, s) => Restoring(r, s)
    case Restoring(r, _) => if up then Clearing(r) else Done(false)
    case Clearing(_) => Done(true)
    case _ => p
  }

  function Effect(c: Cluster, p: Progress, up: bool): Cluster {
    if up && p.On() && p.ref in c then c[p.ref := Effected(c[p.ref], p)] else c
  }

  /** `pick` is the annotated object the listing yields first. */
  function Proceed(c: Cluster, p: Progress, up: bool, pick: Ref): Progress {
    if p.Finding? then if up && pick in Found(c, p.scope) then Fetching(pick) else Done(true)
    else if p.On() && p.ref in c then Onward(c[p.ref], p, up)
    else p
  }

  /** The listing yields an annotated object if there is one. */
  predicate CanPick(c: Cluster, p: Progress, up: bool, pick: Ref) {
    p.Finding? && up && Found(c, p.scope) != {} ==> pick in Found(c, p.scope)
  }

  // ---------------------------------------------------------------------------
  // With nothing in between

  function Alone(c: Cluster, p: Progress, up: Progress -> bool, pick: Ref, n: nat): (Cluster, Progress)
    decreases n
  {
    if n == 0 then (c, p) else Alone(Effect(c, p, up(p)), Proceed(c, p, up(p), pick), up, pick, n - 1)
  }

  /** The same on the one object. */
  function AloneOn(o: Object, p: Progress, up: Progress -> bool, n: nat): (Object, Progress)
    decreases n
  {
    if n == 0 then (o, p) else AloneOn(if up(p) then Effected(o, p) else o, Onward(o, p, up(p)), up, n - 1)
  }

  /** The executor has settled on the object `r`, if it goes on at all. */
  predicate Settled(p: Progress, r: Ref) { p.Done? || (p.On() && p.ref == r) }

  lemma {:induction false} AloneIsOn(c: Cluster, r: Ref, o: Object, p: Progress, up: Progress -> bool, n: nat)
    requires Settled(p, r)
    ensures Alone(c[r := o], p, up, r, n) == (c[r := AloneOn(o, p, up, n).0], AloneOn(o, p, up, n).1)
    decreases n
  {
    if n > 0 {
      var o', p' := if up(p) then Effected(o, p) else o, Onward(o, p, up(p));
      assert Effect(c[r := o], p, up(p)) == c[r := o'] && Proceed(c[r := o], p, up(p), r) == p';
      AloneIsOn(c, r, o', p', up, n - 1);
    }
  }

  lemma {:induction false} DoneOn(o: Object, ok: bool, up: Progress -> bool, n: nat)
    ensures AloneOn(o, Done(ok), up, n) == (o, Done(ok))
  {
    if n > 0 {
      DoneOn(o, ok, up, n - 1);
    }
  }

  function UndoUps(u: Undoing): Progress -> bool {
    (p: Progress) =>
      match p
      case Finding(_) => u.find
      case Fetching(_) => u.calls.get
      case Resuming(_, _) => u.calls.resume
      case Restoring(_, _) => u.calls.patch
      case Clearing(_) => u.calls.clear
      case _ => true
  }

  lemma ClearOn(o: Object, r: Ref, up: Progress -> bool, n: nat)
    requires n >= 1
    ensures AloneOn(o, Clearing(r), up, n) == (Cleared(o, up(Clearing(r))), Done(true))
    ensures AloneOn(o, CleaningUp(r), up, n) == (Cleared(o, up(CleaningUp(r))), Done(false))
  {
    DoneOn(Cleared(o, up(Clearing(r))), true, up, n - 1);
    DoneOn(Cleared(o, up(CleaningUp(r))), false, up, n - 1);
  }

  lemma RestoreOn(o: Object, r: Ref, s: Snapshot, up: Progress -> bool, n: nat)
    requires n >= 2
    ensures AloneOn(o, Restoring(r, s), up, n) ==
            if up(Restoring(r, s)) then (Cleared(o.(spec := Overlay(o.spec, s.spec)), up(Clearing(r))), Done(true))
            else (o, Done(false))
  {
    ClearOn(o.(spec := Overlay(o.spec, s.spec)), r, up, n - 1);
    DoneOn(o, false, up, n - 1);
  }

  lemma ResumeOn(o: Object, r: Ref, s: Snapshot, up: Progress -> bool, n: nat)
    requires n >= 3
    ensures var resumed := o.(spec := if up(Resuming(r, s)) then Resumed(o.spec) else o.spec);
            AloneOn(o, Resuming(r, s), up, n) ==
            if up(Restoring(r, s)) then
              (Cleared(o.(spec := Overlay(resumed.spec, s.spec)), up(Clearing(r))), Done(true))
            else (resumed, Done(false))
  {
    RestoreOn(o.(spec := if up(Resuming(r, s)) then Resumed(o.spec) else o.spec), r, s, up, n - 1);
  }

  lemma LastUndoState(o: Object, calls: UndoCalls)
    requires o.annotation.Some? && calls.get
    ensures var states, s := UndoStates(o, calls), o.annotation.value;
            Reached(o, states, |states|) ==
            if calls.patch then Cleared(o.(spec := Restored(o.spec, s, calls.resume)), calls.clear)
            else o.(spec := Unpaused(o.spec, s, calls.resume))
  {
  }

  lemma FetchOn(o: Object, r: Ref, s: Snapshot, up: Progress -> bool)
    requires o.annotation == Some(s) && up(Fetching(r))
    ensures var resumed := s.rolloutPaused && up(Resuming(r, s));
            var base := if resumed then Resumed(o.spec) else o.spec;
            AloneOn(o, Fetching(r), up, 4) ==
            if up(Restoring(r, s)) then (Cleared(o.(spec := Overlay(base, s.spec)), up(Clearing(r))), Done(true))
            else (o.(spec := base), Done(false))
  {
    var next := if s.rolloutPaused then Resuming(r, s) else Restoring(r, s);
    assert AloneOn(o, Fetching(r), up, 4) == AloneOn(o, next, up, 3);
    if s.rolloutPaused {
      ResumeOn(o, r, s, up, 3);
    } else {
      RestoreOn(o, r, s, up, 3);
    }
  }

  lemma UndoOn(o: Object, r: Ref, u: Undoing)
    requires o.annotation.Some?
    ensures var states := UndoStates(o, u.calls);
            AloneOn(o, Fetching(r), UndoUps(u), 4) == (Reached(o, states, |states|), Done(UndoSucceeds(o, u.calls)))
  {
    if u.calls.get {
      FetchOn(o, r, o.annotation.value, UndoUps(u));
      LastUndoState(o, u.calls);
    } else {
      ClearOn(o, r, UndoUps(u), 3);
    }
  }

  /** The calls of an undo, one after another, are the undo. */
  lemma UndoAlone(c: Cluster, s: Scope, u: Undoing)
    requires u.raises.None?
    ensures Alone(c, Finding(s), UndoUps(u), u.pick, 5) == (AfterUndo(c, s, u), Done(OutcomeOf(c, s, u).ok))
  {
    var r, up := u.pick, UndoUps(u);
    if Finds(c, s, u) {
      assert c[r := c[r]] == c;
      AloneIsOn(c, r, c[r], Fetching(r), up, 4);
      UndoOn(c[r], r, u);
    } else {
      NothingFoundAlone(c, up, r, 4);
    }
  }

  lemma {:induction false} NothingFoundAlone(c: Cluster, up: Progress -> bool, pick: Ref, n: nat)
    ensures Alone(c, Done(true), up, pick, n) == (c, Done(true))
  {
    if n > 0 {
      NothingFoundAlone(c, up, pick, n - 1);
    }
  }

  function InjectUps(calls: InjectCalls): Progress -> bool {
    (p: Progress) =>
      match p
      case Reading(_, _, _) => calls.get
      case Annotating(_, _, _) => calls.annotate
      case Mutating(_, _) => calls.mutate
      case CleaningUp(_) => calls.clear
      case _ => true
  }

  lemma InjectOn(o: Object, r: Ref, m: Mutation, early: bool, calls: InjectCalls)
    ensures var states := InjectStates(o, m, early, calls);
            AloneOn(o, Reading(r, m, early), InjectUps(calls), 4) ==
            (Reached(o, states, |states|), Done(Injects(m, early, calls)))
  {
    var up, noted := InjectUps(calls), Annotated(o, m);
    if early || !calls.get {
      DoneOn(o, false, up, 3);
    } else if !calls.annotate {
      DoneOn(o, false, up, 2);
    } else if m.Refused? {
      ClearOn(noted, r, up, 2);
    } else if calls.mutate {
      DoneOn(noted.(spec := Mutated(o.spec, m)), true, up, 1);
    } else {
      ClearOn(noted, r, up, 1);
    }
  }

  /** The calls of an injection, one after another, are the injection. */
  lemma InjectAlone(c: Cluster, r: Ref, m: Mutation, early: bool, calls: InjectCalls)
    requires r in c
    ensures var states := InjectStates(c[r], m, early, calls);
            Alone(c, Reading(r, m, early), InjectUps(calls), r, 4) ==
            (c[r := Reached(c[r], states, |states|)], Done(Injects(m, early, calls)))
  {
    assert c[r := c[r]] == c;
    AloneIsOn(c, r, c[r], Reading(r, m, early), InjectUps(calls), 4);
    InjectOn(c[r], r, m, early, calls);
  }

  // ---------------------------------------------------------------------------
  // Two executors on one object

  function AllUp(): Progress -> bool { (p: Progress) => true }

  /** An object that was just annotated by an injection and found by an undo, after `j`
      calls, when the mutation comes after `k` calls of the undo. */
  function Overlapped(o: Object, r: Ref, m: Mutation, k: nat, j: nat): Object {
    if j <= k then AloneOn(o, Fetching(r), AllUp(), j).0
    else
      var (before, p) := AloneOn(o, Fetching(r), AllUp(), k);
      AloneOn(Effected(before, Mutating(r, m)), p, AllUp(), j - k - 1).0
  }

  /** The mutation comes before the first call of the undo that writes; or it is a pause
      that comes after the resume, of a spec with a pause marker of its own; or it
      says nothing new. */
  predicate InTime(original: Mapping, m: Mutation, k: nat) {
    k <= 1 || (m.PauseRollout? && k == 2 && PAUSED in original) || !Alters(original, m)
  }

  /** The object as the injection annotated it. */
  function Noted(original: Mapping, m: Mutation): Object { Annotated(Object(original, None), m) }

  const SUCCESS := UndoCalls(true, true, true, true)

  /** Undoing alone goes through the states of an undo. */
  lemma {:induction false} AloneThrough(o: Object, r: Ref, n: nat)
    requires o.annotation.Some?
    ensures var x := AloneOn(o, Fetching(r), AllUp(), n).0; x == o || x in UndoStates(o, SUCCESS)
  {
    var s, states := o.annotation.value, UndoStates(o, SUCCESS);
    if n >= 1 {
      if s.rolloutPaused {
        ResumingThrough(o, r, n - 1);
      } else {
        RestoringThrough(o, r, n - 1);
      }
    }
  }

  lemma RestoringThrough(o: Object, r: Ref, n: nat)
    requires o.annotation.Some?
    ensures var s := o.annotation.value;
            var restored := o.(spec := Overlay(o.spec, s.spec));
            AloneOn(o, Restoring(r, s), AllUp(), n) ==
            if n == 0 then (o, Restoring(r, s))
            else if n == 1 then (restored, Clearing(r))
            else (restored.(annotation := None), Done(true))
  {
    var s := o.annotation.value;
    if n >= 2 {
      RestoreOn(o, r, s, AllUp(), n);
    }
  }

  lemma ResumingThrough(o: Object, r: Ref, n: nat)
    requires o.annotation.Some?
    ensures var s := o.annotation.value;
            AloneOn(o, Resuming(r, s), AllUp(), n) ==
            if n == 0 then (o, Resuming(r, s))
            else AloneOn(o.(spec := Resumed(o.spec)), Restoring(r, s), AllUp(), n - 1)
    ensures o.annotation.value.rolloutPaused ==>
              var x := AloneOn(o, Resuming(r, o.annotation.value), AllUp(), n).0; x == o || x in UndoStates(o, SUCCESS)
  {
    if n >= 1 {
      RestoringThrough(o.(spec := Resumed(o.spec)), r, n - 1);
    }
  }

  /** A mutation before the undo writes is undone with the rest. */
  lemma EarlyMutationRecovers(original: Mapping, r: Ref, m: Mutation, k: nat, j: nat)
    requires Reversible(original, m) && k <= 1
    ensures Recoverable(Overlapped(Noted(original, m), r, m, k, j), original)
  {
    var o := Noted(original, m);
    var mutated := Effected(o, Mutating(r, m));
    RestoresItself(o.annotation.value);
    RestoreIsExact(original, m);
    if j > k {
      AloneThrough(mutated, r, j - 1);
      MergeRestores(Node(Unpaused(mutated.spec, o.annotation.value, true)), Node(original));
      UndoRecoverable(mutated, original, SUCCESS);
    }
  }

  /** Where the undo is when the mutation comes too late for its patch. */
  lemma UndoBefore(original: Mapping, r: Ref, m: Mutation, k: nat)
    requires k >= 2
    ensures var o, s := Noted(original, m), Snapshot(original, m.PauseRollout?);
            AloneOn(o, Fetching(r), AllUp(), k) ==
            if m.PauseRollout? && k == 2 then (Object(Resumed(original), Some(s)), Restoring(r, s))
            else if k == (if m.PauseRollout? then 3 else 2) then (Object(original, Some(s)), Clearing(r))
            else (Object(original, None), Done(true))
  {
    var o, s := Noted(original, m), Snapshot(original, m.PauseRollout?);
    RestoresItself(s);
    if m.PauseRollout? {
      ResumingThrough(o, r, k - 1);
      RestoringThrough(o.(spec := Resumed(original)), r, k - 2);
    } else {
      RestoringThrough(o, r, k - 1);
      WithinReflexive(Node(original));
      MergeRestores(Node(original), Node(original));
    }
  }

  /** A mutation after the patch stays, and the snapshot goes. */
  lemma LateMutationStays(original: Mapping, r: Ref, m: Mutation, note: Option<Snapshot>, n: nat)
    requires Reversible(original, m) && note in {None, Some(Snapshot(original, m.PauseRollout?))}
    ensures var o, p := Object(Mutated(original, m), note), if note.Some? then Clearing(r) else Done(true);
            && (!Alters(original, m) ==> Recoverable(AloneOn(o, p, AllUp(), n).0, original))
            && (Alters(original, m) && n >= 1 ==> !Recoverable(AloneOn(o, p, AllUp(), n).0, original))
  {
    var o := Object(Mutated(original, m), note);
    AltersExactly(original, m);
    RestoresItself(Snapshot(original, m.PauseRollout?));
    if note.None? {
      DoneOn(o, true, AllUp(), n);
    } else if n >= 1 {
      ClearOn(o, r, AllUp(), n);
    }
  }

  /** A pause between the resume and the patch. */
  lemma PauseBetween(original: Mapping, r: Ref, n: nat)
    ensures var s := Snapshot(original, true);
            var o := Object(Mutated(original, PauseRollout), Some(s));
            && (PAUSED in original ==> Recoverable(AloneOn(o, Restoring(r, s), AllUp(), n).0, original))
            && (PAUSED !in original && n >= 2 ==> !Recoverable(AloneOn(o, Restoring(r, s), AllUp(), n).0, original))
  {
    var s := Snapshot(original, true);
    var o := Object(Mutated(original, PauseRollout), Some(s));
    LostResume(original);
    RestoreIsExact(original, PauseRollout);
    RestoredRestores(o.spec, s, false);
    RestoringThrough(o, r, n);
  }

  /** An injection and an undo that overlap on one object lose nothing, at any call,
      exactly when the mutation comes in time for the undo, or says nothing new. */
  lemma OverlapExactly(original: Mapping, r: Ref, m: Mutation, k: nat)
    requires Reversible(original, m)
    ensures (forall j: nat :: Recoverable(Overlapped(Noted(original, m), r, m, k, j), original)) <==>
            InTime(original, m, k)
  {
    if InTime(original, m, k) {
      forall j: nat ensures Recoverable(Overlapped(Noted(original, m), r, m, k, j), original) {
        if k <= 1 {
          EarlyMutationRecovers(original, r, m, k, j);
        } else {
          LateOverlap(original, r, m, k, j);
        }
      }
    } else {
      LateOverlap(original, r, m, k, k + 3);
    }
  }

  lemma LateOverlap(original: Mapping, r: Ref, m: Mutation, k: nat, j: nat)
    requires Reversible(original, m) && k >= 2
    ensures InTime(original, m, k) ==> Recoverable(Overlapped(Noted(original, m), r, m, k, j), original)
    ensures !InTime(original, m, k) && j >= k + 3 ==> !Recoverable(Overlapped(Noted(original, m), r, m, k, j), original)
  {
    if j <= k {
      AloneRecoverable(original, r, m, j);
    } else {
      UndoBefore(original, r, m, k);
      if m.PauseRollout? && k == 2 {
        PauseBetween(original, r, j - k - 1);
        assert Mutated(Resumed(original), m) == Mutated(original, m);
      } else {
        LateMutationStays(original, r, m, AloneOn(Noted(original, m), Fetching(r), AllUp(), k).0.annotation, j - k - 1);
      }
    }
  }

  lemma AloneRecoverable(original: Mapping, r: Ref, m: Mutation, j: nat)
    ensures Recoverable(AloneOn(Noted(original, m), Fetching(r), AllUp(), j).0, original)
  {
    var o := Noted(original, m);
    RestoresItself(o.annotation.value);
    AloneThrough(o, r, j);
    MergeRestores(Node(Unpaused(o.spec, o.annotation.value, true)), Node(original));
    UndoRecoverable(o, original, SUCCESS);
  }

  // ---------------------------------------------------------------------------
  // What every call keeps, with another executor at work

  /** The mutation can be taken back. */
  predicate Undoable(original: Mapping, m: Mutation) {
    Reversible(original, m) && (m.PauseRollout? ==> PAUSED !in original)
  }

  /** A clean undo gives the original back, and a paused rollout was not paused before. */
  predicate Sound(o: Object, original: Mapping) {
    && Recoverable(o, original)
    && (o.annotation.Some? && o.annotation.value.rolloutPaused ==> PAUSED !in original)
  }

  /** What an executor relies on for its next call still holds. */
  predicate Fit(o: Object, original: Mapping, p: Progress) {
    match p
    case Annotating(_, m, read) => read == original && o.spec == original && Undoable(original, m)
    case Mutating(_, m) =>
      && o.spec == original && Undoable(original, m)
      && o.annotation in {None, Some(Snapshot(original, m.PauseRollout?))}
    case CleaningUp(_) => o.spec == original
    case Resuming(_, s) =>
      s.spec == original && PAUSED !in original && Within(Node(Resumed(o.spec)), Node(original))
    case Restoring(_, s) => s.spec == original && Within(Node(o.spec), Node(original))
    case Clearing(_) => o.spec == original
    case _ => true
  }

  /** A call that loses nothing, with `q` being what the other executor does next if it
      is at work on the same object.  An injection finds its object at its original, and
      its mutation, if it alters anything, finds the snapshot still there and no undo
      past its patch; an undo loses neither its read nor its resume. */
  predicate CarefulCall(o: Object, p: Progress, up: bool, q: Progress) {
    match p
    case Reading(_, m, early) => up && !early ==> o.spec == OriginalOf(o) && Undoable(o.spec, m)
    case Mutating(_, m) => up && Alters(o.spec, m) ==> o.annotation.Some? && !PastPatch(q, m)
    case Fetching(_) => !up && o.annotation.Some? ==> o.spec == OriginalOf(o)
    case Resuming(_, _) => up || PAUSED !in o.spec
    case _ => true
  }

  /** The undo would take this mutation back no more. */
  predicate PastPatch(q: Progress, m: Mutation) { q.Clearing? || (q.Restoring? && m.PauseRollout?) }

  function AfterCall(o: Object, p: Progress, up: bool): Object { if up then Effected(o, p) else o }

  lemma WithinResumed(spec: Mapping, original: Mapping)
    requires Within(Node(spec), Node(original)) && PAUSED !in original
    ensures Resumed(spec) == spec
  {
  }

  lemma MutationFits(original: Mapping, m: Mutation)
    requires Undoable(original, m)
    ensures Within(Node(Resumed(Mutated(original, m))), Node(original))
    ensures !m.PauseRollout? ==> Within(Node(Mutated(original, m)), Node(original))
    ensures Restored(Mutated(original, m), Snapshot(original, m.PauseRollout?), true) == original
  {
    RestoreIsExact(original, m);
    WithinReflexive(Node(original));
    if m.Patch? {
      PatchedWithin(Node(original), Node(m.patch));
    } else {
      forall k | k in original ensures Within(original[k], original[k]) { WithinReflexive(original[k]); }
      assert Resumed(Mutated(original, m)) == Resumed(original);
    }
  }

  /** A careful call leaves its object sound, and its own next call what it relies on. */
  lemma CallKeeps(o: Object, original: Mapping, p: Progress, up: bool, q: Progress)
    requires Sound(o, original) && Fit(o, original, p) && CarefulCall(o, p, up, q)
    ensures Sound(AfterCall(o, p, up), original) && Fit(AfterCall(o, p, up), original, Onward(o, p, up))
  {
    match p
    case Reading(_, _, _) =>
    case Annotating(_, m, read) => RestoresItself(Snapshot(original, m.PauseRollout?));
    case Mutating(_, m) =>
      AltersExactly(original, m);
      MutationFits(original, m);
    case CleaningUp(_) =>
    case Fetching(_) =>
      if o.annotation.Some? {
        MergeRestores(Node(Unpaused(o.spec, o.annotation.value, true)), Node(original));
      }
    case Resuming(_, s) => ResumeKeeps(o, original, s, up);
    case Restoring(_, s) => RestoreKeeps(o, original);
    case Clearing(_) =>
    case _ =>
  }

  lemma ResumeKeeps(o: Object, original: Mapping, s: Snapshot, up: bool)
    requires Sound(o, original) && PAUSED !in original && (up || PAUSED !in o.spec)
    requires Within(Node(Resumed(o.spec)), Node(original))
    ensures var resumed := if up then Resumed(o.spec) else o.spec;
            Sound(o.(spec := resumed), original) && Within(Node(resumed), Node(original))
  {
    if up {
      MergeRestores(Node(Resumed(o.spec)), Node(original));
      assert Resumed(Resumed(o.spec)) == Resumed(o.spec);
      if o.annotation.None? {
        assert Resumed(original) == original;
      }
    } else {
      assert Resumed(o.spec) == o.spec;
    }
  }

  lemma RestoreKeeps(o: Object, original: Mapping)
    requires Sound(o, original) && Within(Node(o.spec), Node(original))
    ensures Overlay(o.spec, original) == original && Sound(o.(spec := original), original)
  {
    MergeRestores(Node(o.spec), Node(original));
    if o.annotation.Some? {
      RestoresItself(o.annotation.value);
    }
  }

  /** ... and it leaves the other executor what that relies on, unless both inject. */
  lemma CallSpares(o: Object, original: Mapping, p: Progress, up: bool, q: Progress)
    requires Sound(o, original) && Fit(o, original, p) && Fit(o, original, q) && CarefulCall(o, p, up, q)
    requires !p.Injects() || !q.Injects()
    ensures Fit(AfterCall(o, p, up), original, q)
  {
    if up {
      match p
      case Mutating(_, m) =>
        AltersExactly(original, m);
        MutationFits(original, m);
      case Resuming(_, s) =>
        WithinReflexive(Node(original));
        if Within(Node(o.spec), Node(original)) {
          WithinResumed(o.spec, original);
        }
        assert Resumed(Resumed(o.spec)) == Resumed(o.spec);
      case Restoring(_, s) =>
        RestoreKeeps(o, original);
        WithinReflexive(Node(original));
        if PAUSED !in original {
          WithinResumed(original, original);
        }
      case _ =>
    }
  }

  /** A call that is not careful does lose something: its object, or what one of the two
      executors relies on. */
  lemma CarelessCall(o: Object, original: Mapping, p: Progress, up: bool, q: Progress)
    requires Sound(o, original) && Fit(o, original, p) && Fit(o, original, q) && !CarefulCall(o, p, up, q)
    ensures var o' := AfterCall(o, p, up);
            !Sound(o', original) || !Fit(o', original, Onward(o, p, up)) || !Fit(o', original, q)
  {
    match p
    case Mutating(_, m) =>
      AltersExactly(original, m);
      if m.PauseRollout? {
        assert PAUSED in Mutated(original, m) && PAUSED !in original;
      }
    case Resuming(_, _) => assert PAUSED in o.spec && PAUSED !in original;
    case _ =>
  }

  /** One call, with another executor at work on its object, keeps all that matters if
      and only if it is careful. */
  lemma CallExactly(o: Object, original: Mapping, p: Progress, up: bool, q: Progress)
    requires Sound(o, original) && Fit(o, original, p) && Fit(o, original, q) && (!p.Injects() || !q.Injects())
    ensures var o' := AfterCall(o, p, up);
            Sound(o', original) && Fit(o', original, Onward(o, p, up)) && Fit(o', original, q) <==>
            CarefulCall(o, p, up, q)
  {
    if CarefulCall(o, p, up, q) {
      CallKeeps(o, original, p, up, q);
      CallSpares(o, original, p, up, q);
    } else {
      CarelessCall(o, original, p, up, q);
    }
  }
}
