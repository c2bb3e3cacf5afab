/** The snapshot protocol over a whole cluster: runs of injections and undos that
    may stop anywhere, draining every pending fault, and the executor itself. */
module SnapshotRuns {
  import opened Outcomes
  import opened Documents
  import opened Snapshots

  // ---------------------------------------------------------------------------
  // Runs with crashes

  /** One executor call on one object, stopping after `crash` of its writing calls. */
  datatype Step =
    | Inject(ref: Ref, m: Mutation, early: bool, injectCalls: InjectCalls, crash: nat)
    | Undo(ref: Ref, undoCalls: UndoCalls, crash: nat)

  function Reached(o: Object, states: seq<Object>, crash: nat): Object {
    if crash == 0 || states == [] then o
    else if crash <= |states| then states[crash - 1]
    else states[|states| - 1]
  }

  function StatesOf(o: Object, step: Step): seq<Object> {
    match step
    case Inject(_, m, early, calls, _) => InjectStates(o, m, early, calls)
    case Undo(_, calls, _) => UndoStates(o, calls)
  }

  function Apply(c: Cluster, step: Step): Cluster {
    if step.ref in c then c[step.ref := Reached(c[step.ref], StatesOf(c[step.ref], step), step.crash)] else c
  }

  function Run(c: Cluster, steps: seq<Step>): Cluster
    decreases |steps|
  {
    if steps == [] then c else Run(Apply(c, steps[0]), steps[1..])
  }

  /** A run of one step is the step, and a run goes on from where its first part got. */
  lemma {:induction false} RunComposes(c: Cluster, step: Step, first: seq<Step>, rest: seq<Step>)
    ensures Run(c, [step]) == Apply(c, step)
    ensures Run(c, first + rest) == Run(Run(c, first), rest)
    decreases |first|
  {
    if first == [] {
      assert first + rest == rest;
    } else {
      assert (first + rest)[1..] == first[1..] + rest;
      RunComposes(Apply(c, first[0]), step, first[1..], rest);
    }
  }

  /** The object can be brought back to its original by one undo, or is there already. */
  predicate Recoverable(o: Object, original: Mapping) {
    && Anchored(o, original)
    && (o.annotation.Some? ==> Restored(o.spec, o.annotation.value, true) == original)
  }

  /** The spec an object had before the fault that is on it, if one is. */
  function OriginalOf(o: Object): Mapping { if o.annotation.Some? then o.annotation.value.spec else o.spec }

  /** A step that loses nothing. An injection that writes a snapshot finds the object at
      its original, and adds no key if its mutation goes through; an undo that clears
      the annotation may clear it. */
  predicate Careful(o: Object, step: Step) {
    match step
    case Inject(_, m, early, calls, _) =>
      !early && calls.get && calls.annotate ==>
        o.spec == OriginalOf(o) && (Injects(m, early, calls) ==> Reversible(o.spec, m))
    case Undo(_, calls, _) => o.annotation.Some? && calls.clear ==> MayClear(o, calls)
  }

  predicate CarefulRun(c: Cluster, steps: seq<Step>)
    decreases |steps|
  {
    steps != [] ==>
      && (steps[0].ref in c ==> Careful(c[steps[0].ref], steps[0]))
      && CarefulRun(Apply(c, steps[0]), steps[1..])
  }

  predicate AllRecoverable(c: Cluster, originals: map<Ref, Mapping>) {
    c.Keys == originals.Keys && forall r | r in c :: Recoverable(c[r], originals[r])
  }

  lemma RestoresItself(s: Snapshot)
    ensures Restored(s.spec, s, true) == s.spec
  {
    WithinReflexive(Node(s.spec));
    MergeRestores(Node(s.spec), Node(s.spec));
    RestoreIsExact(s.spec, Refused);
    forall k | k in s.spec ensures Within(s.spec[k], s.spec[k]) { WithinReflexive(s.spec[k]); }
    assert Within(Node(Resumed(s.spec)), Node(s.spec));
    MergeRestores(Node(Resumed(s.spec)), Node(s.spec));
  }

  /** The object is recoverable wherever the step is stopped. */
  ghost predicate StaysRecoverable(o: Object, original: Mapping, step: Step) {
    forall crash: nat :: Recoverable(Reached(o, StatesOf(o, step), crash), original)
  }

  lemma EachState(o: Object, original: Mapping, step: Step)
    requires Recoverable(o, original)
    ensures StaysRecoverable(o, original, step) <==> forall x | x in StatesOf(o, step) :: Recoverable(x, original)
  {
    var states := StatesOf(o, step);
    if StaysRecoverable(o, original, step) {
      forall i | 0 <= i < |states| ensures Recoverable(states[i], original) {
        assert Reached(o, states, i + 1) == states[i];
      }
    }
  }

  /** A step leaves a recoverable object recoverable at every crash point exactly when
      it is careful. */
  lemma CarefulExactly(o: Object, original: Mapping, step: Step)
    requires Recoverable(o, original)
    ensures StaysRecoverable(o, original, step) <==> Careful(o, step)
  {
    EachState(o, original, step);
    match step
    case Inject(_, m, early, calls, _) => InjectRecoverable(o, original, m, early, calls);
    case Undo(_, calls, _) => UndoRecoverable(o, original, calls);
  }

  lemma InjectRecoverable(o: Object, original: Mapping, m: Mutation, early: bool, calls: InjectCalls)
    requires Recoverable(o, original)
    ensures (forall x | x in InjectStates(o, m, early, calls) :: Recoverable(x, original)) <==>
            (!early && calls.get && calls.annotate ==>
               o.spec == original && (Injects(m, early, calls) ==> Reversible(original, m)))
  {
    var states := InjectStates(o, m, early, calls);
    if !early && calls.get && calls.annotate {
      assert states[0] == Annotated(o, m) && states[0] in states && states[1] in states;
      RestoresItself(Snapshot(o.spec, m.PauseRollout?));
      if o.spec == original {
        RestoreIsExact(original, m);
      }
    }
  }

  lemma UndoRecoverable(o: Object, original: Mapping, calls: UndoCalls)
    requires Recoverable(o, original)
    ensures (forall x | x in UndoStates(o, calls) :: Recoverable(x, original)) <==>
            (o.annotation.Some? && calls.clear ==> MayClear(o, calls))
  {
    var states := UndoStates(o, calls);
    if o.annotation.Some? {
      UndoKeepsAnchor(o, original, calls);
      forall x | x in states && x.annotation.Some? ensures Restored(x.spec, x.annotation.value, true) == original {
        AnnotatedStaysRestorable(o, calls, x);
      }
    } else {
      assert states == [o];
    }
  }

  /** As long as the annotation stays, so does what a clean undo gives back. */
  lemma AnnotatedStaysRestorable(o: Object, calls: UndoCalls, x: Object)
    requires o.annotation.Some? && x in UndoStates(o, calls) && x.annotation.Some?
    ensures x.annotation == o.annotation
    ensures Restored(x.spec, o.annotation.value, true) == Restored(o.spec, o.annotation.value, true)
  {
    var s := o.annotation.value;
    assert Resumed(Resumed(o.spec)) == Resumed(o.spec);
    assert x.spec in {o.spec, Resumed(o.spec), Restored(o.spec, s, calls.resume)};
    if x.spec == Restored(o.spec, s, calls.resume) {
      RestoredRestores(o.spec, s, calls.resume);
    }
  }

  /** Pausing apart, merging the same spec twice is merging it once. */
  lemma ResumedBetween(spec: Mapping, s: Mapping)
    ensures Overlay(Resumed(Overlay(spec, s)), s) == Overlay(Resumed(spec), s)
  {
    var twice, once := Overlay(Resumed(Overlay(spec, s)), s), Overlay(Resumed(spec), s);
    assert twice.Keys == once.Keys;
    forall k | k in once ensures twice[k] == once[k] {
      if k in s {
        WithinReflexive(s[k]);
        MergeRestores(s[k], s[k]);
        if k in spec { MergeIdempotent(spec[k], s[k]); }
      }
    }
  }

  /** Restoring again, resumed or not before, is restoring once. */
  lemma RestoredRestores(spec: Mapping, s: Snapshot, resumed: bool)
    ensures Restored(Restored(spec, s, resumed), s, true) == Restored(spec, s, true)
  {
    if s.rolloutPaused && !resumed {
      ResumedBetween(spec, s.spec);
    } else {
      RestoreIsIdempotent(spec, s);
    }
  }

  lemma ApplyRecoverable(c: Cluster, originals: map<Ref, Mapping>, step: Step)
    requires AllRecoverable(c, originals) && (step.ref in c ==> Careful(c[step.ref], step))
    ensures AllRecoverable(Apply(c, step), originals)
  {
    if step.ref in c {
      CarefulExactly(c[step.ref], originals[step.ref], step);
      assert Recoverable(Reached(c[step.ref], StatesOf(c[step.ref], step), step.crash), originals[step.ref]);
    }
  }

  /** Over every run of careful steps, each stopped anywhere, every object stays recoverable. */
  lemma {:induction false} RunsStayRecoverable(c: Cluster, originals: map<Ref, Mapping>, steps: seq<Step>)
    requires AllRecoverable(c, originals) && CarefulRun(c, steps)
    ensures AllRecoverable(Run(c, steps), originals)
    decreases |steps|
  {
    if steps != [] {
      ApplyRecoverable(c, originals, steps[0]);
      RunsStayRecoverable(Apply(c, steps[0]), originals, steps[1..]);
    }
  }

  // ---------------------------------------------------------------------------
  // Draining

  /** The objects `find_annotated` can return. */
  function Pending(c: Cluster, namespace: string, kinds: set<string>): set<Ref> {
    set r | r in c && c[r].annotation.Some? && r.namespace == namespace && r.kind in kinds
  }

  function Undone(o: Object): Object
    requires o.annotation.Some?
  {
    Object(Restored(o.spec, o.annotation.value, true), None)
  }

  /** An undo in which every call exits zero. */
  function CleanUndo(c: Cluster, r: Ref): Cluster
    requires r in c && c[r].annotation.Some?
  {
    c[r := Undone(c[r])]
  }

  lemma CleanUndoIsLastState(o: Object)
    requires o.annotation.Some?
    ensures var states := UndoStates(o, UndoCalls(true, true, true, true));
            states[|states| - 1] == Undone(o) && UndoSucceeds(o, UndoCalls(true, true, true, true))
  {
  }

  /** Each undo picks some object that is still annotated when its turn comes. */
  predicate ValidPicks(c: Cluster, namespace: string, kinds: set<string>, picks: seq<Ref>)
    decreases |picks|
  {
    picks != [] ==>
      && picks[0] in Pending(c, namespace, kinds)
      && ValidPicks(CleanUndo(c, picks[0]), namespace, kinds, picks[1..])
  }

  function UndoAll(c: Cluster, namespace: string, kinds: set<string>, picks: seq<Ref>): Cluster
    requires ValidPicks(c, namespace, kinds, picks)
    decreases |picks|
  {
    if picks == [] then c else UndoAll(CleanUndo(c, picks[0]), namespace, kinds, picks[1..])
  }

  /** Every pending object restored from its own snapshot, and nothing else touched. */
  function Drained(c: Cluster, namespace: string, kinds: set<string>): Cluster {
    map r | r in c :: if r in Pending(c, namespace, kinds) then Undone(c[r]) else c[r]
  }

  /** As many undos as there are pending objects drain them all: each object is
      restored exactly once, in whatever order they were picked. */
  lemma {:induction false} AnyOrderDrains(c: Cluster, namespace: string, kinds: set<string>, picks: seq<Ref>)
    requires ValidPicks(c, namespace, kinds, picks) && |picks| == |Pending(c, namespace, kinds)|
    ensures UndoAll(c, namespace, kinds, picks) == Drained(c, namespace, kinds)
    ensures multiset(picks) == multiset(Pending(c, namespace, kinds))
    decreases |picks|
  {
    var pending := Pending(c, namespace, kinds);
    if picks != [] {
      var next := CleanUndo(c, picks[0]);
      assert Pending(next, namespace, kinds) == pending - {picks[0]};
      AnyOrderDrains(next, namespace, kinds, picks[1..]);
      assert picks == [picks[0]] + picks[1..];
      assert Drained(next, namespace, kinds) == Drained(c, namespace, kinds);
    } else {
      assert pending == {};
      assert Drained(c, namespace, kinds) == c;
    }
  }

  /** Nothing is left, so every further undo finds nothing and changes nothing. */
  lemma NothingLeftToUndo(c: Cluster, namespace: string, kinds: set<string>)
    ensures Pending(Drained(c, namespace, kinds), namespace, kinds) == {}
    ensures Drained(Drained(c, namespace, kinds), namespace, kinds) == Drained(c, namespace, kinds)
  {
  }

  /** Crash-safe recovery: after any careful run, stopped anywhere, draining leaves
      every pending object with its original spec and no annotation. */
  lemma RunsRecover(c: Cluster, originals: map<Ref, Mapping>, steps: seq<Step>, namespace: string, kinds: set<string>,
                    picks: seq<Ref>)
    requires AllRecoverable(c, originals) && CarefulRun(c, steps)
    requires ValidPicks(Run(c, steps), namespace, kinds, picks)
    requires |picks| == |Pending(Run(c, steps), namespace, kinds)|
    ensures var end := UndoAll(Run(c, steps), namespace, kinds, picks);
            && end.Keys == originals.Keys
            && forall r | r in end && r.namespace == namespace && r.kind in kinds ::
                 end[r] == Object(originals[r], None)
  {
    RunsStayRecoverable(c, originals, steps);
    AnyOrderDrains(Run(c, steps), namespace, kinds, picks);
  }

  // ---------------------------------------------------------------------------
  // Inject, then drain

  /** Successful injections, one per target. */
  function InjectAll(c: Cluster, faults: map<Ref, Mutation>): Cluster {
    map r | r in c :: if r in faults then Annotated(c[r], faults[r]).(spec := Mutated(c[r].spec, faults[r])) else c[r]
  }

  /** Injecting into any number of unannotated objects and draining them gives back
      the very same cluster, exactly when no patch wrote a key its target lacked. */
  lemma DrainUndoesInject(c: Cluster, faults: map<Ref, Mutation>, namespace: string, kinds: set<string>)
    requires faults.Keys <= c.Keys && forall r | r in faults :: r.namespace == namespace && r.kind in kinds
    requires forall r | r in c :: c[r].annotation.None?
    ensures Pending(InjectAll(c, faults), namespace, kinds) == faults.Keys
    ensures Drained(InjectAll(c, faults), namespace, kinds) == c <==>
            forall r | r in faults :: Reversible(c[r].spec, faults[r])
  {
    var injected := InjectAll(c, faults);
    var drained := Drained(injected, namespace, kinds);
    forall r | r in faults ensures drained[r] == c[r] <==> Reversible(c[r].spec, faults[r]) {
      RestoreIsExact(c[r].spec, faults[r]);
    }
    if forall r | r in faults :: Reversible(c[r].spec, faults[r]) {
      assert forall r | r in c :: drained[r] == c[r];
    }
  }
}
