/** The write-ahead snapshot protocol of the controller-level Kubernetes faults.

    Injection stores the object's spec in an annotation on the object itself and
    only then mutates it; undo finds an annotated object, merges the stored spec
    back and clears the annotation.  A kubectl call that exits non-zero has no
    effect, and the process may die after any call, so what matters is every state
    the calls go through. */
module Snapshots {
  import opened Outcomes
  import opened Documents

  datatype Ref = Ref(kind: string, name: string, namespace: string)

  /** The JSON of the restore annotation. */
  datatype Snapshot = Snapshot(spec: Mapping, rolloutPaused: bool)

  datatype Object = Object(spec: Mapping, annotation: Option<Snapshot>)

  type Cluster = map<Ref, Object>

  /** What a fault does to the spec once the snapshot is written.  `kubectl scale` is
      the patch of `replicas`; `Refused` is a `_mutate` that gives up by itself. */
  datatype Mutation = Patch(patch: Mapping) | PauseRollout | Refused

  const PAUSED := "paused"

  function Mutated(spec: Mapping, m: Mutation): Mapping {
    match m
    case Patch(p) => Overlay(spec, p)
    case PauseRollout => spec[PAUSED := Leaf("true")]
    case Refused => spec
  }

  /** Whether a fault changes anything: a patch that says something new, or a rollout
      that is not paused yet. */
  predicate Alters(spec: Mapping, m: Mutation) {
    match m
    case Patch(p) => !Agrees(Node(spec), Node(p))
    case PauseRollout => PAUSED !in spec || spec[PAUSED] != Leaf("true")
    case Refused => false
  }

  lemma AltersExactly(spec: Mapping, m: Mutation)
    ensures Mutated(spec, m) == spec <==> !Alters(spec, m)
  {
    match m
    case Patch(p) => MergeAgrees(Node(spec), Node(p));
    case PauseRollout => assert Mutated(spec, m)[PAUSED] == Leaf("true");
    case Refused =>
  }

  /** `kubectl rollout resume` drops the pause marker. */
  function Resumed(spec: Mapping): Mapping { spec - {PAUSED} }

  // ---------------------------------------------------------------------------
  // One injection and one undo, call by call

  /** Which calls exit zero. */
  datatype InjectCalls = InjectCalls(get: bool, annotate: bool, mutate: bool, clear: bool)

  datatype UndoCalls = UndoCalls(get: bool, resume: bool, patch: bool, clear: bool)

  function Annotated(o: Object, m: Mutation): Object {
    o.(annotation := Some(Snapshot(o.spec, m.PauseRollout?)))
  }

  function Cleared(o: Object, exitsZero: bool): Object {
    if exitsZero then o.(annotation := None) else o
  }

  /** Whether an injection reaches its mutation. `early` is a refusal before the
      snapshot: a spec too large for the annotation, a quota without that limit. */
  predicate Injects(m: Mutation, early: bool, calls: InjectCalls) {
    !early && calls.get && calls.annotate && calls.mutate && !m.Refused?
  }

  /** The object after each writing call of an injection. */
  function InjectStates(o: Object, m: Mutation, early: bool, calls: InjectCalls): seq<Object> {
    if early || !calls.get then []
    else if !calls.annotate then [o]
    else
      var noted := Annotated(o, m);
      if m.Refused? then [noted, Cleared(noted, calls.clear)]
      else if calls.mutate then [noted, noted.(spec := Mutated(o.spec, m))]
      else [noted, noted, Cleared(noted, calls.clear)]
  }

  /** The spec the snapshot is merged over. */
  function Unpaused(spec: Mapping, s: Snapshot, resumed: bool): Mapping {
    if s.rolloutPaused && resumed then Resumed(spec) else spec
  }

  /** The spec `_restore` leaves, given whether the rollout was resumed. */
  function Restored(spec: Mapping, s: Snapshot, resumed: bool): Mapping {
    Overlay(Unpaused(spec, s, resumed), s.spec)
  }

  /** The annotated object after each writing call of an undo. */
  function UndoStates(o: Object, calls: UndoCalls): seq<Object> {
    if o.annotation.None? || !calls.get then [Cleared(o, calls.clear)]
    else
      var s := o.annotation.value;
      var resume := if s.rolloutPaused then [o.(spec := if calls.resume then Resumed(o.spec) else o.spec)] else [];
      if !calls.patch then resume + [if resume == [] then o else resume[0]]
      else
        var restored := o.(spec := Restored(o.spec, s, calls.resume));
        resume + [restored, Cleared(restored, calls.clear)]
  }

  predicate UndoSucceeds(o: Object, calls: UndoCalls) {
    o.annotation.None? || !calls.get || calls.patch
  }

  // ---------------------------------------------------------------------------
  // The write-ahead invariant

  /** An unannotated object is as it was; an annotated one carries exactly the spec
      it had. */
  predicate Anchored(o: Object, original: Mapping) {
    match o.annotation
    case None => o.spec == original
    case Some(s) => s.spec == original
  }

  predicate AllAnchored(states: seq<Object>, original: Mapping) {
    forall s | s in states :: Anchored(s, original)
  }

  /** Injection keeps the invariant at every crash point, exactly when the object
      still has its original spec, or the snapshot is never written.  A second
      injection into a mutated object overwrites the only copy of the original. */
  lemma InjectKeepsAnchor(o: Object, original: Mapping, m: Mutation, early: bool, calls: InjectCalls)
    requires Anchored(o, original)
    ensures AllAnchored(InjectStates(o, m, early, calls), original) <==>
            o.spec == original || early || !calls.get || !calls.annotate
  {
    var states := InjectStates(o, m, early, calls);
    if !early && calls.get && calls.annotate {
      assert states[0] == Annotated(o, m) && states[0] in states;
      forall s | s in states && o.spec == original ensures Anchored(s, original) {
        assert s in [Annotated(o, m), Annotated(o, m).(spec := Mutated(o.spec, m)),
            Cleared(Annotated(o, m), calls.clear)];
      }
    }
  }

  /** In particular: into an unannotated object, whatever fails and wherever it stops. */
  lemma WriteAhead(o: Object, m: Mutation, early: bool, calls: InjectCalls)
    requires o.annotation.None?
    ensures AllAnchored(InjectStates(o, m, early, calls), o.spec)
  {
    InjectKeepsAnchor(o, o.spec, m, early, calls);
  }

  /** The executors that ignore whether the snapshot was written: Service,
      HorizontalPodAutoscaler, ConfigMap.  `stored` is the spec they put in it. */
  function UncheckedInjectStates(o: Object, stored: Mapping, m: Mutation, calls: InjectCalls): seq<Object> {
    if !calls.get then []
    else
      var noted := if calls.annotate then o.(annotation := Some(Snapshot(stored, false))) else o;
      if m.Refused? then [noted, Cleared(noted, calls.clear)]
      else if calls.mutate then [noted, noted.(spec := Mutated(o.spec, m))]
      else [noted, noted, Cleared(noted, calls.clear)]
  }

  /** Their object ends with the mutated spec exactly when its read and its mutation went
      through, and otherwise with the spec it had, whether or not the snapshot was written;
      and with the snapshot if that was written, unless it was cleared after a failure. */
  lemma UncheckedMutatesExactly(o: Object, stored: Mapping, m: Mutation, calls: InjectCalls)
    ensures var states := UncheckedInjectStates(o, stored, m, calls);
            && (states == [] <==> !calls.get)
            && (calls.get ==>
                  && |states| >= 2
                  && states[|states| - 1].spec == (if calls.mutate && !m.Refused? then Mutated(o.spec, m) else o.spec)
                  && states[|states| - 1].annotation ==
                     (if calls.clear && (m.Refused? || !calls.mutate) then None
                      else if calls.annotate then Some(Snapshot(stored, false))
                      else o.annotation))
  {
    if m.Refused? {
      assert Mutated(o.spec, m) == o.spec;
    }
  }

  /** They keep the invariant exactly when a snapshot that is written holds the spec,
      and a mutation without a snapshot alters nothing. */
  lemma UncheckedInjectKeepsAnchor(o: Object, stored: Mapping, m: Mutation, calls: InjectCalls)
    requires o.annotation.None?
    ensures AllAnchored(UncheckedInjectStates(o, stored, m, calls), o.spec) <==>
            (calls.get ==>
               if calls.annotate then stored == o.spec
               else calls.mutate ==> !Alters(o.spec, m))
  {
    AltersExactly(o.spec, m);
    var states := UncheckedInjectStates(o, stored, m, calls);
    if calls.get {
      assert states[0] in states && states[1] in states;
    }
  }

  const PLACEHOLDER: Mapping := map["mayhem-corrupted" := Leaf("\"empty-configmap\"")]

  /** The data a ConfigMap fault stores and corrupts: an empty one gets a placeholder. */
  function Backed(data: Mapping): Mapping { if data == map[] then PLACEHOLDER else data }

  /** So the snapshot of an empty ConfigMap is not its data, and a clean undo leaves
      the placeholder in it. */
  lemma ConfigMapRestored(data: Mapping, corrupted: Mapping)
    requires corrupted.Keys == Backed(data).Keys && forall k | k in corrupted :: corrupted[k].Leaf?
    ensures Restored(Mutated(data, Patch(corrupted)), Snapshot(Backed(data), false), true) ==
            if data == map[] then map["mayhem-corrupted" := Leaf("\"empty-configmap\"")] else data
  {
    if data == map[] {
      assert "mayhem-corrupted" in Restored(Mutated(data, Patch(corrupted)), Snapshot(Backed(data), false), true);
    } else {
      assert Within(Node(corrupted), Node(data));
      RestoreIsExact(data, Patch(corrupted));
    }
  }

  /** CoreDNS: the patch is followed by a restart, and a failed restart clears the
      snapshot of a configuration that is already mutated. */
  function DnsInjectStates(o: Object, m: Mutation, calls: InjectCalls, restart: bool): seq<Object> {
    var states := InjectStates(o, m, false, calls);
    if Injects(m, false, calls) && !restart then states + [Cleared(states[1], calls.clear)] else states
  }

  lemma DnsInjectKeepsAnchor(o: Object, m: Mutation, calls: InjectCalls, restart: bool)
    requires o.annotation.None?
    ensures AllAnchored(DnsInjectStates(o, m, calls, restart), o.spec) <==>
            (Injects(m, false, calls) && !restart && calls.clear ==> !Alters(o.spec, m))
  {
    AltersExactly(o.spec, m);
    WriteAhead(o, m, false, calls);
    var states := DnsInjectStates(o, m, calls, restart);
    if Injects(m, false, calls) && !restart {
      assert states[2] in states;
    }
  }

  /** Whether an undo may end by clearing the annotation: if the snapshot cannot be
      read, the object still has the original spec, and otherwise no key of the object
      is one the original lacks. */
  predicate MayClear(o: Object, calls: UndoCalls)
    requires o.annotation.Some?
  {
    var s := o.annotation.value;
    if !calls.get then o.spec == s.spec
    else calls.patch ==> Within(Node(Unpaused(o.spec, s, calls.resume)), Node(s.spec))
  }

  /** Undo keeps the invariant at every crash point, exactly unless its last call
      clears an annotation it may not clear. */
  lemma UndoKeepsAnchor(o: Object, original: Mapping, calls: UndoCalls)
    requires Anchored(o, original) && o.annotation.Some?
    ensures AllAnchored(UndoStates(o, calls), original) <==> (calls.clear ==> MayClear(o, calls))
  {
    var states, s := UndoStates(o, calls), o.annotation.value;
    var last := states[|states| - 1];
    assert last in states;
    MergeRestores(Node(Unpaused(o.spec, s, calls.resume)), Node(original));
    if calls.get {
      forall x | x in states && x != last ensures Anchored(x, original) {}
    }
  }

  /** A failed read does lose a fault: undo takes the annotation for stale, clears
      it, reports success, and leaves the mutated spec without its snapshot. */
  lemma UnreadSnapshotIsLost(original: Mapping, spec: Mapping, paused: bool)
    requires spec != original
    ensures var o := Object(spec, Some(Snapshot(original, paused)));
            var calls := UndoCalls(get := false, resume := true, patch := true, clear := true);
            Anchored(o, original) && UndoSucceeds(o, calls) && !AllAnchored(UndoStates(o, calls), original)
  {
    var o := Object(spec, Some(Snapshot(original, paused)));
    UndoKeepsAnchor(o, original, UndoCalls(get := false, resume := true, patch := true, clear := true));
  }

  // ---------------------------------------------------------------------------
  // Restoring

  /** The mutations a restore undoes exactly. */
  predicate Reversible(original: Mapping, m: Mutation) {
    m.Patch? ==> Within(Node(m.patch), Node(original))
  }

  /** Undo gives back the original spec exactly when the patch wrote no key the
      original lacks; a paused rollout always comes back if the resume goes through. */
  lemma RestoreIsExact(original: Mapping, m: Mutation)
    ensures Restored(Mutated(original, m), Snapshot(original, m.PauseRollout?), true) == original <==>
            Reversible(original, m)
  {
    match m
    case Patch(p) => RestoreExactness(Node(original), Node(p));
    case PauseRollout =>
      WithinReflexive(Node(original));
      MergeRestores(Node(Resumed(Mutated(original, m))), Node(original));
      forall k | k in original ensures Within(original[k], original[k]) { WithinReflexive(original[k]); }
      assert Within(Node(Resumed(Mutated(original, m))), Node(original));
    case Refused =>
      WithinReflexive(Node(original));
      MergeRestores(Node(original), Node(original));
  }

  /** A resume that fails is not noticed: the annotation goes and the rollout stays
      paused, unless the original spec had a pause marker of its own. */
  lemma LostResume(original: Mapping)
    ensures Restored(Mutated(original, PauseRollout), Snapshot(original, true), false) == original <==>
            "paused" in original
  {
    var paused := Mutated(original, PauseRollout);
    MergeRestores(Node(paused), Node(original));
    forall k | k in original ensures Within(original[k], original[k]) { WithinReflexive(original[k]); }
    assert Within(Leaf("true"), Leaf("true"));
    if PAUSED in original {
      assert Within(Node(paused), Node(original));
    } else {
      assert PAUSED in paused;
    }
  }

  /** Restoring the restored spec again changes nothing. */
  lemma RestoreIsIdempotent(spec: Mapping, s: Snapshot)
    ensures Restored(Restored(spec, s, true), s, true) == Restored(spec, s, true)
  {
    var once := Restored(spec, s, true);
    MergeIdempotent(Node(if s.rolloutPaused then Resumed(spec) else spec), Node(s.spec));
    assert Overlay(once, s.spec) == once;
    assert s.rolloutPaused ==> Overlay(Resumed(once), s.spec) == once;
  }
}
