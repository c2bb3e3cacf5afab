/** The executors as they run: kubectl calls one after another against the object
    store, each recorded in `history`, where a crash may strike. */
module SnapshotExecutor {
  import opened Outcomes
  import opened Documents
  import opened Snapshots
  import opened SnapshotRuns

  /** The cluster after each of an object's states. */
  function Lift(c: Cluster, ref: Ref, states: seq<Object>): seq<Cluster> {
    seq(|states|, i requires 0 <= i < |states| => c[ref := states[i]])
  }

  lemma LiftNext(c: Cluster, ref: Ref, states: seq<Object>, next: Object)
    ensures Lift(c, ref, states + [next]) == Lift(c, ref, states) + [c[ref := next]]
  {
  }

  /** The API objects behind kubectl. `up` says whether a call would exit zero on an
      object that exists. */
  class ApiObjects {
    var objects: Cluster
    ghost var history: seq<Cluster>

    constructor (objects: Cluster)
      ensures this.objects == objects && history == []
    {
      this.objects, history := objects, [];
    }

    method GetJson(ref: Ref, up: bool) returns (r: Option<Object>)
      ensures r == if up && ref in objects then Some(objects[ref]) else None
    {
      r := if up && ref in objects then Some(objects[ref]) else None;
    }

    /** Any call that writes one object: annotate, patch, scale, rollout. */
    method Write(ref: Ref, to: Object, up: bool) returns (ok: bool)
      modifies this
      ensures ok == (up && ref in old(objects))
      ensures objects == if ok then old(objects)[ref := to] else old(objects)
      ensures history == old(history) + [objects]
    {
      ok := up && ref in objects;
      if ok {
        objects := objects[ref := to];
      }
      history := history + [objects];
    }

    /** A write, seen from the state `c` the executor started in: after `states`, one
        more state of the same object. */
    method WriteNext(ref: Ref, to: Object, up: bool, ghost c: Cluster, ghost h: seq<Cluster>, ghost states: seq<Object>)
      returns (ok: bool, ghost states': seq<Object>)
      requires ref in c && objects == c[ref := Reached(c[ref], states, |states|)] && history == h + Lift(c, ref, states)
      modifies this
      ensures ok == up
      ensures states' == states + [if up then to else Reached(c[ref], states, |states|)]
      ensures objects == c[ref := Reached(c[ref], states', |states'|)] && history == h + Lift(c, ref, states')
    {
      var next := if up then to else objects[ref];
      LiftNext(c, ref, states, next);
      ok := Write(ref, to, up);
      assert objects == c[ref := next];
      states' := states + [next];
    }

    /** `find_annotated`: the first match of the listing, which may be any. */
    method FindAnnotated(namespace: string, kinds: set<string>, up: bool) returns (r: Option<Ref>)
      ensures r.Some? <==> up && Pending(objects, namespace, kinds) != {}
      ensures r.Some? ==> r.value in Pending(objects, namespace, kinds)
    {
      var pending := Pending(objects, namespace, kinds);
      if !up || pending == {} {
        return None;
      }
      var first :| first in pending;
      return Some(first);
    }

    /** `inject` of the workload, quota, claim and disruption-budget executors. */
    method Inject(ref: Ref, m: Mutation, early: bool, calls: InjectCalls) returns (ok: bool)
      modifies this
      ensures ref !in old(objects) ==> !ok && objects == old(objects) && history == old(history)
      ensures ref in old(objects) ==>
                var o := old(objects[ref]);
                var states := InjectStates(o, m, early, calls);
                && (ok <==> !early && calls.get && calls.annotate && calls.mutate && !m.Refused?)
                && objects.Keys == old(objects).Keys
                && objects[ref].spec == (if ok then Mutated(o.spec, m) else o.spec)
                && history == old(history) + Lift(old(objects), ref, states)
                && objects == Apply(old(objects), Step.Inject(ref, m, early, calls, |states|))
    {
      ghost var c, h := objects, history;
      ghost var states: seq<Object> := [];
      var obj := GetJson(ref, calls.get);
      if obj.None? || early {
        return false;
      }
      assert c[ref := c[ref]] == c;
      var noted := Annotated(obj.value, m);
      ok, states := WriteNext(ref, noted, calls.annotate, c, h, states);
      if !ok {
        return;
      }
      if !m.Refused? {
        ok, states := WriteNext(ref, noted.(spec := Mutated(obj.value.spec, m)), calls.mutate, c, h, states);
        if ok {
          return;
        }
      }
      ok, states := WriteNext(ref, noted.(annotation := None), calls.clear, c, h, states);
      return false;
    }

    /** `inject` of the Service, HorizontalPodAutoscaler and ConfigMap executors. */
    method InjectUnchecked(ref: Ref, stored: Mapping, m: Mutation, calls: InjectCalls) returns (ok: bool)
      modifies this
      ensures ref !in old(objects) ==> !ok && objects == old(objects) && history == old(history)
      ensures ref in old(objects) ==>
                var o := old(objects[ref]);
                var states := UncheckedInjectStates(o, stored, m, calls);
                && (ok <==> calls.get && !m.Refused? && calls.mutate)
                && objects.Keys == old(objects).Keys
                && objects[ref].spec == (if ok then Mutated(o.spec, m) else o.spec)
                && history == old(history) + Lift(old(objects), ref, states)
                && objects == old(objects)[ref := Reached(o, states, |states|)]
    {
      hide Mutated;
      ghost var c, h := objects, history;
      ghost var states: seq<Object> := [];
      var obj := GetJson(ref, calls.get);
      assert ref in c ==> c[ref := c[ref]] == c;
      if obj.None? {
        return false;
      }
      var _, noted := WriteNext(ref, obj.value.(annotation := Some(Snapshot(stored, false))), calls.annotate, c, h,
          states);
      states := noted;
      if !m.Refused? {
        ok, states := WriteNext(ref, objects[ref].(spec := Mutated(obj.value.spec, m)), calls.mutate, c, h, states);
        if ok {
          return;
        }
      }
      ok, states := WriteNext(ref, objects[ref].(annotation := None), calls.clear, c, h, states);
      return false;
    }

    /** `inject` of the CoreDNS executor, and the restart of its deployment. */
    method InjectDns(ref: Ref, m: Mutation, calls: InjectCalls, restart: bool) returns (ok: bool)
      modifies this
      ensures ref !in old(objects) ==> !ok && objects == old(objects) && history == old(history)
      ensures ref in old(objects) ==>
                var o := old(objects[ref]);
                var states := DnsInjectStates(o, m, calls, restart);
                && (ok <==> calls.get && calls.annotate && calls.mutate && !m.Refused? && restart)
                && objects.Keys == old(objects).Keys
                && objects[ref].spec == (if calls.get && calls.annotate && calls.mutate && !m.Refused?
                                         then Mutated(o.spec, m) else o.spec)
                && history == old(history) + Lift(old(objects), ref, states)
                && objects == old(objects)[ref := Reached(o, states, |states|)]
    {
      ghost var c, h := objects, history;
      ok := Inject(ref, m, false, calls);
      if ok && !restart {
        ghost var states := InjectStates(c[ref], m, false, calls);
        var _, _ := WriteNext(ref, objects[ref].(annotation := None), calls.clear, c, h, states);
        ok := false;
      }
    }

    /** `_restore`: resume a paused rollout, ignoring the result, and merge the spec. */
    method Restore(r: Ref, s: Snapshot, calls: UndoCalls, ghost c: Cluster, ghost h: seq<Cluster>)
      returns (ok: bool, ghost states: seq<Object>)
      requires r in objects && objects == c && history == h
      modifies this
      ensures ok == calls.patch
      ensures states == (if s.rolloutPaused then [c[r].(spec := if calls.resume then Resumed(c[r].spec)
              else c[r].spec)] else []) +
                        [if calls.patch then c[r].(spec := Restored(c[r].spec, s, calls.resume))
                         else if s.rolloutPaused && calls.resume then c[r].(spec := Resumed(c[r].spec)) else c[r]]
      ensures objects == c[r := Reached(c[r], states, |states|)] && history == h + Lift(c, r, states)
    {
      states := [];
      assert c[r := c[r]] == c;
      if s.rolloutPaused {
        ok, states := WriteNext(r, objects[r].(spec := Resumed(objects[r].spec)), calls.resume, c, h, states);
      }
      ok, states := WriteNext(r, objects[r].(spec := Overlay(objects[r].spec, s.spec)), calls.patch, c, h, states);
    }

    /** `undo`, once it has found its object.  Whether clearing the annotation worked
        makes no difference to the outcome. */
    method UndoFound(r: Ref, calls: UndoCalls) returns (ok: bool)
      requires r in objects && objects[r].annotation.Some?
      modifies this
      ensures var o := old(objects[r]);
              var states := UndoStates(o, calls);
              && (ok <==> !calls.get || calls.patch)
              && history == old(history) + Lift(old(objects), r, states)
              && objects == old(objects)[r := Reached(o, states, |states|)]
    {
      ghost var c, h := objects, history;
      ghost var states: seq<Object> := [];
      assert c[r := c[r]] == c;
      var obj := GetJson(r, calls.get);
      if obj.None? {
        ok, states := WriteNext(r, objects[r].(annotation := None), calls.clear, c, h, states);
        return true;
      }
      ok, states := Restore(r, obj.value.annotation.value, calls, c, h);
      if ok {
        ok, states := WriteNext(r, objects[r].(annotation := None), calls.clear, c, h, states);
        ok := true;
      }
    }

    /** `K8sSnapshotExecutor.undo`: a listing that fails reads as nothing to undo. */
    method Undo(namespace: string, kinds: set<string>, find: bool, calls: UndoCalls)
      returns (ok: bool, ghost picked: Option<Ref>)
      modifies this
      ensures picked.Some? <==> find && Pending(old(objects), namespace, kinds) != {}
      ensures picked.None? ==> ok && objects == old(objects) && history == old(history)
      ensures picked.Some? ==>
                && picked.value in Pending(old(objects), namespace, kinds)
                && var o := old(objects)[picked.value];
                var states := UndoStates(o, calls);
                && (ok <==> !calls.get || calls.patch)
                && history == old(history) + Lift(old(objects), picked.value, states)
                && objects == Apply(old(objects), Step.Undo(picked.value, calls, |states|))
    {
      var found := FindAnnotated(namespace, kinds, find);
      picked := found;
      if found.None? {
        return true, picked;
      }
      ok := UndoFound(found.value, calls);
    }

    /** Injecting into an unannotated object: at every crash point the object is as it
        was or carries exactly the spec it had. */
    method InjectOnce(ref: Ref, m: Mutation, early: bool, calls: InjectCalls) returns (ok: bool)
      requires ref in objects && objects[ref].annotation.None?
      modifies this
      ensures |history| >= |old(history)| && history[..|old(history)|] == old(history)
      ensures forall i | |old(history)| <= i < |history| ::
                ref in history[i] && Anchored(history[i][ref], old(objects[ref].spec))
    {
      WriteAhead(objects[ref], m, early, calls);
      ok := Inject(ref, m, early, calls);
    }
  }
}
