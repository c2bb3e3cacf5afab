/** The Secret fault: the object is deleted, so its snapshot lives on the pod that
    mounts it, and undo recreates it from there. */
module Secrets {
  import opened Outcomes
  import opened Documents

  /** `rest` is everything the snapshot leaves out: labels, annotations, immutability. */
  datatype Secret = Secret(kind: string, data: Mapping, rest: Mapping)

  datatype Note = Note(name: string, kind: string, data: Mapping)

  /** The Secrets of a namespace and the restore annotation of one of its pods. */
  datatype State = State(secrets: map<string, Secret>, note: Option<Note>)

  /** Which calls exit zero. */
  datatype InjectCalls = InjectCalls(get: bool, annotate: bool, delete: bool, clear: bool)

  datatype UndoCalls = UndoCalls(get: bool, apply: bool, clear: bool)

  function NoteOf(name: string, s: Secret): Note { Note(name, s.kind, s.data) }

  function Cleared(s: State, exitsZero: bool): State { if exitsZero then s.(note := None) else s }

  /** The state after each writing call of `_inject_secret`. */
  function InjectStates(s: State, name: string, calls: InjectCalls): seq<State> {
    if !calls.get || name !in s.secrets then []
    else
      var noted := if calls.annotate then s.(note := Some(NoteOf(name, s.secrets[name]))) else s;
      if calls.delete then [noted, noted.(secrets := s.secrets - {name})]
      else [noted, noted, Cleared(noted, calls.clear)]
  }

  /** `kubectl apply` of the manifest made from the note. */
  function Recreated(secrets: map<string, Secret>, n: Note): map<string, Secret> {
    secrets[n.name := if n.name in secrets then secrets[n.name].(data := Overlay(secrets[n.name].data, n.data))
                      else Secret(n.kind, n.data, map[])]
  }

  /** The state after each writing call of `_undo_secret`. */
  function UndoStates(s: State, calls: UndoCalls): seq<State> {
    if !calls.get || s.note.None? then []
    else if s.note.value.name == "" then [Cleared(s, calls.clear)]
    else if !calls.apply then [s]
    else
      var applied := s.(secrets := Recreated(s.secrets, s.note.value));
      [applied, Cleared(applied, calls.clear)]
  }

  // ---------------------------------------------------------------------------
  // What survives

  predicate Same(s: Secret, original: Secret) { s.kind == original.kind && s.data == original.data }

  /** Every Secret is there, or is the one the note on the pod describes. */
  predicate Kept(s: State, originals: map<string, Secret>) {
    && "" !in originals && s.secrets.Keys <= originals.Keys
    && (forall x | x in s.secrets :: Same(s.secrets[x], originals[x]))
    && (s.note.Some? ==> s.note.value.name in originals &&
                         s.note.value == NoteOf(s.note.value.name, originals[s.note.value.name]))
    && forall x | x in originals && x !in s.secrets :: s.note.Some? && s.note.value.name == x
  }

  predicate AllKept(states: seq<State>, originals: map<string, Secret>) {
    forall s | s in states :: Kept(s, originals)
  }

  /** Injection keeps every Secret at every crash point, exactly when
      - the note is written and no other Secret depends on the one it replaces, or
      - it is not written, and what is deleted or cleared all the same is not needed:
        the old note describes the deleted Secret, or no Secret depends on it. */
  lemma InjectKeeps(s: State, originals: map<string, Secret>, name: string, calls: InjectCalls)
    requires Kept(s, originals)
    ensures AllKept(InjectStates(s, name, calls), originals) <==>
            (calls.get && name in s.secrets ==>
               if calls.annotate then s.secrets.Keys == originals.Keys
               else if calls.delete then s.note.Some? && s.note.value.name == name
               else calls.clear ==> s.secrets.Keys == originals.Keys)
  {
    var states := InjectStates(s, name, calls);
    if calls.get && name in s.secrets {
      var last := states[|states| - 1];
      assert states[0] in states && last in states;
      if s.secrets.Keys != originals.Keys {
        var x :| x in originals && x !in s.secrets;
        assert x != name;
      }
      if calls.annotate && s.secrets.Keys == originals.Keys {
        forall t | t in states ensures Kept(t, originals) {}
      }
    }
  }

  /** Two Secrets of one pod: deleting the second loses the first. */
  lemma SecondSecretLosesFirst(s: State, originals: map<string, Secret>, first: string, second: string)
    requires Kept(s, originals) && first in originals && first !in s.secrets && second in s.secrets
    ensures !AllKept(InjectStates(s, second, InjectCalls(true, true, true, true)), originals)
  {
    InjectKeeps(s, originals, second, InjectCalls(true, true, true, true));
  }

  lemma RecreatedKeeps(s: State, originals: map<string, Secret>)
    requires Kept(s, originals) && s.note.Some?
    ensures var applied := s.(secrets := Recreated(s.secrets, s.note.value));
            Kept(applied, originals) && applied.secrets.Keys == originals.Keys
  {
    var n := s.note.value;
    if n.name in s.secrets {
      WithinReflexive(Node(n.data));
      MergeRestores(Node(n.data), Node(n.data));
    }
  }

  /** Undo keeps every Secret at every crash point, whichever calls fail; when the calls
      succeed they are all back and the note is gone. */
  lemma UndoKeeps(s: State, originals: map<string, Secret>, calls: UndoCalls)
    requires Kept(s, originals)
    ensures AllKept(UndoStates(s, calls), originals)
    ensures calls.get && calls.apply && calls.clear && s.note.Some? ==>
              var states := UndoStates(s, calls);
              && states != []
              && states[|states| - 1].secrets.Keys == originals.Keys && states[|states| - 1].note.None?
  {
    if s.note.Some? {
      RecreatedKeeps(s, originals);
    }
  }

  /** A recreated Secret is the original exactly when that had nothing but type and data. */
  lemma RecreatedIsOriginal(secrets: map<string, Secret>, name: string)
    requires name in secrets
    ensures Recreated(secrets - {name}, NoteOf(name, secrets[name])) == secrets <==> secrets[name].rest == map[]
  {
    var back := Recreated(secrets - {name}, NoteOf(name, secrets[name]));
    assert back.Keys == secrets.Keys;
    assert forall x | x in secrets && x != name :: back[x] == secrets[x];
  }

  /** Undoing once more is harmless: a Secret that is there and as its note describes it
      stays just so, with all that the note leaves out. */
  lemma RecreatedAgain(secrets: map<string, Secret>, name: string)
    requires name in secrets
    ensures Recreated(secrets, NoteOf(name, secrets[name])) == secrets
  {
    var data := secrets[name].data;
    WithinReflexive(Node(data));
    MergeRestores(Node(data), Node(data));
  }

  /** What a note does not describe stays as it is. */
  lemma OthersStay(secrets: map<string, Secret>, n: Note, x: string)
    requires x in secrets
    ensures var back := Recreated(secrets, n);
            x in back && (if x == n.name then back[x].rest == secrets[x].rest && back[x].kind == secrets[x].kind
                          else back[x] == secrets[x])
  {
  }

  /** At first every Secret is kept. */
  lemma KeptAtFirst(secrets: map<string, Secret>)
    requires "" !in secrets
    ensures Kept(State(secrets, None), secrets)
  {
  }

  // ---------------------------------------------------------------------------
  // Runs with crashes

  datatype Step =
    | Inject(name: string, injectCalls: InjectCalls, crash: nat)
    | Undo(undoCalls: UndoCalls, crash: nat)

  function Reached(s: State, states: seq<State>, crash: nat): State {
    if crash == 0 || states == [] then s
    else if crash <= |states| then states[crash - 1]
    else states[|states| - 1]
  }

  function StatesOf(s: State, step: Step): seq<State> {
    match step
    case Inject(name, calls, _) => InjectStates(s, name, calls)
    case Undo(calls, _) => UndoStates(s, calls)
  }

  function Apply(s: State, step: Step): State { Reached(s, StatesOf(s, step), step.crash) }

  function Run(s: State, steps: seq<Step>): State
    decreases |steps|
  {
    if steps == [] then s else Run(Apply(s, steps[0]), steps[1..])
  }

  /** A run of one step is the step, and a run goes on from where its first part got. */
  lemma {:induction false} RunComposes(s: State, step: Step, first: seq<Step>, rest: seq<Step>)
    ensures Run(s, [step]) == Apply(s, step)
    ensures Run(s, first + rest) == Run(Run(s, first), rest)
    decreases |first|
  {
    if first == [] {
      assert first + rest == rest;
    } else {
      assert (first + rest)[1..] == first[1..] + rest;
      RunComposes(Apply(s, first[0]), step, first[1..], rest);
    }
  }

  /** No Secret is missing: if the pod carries a note, the Secret it describes is back. */
  predicate Complete(s: State) { s.note.Some? ==> s.note.value.name in s.secrets }

  /** A step that loses nothing: a note is written, or cleared without a deletion, only
      when no Secret is missing; a Secret is deleted without writing a note only if
      the old note describes it.  An undo always may run. */
  predicate Careful(s: State, step: Step) {
    match step
    case Inject(name, calls, _) =>
      calls.get && name in s.secrets ==>
        if calls.annotate then Complete(s)
        else if calls.delete then s.note.Some? && s.note.value.name == name
        else calls.clear ==> Complete(s)
    case Undo(_, _) => true
  }

  /** Every Secret is kept wherever the step is stopped. */
  ghost predicate StaysKept(s: State, originals: map<string, Secret>, step: Step) {
    forall crash: nat :: Kept(Reached(s, StatesOf(s, step), crash), originals)
  }

  lemma CompleteExactly(s: State, originals: map<string, Secret>)
    requires Kept(s, originals)
    ensures Complete(s) <==> s.secrets.Keys == originals.Keys
  {
    if Complete(s) {
      assert forall x | x in originals :: x in s.secrets;
    }
  }

  /** A step keeps every Secret at every crash point exactly when it is careful. */
  lemma CarefulExactly(s: State, originals: map<string, Secret>, step: Step)
    requires Kept(s, originals)
    ensures StaysKept(s, originals, step) <==> Careful(s, step)
  {
    var states := StatesOf(s, step);
    CompleteExactly(s, originals);
    match step {
      case Inject(name, calls, _) => InjectKeeps(s, originals, name, calls);
      case Undo(calls, _) => UndoKeeps(s, originals, calls);
    }
    if StaysKept(s, originals, step) {
      forall i | 0 <= i < |states| ensures Kept(states[i], originals) {
        assert Reached(s, states, i + 1) == states[i];
      }
    }
  }

  predicate CarefulRun(s: State, steps: seq<Step>)
    decreases |steps|
  {
    steps != [] ==> Careful(s, steps[0]) && CarefulRun(Apply(s, steps[0]), steps[1..])
  }

  /** Over every run of careful steps, each stopped after any of its calls, no Secret is
      lost: one undo whose calls succeed has them all. */
  lemma {:induction false} RunsKeepSecrets(s: State, originals: map<string, Secret>, steps: seq<Step>)
    requires Kept(s, originals) && CarefulRun(s, steps)
    ensures var end := Run(s, steps);
            && Kept(end, originals)
            && (end.note.None? ==> end.secrets.Keys == originals.Keys)
            && (end.note.Some? ==>
                  var states := UndoStates(end, UndoCalls(true, true, true));
                  states != [] && states[|states| - 1].secrets.Keys == originals.Keys)
    decreases |steps|
  {
    if steps == [] {
      UndoKeeps(s, originals, UndoCalls(true, true, true));
      CompleteExactly(s, originals);
    } else {
      CarefulExactly(s, originals, steps[0]);
      RunsKeepSecrets(Apply(s, steps[0]), originals, steps[1..]);
    }
  }

  // ---------------------------------------------------------------------------
  // The executor

  /** The Secrets and the pod behind kubectl; each writing call leaves a state in `history`. */
  class PodSecrets {
    var secrets: map<string, Secret>
    var note: Option<Note>
    ghost var history: seq<State>

    ghost function View(): State
      reads this
    {
      State(secrets, note)
    }

    constructor (secrets: map<string, Secret>)
      ensures View() == State(secrets, None) && history == []
    {
      this.secrets, note, history := secrets, None, [];
    }

    method Annotate(n: Option<Note>, up: bool) returns (ok: bool)
      modifies this`note, this`history
      ensures ok == up && note == (if up then n else old(note)) && history == old(history) + [View()]
    {
      if up {
        note := n;
      }
      history := history + [View()];
      return up;
    }

    method SetSecrets(to: map<string, Secret>, up: bool) returns (ok: bool)
      modifies this`secrets, this`history
      ensures ok == up && secrets == (if up then to else old(secrets)) && history == old(history) + [View()]
    {
      if up {
        secrets := to;
      }
      history := history + [View()];
      return up;
    }

    /** `_inject_secret`: the result of writing the note is ignored. */
    method InjectSecret(name: string, calls: InjectCalls) returns (ok: bool)
      modifies this
      ensures var states := InjectStates(old(View()), name, calls);
              && (ok <==> calls.get && name in old(secrets) && calls.delete)
              && secrets == (if ok then old(secrets) - {name} else old(secrets))
              && note == (if !calls.get || name !in old(secrets) then old(note)
                          else if !ok && calls.clear then None
                          else if calls.annotate then Some(NoteOf(name, old(secrets[name])))
                          else old(note))
              && history == old(history) + states
              && View() == Reached(old(View()), states, |states|)
    {
      if !calls.get || name !in secrets {
        return false;
      }
      var _ := Annotate(Some(NoteOf(name, secrets[name])), calls.annotate);
      ok := SetSecrets(secrets - {name}, calls.delete);
      if !ok {
        var _ := Annotate(None, calls.clear);
      }
    }

    /** `_undo_secret`: a snapshot that cannot be read counts as nothing to undo. */
    method UndoSecret(calls: UndoCalls) returns (ok: bool)
      modifies this
      ensures var states := UndoStates(old(View()), calls);
              && (ok <==> !calls.get || old(note).None? || (old(note).value.name != "" && calls.apply))
              && secrets == (if ok && calls.get && old(note).Some? then Recreated(old(secrets), old(note).value)
                             else old(secrets))
              && note == (if calls.get && calls.clear && old(note).Some? && (ok || old(note).value.name == "") then None
                          else old(note))
              && history == old(history) + states
              && View() == Reached(old(View()), states, |states|)
    {
      if !calls.get || note.None? {
        return true;
      }
      var n := note.value;
      if n.name == "" {
        var _ := Annotate(None, calls.clear);
        return false;
      }
      ok := SetSecrets(Recreated(secrets, n), calls.apply);
      if ok {
        var _ := Annotate(None, calls.clear);
      }
    }
  }
}
