/** Grading an owed resilience suite against what one run recorded. */
module Grading {
  datatype CellState = Unknown | Planned | Blocked | Skipped | Passed | Executed | Inconclusive | Failed

  function Severity(s: CellState): nat {
    match s
    case Passed => 1
    case Executed => 2
    case Inconclusive => 3
    case Failed => 4
    case _ => 0
  }

  datatype Observation = Observation(kind: string, state: CellState, citation: string)

  datatype Recorded = Recorded(state: CellState, refs: seq<string>)

  /** One observation folded in: the worse state wins, and citations are kept once. */
  function Record(recorded: map<string, Recorded>, o: Observation): map<string, Recorded> {
    if o.kind !in recorded then recorded[o.kind := Recorded(o.state, [o.citation])]
    else
      var entry := recorded[o.kind];
      recorded[o.kind := Recorded(if Severity(o.state) > Severity(entry.state) then o.state else entry.state,
                                  if o.citation in entry.refs then entry.refs else entry.refs + [o.citation])]
  }

  function Coverage(observations: seq<Observation>): map<string, Recorded> {
    if observations == [] then map[]
    else Record(Coverage(observations[..|observations| - 1]), observations[|observations| - 1])
  }

  /** The fold that ends `_coverage_for_run`. */
  method CoverageForRun(observations: seq<Observation>) returns (recorded: map<string, Recorded>)
    ensures recorded == Coverage(observations)
  {
    recorded := map[];
    for i := 0 to |observations|
      invariant recorded == Coverage(observations[..i])
    {
      assert observations[..i + 1][..i] == observations[..i];
      var o := observations[i];
      if o.kind !in recorded {
        recorded := recorded[o.kind := Recorded(o.state, [o.citation])];
        continue;
      }
      var entry := recorded[o.kind];
      var worse := if Severity(o.state) > Severity(entry.state) then o.state else entry.state;
      var refs := if o.citation !in entry.refs then entry.refs + [o.citation] else entry.refs;
      recorded := recorded[o.kind := Recorded(worse, refs)];
    }
    assert observations[..|observations|] == observations;
  }

  datatype CheckOutcome = Fail | Pass | UnknownOutcome

  /** The outcome of `_grade_suite`. */
  function Grade(kinds: seq<string>, recorded: map<string, Recorded>): CheckOutcome {
    if exists k | k in kinds :: k in recorded && recorded[k].state == Failed then Fail
    else if forall k | k in kinds :: k in recorded && recorded[k].state == Passed then Pass
    else UnknownOutcome
  }

  /** What a run has observed of one fault kind, in no particular order. */
  ghost predicate Saw(observations: seq<Observation>, kind: string, state: CellState) {
    exists o | o in observations :: o.kind == kind && o.state == state
  }

  ghost predicate SawAny(observations: seq<Observation>, kind: string) {
    exists o | o in observations :: o.kind == kind
  }

  /** The recorded state is one that was observed, and none worse was. */
  ghost predicate Worst(observations: seq<Observation>, kind: string, state: CellState) {
    && Saw(observations, kind, state)
    && forall o | o in observations && o.kind == kind :: Severity(o.state) <= Severity(state)
  }

  lemma {:induction false} CoverageIsWorst(observations: seq<Observation>, kind: string)
    ensures kind in Coverage(observations) <==> SawAny(observations, kind)
    ensures kind in Coverage(observations) ==> Worst(observations, kind, Coverage(observations)[kind].state)
    decreases |observations|
  {
    if observations != [] {
      var init, last := observations[..|observations| - 1], observations[|observations| - 1];
      CoverageIsWorst(init, kind);
      assert observations == init + [last];
      if last.kind == kind {
        assert last in observations;
        if SawAny(init, kind) {
          var state := Coverage(init)[kind].state;
          var o :| o in init && o.kind == kind && o.state == state;
          assert o in observations;
        }
      } else if SawAny(init, kind) {
        var o :| o in init && o.kind == kind && o.state == Coverage(init)[kind].state;
        assert o in observations;
      }
    }
  }

  /** Nothing but passes, and at least one. */
  ghost predicate HeldUp(observations: seq<Observation>, kind: string) {
    && Saw(observations, kind, Passed)
    && !Saw(observations, kind, Executed) && !Saw(observations, kind, Inconclusive) && !Saw(observations, kind, Failed)
  }

  lemma RecordedFailed(observations: seq<Observation>, kind: string)
    ensures Saw(observations, kind, Failed) <==>
            kind in Coverage(observations) && Coverage(observations)[kind].state == Failed
  {
    CoverageIsWorst(observations, kind);
  }

  lemma RecordedPassed(observations: seq<Observation>, kind: string)
    ensures HeldUp(observations, kind) <==>
            kind in Coverage(observations) && Coverage(observations)[kind].state == Passed
  {
    CoverageIsWorst(observations, kind);
    if kind in Coverage(observations) && Coverage(observations)[kind].state == Passed {
      forall o | o in observations && o.kind == kind ensures Severity(o.state) <= 1 {}
    }
    if HeldUp(observations, kind) {
      var state := Coverage(observations)[kind].state;
      assert Saw(observations, kind, state) && Severity(state) >= 1;
    }
  }

  /** A kind that did neither is recorded as inconclusive if it was ever that, else as
      executed if it was ever that, and else by the first observation of it. */
  lemma RecordedOtherwise(observations: seq<Observation>, kind: string)
    requires kind in Coverage(observations) && Coverage(observations)[kind].state !in {Failed, Passed}
    ensures var state := Coverage(observations)[kind].state;
            if Saw(observations, kind, Inconclusive) then state == Inconclusive
            else if Saw(observations, kind, Executed) then state == Executed
            else IsFirst(observations, kind, state)
  {
    CoverageIsWorst(observations, kind);
    if !Saw(observations, kind, Inconclusive) && !Saw(observations, kind, Executed) {
      forall o | o in observations && o.kind == kind ensures Severity(o.state) == 0 {
        assert Severity(o.state) <= Severity(Coverage(observations)[kind].state);
      }
      FirstStays(observations, kind);
    }
  }

  ghost predicate IsFirst(observations: seq<Observation>, kind: string, state: CellState) {
    exists i | 0 <= i < |observations| ::
      && observations[i].kind == kind && observations[i].state == state
      && forall j | 0 <= j < i :: observations[j].kind != kind
  }

  /** Among observations none of which is worse than another, the first one's state stays. */
  lemma {:induction false} FirstStays(observations: seq<Observation>, kind: string)
    requires kind in Coverage(observations)
    requires forall o | o in observations && o.kind == kind :: Severity(o.state) == 0
    ensures IsFirst(observations, kind, Coverage(observations)[kind].state)
    decreases |observations|
  {
    var init, last := observations[..|observations| - 1], observations[|observations| - 1];
    assert observations == init + [last];
    CoverageIsWorst(init, kind);
    if kind in Coverage(init) {
      forall o | o in init && o.kind == kind ensures Severity(o.state) == 0 { assert o in observations; }
      FirstStays(init, kind);
      var state := Coverage(init)[kind].state;
      var i :| 0 <= i < |init| && init[i].kind == kind && init[i].state == state &&
        forall j | 0 <= j < i :: init[j].kind != kind;
      assert observations[i] == init[i] && forall j | 0 <= j < i :: observations[j] == init[j];
      assert last in observations;
      assert Coverage(observations)[kind].state == state;
    } else {
      assert last.kind == kind;
      assert forall o | o in init :: o.kind != kind;
      assert forall j | 0 <= j < |init| :: observations[j] in init;
    }
  }

  /** A suite fails exactly when one of its fault kinds was seen to fail, and passes
      exactly when every one of them was seen to pass and was never merely executed,
      inconclusive or failed. */
  lemma GradeIsExact(kinds: seq<string>, observations: seq<Observation>)
    ensures Grade(kinds, Coverage(observations)) == Fail <==>
            exists k | k in kinds :: Saw(observations, k, Failed)
    ensures Grade(kinds, Coverage(observations)) == Pass <==>
            forall k | k in kinds :: HeldUp(observations, k)
  {
    forall k ensures
      && (Saw(observations, k, Failed) <==> k in Coverage(observations) && Coverage(observations)[k].state == Failed)
      && (HeldUp(observations, k) <==> k in Coverage(observations) && Coverage(observations)[k].state == Passed)
    {
      RecordedFailed(observations, k);
      RecordedPassed(observations, k);
    }
  }

  /** The outcome does not depend on the order of the observations, nor on repeats. */
  lemma GradeIgnoresOrder(kinds: seq<string>, a: seq<Observation>, b: seq<Observation>)
    requires forall o :: o in a <==> o in b
    ensures Grade(kinds, Coverage(a)) == Grade(kinds, Coverage(b))
  {
    GradeIsExact(kinds, a);
    GradeIsExact(kinds, b);
    forall k, s ensures Saw(a, k, s) <==> Saw(b, k, s) {}
  }

  /** No further observation turns a failure into anything else. */
  lemma FailureIsFinal(kinds: seq<string>, a: seq<Observation>, b: seq<Observation>)
    requires forall o | o in a :: o in b
    requires Grade(kinds, Coverage(a)) == Fail
    ensures Grade(kinds, Coverage(b)) == Fail
  {
    GradeIsExact(kinds, a);
    GradeIsExact(kinds, b);
    var k :| k in kinds && Saw(a, k, Failed);
    assert Saw(b, k, Failed);
  }

  /** The citations kept for a kind are exactly those of its observations, each once. */
  lemma {:induction false} CitationsAreComplete(observations: seq<Observation>, kind: string, citation: string)
    requires kind in Coverage(observations)
    ensures citation in Coverage(observations)[kind].refs <==>
            exists o | o in observations :: o.kind == kind && o.citation == citation
    ensures var refs := Coverage(observations)[kind].refs; forall i, j | 0 <= i < j < |refs| :: refs[i] != refs[j]
    decreases |observations|
  {
    if observations != [] {
      var init, last := observations[..|observations| - 1], observations[|observations| - 1];
      assert observations == init + [last];
      if kind in Coverage(init) {
        CitationsAreComplete(init, kind, citation);
      } else {
        CoverageIsWorst(init, kind);
        assert last.kind == kind;
      }
      assert (exists o | o in observations :: o.kind == kind && o.citation == citation) <==>
             (exists o | o in init :: o.kind == kind && o.citation == citation) ||
                 (last.kind == kind && last.citation == citation);
    }
  }
}
