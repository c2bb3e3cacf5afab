/** Which pods a selection mode picks from the live eligible set. */
module Selection {
  import opened Outcomes

  datatype Pod = Pod(namespace: string, name: string, uid: string, containers: set<string>)

  // ---------------------------------------------------------------------------
  // The pod order: namespace, name, uid

  predicate LeqString(a: string, b: string) {
    a == "" || (b != "" && (a[0] < b[0] || (a[0] == b[0] && LeqString(a[1..], b[1..]))))
  }

  lemma {:induction false} LeqStringTotal(a: string, b: string)
    ensures LeqString(a, b) || LeqString(b, a)
    ensures LeqString(a, b) && LeqString(b, a) ==> a == b
  {
    if a != "" && b != "" && a[0] == b[0] {
      LeqStringTotal(a[1..], b[1..]);
      assert a == [a[0]] + a[1..] && b == [b[0]] + b[1..];
    }
  }

  lemma {:induction false} LeqStringTransitive(a: string, b: string, c: string)
    requires LeqString(a, b) && LeqString(b, c)
    ensures LeqString(a, c)
  {
    if a != "" && a[0] == b[0] && b[0] == c[0] {
      LeqStringTransitive(a[1..], b[1..], c[1..]);
    }
  }

  /** `_pod_key` compared as tuples are. */
  predicate Leq(x: Pod, y: Pod) {
    if x.namespace != y.namespace then LeqString(x.namespace, y.namespace)
    else if x.name != y.name then LeqString(x.name, y.name)
    else LeqString(x.uid, y.uid)
  }

  predicate SameKey(x: Pod, y: Pod) { x.namespace == y.namespace && x.name == y.name && x.uid == y.uid }

  lemma LeqTotal(x: Pod, y: Pod)
    ensures Leq(x, y) || Leq(y, x)
    ensures Leq(x, y) && Leq(y, x) ==> SameKey(x, y)
  {
    LeqStringTotal(x.namespace, y.namespace);
    LeqStringTotal(x.name, y.name);
    LeqStringTotal(x.uid, y.uid);
  }

  lemma LeqTransitive(x: Pod, y: Pod, z: Pod)
    requires Leq(x, y) && Leq(y, z)
    ensures Leq(x, z)
  {
    if x.namespace != y.namespace || y.namespace != z.namespace {
      LeqStringTotal(x.namespace, y.namespace);
      LeqStringTotal(y.namespace, z.namespace);
      if x.namespace != y.namespace && y.namespace != z.namespace {
        LeqStringTransitive(x.namespace, y.namespace, z.namespace);
      }
    } else if x.name != y.name || y.name != z.name {
      LeqStringTotal(x.name, y.name);
      LeqStringTotal(y.name, z.name);
      if x.name != y.name && y.name != z.name {
        LeqStringTransitive(x.name, y.name, z.name);
      }
    } else {
      LeqStringTransitive(x.uid, y.uid, z.uid);
    }
  }

  // ---------------------------------------------------------------------------
  // sorted()

  function Insert(p: Pod, pods: seq<Pod>): seq<Pod> {
    if pods == [] || Leq(p, pods[0]) then [p] + pods else [pods[0]] + Insert(p, pods[1..])
  }

  /** `sorted(pods, key=_pod_key)`. */
  function Sort(pods: seq<Pod>): seq<Pod> {
    if pods == [] then [] else Insert(pods[0], Sort(pods[1..]))
  }

  predicate Sorted(pods: seq<Pod>) { forall i, j | 0 <= i < j < |pods| :: Leq(pods[i], pods[j]) }

  lemma {:induction false} InsertSorts(p: Pod, pods: seq<Pod>)
    requires Sorted(pods)
    ensures Sorted(Insert(p, pods)) && multiset(Insert(p, pods)) == multiset{p} + multiset(pods)
  {
    hide Leq;
    if pods != [] {
      assert pods == [pods[0]] + pods[1..];
      LeqTotal(p, pods[0]);
      if Leq(p, pods[0]) {
        forall i | 0 <= i < |pods| ensures Leq(p, pods[i]) {
          if i > 0 { LeqTransitive(p, pods[0], pods[i]); }
        }
      } else {
        InsertSorts(p, pods[1..]);
        var rest := Insert(p, pods[1..]);
        forall q | q in rest ensures Leq(pods[0], q) {
          assert q in multiset(rest);
        }
      }
    }
  }

  lemma {:induction false} SortSorts(pods: seq<Pod>)
    ensures Sorted(Sort(pods)) && multiset(Sort(pods)) == multiset(pods) && |Sort(pods)| == |pods|
  {
    if pods != [] {
      SortSorts(pods[1..]);
      InsertSorts(pods[0], Sort(pods[1..]));
      assert pods == [pods[0]] + pods[1..];
      assert |Sort(pods)| == |multiset(Sort(pods))| && |pods| == |multiset(pods)|;
    }
  }

  /** No two different pods share a key. */
  predicate DistinctKeys(pods: seq<Pod>) {
    forall x, y | x in pods && y in pods && SameKey(x, y) :: x == y
  }

  lemma FirstIsLeast(a: seq<Pod>, p: Pod)
    requires Sorted(a) && p in a
    ensures Leq(a[0], p)
  {
    LeqTotal(a[0], a[0]);
  }

  lemma SameFirst(a: seq<Pod>, b: seq<Pod>)
    requires Sorted(a) && Sorted(b) && multiset(a) == multiset(b) && DistinctKeys(a) && a != [] && b != []
    ensures a[0] == b[0]
  {
    assert b[0] in multiset(a) && a[0] in multiset(b);
    assert b[0] in a && a[0] in b;
    FirstIsLeast(a, b[0]);
    FirstIsLeast(b, a[0]);
    LeqTotal(a[0], b[0]);
  }

  lemma SameRest(a: seq<Pod>, b: seq<Pod>)
    requires multiset(a) == multiset(b) && a != [] && b != [] && a[0] == b[0]
    ensures multiset(a[1..]) == multiset(b[1..])
  {
    assert a == [a[0]] + a[1..] && b == [b[0]] + b[1..];
    assert multiset(a[1..]) == multiset(a) - multiset{a[0]} && multiset(b[1..]) == multiset(b) - multiset{b[0]};
  }

  /** There is only one sorted listing of pods with distinct keys. */
  lemma {:induction false} SortedIsUnique(a: seq<Pod>, b: seq<Pod>)
    requires Sorted(a) && Sorted(b) && multiset(a) == multiset(b) && DistinctKeys(a)
    ensures a == b
    decreases |a|
  {
    assert |a| == |multiset(a)| && |b| == |multiset(b)|;
    if a != [] {
      SameFirst(a, b);
      SameRest(a, b);
      SortedIsUnique(a[1..], b[1..]);
      assert a == [a[0]] + a[1..] && b == [b[0]] + b[1..];
    }
  }

  /** The order pods are listed in does not matter. */
  lemma ListingOrderIrrelevant(a: seq<Pod>, b: seq<Pod>)
    requires multiset(a) == multiset(b) && DistinctKeys(a)
    ensures Sort(a) == Sort(b)
  {
    SortSorts(a);
    SortSorts(b);
    forall x | x in Sort(a) ensures x in a { assert x in multiset(a); }
    SortedIsUnique(Sort(a), Sort(b));
  }

  // ---------------------------------------------------------------------------
  // Selection modes

  /** `draw` stands for the seeded random choice. */
  datatype Mode = One | Random(draw: nat) | All | Count(count: Option<nat>) | Percentage(percentage: Option<real>)

  datatype SelectionError = CountRequired | CountExceedsEligible | PercentageRequired | NoEligiblePods
      | ContainerMissing

  function Ceil(x: real): int { -((-x).Floor) }

  function PercentageSize(len: nat, pct: real): int {
    var n := Ceil(len as real * pct / 100.0);
    if n < 1 then 1 else n
  }

  function First(pods: seq<Pod>, n: int): seq<Pod>
    requires 0 <= n
  {
    if n <= |pods| then pods[..n] else pods
  }

  /** `_select_many` on the eligible pods; a random draw needs one to draw from. */
  function Select(mode: Mode, pods: seq<Pod>): Result<seq<Pod>, SelectionError>
    requires pods != []
  {
    SortSorts(pods);
    var ordered := Sort(pods);
    match mode
    case One => Ok(First(ordered, 1))
    case Random(draw) => Ok([ordered[draw % |ordered|]])
    case All => Ok(ordered)
    case Count(None) => Err(CountRequired)
    case Count(Some(n)) => if n > |ordered| then Err(CountExceedsEligible) else Ok(First(ordered, n))
    case Percentage(None) => Err(PercentageRequired)
    case Percentage(Some(pct)) => Ok(First(ordered, PercentageSize(|ordered|, pct)))
  }

  /** The share is rounded up, and is never empty and never more than there is. */
  lemma PercentageSizeBounds(len: nat, pct: real)
    requires len > 0 && 0.0 < pct <= 100.0
    ensures 1 <= PercentageSize(len, pct) <= len
    ensures len as real * pct / 100.0 <= PercentageSize(len, pct) as real < len as real * pct / 100.0 + 1.0
  {
    var x := len as real * pct / 100.0;
    assert 0.0 < len as real * pct;
    assert len as real * pct <= len as real * 100.0;
    assert 0.0 < x <= len as real;
    assert (-x).Floor as real <= -x < (-x).Floor as real + 1.0;
  }

  lemma PercentageSizeMonotone(len: nat, p: real, q: real)
    requires p <= q
    ensures PercentageSize(len, p) <= PercentageSize(len, q)
  {
    assert len as real * p <= len as real * q;
    var x, y := len as real * p / 100.0, len as real * q / 100.0;
    assert x <= y;
    assert (-y).Floor <= (-x).Floor;
  }

  predicate IsPrefix(a: seq<Pod>, b: seq<Pod>) { |a| <= |b| && a == b[..|a|] }

  lemma PicksPrefix(mode: Mode, pods: seq<Pod>)
    requires pods != [] && !mode.Random? && Select(mode, pods).Ok?
    ensures IsPrefix(Select(mode, pods).value, Sort(pods))
  {
    SortSorts(pods);
    hide Sort, Sorted;
  }

  lemma SameSelection(mode: Mode, a: seq<Pod>, b: seq<Pod>)
    requires a != [] && b != [] && Sort(a) == Sort(b)
    ensures Select(mode, a) == Select(mode, b)
  {
    SortSorts(a);
    hide Sort, Sorted, First, PercentageSize;
  }

  /** Every mode but the random draw picks a prefix of the sorted eligible pods, and
      the pick does not depend on how they were listed. */
  lemma SelectsPrefix(mode: Mode, a: seq<Pod>, b: seq<Pod>)
    requires a != [] && multiset(a) == multiset(b) && DistinctKeys(a)
    ensures b != []
    ensures Select(mode, a) == Select(mode, b)
    ensures Select(mode, a).Ok? && !mode.Random? ==> IsPrefix(Select(mode, a).value, Sort(a))
  {
    hide Select, Sort;
    assert |a| == |multiset(a)| && |b| == |multiset(b)|;
    ListingOrderIrrelevant(a, b);
    SameSelection(mode, a, b);
    if Select(mode, a).Ok? && !mode.Random? {
      PicksPrefix(mode, a);
    }
  }

  lemma DrawnAt(pods: seq<Pod>, draw: nat)
    requires draw < |pods|
    ensures |Sort(pods)| == |pods| && Select(Random(draw), pods) == Ok([Sort(pods)[draw]])
  {
    SortSorts(pods);
    hide Sort;
    assert draw % |pods| == draw;
  }

  /** Any eligible pod may be the one that is drawn. */
  lemma AnyPodDrawn(pods: seq<Pod>, p: Pod) returns (draw: nat)
    requires p in pods
    ensures Select(Random(draw), pods) == Ok([p])
  {
    SortSorts(pods);
    hide Sort, Sorted, Select;
    assert p in multiset(Sort(pods)) && p in Sort(pods);
    draw :| draw < |pods| && Sort(pods)[draw] == p;
    DrawnAt(pods, draw);
  }

  /** `n` is the percentage of `len`, rounded up, but at least one and at most all. */
  predicate IsShare(n: nat, len: nat, pct: real) {
    if pct <= 0.0 then n == 1
    else if pct > 100.0 then n == len
    else len as real * pct / 100.0 <= n as real < len as real * pct / 100.0 + 1.0
  }

  lemma PicksShare(pods: seq<Pod>, pct: real)
    requires pods != []
    ensures IsShare(|First(pods, PercentageSize(|pods|, pct))|, |pods|, pct)
  {
    var len := |pods|;
    var x := len as real * pct / 100.0;
    assert (-x).Floor as real <= -x < (-x).Floor as real + 1.0;
    if pct <= 0.0 {
      assert len as real * pct <= 0.0;
    } else if pct > 100.0 {
      assert len as real * pct >= len as real * 100.0;
    } else {
      PercentageSizeBounds(len, pct);
    }
  }

  /** How many pods each mode picks, and of the eligible ones only: one, one drawn, all,
      the count asked for if there are as many, or the share rounded up; and which
      requests are refused. */
  lemma PicksExactly(mode: Mode, pods: seq<Pod>)
    requires pods != []
    ensures match mode
            case Count(None) => Select(mode, pods) == Err(CountRequired)
            case Count(Some(n)) => Select(mode, pods).Ok? || Select(mode, pods) == Err(CountExceedsEligible)
            case Percentage(None) => Select(mode, pods) == Err(PercentageRequired)
            case _ => Select(mode, pods).Ok?
    ensures mode.Count? && mode.count.Some? ==> (Select(mode, pods).Ok? <==> mode.count.value <= |pods|)
    ensures Select(mode, pods).Ok? ==> IsPick(mode, pods, Select(mode, pods).value)
  {
    SortSorts(pods);
    if mode.Percentage? && mode.percentage.Some? {
      PicksShare(Sort(pods), mode.percentage.value);
    }
    if Select(mode, pods).Ok? {
      forall p | p in Select(mode, pods).value ensures p in pods {
        assert p in Sort(pods) && p in multiset(Sort(pods));
      }
    }
  }

  /** As many of the pods as the mode asks for. */
  predicate IsPick(mode: Mode, pods: seq<Pod>, picked: seq<Pod>) {
    && (forall p | p in picked :: p in pods)
    && match mode
       case One => |picked| == 1
       case Random(_) => |picked| == 1
       case All => multiset(picked) == multiset(pods)
       case Count(n) => n == Some(|picked|)
       case Percentage(pct) => pct.Some? && IsShare(|picked|, |pods|, pct.value)
  }

  /** Asking for less picks a prefix of asking for more. */
  lemma SmallerIsPrefix(pods: seq<Pod>, m: nat, n: nat, p: real, q: real)
    requires pods != [] && m <= n && p <= q
    ensures Select(Count(Some(n)), pods).Ok? ==>
              && Select(Count(Some(m)), pods).Ok?
              && IsPrefix(Select(Count(Some(m)), pods).value, Select(Count(Some(n)), pods).value)
    ensures IsPrefix(Select(Percentage(Some(p)), pods).value, Select(Percentage(Some(q)), pods).value)
  {
    SortSorts(pods);
    var ordered := Sort(pods);
    PercentageSizeMonotone(|ordered|, p, q);
    FirstOfFewer(ordered, PercentageSize(|ordered|, p), PercentageSize(|ordered|, q));
    if n <= |ordered| {
      FirstOfFewer(ordered, m, n);
    }
  }

  lemma FirstOfFewer(pods: seq<Pod>, m: nat, n: nat)
    requires m <= n
    ensures IsPrefix(First(pods, m), First(pods, n))
  {
  }

  /** `resolve_many` over the eligible pods: one outcome per picked pod, in pick order,
      and none at all if any picked pod lacks the container. */
  method ResolveMany(mode: Mode, eligible: seq<Pod>, container: string) returns (r: Result<seq<Pod>, SelectionError>)
    ensures eligible == [] ==> r == Err(NoEligiblePods)
    ensures r.Ok? ==> IsPick(mode, eligible, r.value) && forall p | p in r.value :: container in p.containers
    ensures eligible != [] ==>
              match Select(mode, eligible)
              case Err(e) => r == Err(e)
              case Ok(picked) =>
                r == if forall p | p in picked :: container in p.containers then Ok(picked) else Err(ContainerMissing)
  {
    if eligible == [] {
      return Err(NoEligiblePods);
    }
    var selected := Select(mode, eligible);
    PicksExactly(mode, eligible);
    if selected.Err? {
      return selected;
    }
    r := BuildTargets(selected.value, container);
  }

  /** The loop of `resolve_many`. */
  method BuildTargets(picked: seq<Pod>, container: string) returns (r: Result<seq<Pod>, SelectionError>)
    ensures r == if forall p | p in picked :: container in p.containers then Ok(picked) else Err(ContainerMissing)
  {
    var outcomes: seq<Pod> := [];
    for i := 0 to |picked|
      invariant outcomes == picked[..i]
      invariant forall j | 0 <= j < i :: container in picked[j].containers
    {
      if container !in picked[i].containers {
        assert picked[i] in picked;
        return Err(ContainerMissing);
      }
      outcomes := outcomes + [picked[i]];
    }
    assert outcomes == picked;
    return Ok(outcomes);
  }
}
