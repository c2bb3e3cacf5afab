/** The impact gate: whether a fault can perturb a container at all, what is missing
    when it cannot, and what a container has to be given. */
module Impact {
  import opened Outcomes

  datatype Requirement = Requirement(bins: set<string>, caps: set<string>, needRoot: bool, host: bool)

  /** The fixed tables of the gate. `packages` maps a binary to its package under each
      package manager. */
  datatype Tables = Tables(
    requirements: map<string, Requirement>, engineFaults: set<string>, catalogOnly: set<string>,
    capBits: map<string, nat>, packages: map<string, map<string, string>>, managers: seq<string>)

  /** What one probe found in a live container. */
  datatype Runtime = Runtime(bins: set<string>, uid: Option<nat>, capEff: nat)

  /** The drill host and its engine. */
  datatype Host = Host(bins: set<string>, rootless: bool)

  datatype Need = Bin(bin: string) | Cap(cap: string) | Root

  datatype Note = EngineAddressed | CatalogOnly | NoToolingRequired | RootlessClock | RuntimeUnreachable | Unresolved
      | HostTooling | InContainer

  datatype Verdict = Verdict(faultId: string, container: string, possible: bool, missing: set<Need>, probed: bool,
      note: Note)

  // ---------------------------------------------------------------------------
  // Capability masks

  /** Bit `b` of `mask`, as `mask & (1 << b)` tests it. */
  predicate Bit(mask: nat, b: nat) {
    if b == 0 then mask % 2 == 1 else Bit(mask / 2, b - 1)
  }

  function SetBit(mask: nat, b: nat): nat {
    if b == 0 then mask + 1 - mask % 2 else 2 * SetBit(mask / 2, b - 1) + mask % 2
  }

  lemma {:induction false} SetBitSetsOne(mask: nat, b: nat, other: nat)
    ensures Bit(SetBit(mask, b), other) <==> other == b || Bit(mask, other)
  {
    if b > 0 && other > 0 {
      SetBitSetsOne(mask / 2, b - 1, other - 1);
    }
  }

  function Pow2(b: nat): (p: nat)
    ensures p > 0
  {
    if b == 0 then 1 else 2 * Pow2(b - 1)
  }

  lemma Halved(low: nat, p: nat, k: nat)
    ensures (low + 2 * p * k) / 2 == low / 2 + p * k
  {
    var t := p * k;
    assert 2 * p * k == 2 * t;
  }

  /** The bit is the one of that weight, whatever the lower and the higher ones are. */
  lemma {:induction false} BitExactly(b: nat, low: nat, x: nat, high: nat)
    requires low < Pow2(b) && x < 2
    ensures Bit(low + Pow2(b) * (x + 2 * high), b) <==> x == 1
  {
    var k := x + 2 * high;
    assert Pow2(b) == if b == 0 then 1 else 2 * Pow2(b - 1);
    hide Pow2;
    if b == 0 {
      assert low + Pow2(0) * k == k && k % 2 == x;
    } else {
      Halved(low, Pow2(b - 1), k);
      BitExactly(b - 1, low / 2, x, high);
    }
  }

  ghost function SetBits(mask: nat, bits: set<nat>): nat
    decreases bits
  {
    if bits == {} then mask else
      var b :| b in bits;
      SetBits(SetBit(mask, b), bits - {b})
  }

  lemma {:induction false} SetBitsSetsThem(mask: nat, bits: set<nat>, other: nat)
    ensures Bit(SetBits(mask, bits), other) <==> other in bits || Bit(mask, other)
    decreases bits
  {
    if bits != {} {
      var b :| b in bits && SetBits(mask, bits) == SetBits(SetBit(mask, b), bits - {b});
      SetBitsSetsThem(SetBit(mask, b), bits - {b}, other);
      SetBitSetsOne(mask, b, other);
    }
  }

  predicate HasBin(run: Runtime, name: string) {
    if name == "python" then "python" in run.bins || "python3" in run.bins else name in run.bins
  }

  predicate HasCap(t: Tables, run: Runtime, name: string) {
    name in t.capBits && Bit(run.capEff, t.capBits[name])
  }

  // ---------------------------------------------------------------------------
  // The verdict on one fault

  function Missing(t: Tables, r: Requirement, run: Runtime): set<Need> {
    (set b | b in r.bins && !HasBin(run, b) :: Bin(b)) +
    (set c | c in r.caps && !HasCap(t, run, c) :: Cap(c)) +
    (if r.needRoot && run.uid.Some? && run.uid.value != 0 then {Root} else {})
  }

  predicate ClockDenied(r: Requirement, h: Host) { "SYS_TIME" in r.caps && h.rootless }

  /** `gate_fault` for a container whose probe returned `run`. */
  function Gate(t: Tables, h: Host, faultId: string, container: string, run: Option<Runtime>): Verdict {
    if faultId in t.engineFaults then Verdict(faultId, container, true, {}, true, EngineAddressed)
    else if faultId !in t.requirements then
      if faultId in t.catalogOnly then Verdict(faultId, container, false, {}, true, CatalogOnly)
      else Verdict(faultId, container, true, {}, false, NoToolingRequired)
    else
      var r := t.requirements[faultId];
      if r.host then
        var missing := set b | b in r.bins && b !in h.bins :: Bin(b);
        Verdict(faultId, container, missing == {}, missing, true, HostTooling)
      else if ClockDenied(r, h) then Verdict(faultId, container, false, {}, true, RootlessClock)
      else if run.None? then Verdict(faultId, container, false, {}, false, RuntimeUnreachable)
      else
        var missing := Missing(t, r, run.value);
        Verdict(faultId, container, missing == {}, missing, true, InContainer)
  }

  // ---------------------------------------------------------------------------
  // Scanning a plan

  /** A planned fault and the first container its targets resolve to. */
  datatype Fault = Fault(id: string, container: Option<string>)

  type Plan = seq<Option<Fault>>

  type Probe = string -> Option<Runtime>

  predicate HostAddressed(t: Tables, id: string) { id in t.requirements && t.requirements[id].host }

  /** The faults the scan asks the engine about. */
  predicate ContainerProbed(t: Tables, f: Fault) {
    f.id !in t.catalogOnly && f.container.Some? && !HostAddressed(t, f.id)
  }

  /** The verdict on one planned fault, probing its container afresh. */
  function VerdictOn(t: Tables, h: Host, probe: Probe, f: Fault): Verdict {
    if f.id in t.catalogOnly then Gate(t, h, f.id, "catalog-only", probe("catalog-only"))
    else if f.container.None? then Verdict(f.id, "?", false, {}, false, Unresolved)
    else Gate(t, h, f.id, f.container.value, probe(f.container.value))
  }

  /** One verdict per fault step, in plan order. */
  function Verdicts(t: Tables, h: Host, probe: Probe, plan: Plan): seq<Verdict> {
    if plan == [] then []
    else
      var last := plan[|plan| - 1];
      Verdicts(t, h, probe, plan[..|plan| - 1]) + if last.Some? then [VerdictOn(t, h, probe, last.value)] else []
  }

  ghost predicate EngineReached(t: Tables, probe: Probe, plan: Plan) {
    exists s | s in plan :: s.Some? && ContainerProbed(t, s.value) && probe(s.value.container.value).Some?
  }

  /** What a probe of a container returns, which may change from one moment to the next:
      step `i` of a scan probes at moment `2 * i`, and the gate at the moment after. */
  type Answers = (string, nat) -> Option<Runtime>

  /** `gate_fault` given what the scan kept: for want of an answer it probes again. */
  function GateFault(t: Tables, h: Host, id: string, container: string, kept: Option<Runtime>, again: Option<Runtime>)
    : Verdict
  {
    Gate(t, h, id, container, if kept.Some? then kept else again)
  }

  predicate Asks(t: Tables, s: Option<Fault>, c: string) {
    s.Some? && ContainerProbed(t, s.value) && s.value.container.value == c
  }

  /** The answer the scan keeps for a container is the first, even if that is none. */
  function Kept(t: Tables, answers: Answers, plan: Plan, n: nat, c: string): Option<Option<Runtime>>
    requires n <= |plan|
  {
    if n == 0 then None
    else
      var before := Kept(t, answers, plan, n - 1, c);
      if before.None? && Asks(t, plan[n - 1], c) then Some(answers(c, 2 * (n - 1))) else before
  }

  function ScanVerdict(t: Tables, h: Host, answers: Answers, plan: Plan, i: nat): Verdict
    requires i < |plan| && plan[i].Some?
  {
    var f := plan[i].value;
    if f.id in t.catalogOnly then GateFault(t, h, f.id, "catalog-only", None, answers("catalog-only", 2 * i + 1))
    else if f.container.None? then Verdict(f.id, "?", false, {}, false, Unresolved)
    else
      var c := f.container.value;
      var kept := if HostAddressed(t, f.id) then None else Kept(t, answers, plan, i + 1, c).value;
      GateFault(t, h, f.id, c, kept, answers(c, 2 * i + 1))
  }

  function ScanVerdicts(t: Tables, h: Host, answers: Answers, plan: Plan, n: nat): seq<Verdict>
    requires n <= |plan|
  {
    if n == 0 then []
    else
      ScanVerdicts(t, h, answers, plan, n - 1) +
      if plan[n - 1].Some? then [ScanVerdict(t, h, answers, plan, n - 1)] else []
  }

  /** Step `i` shows the scan that the engine is there. */
  predicate Counts(t: Tables, answers: Answers, plan: Plan, i: nat)
    requires i < |plan|
  {
    && plan[i].Some? && ContainerProbed(t, plan[i].value)
    && Kept(t, answers, plan, i + 1, plan[i].value.container.value).value.Some?
  }

  ghost predicate Counted(t: Tables, answers: Answers, plan: Plan, n: nat)
    requires n <= |plan|
  {
    exists i: nat | i < n :: Counts(t, answers, plan, i)
  }

  /** `scan_plan_faults`: the first answer for each container is kept, but for want of
      one the gate probes again for every fault, and that does not count. */
  method ScanPlanFaults(t: Tables, h: Host, answers: Answers, plan: Plan)
    returns (verdicts: seq<Verdict>, engineProbed: bool)
    ensures verdicts == ScanVerdicts(t, h, answers, plan, |plan|)
    ensures engineProbed <==> Counted(t, answers, plan, |plan|)
  {
    var seen: map<string, Option<Runtime>> := map[];
    verdicts, engineProbed := [], false;
    for i := 0 to |plan|
      invariant verdicts == ScanVerdicts(t, h, answers, plan, i)
      invariant engineProbed <==> Counted(t, answers, plan, i)
      invariant forall c :: Kept(t, answers, plan, i, c) == if c in seen then Some(seen[c]) else None
    {
      assert Counted(t, answers, plan, i + 1) <==> Counted(t, answers, plan, i) || Counts(t, answers, plan, i);
      if plan[i].None? {
        continue;
      }
      var f := plan[i].value;
      var verdict;
      if f.id in t.catalogOnly {
        verdict := GateFault(t, h, f.id, "catalog-only", None, answers("catalog-only", 2 * i + 1));
      } else if f.container.None? {
        verdict := Verdict(f.id, "?", false, {}, false, Unresolved);
      } else if HostAddressed(t, f.id) {
        verdict := GateFault(t, h, f.id, f.container.value, None, answers(f.container.value, 2 * i + 1));
      } else {
        var container := f.container.value;
        if container !in seen {
          seen := seen[container := answers(container, 2 * i)];
        }
        var run := seen[container];
        engineProbed := engineProbed || run.Some?;
        verdict := GateFault(t, h, f.id, container, run, answers(container, 2 * i + 1));
      }
      verdicts := verdicts + [verdict];
    }
  }

  /** The scan has to look into container `c` for this step. */
  predicate LooksInto(t: Tables, s: Option<Fault>, c: string) {
    && s.Some? && s.value.container == Some(c) && s.value.id !in t.catalogOnly
    && (s.value.id in t.requirements ==> !t.requirements[s.value.id].host)
  }

  lemma {:induction false} NotYetKept(t: Tables, answers: Answers, plan: Plan, n: nat, c: string)
    requires n <= |plan| && forall j | 0 <= j < n :: !LooksInto(t, plan[j], c)
    ensures Kept(t, answers, plan, n, c).None?
  {
    if n > 0 {
      NotYetKept(t, answers, plan, n - 1, c);
      assert !LooksInto(t, plan[n - 1], c);
    }
  }

  lemma {:induction false} FirstIsKept(t: Tables, answers: Answers, plan: Plan, i: nat, n: nat, c: string)
    requires i < n <= |plan| && LooksInto(t, plan[i], c) && forall j | 0 <= j < i :: !LooksInto(t, plan[j], c)
    ensures Kept(t, answers, plan, n, c) == Some(answers(c, 2 * i))
    decreases n
  {
    if n == i + 1 {
      NotYetKept(t, answers, plan, i, c);
    } else {
      FirstIsKept(t, answers, plan, i, n - 1, c);
    }
  }

  /** Step `i` being the first to look into a container, every later one is judged by
      what that found, if anything, and else by what the gate finds at its own moment. */
  lemma FirstAnswerDecides(t: Tables, h: Host, answers: Answers, plan: Plan, i: nat, k: nat, c: string)
    requires i <= k < |plan| && LooksInto(t, plan[i], c) && forall j | 0 <= j < i :: !LooksInto(t, plan[j], c)
    requires LooksInto(t, plan[k], c)
    ensures var first := answers(c, 2 * i);
            && ScanVerdict(t, h, answers, plan, k) ==
               Gate(t, h, plan[k].value.id, c, if first.Some? then first else answers(c, 2 * k + 1))
            && (Counts(t, answers, plan, k) <==> first.Some?)
  {
    FirstIsKept(t, answers, plan, i, k + 1, c);
  }

  /** The faults judged by what is in their container. */
  predicate NeedsContainer(t: Tables, h: Host, id: string) {
    && id !in t.engineFaults && id in t.requirements
    && !t.requirements[id].host && !(h.rootless && "SYS_TIME" in t.requirements[id].caps)
  }

  /** At step `i` the gate's own probe of the container is answered, and needed. */
  predicate AnsweredLate(t: Tables, h: Host, answers: Answers, plan: Plan, i: nat)
    requires i < |plan|
  {
    && plan[i].Some? && NeedsContainer(t, h, plan[i].value.id) && ContainerOf(t, plan[i].value).Some?
    && answers(ContainerOf(t, plan[i].value).value, 2 * i + 1).Some?
  }

  /** A scan that reports the engine as never reached holds a verdict on what is in a
      container, all the same, exactly when one of the gate's own probes is answered. */
  lemma {:induction false} UncountedVerdicts(t: Tables, h: Host, answers: Answers, plan: Plan, n: nat)
    requires n <= |plan| && !Counted(t, answers, plan, n)
    ensures (exists v | v in ScanVerdicts(t, h, answers, plan, n) :: v.note == InContainer) <==>
            exists i: nat | i < n :: AnsweredLate(t, h, answers, plan, i)
    decreases n
  {
    if n > 0 {
      assert !Counts(t, answers, plan, n - 1);
      UncountedVerdicts(t, h, answers, plan, n - 1);
      if plan[n - 1].Some? {
        var v := ScanVerdict(t, h, answers, plan, n - 1);
        assert v.note == InContainer <==> AnsweredLate(t, h, answers, plan, n - 1);
        assert v in ScanVerdicts(t, h, answers, plan, n);
        assert forall x :: x in ScanVerdicts(t, h, answers, plan, n) <==>
          x in ScanVerdicts(t, h, answers, plan, n - 1) || x == v;
      }
    }
  }

  /** The probes of each container all return the same. */
  ghost predicate Steady(answers: Answers, probe: Probe) { forall c, n :: answers(c, n) == probe(c) }

  lemma {:induction false} KeptSteady(t: Tables, answers: Answers, probe: Probe, plan: Plan, n: nat, c: string)
    requires n <= |plan| && Steady(answers, probe)
    ensures Kept(t, answers, plan, n, c) in {None, Some(probe(c))}
  {
    if n > 0 {
      KeptSteady(t, answers, probe, plan, n - 1, c);
    }
  }

  lemma SteadyVerdict(t: Tables, h: Host, answers: Answers, probe: Probe, plan: Plan, i: nat)
    requires i < |plan| && plan[i].Some? && Steady(answers, probe)
    ensures ScanVerdict(t, h, answers, plan, i) == VerdictOn(t, h, probe, plan[i].value)
    ensures Counts(t, answers, plan, i) <==>
            ContainerProbed(t, plan[i].value) && probe(plan[i].value.container.value).Some?
  {
    if plan[i].value.container.Some? {
      KeptSteady(t, answers, probe, plan, i + 1, plan[i].value.container.value);
    }
  }

  /** Then the scan is as good as probing afresh for each fault. */
  lemma {:induction false} SteadyScan(t: Tables, h: Host, answers: Answers, probe: Probe, plan: Plan, n: nat)
    requires n <= |plan| && Steady(answers, probe)
    ensures ScanVerdicts(t, h, answers, plan, n) == Verdicts(t, h, probe, plan[..n])
    ensures Counted(t, answers, plan, n) <==> EngineReached(t, probe, plan[..n])
    decreases n
  {
    if n > 0 {
      SteadyScan(t, h, answers, probe, plan, n - 1);
      assert plan[..n][..n - 1] == plan[..n - 1] && plan[..n] == plan[..n - 1] + [plan[n - 1]];
      if plan[n - 1].Some? {
        SteadyVerdict(t, h, answers, probe, plan, n - 1);
      }
      hide ScanVerdict, VerdictOn, Counts;
      assert Counted(t, answers, plan, n) <==> Counted(t, answers, plan, n - 1) || Counts(t, answers, plan, n - 1);
    }
  }

  // ---------------------------------------------------------------------------
  // The bypass map

  type Pair = (string, string)

  function Proven(v: Verdict): bool { v.probed && !v.possible }

  /** `bypass_from_verdicts`: later verdicts on the same pair overwrite earlier ones. */
  function Bypass(verdicts: seq<Verdict>): map<Pair, Note> {
    if verdicts == [] then map[]
    else
      var last := verdicts[|verdicts| - 1];
      var rest := Bypass(verdicts[..|verdicts| - 1]);
      if Proven(last) then rest[(last.faultId, last.container) := last.note] else rest
  }

  /** The container a verdict is about: a refused fault is judged without one. */
  function ContainerOf(t: Tables, f: Fault): Option<string> {
    if f.id in t.catalogOnly then Some("catalog-only") else f.container
  }

  /** Why a planned fault cannot perturb anything: it is refused outright, or the host
      lacks its tooling, or the engine denies the clock, or its container was
      reached and lacks something. */
  predicate ProvenInert(t: Tables, h: Host, probe: Probe, f: Fault) {
    && f.id !in t.engineFaults
    && ContainerOf(t, f).Some?
    && if f.id !in t.requirements then f.id in t.catalogOnly
       else
         var r, run := t.requirements[f.id], probe(ContainerOf(t, f).value);
         if r.host then !(r.bins <= h.bins)
         else (h.rootless && "SYS_TIME" in r.caps) || (run.Some? && !Meets(t, r, run.value))
  }

  /** A binary is there under its own name, and `python` also as `python3`. */
  predicate Provides(run: Runtime, bin: string) { bin in run.bins || (bin == "python" && "python3" in run.bins) }

  /** The container has all a requirement asks for. */
  predicate Meets(t: Tables, r: Requirement, run: Runtime) {
    && (forall b | b in r.bins :: Provides(run, b))
    && (forall c | c in r.caps :: c in t.capBits && Bit(run.capEff, t.capBits[c]))
    && (r.needRoot ==> run.uid in {None, Some(0)})
  }

  lemma MissingNothing(t: Tables, r: Requirement, run: Runtime)
    ensures Missing(t, r, run) == {} <==> Meets(t, r, run)
  {
    if Missing(t, r, run) == {} {
      forall b | b in r.bins ensures HasBin(run, b) { assert Bin(b) !in Missing(t, r, run); }
      forall c | c in r.caps ensures HasCap(t, run, c) { assert Cap(c) !in Missing(t, r, run); }
      assert Root !in Missing(t, r, run);
    }
  }

  lemma MissingNeed(t: Tables, r: Requirement, run: Runtime, m: Need)
    ensures m in Missing(t, r, run) <==>
            match m
            case Bin(b) => b in r.bins && !Provides(run, b)
            case Cap(c) => c in r.caps && !(c in t.capBits && Bit(run.capEff, t.capBits[c]))
            case Root => r.needRoot && run.uid !in {None, Some(0)}
  {
  }

  /** The verdict on a fault in a container: whether it can take effect, whether that is
      known, and what is missing. */
  lemma GateExactly(t: Tables, h: Host, id: string, c: string, run: Option<Runtime>, m: Need)
    ensures var v := Gate(t, h, id, c, run);
            && v.faultId == id && v.container == c
            && (id in t.engineFaults ==> v.possible && v.probed && v.missing == {})
            && (id !in t.engineFaults && id !in t.requirements ==>
                  v.possible == (id !in t.catalogOnly) && v.probed == (id in t.catalogOnly) && v.missing == {})
            && (id !in t.engineFaults && id in t.requirements ==>
                  var r := t.requirements[id];
                  if r.host then
                    && v.possible == (r.bins <= h.bins) && v.probed
                    && (m in v.missing <==> m.Bin? && m.bin in r.bins && m.bin !in h.bins)
                  else if h.rootless && "SYS_TIME" in r.caps then !v.possible && v.probed && v.missing == {}
                  else if run.None? then !v.possible && !v.probed && v.missing == {}
                  else v.possible == Meets(t, r, run.value) && v.probed && v.missing == Missing(t, r, run.value))
  {
    if id in t.requirements {
      var r := t.requirements[id];
      if r.host {
        var missing := set b | b in r.bins && b !in h.bins :: Bin(b);
        if !(r.bins <= h.bins) {
          var b :| b in r.bins && b !in h.bins;
          assert Bin(b) in missing;
        }
      } else if run.Some? {
        MissingNothing(t, r, run.value);
      }
    }
  }

  lemma ProvenOn(t: Tables, h: Host, probe: Probe, f: Fault)
    ensures Proven(VerdictOn(t, h, probe, f)) <==> ProvenInert(t, h, probe, f)
  {
    if f.id in t.requirements && ContainerOf(t, f).Some? {
      var r, run := t.requirements[f.id], probe(ContainerOf(t, f).value);
      if r.host {
        var missing := set b | b in r.bins && b !in h.bins :: Bin(b);
        if !(r.bins <= h.bins) {
          var b :| b in r.bins && b !in h.bins;
          assert Bin(b) in missing;
        }
      } else if run.Some? {
        MissingNothing(t, r, run.value);
      }
    }
  }

  /** The pair a fault is bypassed under. */
  function PairOf(t: Tables, f: Fault): Pair {
    (f.id, if ContainerOf(t, f).Some? then ContainerOf(t, f).value else "?")
  }

  /** Fault `f` is proven inert, and bypassed under `pair`. */
  ghost predicate Bypassed(t: Tables, h: Host, probe: Probe, f: Fault, pair: Pair) {
    ProvenInert(t, h, probe, f) && PairOf(t, f) == pair
  }

  /** The bypass map of a scan holds exactly the pairs of the faults proven inert, each
      with its own verdict's reason. */
  lemma {:induction false} BypassIsExact(t: Tables, h: Host, probe: Probe, plan: Plan, pair: Pair)
    ensures pair in Bypass(Verdicts(t, h, probe, plan)) <==>
            exists s | s in plan :: s.Some? && Bypassed(t, h, probe, s.value, pair)
    ensures forall s | s in plan && s.Some? && Bypassed(t, h, probe, s.value, pair) ::
              pair in Bypass(Verdicts(t, h, probe, plan)) &&
              Bypass(Verdicts(t, h, probe, plan))[pair] == VerdictOn(t, h, probe, s.value).note
    decreases |plan|
  {
    if plan != [] {
      var init, last := plan[..|plan| - 1], plan[|plan| - 1];
      BypassIsExact(t, h, probe, init, pair);
      assert plan == init + [last];
      if last.None? {
        assert Verdicts(t, h, probe, init) + [] == Verdicts(t, h, probe, init);
      } else {
        BypassAppend(Verdicts(t, h, probe, init), VerdictOn(t, h, probe, last.value));
        VerdictPair(t, h, probe, last.value);
        ProvenOn(t, h, probe, last.value);
        forall s | s in init && s.Some? && Bypassed(t, h, probe, s.value, pair) &&
            Bypassed(t, h, probe, last.value, pair)
          ensures VerdictOn(t, h, probe, s.value) == VerdictOn(t, h, probe, last.value)
        {
          SamePairSameVerdict(t, h, probe, s.value, last.value);
        }
      }
    }
  }

  lemma SamePairSameVerdict(t: Tables, h: Host, probe: Probe, f: Fault, g: Fault)
    requires PairOf(t, f) == PairOf(t, g) && ContainerOf(t, f).Some? && ContainerOf(t, g).Some?
    ensures VerdictOn(t, h, probe, f) == VerdictOn(t, h, probe, g)
  {
  }

  /** What one more verdict adds to the map. */
  lemma BypassAppend(before: seq<Verdict>, v: Verdict)
    ensures Bypass(before + [v]) == if Proven(v) then Bypass(before)[(v.faultId, v.container) := v.note]
            else Bypass(before)
  {
    assert (before + [v])[..|before|] == before;
  }

  lemma VerdictPair(t: Tables, h: Host, probe: Probe, f: Fault)
    ensures var v := VerdictOn(t, h, probe, f); (v.faultId, v.container) == PairOf(t, f)
  {
  }

  /** A fault whose container could not be reached is never bypassed, unless it needs
      no container to be proven inert: refused outright, driven from the host, or a
      clock change under a rootless engine. */
  lemma UnreachableIsAttempted(t: Tables, h: Host, probe: Probe, f: Fault)
    requires ContainerOf(t, f).Some? && probe(ContainerOf(t, f).value).None?
    ensures ProvenInert(t, h, probe, f) <==>
            && f.id !in t.engineFaults
            && if f.id !in t.requirements then f.id in t.catalogOnly
               else if t.requirements[f.id].host then !(t.requirements[f.id].bins <= h.bins)
               else h.rootless && "SYS_TIME" in t.requirements[f.id].caps
  {
  }

  /** ... nor is one that resolves to no container. */
  lemma UnresolvedIsAttempted(t: Tables, h: Host, probe: Probe, f: Fault)
    requires f.id !in t.catalogOnly && f.container.None?
    ensures !Proven(VerdictOn(t, h, probe, f))
  {
  }
}
