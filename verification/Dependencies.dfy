/** What every container of a plan is missing, how the gaps can be closed, and the
    offline list a container has to be built with. */
module Dependencies {
  import opened Outcomes
  import opened Impact

  /** What a plan found out about its containers so far. */
  datatype Ledger = Ledger(
    missing: map<string, set<Need>>, unfixable: map<string, map<string, Note>>, unreachable: map<string, set<string>>)

  const EMPTY := Ledger(map[], map[], map[])

  function At<V>(m: map<string, set<V>>, k: string): set<V> { if k in m then m[k] else {} }

  function NotesAt(m: map<string, map<string, Note>>, k: string): map<string, Note> { if k in m then m[k] else map[] }

  /** Faults whose tooling has to be in their container. */
  predicate InContainerFault(t: Tables, s: Option<Fault>) {
    s.Some? && s.value.container.Some? && !HostAddressed(t, s.value.id)
  }

  /** One more fault booked under its container, given what the probe returned. */
  function Book(t: Tables, h: Host, l: Ledger, id: string, c: string, run: Option<Runtime>): Ledger {
    if run.None? then l.(unreachable := l.unreachable[c := At(l.unreachable, c) + {id}])
    else
      var v := Gate(t, h, id, c, run);
      if v.possible then l
      else if v.missing == {} then l.(unfixable := l.unfixable[c := NotesAt(l.unfixable, c)[id := v.note]])
      else l.(missing := l.missing[c := At(l.missing, c) + v.missing])
  }

  function Survey(t: Tables, h: Host, probe: Probe, plan: Plan, n: nat): Ledger
    requires n <= |plan|
  {
    if n == 0 then EMPTY
    else
      var l := Survey(t, h, probe, plan, n - 1);
      if InContainerFault(t, plan[n - 1]) then
        var f := plan[n - 1].value;
        Book(t, h, l, f.id, f.container.value, probe(f.container.value))
      else l
  }

  // ---------------------------------------------------------------------------
  // The plan of one container

  datatype ContainerPlan = ContainerPlan(
    pm: Option<string>, packages: set<string>, bins: set<string>, manual: set<string>, capsMissing: set<string>,
    needRoot: bool, unfixable: map<string, Note>, unreachable: set<string>)

  /** The first package manager present, in priority order. */
  function PackageManager(managers: seq<string>, run: Runtime): Option<string> {
    if managers == [] then None
    else if HasBin(run, managers[0]) then Some(managers[0])
    else PackageManager(managers[1..], run)
  }

  predicate Installable(t: Tables, pm: Option<string>, bin: string) {
    pm.Some? && bin in t.packages && pm.value in t.packages[bin]
  }

  function PlanFor(t: Tables, l: Ledger, c: string, run: Option<Runtime>): ContainerPlan {
    var missing := At(l.missing, c);
    var pm := if run.Some? then PackageManager(t.managers, run.value) else None;
    ContainerPlan(
      pm,
      set m | m in missing && m.Bin? && Installable(t, pm, m.bin) :: t.packages[m.bin][pm.value],
      set m | m in missing && m.Bin? && Installable(t, pm, m.bin) :: m.bin,
      set m | m in missing && m.Bin? && !Installable(t, pm, m.bin) :: m.bin,
      set m | m in missing && m.Cap? :: m.cap,
      Root in missing,
      NotesAt(l.unfixable, c),
      At(l.unreachable, c))
  }

  function Containers(l: Ledger): set<string> { l.missing.Keys + l.unfixable.Keys + l.unreachable.Keys }

  /** One entry per container in `cs`. */
  predicate PlansFor(t: Tables, l: Ledger, probe: Probe, cs: set<string>, plans: map<string, ContainerPlan>) {
    plans.Keys == cs && forall c | c in plans :: plans[c] == PlanFor(t, l, c, probe(c))
  }

  /** `dependency_plan`: each container is probed once; one entry per container with
      anything to report. */
  method DependencyPlan(t: Tables, h: Host, probe: Probe, plan: Plan) returns (plans: map<string, ContainerPlan>)
    ensures var l := Survey(t, h, probe, plan, |plan|);
            && (forall c :: c in plans <==> exists i :: 0 <= i < |plan| && Stuck(t, h, probe, plan, i, c))
            && forall c | c in plans :: plans[c] == PlanFor(t, l, c, probe(c))
  {
    forall c {
      ReportedExactly(t, h, probe, plan, |plan|, c);
    }
    var l, runtimes := SurveyContainers(t, h, probe, plan);
    plans := PlanContainers(t, l, probe, Containers(l), runtimes);
  }

  /** The second loop of `dependency_plan`, over the containers with gaps. */
  method PlanContainers(t: Tables, l: Ledger, ghost probe: Probe, cs: set<string>,
      runtimes: map<string, Option<Runtime>>)
    returns (plans: map<string, ContainerPlan>)
    requires forall c | c in cs :: c in runtimes && runtimes[c] == probe(c)
    ensures PlansFor(t, l, probe, cs, plans)
  {
    plans := map[];
    var rest := cs;
    while rest != {}
      invariant rest <= cs
      invariant PlansFor(t, l, probe, cs - rest, plans)
      decreases |rest|
    {
      var c :| c in rest;
      plans := plans[c := PlanFor(t, l, c, runtimes[c])];
      rest := rest - {c};
    }
  }

  /** The first loop of `dependency_plan`, over the plan. */
  method SurveyContainers(t: Tables, h: Host, probe: Probe, plan: Plan)
    returns (l: Ledger, runtimes: map<string, Option<Runtime>>)
    ensures l == Survey(t, h, probe, plan, |plan|)
    ensures forall c | c in Containers(l) :: c in runtimes && runtimes[c] == probe(c)
  {
    l, runtimes := EMPTY, map[];
    for i := 0 to |plan|
      invariant l == Survey(t, h, probe, plan, i)
      invariant forall c | c in runtimes :: runtimes[c] == probe(c)
      invariant Containers(l) <= runtimes.Keys
    {
      if !InContainerFault(t, plan[i]) {
        continue;
      }
      var f := plan[i].value;
      var c := f.container.value;
      if c !in runtimes {
        runtimes := runtimes[c := probe(c)];
      }
      l := Book(t, h, l, f.id, c, runtimes[c]);
    }
  }

  /** The step is a fault that runs in container `c`. */
  predicate OnContainer(t: Tables, s: Option<Fault>, c: string) {
    s.Some? && s.value.container == Some(c) && (s.value.id in t.requirements ==> !t.requirements[s.value.id].host)
  }

  /** Fault step `i` is on container `c` and misses `m` there. */
  ghost predicate Misses(t: Tables, h: Host, probe: Probe, plan: Plan, i: nat, c: string, m: Need) {
    && i < |plan| && OnContainer(t, plan[i], c)
    && probe(c).Some? && m in Gate(t, h, plan[i].value.id, c, probe(c)).missing
  }

  /** What booking one fault adds. */
  lemma BookedNeed(t: Tables, h: Host, l: Ledger, id: string, at: string, run: Option<Runtime>, c: string, m: Need)
    ensures m in At(Book(t, h, l, id, at, run).missing, c) <==>
            m in At(l.missing, c) || (c == at && run.Some? && m in Gate(t, h, id, at, run).missing)
  {
  }

  lemma SurveyNext(t: Tables, h: Host, probe: Probe, plan: Plan, n: nat, c: string, m: Need)
    requires n < |plan|
    ensures m in At(Survey(t, h, probe, plan, n + 1).missing, c) <==>
            m in At(Survey(t, h, probe, plan, n).missing, c) || Misses(t, h, probe, plan, n, c, m)
  {
    if InContainerFault(t, plan[n]) {
      var f := plan[n].value;
      BookedNeed(t, h, Survey(t, h, probe, plan, n), f.id, f.container.value, probe(f.container.value), c, m);
    }
  }

  /** A need is booked under a container exactly when some fault planned on it misses it. */
  lemma {:induction false} SurveyIsExact(t: Tables, h: Host, probe: Probe, plan: Plan, n: nat, c: string, m: Need)
    requires n <= |plan|
    ensures m in At(Survey(t, h, probe, plan, n).missing, c) <==>
            exists i :: 0 <= i < n && Misses(t, h, probe, plan, i, c, m)
  {
    if n > 0 {
      SurveyIsExact(t, h, probe, plan, n - 1, c, m);
      SurveyNext(t, h, probe, plan, n - 1, c, m);
    }
  }

  /** The container's own package manager: the first of the list that it has. */
  predicate IsManager(t: Tables, run: Runtime, pm: Option<string>) {
    match pm
    case None => forall m | m in t.managers :: !Provides(run, m)
    case Some(name) =>
      exists i | 0 <= i < |t.managers| ::
        t.managers[i] == name && Provides(run, name) && forall j | 0 <= j < i :: !Provides(run, t.managers[j])
  }

  lemma {:induction false} FirstManager(managers: seq<string>, run: Runtime)
    ensures var pm := PackageManager(managers, run);
            match pm
            case None => forall m | m in managers :: !Provides(run, m)
            case Some(name) =>
              exists i | 0 <= i < |managers| ::
                managers[i] == name && Provides(run, name) && forall j | 0 <= j < i :: !Provides(run, managers[j])
  {
    if managers != [] {
      FirstManager(managers[1..], run);
      var pm := PackageManager(managers, run);
      assert managers == [managers[0]] + managers[1..];
      if Provides(run, managers[0]) {
        assert managers[0] == pm.value;
      } else if pm.Some? {
        var i :| 0 <= i < |managers[1..]| && managers[1..][i] == pm.value && Provides(run, pm.value) &&
          forall j | 0 <= j < i :: !Provides(run, managers[1..][j]);
        assert managers[i + 1] == pm.value;
        forall j | 0 <= j < i + 1 ensures !Provides(run, managers[j]) {
          assert j > 0 ==> managers[j] == managers[1..][j - 1];
        }
      }
    }
  }

  /** Some fault planned on the container misses the bin. */
  ghost predicate MissesBin(t: Tables, h: Host, probe: Probe, plan: Plan, c: string, bin: string) {
    exists i :: 0 <= i < |plan| && Misses(t, h, probe, plan, i, c, Bin(bin))
  }

  /** The bins a container misses split in two: those for which its package manager has a
      package, and the rest.  Nothing is lost and nothing is listed twice; and the
      packages are those of the first kind. */
  lemma BinsSplit(t: Tables, h: Host, probe: Probe, plan: Plan, c: string, bin: string)
    ensures var p := PlanFor(t, Survey(t, h, probe, plan, |plan|), c, probe(c));
            && (if probe(c).Some? then IsManager(t, probe(c).value, p.pm) else p.pm.None?)
            && (bin in p.bins <==>
                  && MissesBin(t, h, probe, plan, c, bin)
                  && p.pm.Some? && bin in t.packages && p.pm.value in t.packages[bin])
            && (bin in p.manual <==> MissesBin(t, h, probe, plan, c, bin) && bin !in p.bins)
            && (bin in p.bins ==> t.packages[bin][p.pm.value] in p.packages)
            && (forall x | x in p.packages :: exists b | b in p.bins :: x == t.packages[b][p.pm.value])
  {
    SurveyIsExact(t, h, probe, plan, |plan|, c, Bin(bin));
    if probe(c).Some? {
      FirstManager(t.managers, probe(c).value);
    }
    hide Survey, Misses, PackageManager;
  }

  /** So are the capabilities to grant and the need for root. */
  lemma GrantsAreExact(t: Tables, h: Host, probe: Probe, plan: Plan, c: string, cap: string)
    ensures var p := PlanFor(t, Survey(t, h, probe, plan, |plan|), c, probe(c));
            && (cap in p.capsMissing <==> exists i :: 0 <= i < |plan| && Misses(t, h, probe, plan, i, c, Cap(cap)))
            && (p.needRoot <==> exists i :: 0 <= i < |plan| && Misses(t, h, probe, plan, i, c, Root))
  {
    SurveyIsExact(t, h, probe, plan, |plan|, c, Cap(cap));
    SurveyIsExact(t, h, probe, plan, |plan|, c, Root);
  }

  /** Fault step `i` is fault `id` on container `c`. */
  ghost predicate PlannedOn(t: Tables, plan: Plan, i: nat, id: string, c: string) {
    i < |plan| && OnContainer(t, plan[i], c) && plan[i].value.id == id
  }

  /** A fault is blocked for a reason nothing can remedy. */
  predicate Irremediable(v: Verdict) { !v.possible && v.missing == {} }

  /** A container lists as unreachable exactly the faults planned on it when its probe
      failed, and as unfixable exactly those that are inert with nothing missing. */
  lemma {:induction false} BlockedIsExact(t: Tables, h: Host, probe: Probe, plan: Plan, n: nat, c: string, id: string)
    requires n <= |plan|
    ensures id in At(Survey(t, h, probe, plan, n).unreachable, c) <==>
            probe(c).None? && exists i :: 0 <= i < n && PlannedOn(t, plan, i, id, c)
    ensures id in NotesAt(Survey(t, h, probe, plan, n).unfixable, c) <==>
            && probe(c).Some? && Irremediable(Gate(t, h, id, c, probe(c)))
            && exists i :: 0 <= i < n && PlannedOn(t, plan, i, id, c)
  {
    if n > 0 {
      BlockedIsExact(t, h, probe, plan, n - 1, c, id);
      assert (exists i :: 0 <= i < n && PlannedOn(t, plan, i, id, c)) <==>
             (exists i :: 0 <= i < n - 1 && PlannedOn(t, plan, i, id, c)) || PlannedOn(t, plan, n - 1, id, c);
      assert PlannedOn(t, plan, n - 1, id, c) ==> plan[n - 1].value.id == id && plan[n - 1].value.container.value == c;
    }
  }

  /** Fault step `i` cannot take effect in container `c`, or that cannot be told. */
  ghost predicate Stuck(t: Tables, h: Host, probe: Probe, plan: Plan, i: nat, c: string) {
    && i < |plan| && OnContainer(t, plan[i], c)
    && (probe(c).None? || !Gate(t, h, plan[i].value.id, c, probe(c)).possible)
  }

  /** The containers reported are those with such a fault. */
  lemma {:induction false} ReportedExactly(t: Tables, h: Host, probe: Probe, plan: Plan, n: nat, c: string)
    requires n <= |plan|
    ensures c in Containers(Survey(t, h, probe, plan, n)) <==> exists i :: 0 <= i < n && Stuck(t, h, probe, plan, i, c)
  {
    if n > 0 {
      ReportedExactly(t, h, probe, plan, n - 1, c);
      ReportedNext(t, h, probe, plan, n - 1, c);
    }
    assert n == 0 ==> c !in Containers(Survey(t, h, probe, plan, n));
    hide *;
  }

  lemma ReportedNext(t: Tables, h: Host, probe: Probe, plan: Plan, n: nat, c: string)
    requires n < |plan|
    ensures c in Containers(Survey(t, h, probe, plan, n + 1)) <==>
            c in Containers(Survey(t, h, probe, plan, n)) || Stuck(t, h, probe, plan, n, c)
  {
  }

  // ---------------------------------------------------------------------------
  // Remedies

  /** The container with everything its plan asks for. */
  ghost function Remedied(t: Tables, run: Runtime, p: ContainerPlan): Runtime {
    Runtime(run.bins + p.bins + p.manual,
            if p.needRoot then Some(0) else run.uid,
            SetBits(run.capEff, set c | c in p.capsMissing && c in t.capBits :: t.capBits[c]))
  }

  /** Giving a container more never takes anything from it. */
  lemma RemedyKeeps(t: Tables, run: Runtime, p: ContainerPlan, r: Requirement)
    ensures Missing(t, r, Remedied(t, run, p)) <= Missing(t, r, run)
  {
    var run' := Remedied(t, run, p);
    forall c | c in r.caps && HasCap(t, run, c) ensures HasCap(t, run', c) {
      SetBitsSetsThem(run.capEff, set c | c in p.capsMissing && c in t.capBits :: t.capBits[c], t.capBits[c]);
    }
  }

  lemma RemedyProvides(t: Tables, run: Runtime, p: ContainerPlan, m: Need, r: Requirement)
    requires m.Bin? ==> m.bin in p.bins + p.manual
    requires m.Cap? ==> m.cap in p.capsMissing && m.cap in t.capBits
    requires m.Root? ==> p.needRoot
    ensures m !in Missing(t, r, Remedied(t, run, p))
  {
    if m.Cap? {
      SetBitsSetsThem(run.capEff, set c | c in p.capsMissing && c in t.capBits :: t.capBits[c], t.capBits[m.cap]);
    }
  }

  /** What the survey holds about fault `i` of the plan. */
  lemma {:induction false} Booked(t: Tables, h: Host, probe: Probe, plan: Plan, n: nat, i: nat)
    requires i < n <= |plan| && InContainerFault(t, plan[i])
    ensures var f := plan[i].value;
            var c := f.container.value;
            var l := Survey(t, h, probe, plan, n);
            if probe(c).None? then f.id in At(l.unreachable, c)
            else
              var v := Gate(t, h, f.id, c, probe(c));
              !v.possible ==> if v.missing == {} then f.id in NotesAt(l.unfixable, c) else v.missing <= At(l.missing, c)
    decreases n
  {
    if i < n - 1 {
      Booked(t, h, probe, plan, n - 1, i);
    }
  }

  /** Remedy soundness: in a container given its planned bins, its manual bins, its
      missing capabilities and root, every fault planned on it that is not listed as
      unfixable can take effect, exactly unless it requires a capability the mask has
      no bit for. */
  lemma RemedySound(t: Tables, h: Host, probe: Probe, plan: Plan, i: nat)
    requires i < |plan| && exists c :: OnContainer(t, plan[i], c) && probe(c).Some?
    ensures var f := plan[i].value;
            var c := f.container.value;
            var p := PlanFor(t, Survey(t, h, probe, plan, |plan|), c, probe(c));
            || f.id in p.unfixable
            || (Gate(t, h, f.id, c, Some(Remedied(t, probe(c).value, p))).possible <==>
                  f.id in t.engineFaults || f.id !in t.requirements || t.requirements[f.id].caps <= t.capBits.Keys)
  {
    var f := plan[i].value;
    var c := f.container.value;
    var l, run := Survey(t, h, probe, plan, |plan|), probe(c).value;
    var p := PlanFor(t, l, c, probe(c));
    Booked(t, h, probe, plan, |plan|, i);
    if Gate(t, h, f.id, c, Some(run)).note.InContainer? {
      RemediedMissing(t, run, l, c, t.requirements[f.id]);
    }
  }

  /** All that is still missing once a container has what is booked under it. */
  lemma RemediedMissing(t: Tables, run: Runtime, l: Ledger, c: string, r: Requirement)
    requires Missing(t, r, run) <= At(l.missing, c)
    ensures Missing(t, r, Remedied(t, run, PlanFor(t, l, c, Some(run)))) == {} <==> r.caps <= t.capBits.Keys
  {
    var p := PlanFor(t, l, c, Some(run));
    RemedyKeeps(t, run, p, r);
    if r.caps <= t.capBits.Keys {
      forall m | m in Missing(t, r, Remedied(t, run, p)) ensures false {
        assert m in At(l.missing, c);
        RemedyProvides(t, run, p, m, r);
      }
    } else {
      var cap :| cap in r.caps && cap !in t.capBits;
      assert Cap(cap) in Missing(t, r, Remedied(t, run, p));
    }
  }

  /** A fault that could already take effect still can. */
  lemma PossibleStaysPossible(t: Tables, h: Host, run: Runtime, p: ContainerPlan, id: string, c: string)
    requires Gate(t, h, id, c, Some(run)).possible
    ensures Gate(t, h, id, c, Some(Remedied(t, run, p))).possible
  {
    if id in t.requirements {
      RemedyKeeps(t, run, p, t.requirements[id]);
    }
  }

  // ---------------------------------------------------------------------------
  // The offline list

  datatype CompilePlan = CompilePlan(bins: set<string>, caps: set<string>, manual: set<string>)

  function CompileAt(m: map<string, CompilePlan>, c: string): CompilePlan {
    if c in m then m[c] else CompilePlan({}, {}, {})
  }

  function Compiled(t: Tables, plan: Plan, n: nat): map<string, CompilePlan>
    requires n <= |plan|
  {
    if n == 0 then map[]
    else
      var m := Compiled(t, plan, n - 1);
      if InContainerFault(t, plan[n - 1]) && plan[n - 1].value.id in t.requirements then
        var r, c := t.requirements[plan[n - 1].value.id], plan[n - 1].value.container.value;
        var was := CompileAt(m, c);
        m[c := CompilePlan(was.bins + (set b | b in r.bins && b in t.packages),
                           was.caps + r.caps,
                           was.manual + (set b | b in r.bins && b !in t.packages))]
      else m
  }

  /** `compile_requirements`: no container is probed. */
  method CompileRequirements(t: Tables, plan: Plan) returns (plans: map<string, CompilePlan>)
    ensures plans == Compiled(t, plan, |plan|)
  {
    plans := map[];
    for i := 0 to |plan|
      invariant plans == Compiled(t, plan, i)
    {
      if plan[i].None? || plan[i].value.id !in t.requirements {
        continue;
      }
      var f := plan[i].value;
      var r := t.requirements[f.id];
      if r.host || f.container.None? {
        continue;
      }
      var was := CompileAt(plans, f.container.value);
      var manual := set b | b in r.bins && b !in t.packages;
      var bins := set b | b in r.bins && b in t.packages;
      plans := plans[f.container.value := CompilePlan(was.bins + bins, was.caps + r.caps, was.manual + manual)];
    }
  }

  /** Fault step `i` on container `c` is one with tooling requirements. */
  ghost predicate Requires(t: Tables, plan: Plan, i: nat, c: string) {
    i < |plan| && OnContainer(t, plan[i], c) && plan[i].value.id in t.requirements
  }

  ghost predicate RequiresBin(t: Tables, plan: Plan, i: nat, c: string, bin: string) {
    Requires(t, plan, i, c) && bin in t.requirements[plan[i].value.id].bins
  }

  ghost predicate RequiresCap(t: Tables, plan: Plan, i: nat, c: string, cap: string) {
    Requires(t, plan, i, c) && cap in t.requirements[plan[i].value.id].caps
  }

  /** The offline list of a container is the join of what its planned faults require:
      the bins split by whether any package manager has them, and the capabilities. */
  lemma {:induction false} CompiledIsExact(t: Tables, plan: Plan, n: nat, c: string, x: string)
    requires n <= |plan|
    ensures x in CompileAt(Compiled(t, plan, n), c).bins <==>
            x in t.packages && exists i :: 0 <= i < n && RequiresBin(t, plan, i, c, x)
    ensures x in CompileAt(Compiled(t, plan, n), c).manual <==>
            x !in t.packages && exists i :: 0 <= i < n && RequiresBin(t, plan, i, c, x)
    ensures x in CompileAt(Compiled(t, plan, n), c).caps <==>
            exists i :: 0 <= i < n && RequiresCap(t, plan, i, c, x)
  {
    if n > 0 {
      CompiledIsExact(t, plan, n - 1, c, x);
      CompiledNext(t, plan, n - 1, c, x);
    }
  }

  lemma CompiledNext(t: Tables, plan: Plan, n: nat, c: string, x: string)
    requires n < |plan|
    ensures var was, now := CompileAt(Compiled(t, plan, n), c), CompileAt(Compiled(t, plan, n + 1), c);
            && (x in now.bins <==> x in was.bins || (x in t.packages && RequiresBin(t, plan, n, c, x)))
            && (x in now.manual <==> x in was.manual || (x !in t.packages && RequiresBin(t, plan, n, c, x)))
            && (x in now.caps <==> x in was.caps || RequiresCap(t, plan, n, c, x))
  {
  }

  /** The containers with an entry are those of the faults with tooling requirements. */
  lemma {:induction false} CompiledContainers(t: Tables, plan: Plan, n: nat, c: string)
    requires n <= |plan|
    ensures c in Compiled(t, plan, n) <==> exists i :: 0 <= i < n && Requires(t, plan, i, c)
  {
    if n > 0 {
      CompiledContainers(t, plan, n - 1, c);
      assert c in Compiled(t, plan, n) <==> c in Compiled(t, plan, n - 1) || Requires(t, plan, n - 1, c);
    }
  }

  /** Whatever any probe finds missing, the offline list has. */
  predicate Covers(q: CompilePlan, missing: set<Need>) {
    forall m | m in missing ::
      && (m.Bin? ==> m.bin in q.bins + q.manual)
      && (m.Cap? ==> m.cap in q.caps)
  }

  /** What one fault misses is among what it requires. */
  lemma MissesRequired(t: Tables, h: Host, probe: Probe, plan: Plan, i: nat, c: string, m: Need)
    requires Misses(t, h, probe, plan, i, c, m)
    ensures Requires(t, plan, i, c)
    ensures m.Bin? ==> RequiresBin(t, plan, i, c, m.bin)
    ensures m.Cap? ==> RequiresCap(t, plan, i, c, m.cap)
  {
  }

  /** Whatever any probe finds missing in a container, its offline list has. */
  lemma CompiledCoversSurvey(t: Tables, h: Host, probe: Probe, plan: Plan, n: nat, c: string)
    requires n <= |plan|
    ensures Covers(CompileAt(Compiled(t, plan, n), c), At(Survey(t, h, probe, plan, n).missing, c))
    ensures At(Survey(t, h, probe, plan, n).missing, c) != {} ==> c in Compiled(t, plan, n)
    ensures forall b | b in CompileAt(Compiled(t, plan, n), c).bins :: b in t.packages
    ensures forall b | b in CompileAt(Compiled(t, plan, n), c).manual :: b !in t.packages
  {
    forall m | m in At(Survey(t, h, probe, plan, n).missing, c)
      ensures Covers(CompileAt(Compiled(t, plan, n), c), {m}) && c in Compiled(t, plan, n)
    {
      NeedCovered(t, h, probe, plan, n, c, m);
    }
    forall b ensures b in CompileAt(Compiled(t, plan, n), c).bins ==> b in t.packages
             ensures b in CompileAt(Compiled(t, plan, n), c).manual ==> b !in t.packages
    {
      CompiledIsExact(t, plan, n, c, b);
    }
  }

  lemma NeedCovered(t: Tables, h: Host, probe: Probe, plan: Plan, n: nat, c: string, m: Need)
    requires n <= |plan| && m in At(Survey(t, h, probe, plan, n).missing, c)
    ensures Covers(CompileAt(Compiled(t, plan, n), c), {m}) && c in Compiled(t, plan, n)
  {
    SurveyIsExact(t, h, probe, plan, n, c, m);
    var i: nat :| i < n && Misses(t, h, probe, plan, i, c, m);
    MissesRequired(t, h, probe, plan, i, c, m);
    RequiredCovered(t, plan, n, i, c, m);
  }

  /** What a planned fault requires is on the list. */
  lemma RequiredCovered(t: Tables, plan: Plan, n: nat, i: nat, c: string, m: Need)
    requires i < n <= |plan| && Requires(t, plan, i, c)
    requires m.Bin? ==> RequiresBin(t, plan, i, c, m.bin)
    requires m.Cap? ==> RequiresCap(t, plan, i, c, m.cap)
    ensures Covers(CompileAt(Compiled(t, plan, n), c), {m}) && c in Compiled(t, plan, n)
  {
    CompiledContainers(t, plan, n, c);
    match m
    case Bin(b) => CompiledIsExact(t, plan, n, c, b);
    case Cap(x) => CompiledIsExact(t, plan, n, c, x);
    case Root =>
  }

  /** Offline covers live: for every plan and every probe result, all a container's
      plan asks to install, to provide by hand or to grant is on its offline list;
      and what its package manager can install is on the installable side of it. */
  lemma OfflineCoversLive(t: Tables, h: Host, probe: Probe, plan: Plan, c: string)
    ensures var p := PlanFor(t, Survey(t, h, probe, plan, |plan|), c, probe(c));
            var q := CompileAt(Compiled(t, plan, |plan|), c);
            && p.bins + p.manual <= q.bins + q.manual
            && p.bins <= q.bins
            && p.capsMissing <= q.caps
  {
    CompiledCoversSurvey(t, h, probe, plan, |plan|, c);
  }
}
