/** `_LayerAccumulator` as it runs: the merged document is a heap dictionary, updated
    in place, that comes to share the dictionaries of the layers it absorbs. */
module Accumulator {
  import opened Outcomes
  import opened Documents
  import opened DeepMerge
  import opened ConfigLayers

  // ---------------------------------------------------------------------------
  // Pure facts

  function Except<V>(m: map<string, V>, keys: set<string>): map<string, V> {
    map k | k in m && k !in keys :: m[k]
  }

  /** All profiles of a block but `rest` are recorded: `profiles` was `was`, and the names
      `seen` were `declared`. */
  predicate Recorded(was: Mapping, block: Mapping, declared: set<string>, rest: set<string>, profiles: Mapping,
      seen: set<string>)
  {
    && rest <= block.Keys
    && declared !! (block.Keys - rest)
    && seen == declared + (block.Keys - rest)
    && profiles == was + Except(block, rest)
  }

  lemma RecordedNext(was: Mapping, block: Mapping, declared: set<string>, rest: set<string>, profiles: Mapping,
                     seen: set<string>, n: string)
    requires Recorded(was, block, declared, rest, profiles, seen) && n in rest
    ensures n in seen <==> n in declared
    ensures n !in seen ==> Recorded(was, block, declared, rest - {n}, profiles[n := block[n]], seen + {n})
  {
    assert block.Keys - (rest - {n}) == (block.Keys - rest) + {n};
    assert was + Except(block, rest - {n}) == (was + Except(block, rest))[n := block[n]];
  }

  lemma AllRecorded(was: Mapping, block: Mapping, declared: set<string>, profiles: Mapping, seen: set<string>)
    requires Recorded(was, block, declared, {}, profiles, seen)
    ensures declared !! block.Keys && seen == declared + block.Keys && profiles == was + block
  {
    assert Except(block, {}) == block && block.Keys - {} == block.Keys;
  }

  function Named(keys: set<string>, name: string): map<string, string> { map k | k in keys :: name }

  /** The plain keys outside `rest`. */
  function Taken(keys: set<string>, rest: set<string>): set<string> { PlainKeys(keys - rest) }

  lemma TakenNext(keys: set<string>, rest: set<string>, key: string, was: map<string, string>, name: string)
    requires key in rest && rest <= keys
    ensures Taken(keys, rest - {key}) == if Plain(key) then Taken(keys, rest) + {key} else Taken(keys, rest)
    ensures Plain(key) ==>
              was + Named(Taken(keys, rest - {key}), name) == (was + Named(Taken(keys, rest), name))[key := name]
  {
    assert Taken(keys, rest - {key}) == PlainKeys((keys - rest) + {key});
  }

  /** The fields of a document. */
  function Fields(sh: Shape): Mapping
    requires sh.SNode?
  {
    Contents(sh).entries
  }

  function Without(m: Mapping, key: string): Mapping { map k | k in m && k != key :: m[k] }

  lemma OverlayWithout(m: Mapping, n: Mapping, key: string)
    requires key !in n
    ensures Without(Overlay(m, n), key) == Overlay(Without(m, key), n)
    ensures key in Overlay(m, n) <==> key in m
    ensures key in m ==> Overlay(m, n)[key] == m[key]
  {
  }

  lemma PlainPartIsPart(s: Shape)
    requires s.SNode?
    ensures Contents(Part(s, PlainKeys(s.kids.Keys))) == Node(PlainPart(Fields(s)))
  {
  }

  lemma AttributedFrom(s: Shape, name: string)
    requires s.SNode?
    ensures AllFrom(PlainPart(Fields(s)), name) == Named(PlainKeys(s.kids.Keys), name)
  {
  }

  lemma PlusAssociates<K, V>(a: map<K, V>, b: map<K, V>, c: map<K, V>)
    ensures a + b + c == a + (b + c)
  {
  }

  /** All but the keys `rest` of `s` are absorbed: `kids` are the destination's entries, and
      `sources` was `was`. */
  ghost predicate Midway(d: Shape, s: Shape, rest: set<string>, name: string, was: map<string, string>,
                         kids: map<string, Shape>, sources: map<string, string>)
    requires d.SNode? && s.SNode?
  {
    && rest <= s.kids.Keys
    && Partway(d, s, Taken(s.kids.Keys, rest), kids)
    && sources == was + Named(Taken(s.kids.Keys, rest), name)
  }

  lemma NoneTaken(d: Shape, s: Shape, name: string, was: map<string, string>)
    requires d.SNode? && s.SNode?
    ensures Midway(d, s, s.kids.Keys, name, was, d.kids, was)
  {
    NoneMerged(d, s);
    assert Taken(s.kids.Keys, s.kids.Keys) == {};
  }

  lemma MidwayNext(d: Shape, s: Shape, rest: set<string>, key: string, name: string, was: map<string, string>,
                   kids: map<string, Shape>, sources: map<string, string>)
    requires d.SNode? && s.SNode? && key in rest && Midway(d, s, rest, name, was, kids, sources)
    ensures !Plain(key) ==> Midway(d, s, rest - {key}, name, was, kids, sources)
    ensures key in s.kids && key !in Taken(s.kids.Keys, rest)
    ensures forall kids' | Plain(key) && Partway(d, s, Taken(s.kids.Keys, rest) + {key}, kids') ::
              Midway(d, s, rest - {key}, name, was, kids', sources[key := name])
  {
    TakenNext(s.kids.Keys, rest, key, was, name);
  }

  /** One turn of the loop of `absorb`: a plain field is merged in place, and attributed. */
  method MergeField(dst: Dict, src: Dict, key: string, name: string, sources: map<string, string>, ghost d: Shape,
                    ghost s: Shape, ghost rest: set<string>, ghost was: map<string, string>,
                    ghost kids: map<string, Shape>)
    returns (sources': map<string, string>, ghost kids': map<string, Shape>)
    requires d.SNode? && d.dict == dst && TreeShaped(d) && s.SNode? && s.dict == src && Holds(s)
    requires Footprint(d) !! Footprint(s) && key in rest
    requires Holds(SNode(dst, kids)) && Midway(d, s, rest, name, was, kids, sources)
    modifies Footprint(d)
    ensures Holds(s) && Holds(SNode(dst, kids')) && Midway(d, s, rest - {key}, name, was, kids', sources')
  {
    MidwayNext(d, s, rest, key, name, was, kids, sources);
    sources', kids' := sources, kids;
    if Plain(key) {
      kids' := MergeNext(dst, src, key, d, s, Taken(s.kids.Keys, rest), kids);
      sources' := sources[key := name];
    }
  }

  /** The loop of `absorb`. */
  method MergePlain(dst: Dict, src: Dict, name: string, was: map<string, string>, ghost d: Shape, ghost s: Shape)
    returns (sources: map<string, string>, ghost kids: map<string, Shape>)
    requires d.SNode? && d.dict == dst && Holds(d) && TreeShaped(d) && s.SNode? && s.dict == src && Holds(s)
    requires Footprint(d) !! Footprint(s)
    modifies Footprint(d)
    ensures Holds(s) && Holds(SNode(dst, kids)) && Midway(d, s, {}, name, was, kids, sources)
  {
    var rest := src.entries.Keys;
    sources, kids := was, d.kids;
    NoneTaken(d, s, name, was);
    while rest != {}
      invariant Holds(s) && Holds(SNode(dst, kids)) && Midway(d, s, rest, name, was, kids, sources)
      decreases |rest|
    {
      var key :| key in rest;
      sources, kids := MergeField(dst, src, key, name, sources, d, s, rest, was, kids);
      rest := rest - {key};
    }
  }

  // ---------------------------------------------------------------------------
  // The accumulator

  /** What the accumulator's document looks like: a tree, with the validated targets,
      if any, as something nothing is merged into. */
  ghost predicate IsDocument(sh: Shape) {
    sh.SNode? && TreeShaped(sh) && (TARGETS in sh.kids ==> sh.kids[TARGETS].SLeaf?)
  }

  function TargetsOf(sh: Shape): Option<string>
    requires sh.SNode?
  {
    if TARGETS in sh.kids && sh.kids[TARGETS].SLeaf? then Some(sh.kids[TARGETS].value) else None
  }

  lemma FreshDocument(dict: Dict, key: string, value: string)
    requires key != TARGETS
    ensures var sh := SNode(dict, map[key := SLeaf(value)]);
            && Footprint(sh) == {dict} && IsDocument(sh) && TargetsOf(sh) == None
            && Without(Fields(sh), TARGETS) == map[key := Leaf(value)]
  {
    var sh := SNode(dict, map[key := SLeaf(value)]);
    assert Contents(SLeaf(value)) == Leaf(value) && Footprint(SLeaf(value)) == {};
    assert sh.kids.Keys == {key} && Fields(sh).Keys == {key};
  }

  lemma WithTargets(sh: Shape, value: string)
    requires IsDocument(sh)
    ensures var sh' := SNode(sh.dict, sh.kids[TARGETS := SLeaf(value)]);
            && IsDocument(sh') && Footprint(sh') <= Footprint(sh)
            && Without(Fields(sh'), TARGETS) == Without(Fields(sh), TARGETS) && TargetsOf(sh') == Some(value)
  {
    forall k | k in sh.kids ensures Footprint(sh.kids[k]) <= Footprint(sh) { KidFootprint(sh, k); }
    assert Footprint(SLeaf(value)) == {};
  }

  /** A document that has been read: a tree of dictionaries, and its profile blocks as
      values. */
  ghost predicate IsLayer(doc: Dict, blocks: Mapping, s: Shape)
    reads Footprint(s)
  {
    && s.SNode? && s.dict == doc && Holds(s) && TreeShaped(s)
    && forall key | key in PROFILE_LAYER_KEYS ::
         (key in blocks <==> key in s.kids) && (key in blocks ==> blocks[key] == Contents(s.kids[key]))
  }

  /** Whether an absorption succeeds, without its result. */
  function Outcome(r: Result<Acc, ConfigError>): Result<(), ConfigError> {
    match r
    case Err(e) => Err(e)
    case Ok(_) => Ok(())
  }

  ghost function FootprintOf(ss: seq<Shape>): set<Dict> {
    set i, o | 0 <= i < |ss| && o in Footprint(ss[i]) :: o
  }

  lemma AllAllocated(ss: seq<Shape>)
    ensures forall o | o in FootprintOf(ss) :: allocated(o)
  {
    forall i | 0 <= i < |ss| ensures forall o | o in Footprint(ss[i]) :: allocated(o) { FootprintAllocated(ss[i]); }
  }

  ghost predicate Separate(ss: seq<Shape>) {
    (forall i | 0 <= i < |ss| :: ss[i].SNode?) &&
    forall i, j | 0 <= i < j < |ss| :: Footprint(ss[i]) !! Footprint(ss[j])
  }

  /** The layers as they were read. */
  function LayersOf(ss: seq<Shape>, names: seq<string>): seq<Layer>
    requires |ss| == |names| && forall i | 0 <= i < |ss| :: ss[i].SNode?
  {
    seq(|ss|, i requires 0 <= i < |ss| => Layer(Fields(ss[i]), names[i]))
  }

  lemma SameBlocks(blocks: Mapping, s: Shape, validated: Option<string>)
    requires s.SNode?
    requires forall key | key in PROFILE_LAYER_KEYS ::
               (key in blocks <==> key in s.kids) && (key in blocks ==> blocks[key] == Contents(s.kids[key]))
    ensures Blocks(blocks) == Blocks(Fields(s)) && Refusal(blocks, validated) == Refusal(Fields(s), validated)
  {
    assert "targets" in PROFILE_LAYER_KEYS && "profiles" in PROFILE_LAYER_KEYS;
    assert forall key | key in PROFILE_LAYER_KEYS :: Block(blocks, key) == Block(Fields(s), key);
  }

  lemma AttributedInStages(sources: map<string, string>, plain: map<string, string>, name: string)
    ensures sources + (plain + map[TARGETS := name]) == (sources + plain)[TARGETS := name]
    ensures sources + (plain + map[]) == sources + plain
  {
  }

  /** The plain fields, then the profiles, are one layer absorbed. */
  lemma StagesAbsorb(acc: Acc, doc: Mapping, name: string, validated: Option<string>, end: Acc)
    requires Refusal(doc, validated).None?
    requires end.merged == Overlay(acc.merged, PlainPart(doc)) && end.profiles == acc.profiles + Blocks(doc)
    requires var given := acc.sources + AllFrom(PlainPart(doc), name);
             if Blocks(doc) == map[] then end.targets == acc.targets && end.sources == given
             else end.targets == validated && end.sources == given[TARGETS := name]
    ensures Absorb(acc, Layer(doc, name), validated) == Ok(end)
  {
    AttributedInStages(acc.sources, AllFrom(PlainPart(doc), name), name);
  }

  class LayerAccumulator {
    const merged: Dict
    var sources: map<string, string>
    var rawProfiles: Mapping   // by value: nothing writes into a profile block
    ghost var shape: Shape

    ghost predicate Valid()
      reads this`shape, Footprint(shape)
    {
      IsDocument(shape) && shape.dict == merged && Holds(shape)
    }

    ghost function View(): Acc
      requires shape.SNode?
      reads this
    {
      Acc(Without(Fields(shape), TARGETS), TargetsOf(shape), sources, rawProfiles)
    }

    constructor ()
      ensures Valid() && fresh(Footprint(shape)) && View() == INITIAL
    {
      merged := new Dict(map["api_version" := Scalar(API_VERSION)]);
      sources, rawProfiles := INITIAL.sources, map[];
      new;
      shape := SNode(merged, map["api_version" := SLeaf(API_VERSION)]);
      FreshDocument(merged, "api_version", API_VERSION);
    }

    /** The inner loop of `absorb_profiles`: a same-named profile is replaced whole. */
    method AbsorbBlock(block: map<string, Tree>, declared: set<string>) returns (r: Result<set<string>, ConfigError>)
      modifies this`rawProfiles
      ensures r == if declared !! block.Keys then Ok(declared + block.Keys) else Err(DuplicateTarget)
      ensures r.Ok? ==> rawProfiles == old(rawProfiles) + block
    {
      var rest, seen := block.Keys, declared;
      ghost var was := rawProfiles;
      while rest != {}
        invariant Recorded(was, block, declared, rest, rawProfiles, seen)
        decreases |rest|
      {
        var n :| n in rest;
        RecordedNext(was, block, declared, rest, rawProfiles, seen, n);
        if n in seen {
          return Err(DuplicateTarget);
        }
        rawProfiles := rawProfiles[n := block[n]];
        seen, rest := seen + {n}, rest - {n};
      }
      AllRecorded(was, block, declared, rawProfiles, seen);
      return Ok(seen);
    }

    /** One turn of the outer loop. */
    method AbsorbKey(doc: Mapping, i: nat, declared: set<string>, ghost was: Mapping)
      returns (r: Result<set<string>, ConfigError>)
      requires i < |PROFILE_LAYER_KEYS| && Gather(doc, i).Ok? && declared == Gather(doc, i).value.Keys
      requires rawProfiles == was + Gather(doc, i).value
      modifies this`rawProfiles
      ensures match Gather(doc, i + 1)
              case Err(e) => r == Err(e)
              case Ok(m) => r == Ok(m.Keys) && rawProfiles == was + m
    {
      var key := PROFILE_LAYER_KEYS[i];
      if key !in doc {
        assert Gather(doc, i).value + Block(doc, key) == Gather(doc, i).value;
        return Ok(declared);
      }
      if BadBlock(doc, key) {
        return Err(NotAMapping(key));
      }
      r := AbsorbBlock(Block(doc, key), declared);
      PlusAssociates(was, Gather(doc, i).value, Block(doc, key));
    }

    /** The loops of `absorb_profiles`: what they refuse, the validator is not asked
        about. */
    method CollectProfiles(doc: Mapping) returns (r: Result<set<string>, ConfigError>)
      modifies this`rawProfiles
      ensures match BlockRefusal(doc)
              case Some(e) => r == Err(e)
              case None => r == Ok(Blocks(doc).Keys) && rawProfiles == old(rawProfiles) + Blocks(doc)
    {
      AcceptedProfiles(doc);
      var declared: set<string> := {};
      for i := 0 to |PROFILE_LAYER_KEYS|
        invariant Gather(doc, i).Ok? && declared == Gather(doc, i).value.Keys
        invariant rawProfiles == old(rawProfiles) + Gather(doc, i).value
      {
        var step := AbsorbKey(doc, i, declared, old(rawProfiles));
        if step.Err? {
          GatherFails(doc, i + 1);
          return Err(step.error);
        }
        declared := step.value;
      }
      return Ok(declared);
    }

    /** `absorb_profiles`. The validated profiles replace the ones the document had. */
    method AbsorbProfiles(doc: Mapping, name: string, validated: Option<string>) returns (r: Result<(), ConfigError>)
      requires Valid()
      modifies this`rawProfiles, this`sources, this`shape, merged
      ensures Valid() && Footprint(shape) <= old(Footprint(shape))
      ensures match Refusal(doc, validated)
              case Some(e) => r == Err(e)
              case None =>
                && r == Ok(())
                && Without(Fields(shape), TARGETS) == old(Without(Fields(shape), TARGETS))
                && (if Blocks(doc) == map[] then TargetsOf(shape) == old(TargetsOf(shape)) && sources == old(sources)
                    else TargetsOf(shape) == validated && sources == old(sources)[TARGETS := name])
                && rawProfiles == old(rawProfiles) + Blocks(doc)
    {
      FootprintAllocated(shape);
      var declared := CollectProfiles(doc);
      if declared.Err? {
        return Err(declared.error);
      }
      if declared.value == {} {
        return Ok(());
      }
      if validated.None? {
        return Err(InvalidProfiles);
      }
      Attribute(TARGETS, name);
      SetTargets(validated.value);
      return Ok(());
    }

    method Attribute(key: string, name: string)
      requires Valid()
      modifies this`sources
      ensures Valid() && sources == old(sources)[key := name]
    {
      FootprintAllocated(shape);
      sources := sources[key := name];
    }

    method SetTargets(validated: string)
      requires Valid()
      modifies this`shape, merged
      ensures Valid() && Footprint(shape) <= old(Footprint(shape))
      ensures Without(Fields(shape), TARGETS) == old(Without(Fields(shape), TARGETS)) &&
              TargetsOf(shape) == Some(validated)
    {
      ghost var was, kids := shape, shape.kids;
      FootprintAllocated(was);
      WithTargets(was, validated);
      merged.entries := merged.entries[TARGETS := Scalar(validated)];
      assert forall k | k in kids :: Holds(kids[k]);
      shape := SNode(merged, kids[TARGETS := SLeaf(validated)]);
    }

    /** `absorb` but for the profiles: merge the plain fields in place, recording who
        supplied each. */
    method AbsorbPlain(doc: Dict, name: string, ghost s: Shape)
      requires Valid() && s.SNode? && s.dict == doc && Holds(s) && TreeShaped(s) && Footprint(shape) !! Footprint(s)
      modifies this`sources, this`shape, Footprint(shape)
      ensures Valid() && Holds(s) && Footprint(shape) <= old(Footprint(shape)) + Footprint(s)
      ensures Without(Fields(shape), TARGETS) == Overlay(old(Without(Fields(shape), TARGETS)), PlainPart(Fields(s)))
      ensures TargetsOf(shape) == old(TargetsOf(shape))
      ensures sources == old(sources) + AllFrom(PlainPart(Fields(s)), name)
    {
      ghost var d, kids := shape, shape.kids;
      var given;
      given, kids := MergePlain(merged, doc, name, sources, d, s);
      AllTaken(d, s, kids, name, sources, given);
      Update(given, SNode(merged, kids), s);
    }

    /** `absorb`. Of a document, only the plain fields are merged: its profile blocks are
        read, as values. */
    method AbsorbDocument(doc: Dict, blocks: Mapping, name: string, validated: Option<string>, ghost s: Shape)
      returns (r: Result<(), ConfigError>)
      requires Valid() && IsLayer(doc, blocks, s) && Footprint(shape) !! Footprint(s)
      modifies this`rawProfiles, this`sources, this`shape, Footprint(shape)
      ensures Valid() && Footprint(shape) <= old(Footprint(shape)) + Footprint(s)
      ensures r == Outcome(Absorb(old(View()), Layer(Fields(s), name), validated))
      ensures r.Ok? ==> Absorb(old(View()), Layer(Fields(s), name), validated) == Ok(View())
    {
      ghost var acc := View();
      SameBlocks(blocks, s, validated);
      AbsorbPlain(doc, name, s);
      r := AbsorbProfiles(blocks, name, validated);
      if r.Ok? {
        StagesAbsorb(acc, Fields(s), name, validated, View());
      }
    }

    /** The documents from `i` on are intact and apart from the merged one. */
    ghost predicate Ready(docs: seq<Dict>, blocks: seq<Mapping>, ss: seq<Shape>, i: nat)
      requires |docs| == |blocks| == |ss|
      reads this`shape, FootprintOf(ss)
    {
      forall j {:trigger ss[j]} | i <= j < |ss| ::
        Footprint(ss[j]) <= FootprintOf(ss) && IsLayer(docs[j], blocks[j], ss[j]) &&
            Footprint(shape) !! Footprint(ss[j])
    }

    /** One more layer. */
    method AbsorbNext(docs: seq<Dict>, blocks: seq<Mapping>, names: seq<string>, i: nat, validate: Validator,
                      ghost ss: seq<Shape>, ghost acc: Acc)
      returns (r: Result<(), ConfigError>)
      requires |docs| == |blocks| == |names| == |ss| && i < |docs| && Separate(ss)
      requires Valid() && Ready(docs, blocks, ss, i)
      requires AbsorbSeq(acc, LayersOf(ss, names), i, validate) == Ok(View())
      modifies this`rawProfiles, this`sources, this`shape, Footprint(shape)
      ensures Valid() && Ready(docs, blocks, ss, i + 1)
      ensures Footprint(shape) <= old(Footprint(shape)) + FootprintOf(ss)
      ensures r == Outcome(AbsorbSeq(acc, LayersOf(ss, names), i + 1, validate))
      ensures r.Ok? ==> AbsorbSeq(acc, LayersOf(ss, names), i + 1, validate) == Ok(View())
    {
      var validated := validate(rawProfiles + Blocks(blocks[i]));
      SameBlocks(blocks[i], ss[i], validated);
      r := AbsorbApart(docs, blocks, i, names[i], validated, ss);
    }

    /** `absorb` leaves the documents after it as they were. */
    method AbsorbApart(docs: seq<Dict>, blocks: seq<Mapping>, i: nat, name: string, validated: Option<string>,
                       ghost ss: seq<Shape>)
      returns (r: Result<(), ConfigError>)
      requires |docs| == |blocks| == |ss| && i < |docs| && Separate(ss)
      requires Valid() && Ready(docs, blocks, ss, i)
      modifies this`rawProfiles, this`sources, this`shape, Footprint(shape)
      ensures Valid() && Ready(docs, blocks, ss, i + 1)
      ensures Footprint(shape) <= old(Footprint(shape)) + FootprintOf(ss)
      ensures r == Outcome(Absorb(old(View()), Layer(Fields(ss[i]), name), validated))
      ensures r.Ok? ==> Absorb(old(View()), Layer(Fields(ss[i]), name), validated) == Ok(View())
    {
      AllAllocated(ss);
      r := AbsorbDocument(docs[i], blocks[i], name, validated, ss[i]);
      forall j | i < j < |ss| ensures IsLayer(docs[j], blocks[j], ss[j]) && Footprint(shape) !! Footprint(ss[j]) {
        assert Footprint(ss[i]) !! Footprint(ss[j]);
      }
    }

    /** The layers of `load_config` in order. A later layer writes into dictionaries of
        earlier ones, but the documents not absorbed yet stay as they were read, so
        that the outcome is the fold of all layers as they were read. */
    method AbsorbLayers(docs: seq<Dict>, blocks: seq<Mapping>, names: seq<string>, validate: Validator,
        ghost ss: seq<Shape>)
      returns (r: Result<(), ConfigError>, ghost n: nat)
      requires |docs| == |blocks| == |names| == |ss| && Separate(ss)
      requires Valid() && Ready(docs, blocks, ss, 0)
      modifies this`rawProfiles, this`sources, this`shape, Footprint(shape), FootprintOf(ss)
      ensures Valid() && n <= |docs| && Ready(docs, blocks, ss, n) && (r.Ok? ==> n == |docs|)
      ensures r == Outcome(AbsorbSeq(old(View()), LayersOf(ss, names), n, validate))
      ensures r.Ok? ==> View() == AfterLayers(old(View()), LayersOf(ss, names), |docs|, validate)
    {
      ghost var acc := View();
      for i := 0 to |docs|
        invariant Valid() && Ready(docs, blocks, ss, i)
        invariant Footprint(shape) <= old(Footprint(shape)) + FootprintOf(ss)
        invariant AbsorbSeq(acc, LayersOf(ss, names), i, validate) == Ok(View())
      {
        r := AbsorbNext(docs, blocks, names, i, validate, ss, acc);
        if r.Err? {
          return r, i + 1;
        }
      }
      AbsorbSeqIsAfterLayers(acc, LayersOf(ss, names), |docs|, validate);
      return Ok(()), |docs|;
    }

    method Update(given: map<string, string>, ghost sh: Shape, ghost s: Shape)
      requires Holds(sh) && Holds(s)
      modifies this`sources, this`shape
      ensures Holds(sh) && Holds(s) && shape == sh && sources == given
    {
      FootprintAllocated(sh);
      FootprintAllocated(s);
      sources := given;
      shape := sh;
    }
  }

  /** What the loop of `absorb` leaves behind. */
  lemma AllTaken(d: Shape, s: Shape, kids: map<string, Shape>, name: string, was: map<string, string>,
      sources: map<string, string>)
    requires IsDocument(d) && s.SNode? && TreeShaped(s) && Footprint(d) !! Footprint(s)
    requires Midway(d, s, {}, name, was, kids, sources)
    ensures var sh := SNode(d.dict, kids);
            && IsDocument(sh) && Footprint(sh) <= Footprint(d) + Footprint(s)
            && Without(Fields(sh), TARGETS) == Overlay(Without(Fields(d), TARGETS), PlainPart(Fields(s)))
            && TargetsOf(sh) == TargetsOf(d)
    ensures sources == was + AllFrom(PlainPart(Fields(s)), name)
  {
    var plain := PlainKeys(s.kids.Keys);
    assert s.kids.Keys - {} == s.kids.Keys;
    MergedPart(d, s, plain);
    PlainPartIsPart(s);
    AttributedFrom(s, name);
    OverlayWithout(Fields(d), PlainPart(Fields(s)), TARGETS);
    TargetsUntouched(d, s, plain);
  }

  lemma TargetsUntouched(d: Shape, s: Shape, plain: set<string>)
    requires d.SNode? && s.SNode? && TARGETS !in plain
    ensures var m := Merged(d, Part(s, plain));
            (TARGETS in m.kids <==> TARGETS in d.kids) && (TARGETS in d.kids ==> m.kids[TARGETS] == d.kids[TARGETS])
  {
  }
}
