/** The layered configuration: `_LayerAccumulator`, and the fixed layer order of
    `load_config`. */
module ConfigLayers {
  import opened Outcomes
  import opened Documents

  const NULL := "null"  // leaves carry their JSON text
  const API_VERSION := "\"mayhem/v1\""
  const DEFAULTS := "defaults"
  const PROFILE_LAYER_KEYS := ["targets", "profiles"]

  datatype ConfigError =
    | NotAMapping(key: string)
    | DuplicateTarget
    | InvalidProfiles
    | UnknownPolicy
    | ConflictingPolicy

  datatype Layer = Layer(doc: Mapping, name: string)

  /** What the accumulator holds, as values. `targets` is the validated form of all
      profiles, which is kept in the merged document too but never merged into. */
  datatype Acc = Acc(merged: Mapping, targets: Option<string>, sources: map<string, string>,
      profiles: map<string, Tree>)

  const TARGETS := "targets"

  /** The merged document. */
  function Document(acc: Acc): Mapping {
    if acc.targets.Some? then acc.merged[TARGETS := Leaf(acc.targets.value)] else acc.merged
  }

  const INITIAL := Acc(map["api_version" := Leaf(API_VERSION)], None,
                       map["policy" := DEFAULTS, "blast_radius" := DEFAULTS, "storage" := DEFAULTS,
                           "toolkit" := DEFAULTS, "log_level" := DEFAULTS, "targets" := DEFAULTS],
                       map[])

  predicate Plain(key: string) { key != "apiVersion" && key !in PROFILE_LAYER_KEYS }

  /** The fields a layer merges; `apiVersion` and the profile blocks are set aside. */
  function PlainPart(doc: Mapping): Mapping
  {
    map k | k in doc && Plain(k) :: doc[k]
  }

  function PlainKeys(keys: set<string>): set<string> { set k | k in keys && Plain(k) }

  predicate BadBlock(doc: Mapping, key: string)
  {
    key in doc && doc[key].Leaf? && doc[key].value != NULL
  }

  function Block(doc: Mapping, key: string): map<string, Tree>
  {
    if key in doc && doc[key].Node? then doc[key].entries else map[]
  }

  /** The profiles declared under the first `n` profile keys. */
  function Gather(doc: Mapping, n: nat): Result<map<string, Tree>, ConfigError>
    requires n <= |PROFILE_LAYER_KEYS|
  {
    if n == 0 then Ok(map[])
    else
      var key := PROFILE_LAYER_KEYS[n - 1];
      match Gather(doc, n - 1)
      case Err(e) => Err(e)
      case Ok(m) =>
        if BadBlock(doc, key) then Err(NotAMapping(key))
        else if m.Keys !! Block(doc, key).Keys then Ok(m + Block(doc, key))
        else Err(DuplicateTarget)
  }

  lemma {:induction false} GatherFails(doc: Mapping, n: nat)
    requires n <= |PROFILE_LAYER_KEYS| && Gather(doc, n).Err?
    ensures Gather(doc, |PROFILE_LAYER_KEYS|) == Gather(doc, n)
    decreases |PROFILE_LAYER_KEYS| - n
  {
    if n < |PROFILE_LAYER_KEYS| {
      GatherFails(doc, n + 1);
    }
  }

  /** The provenance a layer claims. */
  function Attributed(layer: Layer, declared: Mapping): map<string, string> {
    AllFrom(PlainPart(layer.doc), layer.name) + if declared == map[] then map[] else map["targets" := layer.name]
  }

  function AllFrom(fields: Mapping, name: string): map<string, string> {
    map k | k in fields :: name
  }

  /** The profiles of a layer that is accepted. */
  function Blocks(doc: Mapping): map<string, Tree>
  {
    Block(doc, "targets") + Block(doc, "profiles")
  }

  /** Why a layer's profile blocks are refused, if they are. */
  function BlockRefusal(doc: Mapping): Option<ConfigError> {
    if BadBlock(doc, "targets") then Some(NotAMapping("targets"))
    else if BadBlock(doc, "profiles") then Some(NotAMapping("profiles"))
    else if !(Block(doc, "targets").Keys !! Block(doc, "profiles").Keys) then Some(DuplicateTarget)
    else None
  }

  /** Why a layer is refused, if it is, given the validated form of all profiles up to
      it, or `None` if the validator refuses them. */
  function Refusal(doc: Mapping, validated: Option<string>): Option<ConfigError> {
    if BlockRefusal(doc).Some? then BlockRefusal(doc)
    else if Blocks(doc) != map[] && validated.None? then Some(InvalidProfiles)
    else None
  }

  /** When a layer's profile blocks are accepted, key by key, and what they then declare. */
  lemma AcceptedProfiles(doc: Mapping)
    ensures Gather(doc, |PROFILE_LAYER_KEYS|) ==
            match BlockRefusal(doc)
            case Some(e) => Err(e)
            case None => Ok(Blocks(doc))
  {
    assert Gather(doc, 0) == Ok(map[]);
    var nothing: map<string, Tree> := map[];
    assert nothing + Block(doc, "targets") == Block(doc, "targets");
    assert Gather(doc, 1) == if BadBlock(doc, "targets") then Err(NotAMapping("targets"))
        else Ok(Block(doc, "targets"));
  }

  /** A profile key holds a mapping, or nothing. */
  predicate HoldsProfiles(doc: Mapping, key: string) { key in doc ==> doc[key].Node? || doc[key] == Leaf("null") }

  predicate Declares(doc: Mapping, key: string, name: string) {
    key in doc && doc[key].Node? && name in doc[key].entries
  }

  /** Which layers are refused for their profile blocks, and with what. */
  lemma RefusedExactly(doc: Mapping)
    ensures BlockRefusal(doc) ==
            if !HoldsProfiles(doc, "targets") then Some(NotAMapping("targets"))
            else if !HoldsProfiles(doc, "profiles") then Some(NotAMapping("profiles"))
            else if exists name :: Declares(doc, "targets", name) && Declares(doc, "profiles", name) then
              Some(DuplicateTarget)
            else None
  {
    if BlockRefusal(doc) == Some(DuplicateTarget) {
      var name :| name in Block(doc, "targets") && name in Block(doc, "profiles");
      assert Declares(doc, "targets", name) && Declares(doc, "profiles", name);
    }
  }

  /** What a layer that is not refused gives: the profiles under either key, whole, and
      every other field but the version. */
  lemma GivenExactly(doc: Mapping, name: string)
    requires BlockRefusal(doc).None?
    ensures name in Blocks(doc) <==> Declares(doc, "targets", name) || Declares(doc, "profiles", name)
    ensures Declares(doc, "targets", name) ==> Blocks(doc)[name] == doc["targets"].entries[name]
    ensures Declares(doc, "profiles", name) ==> Blocks(doc)[name] == doc["profiles"].entries[name]
    ensures name in PlainPart(doc) <==> name in doc && name !in {"apiVersion", "targets", "profiles"}
    ensures name in PlainPart(doc) ==> PlainPart(doc)[name] == doc[name]
  {
    assert Declares(doc, "targets", name) <==> name in Block(doc, "targets");
    assert Declares(doc, "profiles", name) <==> name in Block(doc, "profiles");
  }

  function Absorbed(acc: Acc, layer: Layer, validated: Option<string>): Acc {
    Acc(Overlay(acc.merged, PlainPart(layer.doc)),
        if Blocks(layer.doc) == map[] then acc.targets else validated,
        acc.sources + Attributed(layer, Blocks(layer.doc)),
        acc.profiles + Blocks(layer.doc))
  }

  /** One layer absorbed. */
  function Absorb(acc: Acc, layer: Layer, validated: Option<string>): Result<Acc, ConfigError> {
    match Refusal(layer.doc, validated)
    case Some(e) => Err(e)
    case None => Ok(Absorbed(acc, layer, validated))
  }

  type Validator = Mapping -> Option<string>

  // ---------------------------------------------------------------------------
  // Any sequence of layers

  function MergedAfter(m: Mapping, layers: seq<Layer>, n: nat): Mapping
    requires n <= |layers|
  {
    if n == 0 then m else Overlay(MergedAfter(m, layers, n - 1), PlainPart(layers[n - 1].doc))
  }

  function SourcesAfter(s: map<string, string>, layers: seq<Layer>, n: nat): map<string, string>
    requires n <= |layers|
  {
    if n == 0 then s else SourcesAfter(s, layers, n - 1) + Attributed(layers[n - 1], Blocks(layers[n - 1].doc))
  }

  function ProfilesAfter(p: Mapping, layers: seq<Layer>, n: nat): Mapping
    requires n <= |layers|
  {
    if n == 0 then p else ProfilesAfter(p, layers, n - 1) + Blocks(layers[n - 1].doc)
  }

  /** All profiles are validated again whenever a layer declares any. */
  function TargetsAfter(acc: Acc, layers: seq<Layer>, n: nat, validate: Validator): Option<string>
    requires n <= |layers|
  {
    if n == 0 then acc.targets
    else if Blocks(layers[n - 1].doc) == map[] then TargetsAfter(acc, layers, n - 1, validate)
    else validate(ProfilesAfter(acc.profiles, layers, n))
  }

  /** The accumulator after the first `n` layers. */
  function AfterLayers(acc: Acc, layers: seq<Layer>, n: nat, validate: Validator): Acc
    requires n <= |layers|
  {
    Acc(MergedAfter(acc.merged, layers, n), TargetsAfter(acc, layers, n, validate),
        SourcesAfter(acc.sources, layers, n),
        ProfilesAfter(acc.profiles, layers, n))
  }

  /** One layer, absorbed if its profiles pass. */
  function AbsorbChecked(acc: Acc, layer: Layer, validate: Validator): Result<Acc, ConfigError> {
    Absorb(acc, layer, validate(acc.profiles + Blocks(layer.doc)))
  }

  /** One more accepted layer is one more step of each fold. */
  lemma AfterOneMore(acc: Acc, layers: seq<Layer>, n: nat, validate: Validator)
    requires n < |layers|
    ensures var next := AbsorbChecked(AfterLayers(acc, layers, n, validate), layers[n], validate);
            next.Ok? ==> next == Ok(AfterLayers(acc, layers, n + 1, validate))
  {
  }

  function Lookup(m: Mapping, path: seq<string>): Reading { Read(Node(m), path) }

  /** What one layer says about a path. */
  function Says(doc: Mapping, path: seq<string>): Reading { Lookup(PlainPart(doc), path) }

  lemma NextLayerReads(m: Mapping, doc: Mapping, path: seq<string>)
    ensures Seen(Lookup(Overlay(m, PlainPart(doc)), path)) ==
            Seen(if Says(doc, path) != Silent then Says(doc, path) else Lookup(m, path))
  {
    ReadMerged(Node(m), Node(PlainPart(doc)), path);
  }

  /** Layer precedence: if layer `i` is the last of the first `n` to say anything
      about a path (a leaf there or above it, or a mapping there), then the
      configuration reads there as that layer does. */
  lemma {:induction false} LastLayerDecides(m: Mapping, layers: seq<Layer>, n: nat, i: nat, path: seq<string>)
    requires i < n <= |layers|
    requires Says(layers[i].doc, path) != Silent
    requires forall j | i < j < n :: Says(layers[j].doc, path) == Silent
    ensures Seen(Lookup(MergedAfter(m, layers, n), path)) == Seen(Says(layers[i].doc, path))
    decreases n
  {
    NextLayerReads(MergedAfter(m, layers, n - 1), layers[n - 1].doc, path);
    if i < n - 1 {
      LastLayerDecides(m, layers, n - 1, i, path);
    }
  }

  /** ... and where no layer says anything, what was there before stays. */
  lemma {:induction false} SilentLayersKeep(m: Mapping, layers: seq<Layer>, n: nat, path: seq<string>)
    requires n <= |layers|
    requires forall j | 0 <= j < n :: Says(layers[j].doc, path) == Silent
    ensures Seen(Lookup(MergedAfter(m, layers, n), path)) == Seen(Lookup(m, path))
    decreases n
  {
    if n > 0 {
      NextLayerReads(MergedAfter(m, layers, n - 1), layers[n - 1].doc, path);
      SilentLayersKeep(m, layers, n - 1, path);
    }
  }

  /** A leaf at the path or above it. */
  predicate GivesLeaf(doc: Mapping, path: seq<string>) { Says(doc, path).Value? || Says(doc, path).Covered? }

  /** "The last leaf at or above a path wins" holds exactly when no later layer has a
      mapping there. */
  lemma {:induction false} LastLeafDecides(m: Mapping, layers: seq<Layer>, n: nat, i: nat, path: seq<string>)
    requires i < n <= |layers| && GivesLeaf(layers[i].doc, path)
    requires forall j | i < j < n :: !GivesLeaf(layers[j].doc, path)
    ensures Seen(Lookup(MergedAfter(m, layers, n), path)) == Seen(Says(layers[i].doc, path)) <==>
            forall j | i < j < n :: Says(layers[j].doc, path) != IsMapping
    decreases n
  {
    NextLayerReads(MergedAfter(m, layers, n - 1), layers[n - 1].doc, path);
    if i < n - 1 {
      LastLeafDecides(m, layers, n - 1, i, path);
    }
  }

  /** For instance, an empty mapping displaces a leaf. */
  lemma MappingDisplacesLeaf(m: Mapping)
    ensures var layers := [Layer(map["a" := Leaf("1")], "file"), Layer(map["a" := Node(map[])], "cli")];
            Lookup(MergedAfter(m, layers, 2), ["a"]) == IsMapping
  {
    var layers := [Layer(map["a" := Leaf("1")], "file"), Layer(map["a" := Node(map[])], "cli")];
    LastLayerDecides(m, layers, 2, 1, ["a"]);
  }

  /** The top-level keys a layer is recorded as the source of. */
  predicate Supplies(doc: Mapping, key: string) {
    if key == "targets" then Blocks(doc) != map[] else Plain(key) && key in doc
  }

  lemma SuppliesAttributed(layer: Layer, key: string)
    ensures var given := Attributed(layer, Blocks(layer.doc));
            (Supplies(layer.doc, key) <==> key in given) && (key in given ==> given[key] == layer.name)
  {
  }

  /** Provenance: `sources` names the last layer that supplied each top-level key. */
  lemma {:induction false} SourcesNameLastLayer(s: map<string, string>, layers: seq<Layer>, n: nat, i: nat, key: string)
    requires i < n <= |layers|
    requires Supplies(layers[i].doc, key) && forall j | i < j < n :: !Supplies(layers[j].doc, key)
    ensures key in SourcesAfter(s, layers, n) && SourcesAfter(s, layers, n)[key] == layers[i].name
    decreases n
  {
    SuppliesAttributed(layers[n - 1], key);
    if i < n - 1 {
      SourcesNameLastLayer(s, layers, n - 1, i, key);
    }
  }

  /** ... and keeps its earlier entry, or none, for a key no layer supplied. */
  lemma {:induction false} SourcesKept(s: map<string, string>, layers: seq<Layer>, n: nat, key: string)
    requires n <= |layers|
    requires forall j | 0 <= j < n :: !Supplies(layers[j].doc, key)
    ensures key in SourcesAfter(s, layers, n) <==> key in s
    ensures key in s ==> SourcesAfter(s, layers, n)[key] == s[key]
    decreases n
  {
    if n > 0 {
      assert !Supplies(layers[n - 1].doc, key);
      SuppliesAttributed(layers[n - 1], key);
      SourcesKept(s, layers, n - 1, key);
    }
  }

  /** Each target profile is the whole block of the last layer that declared its
      name, never a blend. */
  lemma {:induction false} ProfilesAreWhole(p: Mapping, layers: seq<Layer>, n: nat, i: nat, name: string)
    requires i < n <= |layers|
    requires name in Blocks(layers[i].doc) && forall j | i < j < n :: name !in Blocks(layers[j].doc)
    ensures name in ProfilesAfter(p, layers, n) && ProfilesAfter(p, layers, n)[name] == Blocks(layers[i].doc)[name]
    decreases n
  {
    if i < n - 1 {
      ProfilesAreWhole(p, layers, n - 1, i, name);
    }
  }

  lemma NothingDeclared(p: Mapping, layers: seq<Layer>, n: nat)
    requires 0 < n <= |layers| && Blocks(layers[n - 1].doc) == map[]
    ensures ProfilesAfter(p, layers, n) == ProfilesAfter(p, layers, n - 1)
  {
  }

  /** The target profiles in force are the validated form of all profiles together, as
      of the last layer that declared any. */
  lemma {:induction false} TargetsAreValidated(acc: Acc, layers: seq<Layer>, n: nat, i: nat, validate: Validator)
    requires i < n <= |layers| && Blocks(layers[i].doc) != map[]
    requires forall j | i < j < n :: Blocks(layers[j].doc) == map[]
    ensures TargetsAfter(acc, layers, n, validate) == validate(ProfilesAfter(acc.profiles, layers, n))
    decreases n
  {
    if i < n - 1 {
      TargetsAreValidated(acc, layers, n - 1, i, validate);
      NothingDeclared(acc.profiles, layers, n);
    }
  }

  // ---------------------------------------------------------------------------
  // load_config

  /** What `BUILTIN_PROFILES` knows about one policy name. */
  datatype Policy = Policy(policy: Tree, blastRadius: Tree)

  const POLICY_KEYS := {"policy", "blast_radius"}

  /** `_apply_policy_profile`: both sections are replaced, not merged. */
  function ApplyPolicy(acc: Acc, builtin: map<string, Policy>, name: string): Result<Acc, ConfigError>
  {
    if name !in builtin then Err(UnknownPolicy)
    else if "policy" in acc.sources && acc.sources["policy"] != DEFAULTS then Err(ConflictingPolicy)
    else
      var source := "policy:" + name;
      Ok(acc.(merged := acc.merged["policy" := builtin[name].policy]["blast_radius" := builtin[name].blastRadius],
              sources := acc.sources["policy" := source]["blast_radius" := source]))
  }

  /** Layers absorbed in order until one is refused. */
  function AbsorbSeq(acc: Acc, layers: seq<Layer>, n: nat, validate: Validator): (r: Result<Acc, ConfigError>)
    requires n <= |layers|
  {
    if n == 0 then Ok(acc)
    else match AbsorbSeq(acc, layers, n - 1, validate)
         case Err(e) => Err(e)
         case Ok(before) => AbsorbChecked(before, layers[n - 1], validate)
  }

  lemma {:induction false} AbsorbSeqIsAfterLayers(acc: Acc, layers: seq<Layer>, n: nat, validate: Validator)
    requires n <= |layers| && AbsorbSeq(acc, layers, n, validate).Ok?
    ensures AbsorbSeq(acc, layers, n, validate) == Ok(AfterLayers(acc, layers, n, validate))
  {
    if n > 0 {
      AbsorbSeqIsAfterLayers(acc, layers, n - 1, validate);
      AfterOneMore(acc, layers, n - 1, validate);
    }
  }

  /** A layer can be absorbed: its blocks are not refused, and if they declare anything
      the validator takes all profiles up to it. */
  predicate LayerFits(acc: Acc, layers: seq<Layer>, i: nat, validate: Validator)
    requires i < |layers|
  {
    && BlockRefusal(layers[i].doc).None?
    && (Blocks(layers[i].doc) != map[] ==> validate(ProfilesAfter(acc.profiles, layers, i + 1)).Some?)
  }

  lemma FitsExactly(acc: Acc, layers: seq<Layer>, n: nat, validate: Validator)
    requires n < |layers|
    ensures var r := AbsorbChecked(AfterLayers(acc, layers, n, validate), layers[n], validate);
            && (r.Ok? <==> LayerFits(acc, layers, n, validate))
            && (r.Err? ==> r.error == match BlockRefusal(layers[n].doc)
                                      case Some(e) => e
                                      case None => InvalidProfiles)
  {
  }

  /** Layer `i` is the first that cannot, and this is why. */
  ghost predicate Misfit(acc: Acc, layers: seq<Layer>, i: nat, validate: Validator, e: ConfigError)
    requires i < |layers|
  {
    && !LayerFits(acc, layers, i, validate) && (forall j: nat | j < i :: LayerFits(acc, layers, j, validate))
    && e == match BlockRefusal(layers[i].doc)
            case Some(refusal) => refusal
            case None => InvalidProfiles
  }

  /** Layers are absorbed, in order, as long as each can be; the first that cannot is the
      one the load is refused for. */
  lemma {:induction false} AbsorbsExactly(acc: Acc, layers: seq<Layer>, n: nat, validate: Validator)
    requires n <= |layers|
    ensures var r := AbsorbSeq(acc, layers, n, validate);
            && (r.Ok? <==> forall i: nat | i < n :: LayerFits(acc, layers, i, validate))
            && (r.Err? ==> exists i: nat | i < n :: Misfit(acc, layers, i, validate, r.error))
  {
    hide LayerFits, AbsorbChecked, AfterLayers, BlockRefusal;
    if n > 0 {
      AbsorbsExactly(acc, layers, n - 1, validate);
      var before := AbsorbSeq(acc, layers, n - 1, validate);
      if before.Ok? {
        AbsorbSeqIsAfterLayers(acc, layers, n - 1, validate);
        FitsExactly(acc, layers, n - 1, validate);
        var r := AbsorbSeq(acc, layers, n, validate);
        assert r.Err? ==> Misfit(acc, layers, n - 1, validate, r.error);
      } else {
        var i: nat :| i < n - 1 && Misfit(acc, layers, i, validate, before.error);
        assert !LayerFits(acc, layers, i, validate);
      }
    }
  }

  /** The policy that applies: the argument unless it is absent or empty, else the
      environment variable. */
  function EffectivePolicy(arg: Option<string>, env: Option<string>): Option<string> {
    if arg.Some? && arg.value != "" then arg else env
  }

  /** Flags that were given: a `None` value is no flag. */
  function GivenFlags(cli: Mapping): Mapping
  {
    map k | k in cli && cli[k] != Leaf(NULL) :: cli[k]
  }

  /** Everything `load_config` is called with, documents already read.  The file layers
      are the base document, the overlay and the environment, whichever are present. */
  datatype Inputs = Inputs(
    files: seq<Layer>, policyArg: Option<string>, policyEnv: Option<string>, builtin: map<string, Policy>,
    cli: Mapping, validate: Validator)
  {
    function Policy(): Option<string> { EffectivePolicy(policyArg, policyEnv) }

    /** The accumulator after the file layers. */
    function Files(): Acc { AfterLayers(INITIAL, files, |files|, validate) }

    /** The file layers, and the flags if there are any. */
    function Layers(): seq<Layer> {
      files + if cli == map[] then [] else [Layer(GivenFlags(cli), "cli")]
    }
  }

  /** The policy, applied to the absorbed file layers. */
  function WithPolicy(files: Acc, q: Inputs): Result<Acc, ConfigError> {
    if q.Policy().Some? then ApplyPolicy(files, q.builtin, q.Policy().value) else Ok(files)
  }

  /** ... and the flags over that. */
  function WithFlags(acc: Acc, q: Inputs): Result<Acc, ConfigError> {
    if q.cli == map[] then Ok(acc)
    else if q.Policy().Some? && !(q.cli.Keys !! POLICY_KEYS) then Err(ConflictingPolicy)
    else AbsorbChecked(acc, Layer(GivenFlags(q.cli), "cli"), q.validate)
  }

  /** `load_config` up to the final schema validation. */
  function Load(q: Inputs): Result<Acc, ConfigError>
  {
    if q.policyArg.Some? && q.policyEnv.Some? && q.policyArg != q.policyEnv then Err(ConflictingPolicy)
    else
      match AbsorbSeq(INITIAL, q.files, |q.files|, q.validate)
      case Err(e) => Err(e)
      case Ok(files) =>
        match WithPolicy(files, q)
        case Err(e) => Err(e)
        case Ok(acc) => WithFlags(acc, q)
  }

  /** The stages of a load that succeeds. */
  lemma Loaded(q: Inputs)
    requires Load(q).Ok?
    ensures WithPolicy(q.Files(), q).Ok? && Load(q) == WithFlags(WithPolicy(q.Files(), q).value, q)
  {
    AbsorbSeqIsAfterLayers(INITIAL, q.files, |q.files|, q.validate);
  }

  /** What the flags add. */
  lemma FlagsAdd(acc: Acc, q: Inputs)
    requires q.cli != map[] && WithFlags(acc, q).Ok?
    ensures WithFlags(acc, q).value.merged == Overlay(acc.merged, PlainPart(GivenFlags(q.cli)))
    ensures WithFlags(acc, q).value.sources ==
            acc.sources + Attributed(Layer(GivenFlags(q.cli), "cli"), Blocks(GivenFlags(q.cli)))
  {
  }

  lemma FlagsApart(acc: Acc, q: Inputs, k: string)
    requires q.Policy().Some? && WithFlags(acc, q).Ok? && k in POLICY_KEYS && k in acc.merged && k in acc.sources
    ensures var r := WithFlags(acc, q).value;
            k in r.merged && r.merged[k] == acc.merged[k] && k in r.sources && r.sources[k] == acc.sources[k]
  {
    if q.cli != map[] {
      FlagsAdd(acc, q);
      assert k !in PlainPart(GivenFlags(q.cli)) && k != TARGETS;
    }
  }

  /** The name of the policy that applies, if one does: the argument's, or for want of one,
      or with an empty one, the environment's. */
  predicate Names(q: Inputs, name: string) {
    if q.policyArg in {None, Some("")} then q.policyEnv == Some(name) else q.policyArg == Some(name)
  }

  predicate Governed(q: Inputs) { q.policyArg !in {None, Some("")} || q.policyEnv.Some? }

  lemma NamesPolicy(q: Inputs)
    ensures Governed(q) <==> q.Policy().Some?
    ensures forall name :: Names(q, name) <==> q.Policy() == Some(name)
  {
  }

  /** Both policy sections are those of the built-in profile `name`, and say so. */
  predicate HasPolicy(q: Inputs, acc: Acc, name: string) {
    && name in q.builtin
    && "policy" in acc.merged && acc.merged["policy"] == q.builtin[name].policy
    && "blast_radius" in acc.merged && acc.merged["blast_radius"] == q.builtin[name].blastRadius
    && "policy" in acc.sources && acc.sources["policy"] == "policy:" + name
    && "blast_radius" in acc.sources && acc.sources["blast_radius"] == "policy:" + name
  }

  /** A policy is never blended: when one applies and loading succeeds, both policy
      sections are the built-in's, whatever blast radius the files asked for. */
  lemma PolicyReplacesSections(q: Inputs, name: string)
    requires Names(q, name) && Load(q).Ok?
    ensures HasPolicy(q, Load(q).value, name)
  {
    Loaded(q);
    var acc := WithPolicy(q.Files(), q).value;
    FlagsApart(acc, q, "policy");
    FlagsApart(acc, q, "blast_radius");
  }

  /** Which policy that is.  One named by the argument applies, and then the environment
      names no other; without an argument, or with an empty one, the one the environment
      names; with neither, both sections read as the files and the flags say. */
  lemma PolicyInForce(q: Inputs)
    requires Load(q).Ok?
    ensures q.policyArg.Some? && q.policyArg.value != "" ==>
              HasPolicy(q, Load(q).value, q.policyArg.value) && q.policyEnv in {None, q.policyArg}
    ensures q.policyArg in {None, Some("")} && q.policyEnv.Some? ==> HasPolicy(q, Load(q).value, q.policyEnv.value)
    ensures q.policyArg in {None, Some("")} && q.policyEnv.None? ==>
              forall path | path != [] && path[0] in {"policy", "blast_radius"} ::
                Seen(Lookup(Load(q).value.merged, path)) ==
                Seen(Lookup(MergedAfter(INITIAL.merged, q.Layers(), |q.Layers()|), path))
  {
    if Governed(q) {
      PolicyReplacesSections(q, q.Policy().value);
    } else {
      forall path | path != [] && path[0] in {"policy", "blast_radius"}
        ensures Seen(Lookup(Load(q).value.merged, path)) ==
                Seen(Lookup(MergedAfter(INITIAL.merged, q.Layers(), |q.Layers()|), path))
      {
        LoadReadsAsLayers(q, path);
        DocumentReadsOn(Load(q).value, path);
      }
    }
  }

  /** ... and nothing else set a policy: no file layer a `policy`, no flag either
      policy section. */
  lemma PolicyStandsAlone(q: Inputs)
    requires forall l | l in q.files :: l.name != DEFAULTS
    requires Governed(q) && Load(q).Ok?
    ensures "policy" !in q.cli && "blast_radius" !in q.cli
    ensures forall i | 0 <= i < |q.files| :: !Supplies(q.files[i].doc, "policy")
  {
    Loaded(q);
    ApartExactly(q.cli);
    DefaultIsUnsupplied(INITIAL.sources, q.files, "policy");
  }

  /** When loading succeeds: the argument and the environment name no two policies; the
      files and the flags are layers that can all be absorbed; and a policy, if one
      applies, is a known one, and neither a `policy` in a file nor a flag for either
      section, with a value or without, stands beside it. */
  lemma LoadsExactly(q: Inputs)
    requires forall l | l in q.files :: l.name != DEFAULTS
    ensures q.policyArg.Some? && q.policyEnv.Some? && q.policyArg != q.policyEnv ==> Load(q) == Err(ConflictingPolicy)
    ensures Load(q).Ok? <==>
            && (q.policyArg.Some? && q.policyEnv.Some? ==> q.policyArg == q.policyEnv)
            && AbsorbSeq(INITIAL, q.Layers(), |q.Layers()|, q.validate).Ok?
            && forall name | Names(q, name) ::
                 && name in q.builtin && "policy" !in q.cli && "blast_radius" !in q.cli
                 && forall l | l in q.files :: !Supplies(l.doc, "policy")
  {
    FilesThenFlags(q);
    PolicyFits(q);
    if AbsorbSeq(INITIAL, q.files, |q.files|, q.validate).Ok? {
      AbsorbSeqIsAfterLayers(INITIAL, q.files, |q.files|, q.validate);
      hide AbsorbSeq, Supplies, WithPolicy;
      if WithPolicy(q.Files(), q).Ok? {
        FlagsFit(q);
      }
    }
  }

  lemma SameRefusal(acc: Acc, acc': Acc, layer: Layer, validate: Validator)
    requires acc.profiles == acc'.profiles
    ensures AbsorbChecked(acc, layer, validate).Ok? <==> AbsorbChecked(acc', layer, validate).Ok?
  {
  }

  lemma ApartExactly(cli: Mapping)
    ensures cli.Keys !! POLICY_KEYS <==> "policy" !in cli && "blast_radius" !in cli
  {
    assert POLICY_KEYS == {"policy", "blast_radius"};
  }

  /** The flags fit beside a policy exactly when they could be absorbed without it and
      none is for its sections. */
  lemma FlagsFit(q: Inputs)
    requires WithPolicy(q.Files(), q).Ok?
    ensures WithFlags(WithPolicy(q.Files(), q).value, q).Ok? <==>
            && (q.cli == map[] || AbsorbChecked(q.Files(), Layer(GivenFlags(q.cli), "cli"), q.validate).Ok?)
            && forall name | Names(q, name) :: "policy" !in q.cli && "blast_radius" !in q.cli
  {
    NamesPolicy(q);
    var files, acc := q.Files(), WithPolicy(q.Files(), q).value;
    assert acc.profiles == files.profiles;
    hide AbsorbChecked, AfterLayers, WithPolicy, GivenFlags;
    SameRefusal(acc, files, Layer(GivenFlags(q.cli), "cli"), q.validate);
    ApartExactly(q.cli);
    if q.Policy().Some? {
      assert Names(q, q.Policy().value);
    }
  }

  lemma FilesThenFlags(q: Inputs)
    ensures AbsorbSeq(INITIAL, q.Layers(), |q.Layers()|, q.validate) ==
            match AbsorbSeq(INITIAL, q.files, |q.files|, q.validate)
            case Err(e) => Err(e)
            case Ok(acc) =>
              if q.cli == map[] then Ok(acc) else AbsorbChecked(acc, Layer(GivenFlags(q.cli), "cli"), q.validate)
  {
    if q.cli == map[] {
      assert q.Layers() == q.files;
    } else {
      AbsorbSeqPrefix(INITIAL, q.files, Layer(GivenFlags(q.cli), "cli"), |q.files|, q.validate);
    }
  }

  lemma {:induction false} AbsorbSeqPrefix(acc: Acc, layers: seq<Layer>, last: Layer, n: nat, validate: Validator)
    requires n <= |layers|
    ensures AbsorbSeq(acc, layers + [last], n, validate) == AbsorbSeq(acc, layers, n, validate)
  {
    if n > 0 {
      AbsorbSeqPrefix(acc, layers, last, n - 1, validate);
    }
  }

  /** A known policy fits the files exactly when none of them supplies one. */
  lemma PolicyFits(q: Inputs)
    requires forall l | l in q.files :: l.name != DEFAULTS
    ensures WithPolicy(q.Files(), q).Ok? <==>
            forall name | Names(q, name) :: name in q.builtin && forall l | l in q.files :: !Supplies(l.doc, "policy")
  {
    NamesPolicy(q);
    DefaultExactly(INITIAL.sources, q.files, "policy");
    assert q.Files().sources == SourcesAfter(INITIAL.sources, q.files, |q.files|);
    hide Supplies, AfterLayers, SourcesAfter;
    if q.Policy().Some? {
      assert Names(q, q.Policy().value);
    }
  }

  /** A key that starts out as a default stays one exactly when no layer supplies it. */
  lemma DefaultExactly(s: map<string, string>, layers: seq<Layer>, key: string)
    requires key in s && s[key] == DEFAULTS && forall l | l in layers :: l.name != DEFAULTS
    ensures var after := SourcesAfter(s, layers, |layers|);
            key in after && (after[key] == DEFAULTS <==> forall l | l in layers :: !Supplies(l.doc, key))
  {
    hide SourcesAfter, Supplies;
    if forall l | l in layers :: !Supplies(l.doc, key) {
      forall i | 0 <= i < |layers| ensures !Supplies(layers[i].doc, key) {
        assert layers[i] in layers;
      }
      SourcesKept(s, layers, |layers|, key);
    } else {
      var i :| 0 <= i < |layers| && Supplies(layers[i].doc, key);
      SuppliedIsNamed(s, layers, i, key);
    }
  }

  lemma DefaultIsUnsupplied(s: map<string, string>, layers: seq<Layer>, key: string)
    requires forall l | l in layers :: l.name != DEFAULTS
    requires var after := SourcesAfter(s, layers, |layers|); key in after ==> after[key] == DEFAULTS
    ensures forall i | 0 <= i < |layers| :: !Supplies(layers[i].doc, key)
  {
    forall i | 0 <= i < |layers| ensures !Supplies(layers[i].doc, key) {
      if Supplies(layers[i].doc, key) {
        SuppliedIsNamed(s, layers, i, key);
      }
    }
  }

  /** A key some layer supplied no longer has the default as its source. */
  lemma SuppliedIsNamed(s: map<string, string>, layers: seq<Layer>, i: nat, key: string)
    requires forall l | l in layers :: l.name != DEFAULTS
    requires i < |layers| && Supplies(layers[i].doc, key)
    ensures var after := SourcesAfter(s, layers, |layers|); key in after && after[key] != DEFAULTS
  {
    var last := LastSupplier(layers, |layers|, i, key);
    SourcesNameLastLayer(s, layers, |layers|, last, key);
    assert layers[last] in layers;
  }

  lemma LastSupplier(layers: seq<Layer>, n: nat, i: nat, key: string) returns (last: nat)
    requires i < n <= |layers|
    requires Supplies(layers[i].doc, key)
    ensures last < n && Supplies(layers[last].doc, key) && forall j | last < j < n :: !Supplies(layers[j].doc, key)
  {
    if Supplies(layers[n - 1].doc, key) {
      last := n - 1;
    } else {
      last := LastSupplier(layers, n - 1, i, key);
    }
  }

  /** The flags have the last word: wherever one that has a value says something, loading
      reads back exactly that. */
  lemma FlagsWin(q: Inputs, path: seq<string>)
    requires Load(q).Ok? && Says(q.cli, path) != Silent
    requires path != [] && path[0] in q.cli && q.cli[path[0]] != Leaf("null")
    ensures Lookup(Load(q).value.merged, path) == Says(q.cli, path)
  {
    Loaded(q);
    var acc := WithPolicy(q.Files(), q).value;
    FlagsAdd(acc, q);
    assert Says(GivenFlags(q.cli), path) == Says(q.cli, path);
    ReadMerged(Node(acc.merged), Node(PlainPart(GivenFlags(q.cli))), path);
  }

  /** A flag without a value is no flag. */
  lemma NullFlagIsNone(q: Inputs, k: string)
    requires k in q.cli && q.cli[k] == Leaf("null") && Load(q).Ok?
    ensures Load(q) == Load(q.(cli := q.cli - {k}))
  {
    var q' := q.(cli := q.cli - {k});
    var files := AbsorbSeq(INITIAL, q.files, |q.files|, q.validate).value;
    assert WithPolicy(files, q') == WithPolicy(files, q);
    NullFlagAdds(WithPolicy(files, q).value, q, k);
    hide WithFlags, WithPolicy, AbsorbSeq;
    assert Load(q) == WithFlags(WithPolicy(files, q).value, q);
  }

  lemma NullFlagAdds(acc: Acc, q: Inputs, k: string)
    requires k in q.cli && q.cli[k] == Leaf("null") && WithFlags(acc, q).Ok?
    ensures WithFlags(acc, q.(cli := q.cli - {k})) == WithFlags(acc, q)
  {
    assert GivenFlags(q.cli - {k}) == GivenFlags(q.cli);
    if q.cli - {k} == map[] {
      AbsorbNothing(acc, Layer(GivenFlags(q.cli), "cli"), q.validate);
    }
  }

  lemma AbsorbNothing(acc: Acc, none: Layer, validate: Validator)
    requires none.doc == map[]
    ensures AbsorbChecked(acc, none, validate) == Ok(acc)
  {
    assert PlainPart(none.doc) == map[] && Blocks(none.doc) == map[];
    assert Overlay(acc.merged, PlainPart(none.doc)) == acc.merged;
    assert acc.sources + Attributed(none, Blocks(none.doc)) == acc.sources;
    assert acc.profiles + Blocks(none.doc) == acc.profiles;
  }

  /** A path that neither the policy nor the validated targets replace. */
  predicate Ordinary(q: Inputs, path: seq<string>) {
    path != [] && path[0] != "targets" && (Governed(q) ==> path[0] !in {"policy", "blast_radius"})
  }

  lemma PolicyReadsOn(files: Acc, q: Inputs, path: seq<string>)
    requires Ordinary(q, path) && WithPolicy(files, q).Ok?
    ensures Lookup(WithPolicy(files, q).value.merged, path) == Lookup(files.merged, path)
  {
  }

  lemma DocumentReadsOn(acc: Acc, path: seq<string>)
    requires path != [] && path[0] != TARGETS
    ensures Lookup(Document(acc), path) == Lookup(acc.merged, path)
  {
  }

  /** What reads alike still does after one more layer. */
  lemma AlikeAfterLayer(m: Mapping, n: Mapping, doc: Mapping, path: seq<string>)
    requires Lookup(m, path) == Lookup(n, path)
    ensures Seen(Lookup(Overlay(m, PlainPart(doc)), path)) == Seen(Lookup(Overlay(n, PlainPart(doc)), path))
  {
    NextLayerReads(m, doc, path);
    NextLayerReads(n, doc, path);
  }

  lemma LayersWithFlags(m: Mapping, files: seq<Layer>, flags: Layer)
    ensures MergedAfter(m, files + [flags], |files| + 1) ==
            Overlay(MergedAfter(m, files, |files|), PlainPart(flags.doc))
  {
    MergedPrefix(m, files, flags, |files|);
  }

  lemma LoadedMerged(q: Inputs, path: seq<string>)
    requires Load(q).Ok? && Ordinary(q, path)
    ensures WithPolicy(q.Files(), q).Ok?
    ensures var acc := WithPolicy(q.Files(), q).value;
            && Lookup(acc.merged, path) == Lookup(q.Files().merged, path)
            && Load(q).value.merged ==
               if q.cli == map[] then acc.merged else Overlay(acc.merged, PlainPart(GivenFlags(q.cli)))
  {
    Loaded(q);
    PolicyReadsOn(q.Files(), q, path);
    if q.cli != map[] {
      FlagsAdd(WithPolicy(q.Files(), q).value, q);
    }
  }

  /** The merged document of the files and the flags, had there been no policy. */
  lemma LayersMerged(q: Inputs)
    ensures MergedAfter(INITIAL.merged, q.Layers(), |q.Layers()|) ==
            if q.cli == map[] then q.Files().merged else Overlay(q.Files().merged, PlainPart(GivenFlags(q.cli)))
  {
    if q.cli == map[] {
      assert q.Layers() == q.files;
    } else {
      LayersWithFlags(INITIAL.merged, q.files, Layer(GivenFlags(q.cli), "cli"));
    }
  }

  /** The files followed by the flags are one more fold of layers. */
  lemma LoadReadsAsLayers(q: Inputs, path: seq<string>)
    requires Load(q).Ok? && Ordinary(q, path)
    ensures Seen(Lookup(Document(Load(q).value), path)) ==
            Seen(Lookup(MergedAfter(INITIAL.merged, q.Layers(), |q.Layers()|), path))
  {
    LoadedMerged(q, path);
    LayersMerged(q);
    DocumentReadsOn(Load(q).value, path);
    if q.cli != map[] {
      AlikeAfterLayer(WithPolicy(q.Files(), q).value.merged, q.Files().merged, GivenFlags(q.cli), path);
    }
  }

  lemma {:induction false} MergedPrefix(m: Mapping, layers: seq<Layer>, last: Layer, n: nat)
    requires n <= |layers|
    ensures MergedAfter(m, layers + [last], n) == MergedAfter(m, layers, n)
  {
    if n > 0 {
      MergedPrefix(m, layers, last, n - 1);
    }
  }

  lemma FlagsTargets(acc: Acc, q: Inputs)
    requires q.cli != map[] && WithFlags(acc, q).Ok?
    ensures var blocks, r := Blocks(GivenFlags(q.cli)), WithFlags(acc, q).value;
            && r.profiles == acc.profiles + blocks
            && r.targets == if blocks == map[] then acc.targets else q.validate(acc.profiles + blocks)
  {
  }

  /** One more layer of profiles. */
  lemma TargetsWithFlags(acc: Acc, files: seq<Layer>, flags: Layer, validate: Validator)
    ensures var n, blocks := |files|, Blocks(flags.doc);
            && ProfilesAfter(acc.profiles, files + [flags], n + 1) == ProfilesAfter(acc.profiles, files, n) + blocks
            && TargetsAfter(acc, files + [flags], n + 1, validate) ==
               if blocks == map[] then TargetsAfter(acc, files, n, validate)
               else validate(ProfilesAfter(acc.profiles, files, n) + blocks)
  {
    ProfilesPrefix(acc.profiles, files, flags, |files|);
    TargetsPrefix(acc, files, flags, |files|, validate);
    hide Blocks;
  }

  /** A policy leaves the target profiles alone. */
  lemma PolicyLeavesTargets(files: Acc, q: Inputs)
    requires WithPolicy(files, q).Ok?
    ensures WithPolicy(files, q).value.targets == files.targets && WithPolicy(files, q).value.profiles == files.profiles
  {
  }

  /** The target profiles go through the load as if there were no policy. */
  lemma LoadedTargets(q: Inputs)
    requires Load(q).Ok?
    ensures Load(q).value.targets == TargetsAfter(INITIAL, q.Layers(), |q.Layers()|, q.validate)
    ensures Load(q).value.profiles == ProfilesAfter(INITIAL.profiles, q.Layers(), |q.Layers()|)
  {
    hide WithPolicy, WithFlags, Load, GivenFlags, Blocks;
    Loaded(q);
    var acc := WithPolicy(q.Files(), q).value;
    PolicyLeavesTargets(q.Files(), q);
    if q.cli == map[] {
      assert q.Layers() == q.files;
      NoFlags(acc, q);
    } else {
      FlagsTargets(acc, q);
      TargetsWithFlags(INITIAL, q.files, Layer(GivenFlags(q.cli), "cli"), q.validate);
      hide TargetsAfter, ProfilesAfter;
    }
  }

  lemma NoFlags(acc: Acc, q: Inputs)
    requires q.cli == map[]
    ensures WithFlags(acc, q) == Ok(acc)
  {
  }

  lemma {:induction false} ProfilesPrefix(p: Mapping, layers: seq<Layer>, last: Layer, n: nat)
    requires n <= |layers|
    ensures ProfilesAfter(p, layers + [last], n) == ProfilesAfter(p, layers, n)
  {
    if n > 0 {
      ProfilesPrefix(p, layers, last, n - 1);
    }
  }

  lemma {:induction false} TargetsPrefix(acc: Acc, layers: seq<Layer>, last: Layer, n: nat, validate: Validator)
    requires n <= |layers|
    ensures TargetsAfter(acc, layers + [last], n, validate) == TargetsAfter(acc, layers, n, validate)
  {
    ProfilesPrefix(acc.profiles, layers, last, n);
    if n > 0 {
      TargetsPrefix(acc, layers, last, n - 1, validate);
    }
  }

  lemma AllLayersAbsorbed(q: Inputs)
    requires Load(q).Ok?
    ensures AbsorbSeq(INITIAL, q.Layers(), |q.Layers()|, q.validate).Ok?
  {
    FilesThenFlags(q);
    Loaded(q);
    AbsorbSeqIsAfterLayers(INITIAL, q.files, |q.files|, q.validate);
    FlagsFit(q);
  }

  /** A validator that refuses the profiles refuses the load. */
  lemma {:induction false} AbsorbedTargets(acc: Acc, layers: seq<Layer>, n: nat, validate: Validator)
    requires n <= |layers| && AbsorbSeq(acc, layers, n, validate).Ok?
    requires exists i | 0 <= i < n :: Blocks(layers[i].doc) != map[]
    ensures TargetsAfter(acc, layers, n, validate).Some?
    decreases n
  {
    AbsorbSeqIsAfterLayers(acc, layers, n - 1, validate);
    if Blocks(layers[n - 1].doc) == map[] {
      AbsorbedTargets(acc, layers, n - 1, validate);
    }
  }

  /** End to end for the target profiles: once a layer declares any, `targets` is the
      validated form of all those declared, whatever a layer says there otherwise. */
  lemma TargetsRead(q: Inputs, i: nat)
    requires Load(q).Ok? && i < |q.Layers()| && Blocks(q.Layers()[i].doc) != map[]
    requires forall j | i < j < |q.Layers()| :: Blocks(q.Layers()[j].doc) == map[]
    ensures var validated := q.validate(ProfilesAfter(map[], q.Layers(), |q.Layers()|));
            validated.Some? && Lookup(Document(Load(q).value), ["targets"]) == Value(validated.value)
  {
    hide Load, AbsorbSeq, TargetsAfter, ProfilesAfter, Blocks;
    LoadedTargets(q);
    TargetsAreValidated(INITIAL, q.Layers(), |q.Layers()|, i, q.validate);
    AllLayersAbsorbed(q);
    AbsorbedTargets(INITIAL, q.Layers(), |q.Layers()|, q.validate);
  }

  /** Nothing given: the API version, and every section from the defaults. */
  lemma NothingGiven(q: Inputs)
    requires q.files == [] && q.cli == map[] && !Governed(q)
    ensures Load(q).Ok? && Document(Load(q).value) == map["api_version" := Leaf("\"mayhem/v1\"")]
    ensures Load(q).value.profiles == map[]
    ensures Load(q).value.sources ==
            map["policy" := "defaults", "blast_radius" := "defaults", "storage" := "defaults",
                "toolkit" := "defaults", "log_level" := "defaults", "targets" := "defaults"]
  {
  }

  /** End to end: at every path the policy does not replace, the loaded configuration
      reads as the last of the files and the flags that says anything there. */
  lemma LoadReads(q: Inputs, i: nat, path: seq<string>)
    requires Load(q).Ok? && Ordinary(q, path)
    requires i < |q.Layers()| && Says(q.Layers()[i].doc, path) != Silent
    requires forall j | i < j < |q.Layers()| :: Says(q.Layers()[j].doc, path) == Silent
    ensures Seen(Lookup(Document(Load(q).value), path)) == Seen(Says(q.Layers()[i].doc, path))
  {
    LoadReadsAsLayers(q, path);
    LastLayerDecides(INITIAL.merged, q.Layers(), |q.Layers()|, i, path);
  }
}
