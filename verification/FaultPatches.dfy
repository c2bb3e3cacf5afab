/** What the individual faults write, and whether undo takes it back. */
module FaultPatches {
  import opened Documents
  import opened Snapshots

  /** The patch that sets one field. */
  function AtPath(path: seq<string>, value: string): Tree
    decreases |path|
  {
    if path == [] then Leaf(value) else Node(map[path[0] := AtPath(path[1..], value)])
  }

  function SetField(path: seq<string>, value: string): Mutation
    requires path != []
  {
    Patch(AtPath(path, value).entries)
  }

  /** The spec after the fault and a clean undo. */
  function InjectedAndUndone(original: Mapping, m: Mutation): Mapping {
    Restored(Mutated(original, m), Snapshot(original, m.PauseRollout?), true)
  }

  lemma {:induction false} AtPathWithin(path: seq<string>, value: string, t: Tree)
    ensures Within(AtPath(path, value), t) <==> Read(t, path) != Silent
    ensures Read(AtPath(path, value), path) == Value(value)
    decreases |path|
  {
    if path != [] {
      AtPathWithin(path[1..], value, if t.Node? && path[0] in t.entries then t.entries[path[0]] else t);
    }
  }

  /** A fault that sets one field is taken back exactly when the object already had
      the field, or a leaf above it; otherwise the field stays behind after undo. */
  lemma FieldTakenBack(original: Mapping, path: seq<string>, value: string)
    requires path != []
    ensures var after := InjectedAndUndone(original, SetField(path, value));
            && (after == original <==> Read(Node(original), path) != Silent)
            && (Read(Node(original), path) == Silent ==> Read(Node(after), path) == Value(value))
  {
    var m := SetField(path, value);
    AtPathWithin(path, value, Node(original));
    RestoreIsExact(original, m);
    ReadMerged(Node(original), Node(m.patch), path);
    ReadMerged(Node(Mutated(original, m)), Node(original), path);
  }

  /** Scaling and disruption budgets: whether the spec sets the field itself. */
  lemma ScaleTakenBack(original: Mapping, value: string)
    ensures InjectedAndUndone(original, SetField(["replicas"], value)) == original <==> "replicas" in original
  {
    FieldTakenBack(original, ["replicas"], value);
  }

  lemma DisruptionBudgetTakenBack(original: Mapping, value: string)
    ensures InjectedAndUndone(original, SetField(["maxUnavailable"], value)) == original <==>
            "maxUnavailable" in original
  {
    FieldTakenBack(original, ["maxUnavailable"], value);
  }

  /** A Service cut off from its pods by a selector label it did not have keeps that
      label: it stays cut off after undo. */
  lemma SelectorLabelStays(original: Mapping, key: string, value: string)
    requires "selector" in original && original["selector"].Node? && key !in original["selector"].entries
    ensures Read(Node(InjectedAndUndone(original, SetField(["selector", key], value))), ["selector", key]) ==
            Value(value)
  {
    assert ["selector", key][1..] == [key];
    FieldTakenBack(original, ["selector", key], value);
  }

  /** An exhausted quota is always taken back: its patch is the quota's own limits
      with one of them changed. */
  lemma QuotaTakenBack(original: Mapping, resource: string, amount: string)
    requires "hard" in original && original["hard"].Node? && resource in original["hard"].entries
    ensures var patch: Mapping := map["hard" := Node(original["hard"].entries[resource := Leaf(amount)])];
            InjectedAndUndone(original, Patch(patch)) == original
  {
    var hard := original["hard"].entries;
    var patch: Mapping := map["hard" := Node(hard[resource := Leaf(amount)])];
    forall k | k in hard ensures Within(hard[k], hard[k]) { WithinReflexive(hard[k]); }
    assert Within(patch["hard"], original["hard"]);
    RestoreIsExact(original, Patch(patch));
  }

  const PENDING_CLAIM: Mapping :=
    map["storageClassName" := Leaf("\"mayhem-missing-storage-class\""),
        "selector" := AtPath(["matchLabels", "mayhem.invalid/pvc"], "\"true\"")]

  /** The claim asks for a storage class and a volume that do not exist. */
  lemma ClaimPending(original: Mapping)
    ensures var pending := Node(Mutated(original, Patch(PENDING_CLAIM)));
            && Read(pending, ["storageClassName"]) == Value("\"mayhem-missing-storage-class\"")
            && Read(pending, ["selector", "matchLabels", "mayhem.invalid/pvc"]) == Value("\"true\"")
  {
    var labels := ["matchLabels", "mayhem.invalid/pvc"];
    ReadMerged(Node(original), Node(PENDING_CLAIM), ["storageClassName"]);
    ReadMerged(Node(original), Node(PENDING_CLAIM), ["selector", "matchLabels", "mayhem.invalid/pvc"]);
    AtPathWithin(labels, "\"true\"", Node(map[]));
    assert ["selector", "matchLabels", "mayhem.invalid/pvc"][1..] == labels;
  }

  /** A claim kept pending is taken back exactly when it named a storage class and its
      selector already had the fault's own label. */
  lemma PendingClaimTakenBack(original: Mapping)
    ensures InjectedAndUndone(original, Patch(PENDING_CLAIM)) == original <==>
            && "storageClassName" in original
            && Read(Node(original), ["selector", "matchLabels", "mayhem.invalid/pvc"]) != Silent
  {
    var labels := ["matchLabels", "mayhem.invalid/pvc"];
    RestoreIsExact(original, Patch(PENDING_CLAIM));
    assert ["selector", "matchLabels", "mayhem.invalid/pvc"][1..] == labels;
    if "selector" in original {
      AtPathWithin(labels, "\"true\"", original["selector"]);
    }
  }
}
