/** Parsed documents (YAML mappings, Kubernetes specs) and the recursive merge
    that both the configuration layers and the strategic-merge patch rest on.

    A document is a leaf or a mapping.  Scalars and lists are leaves: neither
    merge looks inside them.  */
module Documents {
  datatype Tree = Leaf(value: string) | Node(entries: map<string, Tree>)

  type Mapping = map<string, Tree>

  /** The merge of `src` over `dst`: mappings merge key by key, and everything
      else is replaced. */
  function Merge(dst: Tree, src: Tree): Tree
    decreases src
  {
    if dst.Node? && src.Node? then
      Node(map k | k in dst.entries.Keys + src.entries.Keys ::
             if k !in src.entries then dst.entries[k]
             else if k in dst.entries then Merge(dst.entries[k], src.entries[k])
             else src.entries[k])
    else src
  }

  /** The merge of one mapping into another. */
  function Overlay(dst: Mapping, src: Mapping): Mapping {
    Merge(Node(dst), Node(src)).entries
  }

  /** Wherever `t` and `s` are both mappings, every key of `t` is a key of `s`. */
  predicate Within(t: Tree, s: Tree)
    decreases t
  {
    t.Node? && s.Node? ==>
      forall k | k in t.entries :: k in s.entries && Within(t.entries[k], s.entries[k])
  }

  lemma {:induction false} WithinReflexive(t: Tree)
    ensures Within(t, t)
    decreases t
  {
    if t.Node? {
      forall k | k in t.entries ensures Within(t.entries[k], t.entries[k]) {
        WithinReflexive(t.entries[k]);
      }
    }
  }

  /** Merging `s` over `t` gives back exactly `s` if and only if `t` has no key
      that `s` lacks. */
  lemma {:induction false} MergeRestores(t: Tree, s: Tree)
    ensures Merge(t, s) == s <==> Within(t, s)
    decreases t
  {
    if t.Node? && s.Node? {
      forall k | k in t.entries && k in s.entries
        ensures Merge(t.entries[k], s.entries[k]) == s.entries[k] <==> Within(t.entries[k], s.entries[k])
      {
        MergeRestores(t.entries[k], s.entries[k]);
      }
      if Within(t, s) {
        assert Merge(t, s).entries == s.entries;
      } else {
        var k :| k in t.entries && !(k in s.entries && Within(t.entries[k], s.entries[k]));
        assert k in Merge(t, s).entries;
      }
    }
  }

  /** `p` says nothing that is not so in `s` already. */
  predicate Agrees(s: Tree, p: Tree)
    decreases p
  {
    if s.Node? && p.Node? then
      forall k | k in p.entries :: k in s.entries && Agrees(s.entries[k], p.entries[k])
    else s == p
  }

  /** Merging changes nothing exactly when nothing new is said. */
  lemma {:induction false} MergeAgrees(s: Tree, p: Tree)
    ensures Merge(s, p) == s <==> Agrees(s, p)
    decreases p
  {
    if s.Node? && p.Node? {
      forall k | k in p.entries && k in s.entries
        ensures Merge(s.entries[k], p.entries[k]) == s.entries[k] <==> Agrees(s.entries[k], p.entries[k])
      {
        MergeAgrees(s.entries[k], p.entries[k]);
      }
      if Agrees(s, p) {
        assert Merge(s, p).entries == s.entries;
      } else {
        var k :| k in p.entries && !(k in s.entries && Agrees(s.entries[k], p.entries[k]));
        assert k in Merge(s, p).entries;
      }
    }
  }

  lemma {:induction false} MergeIdempotent(d: Tree, s: Tree)
    ensures Merge(Merge(d, s), s) == Merge(d, s)
    decreases s
  {
    if d.Node? && s.Node? {
      var once := Merge(d, s);
      forall k | k in d.entries && k in s.entries
        ensures Merge(Merge(d.entries[k], s.entries[k]), s.entries[k]) == Merge(d.entries[k], s.entries[k])
      {
        MergeIdempotent(d.entries[k], s.entries[k]);
      }
      forall k | k in s.entries && k !in d.entries ensures Merge(s.entries[k], s.entries[k]) == s.entries[k] {
        WithinReflexive(s.entries[k]);
        MergeRestores(s.entries[k], s.entries[k]);
      }
      assert Merge(once, s).entries == once.entries;
    } else {
      WithinReflexive(s);
      MergeRestores(s, s);
    }
  }

  /** A patched document has no key the original lacks exactly when the patch has none. */
  lemma {:induction false} PatchedWithin(s: Tree, p: Tree)
    ensures Within(Merge(s, p), s) <==> Within(p, s)
    decreases p
  {
    if s.Node? && p.Node? {
      var patched := Merge(s, p);
      forall k | k in s.entries && k in p.entries
        ensures Within(patched.entries[k], s.entries[k]) <==> Within(p.entries[k], s.entries[k])
      {
        PatchedWithin(s.entries[k], p.entries[k]);
      }
      forall k | k in s.entries && k !in p.entries ensures Within(patched.entries[k], s.entries[k]) {
        WithinReflexive(s.entries[k]);
      }
      if Within(patched, s) {
        forall k | k in p.entries ensures k in s.entries && Within(p.entries[k], s.entries[k]) {
          assert k in patched.entries;
        }
      }
    }
  }

  /** Restore exactness: patching a document and merging the snapshot back gives
      the snapshot if and only if every key the patch writes, at each level where
      both are mappings, already exists in the snapshot.  Restoring again
      changes nothing in either case. */
  lemma RestoreExactness(s: Tree, p: Tree)
    ensures Merge(Merge(s, p), s) == s <==> Within(p, s)
    ensures Merge(Merge(Merge(s, p), s), s) == Merge(Merge(s, p), s)
  {
    MergeRestores(Merge(s, p), s);
    PatchedWithin(s, p);
    MergeIdempotent(Merge(s, p), s);
  }

  /** No leaf of `b` stands between two mappings of `a` and `c`, unless the merge
      over it would have replaced all of `a` there anyway. */
  predicate Associates(a: Tree, b: Tree, c: Tree)
    decreases b
  {
    if a.Node? && c.Node? then
      if b.Leaf? then Within(a, c)
      else forall k | k in b.entries ::
             k in a.entries && k in c.entries ==> Associates(a.entries[k], b.entries[k], c.entries[k])
    else true
  }

  /** Folding from the left and folding from the right agree exactly on the
      triples `Associates` describes: the layers have to be folded in order. */
  lemma {:induction false} MergeAssociates(a: Tree, b: Tree, c: Tree)
    ensures Merge(Merge(a, b), c) == Merge(a, Merge(b, c)) <==> Associates(a, b, c)
    decreases b
  {
    if a.Node? && c.Node? {
      if b.Leaf? {
        MergeRestores(a, c);
      } else {
        var left, right := Merge(Merge(a, b), c), Merge(a, Merge(b, c));
        assert left.entries.Keys == right.entries.Keys;
        forall k | k in a.entries && k in b.entries && k in c.entries
          ensures left.entries[k] == right.entries[k] <==> Associates(a.entries[k], b.entries[k], c.entries[k])
        {
          MergeAssociates(a.entries[k], b.entries[k], c.entries[k]);
        }
        if Associates(a, b, c) {
          assert left.entries == right.entries;
        }
      }
    }
  }

  /** A leaf between two mappings: the left fold forgets the first mapping, the
      right fold blends it in. */
  lemma LeafBreaksAssociativity()
    ensures var a, b, c := Node(map["x" := Leaf("1")]), Leaf("off"), Node(map["y" := Leaf("2")]);
            Merge(Merge(a, b), c) != Merge(a, Merge(b, c))
  {
    var a, b, c := Node(map["x" := Leaf("1")]), Leaf("off"), Node(map["y" := Leaf("2")]);
    assert "x" in Merge(a, Merge(b, c)).entries;
  }

  // ---------------------------------------------------------------------------
  // What a document says about one path

  /** Looking down a path ends in a leaf exactly there, a mapping exactly there, a
      leaf strictly above it, or a mapping that lacks the next key. */
  datatype Reading = Value(leaf: string) | IsMapping | Covered | Silent

  function Read(t: Tree, path: seq<string>): Reading
    decreases |path|
  {
    if path == [] then (if t.Leaf? then Value(t.value) else IsMapping)
    else if t.Leaf? then Covered
    else if path[0] in t.entries then Read(t.entries[path[0]], path[1..])
    else Silent
  }

  /** What a lookup sees: below a leaf there is as little as at a missing key. */
  function Seen(r: Reading): Reading { if r == Covered then Silent else r }

  lemma {:induction false} ReadMerged(d: Tree, s: Tree, path: seq<string>)
    ensures Read(s, path) != Silent ==> Read(Merge(d, s), path) == Read(s, path)
    ensures Read(s, path) == Silent ==> Seen(Read(Merge(d, s), path)) == Seen(Read(d, path))
    decreases |path|
  {
    if path != [] && d.Node? && s.Node? && path[0] in d.entries && path[0] in s.entries {
      ReadMerged(d.entries[path[0]], s.entries[path[0]], path[1..]);
    }
  }
}
