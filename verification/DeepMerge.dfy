/** `_deep_merge` as it runs: dictionaries are heap objects, the destination is
    updated in place, and whatever is not merged is stored by reference.

    A `Shape` is the ghost picture of the dictionaries below one value; all
    heap reasoning is `Holds(shape)`, and everything else about shapes is pure. */
module DeepMerge {
  import opened Documents

  class Dict {
    var entries: map<string, Value>

    constructor (entries: map<string, Value>)
      ensures this.entries == entries
    {
      this.entries := entries;
    }
  }

  datatype Value = Scalar(value: string) | Sub(dict: Dict)

  datatype Shape = SLeaf(value: string) | SNode(dict: Dict, kids: map<string, Shape>)

  function ValueOf(sh: Shape): Value {
    match sh
    case SLeaf(v) => Scalar(v)
    case SNode(d, _) => Sub(d)
  }

  ghost function Footprint(sh: Shape): set<Dict> {
    match sh
    case SLeaf(_) => {}
    case SNode(d, kids) => {d} + set k, o | k in kids && o in Footprint(kids[k]) :: o
  }

  /** The heap looks as the shape says. */
  ghost predicate Holds(sh: Shape)
    reads Footprint(sh)
    decreases sh
  {
    sh.SNode? ==>
      && sh.dict.entries.Keys == sh.kids.Keys
      && forall k | k in sh.kids :: sh.dict.entries[k] == ValueOf(sh.kids[k]) && Holds(sh.kids[k])
  }

  /** No dictionary is reachable along two ways. */
  ghost predicate TreeShaped(sh: Shape)
    decreases sh
  {
    sh.SNode? ==>
      && (forall k | k in sh.kids :: sh.dict !in Footprint(sh.kids[k]) && TreeShaped(sh.kids[k]))
      && forall j, k | j in sh.kids && k in sh.kids && j != k :: Footprint(sh.kids[j]) !! Footprint(sh.kids[k])
  }

  /** The document a shape stands for. */
  function Contents(sh: Shape): Tree {
    match sh
    case SLeaf(v) => Leaf(v)
    case SNode(_, kids) => Node(map k | k in kids :: Contents(kids[k]))
  }

  /** The shape the in-place merge leaves behind: `d`'s own dictionaries where both
      sides are mappings, and references into `s` everywhere `s` wins. */
  function Merged(d: Shape, s: Shape): Shape
    decreases s
  {
    if d.SNode? && s.SNode? then
      SNode(d.dict, map k | k in d.kids.Keys + s.kids.Keys ::
              if k !in s.kids then d.kids[k]
              else if k in d.kids then Merged(d.kids[k], s.kids[k])
              else s.kids[k])
    else s
  }

  /** The heap merge computes the pure merge. */
  lemma {:induction false} MergedContents(d: Shape, s: Shape)
    ensures Contents(Merged(d, s)) == Merge(Contents(d), Contents(s))
    decreases s
  {
    if d.SNode? && s.SNode? {
      forall k | k in d.kids && k in s.kids
        ensures Contents(Merged(d.kids[k], s.kids[k])) == Merge(Contents(d.kids[k]), Contents(s.kids[k]))
      {
        MergedContents(d.kids[k], s.kids[k]);
      }
      assert Contents(Merged(d, s)).entries == Merge(Contents(d), Contents(s)).entries;
    }
  }

  lemma {:induction false} MergedFootprint(d: Shape, s: Shape)
    ensures Footprint(Merged(d, s)) <= Footprint(d) + Footprint(s)
    decreases s
  {
    if d.SNode? && s.SNode? {
      var m := Merged(d, s);
      forall k | k in m.kids ensures Footprint(m.kids[k]) <= Footprint(d) + Footprint(s) {
        if k in d.kids && k in s.kids {
          MergedFootprint(d.kids[k], s.kids[k]);
        }
        if k in d.kids { KidFootprint(d, k); }
        if k in s.kids { KidFootprint(s, k); }
      }
    }
  }

  lemma KidFootprint(sh: Shape, k: string)
    requires sh.SNode? && k in sh.kids
    ensures Footprint(sh.kids[k]) <= Footprint(sh)
  {
  }

  /** The dictionaries of a shape in hand exist. */
  lemma {:induction false} FootprintAllocated(sh: Shape)
    ensures forall o | o in Footprint(sh) :: allocated(o)
  {
    if sh.SNode? {
      forall k | k in sh.kids ensures forall o | o in Footprint(sh.kids[k]) :: allocated(o) {
        FootprintAllocated(sh.kids[k]);
      }
    }
  }

  /** A merge of two separate trees is a tree again, so the next layer can be merged
      over it. */
  lemma {:induction false} MergedTreeShaped(d: Shape, s: Shape)
    requires TreeShaped(d) && TreeShaped(s) && Footprint(d) !! Footprint(s)
    ensures TreeShaped(Merged(d, s))
    decreases s
  {
    if d.SNode? && s.SNode? {
      var m := Merged(d, s);
      forall k | k in m.kids ensures d.dict !in Footprint(m.kids[k]) && TreeShaped(m.kids[k]) {
        if k in d.kids { KidFootprint(d, k); }
        if k in s.kids { KidFootprint(s, k); }
        if k in d.kids && k in s.kids {
          MergedTreeShaped(d.kids[k], s.kids[k]);
          MergedFootprint(d.kids[k], s.kids[k]);
        }
      }
      forall j, k | j in m.kids && k in m.kids && j != k ensures Footprint(m.kids[j]) !! Footprint(m.kids[k]) {
        MergedKidFootprint(d, s, j);
        MergedKidFootprint(d, s, k);
      }
    }
  }

  ghost function KidsFootprint(sh: Shape, k: string): set<Dict>
    requires sh.SNode?
  {
    if k in sh.kids then Footprint(sh.kids[k]) else {}
  }

  lemma MergedKidFootprint(d: Shape, s: Shape, k: string)
    requires d.SNode? && s.SNode? && k in Merged(d, s).kids
    ensures Footprint(Merged(d, s).kids[k]) <= KidsFootprint(d, k) + KidsFootprint(s, k)
    ensures KidsFootprint(d, k) <= Footprint(d) && KidsFootprint(s, k) <= Footprint(s)
  {
    if k in d.kids && k in s.kids {
      MergedFootprint(d.kids[k], s.kids[k]);
    }
  }

  /** The part of a source mapping already merged. */
  function Part(s: Shape, keys: set<string>): Shape
    requires s.SNode?
  {
    SNode(s.dict, map k | k in s.kids && k in keys :: s.kids[k])
  }

  /** Merging a part of one tree over another leaves a tree of dictionaries of both. */
  lemma MergedPart(d: Shape, s: Shape, keys: set<string>)
    requires d.SNode? && TreeShaped(d) && s.SNode? && TreeShaped(s) && Footprint(d) !! Footprint(s)
    ensures Footprint(Part(s, keys)) <= Footprint(s)
    ensures TreeShaped(Merged(d, Part(s, keys)))
    ensures Footprint(Merged(d, Part(s, keys))) <= Footprint(d) + Footprint(s)
    ensures Contents(Merged(d, Part(s, keys))) == Merge(Contents(d), Contents(Part(s, keys)))
  {
    forall k | k in s.kids ensures Footprint(s.kids[k]) <= Footprint(s) { KidFootprint(s, k); }
    MergedTreeShaped(d, Part(s, keys));
    MergedFootprint(d, Part(s, keys));
    MergedContents(d, Part(s, keys));
  }

  /** The entries of the destination after merging `v` in at `key`. */
  function KidsWith(kids: map<string, Shape>, key: string, v: Shape): map<string, Shape> {
    kids[key := if key in kids then Merged(kids[key], v) else v]
  }

  /** `kids` are the destination's entries when the keys `done` have been merged. */
  ghost predicate Partway(d: Shape, s: Shape, done: set<string>, kids: map<string, Shape>)
    requires d.SNode? && s.SNode?
  {
    SNode(d.dict, kids) == Merged(d, Part(s, done))
  }

  lemma OneMoreKey(d: Shape, s: Shape, done: set<string>, kids: map<string, Shape>, key: string)
    requires d.SNode? && s.SNode? && Partway(d, s, done, kids) && key in s.kids && key !in done
    ensures Partway(d, s, done + {key}, KidsWith(kids, key, s.kids[key]))
    ensures key in kids <==> key in d.kids
    ensures key in kids ==> kids[key] == d.kids[key]
  {
    assert Merged(d, Part(s, done + {key})).kids == KidsWith(kids, key, s.kids[key]);
  }

  /** What merging into one entry may touch is apart from the other entries. */
  ghost predicate Apart(dst: Dict, kids: map<string, Shape>, key: string, v: Shape) {
    && (forall k | k in kids :: dst !in Footprint(kids[k]))
    && dst !in Footprint(v)
    && (key in kids ==>
          && TreeShaped(kids[key])
          && Footprint(kids[key]) !! Footprint(v)
          && forall k | k in kids && k != key :: Footprint(kids[key]) !! Footprint(kids[k]))
  }

  lemma PartwayApart(d: Shape, s: Shape, done: set<string>, kids: map<string, Shape>, key: string)
    requires d.SNode? && TreeShaped(d) && s.SNode? && Footprint(d) !! Footprint(s)
    requires Partway(d, s, done, kids) && key in s.kids && key !in done
    ensures Apart(d.dict, kids, key, s.kids[key])
  {
    OneMoreKey(d, s, done, kids, key);
    KidFootprint(s, key);
    if key in d.kids { KidFootprint(d, key); }
    forall k | k in kids
      ensures d.dict !in Footprint(kids[k]) && (key in kids && k != key ==> Footprint(kids[key]) !! Footprint(kids[k]))
    {
      PartwayKid(d, s, done, kids, key, k);
    }
  }

  lemma PartwayKid(d: Shape, s: Shape, done: set<string>, kids: map<string, Shape>, key: string, k: string)
    requires d.SNode? && TreeShaped(d) && s.SNode? && Footprint(d) !! Footprint(s)
    requires Partway(d, s, done, kids) && k in kids
    ensures d.dict !in Footprint(kids[k])
    ensures key in d.kids && k != key ==> Footprint(d.kids[key]) !! Footprint(kids[k])
  {
    MergedKidFootprint(d, Part(s, done), k);
    if k in s.kids { KidFootprint(s, k); }
    if key in d.kids { KidFootprint(d, key); }
  }

  /** Everything one turn of the loop needs. */
  lemma NextKey(d: Shape, s: Shape, done: set<string>, kids: map<string, Shape>, key: string)
    requires d.SNode? && TreeShaped(d) && s.SNode? && Footprint(d) !! Footprint(s)
    requires Partway(d, s, done, kids) && key in s.kids && key !in done
    ensures Apart(d.dict, kids, key, s.kids[key])
    ensures {d.dict} + KidsFootprint(SNode(d.dict, kids), key) <= Footprint(d)
    ensures Partway(d, s, done + {key}, KidsWith(kids, key, s.kids[key]))
  {
    PartwayApart(d, s, done, kids, key);
    OneMoreKey(d, s, done, kids, key);
    if key in d.kids { KidFootprint(d, key); }
  }

  lemma NoneMerged(d: Shape, s: Shape)
    requires d.SNode? && s.SNode?
    ensures Partway(d, s, {}, d.kids) && SNode(d.dict, d.kids) == d
  {
  }

  lemma AllMerged(d: Shape, s: Shape, kids: map<string, Shape>)
    requires d.SNode? && s.SNode? && Partway(d, s, s.kids.Keys, kids)
    ensures SNode(d.dict, kids) == Merged(d, s)
    ensures Contents(Merged(d, s)) == Merge(Contents(d), Contents(s))
  {
    assert Part(s, s.kids.Keys) == s;
    MergedContents(d, s);
  }

  /** The loop body of `_deep_merge` and of `_LayerAccumulator.absorb`: descend
      when both values are mappings, store a reference otherwise. */
  method MergeEntry(dst: Dict, key: string, value: Value, ghost kids: map<string, Shape>, ghost v: Shape)
    requires Holds(SNode(dst, kids)) && Holds(v) && ValueOf(v) == value
    requires Apart(dst, kids, key, v)
    modifies {dst} + KidsFootprint(SNode(dst, kids), key)
    ensures Holds(SNode(dst, KidsWith(kids, key, v)))
    ensures Holds(v)
    decreases v, 2
  {
    if key in dst.entries && dst.entries[key].Sub? && value.Sub? {
      forall k | k in kids ensures forall o | o in Footprint(kids[k]) :: allocated(o) {
        FootprintAllocated(kids[k]);
      }
      DeepMerge(dst.entries[key].dict, value.dict, kids[key], v);
      assert forall k | k in kids && k != key :: Holds(kids[k]);
    } else {
      dst.entries := dst.entries[key := value];
      assert forall k | k in kids :: Holds(kids[k]);
    }
  }

  /** One turn of the loop over the source's entries. */
  method MergeNext(dst: Dict, src: Dict, key: string, ghost d: Shape, ghost s: Shape,
                   ghost done: set<string>, ghost kids: map<string, Shape>)
    returns (ghost kids': map<string, Shape>)
    requires d.SNode? && d.dict == dst && TreeShaped(d)
    requires s.SNode? && s.dict == src && Holds(s)
    requires Footprint(d) !! Footprint(s)
    requires key in s.kids && key !in done
    requires Holds(SNode(dst, kids)) && Partway(d, s, done, kids)
    modifies Footprint(d)
    ensures Holds(SNode(dst, kids')) && Partway(d, s, done + {key}, kids')
    ensures Holds(s)
    decreases s, 0
  {
    NextKey(d, s, done, kids, key);
    FootprintAllocated(s);
    MergeEntry(dst, key, src.entries[key], kids, s.kids[key]);
    kids' := KidsWith(kids, key, s.kids[key]);
  }

  /** `_deep_merge`: the keys may come in any order.  Only the destination's own
      dictionaries change, and they end up holding the pure merge. */
  method DeepMerge(dst: Dict, src: Dict, ghost d: Shape, ghost s: Shape)
    requires d.SNode? && d.dict == dst && Holds(d) && TreeShaped(d)
    requires s.SNode? && s.dict == src && Holds(s)
    requires Footprint(d) !! Footprint(s)
    modifies Footprint(d)
    ensures Holds(Merged(d, s)) && Contents(Merged(d, s)) == Merge(Contents(d), Contents(s))
    ensures Holds(s)
    decreases s, 1
  {
    ghost var done: set<string>, kids := {}, d.kids;
    var rest := src.entries.Keys;
    NoneMerged(d, s);
    while rest != {}
      invariant rest <= s.kids.Keys && done == s.kids.Keys - rest
      invariant Holds(s) && Holds(SNode(dst, kids)) && Partway(d, s, done, kids)
      decreases |rest|
    {
      var key :| key in rest;
      kids := MergeNext(dst, src, key, d, s, done, kids);
      done, rest := done + {key}, rest - {key};
    }
    assert done == s.kids.Keys;
    AllMerged(d, s, kids);
  }
}
