/**
 Recursive configuration merge (`_deep_merge`, fusion_mlx/config.py).

 A configuration is a tree of objects and leaves.  The merge is specified by what it holds at every
 path, and the algebra (identity, idempotence, associativity) is read off that specification.
 */
module DeepMerge {

  datatype Json<V> = Leaf(v: V) | Obj(fields: map<string, Json<V>>)

  type Path = seq<string>

  // ----- The merge -----

  function Merge<V>(base: map<string, Json<V>>, override: map<string, Json<V>>): map<string, Json<V>>
    decreases Obj(override)
  {
    map k | k in base.Keys + override.Keys ::
      if k !in override then base[k]
      else if override[k].Obj? && k in base && base[k].Obj? then
        Obj(Merge(base[k].fields, override[k].fields))
      else override[k]
  }

  /** What the merge puts under a key of the override. */
  function MergedValue<V>(base: map<string, Json<V>>, k: string, v: Json<V>): Json<V> {
    if v.Obj? && k in base && base[k].Obj? then Obj(Merge(base[k].fields, v.fields)) else v
  }

  /** What the loop has built when the keys in `todo` are still to come. */
  ghost predicate Partial<V>(merged: map<string, Json<V>>, base: map<string, Json<V>>, override: map<string, Json<V>>,
                             todo: set<string>)
  {
    && todo <= override.Keys
    && merged.Keys == base.Keys + (override.Keys - todo)
    && forall k :: k in merged ==>
         merged[k] == if k in override && k !in todo then MergedValue(base, k, override[k]) else base[k]
  }

  /** The loop over `override.items()`, in whatever order the keys come. */
  method MergeLoop<V>(base: map<string, Json<V>>, override: map<string, Json<V>>) returns (merged: map<string, Json<V>>)
    ensures merged == Merge(base, override)
    decreases Obj(override), 1
  {
    merged := base;
    var todo := override.Keys;
    while todo != {}
      invariant Partial(merged, base, override, todo)
      decreases |todo|
    {
      var k :| k in todo;
      var v := override[k];
      if v.Obj? && k in merged && merged[k].Obj? {
        v := MergeObjects(merged[k], v);
      }
      PartialStep(merged, base, override, todo, k);
      merged := merged[k := v];
      todo := todo - {k};
    }
    MergeByKey(base, override, merged);
  }

  lemma PartialStep<V>(merged: map<string, Json<V>>, base: map<string, Json<V>>, override: map<string, Json<V>>,
                       todo: set<string>, k: string)
    requires Partial(merged, base, override, todo) && k in todo
    ensures Partial(merged[k := MergedValue(merged, k, override[k])], base, override, todo - {k})
  {
  }

  lemma MergeByKey<V>(base: map<string, Json<V>>, override: map<string, Json<V>>, merged: map<string, Json<V>>)
    requires Partial(merged, base, override, {})
    ensures merged == Merge(base, override)
  {
    var m := Merge(base, override);
    assert m.Keys == base.Keys + override.Keys;
    assert forall k :: k in m ==> m[k] == if k in override then MergedValue(base, k, override[k]) else base[k];
  }

  method MergeObjects<V>(x: Json<V>, y: Json<V>) returns (r: Json<V>)
    requires x.Obj? && y.Obj?
    ensures r == Obj(Merge(x.fields, y.fields))
    decreases y, 2
  {
    var inner := MergeLoop(x.fields, y.fields);
    r := Obj(inner);
  }

  // ----- What a tree holds at a path -----

  datatype Cell<V> = Absent | LeafAt(v: V) | ObjAt

  function At<V>(m: map<string, Json<V>>, p: Path): Cell<V>
    decreases |p|
  {
    if p == [] then ObjAt
    else if p[0] !in m then Absent
    else match m[p[0]]
      case Leaf(v) => if |p| == 1 then LeafAt(v) else Absent
      case Obj(f) => At(f, p[1..])
  }

  /** Some proper prefix of `p` is a leaf of `m`. */
  predicate LeafAbove<V>(m: map<string, Json<V>>, p: Path)
    decreases |p|
  {
    p != [] && p[0] in m &&
    match m[p[0]]
    case Leaf(_) => |p| > 1
    case Obj(f) => LeafAbove(f, p[1..])
  }

  /** Two trees that hold the same at every path are the same tree. */
  lemma {:induction false} SameAtEveryPath<V>(a: map<string, Json<V>>, b: map<string, Json<V>>)
    requires forall p :: At(a, p) == At(b, p)
    ensures a == b
    decreases Obj(a)
  {
    forall k: string
      ensures k in a <==> k in b
      ensures k in a && k in b ==> a[k] == b[k]
    {
      assert [k][1..] == [];
      assert k in a <==> At(a, [k]) != Absent;
      assert k in b <==> At(b, [k]) != Absent;
      assert At(a, [k]) == At(b, [k]);
      if k in a && k in b && a[k].Obj? && b[k].Obj? {
        forall p
          ensures At(a[k].fields, p) == At(b[k].fields, p)
        {
          assert ([k] + p)[1..] == p;
          assert At(a, [k] + p) == At(b, [k] + p);
        }
        SameAtEveryPath(a[k].fields, b[k].fields);
      }
    }
  }

  /**
   The path specification: the override decides every path it holds and hides everything below its
   leaves; elsewhere the base shows through.
   */
  lemma {:induction false} MergeAt<V>(a: map<string, Json<V>>, b: map<string, Json<V>>, p: Path)
    ensures At(Merge(a, b), p) ==
            if At(b, p) != Absent then At(b, p)
            else if LeafAbove(b, p) then Absent
            else At(a, p)
    decreases |p|
  {
    if p != [] && p[0] in b && b[p[0]].Obj? {
      var k := p[0];
      if k in a && a[k].Obj? {
        MergeAt(a[k].fields, b[k].fields, p[1..]);
      }
    }
  }

  /** A leaf shows above `p` in the merge when the override has one, or the base has one the override leaves alone. */
  lemma {:induction false} MergeLeafAbove<V>(a: map<string, Json<V>>, b: map<string, Json<V>>, p: Path)
    ensures LeafAbove(Merge(a, b), p) <==>
            LeafAbove(b, p) || (LeafAbove(a, p) && !ReplacesLeaf(a, b, p))
    decreases |p|
  {
    if p != [] && p[0] in a && p[0] in b && a[p[0]].Obj? && b[p[0]].Obj? {
      MergeLeafAbove(a[p[0]].fields, b[p[0]].fields, p[1..]);
    }
  }

  /** On the way to `p`, `b` holds an object where `a` holds a leaf. */
  predicate ReplacesLeaf<V>(a: map<string, Json<V>>, b: map<string, Json<V>>, p: Path)
    decreases |p|
  {
    |p| > 1 && p[0] in a && p[0] in b && b[p[0]].Obj? &&
    match a[p[0]]
    case Leaf(_) => true
    case Obj(f) => ReplacesLeaf(f, b[p[0]].fields, p[1..])
  }

  lemma {:induction false} NothingBelowLeaf<V>(m: map<string, Json<V>>, p: Path)
    requires LeafAbove(m, p)
    ensures At(m, p) == Absent
    decreases |p|
  {
    if m[p[0]].Obj? {
      NothingBelowLeaf(m[p[0]].fields, p[1..]);
    }
  }

  // ----- Algebra -----

  lemma EmptyIsIdentity<V>(a: map<string, Json<V>>)
    ensures Merge(a, map[]) == a
    ensures Merge(map[], a) == a
  {
  }

  lemma Idempotent<V>(a: map<string, Json<V>>, b: map<string, Json<V>>)
    ensures Merge(Merge(a, b), b) == Merge(a, b)
  {
    forall p
      ensures At(Merge(Merge(a, b), b), p) == At(Merge(a, b), p)
    {
      MergeAt(Merge(a, b), b, p);
      MergeAt(a, b, p);
    }
    SameAtEveryPath(Merge(Merge(a, b), b), Merge(a, b));
  }

  /**
   Path `p` of `a` comes back to life when merging is grouped to the right: the leaf of `b` that
   would hide it is itself replaced by an object of `c`, and `c` says nothing about `p`.
   */
  predicate Resurrects<V>(a: map<string, Json<V>>, b: map<string, Json<V>>, c: map<string, Json<V>>, p: Path) {
    && LeafAbove(b, p) && ReplacesLeaf(b, c, p)
    && At(a, p) != Absent && At(c, p) == Absent && !LeafAbove(c, p)
  }

  lemma GroupingAt<V>(a: map<string, Json<V>>, b: map<string, Json<V>>, c: map<string, Json<V>>, p: Path)
    ensures At(Merge(Merge(a, b), c), p) == At(Merge(a, Merge(b, c)), p) <==> !Resurrects(a, b, c, p)
  {
    MergeAt(Merge(a, b), c, p);
    MergeAt(a, b, p);
    MergeAt(a, Merge(b, c), p);
    MergeAt(b, c, p);
    MergeLeafAbove(b, c, p);
    if LeafAbove(b, p) { NothingBelowLeaf(b, p); }
  }

  /** Merging is associative on `a`, `b`, `c` exactly when no path is resurrected. */
  lemma AssociativeIff<V(!new)>(a: map<string, Json<V>>, b: map<string, Json<V>>, c: map<string, Json<V>>)
    ensures Merge(Merge(a, b), c) == Merge(a, Merge(b, c)) <==> forall p :: !Resurrects(a, b, c, p)
  {
    var left, right := Merge(Merge(a, b), c), Merge(a, Merge(b, c));
    if left == right {
      forall p ensures !Resurrects(a, b, c, p) { GroupingAt(a, b, c, p); }
    }
    if forall p :: !Resurrects(a, b, c, p) {
      forall p ensures At(left, p) == At(right, p) { GroupingAt(a, b, c, p); }
      SameAtEveryPath(left, right);
    }
  }

  /** The usual sufficient condition: no path is an object in `a` and `c` and a leaf in `b`. */
  lemma AssociativeWithoutClash<V(!new)>(a: map<string, Json<V>>, b: map<string, Json<V>>, c: map<string, Json<V>>)
    requires forall q :: !(At(a, q) == ObjAt && At(b, q).LeafAt? && At(c, q) == ObjAt)
    ensures Merge(Merge(a, b), c) == Merge(a, Merge(b, c))
  {
    forall p ensures !Resurrects(a, b, c, p) {
      if Resurrects(a, b, c, p) {
        var q := ClashOf(a, b, c, p);
        assert false;
      }
    }
    AssociativeIff(a, b, c);
  }

  lemma {:induction false} ClashOf<V>(a: map<string, Json<V>>, b: map<string, Json<V>>, c: map<string, Json<V>>,
                                      p: Path)
    returns (q: Path)
    requires ReplacesLeaf(b, c, p) && At(a, p) != Absent
    ensures At(a, q) == ObjAt && At(b, q).LeafAt? && At(c, q) == ObjAt
    decreases |p|
  {
    var k := p[0];
    assert [k][1..] == [];
    if b[k].Leaf? {
      q := [k];
    } else {
      var q' := ClashOf(a[k].fields, b[k].fields, c[k].fields, p[1..]);
      q := [k] + q';
      assert q[1..] == q';
    }
  }

  /** Grouping does matter: `{x: {y: 1}}`, `{x: 0}`, `{x: {}}`. */
  lemma NotAssociative()
    ensures exists a: map<string, Json<int>>, b, c :: Merge(Merge(a, b), c) != Merge(a, Merge(b, c))
  {
    var a: map<string, Json<int>> := map["x" := Obj(map["y" := Leaf(1)])];
    var b: map<string, Json<int>> := map["x" := Leaf(0)];
    var c: map<string, Json<int>> := map["x" := Obj(map[])];
    assert ["x", "y"][1..] == ["y"] && ["y"][1..] == [];
    assert Resurrects(a, b, c, ["x", "y"]);
    AssociativeIff(a, b, c);
  }
}
