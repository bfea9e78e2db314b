/** Layered defaults: the deep merge of two dictionaries, with keys that are replaced whole. */
module ConfigMerge {
  import opened Json

  /** Dictionaries that hold a single entry are not merged with the defaults. */
  predicate NotMerging(key: string) {
    key == "recovery_action" || key == "ready_condition"
  }

  /** Both layers hold a dictionary under a key that merges. */
  predicate Merges(a: Dict, b: Dict, key: string) {
    key in a && key in b && a[key].Obj? && b[key].Obj? && !NotMerging(key)
  }

  /** What `dict_merge` computes, as one map; `b` takes precedence. */
  function Merge(a: Dict, b: Dict): Dict
    decreases Obj(b)
  {
    map key | key in a.Keys + b.Keys ::
      if Merges(a, b, key) then Obj(Merge(a[key].fields, b[key].fields))
      else if key in b then b[key] else a[key]
  }

  /** `dict_merge` itself: a copy of `dictA`, updated key by key in whatever order `dictB` is
      iterated. */
  method DictMerge(dictA: Dict, dictB: Dict) returns (merged: Dict)
    ensures merged == Merge(dictA, dictB)
    decreases Obj(dictB)
  {
    merged := dictA;
    var todo := dictB.Keys;
    while todo != {}
      invariant todo <= dictB.Keys
      invariant merged.Keys == dictA.Keys + (dictB.Keys - todo)
      invariant forall key :: key in merged ==>
        merged[key] == if key in dictB && key !in todo then Merge(dictA, dictB)[key] else dictA[key]
    {
      var key :| key in todo;
      var value := dictB[key];
      if key in merged && merged[key].Obj? && value.Obj? {
        if NotMerging(key) {
          merged := merged[key := value];
        } else {
          var inner := DictMerge(merged[key].fields, value.fields);
          merged := merged[key := Obj(inner)];
        }
      } else {
        merged := merged[key := value];
      }
      todo := todo - {key};
    }
  }

  // ---- Laws ---------------------------------------------------------------------------------

  /** Merging an empty layer changes nothing. */
  lemma MergeEmpty(a: Dict)
    ensures Merge(a, map[]) == a
  {
  }

  /** `x` adds nothing to `y`: every key of `x` is in `y`, and so on inside merging dictionaries. */
  ghost predicate Covered(x: Dict, y: Dict)
    decreases Obj(y)
  {
    && x.Keys <= y.Keys
    && forall key :: Merges(x, y, key) ==> Covered(x[key].fields, y[key].fields)
  }

  /** A layer below `y` is invisible exactly when `y` covers it. */
  lemma {:induction false} MergeIsUpperIffCovered(x: Dict, y: Dict)
    ensures Merge(x, y) == y <==> Covered(x, y)
    decreases Obj(y)
  {
    var r := Merge(x, y);
    forall key | Merges(x, y, key)
      ensures r[key] == y[key] <==> Covered(x[key].fields, y[key].fields)
    {
      MergeIsUpperIffCovered(x[key].fields, y[key].fields);
    }
    if Covered(x, y) {
      assert r.Keys == y.Keys;
      assert forall key :: key in r ==> r[key] == y[key];
    }
  }

  lemma {:induction false} CoveredBySelf(x: Dict)
    ensures Covered(x, x)
    decreases Obj(x)
  {
    forall key | Merges(x, x, key)
      ensures Covered(x[key].fields, x[key].fields)
    {
      CoveredBySelf(x[key].fields);
    }
  }

  lemma {:induction false} CoveredByMerge(a: Dict, b: Dict)
    ensures Covered(a, Merge(a, b)) && Covered(b, Merge(a, b))
    decreases Obj(b)
  {
    var r := Merge(a, b);
    forall key | Merges(a, r, key)
      ensures Covered(a[key].fields, r[key].fields)
    {
      if Merges(a, b, key) {
        CoveredByMerge(a[key].fields, b[key].fields);
      } else {
        CoveredBySelf(a[key].fields);
      }
    }
    forall key | Merges(b, r, key)
      ensures Covered(b[key].fields, r[key].fields)
    {
      if Merges(a, b, key) {
        CoveredByMerge(a[key].fields, b[key].fields);
      } else {
        CoveredBySelf(b[key].fields);
      }
    }
  }

  /** Merging a layer a second time changes nothing: merge(merge(a, b), b) == merge(a, b). */
  lemma {:induction false} MergeAbsorbs(a: Dict, b: Dict)
    ensures Merge(Merge(a, b), b) == Merge(a, b)
    decreases Obj(b)
  {
    var r := Merge(a, b);
    var rr := Merge(r, b);
    assert rr.Keys == r.Keys;
    forall key | key in r
      ensures rr[key] == r[key]
    {
      if Merges(r, b, key) {
        if Merges(a, b, key) {
          MergeAbsorbs(a[key].fields, b[key].fields);
        } else {
          CoveredBySelf(b[key].fields);
          MergeIsUpperIffCovered(b[key].fields, b[key].fields);
        }
      }
    }
  }

  /** No dictionary of `a` is hidden by a plain value of `b` and brought back by a dictionary of
      `c`, except where `c` covers it anyway. */
  ghost predicate Unshadowed(a: Dict, b: Dict, c: Dict)
    decreases Obj(c)
  {
    forall key :: key in b && Merges(a, c, key) ==>
      if b[key].Obj? then Unshadowed(a[key].fields, b[key].fields, c[key].fields)
      else Covered(a[key].fields, c[key].fields)
  }

  /** Away from a key that `a` and `c` merge through `b`, both groupings agree. */
  lemma AssociativeElsewhere(a: Dict, b: Dict, c: Dict, key: string)
    requires key in a || key in b || key in c
    requires !(key in b && Merges(a, c, key))
    ensures Merge(Merge(a, b), c)[key] == Merge(a, Merge(b, c))[key]
  {
  }

  lemma AssociativeAt(a: Dict, b: Dict, c: Dict, key: string)
    requires key in b && Merges(a, c, key)
    ensures Merge(Merge(a, b), c)[key] ==
            if b[key].Obj? then Obj(Merge(Merge(a[key].fields, b[key].fields), c[key].fields)) else c[key]
    ensures Merge(a, Merge(b, c))[key] ==
            if b[key].Obj? then Obj(Merge(a[key].fields, Merge(b[key].fields, c[key].fields)))
            else Obj(Merge(a[key].fields, c[key].fields))
  {
  }

  /** The merge is associative exactly on the layers that do not shadow each other. */
  lemma {:induction false} MergeAssociativeIff(a: Dict, b: Dict, c: Dict)
    ensures Merge(Merge(a, b), c) == Merge(a, Merge(b, c)) <==> Unshadowed(a, b, c)
    decreases Obj(c)
  {
    var left, right := Merge(Merge(a, b), c), Merge(a, Merge(b, c));
    assert left.Keys == right.Keys;
    forall key | key in left && !(key in b && Merges(a, c, key))
      ensures left[key] == right[key]
    {
      AssociativeElsewhere(a, b, c, key);
    }
    forall key | key in b && Merges(a, c, key)
      ensures key in left
      ensures left[key] == right[key] <==> if b[key].Obj? then Unshadowed(a[key].fields, b[key].fields, c[key].fields)
                                           else Covered(a[key].fields, c[key].fields)
    {
      AssociativeAt(a, b, c, key);
      if b[key].Obj? {
        MergeAssociativeIff(a[key].fields, b[key].fields, c[key].fields);
      } else {
        MergeIsUpperIffCovered(a[key].fields, c[key].fields);
      }
    }
    assert left == right <==> forall key :: key in left ==> left[key] == right[key];
  }

  /** The lowest layer is visible through the other two exactly when they do not shadow it. So
      filling in the same defaults again changes nothing. */
  lemma {:induction false} LayersCoverIff(g: Dict, d: Dict, c: Dict)
    ensures Covered(g, Merge(Merge(g, d), c)) <==> Unshadowed(g, d, c)
    decreases Obj(c)
  {
    var m := Merge(g, d);
    var r := Merge(m, c);
    forall key | Merges(g, r, key)
      ensures !(key in d && Merges(g, c, key)) ==> Covered(g[key].fields, r[key].fields)
      ensures key in d && Merges(g, c, key) ==>
                (Covered(g[key].fields, r[key].fields) <==>
                 if d[key].Obj? then Unshadowed(g[key].fields, d[key].fields, c[key].fields)
                 else Covered(g[key].fields, c[key].fields))
    {
      if key in d && Merges(g, c, key) {
        if d[key].Obj? {
          LayersCoverIff(g[key].fields, d[key].fields, c[key].fields);
        }
      } else if key in c {
        CoveredByMerge(g[key].fields, c[key].fields);
      } else if key in d {
        CoveredByMerge(g[key].fields, d[key].fields);
      } else {
        CoveredBySelf(g[key].fields);
      }
    }
    assert forall key :: key in d && Merges(g, c, key) ==> Merges(g, r, key);
  }

  /** The layers agree on which paths are dictionaries. */
  ghost predicate SameShape(a: Dict, b: Dict)
    decreases Obj(b)
  {
    forall key :: key in a && key in b && !NotMerging(key) ==>
      (a[key].Obj? <==> b[key].Obj?) && (a[key].Obj? ==> SameShape(a[key].fields, b[key].fields))
  }

  /** Agreement of shape is enough. */
  lemma {:induction false} SameShapeIsUnshadowed(a: Dict, b: Dict, c: Dict)
    requires SameShape(a, b)
    ensures Unshadowed(a, b, c)
    decreases Obj(c)
  {
    forall key | key in b && Merges(a, c, key)
      ensures b[key].Obj? && Unshadowed(a[key].fields, b[key].fields, c[key].fields)
    {
      SameShapeIsUnshadowed(a[key].fields, b[key].fields, c[key].fields);
    }
  }

  /** Without agreement the merge is not associative. */
  lemma ShadowingExample() returns (a: Dict, b: Dict, c: Dict)
    ensures Merge(Merge(a, b), c) != Merge(a, Merge(b, c))
  {
    a, b, c := map["k" := Obj(map["x" := Num(1)])], map["k" := Num(2)], map["k" := Obj(map[])];
    assert Merges(a, c, "k") && "x" in a["k"].fields;
    MergeAssociativeIff(a, b, c);
  }

  /** The value of the most specific layer that has the key. */
  function MostSpecific(g: Dict, d: Dict, c: Dict, key: string): Json
    requires key in g || key in d || key in c
  {
    if key in c then c[key] else if key in d then d[key] else g[key]
  }

  /** The most specific layer wins, wherever its value is not a dictionary or its key does not
      merge; and no layer invents or loses a key. */
  lemma MostSpecificWins(g: Dict, d: Dict, c: Dict, key: string)
    ensures key in Merge(Merge(g, d), c) <==> key in g || key in d || key in c
    ensures (key in g || key in d || key in c) && (!MostSpecific(g, d, c, key).Obj? || NotMerging(key)) ==>
              Merge(Merge(g, d), c)[key] == MostSpecific(g, d, c, key)
  {
  }
}
