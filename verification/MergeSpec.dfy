/** What overlaying one JSON value on another yields and reports, and the laws of both. */
module MergeSpec {
  import opened Basics
  import opened Json

  predicate BothObjects(a: Json, b: Json) {
    a.Obj? && b.Obj?
  }

  /** Objects merge key by key; anything else is overwritten, null included. */
  function Merged(base: Json, overlay: Json): Json
    decreases overlay
  {
    if BothObjects(base, overlay) then
      Obj(map k | k in base.fields.Keys + overlay.fields.Keys ::
            if k in overlay.fields then
              (if k in base.fields then Merged(base.fields[k], overlay.fields[k]) else overlay.fields[k])
            else base.fields[k])
    else overlay
  }

  /** The places that a merge reports: where a value is replaced by a different one, or added. */
  predicate Reported(base: Json, overlay: Json, path: Path) {
    if BothObjects(base, overlay) then
      && path != []
      && path[0] in overlay.fields
      && (if path[0] in base.fields
          then Reported(base.fields[path[0]], overlay.fields[path[0]], path[1..])
          else |path| == 1)
    else path == [] && base != overlay
  }

  /** p covers q when q is p or lies inside it. */
  predicate Covers(p: Path, q: Path) {
    p <= q
  }

  // ---- The reports are an exact patch ----

  /** A reported place holds the overlay's own value, which differs from what the base had. */
  lemma {:induction false} ReportedTakesOverlay(base: Json, overlay: Json, path: Path)
    requires Reported(base, overlay, path)
    ensures At(overlay, path).Some?
    ensures At(Merged(base, overlay), path) == At(overlay, path)
    ensures At(base, path) != At(overlay, path)
  {
    if BothObjects(base, overlay) && path[0] in base.fields {
      ReportedTakesOverlay(base.fields[path[0]], overlay.fields[path[0]], path[1..]);
    }
  }

  /** No reported place lies inside another. */
  lemma {:induction false} ReportsArePrefixFree(base: Json, overlay: Json, p: Path, q: Path)
    requires Reported(base, overlay, p) && Reported(base, overlay, q) && Covers(p, q)
    ensures p == q
  {
    if BothObjects(base, overlay) {
      assert p[0] == q[0] && p == [p[0]] + p[1..] && q == [q[0]] + q[1..];
      assert p[1..] <= q[1..];
      if p[0] in base.fields {
        ReportsArePrefixFree(base.fields[p[0]], overlay.fields[p[0]], p[1..], q[1..]);
      }
    }
  }

  /** A place neither inside a reported one nor around one keeps what the base had. */
  lemma {:induction false} UnreportedUnchanged(base: Json, overlay: Json, q: Path)
    requires forall p :: Reported(base, overlay, p) ==> !Covers(p, q) && !Covers(q, p)
    ensures At(Merged(base, overlay), q) == At(base, q)
  {
    if !BothObjects(base, overlay) {
      assert !Reported(base, overlay, []);
    } else if q != [] && q[0] in overlay.fields {
      var k := q[0];
      if k in base.fields {
        forall p | Reported(base.fields[k], overlay.fields[k], p)
          ensures !Covers(p, q[1..]) && !Covers(q[1..], p)
        {
          assert ([k] + p)[1..] == p;
          assert Reported(base, overlay, [k] + p);
          assert q == [k] + q[1..];
        }
        UnreportedUnchanged(base.fields[k], overlay.fields[k], q[1..]);
      } else {
        AddedIsReported(base, overlay, k);
      }
    } else if q == [] {
      SomethingReported(base, overlay);
    }
  }

  lemma AddedIsReported(base: Json, overlay: Json, k: string)
    requires BothObjects(base, overlay) && k in overlay.fields && k !in base.fields
    ensures Reported(base, overlay, [k])
  {
  }

  lemma InsideIsReported(base: Json, overlay: Json, k: string, p: Path)
    requires BothObjects(base, overlay) && k in overlay.fields && k in base.fields
    requires Reported(base.fields[k], overlay.fields[k], p)
    ensures Reported(base, overlay, [k] + p)
  {
    assert ([k] + p)[1..] == p;
  }

  lemma {:induction false} NothingReported(base: Json, overlay: Json)
    requires forall p :: !Reported(base, overlay, p)
    ensures Merged(base, overlay) == base
  {
    if !BothObjects(base, overlay) {
      assert !Reported(base, overlay, []);
    } else {
      forall k | k in overlay.fields
        ensures k in base.fields && Merged(base.fields[k], overlay.fields[k]) == base.fields[k]
      {
        if k !in base.fields {
          AddedIsReported(base, overlay, k);
        } else {
          forall p
            ensures !Reported(base.fields[k], overlay.fields[k], p)
          {
            if Reported(base.fields[k], overlay.fields[k], p) {
              InsideIsReported(base, overlay, k, p);
            }
          }
          NothingReported(base.fields[k], overlay.fields[k]);
        }
      }
      assert Merged(base, overlay).fields == base.fields;
    }
  }

  lemma ReportedChanges(base: Json, overlay: Json, p: Path)
    requires Reported(base, overlay, p)
    ensures Merged(base, overlay) != base
  {
    ReportedTakesOverlay(base, overlay, p);
    assert At(Merged(base, overlay), p) != At(base, p);
  }

  /** The report is empty exactly when the merge changes nothing. */
  lemma {:induction false} SomethingReported(base: Json, overlay: Json)
    ensures (exists p :: Reported(base, overlay, p)) ==> Merged(base, overlay) != base
    ensures Merged(base, overlay) != base ==> exists p :: Reported(base, overlay, p)
  {
    if exists p :: Reported(base, overlay, p) {
      var p :| Reported(base, overlay, p);
      ReportedChanges(base, overlay, p);
    } else {
      NothingReported(base, overlay);
    }
  }

  // ---- Applying the report to the base rebuilds the merged value ----

  /** Puts at each listed place, in order, what src has there. */
  function Patch(v: Json, places: seq<Path>, src: Json): Json
    decreases |places|
  {
    if places == [] then v
    else
      var x := At(src, places[0]);
      Patch(if x.Some? then SetAt(v, places[0], x.value) else v, places[1..], src)
  }

  function Tails(places: set<Path>, k: string): set<Path> {
    set p | p in places && p != [] && p[0] == k :: p[1..]
  }

  /** The merge carried out at some of its places only. */
  function Partial(base: Json, overlay: Json, places: set<Path>): Json
    decreases overlay
  {
    if BothObjects(base, overlay) then
      Obj(map k | k in base.fields.Keys + overlay.fields.Keys && (k in base.fields || [k] in places) ::
            if k !in overlay.fields then base.fields[k]
            else if k in base.fields then Partial(base.fields[k], overlay.fields[k], Tails(places, k))
            else overlay.fields[k])
    else if [] in places then overlay
    else base
  }

  lemma TailsAdd(places: set<Path>, p: Path, k: string)
    requires p != []
    ensures Tails(places + {p}, k) == if p[0] == k then Tails(places, k) + {p[1..]} else Tails(places, k)
  {
    forall t | t in Tails(places, k) || (p[0] == k && t == p[1..])
      ensures t in Tails(places + {p}, k)
    {
      if t in Tails(places, k) {
        var q :| q in places && q != [] && q[0] == k && q[1..] == t;
        assert q in places + {p};
      } else {
        assert p in places + {p};
      }
    }
  }

  /** What the partial merge has under one key. */
  function FieldOf(base: Json, overlay: Json, places: set<Path>, k: string): Option<Json>
    requires BothObjects(base, overlay)
  {
    if k in base.fields then
      Some(if k in overlay.fields then Partial(base.fields[k], overlay.fields[k], Tails(places, k)) else base.fields[k])
    else if k in overlay.fields && [k] in places then Some(overlay.fields[k])
    else None
  }

  lemma PartialFields(base: Json, overlay: Json, places: set<Path>)
    requires BothObjects(base, overlay)
    ensures var fields := Partial(base, overlay, places).fields;
      forall k :: (if k in fields then Some(fields[k]) else None) == FieldOf(base, overlay, places, k)
  {
  }

  lemma OtherFieldStays(base: Json, overlay: Json, places: set<Path>, p: Path, k: string)
    requires BothObjects(base, overlay) && p != [] && k != p[0]
    ensures FieldOf(base, overlay, places + {p}, k) == FieldOf(base, overlay, places, k)
  {
    TailsAdd(places, p, k);
  }

  /** One more place to carry out changes only the field it leads through. */
  lemma PartialField(base: Json, overlay: Json, places: set<Path>, p: Path)
    requires BothObjects(base, overlay) && p != [] && p[0] in overlay.fields
    requires p[0] !in base.fields ==> p == [p[0]]
    ensures var before, after := Partial(base, overlay, places).fields, Partial(base, overlay, places + {p}).fields;
      after == before[p[0] :=
        if p[0] in base.fields then Partial(base.fields[p[0]], overlay.fields[p[0]], Tails(places, p[0]) + {p[1..]})
        else overlay.fields[p[0]]]
  {
    PartialFields(base, overlay, places);
    PartialFields(base, overlay, places + {p});
    TailsAdd(places, p, p[0]);
    forall k | k != p[0]
      ensures FieldOf(base, overlay, places + {p}, k) == FieldOf(base, overlay, places, k)
    {
      OtherFieldStays(base, overlay, places, p, k);
    }
  }

  /** Setting one more reported place carries out one more part of the merge. */
  lemma {:induction false} SetReported(base: Json, overlay: Json, places: set<Path>, p: Path)
    requires Reported(base, overlay, p)
    ensures At(overlay, p).Some?
    ensures SetAt(Partial(base, overlay, places), p, At(overlay, p).value) == Partial(base, overlay, places + {p})
    decreases p
  {
    ReportedTakesOverlay(base, overlay, p);
    if BothObjects(base, overlay) {
      var k := p[0];
      PartialField(base, overlay, places, p);
      if k in base.fields {
        SetReported(base.fields[k], overlay.fields[k], Tails(places, k), p[1..]);
      }
    }
  }

  function ToSet(places: seq<Path>): set<Path> {
    set p | p in places
  }

  lemma {:induction false} PatchPartial(base: Json, overlay: Json, done: set<Path>, places: seq<Path>)
    requires forall p :: p in places ==> Reported(base, overlay, p)
    ensures Patch(Partial(base, overlay, done), places, Merged(base, overlay))
         == Partial(base, overlay, done + ToSet(places))
    decreases |places|
  {
    if places == [] {
      assert done + ToSet(places) == done;
    } else {
      ReportedTakesOverlay(base, overlay, places[0]);
      SetReported(base, overlay, done, places[0]);
      assert places == [places[0]] + places[1..];
      PatchPartial(base, overlay, done + {places[0]}, places[1..]);
      assert done + ToSet(places) == done + {places[0]} + ToSet(places[1..]);
    }
  }

  lemma {:induction false} PartialNone(base: Json, overlay: Json)
    ensures Partial(base, overlay, {}) == base
  {
    if BothObjects(base, overlay) {
      forall k | k in base.fields && k in overlay.fields
        ensures Partial(base.fields[k], overlay.fields[k], Tails({}, k)) == base.fields[k]
      {
        assert Tails({}, k) == {};
        PartialNone(base.fields[k], overlay.fields[k]);
      }
      assert Partial(base, overlay, {}).fields == base.fields;
    }
  }

  lemma {:induction false} PartialAll(base: Json, overlay: Json, places: set<Path>)
    requires forall p :: Reported(base, overlay, p) ==> p in places
    ensures Partial(base, overlay, places) == Merged(base, overlay)
  {
    if !BothObjects(base, overlay) {
      assert Reported(base, overlay, []) <==> base != overlay;
    } else {
      forall k | k in overlay.fields && k in base.fields
        ensures Partial(base.fields[k], overlay.fields[k], Tails(places, k))
             == Merged(base.fields[k], overlay.fields[k])
      {
        forall p | Reported(base.fields[k], overlay.fields[k], p)
          ensures p in Tails(places, k)
        {
          InsideIsReported(base, overlay, k, p);
          assert ([k] + p)[1..] == p && [k] + p in places;
        }
        PartialAll(base.fields[k], overlay.fields[k], Tails(places, k));
      }
      forall k | k in overlay.fields && k !in base.fields
        ensures [k] in places
      {
        AddedIsReported(base, overlay, k);
      }
      assert Partial(base, overlay, places).fields == Merged(base, overlay).fields;
    }
  }

  /** Setting the reported places of the base, in any order, to what the merge has there rebuilds the merge. */
  lemma ReportIsExactPatch(base: Json, overlay: Json, places: seq<Path>)
    requires forall p :: p in places <==> Reported(base, overlay, p)
    ensures Patch(base, places, Merged(base, overlay)) == Merged(base, overlay)
  {
    PartialNone(base, overlay);
    PatchPartial(base, overlay, {}, places);
    PartialAll(base, overlay, {} + ToSet(places));
  }

  // ---- Algebra ----

  /** Overlaying the same value a second time changes nothing and reports nothing. */
  lemma {:induction false} SecondOverlayChangesNothing(a: Json, b: Json)
    ensures Merged(Merged(a, b), b) == Merged(a, b)
    ensures forall p :: !Reported(Merged(a, b), b, p)
  {
    MergedAbsorbs(a, b);
    SomethingReported(Merged(a, b), b);
  }

  lemma {:induction false} MergedAbsorbs(a: Json, b: Json)
    ensures Merged(Merged(a, b), b) == Merged(a, b)
  {
    if BothObjects(a, b) {
      forall k | k in b.fields
        ensures Merged(Merged(a, b).fields[k], b.fields[k]) == Merged(a, b).fields[k]
      {
        if k in a.fields {
          MergedAbsorbs(a.fields[k], b.fields[k]);
        } else {
          MergeWithSelf(b.fields[k]);
        }
      }
      assert Merged(Merged(a, b), b).fields == Merged(a, b).fields;
    } else {
      MergeWithSelf(b);
    }
  }

  lemma {:induction false} MergeWithSelf(a: Json)
    ensures Merged(a, a) == a
  {
    if a.Obj? {
      forall k | k in a.fields
        ensures Merged(a.fields[k], a.fields[k]) == a.fields[k]
      {
        MergeWithSelf(a.fields[k]);
      }
      assert Merged(a, a).fields == a.fields;
    }
  }

  /** Wherever both have an object, a has no key that c lacks. */
  predicate Subsumed(a: Json, c: Json)
    decreases a
  {
    BothObjects(a, c) ==>
      forall k | k in a.fields :: k in c.fields && Subsumed(a.fields[k], c.fields[k])
  }

  lemma {:induction false} SubsumedIff(a: Json, c: Json)
    ensures Merged(a, c) == c <==> Subsumed(a, c)
  {
    if BothObjects(a, c) {
      forall k | k in a.fields && k in c.fields
        ensures Merged(a.fields[k], c.fields[k]) == c.fields[k] <==> Subsumed(a.fields[k], c.fields[k])
      {
        SubsumedIff(a.fields[k], c.fields[k]);
      }
      var m := Merged(a, c).fields;
      if Merged(a, c) == c {
        assert forall k :: k in a.fields ==> k in m && m[k] == c.fields[k];
      }
      if Subsumed(a, c) {
        assert m == c.fields;
      }
    }
  }

  /** At no place does a non-object in b separate an object in a from one in c that it matters to. */
  predicate Unseparated(a: Json, b: Json, c: Json)
    decreases a
  {
    BothObjects(a, c) ==>
      if b.Obj? then
        forall k | k in a.fields ::
          k in b.fields && k in c.fields ==> Unseparated(a.fields[k], b.fields[k], c.fields[k])
      else Subsumed(a, c)
  }

  /** The two groupings agree at a key of three objects. */
  ghost predicate AgreeAt(a: Json, b: Json, c: Json, k: string)
    requires a.Obj? && b.Obj? && c.Obj?
  {
    k in a.fields && k in b.fields && k in c.fields ==>
      var x, y, z := a.fields[k], b.fields[k], c.fields[k];
      Merged(Merged(x, y), z) == Merged(x, Merged(y, z))
  }

  lemma AgreeByKey(a: Json, b: Json, c: Json)
    requires a.Obj? && b.Obj? && c.Obj?
    ensures Merged(Merged(a, b), c) == Merged(a, Merged(b, c)) <==>
      forall k | k in a.fields :: AgreeAt(a, b, c, k)
  {
    var l, r := Merged(Merged(a, b), c).fields, Merged(a, Merged(b, c)).fields;
    assert l.Keys == r.Keys;
    assert forall k :: k in l ==> (l[k] == r[k] <==> AgreeAt(a, b, c, k));
    assert l == r <==> forall k :: k in l ==> l[k] == r[k];
  }

  /** Merging is associative on exactly these triples. */
  lemma {:induction false} AssociativeIff(a: Json, b: Json, c: Json)
    ensures Merged(Merged(a, b), c) == Merged(a, Merged(b, c)) <==> Unseparated(a, b, c)
  {
    if BothObjects(a, c) {
      if b.Obj? {
        AgreeByKey(a, b, c);
        forall k | k in a.fields && k in b.fields && k in c.fields
          ensures AgreeAt(a, b, c, k) <==> Unseparated(a.fields[k], b.fields[k], c.fields[k])
        {
          AssociativeIff(a.fields[k], b.fields[k], c.fields[k]);
        }
      } else {
        SubsumedIff(a, c);
      }
    }
  }

  /** An object in a and an object in c with a non-object of b between them at one place. */
  predicate Separated(a: Json, b: Json, c: Json, p: Path) {
    var x, y, z := At(a, p), At(b, p), At(c, p);
    x.Some? && x.value.Obj? && y.Some? && !y.value.Obj? && z.Some? && z.value.Obj?
  }

  /** Where no place has the separating pattern, grouping does not matter. */
  lemma {:induction false} UnseparatedPlaces(a: Json, b: Json, c: Json)
    requires forall p :: !Separated(a, b, c, p)
    ensures Unseparated(a, b, c)
  {
    assert !Separated(a, b, c, []);
    if BothObjects(a, c) {
      forall k | k in a.fields && k in b.fields && k in c.fields
        ensures Unseparated(a.fields[k], b.fields[k], c.fields[k])
      {
        forall p
          ensures !Separated(a.fields[k], b.fields[k], c.fields[k], p)
        {
          assert !Separated(a, b, c, [k] + p) && ([k] + p)[1..] == p;
        }
        UnseparatedPlaces(a.fields[k], b.fields[k], c.fields[k]);
      }
    }
  }

  lemma AssociativeWithoutPattern(a: Json, b: Json, c: Json)
    requires forall p :: !Separated(a, b, c, p)
    ensures Merged(Merged(a, b), c) == Merged(a, Merged(b, c))
  {
    UnseparatedPlaces(a, b, c);
    AssociativeIff(a, b, c);
  }

  /** Three layers on which the grouping matters: an object, a null, an object. */
  lemma GroupingMatters()
    ensures var a, b, c := Obj(map["k" := Null]), Null, Obj(map[]);
      && Merged(Merged(a, b), c) == c
      && Merged(a, Merged(b, c)) == a
      && a != c
  {
    var a, c := Obj(map["k" := Null]), Obj(map[]);
    assert Merged(a, c).fields == a.fields;
    assert "k" in a.fields && "k" !in c.fields;
  }

  // ---- Layers ----

  /** The value after all layers, from the empty object. */
  function Layered(layers: seq<Json>): Json {
    if layers == [] then Obj(map[]) else Merged(Layered(layers[..|layers| - 1]), layers[|layers| - 1])
  }

  /** Step i reports a place that covers q. */
  ghost predicate StepCovers(layers: seq<Json>, i: nat, q: Path)
    requires i < |layers|
  {
    exists p :: Covers(p, q) && Reported(Layered(layers[..i]), layers[i], p)
  }

  ghost predicate LastToCover(layers: seq<Json>, i: nat, q: Path)
    requires i < |layers|
  {
    StepCovers(layers, i, q) && forall j :: i < j < |layers| ==> !StepCovers(layers, j, q)
  }

  /** A leaf holds no other place: not an object, or an empty one. */
  predicate IsLeaf(v: Json) {
    v.Obj? ==> v.fields == map[]
  }

  lemma CoveredIsOverlay(base: Json, overlay: Json, p: Path, q: Path)
    requires Reported(base, overlay, p) && Covers(p, q)
    ensures At(Merged(base, overlay), q) == At(overlay, q)
  {
    ReportedTakesOverlay(base, overlay, p);
    assert q == p + q[|p|..];
    AtAppend(Merged(base, overlay), p, q[|p|..]);
    AtAppend(overlay, p, q[|p|..]);
  }

  lemma {:induction false} UncoveredLeafIsBase(base: Json, overlay: Json, q: Path)
    requires forall p :: Reported(base, overlay, p) ==> !Covers(p, q)
    requires At(Merged(base, overlay), q).Some? && IsLeaf(At(Merged(base, overlay), q).value)
    ensures At(base, q) == At(Merged(base, overlay), q)
  {
    if !BothObjects(base, overlay) {
      assert Covers([], q) && !Reported(base, overlay, []);
    } else if q == [] {
      assert forall k :: k in base.fields ==> k in Merged(base, overlay).fields;
      assert base.fields == map[];
    } else if q[0] in overlay.fields {
      var k := q[0];
      if k in base.fields {
        forall p | Reported(base.fields[k], overlay.fields[k], p)
          ensures !Covers(p, q[1..])
        {
          InsideIsReported(base, overlay, k, p);
          assert q == [k] + q[1..];
          assert Covers(p, q[1..]) ==> Covers([k] + p, q);
        }
        UncoveredLeafIsBase(base.fields[k], overlay.fields[k], q[1..]);
      } else {
        AddedIsReported(base, overlay, k);
      }
    }
  }

  /** Where the leaf at q comes from: the last step that covers it, if one does. */
  ghost predicate ComesFromLast(layers: seq<Json>, q: Path) {
    && (Layered(layers) != Obj(map[]) ==> exists i :: 0 <= i < |layers| && LastToCover(layers, i, q))
    && (forall i :: 0 <= i < |layers| && LastToCover(layers, i, q) ==> At(layers[i], q) == At(Layered(layers), q))
  }

  /** The newest layer covers the leaf. */
  lemma CoveredByLast(layers: seq<Json>, q: Path)
    requires layers != [] && StepCovers(layers, |layers| - 1, q)
    ensures ComesFromLast(layers, q)
  {
    var n := |layers| - 1;
    var p :| Covers(p, q) && Reported(Layered(layers[..n]), layers[n], p);
    CoveredIsOverlay(Layered(layers[..n]), layers[n], p, q);
    assert LastToCover(layers, n, q);
  }

  lemma SameCover(layers: seq<Json>, i: nat, q: Path)
    requires i < |layers| - 1
    ensures StepCovers(layers[..|layers| - 1], i, q) == StepCovers(layers, i, q)
  {
    assert layers[..|layers| - 1][..i] == layers[..i];
  }

  /** The newest layer leaves the leaf alone. */
  lemma SameLast(layers: seq<Json>, i: nat, q: Path)
    requires i < |layers| - 1 && !StepCovers(layers, |layers| - 1, q)
    ensures LastToCover(layers[..|layers| - 1], i, q) == LastToCover(layers, i, q)
  {
    var init := layers[..|layers| - 1];
    SameCover(layers, i, q);
    if j :| i < j < |init| && StepCovers(init, j, q) {
      SameCover(layers, j, q);
    }
    if j :| i < j < |layers| && StepCovers(layers, j, q) {
      SameCover(layers, j, q);
    }
  }

  lemma LeftAloneByLast(layers: seq<Json>, q: Path)
    requires layers != [] && !StepCovers(layers, |layers| - 1, q)
    requires ComesFromLast(layers[..|layers| - 1], q)
    requires At(Layered(layers[..|layers| - 1]), q) == At(Layered(layers), q)
    requires Layered(layers) != Obj(map[]) ==> Layered(layers[..|layers| - 1]) != Obj(map[])
    ensures ComesFromLast(layers, q)
  {
    var init := layers[..|layers| - 1];
    forall i: nat | i < |init|
      ensures LastToCover(init, i, q) == LastToCover(layers, i, q)
    {
      SameLast(layers, i, q);
    }
    if Layered(layers) != Obj(map[]) {
      var i :| 0 <= i < |init| && LastToCover(init, i, q);
      assert LastToCover(layers, i, q);
    }
  }

  /** Every leaf of the final value is the own value of the last layer whose step reports a place covering
      it. Only the empty object that the fold starts from may have come from no layer. */
  lemma {:induction false} Provenance(layers: seq<Json>, q: Path)
    requires At(Layered(layers), q).Some? && IsLeaf(At(Layered(layers), q).value)
    ensures ComesFromLast(layers, q)
    decreases |layers|
  {
    if layers != [] {
      var n := |layers| - 1;
      if StepCovers(layers, n, q) {
        CoveredByLast(layers, q);
      } else {
        var init := layers[..n];
        UncoveredLeafIsBase(Layered(init), layers[n], q);
        Provenance(init, q);
        LeftAloneByLast(layers, q);
      }
    }
  }
}
