/** Merging configuration layers and reporting what each one changed (merge.rs). */
module ConfigMerge {
  import opened Sequences
  import opened Json
  import opened JsonPointer
  import opened MergeSpec

  // ---- Sorting the report ----

  /** Lexicographic order by code point, which is also the order of the UTF-8 bytes. */
  predicate Less(a: string, b: string) {
    b != "" && (a == "" || a[0] < b[0] || (a[0] == b[0] && Less(a[1..], b[1..])))
  }

  /** The strings agree up to a place where the first ends or has the smaller character. */
  ghost predicate LessAt(a: string, b: string, n: nat) {
    n <= |a| && n < |b| && a[..n] == b[..n] && (n == |a| || a[n] < b[n])
  }

  /** The order is that of a dictionary. */
  lemma {:induction false} LessIff(a: string, b: string)
    ensures Less(a, b) <==> exists n: nat :: LessAt(a, b, n)
  {
    if a == "" {
      assert b != "" ==> LessAt(a, b, 0);
    } else if b != "" {
      LessIff(a[1..], b[1..]);
      if a[0] < b[0] {
        assert LessAt(a, b, 0);
      } else if n: nat :| a[0] == b[0] && LessAt(a[1..], b[1..], n) {
        assert a[..n + 1] == [a[0]] + a[1..][..n] && b[..n + 1] == [b[0]] + b[1..][..n];
        assert LessAt(a, b, n + 1);
      }
      if n: nat :| n > 0 && LessAt(a, b, n) {
        assert a[0] == a[..n][0] == b[..n][0] == b[0];
        assert a[1..][..n - 1] == a[..n][1..] == b[..n][1..] == b[1..][..n - 1];
        assert LessAt(a[1..], b[1..], n - 1);
      }
    }
  }

  lemma {:induction false} LessTotal(a: string, b: string)
    ensures Less(a, b) || Less(b, a) || a == b
    ensures !(Less(a, b) && Less(b, a)) && !Less(a, a)
  {
    if a != "" && b != "" {
      LessTotal(a[1..], b[1..]);
      assert a == [a[0]] + a[1..] && b == [b[0]] + b[1..];
    }
    if a != "" {
      LessTotal(a[1..], a[1..]);
    }
  }

  lemma {:induction false} LessTransitive(a: string, b: string, c: string)
    requires Less(a, b) && Less(b, c)
    ensures Less(a, c)
  {
    if a != "" && a[0] == b[0] == c[0] {
      LessTransitive(a[1..], b[1..], c[1..]);
    }
  }

  ghost predicate StrictlyAscending(s: seq<string>) {
    forall i, j :: 0 <= i < j < |s| ==> Less(s[i], s[j])
  }

  /** Insertion into an ascending list of distinct strings. */
  function Insert(s: seq<string>, x: string): seq<string> {
    if s == [] || Less(x, s[0]) then [x] + s else [s[0]] + Insert(s[1..], x)
  }

  function Sort(s: seq<string>): seq<string> {
    if s == [] then [] else Insert(Sort(s[1..]), s[0])
  }

  lemma {:induction false} InsertAscends(s: seq<string>, x: string)
    requires StrictlyAscending(s) && x !in s
    ensures StrictlyAscending(Insert(s, x))
    ensures forall y :: y in Insert(s, x) <==> y == x || y in s
  {
    if s == [] {
    } else if Less(x, s[0]) {
      forall i | 0 < i < |s|
        ensures Less(x, s[i])
      {
        LessTransitive(x, s[0], s[i]);
      }
    } else {
      LessTotal(x, s[0]);
      InsertAscends(s[1..], x);
      assert s == [s[0]] + s[1..];
      forall y | y in Insert(s[1..], x)
        ensures Less(s[0], y)
      {
        if y != x {
          var i :| 0 <= i < |s[1..]| && s[1..][i] == y;
          assert s[1..][i] == s[i + 1];
        }
      }
    }
  }

  ghost predicate Distinct<T(!new)>(s: seq<T>) {
    forall i, j :: 0 <= i < j < |s| ==> s[i] != s[j]
  }

  lemma {:induction false} SortAscends(s: seq<string>)
    requires Distinct(s)
    ensures StrictlyAscending(Sort(s))
    ensures forall y :: y in Sort(s) <==> y in s
  {
    if s != [] {
      SortAscends(s[1..]);
      assert s == [s[0]] + s[1..];
      assert s[0] !in s[1..];
      InsertAscends(Sort(s[1..]), s[0]);
    }
  }

  /** Strictly ascending lists with the same elements are the same list. */
  lemma {:induction false} AscendingUnique(a: seq<string>, b: seq<string>)
    requires StrictlyAscending(a) && StrictlyAscending(b)
    requires forall y :: y in a <==> y in b
    ensures a == b
  {
    if a == [] {
      NonEmptyHasElement(b);
    } else {
      assert a[0] in b && b[0] in a;
      HeadIsLeast(a, b[0]);
      HeadIsLeast(b, a[0]);
      LessTotal(a[0], b[0]);
      assert a == [a[0]] + a[1..] && b == [b[0]] + b[1..];
      TailWithoutHead(a);
      TailWithoutHead(b);
      AscendingUnique(a[1..], b[1..]);
    }
  }

  lemma NonEmptyHasElement(b: seq<string>)
    ensures b != [] ==> exists y :: y in b
  {
    if b != [] {
      assert b[0] in b;
    }
  }

  lemma HeadIsLeast(a: seq<string>, y: string)
    requires StrictlyAscending(a) && y in a
    ensures y == a[0] || Less(a[0], y)
  {
  }

  lemma TailWithoutHead(a: seq<string>)
    requires StrictlyAscending(a) && a != []
    ensures forall y :: y in a[1..] <==> y in a && y != a[0]
  {
    LessTotal(a[0], a[0]);
    assert a == [a[0]] + a[1..];
    forall y | y in a[1..]
      ensures y != a[0]
    {
      var i :| 0 <= i < |a[1..]| && a[1..][i] == y;
      assert Less(a[0], a[i + 1]);
    }
  }

  // ---- The report ----

  /** The rendered places of one merge, in ascending order. */
  ghost predicate IsReport(base: Json, overlay: Json, report: seq<string>) {
    && StrictlyAscending(report)
    && forall s :: s in report <==> exists p :: Reported(base, overlay, p) && Render(p) == s
  }

  /** The report does not depend on the order in which the keys were visited. */
  lemma ReportIsUnique(base: Json, overlay: Json, a: seq<string>, b: seq<string>)
    requires IsReport(base, overlay, a) && IsReport(base, overlay, b)
    ensures a == b
  {
    AscendingUnique(a, b);
  }

  ghost predicate Enumerates(places: seq<Path>, base: Json, overlay: Json) {
    Distinct(places) && forall p :: p in places <==> Reported(base, overlay, p)
  }

  function RenderAll(at: Path, places: seq<Path>): (r: seq<string>)
    ensures |r| == |places|
    ensures forall i :: 0 <= i < |places| ==> r[i] == Render(at + places[i])
  {
    seq(|places|, i requires 0 <= i < |places| => Render(at + places[i]))
  }

  function Under(k: string, places: seq<Path>): (r: seq<Path>)
    ensures |r| == |places|
    ensures forall i :: 0 <= i < |places| ==> r[i] == [k] + places[i]
  {
    seq(|places|, i requires 0 <= i < |places| => [k] + places[i])
  }

  lemma RenderUnder(at: Path, k: string, places: seq<Path>)
    ensures RenderAll(at + [k], places) == RenderAll(at, Under(k, places))
  {
    forall i | 0 <= i < |places|
      ensures (at + [k]) + places[i] == at + ([k] + places[i])
    {
    }
  }

  /** Pushing the paths found under one key renders the longer list of places. */
  lemma RenderMore(start: seq<string>, at: Path, key: string, places: seq<Path>, more: seq<Path>)
    ensures start + RenderAll(at, places) + RenderAll(at + [key], more)
         == start + RenderAll(at, places + Under(key, more))
  {
    RenderUnder(at, key, more);
    assert RenderAll(at, places + Under(key, more)) == RenderAll(at, places) + RenderAll(at, Under(key, more));
    AppendAssoc(start, RenderAll(at, places), RenderAll(at, Under(key, more)));
  }

  lemma UnderMembers(k: string, places: seq<Path>, p: Path)
    ensures p in Under(k, places) <==> p != [] && p[0] == k && p[1..] in places
  {
    if p in Under(k, places) {
      var i :| 0 <= i < |places| && Under(k, places)[i] == p;
      assert p[1..] == places[i];
    }
    if p != [] && p[0] == k && p[1..] in places {
      var i :| 0 <= i < |places| && places[i] == p[1..];
      assert Under(k, places)[i] == p;
    }
  }

  // ---- The merge as it runs ----

  /** The list of changed paths that the recursion pushes onto. */
  class ChangeList {
    var paths: seq<string>

    constructor ()
      ensures paths == []
    {
      paths := [];
    }

    method Push(path: string)
      modifies this
      ensures paths == old(paths) + [path]
    {
      paths := paths + [path];
    }
  }

  method MergeValue(base: Json, overlay: Json, path: string, ghost at: Path, changed: ChangeList)
      returns (merged: Json, ghost places: seq<Path>)
    requires path == Pointer(at)
    modifies changed
    ensures merged == Merged(base, overlay)
    ensures Enumerates(places, base, overlay)
    ensures changed.paths == old(changed.paths) + RenderAll(at, places)
    decreases overlay, 1
  {
    if base.Obj? && overlay.Obj? {
      var fields;
      fields, places := MergeObject(base.fields, overlay.fields, path, at, changed);
      merged := Obj(fields);
    } else if base != overlay {
      merged, places := overlay, [[]];
      changed.Push(JsonPointerPath(path));
      assert at + [] == at;
    } else {
      merged, places := base, [];
    }
  }

  /** Merges one overlay entry into the slot of its key, or adds it. */
  method MergeEntry(base: map<string, Json>, key: string, overlay: Json, path: string, ghost at: Path,
                    changed: ChangeList)
      returns (value: Json, ghost places: seq<Path>)
    requires path == Pointer(at) && at != []
    modifies changed
    ensures value == if key in base then Merged(base[key], overlay) else overlay
    ensures Distinct(places)
    ensures forall p :: p in places <==> if key in base then Reported(base[key], overlay, p) else p == []
    ensures changed.paths == old(changed.paths) + RenderAll(at, places)
    decreases overlay, 2
  {
    if key in base {
      value, places := MergeValue(base[key], overlay, path, at, changed);
    } else {
      value, places := overlay, [[]];
      changed.Push(path);
      PointerEmptyIff(at);
      assert at + [] == at;
      assert RenderAll(at, places) == [path];
    }
  }

  method MergeObject(base: map<string, Json>, overlay: map<string, Json>, parent: string, ghost at: Path,
                     changed: ChangeList)
      returns (merged: map<string, Json>, ghost places: seq<Path>)
    requires parent == Pointer(at)
    modifies changed
    ensures Obj(merged) == Merged(Obj(base), Obj(overlay))
    ensures Enumerates(places, Obj(base), Obj(overlay))
    ensures changed.paths == old(changed.paths) + RenderAll(at, places)
    decreases Obj(overlay), 0
  {
    ghost var start := changed.paths;
    merged, places := base, [];
    var todo := overlay.Keys;
    NoFieldsDone(base, overlay);
    while todo != {}
      invariant todo <= overlay.Keys
      invariant FieldsSoFar(base, overlay, todo, merged)
      invariant PlacesSoFar(base, overlay, todo, places)
      invariant changed.paths == start + RenderAll(at, places)
      decreases |todo|
    {
      var key :| key in todo;
      FieldDone(base, overlay, todo, merged, key);
      var child := PushPath(parent, key);
      assert child == Pointer(at + [key]) by {
        assert (at + [key])[..|at|] == at;
      }
      var value;
      ghost var more;
      value, more := MergeEntry(merged, key, overlay[key], child, at + [key], changed);
      merged := merged[key := value];
      AddPlaces(base, overlay, todo, key, places, more);
      RenderMore(start, at, key, places, more);
      places := places + Under(key, more);
      todo := todo - {key};
    }
    AllFieldsDone(base, overlay, merged, places);
  }

  /** The places of a merge under the keys that are not to do any more. */
  ghost predicate PlacesSoFar(base: map<string, Json>, overlay: map<string, Json>, todo: set<string>,
                              places: seq<Path>) {
    && Distinct(places)
    && forall p :: p in places <==> Reported(Obj(base), Obj(overlay), p) && p[0] !in todo
  }

  lemma NoFieldsDone(base: map<string, Json>, overlay: map<string, Json>)
    ensures FieldsSoFar(base, overlay, overlay.Keys, base)
    ensures PlacesSoFar(base, overlay, overlay.Keys, [])
  {
  }

  lemma AllFieldsDone(base: map<string, Json>, overlay: map<string, Json>, merged: map<string, Json>, places: seq<Path>)
    requires FieldsSoFar(base, overlay, {}, merged)
    requires PlacesSoFar(base, overlay, {}, places)
    ensures Obj(merged) == Merged(Obj(base), Obj(overlay))
    ensures Enumerates(places, Obj(base), Obj(overlay))
  {
    assert merged == Merged(Obj(base), Obj(overlay)).fields;
  }

  /** The fields of a merge that still has some overlay keys to do. */
  ghost predicate FieldsSoFar(base: map<string, Json>, overlay: map<string, Json>, todo: set<string>,
                              merged: map<string, Json>) {
    && merged.Keys == base.Keys + (overlay.Keys - todo)
    && forall k :: k in merged ==>
         merged[k] == if k in todo then base[k] else Merged(Obj(base), Obj(overlay)).fields[k]
  }

  lemma FieldDone(base: map<string, Json>, overlay: map<string, Json>, todo: set<string>, merged: map<string, Json>,
                  key: string)
    requires FieldsSoFar(base, overlay, todo, merged) && key in todo && todo <= overlay.Keys
    ensures key in merged <==> key in base
    ensures key in base ==> merged[key] == base[key]
    ensures var value := if key in base then Merged(base[key], overlay[key]) else overlay[key];
      FieldsSoFar(base, overlay, todo - {key}, merged[key := value])
  {
  }

  /** The places under one more key join those under the keys before it. */
  lemma AddPlaces(base: map<string, Json>, overlay: map<string, Json>, todo: set<string>, key: string,
                  places: seq<Path>, more: seq<Path>)
    requires key in todo && key in overlay
    requires PlacesSoFar(base, overlay, todo, places) && Distinct(more)
    requires forall p :: p in more <==> if key in base then Reported(base[key], overlay[key], p) else p == []
    ensures PlacesSoFar(base, overlay, todo - {key}, places + Under(key, more))
  {
    forall p: Path
      ensures p in Under(key, more) <==> p != [] && p[0] == key && p[1..] in more
    {
      UnderMembers(key, more, p);
    }
    forall i, j | 0 <= i < j < |more|
      ensures Under(key, more)[i] != Under(key, more)[j]
    {
      assert ([key] + more[i])[1..] == more[i] && ([key] + more[j])[1..] == more[j];
    }
    forall i, j | 0 <= i < |places| && 0 <= j < |more|
      ensures places[i] != Under(key, more)[j]
    {
      assert places[i] in places && Under(key, more)[j] in Under(key, more);
    }
  }

  /** Places enumerated without repetition render to a list without repetition. */
  lemma RenderedDistinct(base: Json, overlay: Json, places: seq<Path>)
    requires Enumerates(places, base, overlay)
    ensures Distinct(RenderAll([], places))
    ensures forall s :: s in RenderAll([], places) <==> exists p :: Reported(base, overlay, p) && Render(p) == s
  {
    var r := RenderAll([], places);
    forall i | 0 <= i < |places|
      ensures r[i] == Render(places[i])
    {
      assert [] + places[i] == places[i];
    }
    forall i, j | 0 <= i < j < |places|
      ensures r[i] != r[j]
    {
      var p, q := places[i], places[j];
      RenderClash(p, q);
      assert p in places && q in places;
      if p <= q {
        ReportsArePrefixFree(base, overlay, p, q);
      } else if q <= p {
        ReportsArePrefixFree(base, overlay, q, p);
      }
    }
    forall p | Reported(base, overlay, p)
      ensures Render(p) in r
    {
      var i :| 0 <= i < |places| && places[i] == p;
      assert r[i] == Render(p);
    }
    forall s | s in r
      ensures exists p :: Reported(base, overlay, p) && Render(p) == s
    {
      var i :| 0 <= i < |r| && r[i] == s;
      assert places[i] in places;
    }
  }

  method MergeConfigValuesInPlace(base: Json, overlay: Json) returns (merged: Json, changedPaths: seq<string>)
    ensures merged == Merged(base, overlay)
    ensures IsReport(base, overlay, changedPaths)
  {
    var changed := new ChangeList();
    ghost var places;
    merged, places := MergeValue(base, overlay, "", [], changed);
    RenderedDistinct(base, overlay, places);
    SortAscends(changed.paths);
    changedPaths := Sort(changed.paths);
  }

  datatype Layer = Layer(name: string, value: Json)

  datatype MergeStep = MergeStep(layerName: string, changedPaths: seq<string>)

  function Values(layers: seq<Layer>): (r: seq<Json>)
    ensures |r| == |layers|
    ensures forall i :: 0 <= i < |layers| ==> r[i] == layers[i].value
  {
    seq(|layers|, i requires 0 <= i < |layers| => layers[i].value)
  }

  /** The step names its layer and reports what the layer changed in the value before it. */
  ghost predicate IsStep(values: seq<Json>, i: nat, layer: Layer, step: MergeStep) {
    && i < |values|
    && step.layerName == layer.name
    && IsReport(Layered(values[..i]), values[i], step.changedPaths)
  }

  lemma LayeredGrows(values: seq<Json>, i: nat)
    requires i < |values|
    ensures Layered(values[..i + 1]) == Merged(Layered(values[..i]), values[i])
  {
    assert values[..i + 1][..i] == values[..i];
  }

  /** Folds the layers onto the empty object, with one step a layer. */
  method MergeConfigLayers(layers: seq<Layer>) returns (merged: Json, steps: seq<MergeStep>)
    ensures merged == Layered(Values(layers))
    ensures |steps| == |layers|
    ensures forall i :: 0 <= i < |layers| ==> IsStep(Values(layers), i, layers[i], steps[i])
  {
    ghost var values := Values(layers);
    merged, steps := Obj(map[]), [];
    for i := 0 to |layers|
      invariant merged == Layered(values[..i])
      invariant |steps| == i
      invariant forall j :: 0 <= j < i ==> IsStep(values, j, layers[j], steps[j])
    {
      var changedPaths;
      LayeredGrows(values, i);
      merged, changedPaths := MergeConfigValuesInPlace(merged, layers[i].value);
      steps := steps + [MergeStep(layers[i].name, changedPaths)];
    }
    assert values[..|layers|] == values;
  }
}
