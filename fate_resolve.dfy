/**
 * What `createResolver(...).resolve` does with a view and a selection:
 * assumed library behaviour, partly pinned by the resolver tests
 * (tests/fate/fate-resolve.test.ts). The resolver belongs to an external
 * library, so this is a specification of the behaviour the router relies
 * on, not a model of its code: every selected
 * field of the view is kept, a nested view keeps its selected sub-fields, and
 * a list becomes a connection whose nodes keep the selected sub-fields of
 * each element. The cursor of an item and the pagination block are
 * the library's choice and are parameters here.
 */
module FateResolve {
  import opened FateViews
  import opened FateUtils

  /** The selection paths below `name`, with the leading `name.` removed, in order. */
  function Children(name: string, select: seq<string>): (r: seq<string>)
    ensures |r| <= |select|
    ensures forall c :: c in r <==>
      exists p :: p in select && StartsWith(p, name + ".") && c == p[|name| + 1..]
  {
    if select == [] then []
    else
      var rest := Children(name, select[1..]);
      assert forall p :: p in select <==> p == select[0] || p in select[1..];
      if StartsWith(select[0], name + ".") then [select[0][|name| + 1..]] + rest else rest
  }

  /** A field is selected by its bare name or by any dotted path rooted at it. */
  predicate Selected(name: string, select: seq<string>) {
    name in select || Children(name, select) != []
  }

  /**
   * The selection applied inside a selected container: its dotted children,
   * or, when only the bare name was selected, every path of the sub-view.
   */
  function SubSelection(sub: View, name: string, select: seq<string>): seq<string> {
    var children := Children(name, select);
    if children == [] then SelectPaths(sub, "") else children
  }

  /** The projection of the first `n` fields of `view` from an object's properties. */
  function ProjectFields(view: View, select: seq<string>, props: map<string, Value>, n: nat,
                         cursorOf: Value -> string, pagination: Pagination): map<string, Value>
    requires n <= |view.fields|
    decreases view, n
  {
    if n == 0 then map[]
    else
      var rest := ProjectFields(view, select, props, n - 1, cursorOf, pagination);
      var field := view.fields[n - 1];
      if Selected(field.name, select) && field.name in props then
        var value := props[field.name];
        rest[field.name :=
          match field.config
          case Leaf => value
          case Nested(sub) =>
            if value.Obj? then
              Obj(ProjectFields(sub, SubSelection(sub, field.name, select), value.props, |sub.fields|,
                                cursorOf, pagination))
            else value
          case ListOf(sub) =>
            if value.Arr? then
              var subSelect := SubSelection(sub, field.name, select);
              Connection(seq(|value.elems|, j requires 0 <= j < |value.elems| =>
                var e := value.elems[j];
                Edge(cursorOf(e),
                     if e.Obj? then Obj(ProjectFields(sub, subSelect, e.props, |sub.fields|, cursorOf, pagination))
                     else e)),
                pagination)
            else value]
      else rest
  }

  /** The projection of one list element: an object keeps its selected fields. */
  function ProjectElement(sub: View, subSelect: seq<string>, e: Value,
                          cursorOf: Value -> string, pagination: Pagination): Value {
    if e.Obj? then Obj(ProjectFields(sub, subSelect, e.props, |sub.fields|, cursorOf, pagination)) else e
  }

  /** `resolve(data)` for the selection the resolver was created with. */
  function Resolve(view: View, select: seq<string>, data: map<string, Value>,
                   cursorOf: Value -> string, pagination: Pagination): Value {
    Obj(ProjectFields(view, select, data, |view.fields|, cursorOf, pagination))
  }

  // ---------------------------------------------------------------------
  // Properties

  /** The keys of a projection: the selected fields the data has. */
  lemma {:induction false} ProjectedKeys(view: View, select: seq<string>, props: map<string, Value>, n: nat,
                                         cursorOf: Value -> string, pagination: Pagination)
    requires n <= |view.fields|
    ensures forall k :: k in ProjectFields(view, select, props, n, cursorOf, pagination) <==>
      exists i :: 0 <= i < n && view.fields[i].name == k && Selected(k, select) && k in props
  {
    if n > 0 {
      ProjectedKeys(view, select, props, n - 1, cursorOf, pagination);
    }
  }

  /** An empty selection yields an object with no field. */
  lemma EmptySelectionResolvesNothing(view: View, data: map<string, Value>,
                                      cursorOf: Value -> string, pagination: Pagination)
    ensures Resolve(view, [], data, cursorOf, pagination) == Obj(map[])
  {
    var r := ProjectFields(view, [], data, |view.fields|, cursorOf, pagination);
    ProjectedKeys(view, [], data, |view.fields|, cursorOf, pagination);
    assert forall k :: k !in r;
  }

  /** The value a projection holds for field `i`, when the names are distinct. */
  lemma {:induction false} ProjectedAt(view: View, select: seq<string>, props: map<string, Value>, n: nat, i: nat,
                                       cursorOf: Value -> string, pagination: Pagination)
    requires DistinctNames(view) && i < n <= |view.fields|
    requires Selected(view.fields[i].name, select) && view.fields[i].name in props
    ensures view.fields[i].name in ProjectFields(view, select, props, n, cursorOf, pagination)
    ensures ProjectFields(view, select, props, n, cursorOf, pagination)[view.fields[i].name]
         == ProjectFields(view, select, props, i + 1, cursorOf, pagination)[view.fields[i].name]
    decreases n
  {
    if n > i + 1 {
      ProjectedAt(view, select, props, n - 1, i, cursorOf, pagination);
    }
  }

  /**
   * A selected list field becomes a connection with one item per element,
   * in order, whose node is the element's projection; unwrapping it gives
   * back exactly those projections.
   */
  lemma ResolvedList(view: View, select: seq<string>, data: map<string, Value>, i: nat,
                     cursorOf: Value -> string, pagination: Pagination)
    requires DistinctNames(view) && i < |view.fields| && view.fields[i].config.ListOf?
    requires Selected(view.fields[i].name, select)
    requires view.fields[i].name in data && data[view.fields[i].name].Arr?
    ensures var name := view.fields[i].name;
      var sub := view.fields[i].config.element;
      var elems := data[name].elems;
      var r := Resolve(view, select, data, cursorOf, pagination).props;
      && name in r && r[name].Connection?
      && |r[name].items| == |elems|
      && (forall j :: 0 <= j < |elems| ==>
            r[name].items[j] == Edge(cursorOf(elems[j]),
                                     ProjectElement(sub, SubSelection(sub, name, select), elems[j], cursorOf, pagination)))
      && UnwrapConnection(r[name]) == Arr(seq(|elems|, j requires 0 <= j < |elems| =>
            ProjectElement(sub, SubSelection(sub, name, select), elems[j], cursorOf, pagination)))
  {
    ProjectedAt(view, select, data, |view.fields|, i, cursorOf, pagination);
  }

  /** A path that names no field of the view is silently ignored. */
  lemma UnknownPathIgnored(view: View, select: seq<string>, p: string, data: map<string, Value>,
                           cursorOf: Value -> string, pagination: Pagination)
    requires forall i :: 0 <= i < |view.fields| ==>
      p != view.fields[i].name && !StartsWith(p, view.fields[i].name + ".")
    ensures Resolve(view, select + [p], data, cursorOf, pagination) == Resolve(view, select, data, cursorOf, pagination)
  {
    UnknownPathIgnoredUpTo(view, select, p, data, |view.fields|, cursorOf, pagination);
  }

  lemma {:induction false} UnknownPathIgnoredUpTo(view: View, select: seq<string>, p: string, props: map<string, Value>, n: nat,
                                                  cursorOf: Value -> string, pagination: Pagination)
    requires n <= |view.fields|
    requires forall i :: 0 <= i < |view.fields| ==>
      p != view.fields[i].name && !StartsWith(p, view.fields[i].name + ".")
    ensures ProjectFields(view, select + [p], props, n, cursorOf, pagination)
         == ProjectFields(view, select, props, n, cursorOf, pagination)
  {
    if n > 0 {
      UnknownPathIgnoredUpTo(view, select, p, props, n - 1, cursorOf, pagination);
      var name := view.fields[n - 1].name;
      ChildrenAppendUnrelated(name, select, p);
      assert name in select + [p] <==> name in select;
    }
  }

  lemma {:induction false} ChildrenAppendUnrelated(name: string, select: seq<string>, p: string)
    requires !StartsWith(p, name + ".")
    ensures Children(name, select + [p]) == Children(name, select)
  {
    if select == [] {
      assert Children(name, [p][1..]) == [];
    } else {
      assert (select + [p])[1..] == select[1..] + [p];
      ChildrenAppendUnrelated(name, select[1..], p);
    }
  }

  /**
   * A view of leaves whose every field is selected projects an object with
   * exactly the view's keys to itself.
   */
  lemma {:induction false} LeafViewFullProjection(view: View, select: seq<string>, props: map<string, Value>, n: nat,
                                                  cursorOf: Value -> string, pagination: Pagination)
    requires n <= |view.fields| && LeavesOnly(view)
    requires forall i :: 0 <= i < |view.fields| ==> Selected(view.fields[i].name, select)
    ensures ProjectFields(view, select, props, n, cursorOf, pagination)
         == map k | k in props && k in FieldNames(view.fields[..n]) :: props[k]
  {
    if n > 0 {
      LeafViewFullProjection(view, select, props, n - 1, cursorOf, pagination);
      assert view.fields[..n] == view.fields[..n - 1] + [view.fields[n - 1]];
    }
  }

  /** With only the bare name of a leaf view selected, every one of its fields is selected. */
  lemma BareNameSelectsAll(sub: View, name: string, select: seq<string>)
    requires LeavesOnly(sub)
    requires Children(name, select) == []
    ensures forall i :: 0 <= i < |sub.fields| ==> Selected(sub.fields[i].name, SubSelection(sub, name, select))
  {
    LeafViewPaths(sub, "", 0);
    assert sub.fields[0..] == sub.fields;
    var all := SubSelection(sub, name, select);
    forall i | 0 <= i < |sub.fields|
      ensures sub.fields[i].name in all
    {
      assert all[i] == JoinPath("", sub.fields[i].name);
    }
  }

  // ---------------------------------------------------------------------
  // Selections of the readiness view

  /** The properties of `props` whose key is one of `names`. */
  function Restrict(props: map<string, Value>, names: seq<string>): (r: map<string, Value>)
    ensures forall k :: k in r <==> k in props && k in names
    ensures forall k :: k in r ==> r[k] == props[k]
  {
    map k | k in props && k in names :: props[k]
  }

  lemma {:induction false} ChildrenAppend(name: string, a: seq<string>, b: seq<string>)
    ensures Children(name, a + b) == Children(name, a) + Children(name, b)
  {
    if a == [] {
      assert a + b == b;
    } else {
      assert (a + b)[0] == a[0];
      assert (a + b)[1..] == a[1..] + b;
      ChildrenAppend(name, a[1..], b);
    }
  }

  /** The paths generated under `name` have exactly the generating names as children of `name`. */
  lemma {:induction false} ChildrenOfPrefixed(name: string, xs: seq<string>)
    requires name != ""
    ensures Children(name, Prefixed(name, xs)) == xs
  {
    if xs != [] {
      var ps := Prefixed(name, xs);
      assert ps[1..] == Prefixed(name, xs[1..]);
      ChildrenOfPrefixed(name, xs[1..]);
      var p := ps[0];
      assert p == (name + ".") + xs[0];
      assert p[..|name + "."|] == name + ".";
      assert p[|name| + 1..] == xs[0];
    }
  }

  /** Paths generated under a name with another first letter are no children of `name`. */
  lemma {:induction false} ChildrenOfOtherPrefix(name: string, other: string, xs: seq<string>)
    requires name != "" && other != "" && name[0] != other[0]
    ensures Children(name, Prefixed(other, xs)) == []
  {
    if xs != [] {
      var ps := Prefixed(other, xs);
      assert ps[1..] == Prefixed(other, xs[1..]);
      ChildrenOfOtherPrefix(name, other, xs[1..]);
      assert ps[0][0] == other[0];
      assert (name + ".")[0] == name[0];
    }
  }

  /**
   * When both readiness fields are selected and every sub-field of each is
   * selected, `acwr` comes back with the ACWR fields the data has and every
   * wellness element with the metric fields it has, one item per element.
   */
  lemma ReadinessFullyResolved(select: seq<string>, data: map<string, Value>,
                               cursorOf: Value -> string, pagination: Pagination)
    requires "acwr" in data && data["acwr"].Obj?
    requires "wellnessHistory" in data && data["wellnessHistory"].Arr?
    requires Selected("acwr", select) && Selected("wellnessHistory", select)
    requires forall i :: 0 <= i < |ACWRView.fields| ==>
      Selected(ACWRView.fields[i].name, SubSelection(ACWRView, "acwr", select))
    requires forall i :: 0 <= i < |WellnessMetricView.fields| ==>
      Selected(WellnessMetricView.fields[i].name, SubSelection(WellnessMetricView, "wellnessHistory", select))
    ensures var r := Resolve(ReadinessView, select, data, cursorOf, pagination).props;
      var elems := data["wellnessHistory"].elems;
      && r.Keys == {"acwr", "wellnessHistory"}
      && r["acwr"] == Obj(Restrict(data["acwr"].props, FieldNames(ACWRView.fields)))
      && r["wellnessHistory"].Connection?
      && r["wellnessHistory"].pagination == pagination
      && |r["wellnessHistory"].items| == |elems|
      && (forall j :: 0 <= j < |elems| ==> r["wellnessHistory"].items[j].cursor == cursorOf(elems[j]))
      && forall j :: 0 <= j < |elems| && elems[j].Obj? ==>
           r["wellnessHistory"].items[j].node
             == Obj(Restrict(elems[j].props, FieldNames(WellnessMetricView.fields)))
  {
    ReadinessViewShape();
    ACWRViewShape();
    WellnessMetricViewShape();
    var r := Resolve(ReadinessView, select, data, cursorOf, pagination).props;
    ProjectedKeys(ReadinessView, select, data, 2, cursorOf, pagination);
    assert r.Keys == {"acwr", "wellnessHistory"};
    ProjectedAt(ReadinessView, select, data, 2, 0, cursorOf, pagination);
    var acwrSelect := SubSelection(ACWRView, "acwr", select);
    LeafViewFullProjection(ACWRView, acwrSelect, data["acwr"].props, 4, cursorOf, pagination);
    assert ACWRView.fields[..4] == ACWRView.fields;
    ResolvedList(ReadinessView, select, data, 1, cursorOf, pagination);
    var wSelect := SubSelection(WellnessMetricView, "wellnessHistory", select);
    var elems := data["wellnessHistory"].elems;
    assert WellnessMetricView.fields[..5] == WellnessMetricView.fields;
    forall j | 0 <= j < |elems| && elems[j].Obj?
      ensures r["wellnessHistory"].items[j].node
           == Obj(Restrict(elems[j].props, FieldNames(WellnessMetricView.fields)))
    {
      LeafViewFullProjection(WellnessMetricView, wSelect, elems[j].props, 5, cursorOf, pagination);
    }
  }

  /** The router's default selection, `['acwr', 'wellnessHistory']`, keeps every field. */
  lemma DefaultSelectionKeepsAll()
    ensures Selected("acwr", ["acwr", "wellnessHistory"])
    ensures Selected("wellnessHistory", ["acwr", "wellnessHistory"])
    ensures forall i :: 0 <= i < |ACWRView.fields| ==>
      Selected(ACWRView.fields[i].name, SubSelection(ACWRView, "acwr", ["acwr", "wellnessHistory"]))
    ensures forall i :: 0 <= i < |WellnessMetricView.fields| ==>
      Selected(WellnessMetricView.fields[i].name,
               SubSelection(WellnessMetricView, "wellnessHistory", ["acwr", "wellnessHistory"]))
  {
    var select := ["acwr", "wellnessHistory"];
    assert !StartsWith("wellnessHistory", "acwr.") by {
      assert "wellnessHistory"[0] != ("acwr.")[0];
    }
    assert Children("acwr", select[1..][1..]) == [];
    assert Children("acwr", select) == [];
    assert !StartsWith("acwr", "wellnessHistory.");
    assert Children("wellnessHistory", select[1..][1..]) == [];
    assert Children("wellnessHistory", select) == [];
    ACWRViewShape();
    WellnessMetricViewShape();
    BareNameSelectsAll(ACWRView, "acwr", select);
    BareNameSelectsAll(WellnessMetricView, "wellnessHistory", select);
  }

  /** The paths `generateSelectPaths(ReadinessView)` produces keep every field too. */
  lemma GeneratedSelectionKeepsAll()
    ensures var select := SelectPaths(ReadinessView, "");
      && Selected("acwr", select) && Selected("wellnessHistory", select)
      && SubSelection(ACWRView, "acwr", select) == FieldNames(ACWRView.fields)
      && SubSelection(WellnessMetricView, "wellnessHistory", select) == FieldNames(WellnessMetricView.fields)
  {
    ACWRViewShape();
    WellnessMetricViewShape();
    var acwrPaths := Prefixed("acwr", FieldNames(ACWRView.fields));
    var wPaths := Prefixed("wellnessHistory", FieldNames(WellnessMetricView.fields));
    LeafViewPaths(ACWRView, "acwr", 0);
    LeafViewPaths(WellnessMetricView, "wellnessHistory", 0);
    assert ACWRView.fields[0..] == ACWRView.fields;
    assert WellnessMetricView.fields[0..] == WellnessMetricView.fields;
    assert PathsFrom(ReadinessView, "", 2) == [];
    assert PathsFrom(ReadinessView, "", 1) == wPaths;
    var select := SelectPaths(ReadinessView, "");
    assert select == acwrPaths + wPaths;
    ChildrenAppend("acwr", acwrPaths, wPaths);
    ChildrenAppend("wellnessHistory", acwrPaths, wPaths);
    ChildrenOfPrefixed("acwr", FieldNames(ACWRView.fields));
    ChildrenOfPrefixed("wellnessHistory", FieldNames(WellnessMetricView.fields));
    ChildrenOfOtherPrefix("acwr", "wellnessHistory", FieldNames(WellnessMetricView.fields));
    ChildrenOfOtherPrefix("wellnessHistory", "acwr", FieldNames(ACWRView.fields));
  }

  /**
   * Selecting only `wellnessHistory.id` leaves `acwr` out and keeps just the
   * `id` of every wellness element.
   */
  lemma OnlyIdSelected(data: map<string, Value>, cursorOf: Value -> string, pagination: Pagination)
    requires "wellnessHistory" in data && data["wellnessHistory"].Arr?
    ensures var r := Resolve(ReadinessView, ["wellnessHistory.id"], data, cursorOf, pagination).props;
      var elems := data["wellnessHistory"].elems;
      && r.Keys == {"wellnessHistory"}
      && r["wellnessHistory"].Connection?
      && |r["wellnessHistory"].items| == |elems|
      && forall j :: 0 <= j < |elems| && elems[j].Obj? ==>
           r["wellnessHistory"].items[j].node == Obj(Restrict(elems[j].props, ["id"]))
  {
    var select := ["wellnessHistory.id"];
    ReadinessViewShape();
    WellnessMetricViewShape();
    assert !StartsWith("wellnessHistory.id", "acwr.") by {
      assert "wellnessHistory.id"[0] != ("acwr.")[0];
    }
    assert Children("acwr", select) == [];
    assert !Selected("acwr", select);
    assert StartsWith("wellnessHistory.id", "wellnessHistory.") by {
      assert ("wellnessHistory" + ".") + "id" == "wellnessHistory.id";
    }
    assert "wellnessHistory.id"[|"wellnessHistory"| + 1..] == "id" by {
      assert ("wellnessHistory" + ".") + "id" == "wellnessHistory.id";
    }
    assert Children("wellnessHistory", select) == ["id"];
    var r := Resolve(ReadinessView, select, data, cursorOf, pagination).props;
    ProjectedKeys(ReadinessView, select, data, 2, cursorOf, pagination);
    assert r.Keys == {"wellnessHistory"};
    ResolvedList(ReadinessView, select, data, 1, cursorOf, pagination);
    var elems := data["wellnessHistory"].elems;
    forall j | 0 <= j < |elems| && elems[j].Obj?
      ensures r["wellnessHistory"].items[j].node == Obj(Restrict(elems[j].props, ["id"]))
    {
      OnlyIdProjection(elems[j].props, cursorOf, pagination);
    }
  }

  lemma OnlyIdProjection(props: map<string, Value>, cursorOf: Value -> string, pagination: Pagination)
    ensures ProjectFields(WellnessMetricView, ["id"], props, 5, cursorOf, pagination) == Restrict(props, ["id"])
  {
    var fs := WellnessMetricView.fields;
    forall i | 1 <= i < 5
      ensures !Selected(fs[i].name, ["id"])
    {
      assert Children(fs[i].name, ["id"][1..]) == [];
    }
    assert Children("id", ["id"][1..]) == [];
    var r := ProjectFields(WellnessMetricView, ["id"], props, 5, cursorOf, pagination);
    ProjectedKeys(WellnessMetricView, ["id"], props, 5, cursorOf, pagination);
    assert Selected("id", ["id"]);
    if "id" in props {
      WellnessMetricViewShape();
      ProjectedAt(WellnessMetricView, ["id"], props, 5, 0, cursorOf, pagination);
    }
  }
}
