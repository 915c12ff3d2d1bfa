/**
 * Selection paths and connection unwrapping (src/fate/utils.ts), over a
 * model of the JavaScript values the resolver produces. A connection is its
 * own constructor: a value has an `items` key exactly when it is one.
 */
module FateUtils {
  import opened Wrappers
  import opened Calendar
  import opened FateViews

  datatype Pagination = Pagination(
    hasNext: bool,
    hasPrevious: bool,
    nextCursor: Option<string>,
    previousCursor: Option<string>)

  datatype Edge = Edge(cursor: string, node: Value)

  /** A JSON-like value; a date is carried as its day ordinal. */
  datatype Value =
    | Undefined
    | Null
    | Bool(b: bool)
    | Num(n: real)
    | Str(s: string)
    | Date(day: Day)
    | Arr(elems: seq<Value>)
    | Obj(props: map<string, Value>)
    | Connection(items: seq<Edge>, pagination: Pagination)

  /** JavaScript truthiness. A date string is never empty. */
  predicate Truthy(v: Value) {
    match v
    case Undefined => false
    case Null => false
    case Bool(b) => b
    case Num(n) => n != 0.0
    case Str(s) => s != ""
    case _ => true
  }

  /** `typeof v === 'object'`, which holds of null too. */
  predicate IsObject(v: Value) {
    v.Null? || v.Arr? || v.Obj? || v.Connection?
  }

  /** `'items' in v`. */
  predicate HasItems(v: Value) {
    v.Connection?
  }

  // ---------------------------------------------------------------------
  // generateSelectPaths

  /** `prefix ? prefix.field : field`. */
  function JoinPath(prefix: string, field: string): (path: string)
    ensures prefix == "" ==> path == field
    ensures prefix != "" ==> path == prefix + "." + field
  {
    if prefix == "" then field else prefix + "." + field
  }

  /**
   * The paths emitted for fields i.. of `view` under `prefix`: a leaf gives
   * its own path, a field with `fields` (nested view or list) is recursed
   * into with its path as the prefix. A list field counts as having
   * `fields`: `list(view)` is taken to expose its element view's fields.
   */
  function PathsFrom(view: View, prefix: string, i: nat): seq<string>
    requires i <= |view.fields|
    decreases view, |view.fields| - i
  {
    if i == |view.fields| then []
    else
      var field := view.fields[i];
      var path := JoinPath(prefix, field.name);
      (match field.config
       case Leaf => [path]
       case Nested(sub) => PathsFrom(sub, path, 0)
       case ListOf(sub) => PathsFrom(sub, path, 0))
      + PathsFrom(view, prefix, i + 1)
  }

  function SelectPaths(view: View, prefix: string): seq<string> {
    PathsFrom(view, prefix, 0)
  }

  /** `generateSelectPaths`: a loop over the fields that recurses into sub-views. */
  method GenerateSelectPaths(view: View, prefix: string) returns (paths: seq<string>)
    ensures paths == SelectPaths(view, prefix)
    decreases view
  {
    paths := [];
    for i := 0 to |view.fields|
      invariant paths + PathsFrom(view, prefix, i) == PathsFrom(view, prefix, 0)
    {
      var field := view.fields[i];
      var path := JoinPath(prefix, field.name);
      match field.config {
        case Leaf =>
          paths := paths + [path];
        case Nested(sub) =>
          var nested := GenerateSelectPaths(sub, path);
          paths := paths + nested;
        case ListOf(sub) =>
          var nested := GenerateSelectPaths(sub, path);
          paths := paths + nested;
      }
    }
  }

  /** Every path joined under `prefix`. */
  function Prefixed(prefix: string, paths: seq<string>): (r: seq<string>)
    ensures |r| == |paths|
    ensures forall i :: 0 <= i < |paths| ==> r[i] == JoinPath(prefix, paths[i])
  {
    seq(|paths|, i requires 0 <= i < |paths| => JoinPath(prefix, paths[i]))
  }

  /** Number of leaves reachable from fields i.. of the view. */
  function LeafCount(view: View, i: nat): nat
    requires i <= |view.fields|
    decreases view, |view.fields| - i
  {
    if i == |view.fields| then 0
    else
      (match view.fields[i].config
       case Leaf => 1
       case Nested(sub) => LeafCount(sub, 0)
       case ListOf(sub) => LeafCount(sub, 0))
      + LeafCount(view, i + 1)
  }

  predicate StartsWith(s: string, pre: string) {
    |pre| <= |s| && s[..|pre|] == pre
  }

  /** Under a non-empty prefix every emitted path starts with `prefix.`. */
  lemma {:induction false} PathsUnderPrefix(view: View, prefix: string, i: nat)
    requires i <= |view.fields|
    requires prefix != ""
    ensures forall p :: p in PathsFrom(view, prefix, i) ==> StartsWith(p, prefix + ".")
    decreases view, |view.fields| - i
  {
    if i < |view.fields| {
      var field := view.fields[i];
      var path := JoinPath(prefix, field.name);
      PathsUnderPrefix(view, prefix, i + 1);
      match field.config {
        case Leaf =>
          assert path[..|prefix + "."|] == prefix + ".";
        case Nested(sub) =>
          PathsUnderPrefix(sub, path, 0);
          PrefixOfPrefix(PathsFrom(sub, path, 0), path + ".", prefix + ".");
        case ListOf(sub) =>
          PathsUnderPrefix(sub, path, 0);
          PrefixOfPrefix(PathsFrom(sub, path, 0), path + ".", prefix + ".");
      }
    }
  }

  lemma PrefixOfPrefix(paths: seq<string>, longer: string, shorter: string)
    requires StartsWith(longer, shorter)
    requires forall p :: p in paths ==> StartsWith(p, longer)
    ensures forall p :: p in paths ==> StartsWith(p, shorter)
  {
    forall p | p in paths
      ensures StartsWith(p, shorter)
    {
      assert p[..|shorter|] == p[..|longer|][..|shorter|];
    }
  }

  /** A view of leaves only gives its field names, joined under the prefix. */
  lemma {:induction false} LeafViewPaths(view: View, prefix: string, i: nat)
    requires i <= |view.fields|
    requires LeavesOnly(view)
    ensures PathsFrom(view, prefix, i) == Prefixed(prefix, FieldNames(view.fields[i..]))
    decreases |view.fields| - i
  {
    if i < |view.fields| {
      LeafViewPaths(view, prefix, i + 1);
      assert view.fields[i..] == [view.fields[i]] + view.fields[i + 1..];
    }
  }

  /** One path per leaf. */
  lemma {:induction false} OnePathPerLeaf(view: View, prefix: string, i: nat)
    requires i <= |view.fields|
    ensures |PathsFrom(view, prefix, i)| == LeafCount(view, i)
    decreases view, |view.fields| - i
  {
    if i < |view.fields| {
      OnePathPerLeaf(view, prefix, i + 1);
      var path := JoinPath(prefix, view.fields[i].name);
      match view.fields[i].config {
        case Leaf =>
        case Nested(sub) => OnePathPerLeaf(sub, path, 0);
        case ListOf(sub) => OnePathPerLeaf(sub, path, 0);
      }
    }
  }

  /** The paths the readiness view generates, depth-first in declaration order. */
  lemma ReadinessSelectPaths()
    ensures SelectPaths(ReadinessView, "") == [
      "acwr.acute_load", "acwr.chronic_load", "acwr.ratio", "acwr.isDanger",
      "wellnessHistory.id", "wellnessHistory.date", "wellnessHistory.rhr",
      "wellnessHistory.hrv_rmssd", "wellnessHistory.hrv_ratio"]
  {
    AcwrPaths();
    WellnessHistoryPaths();
    assert PathsFrom(ReadinessView, "", 2) == [];
    assert PathsFrom(ReadinessView, "", 1) == PathsFrom(WellnessMetricView, "wellnessHistory", 0);
    assert PathsFrom(ReadinessView, "", 0) == PathsFrom(ACWRView, "acwr", 0) + PathsFrom(ReadinessView, "", 1);
  }

  lemma AcwrPaths()
    ensures PathsFrom(ACWRView, "acwr", 0)
         == ["acwr.acute_load", "acwr.chronic_load", "acwr.ratio", "acwr.isDanger"]
  {
    ACWRViewShape();
    LeafViewPaths(ACWRView, "acwr", 0);
    assert ACWRView.fields[0..] == ACWRView.fields;
    var r := Prefixed("acwr", FieldNames(ACWRView.fields));
    assert r[0] == "acwr" + "." + "acute_load" == "acwr.acute_load";
    assert r[1] == "acwr" + "." + "chronic_load" == "acwr.chronic_load";
    assert r[2] == "acwr" + "." + "ratio" == "acwr.ratio";
    assert r[3] == "acwr" + "." + "isDanger" == "acwr.isDanger";
  }

  lemma WellnessHistoryPaths()
    ensures PathsFrom(WellnessMetricView, "wellnessHistory", 0)
         == ["wellnessHistory.id", "wellnessHistory.date", "wellnessHistory.rhr",
             "wellnessHistory.hrv_rmssd", "wellnessHistory.hrv_ratio"]
  {
    WellnessMetricViewShape();
    LeafViewPaths(WellnessMetricView, "wellnessHistory", 0);
    assert WellnessMetricView.fields[0..] == WellnessMetricView.fields;
    var r := Prefixed("wellnessHistory", FieldNames(WellnessMetricView.fields));
    assert r[0] == "wellnessHistory" + "." + "id" == "wellnessHistory.id";
    assert r[1] == "wellnessHistory" + "." + "date" == "wellnessHistory.date";
    assert r[2] == "wellnessHistory" + "." + "rhr" == "wellnessHistory.rhr";
    assert r[3] == "wellnessHistory" + "." + "hrv_rmssd" == "wellnessHistory.hrv_rmssd";
    assert r[4] == "wellnessHistory" + "." + "hrv_ratio" == "wellnessHistory.hrv_ratio";
  }

  // ---------------------------------------------------------------------
  // Connections

  function Nodes(items: seq<Edge>): (nodes: seq<Value>)
    ensures |nodes| == |items|
    ensures forall i :: 0 <= i < |items| ==> nodes[i] == items[i].node
  {
    seq(|items|, i requires 0 <= i < |items| => items[i].node)
  }

  /**
   * `unwrapConnection`: the nodes of a connection in item order; anything
   * falsy or without `items` passes through unchanged. The `in` test throws
   * on a truthy primitive, so the argument is falsy or an object.
   */
  function UnwrapConnection(v: Value): (r: Value)
    requires !Truthy(v) || IsObject(v)
    ensures !HasItems(v) ==> r == v
    ensures HasItems(v) ==>
      && r.Arr? && |r.elems| == |v.items|
      && forall i :: 0 <= i < |v.items| ==> r.elems[i] == v.items[i].node
    ensures !HasItems(r) && (!Truthy(r) || IsObject(r))
  {
    if !Truthy(v) || !HasItems(v) then v else Arr(Nodes(v.items))
  }

  lemma UnwrapConnectionIdempotent(v: Value)
    requires !Truthy(v) || IsObject(v)
    ensures UnwrapConnection(UnwrapConnection(v)) == UnwrapConnection(v)
  {
  }

  /** The guard of `unwrapConnectionsInPlace` for one field's value. */
  predicate Unwrappable(v: Value) {
    Truthy(v) && IsObject(v) && HasItems(v)
  }

  /**
   * The object after `unwrapConnectionsInPlace`: exactly the listed fields
   * that hold a connection are replaced by their nodes.
   */
  function UnwrappedAt(props: map<string, Value>, listFields: seq<string>): (r: map<string, Value>)
    ensures r.Keys == props.Keys
    ensures forall k :: k in props && (k !in listFields || !Unwrappable(props[k])) ==> r[k] == props[k]
    ensures forall k :: k in props && k in listFields && Unwrappable(props[k]) ==>
      r[k] == Arr(Nodes(props[k].items))
  {
    map k | k in props ::
      if k in listFields && Unwrappable(props[k]) then UnwrapConnection(props[k]) else props[k]
  }

  /** Unwrapping again with the same fields changes nothing. */
  lemma UnwrappedAtIdempotent(props: map<string, Value>, listFields: seq<string>)
    ensures UnwrappedAt(UnwrappedAt(props, listFields), listFields) == UnwrappedAt(props, listFields)
  {
    var once := UnwrappedAt(props, listFields);
    assert forall k :: k in once ==> !Unwrappable(once[k]) || k !in listFields;
  }

  /** One more listed field: one more step of the loop. */
  lemma UnwrappedAtStep(props: map<string, Value>, listFields: seq<string>, field: string)
    ensures var before := UnwrappedAt(props, listFields);
      UnwrappedAt(props, listFields + [field])
        == if field in before && Unwrappable(before[field])
           then before[field := UnwrapConnection(before[field])]
           else before
  {
    var before := UnwrappedAt(props, listFields);
    var after := UnwrappedAt(props, listFields + [field]);
    if field in before && Unwrappable(before[field]) {
      assert field !in listFields;
      assert after == before[field := UnwrapConnection(before[field])];
    } else {
      assert after == before;
    }
  }

  /** A plain object whose properties are reassigned in place. */
  class JsObject {
    var props: map<string, Value>

    constructor (props: map<string, Value>)
      ensures this.props == props
    {
      this.props := props;
    }
  }

  /** `unwrapConnectionsInPlace`: mutates `obj` and returns that same object. */
  method UnwrapConnectionsInPlace(obj: JsObject, listFields: seq<string>) returns (result: JsObject)
    modifies obj
    ensures result == obj
    ensures obj.props == UnwrappedAt(old(obj.props), listFields)
  {
    for i := 0 to |listFields|
      invariant obj.props == UnwrappedAt(old(obj.props), listFields[..i])
    {
      var field := listFields[i];
      UnwrappedAtStep(old(obj.props), listFields[..i], field);
      assert listFields[..i + 1] == listFields[..i] + [field];
      if field in obj.props && Truthy(obj.props[field]) && IsObject(obj.props[field]) {
        var value := obj.props[field];
        if HasItems(value) {
          obj.props := obj.props[field := UnwrapConnection(value)];
        }
      }
    }
    assert listFields[..|listFields|] == listFields;
    result := obj;
  }
}
