/**
  The dimension catalog and the small pieces of model logic of
  `risks/models.py` the engine depends on: axis bindings
  (`RiskAnalysisDymensionInfoAssociation`) and their axis resolution, the
  per-analysis axis helpers of `DymensionInfo`, the generic `Exportable.export`,
  the administrative-division ancestor chain, `RiskApp.description`, and the
  sheet reshaping of `AdditionalData.import_from_sheet`.

  The relational store is replaced by an in-memory sequence of binding
  records; the order of that sequence stands for the order the database
  returns rows that compare equal under the query's `order_by`.
 */
module Catalog {
  import opened Base
  import opened Sorting

  // ---------------------------------------------------------------------
  // Axis bindings
  // ---------------------------------------------------------------------

  /** One row of the analysis/dimension association table. */
  datatype Binding = Binding(
    id: nat,
    analysis: nat,
    dimension: nat,
    axis: string,
    order: int,
    value: string,
    layerAttribute: string,
    layerReferenceAttribute: Option<string>,
    scenarioDescription: Option<string>)

  /** A dimension of the catalog (`DymensionInfo`). */
  datatype DimInfo = DimInfo(id: nat, name: string, summary: string, unit: string)

  /** The `DIM` table: the default layer column of each axis letter. */
  function DefaultDim(axis: string): Option<string>
  {
    if axis == "x" then Some("dim1")
    else if axis == "y" then Some("dim2")
    else if axis == "z" then Some("dim3")
    else None
  }

  /** Which bindings a query selects: all of an analysis, or one (analysis, dimension) pair. */
  datatype Query = OfAnalysis(an: nat) | OfPair(an: nat, dim: nat)

  predicate Matches(q: Query, b: Binding)
  {
    match q
    case OfAnalysis(an) => b.analysis == an
    case OfPair(an, dim) => b.analysis == an && b.dimension == dim
  }

  /** `objects.filter(...)`: the selected bindings in store order. */
  function Select(store: seq<Binding>, q: Query): (r: seq<Binding>)
    ensures forall b :: b in r <==> b in store && Matches(q, b)
    ensures |r| <= |store|
  {
    if |store| == 0 then []
    else if Matches(q, store[0]) then [store[0]] + Select(store[1..], q)
    else Select(store[1..], q)
  }

  /** Each binding keyed by its `order`. */
  function ByOrder(bs: seq<Binding>): (r: seq<Keyed<Binding>>)
    ensures |r| == |bs|
    ensures forall i :: 0 <= i < |bs| ==> r[i] == Keyed(IntKey(bs[i].order), bs[i])
  {
    if |bs| == 0 then [] else [Keyed(IntKey(bs[0].order), bs[0])] + ByOrder(bs[1..])
  }

  /** `objects.filter(...).order_by('order')`. */
  function Ordered(store: seq<Binding>, q: Query): seq<Binding>
  {
    Items(StableSort(ByOrder(Select(store, q))))
  }

  /** Sorting bindings by `order` keeps exactly the same bindings. */
  lemma ByOrderMembers(bs: seq<Binding>)
    ensures forall b :: b in Items(StableSort(ByOrder(bs))) <==> b in bs
  {
    SortedItems(ByOrder(bs));
    assert Items(ByOrder(bs)) == bs;
  }

  /** Sorting bindings by `order` leaves them in ascending `order`. */
  lemma ByOrderAscending(bs: seq<Binding>)
    ensures forall i, j :: 0 <= i < j < |Items(StableSort(ByOrder(bs)))| ==>
              Items(StableSort(ByOrder(bs)))[i].order <= Items(StableSort(ByOrder(bs)))[j].order
  {
    var keyed := ByOrder(bs);
    var sorted := StableSort(keyed);
    var r := Items(sorted);
    SortedMembers(keyed);
    forall i | 0 <= i < |sorted|
      ensures sorted[i].key == IntKey(r[i].order)
    {
      var j :| 0 <= j < |keyed| && keyed[j] == sorted[i];
    }
    forall i, j | 0 <= i < j < |r|
      ensures r[i].order <= r[j].order
    {
      assert KeyLe(sorted[i].key, sorted[j].key);
    }
  }

  /** The ordered query is the selected bindings rearranged, each as often as selected, in ascending `order`. */
  lemma OrderedSpec(store: seq<Binding>, q: Query)
    ensures forall b :: b in Ordered(store, q) <==> b in store && Matches(q, b)
    ensures |Ordered(store, q)| == |Select(store, q)|
    ensures multiset(Ordered(store, q)) == multiset(Select(store, q))
    ensures forall i, j :: 0 <= i < j < |Ordered(store, q)| ==>
              Ordered(store, q)[i].order <= Ordered(store, q)[j].order
  {
    ByOrderMembers(Select(store, q));
    ByOrderAscending(Select(store, q));
    ByOrderPermutes(Select(store, q));
  }

  /** Sorting bindings by `order` keeps each binding as often as it was there. */
  lemma ByOrderPermutes(bs: seq<Binding>)
    ensures multiset(Items(StableSort(ByOrder(bs)))) == multiset(bs)
  {
    var keyed := ByOrder(bs);
    var sorted := StableSort(keyed);
    SortedByOrderKeys(bs);
    assert Items(keyed) == bs;
    forall x
      ensures multiset(Items(sorted))[x] == multiset(bs)[x]
    {
      SameMultiplicity(sorted, keyed, x);
    }
  }

  /** The sorted list still carries each binding's `order` as its key. */
  lemma SortedByOrderKeys(bs: seq<Binding>)
    ensures forall i :: 0 <= i < |StableSort(ByOrder(bs))| ==>
              StableSort(ByOrder(bs))[i].key == IntKey(StableSort(ByOrder(bs))[i].item.order)
  {
    var keyed := ByOrder(bs);
    var sorted := StableSort(keyed);
    SortedMembers(keyed);
    forall i | 0 <= i < |sorted|
      ensures sorted[i].key == IntKey(sorted[i].item.order)
    {
      var j :| 0 <= j < |keyed| && keyed[j] == sorted[i];
    }
  }

  /** Two lists keyed by `order` with the same elements hold each binding equally often. */
  lemma SameMultiplicity(a: seq<Keyed<Binding>>, b: seq<Keyed<Binding>>, x: Binding)
    requires forall i :: 0 <= i < |a| ==> a[i].key == IntKey(a[i].item.order)
    requires forall i :: 0 <= i < |b| ==> b[i].key == IntKey(b[i].item.order)
    requires multiset(a) == multiset(b)
    ensures multiset(Items(a))[x] == multiset(Items(b))[x]
  {
    var kx := Keyed(IntKey(x.order), x);
    CountByOrder(a, x);
    CountByOrder(b, x);
    CountMultiplicity(a, kx);
    CountMultiplicity(b, kx);
    CountMultiplicity(Items(a), x);
    CountMultiplicity(Items(b), x);
  }

  /** Counting a binding among bindings keyed by `order` is counting its keyed form. */
  lemma {:induction false} CountByOrder(keyed: seq<Keyed<Binding>>, x: Binding)
    requires forall i :: 0 <= i < |keyed| ==> keyed[i].key == IntKey(keyed[i].item.order)
    ensures Count(Items(keyed), x) == Count(keyed, Keyed(IntKey(x.order), x))
  {
    if |keyed| > 0 {
      assert Items(keyed)[1..] == Items(keyed[1..]);
      CountByOrder(keyed[1..], x);
    }
  }

  /** The first binding of `bs` on the given axis. */
  function FirstOnAxis(bs: seq<Binding>, axis: string): (r: Option<Binding>)
    ensures r.None? <==> forall b :: b in bs ==> b.axis != axis
    ensures r.Some? ==> r.value in bs && r.value.axis == axis
  {
    if |bs| == 0 then None
    else if bs[0].axis == axis then Some(bs[0])
    else FirstOnAxis(bs[1..], axis)
  }

  /** The binding found comes before every other binding on that axis. */
  lemma {:induction false} FirstOnAxisIsFirst(bs: seq<Binding>, axis: string)
    requires FirstOnAxis(bs, axis).Some?
    ensures exists i :: 0 <= i < |bs| && bs[i] == FirstOnAxis(bs, axis).value &&
              forall j :: 0 <= j < i ==> bs[j].axis != axis
  {
    if bs[0].axis != axis {
      FirstOnAxisIsFirst(bs[1..], axis);
      var i :| 0 <= i < |bs[1..]| && bs[1..][i] == FirstOnAxis(bs, axis).value &&
               forall j :: 0 <= j < i ==> bs[1..][j].axis != axis;
      TailIndex(bs, i + 1);
      forall j | 1 <= j < i + 1
        ensures bs[j].axis != axis
      {
        TailIndex(bs, j);
      }
    } else {
      assert bs[0] == FirstOnAxis(bs, axis).value;
    }
  }

  /**
    `axis_to_dim`: the layer column of the lowest-`order` binding of the same
    analysis on the same axis (any dimension), or the axis's `DIM` default.
   */
  function AxisToDim(store: seq<Binding>, b: Binding): Result<string>
  {
    DimOf(FirstOnAxis(Ordered(store, OfAnalysis(b.analysis)), b.axis), b.axis)
  }

  /** The column of the binding found on the axis, or the axis's `DIM` default. */
  function DimOf(found: Option<Binding>, axis: string): Result<string>
  {
    match found
    case Some(c) => Ok(c.layerAttribute)
    case None =>
      match DefaultDim(axis)
      case Some(d) => Ok(d)
      case None => Err(UnknownAxis(axis))
  }

  /** Python's `s[3:]`. */
  function DropThree(s: string): string
  {
    if |s| >= 3 then s[3..] else ""
  }

  /** `axis_attribute`: `"d"` followed by the resolved column with its first three characters removed. */
  function AxisAttribute(store: seq<Binding>, b: Binding): Result<string>
  {
    AttributeOf(FirstOnAxis(Ordered(store, OfAnalysis(b.analysis)), b.axis), b.axis)
  }

  function AttributeOf(found: Option<Binding>, axis: string): Result<string>
  {
    match found
    case Some(c) => Ok("d" + DropThree(c.layerAttribute))
    case None =>
      match DefaultDim(axis)
      case Some(d) => Ok("d" + DropThree(d))
      case None => Err(UnknownAxis(axis))
  }

  /** The attribute of a found binding is the `d` form of its column. */
  lemma AttributeOfDim(found: Option<Binding>, axis: string)
    ensures DimOf(found, axis).Err? ==> AttributeOf(found, axis) == DimOf(found, axis)
    ensures DimOf(found, axis).Ok? ==> AttributeOf(found, axis) == Ok("d" + DropThree(DimOf(found, axis).value))
    ensures forall n :: DimOf(found, axis) == Ok("dim" + n) ==> AttributeOf(found, axis) == Ok("d" + n)
  {
    forall n | DimOf(found, axis) == Ok("dim" + n)
      ensures AttributeOf(found, axis) == Ok("d" + n)
    {
      assert ("dim" + n)[3..] == n;
    }
  }

  /**
    What `axis_to_dim` resolves to: for a stored binding it never fails, and
    it names the column of a binding of the same analysis and axis whose
    `order` is minimal among them. It reads nothing of the binding but its
    analysis and axis.
   */
  lemma AxisToDimSpec(store: seq<Binding>, b: Binding, b': Binding)
    requires b in store
    requires b'.analysis == b.analysis && b'.axis == b.axis
    ensures AxisToDim(store, b).Ok?
    ensures AxisToDim(store, b') == AxisToDim(store, b)
    ensures exists c :: c in store && c.analysis == b.analysis && c.axis == b.axis &&
              AxisToDim(store, b) == Ok(c.layerAttribute) &&
              forall d :: d in store && d.analysis == b.analysis && d.axis == b.axis ==> c.order <= d.order
  {
    var axis := Ordered(store, OfAnalysis(b.analysis));
    OrderedSpec(store, OfAnalysis(b.analysis));
    FirstOnAxisMinimal(axis, b);
    var c := FirstOnAxis(axis, b.axis).value;
    assert c in store && c.analysis == b.analysis;
    forall d | d in store && d.analysis == b.analysis && d.axis == b.axis
      ensures c.order <= d.order
    {
      assert d in axis;
    }
  }

  /** In a list ascending by `order`, the first binding on an axis has the least `order` on it. */
  lemma FirstOnAxisMinimal(axis: seq<Binding>, b: Binding)
    requires b in axis
    requires forall i, j :: 0 <= i < j < |axis| ==> axis[i].order <= axis[j].order
    ensures FirstOnAxis(axis, b.axis).Some?
    ensures forall d :: d in axis && d.axis == b.axis ==> FirstOnAxis(axis, b.axis).value.order <= d.order
  {
    var c := FirstOnAxis(axis, b.axis).value;
    var i := FirstOnAxisIndex(axis, b.axis);
    forall d | d in axis && d.axis == b.axis
      ensures c.order <= d.order
    {
      var j :| 0 <= j < |axis| && axis[j] == d;
      if j < i {
        assert false;
      }
    }
  }

  /** The position of the binding `FirstOnAxis` finds. */
  lemma FirstOnAxisIndex(bs: seq<Binding>, axis: string) returns (i: int)
    requires FirstOnAxis(bs, axis).Some?
    ensures 0 <= i < |bs| && bs[i] == FirstOnAxis(bs, axis).value
    ensures forall j :: 0 <= j < i ==> bs[j].axis != axis
  {
    FirstOnAxisIsFirst(bs, axis);
    i :| 0 <= i < |bs| && bs[i] == FirstOnAxis(bs, axis).value && forall j :: 0 <= j < i ==> bs[j].axis != axis;
  }

  /** Without any binding of the analysis on that axis, `axis_to_dim` falls back to `DIM`. */
  lemma AxisToDimFallback(store: seq<Binding>, b: Binding)
    requires forall c :: c in store && c.analysis == b.analysis ==> c.axis != b.axis
    ensures DefaultDim(b.axis).Some? ==> AxisToDim(store, b) == Ok(DefaultDim(b.axis).value)
    ensures DefaultDim(b.axis).None? ==> AxisToDim(store, b) == Err(UnknownAxis(b.axis))
  {
    OrderedSpec(store, OfAnalysis(b.analysis));
  }

  /** `axis_attribute` is `axis_to_dim` with `dim` replaced by `d`: `dim1` becomes `d1`. */
  lemma AxisAttributeOfDim(store: seq<Binding>, b: Binding)
    ensures AxisToDim(store, b).Err? ==> AxisAttribute(store, b) == AxisToDim(store, b)
    ensures AxisToDim(store, b).Ok? ==> AxisAttribute(store, b) == Ok("d" + DropThree(AxisToDim(store, b).value))
    ensures forall n :: AxisToDim(store, b) == Ok("dim" + n) ==> AxisAttribute(store, b) == Ok("d" + n)
  {
    AttributeOfDim(FirstOnAxis(Ordered(store, OfAnalysis(b.analysis)), b.axis), b.axis);
  }

  // ---------------------------------------------------------------------
  // DymensionInfo helpers bound to one analysis
  // ---------------------------------------------------------------------

  /** `get_axis` of a dimension: its bindings for one analysis, ascending by `order`. */
  function DimAxis(store: seq<Binding>, dim: nat, analysis: nat): seq<Binding>
  {
    Ordered(store, OfPair(analysis, dim))
  }

  function Values(bs: seq<Binding>): (r: seq<string>)
    ensures |r| == |bs|
    ensures forall i :: 0 <= i < |bs| ==> r[i] == bs[i].value
  {
    if |bs| == 0 then [] else [bs[0].value] + Values(bs[1..])
  }

  function ValueOrders(bs: seq<Binding>): (r: seq<(string, int)>)
    ensures |r| == |bs|
    ensures forall i :: 0 <= i < |bs| ==> r[i] == (bs[i].value, bs[i].order)
  {
    if |bs| == 0 then [] else [(bs[0].value, bs[0].order)] + ValueOrders(bs[1..])
  }

  /** A value is listed iff some binding of the list carries it. */
  lemma ValuesMembers(bs: seq<Binding>)
    ensures forall v :: v in Values(bs) <==> exists b :: b in bs && b.value == v
  {
    forall v | v in Values(bs)
      ensures exists b :: b in bs && b.value == v
    {
      var i :| 0 <= i < |bs| && Values(bs)[i] == v;
      assert bs[i] in bs;
    }
    forall v | exists b :: b in bs && b.value == v
      ensures v in Values(bs)
    {
      var b :| b in bs && b.value == v;
      var i :| 0 <= i < |bs| && bs[i] == b;
      assert Values(bs)[i] == v;
    }
  }

  /** `get_axis_values`. */
  function AxisValues(store: seq<Binding>, dim: nat, analysis: nat): seq<string>
  {
    Values(DimAxis(store, dim, analysis))
  }

  /** `get_axis_order`. */
  function AxisOrder(store: seq<Binding>, dim: nat, analysis: nat): seq<(string, int)>
  {
    ValueOrders(DimAxis(store, dim, analysis))
  }

  /**
    The axis values and (value, order) pairs of a dimension for an analysis
    list the bindings of exactly that pair, one entry per binding, in
    ascending `order`.
   */
  lemma AxisValuesSpec(store: seq<Binding>, dim: nat, analysis: nat)
    ensures |AxisValues(store, dim, analysis)| == |Select(store, OfPair(analysis, dim))|
    ensures |AxisOrder(store, dim, analysis)| == |Select(store, OfPair(analysis, dim))|
    ensures forall v :: v in AxisValues(store, dim, analysis) <==>
              exists b :: b in store && b.analysis == analysis && b.dimension == dim && b.value == v
    ensures forall i :: 0 <= i < |AxisOrder(store, dim, analysis)| ==>
              AxisOrder(store, dim, analysis)[i].0 == AxisValues(store, dim, analysis)[i]
    ensures forall i, j :: 0 <= i < j < |AxisOrder(store, dim, analysis)| ==>
              AxisOrder(store, dim, analysis)[i].1 <= AxisOrder(store, dim, analysis)[j].1
    ensures multiset(DimAxis(store, dim, analysis)) == multiset(Select(store, OfPair(analysis, dim)))
    ensures forall i :: 0 <= i < |AxisOrder(store, dim, analysis)| ==>
              var b := DimAxis(store, dim, analysis)[i];
              AxisOrder(store, dim, analysis)[i] == (b.value, b.order) &&
              b in store && b.analysis == analysis && b.dimension == dim
  {
    var axis := DimAxis(store, dim, analysis);
    OrderedSpec(store, OfPair(analysis, dim));
    ValuesMembers(axis);
    AxisOrderPairs(axis, store, dim, analysis);
    assert AxisOrder(store, dim, analysis) == ValueOrders(axis);
    assert AxisValues(store, dim, analysis) == Values(axis);
    forall v | exists b :: b in store && b.analysis == analysis && b.dimension == dim && b.value == v
      ensures v in AxisValues(store, dim, analysis)
    {
      var b :| b in store && b.analysis == analysis && b.dimension == dim && b.value == v;
      assert b in axis;
    }
  }

  /** Entry `i` of the order list is the value and order of binding `i`, a stored binding of the pair. */
  lemma AxisOrderPairs(axis: seq<Binding>, store: seq<Binding>, dim: nat, analysis: nat)
    requires forall b :: b in axis ==> b in store && b.analysis == analysis && b.dimension == dim
    ensures forall i :: 0 <= i < |ValueOrders(axis)| ==>
              var b := axis[i];
              ValueOrders(axis)[i] == (b.value, b.order) &&
              b in store && b.analysis == analysis && b.dimension == dim
  {
    forall i | 0 <= i < |axis|
      ensures axis[i] in axis
    {
    }
  }

  /** One entry of `get_axis_descriptions` (the linked resource export is not modelled). */
  datatype AxisDescription = AxisDescription(
    layerAttribute: string,
    layerReferenceAttribute: Option<string>,
    description: Option<string>)

  /** `get_axis_descriptions`: a dict keyed by value; a later binding with the same value overwrites. */
  function AxisDescriptions(store: seq<Binding>, bs: seq<Binding>): (r: Result<map<string, AxisDescription>>)
    ensures r.Ok? ==> r.value.Keys == set b | b in bs :: b.value
  {
    if |bs| == 0 then Ok(map[])
    else
      var last := bs[|bs| - 1];
      var init :- AxisDescriptions(store, bs[..|bs| - 1]);
      var attr :- AxisAttribute(store, last);
      ValuesOfSnoc(bs);
      Ok(init[last.value := AxisDescription(attr, last.layerReferenceAttribute, last.scenarioDescription)])
  }

  /** The values of a non-empty list: those of all but its last binding, and the last one's. */
  lemma ValuesOfSnoc(bs: seq<Binding>)
    requires |bs| > 0
    ensures (set b | b in bs :: b.value) == (set b | b in bs[..|bs| - 1] :: b.value) + {bs[|bs| - 1].value}
  {
    InitLast(bs);
  }

  /** The export of a dimension bound to one analysis. */
  datatype DimensionExport = DimensionExport(
    id: nat,
    name: string,
    summary: string,
    unit: string,
    layers: map<string, AxisDescription>,
    values: seq<string>)

  /** `DymensionInfo.export()` once `set_risk_analysis(analysis)` has been called. */
  function ExportDimension(store: seq<Binding>, d: DimInfo, analysis: nat): Result<DimensionExport>
  {
    var axis := DimAxis(store, d.id, analysis);
    var layers :- AxisDescriptions(store, axis);
    Ok(DimensionExport(d.id, d.name, d.summary, d.unit, layers, Values(axis)))
  }

  /**
    Exporting a dimension never fails (every binding it reads is stored), and
    the export is contextual: its values are the analysis's axis values and
    its layers are keyed by exactly those values.
   */
  lemma ExportDimensionSpec(store: seq<Binding>, d: DimInfo, analysis: nat)
    ensures ExportDimension(store, d, analysis).Ok?
    ensures ExportDimension(store, d, analysis).value.id == d.id
    ensures ExportDimension(store, d, analysis).value.values == AxisValues(store, d.id, analysis)
    ensures ExportDimension(store, d, analysis).value.layers.Keys ==
            set v | v in AxisValues(store, d.id, analysis)
  {
    var axis := DimAxis(store, d.id, analysis);
    ByOrderMembers(Select(store, OfPair(analysis, d.id)));
    DescriptionsOfStored(store, axis);
    ValueKeys(axis);
  }

  /** The values of a list of bindings, as a set. */
  lemma ValueKeys(bs: seq<Binding>)
    ensures (set b | b in bs :: b.value) == set v | v in Values(bs)
  {
    ValuesMembers(bs);
  }

  lemma {:induction false} DescriptionsOfStored(store: seq<Binding>, bs: seq<Binding>)
    requires forall b :: b in bs ==> b in store
    ensures AxisDescriptions(store, bs).Ok?
    decreases |bs|
  {
    if |bs| > 0 {
      var last := bs[|bs| - 1];
      DescriptionsOfStored(store, bs[..|bs| - 1]);
      AxisToDimSpec(store, last, last);
      AxisAttributeOfDim(store, last);
    }
  }

  // ---------------------------------------------------------------------
  // Exportable.export
  // ---------------------------------------------------------------------

  /** What `getattr(obj, name)` yields: a plain value, a callable, or a file field. */
  datatype Attr = Plain(v: Scalar) | Call(result: Scalar) | FileField(url: Option<string>)

  /** One field's export: missing attribute is `None`, a callable is called, a file yields its URL or `None`. */
  function Resolve(attrs: map<string, Attr>, source: string): Scalar
  {
    if source !in attrs then Null
    else match attrs[source]
      case Plain(v) => v
      case Call(r) => r
      case FileField(url) => if url.Some? then Str(url.value) else Null
  }

  /** The position of the last pair of `fs` whose output name is the one at `i`. */
  predicate IsLastName(fs: seq<(string, string)>, i: int)
    requires 0 <= i < |fs|
  {
    forall j :: i < j < |fs| ==> fs[j].0 != fs[i].0
  }

  function ExportFields(attrs: map<string, Attr>, fs: seq<(string, string)>): (r: map<string, Scalar>)
  {
    if |fs| == 0 then map[]
    else ExportFields(attrs, fs[..|fs| - 1])[fs[|fs| - 1].0 := Resolve(attrs, fs[|fs| - 1].1)]
  }

  /** The exported keys are exactly the output names of the fieldset. */
  lemma {:induction false} ExportFieldsKeys(attrs: map<string, Attr>, fs: seq<(string, string)>)
    ensures ExportFields(attrs, fs).Keys == set i | 0 <= i < |fs| :: fs[i].0
    decreases |fs|
  {
    if |fs| > 0 {
      var init := fs[..|fs| - 1];
      ExportFieldsKeys(attrs, init);
      assert forall i :: 0 <= i < |init| ==> init[i] == fs[i];
      assert (set i | 0 <= i < |fs| :: fs[i].0) == (set i | 0 <= i < |init| :: init[i].0) + {fs[|fs| - 1].0};
    }
  }

  /** Each exported key holds the resolved value of the last field with that output name. */
  lemma {:induction false} ExportFieldsValues(attrs: map<string, Attr>, fs: seq<(string, string)>, i: int)
    requires 0 <= i < |fs| && IsLastName(fs, i)
    ensures fs[i].0 in ExportFields(attrs, fs)
    ensures ExportFields(attrs, fs)[fs[i].0] == Resolve(attrs, fs[i].1)
    decreases |fs|
  {
    if i < |fs| - 1 {
      var init := fs[..|fs| - 1];
      assert init[i] == fs[i];
      assert IsLastName(init, i);
      ExportFieldsValues(attrs, init, i);
    }
  }

  /** `Exportable.export(fieldset)`: with no fieldset the class's `EXPORT_FIELDS` are used. */
  function Export(attrs: map<string, Attr>, fieldset: Option<seq<(string, string)>>,
                  exportFields: seq<(string, string)>): (r: map<string, Scalar>)
    ensures var fs := if fieldset.Some? then fieldset.value else exportFields;
            && r.Keys == (set i | 0 <= i < |fs| :: fs[i].0)
            && (forall i :: 0 <= i < |fs| && IsLastName(fs, i) ==> r[fs[i].0] == Resolve(attrs, fs[i].1))
  {
    var fs := if fieldset.Some? then fieldset.value else exportFields;
    ExportFieldsKeys(attrs, fs);
    assert forall i :: 0 <= i < |fs| && IsLastName(fs, i) ==> ExportFields(attrs, fs)[fs[i].0] == Resolve(attrs, fs[i].1) by {
      forall i | 0 <= i < |fs| && IsLastName(fs, i)
        ensures ExportFields(attrs, fs)[fs[i].0] == Resolve(attrs, fs[i].1)
      {
        ExportFieldsValues(attrs, fs, i);
      }
    }
    ExportFields(attrs, fs)
  }

  // ---------------------------------------------------------------------
  // RiskApp
  // ---------------------------------------------------------------------

  const Apps: seq<(string, string)> :=
    [("data_extraction", "Data Extraction"),
     ("cost_benefit_analysis", "Cost Benefit Analysis"),
     ("test", "Test")]

  /** The label of the first pair named `n`, or `n` itself. */
  function Describe(apps: seq<(string, string)>, n: string): (r: string)
    ensures (forall i :: 0 <= i < |apps| ==> apps[i].0 != n) ==> r == n
    ensures forall i :: 0 <= i < |apps| && apps[i].0 == n && (forall j :: 0 <= j < i ==> apps[j].0 != n) ==>
              r == apps[i].1
  {
    if |apps| == 0 then n
    else if apps[0].0 == n then apps[0].1
    else
      var r := Describe(apps[1..], n);
      DescribeLater(apps, n, r);
      r
  }

  /** A later first match is the first match of the tail. */
  lemma DescribeLater(apps: seq<(string, string)>, n: string, r: string)
    requires |apps| > 0 && apps[0].0 != n
    requires (forall i :: 0 <= i < |apps[1..]| ==> apps[1..][i].0 != n) ==> r == n
    requires forall i :: 0 <= i < |apps[1..]| && apps[1..][i].0 == n && (forall j :: 0 <= j < i ==> apps[1..][j].0 != n) ==>
               r == apps[1..][i].1
    ensures (forall i :: 0 <= i < |apps| ==> apps[i].0 != n) ==> r == n
    ensures forall i :: 0 <= i < |apps| && apps[i].0 == n && (forall j :: 0 <= j < i ==> apps[j].0 != n) ==>
              r == apps[i].1
  {
    forall i | 0 < i < |apps| && apps[i].0 == n && (forall j :: 0 <= j < i ==> apps[j].0 != n)
      ensures r == apps[i].1
    {
      TailIndex(apps, i);
      forall j | 0 <= j < i - 1
        ensures apps[1..][j].0 != n
      {
        TailIndex(apps, j + 1);
      }
    }
    if forall i :: 0 <= i < |apps| ==> apps[i].0 != n {
      forall i | 0 <= i < |apps[1..]|
        ensures apps[1..][i].0 != n
      {
        TailIndex(apps, i + 1);
      }
    }
  }

  /** `RiskApp.description`. */
  function AppDescription(name: string): string
  {
    Describe(Apps, name)
  }

  /** Each known application name has its label; any other name describes itself. */
  lemma AppDescriptionSpec(name: string)
    ensures AppDescription("data_extraction") == "Data Extraction"
    ensures AppDescription("cost_benefit_analysis") == "Cost Benefit Analysis"
    ensures AppDescription("test") == "Test"
    ensures name != "data_extraction" && name != "cost_benefit_analysis" && name != "test" ==>
              AppDescription(name) == name
  {
    assert Apps[0].0 == "data_extraction";
    assert Apps[1].0 == "cost_benefit_analysis" && Apps[0].0 != "cost_benefit_analysis";
    assert Apps[2].0 == "test" && Apps[0].0 != "test" && Apps[1].0 != "test";
  }

  // ---------------------------------------------------------------------
  // AdministrativeDivision
  // ---------------------------------------------------------------------

  /** A node of the administrative hierarchy; the tree shape makes the parent chain finite. */
  datatype Division = Division(code: string, name: string, level: int, parent: Option<Division>)

  /** The chain above an optional node, root first and the node itself last. */
  function Chain(o: Option<Division>): (r: seq<Division>)
    ensures o.None? <==> |r| == 0
    ensures o.Some? ==> r[|r| - 1] == o.value && r[0].parent.None?
    decreases o
  {
    match o
    case None => []
    case Some(p) => Chain(p.parent) + [p]
  }

  /** A prefix of `up + [p]` that stops before `p` is a prefix of `up`. */
  lemma PrefixOfSnoc<T>(up: seq<T>, p: T, i: int)
    requires 0 <= i <= |up|
    ensures (up + [p])[..i] == up[..i]
    ensures (up + [p])[i] == if i < |up| then up[i] else p
  {
  }

  /** Every node of a chain has, as its own chain, exactly the nodes before it. */
  lemma {:induction false} ChainPrefixes(o: Option<Division>)
    ensures forall i :: 0 <= i < |Chain(o)| ==> Chain(Chain(o)[i].parent) == Chain(o)[..i]
    decreases o
  {
    if o.Some? {
      var p := o.value;
      var up := Chain(p.parent);
      ChainPrefixes(p.parent);
      var r := Chain(o);
      assert r == up + [p];
      forall i | 0 <= i < |r|
        ensures Chain(r[i].parent) == r[..i]
      {
        PrefixOfSnoc(up, p, i);
      }
    }
  }

  /** Consecutive nodes of a chain are linked child to parent, and no node is below itself. */
  lemma ChainLinks(d: Division)
    ensures forall i :: 0 <= i < |Chain(d.parent)| - 1 ==> Chain(d.parent)[i + 1].parent == Some(Chain(d.parent)[i])
    ensures d !in Chain(d.parent)
  {
    var r := Chain(d.parent);
    ChainPrefixes(d.parent);
    forall i | 0 <= i < |r| - 1
      ensures r[i + 1].parent == Some(r[i])
    {
      var c := Chain(r[i + 1].parent);
      assert c == r[..i + 1];
      assert c[|c| - 1] == r[i];
    }
    forall i | 0 <= i < |r|
      ensures r[i] != d
    {
      assert |Chain(r[i].parent)| == i;
    }
  }

  /** The ancestors of a division: root first, ending with its direct parent. */
  function Ancestors(d: Division): (r: seq<Division>)
    ensures d.parent.None? <==> |r| == 0
    ensures |r| > 0 ==> r[|r| - 1] == d.parent.value && r[0].parent.None?
    ensures forall i :: 0 <= i < |r| - 1 ==> r[i + 1].parent == Some(r[i])
    ensures d !in r
  {
    ChainLinks(d);
    Chain(d.parent)
  }

  function Reverse<T>(s: seq<T>): (r: seq<T>)
    ensures |r| == |s|
    ensures forall i :: 0 <= i < |s| ==> r[i] == s[|s| - 1 - i]
  {
    if |s| == 0 then [] else Reverse(s[1..]) + [s[0]]
  }

  /** Reversing a sequence with one more element at the end puts that element first. */
  lemma ReverseSnoc<T>(s: seq<T>, x: T)
    ensures Reverse(s + [x]) == [x] + Reverse(s)
  {
    var r := Reverse(s + [x]);
    var q := [x] + Reverse(s);
    forall i | 0 <= i < |r|
      ensures r[i] == q[i]
    {
      if i > 0 {
        assert r[i] == s[|s| - i];
      }
    }
  }

  /** Moving the last element of a prefix onto a reversed suffix. */
  lemma ShiftOne<T>(c: seq<T>, p: T, up: seq<T>)
    ensures (c + [p]) + Reverse(up) == c + Reverse(up + [p])
  {
    ReverseSnoc(up, p);
  }

  /** One step of the walk: moving a node from the chain onto the collected list. */
  lemma ChainStep(p: Division, up: seq<Division>)
    ensures Chain(Some(p)) + Reverse(up) == Chain(p.parent) + Reverse(up + [p])
  {
    ShiftOne(Chain(p.parent), p, up);
  }

  /** `get_parents_chain`: walk up the parent links, then reverse. */
  method GetParentsChain(d: Division) returns (out: seq<Division>)
    ensures out == Ancestors(d)
    ensures d.parent.None? ==> out == []
    ensures |out| > 0 ==> out[|out| - 1] == d.parent.value && out[0].parent.None?
    ensures d !in out
  {
    var up: seq<Division> := [];
    var parent := d.parent;
    while parent.Some?
      invariant Chain(d.parent) == Chain(parent) + Reverse(up)
      decreases parent
    {
      var p := parent.value;
      ChainStep(p, up);
      up := up + [p];
      parent := p.parent;
    }
    out := Reverse(up);
    assert out == Chain(d.parent);
  }

  // ---------------------------------------------------------------------
  // AdditionalData.import_from_sheet
  // ---------------------------------------------------------------------

  /** A worksheet: its name and its rows of cells. */
  datatype Sheet = Sheet(name: string, rows: seq<seq<Scalar>>)

  datatype TableData = TableData(columnNames: seq<Scalar>, rowNames: seq<Scalar>, values: seq<seq<Scalar>>)

  datatype AdditionalData = AdditionalData(name: string, analysis: nat, data: TableData)

  function RowLabels(rows: seq<seq<Scalar>>): (r: seq<Scalar>)
    requires forall i :: 0 <= i < |rows| ==> |rows[i]| > 0
    ensures |r| == |rows|
    ensures forall i :: 0 <= i < |rows| ==> r[i] == rows[i][0]
  {
    if |rows| == 0 then [] else [rows[0][0]] + RowLabels(rows[1..])
  }

  function RowBodies(rows: seq<seq<Scalar>>): (r: seq<seq<Scalar>>)
    requires forall i :: 0 <= i < |rows| ==> |rows[i]| > 0
    ensures |r| == |rows|
    ensures forall i :: 0 <= i < |rows| ==> r[i] == rows[i][1..]
  {
    if |rows| == 0 then [] else [rows[0][1..]] + RowBodies(rows[1..])
  }

  /**
    The reshaping of one sheet: the header row gives the column names,
    column 0 below the header gives the row names, and every later row
    without its first cell gives one row of values. Reading row 0 of an empty
    sheet, or column 0 of a row that has no cell, fails.
   */
  function SheetToTable(rows: seq<seq<Scalar>>): (r: Result<TableData>)
    ensures r.Ok? <==> |rows| > 0 && forall i :: 0 <= i < |rows| ==> |rows[i]| > 0
    ensures r.Err? ==> r.error == EmptySheet
    ensures r.Ok? ==> && r.value.columnNames == rows[0]
                      && |r.value.rowNames| == |rows| - 1
                      && |r.value.values| == |rows| - 1
                      && (forall i :: 1 <= i < |rows| ==> r.value.rowNames[i - 1] == rows[i][0])
                      && (forall i :: 1 <= i < |rows| ==> r.value.values[i - 1] == rows[i][1..])
  {
    if |rows| == 0 || exists i :: 0 <= i < |rows| && |rows[i]| == 0 then Err(EmptySheet)
    else Ok(TableData(rows[0], RowLabels(rows[1..]), RowBodies(rows[1..])))
  }

  /** Puts a table back together: header row, then each row name followed by its values. */
  function Assemble(t: TableData): seq<seq<Scalar>>
    requires |t.values| == |t.rowNames|
  {
    [t.columnNames] + seq(|t.rowNames|, i requires 0 <= i < |t.rowNames| => [t.rowNames[i]] + t.values[i])
  }

  /** Reshaping loses nothing: the sheet can be rebuilt from the table. */
  lemma SheetRoundTrip(rows: seq<seq<Scalar>>)
    requires SheetToTable(rows).Ok?
    ensures |SheetToTable(rows).value.values| == |SheetToTable(rows).value.rowNames|
    ensures Assemble(SheetToTable(rows).value) == rows
  {
    var t := SheetToTable(rows).value;
    var a := Assemble(t);
    assert |a| == |rows|;
    forall i | 0 <= i < |rows|
      ensures a[i] == rows[i]
    {
      if i > 0 {
        assert a[i] == [t.rowNames[i - 1]] + t.values[i - 1];
        assert rows[i] == [rows[i][0]] + rows[i][1..];
      }
    }
  }

  /**
    What `import_from_sheet` leaves in the database: the records it created,
    one per sheet read so far, and the error that stopped it, if any. The
    records created before an error stay, since each `create` saves at once.
   */
  datatype SheetImport = SheetImport(created: seq<AdditionalData>, failure: Option<Error>)

  /** Each sheet's name. */
  function SheetNames(sheets: seq<Sheet>): (r: seq<string>)
    ensures |r| == |sheets|
    ensures forall i :: 0 <= i < |sheets| ==> r[i] == sheets[i].name
  {
    seq(|sheets|, i requires 0 <= i < |sheets| => sheets[i].name)
  }

  /** Each sheet read as a table. */
  function SheetTables(sheets: seq<Sheet>): (r: seq<Result<TableData>>)
    ensures |r| == |sheets|
    ensures forall i :: 0 <= i < |sheets| ==> r[i] == SheetToTable(sheets[i].rows)
  {
    seq(|sheets|, i requires 0 <= i < |sheets| => SheetToTable(sheets[i].rows))
  }

  /** The import loop over sheets already read: a record per table until the first failed read. */
  function ImportTables(analysis: nat, names: seq<string>, tables: seq<Result<TableData>>): (r: SheetImport)
    requires |names| == |tables|
    ensures |r.created| <= |tables|
  {
    if |tables| == 0 then SheetImport([], None)
    else if tables[0].Err? then SheetImport([], Some(tables[0].error))
    else
      var rest := ImportTables(analysis, names[1..], tables[1..]);
      SheetImport([AdditionalData(names[0], analysis, tables[0].value)] + rest.created, rest.failure)
  }

  /**
    The loop stops at the first failed read and reports its error; the
    records it leaves are those of the tables before it, in order.
   */
  lemma {:induction false} ImportTablesSpec(analysis: nat, names: seq<string>, tables: seq<Result<TableData>>)
    requires |names| == |tables|
    ensures var r := ImportTables(analysis, names, tables);
      && (r.failure.None? <==> forall i :: 0 <= i < |tables| ==> tables[i].Ok?)
      && (r.failure.None? ==> |r.created| == |tables|)
      && (r.failure.Some? ==> |r.created| < |tables| && tables[|r.created|] == Err(r.failure.value))
      && (forall i :: 0 <= i < |r.created| ==>
            i < |tables| && tables[i].Ok? && r.created[i] == AdditionalData(names[i], analysis, tables[i].value))
  {
    if |tables| > 0 && tables[0].Ok? {
      ImportTablesSpec(analysis, names[1..], tables[1..]);
      var rest := ImportTables(analysis, names[1..], tables[1..]);
      var r := ImportTables(analysis, names, tables);
      assert r.created == [AdditionalData(names[0], analysis, tables[0].value)] + rest.created;
      forall i | 1 <= i < |r.created|
        ensures r.created[i] == AdditionalData(names[i], analysis, tables[i].value)
      {
        ConsIndex(AdditionalData(names[0], analysis, tables[0].value), rest.created, i);
        TailIndex(tables, i);
        TailIndex(names, i);
      }
      forall i | 1 <= i < |tables|
        ensures tables[i] == tables[1..][i - 1]
      {
        TailIndex(tables, i);
      }
    }
  }

  /** `import_from_sheet`: one record per sheet, named after it, until the first sheet that cannot be read. */
  function ImportFromSheets(analysis: nat, sheets: seq<Sheet>): (r: SheetImport)
    ensures r.failure.None? <==> forall i :: 0 <= i < |sheets| ==> SheetToTable(sheets[i].rows).Ok?
    ensures r.failure.Some? ==> r.failure.value == EmptySheet
    ensures r.failure.None? ==> |r.created| == |sheets|
    ensures r.failure.Some? ==> |r.created| < |sheets| && SheetToTable(sheets[|r.created|].rows).Err?
    ensures forall i :: 0 <= i < |r.created| ==>
              (i < |sheets| && SheetToTable(sheets[i].rows).Ok? &&
               r.created[i] == AdditionalData(sheets[i].name, analysis, SheetToTable(sheets[i].rows).value))
  {
    ImportTablesSpec(analysis, SheetNames(sheets), SheetTables(sheets));
    ImportTables(analysis, SheetNames(sheets), SheetTables(sheets))
  }

  /** The loop over read sheets distributes over a split of the list, stopping at the first failure. */
  lemma {:induction false} ImportTablesAppend(analysis: nat, n1: seq<string>, t1: seq<Result<TableData>>,
                                             n2: seq<string>, t2: seq<Result<TableData>>)
    requires |n1| == |t1| && |n2| == |t2|
    ensures var first := ImportTables(analysis, n1, t1);
      var second := ImportTables(analysis, n2, t2);
      ImportTables(analysis, n1 + n2, t1 + t2) ==
        if first.failure.Some? then first else SheetImport(first.created + second.created, second.failure)
  {
    if |t1| == 0 {
      assert t1 + t2 == t2 && n1 + n2 == n2;
    } else {
      SplitHead(t1, t2);
      SplitHead(n1, n2);
      ImportTablesAppend(analysis, n1[1..], t1[1..], n2, t2);
      if t1[0].Ok? {
        var head := [AdditionalData(n1[0], analysis, t1[0].value)];
        var rest := ImportTables(analysis, n1[1..], t1[1..]);
        var second := ImportTables(analysis, n2, t2);
        assert ImportTables(analysis, n1, t1) == SheetImport(head + rest.created, rest.failure);
        if rest.failure.None? {
          Regroup(head, rest.created, second.created);
        }
      }
    }
  }

  /**
    Importing two workbooks' sheets in one go is importing the first, then,
    if it went through, the second after it.
   */
  lemma ImportFromSheetsAppend(analysis: nat, a: seq<Sheet>, b: seq<Sheet>)
    ensures var first := ImportFromSheets(analysis, a);
      var second := ImportFromSheets(analysis, b);
      ImportFromSheets(analysis, a + b) ==
        if first.failure.Some? then first else SheetImport(first.created + second.created, second.failure)
  {
    assert SheetNames(a + b) == SheetNames(a) + SheetNames(b);
    assert SheetTables(a + b) == SheetTables(a) + SheetTables(b);
    ImportTablesAppend(analysis, SheetNames(a), SheetTables(a), SheetNames(b), SheetTables(b));
  }
}
