/**
  `FeaturesSource` in `risks/views.py`: the renaming of URL arguments into
  feature-server query parameters, and the resolution of the dimensions of an
  analysis into the layer columns that hold their values.
 */
module Features {
  import opened Base
  import opened Catalog

  /** `KWARGS_MAPPING`: URL argument name to query parameter name. */
  function MappedName(k: string): (r: Option<string>)
    ensures r.Some? <==> k in {"loc", "ht", "an", "evt"}
  {
    if k == "loc" then Some("adm_code")
    else if k == "ht" then Some("hazard_type")
    else if k == "an" then Some("risk_analysis")
    else if k == "evt" then Some("event_id")
    else None
  }

  /** The inverse of `MappedName`. */
  function UrlName(p: string): Option<string>
  {
    if p == "adm_code" then Some("loc")
    else if p == "hazard_type" then Some("ht")
    else if p == "risk_analysis" then Some("an")
    else if p == "event_id" then Some("evt")
    else None
  }

  lemma MappedNameInverse(k: string, p: string)
    ensures MappedName(k) == Some(p) <==> UrlName(p) == Some(k)
  {
  }

  /** `url_kwargs_to_query_params`: mapped arguments renamed, the others dropped. */
  function QueryParams<V>(kwargs: map<string, V>): (r: map<string, V>)
    ensures forall p :: p in r <==> UrlName(p).Some? && UrlName(p).value in kwargs
    ensures forall p :: p in r ==> r[p] == kwargs[UrlName(p).value]
  {
    map p | p in {"adm_code", "hazard_type", "risk_analysis", "event_id"} && UrlName(p).value in kwargs
      :: kwargs[UrlName(p).value]
  }

  /** Every mapped argument appears under its new name with its value unchanged. */
  lemma QueryParamsKeepsMapped<V>(kwargs: map<string, V>)
    ensures forall k :: k in kwargs && MappedName(k).Some? ==>
      MappedName(k).value in QueryParams(kwargs) && QueryParams(kwargs)[MappedName(k).value] == kwargs[k]
  {
    var r := QueryParams(kwargs);
    forall k | k in kwargs && MappedName(k).Some?
      ensures MappedName(k).value in r && r[MappedName(k).value] == kwargs[k]
    {
      MappedNameInverse(k, MappedName(k).value);
    }
  }

  /**
    The names `axis_to_dim` gives the bindings of a list; every binding read
    is a stored one, so none of these lookups fails.
   */
  function AxisNames(store: seq<Binding>, bs: seq<Binding>): (r: seq<string>)
    requires forall b :: b in bs ==> b in store
    ensures |r| == |bs|
    ensures forall i :: 0 <= i < |bs| ==> AxisToDim(store, bs[i]) == Ok(r[i])
  {
    if |bs| == 0 then []
    else
      AxisToDimSpec(store, bs[0], bs[0]);
      [AxisToDim(store, bs[0]).value] + AxisNames(store, bs[1..])
  }

  /**
    `get_dim_association`: the layer column of a dimension of an analysis.
    Every binding of the pair must resolve to the same column; the error
    carries the number of distinct columns found (0 when there is no binding).
   */
  function DimAssociation(store: seq<Binding>, analysis: nat, dim: nat): (r: Result<string>)
    ensures r.Err? ==> r.error.AmbiguousAxis? && r.error.count != 1
  {
    var names := AxisNames(store, Select(store, OfPair(analysis, dim)));
    if |names| > 0 && (forall i :: 0 <= i < |names| ==> names[i] == names[0]) then
      Ok(names[0])
    else
      DistinctCount(names);
      Err(AmbiguousAxis(|set n | n in names|))
  }

  /** `b` is a stored binding of dimension `dim` to `analysis`. */
  predicate Binds(store: seq<Binding>, analysis: nat, dim: nat, b: Binding)
  {
    b in store && b.analysis == analysis && b.dimension == dim
  }

  /**
    `get_dim_association` succeeds exactly when the pair has a binding and
    all its bindings resolve to one column, which is then the result; an
    error reports no column for an unbound pair and at least two otherwise.
   */
  lemma DimAssociationSpec(store: seq<Binding>, analysis: nat, dim: nat)
    ensures DimAssociation(store, analysis, dim).Ok? <==>
      (exists b :: Binds(store, analysis, dim, b)) &&
      (forall b, c :: Binds(store, analysis, dim, b) && Binds(store, analysis, dim, c) ==> AxisToDim(store, b) == AxisToDim(store, c))
    ensures DimAssociation(store, analysis, dim).Ok? ==>
      forall b :: Binds(store, analysis, dim, b) ==> AxisToDim(store, b) == Ok(DimAssociation(store, analysis, dim).value)
    ensures DimAssociation(store, analysis, dim) == Err(AmbiguousAxis(0)) <==> forall b :: !Binds(store, analysis, dim, b)
  {
    var bs := Select(store, OfPair(analysis, dim));
    var names := AxisNames(store, bs);
    var r := DimAssociation(store, analysis, dim);
    DistinctCount(names);
    if r.Ok? {
      ResolvedBinds(store, analysis, dim);
    } else if |names| == 0 {
      UnboundPair(store, analysis, dim);
    } else {
      AmbiguousBinds(store, analysis, dim);
    }
  }

  /** A resolved pair has a binding, and each of its bindings resolves to the result. */
  lemma ResolvedBinds(store: seq<Binding>, analysis: nat, dim: nat)
    requires DimAssociation(store, analysis, dim).Ok?
    ensures exists b :: Binds(store, analysis, dim, b)
    ensures forall b :: Binds(store, analysis, dim, b) ==> AxisToDim(store, b) == Ok(DimAssociation(store, analysis, dim).value)
  {
    var r := DimAssociation(store, analysis, dim);
    forall b | Binds(store, analysis, dim, b)
      ensures AxisToDim(store, b) == Ok(r.value)
    {
      var i := BindsNamed(store, analysis, dim, b);
    }
    SelectedBinds(store, analysis, dim, 0);
  }

  /** When no column name is found, the pair has no binding. */
  lemma UnboundPair(store: seq<Binding>, analysis: nat, dim: nat)
    requires |AxisNames(store, Select(store, OfPair(analysis, dim)))| == 0
    ensures forall b :: !Binds(store, analysis, dim, b)
  {
    forall b | Binds(store, analysis, dim, b)
      ensures false
    {
      var i := BindsNamed(store, analysis, dim, b);
    }
  }

  /** A failure with some column name found exhibits two bindings that resolve differently. */
  lemma AmbiguousBinds(store: seq<Binding>, analysis: nat, dim: nat)
    requires DimAssociation(store, analysis, dim).Err?
    requires |AxisNames(store, Select(store, OfPair(analysis, dim)))| > 0
    ensures exists b, c :: Binds(store, analysis, dim, b) && Binds(store, analysis, dim, c) && AxisToDim(store, b) != AxisToDim(store, c)
  {
    var bs := Select(store, OfPair(analysis, dim));
    var names := AxisNames(store, bs);
    var i :| 0 <= i < |names| && names[i] != names[0];
    SelectedBinds(store, analysis, dim, i);
    SelectedBinds(store, analysis, dim, 0);
    assert AxisToDim(store, bs[i]) != AxisToDim(store, bs[0]);
  }

  /** Every selected binding binds the pair. */
  lemma SelectedBinds(store: seq<Binding>, analysis: nat, dim: nat, i: int)
    requires 0 <= i < |Select(store, OfPair(analysis, dim))|
    ensures Binds(store, analysis, dim, Select(store, OfPair(analysis, dim))[i])
  {
    var bs := Select(store, OfPair(analysis, dim));
    assert bs[i] in bs;
  }

  /** A binding of the pair is selected, and its column is the name at its position. */
  lemma BindsNamed(store: seq<Binding>, analysis: nat, dim: nat, b: Binding) returns (i: int)
    requires Binds(store, analysis, dim, b)
    ensures 0 <= i < |Select(store, OfPair(analysis, dim))|
    ensures AxisToDim(store, b) == Ok(AxisNames(store, Select(store, OfPair(analysis, dim)))[i])
  {
    var bs := Select(store, OfPair(analysis, dim));
    assert b in bs;
    i :| 0 <= i < |bs| && bs[i] == b;
  }

  /**
    A dimension whose bindings all sit on axes that the analysis maps to one
    column resolves to that column.
   */
  lemma DimAssociationOfColumn(store: seq<Binding>, analysis: nat, dim: nat, column: string)
    requires exists b :: Binds(store, analysis, dim, b)
    requires forall b, c :: Binds(store, analysis, dim, b) && c in store && c.analysis == analysis && c.axis == b.axis ==>
      c.layerAttribute == column
    ensures DimAssociation(store, analysis, dim) == Ok(column)
  {
    forall b | Binds(store, analysis, dim, b)
      ensures AxisToDim(store, b) == Ok(column)
    {
      AxisToDimSpec(store, b, b);
    }
    DimAssociationSpec(store, analysis, dim);
    var b :| Binds(store, analysis, dim, b);
  }

  /** A sequence has exactly one distinct element iff it is non-empty and constant. */
  lemma DistinctCount(names: seq<string>)
    ensures |set n | n in names| == 0 <==> |names| == 0
    ensures |names| > 0 && (forall i :: 0 <= i < |names| ==> names[i] == names[0]) ==> (set n | n in names) == {names[0]}
    ensures (exists i :: 0 <= i < |names| && names[i] != names[0]) ==> |set n | n in names| >= 2
  {
    var distinct := set n | n in names;
    if |names| > 0 {
      assert names[0] in distinct;
    }
    if exists i :: 0 <= i < |names| && names[i] != names[0] {
      var i :| 0 <= i < |names| && names[i] != names[0];
      assert {names[0], names[i]} <= distinct;
      assert |{names[0], names[i]}| == 2;
      SubsetSize({names[0], names[i]}, distinct);
    }
  }

  lemma SubsetSize<T>(a: set<T>, b: set<T>)
    requires a <= b
    ensures |a| <= |b|
  {
    assert b == a + (b - a);
  }

  /** The dimensions other than `primary` (compared by id), in list order and with their repetitions. */
  function OtherDims(primary: DimInfo, dims: seq<DimInfo>): (r: seq<DimInfo>)
    ensures forall d: DimInfo :: d.id == primary.id ==> d !in r
    ensures forall d: DimInfo :: d.id != primary.id ==> Count(r, d) == Count(dims, d)
    ensures |r| <= |dims|
  {
    if |dims| == 0 then []
    else if dims[0].id == primary.id then OtherDims(primary, dims[1..])
    else [dims[0]] + OtherDims(primary, dims[1..])
  }

  /** Every dimension of the list resolves to a column. */
  predicate AllResolve(store: seq<Binding>, analysis: nat, dims: seq<DimInfo>)
  {
    forall i :: 0 <= i < |dims| ==> DimAssociation(store, analysis, dims[i].id).Ok?
  }

  /** `dims[i]` is the first dimension of the list whose column cannot be resolved. */
  predicate FirstFailure(store: seq<Binding>, analysis: nat, dims: seq<DimInfo>, i: int)
  {
    0 <= i < |dims| && DimAssociation(store, analysis, dims[i].id).Err? &&
    forall j :: 0 <= j < i ==> DimAssociation(store, analysis, dims[j].id).Ok?
  }

  /** The columns of a list of dimensions, in list order; the first failure is the result. */
  function Columns(store: seq<Binding>, analysis: nat, dims: seq<DimInfo>): (r: Result<seq<string>>)
    ensures r.Ok? <==> AllResolve(store, analysis, dims)
    ensures r.Ok? ==> |r.value| == |dims|
    ensures r.Ok? ==> forall i :: 0 <= i < |dims| ==> DimAssociation(store, analysis, dims[i].id) == Ok(r.value[i])
    ensures r.Err? ==> exists i :: FirstFailure(store, analysis, dims, i) && r.error == DimAssociation(store, analysis, dims[i].id).error
  {
    if |dims| == 0 then Ok([])
    else
      var first :- DimAssociation(store, analysis, dims[0].id);
      var rest := Columns(store, analysis, dims[1..]);
      if rest.Err? then
        var i :| FirstFailure(store, analysis, dims[1..], i) && rest.error == DimAssociation(store, analysis, dims[1..][i].id).error;
        FirstFailureLater(store, analysis, dims, i);
        Err(rest.error)
      else
        ColumnsCons(store, analysis, dims, first, rest.value);
        Ok([first] + rest.value)
  }

  /** The head's column followed by the tail's columns are the list's columns. */
  lemma ColumnsCons(store: seq<Binding>, analysis: nat, dims: seq<DimInfo>, first: string, rest: seq<string>)
    requires |dims| > 0 && DimAssociation(store, analysis, dims[0].id) == Ok(first)
    requires |rest| == |dims| - 1
    requires forall i :: 0 <= i < |rest| ==> DimAssociation(store, analysis, dims[1..][i].id) == Ok(rest[i])
    ensures AllResolve(store, analysis, dims)
    ensures forall i :: 0 <= i < |dims| ==> DimAssociation(store, analysis, dims[i].id) == Ok(([first] + rest)[i])
  {
    forall i | 0 < i < |dims|
      ensures DimAssociation(store, analysis, dims[i].id) == Ok(([first] + rest)[i])
    {
      TailIndex(dims, i);
      ConsIndex(first, rest, i);
    }
  }

  /** A first failure in the tail of a list whose head resolves is the list's first failure, one place on. */
  lemma FirstFailureLater(store: seq<Binding>, analysis: nat, dims: seq<DimInfo>, i: int)
    requires |dims| > 0 && DimAssociation(store, analysis, dims[0].id).Ok?
    requires FirstFailure(store, analysis, dims[1..], i)
    ensures FirstFailure(store, analysis, dims, i + 1) && dims[i + 1] == dims[1..][i]
  {
    forall j | 0 <= j < i + 1
      ensures DimAssociation(store, analysis, dims[j].id).Ok?
    {
      if j > 0 {
        TailIndex(dims, j);
      }
    }
  }

  /**
    `get_dymlist_field_mapping`: the columns of the primary dimension and
    then of every other listed dimension, with the single base layer name.
   */
  function FieldMapping(store: seq<Binding>, analysis: nat, layerName: string, primary: DimInfo, dymlist: seq<DimInfo>)
    : (r: Result<(seq<string>, seq<string>)>)
    ensures r.Ok? <==> AllResolve(store, analysis, [primary] + OtherDims(primary, dymlist))
    ensures r.Ok? ==> r.value.1 == [layerName]
    ensures r.Ok? ==> |r.value.0| == 1 + |OtherDims(primary, dymlist)|
    ensures r.Ok? ==> DimAssociation(store, analysis, primary.id) == Ok(r.value.0[0])
    ensures r.Ok? ==> forall i :: 0 <= i < |OtherDims(primary, dymlist)| ==>
      DimAssociation(store, analysis, OtherDims(primary, dymlist)[i].id) == Ok(r.value.0[i + 1])
  {
    var dims := [primary] + OtherDims(primary, dymlist);
    var columns := Columns(store, analysis, dims);
    if columns.Err? then
      Err(columns.error)
    else
      assert forall i :: 0 <= i < |OtherDims(primary, dymlist)| ==> OtherDims(primary, dymlist)[i] == dims[i + 1];
      Ok((columns.value, [layerName]))
  }

  /** When the list does not mention the primary dimension, it keeps every entry. */
  lemma {:induction false} OtherDimsWithoutPrimary(primary: DimInfo, dims: seq<DimInfo>)
    requires forall i :: 0 <= i < |dims| ==> dims[i].id != primary.id
    ensures OtherDims(primary, dims) == dims
  {
    if |dims| > 0 {
      OtherDimsWithoutPrimary(primary, dims[1..]);
      assert dims == [dims[0]] + dims[1..];
    }
  }

  /**
    The filter keeps list order: it distributes over a split of the list, so
    the kept dimensions come in the order the list gives them.
   */
  lemma {:induction false} OtherDimsAppend(primary: DimInfo, a: seq<DimInfo>, b: seq<DimInfo>)
    ensures OtherDims(primary, a + b) == OtherDims(primary, a) + OtherDims(primary, b)
  {
    if |a| == 0 {
      assert a + b == b;
    } else {
      assert (a + b)[0] == a[0] && (a + b)[1..] == a[1..] + b;
      OtherDimsAppend(primary, a[1..], b);
    }
  }
}
