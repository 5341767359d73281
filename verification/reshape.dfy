/**
  `DataExtractionView.reformat_features` in `risks/views.py`: raw features
  from the feature server become a table with one row per feature, holding
  the feature's value for each dimension followed by its measure, ordered
  by a composite order key that is then dropped.

  A feature is its property map. The measure and every value cell are
  opaque scalars; only the order properties are read as integers.
 */
module Reshape {
  import opened Base
  import opened Sorting
  import opened Catalog
  import opened Features

  type Properties = map<string, Scalar>

  /** The column of a dimension's value, `'{}_value'.format(column)`. */
  function ValueField(column: string): string { column + "_value" }

  /** The column of a dimension's order, `'{}_order'.format(column)`. */
  function OrderField(column: string): string { column + "_order" }

  function ValueFields(columns: seq<string>): (r: seq<string>)
    ensures |r| == |columns|
    ensures forall i :: 0 <= i < |columns| ==> r[i] == ValueField(columns[i])
  {
    seq(|columns|, i requires 0 <= i < |columns| => ValueField(columns[i]))
  }

  function OrderFields(columns: seq<string>): (r: seq<string>)
    ensures |r| == |columns|
    ensures forall i :: 0 <= i < |columns| ==> r[i] == OrderField(columns[i])
  {
    seq(|columns|, i requires 0 <= i < |columns| => OrderField(columns[i]))
  }

  // ---------------------------------------------------------------------
  // What the reshaper requires of a feature and what it makes of it
  // ---------------------------------------------------------------------

  /** An order property is usable when it is absent, null or an integer. */
  predicate OrderReadable(p: Properties, name: string)
  {
    name !in p || p[name].Null? || p[name].Int?
  }

  /** The order a property denotes; absent and null count as 0. */
  function OrderOf(p: Properties, name: string): int
  {
    if name in p && p[name].Int? then p[name].i else 0
  }

  /** A feature can be reshaped: every value column and `value` are present, every order is usable. */
  predicate WellFormed(p: Properties, columns: seq<string>)
  {
    && (forall i :: 0 <= i < |columns| ==> ValueField(columns[i]) in p)
    && "value" in p
    && (forall i :: 0 <= i < |columns| ==> OrderReadable(p, OrderField(columns[i])))
  }

  /** The sum of the orders of the given columns. */
  function OrderSum(p: Properties, columns: seq<string>): int
  {
    if |columns| == 0 then 0 else OrderOf(p, OrderField(columns[0])) + OrderSum(p, columns[1..])
  }

  /** The composite order: 1000 times the first dimension's order plus the others' orders. */
  function CompositeOrder(p: Properties, columns: seq<string>): int
  {
    if |columns| == 0 then 0 else 1000 * OrderOf(p, OrderField(columns[0])) + OrderSum(p, columns[1..])
  }

  /** The sort key: the composite order, or its decimal text when capitalising. */
  function KeyOf(p: Properties, columns: seq<string>, capitalize: bool): SortKey
  {
    var n := CompositeOrder(p, columns);
    if capitalize then TextKey(IntToText(n)) else IntKey(n)
  }

  /** The cells of the row of a feature: its dimension values, then its measure. */
  function Projection(p: Properties, columns: seq<string>): seq<Scalar>
    requires WellFormed(p, columns)
  {
    seq(|columns|, i requires 0 <= i < |columns| => p[ValueField(columns[i])]) + [p["value"]]
  }

  /** `str(item).capitalize()` of every cell. */
  function CapitalizeAll(cells: seq<Scalar>): (r: seq<Scalar>)
    ensures |r| == |cells|
    ensures forall i :: 0 <= i < |cells| ==> r[i] == Str(Capitalize(ToText(cells[i])))
  {
    seq(|cells|, i requires 0 <= i < |cells| => Str(Capitalize(ToText(cells[i]))))
  }

  function Display(cells: seq<Scalar>, capitalize: bool): seq<Scalar>
  {
    if capitalize then CapitalizeAll(cells) else cells
  }

  // ---------------------------------------------------------------------
  // The computation, in the order the Python code performs it
  // ---------------------------------------------------------------------

  /** `i` is the first name of the list missing from the properties. */
  predicate FirstMissing(p: Properties, names: seq<string>, i: int)
  {
    0 <= i < |names| && names[i] !in p && forall j :: 0 <= j < i ==> names[j] in p
  }

  /** `p[f]` for each name in turn; the first missing one raises. */
  function Cells(p: Properties, names: seq<string>): (r: Result<seq<Scalar>>)
    ensures r.Ok? <==> forall i :: 0 <= i < |names| ==> names[i] in p
    ensures r.Ok? ==> |r.value| == |names| && forall i :: 0 <= i < |names| ==> r.value[i] == p[names[i]]
    ensures r.Err? ==> exists i :: FirstMissing(p, names, i) && r.error == MissingProperty(names[i])
  {
    if |names| == 0 then Ok([])
    else if names[0] !in p then
      assert FirstMissing(p, names, 0);
      Err(MissingProperty(names[0]))
    else
      var rest := Cells(p, names[1..]);
      if rest.Err? then
        var i :| FirstMissing(p, names[1..], i) && rest.error == MissingProperty(names[1..][i]);
        assert FirstMissing(p, names, i + 1);
        Err(rest.error)
      else
        Ok([p[names[0]]] + rest.value)
  }

  /** One term of `make_order_val`: `int('{}'.format(val * mag))`, a missing or null `val` read as 0. */
  function OrderTerm(p: Properties, name: string, mag: int): (r: Result<int>)
    ensures r.Ok? <==> OrderReadable(p, name)
    ensures r.Ok? ==> r.value == mag * OrderOf(p, name)
    ensures r.Err? ==> r.error == BadOrderValue(name)
  {
    if name !in p then Ok(0)
    else match p[name]
      case Null => Ok(0)
      case Int(i) => Ok(i * mag)
      case _ => Err(BadOrderValue(name))
  }

  /** `make_order_val` from position `idx` on: the weight is 1000 at position 0 and 1 elsewhere. */
  function OrderValue(p: Properties, columns: seq<string>, idx: nat): (r: Result<int>)
    requires idx <= |columns|
    ensures r.Ok? <==> forall i :: idx <= i < |columns| ==> OrderReadable(p, OrderField(columns[i]))
    ensures r.Ok? && idx == 0 ==> r.value == CompositeOrder(p, columns)
    ensures r.Ok? && idx > 0 ==> r.value == OrderSum(p, columns[idx..])
    ensures r.Err? ==> r.error.BadOrderValue?
    decreases |columns| - idx
  {
    if idx == |columns| then Ok(0)
    else
      var term :- OrderTerm(p, OrderField(columns[idx]), if idx == 0 then 1000 else 1);
      var rest :- OrderValue(p, columns, idx + 1);
      assert columns[idx..][1..] == columns[idx + 1..];
      Ok(term + rest)
  }

  /** The row of one feature with its key, or the error the Python loop raises for it. */
  function Line(p: Properties, columns: seq<string>, capitalize: bool): (r: Result<Keyed<seq<Scalar>>>)
    ensures r.Ok? <==> WellFormed(p, columns)
    ensures r.Ok? ==> r.value == Keyed(KeyOf(p, columns, capitalize), Display(Projection(p, columns), capitalize))
    ensures r.Err? ==> r.error.MissingProperty? || r.error.BadOrderValue?
  {
    LineCells(p, columns);
    var cells :- Cells(p, ValueFields(columns) + ["value"]);
    var n :- OrderValue(p, columns, 0);
    if capitalize then
      CapitalizeIntText(n);
      Ok(Keyed(TextKey(Capitalize(ToText(Int(n)))), CapitalizeAll(cells)))
    else
      Ok(Keyed(IntKey(n), cells))
  }

  /** Reading the value columns and `value` succeeds exactly when they are all present, and gives the row's cells. */
  lemma LineCells(p: Properties, columns: seq<string>)
    ensures Cells(p, ValueFields(columns) + ["value"]).Ok? <==>
      (forall i :: 0 <= i < |columns| ==> ValueField(columns[i]) in p) && "value" in p
    ensures Cells(p, ValueFields(columns) + ["value"]).Ok? && WellFormed(p, columns) ==>
      Cells(p, ValueFields(columns) + ["value"]).value == Projection(p, columns)
  {
    var names := ValueFields(columns) + ["value"];
    forall i | 0 <= i < |columns|
      ensures names[i] == ValueField(columns[i])
    {
      AppendIndex(ValueFields(columns), ["value"], i);
    }
    AppendIndex(ValueFields(columns), ["value"], |columns|);
    var r := Cells(p, names);
    if r.Ok? && WellFormed(p, columns) {
      assert r.value == Projection(p, columns);
    }
  }

  /** Every feature reshapes. */
  predicate AllWellFormed(features: seq<Properties>, columns: seq<string>)
  {
    forall i :: 0 <= i < |features| ==> WellFormed(features[i], columns)
  }

  /** The lines of all features, in feature order; the first failing feature raises. */
  function Lines(features: seq<Properties>, columns: seq<string>, capitalize: bool): (r: Result<seq<Keyed<seq<Scalar>>>>)
    ensures r.Ok? <==> AllWellFormed(features, columns)
    ensures r.Ok? ==> |r.value| == |features|
    ensures r.Ok? ==> forall i :: 0 <= i < |features| ==>
      r.value[i] == Keyed(KeyOf(features[i], columns, capitalize), Display(Projection(features[i], columns), capitalize))
  {
    if |features| == 0 then Ok([])
    else
      var first :- Line(features[0], columns, capitalize);
      var rest :- Lines(features[1..], columns, capitalize);
      LinesCons(features, columns, capitalize, first, rest);
      Ok([first] + rest)
  }

  /** The head feature's line followed by the tail's lines are the lines of the list. */
  lemma LinesCons(features: seq<Properties>, columns: seq<string>, capitalize: bool,
                  first: Keyed<seq<Scalar>>, rest: seq<Keyed<seq<Scalar>>>)
    requires |features| > 0 && |rest| == |features| - 1
    requires AllWellFormed(features, columns)
    requires first == Keyed(KeyOf(features[0], columns, capitalize), Display(Projection(features[0], columns), capitalize))
    requires forall i :: 0 <= i < |rest| ==>
      rest[i] == Keyed(KeyOf(features[1..][i], columns, capitalize), Display(Projection(features[1..][i], columns), capitalize))
    ensures forall i :: 0 <= i < |features| ==>
      ([first] + rest)[i] == Keyed(KeyOf(features[i], columns, capitalize), Display(Projection(features[i], columns), capitalize))
  {
    forall i | 0 < i < |features|
      ensures ([first] + rest)[i] == Keyed(KeyOf(features[i], columns, capitalize), Display(Projection(features[i], columns), capitalize))
    {
      TailIndex(features, i);
      ConsIndex(first, rest, i);
    }
  }

  /** The sort keys of the features. */
  function FeatureKeys(features: seq<Properties>, columns: seq<string>, capitalize: bool): (r: seq<SortKey>)
    ensures |r| == |features|
    ensures forall i :: 0 <= i < |features| ==> r[i] == KeyOf(features[i], columns, capitalize)
  {
    seq(|features|, i requires 0 <= i < |features| => KeyOf(features[i], columns, capitalize))
  }

  // ---------------------------------------------------------------------
  // The reshaper
  // ---------------------------------------------------------------------

  datatype Table = Table(dimensions: seq<DimensionExport>, values: seq<seq<Scalar>>)

  /** The primary dimension, then the others with the primary's id removed. */
  function Dims(primary: DimInfo, dimensions: seq<DimInfo>): (r: seq<DimInfo>)
    ensures |r| > 0 && r[0] == primary
  {
    [primary] + OtherDims(primary, dimensions)
  }

  /** `[dim.set_risk_analysis(risk).export() for dim in dims]`. */
  function Exports(store: seq<Binding>, analysis: nat, dims: seq<DimInfo>): (r: seq<DimensionExport>)
    ensures |r| == |dims|
    ensures forall i :: 0 <= i < |dims| ==> Ok(r[i]) == ExportDimension(store, dims[i], analysis)
  {
    if |dims| == 0 then []
    else
      ExportDimensionSpec(store, dims[0], analysis);
      [ExportDimension(store, dims[0], analysis).value] + Exports(store, analysis, dims[1..])
  }

  /** `reformat_features(risk, dimension, dimensions, features, capitalize)`. */
  function Reformat(store: seq<Binding>, analysis: nat, primary: DimInfo, dimensions: seq<DimInfo>,
                    features: seq<Properties>, capitalize: bool): (r: Result<Table>)
    ensures r.Ok? ==> |r.value.values| == |features|
    ensures r.Ok? ==> |r.value.dimensions| == 1 + |OtherDims(primary, dimensions)|
    ensures r.Ok? ==> r.value.dimensions[0].id == primary.id
  {
    var dims := Dims(primary, dimensions);
    var columns :- Columns(store, analysis, dims);
    var lines :- Lines(features, columns, capitalize);
    ExportDimensionSpec(store, primary, analysis);
    Ok(Table(Exports(store, analysis, dims), Items(StableSort(lines))))
  }

  /**
    When the reshaper succeeds: exactly when every dimension resolves to one
    column and every feature has all the properties the columns name.
   */
  lemma ReformatSucceeds(store: seq<Binding>, analysis: nat, primary: DimInfo, dimensions: seq<DimInfo>,
                         features: seq<Properties>, capitalize: bool)
    ensures var columns := Columns(store, analysis, Dims(primary, dimensions));
      Reformat(store, analysis, primary, dimensions, features, capitalize).Ok? <==>
      columns.Ok? && AllWellFormed(features, columns.value)
    ensures Columns(store, analysis, Dims(primary, dimensions)).Err? ==>
      Reformat(store, analysis, primary, dimensions, features, capitalize).error.AmbiguousAxis?
  {
  }

  /** The dimensions of the table are the exports of the dimension list, in order. */
  lemma ReformatDimensions(store: seq<Binding>, analysis: nat, primary: DimInfo, dimensions: seq<DimInfo>,
                           features: seq<Properties>, capitalize: bool)
    requires Reformat(store, analysis, primary, dimensions, features, capitalize).Ok?
    ensures var t := Reformat(store, analysis, primary, dimensions, features, capitalize).value;
      var dims := Dims(primary, dimensions);
      |t.dimensions| == |dims| &&
      forall i :: 0 <= i < |dims| ==> Ok(t.dimensions[i]) == ExportDimension(store, dims[i], analysis)
  {
  }

  /**
    The rows of the table: the features rearranged by a stable order of their
    keys, each row being the feature's dimension values and measure (all
    capitalised strings in capitalising mode).
   */
  lemma ReformatRows(store: seq<Binding>, analysis: nat, primary: DimInfo, dimensions: seq<DimInfo>,
                     features: seq<Properties>, capitalize: bool)
    requires Reformat(store, analysis, primary, dimensions, features, capitalize).Ok?
    ensures Columns(store, analysis, Dims(primary, dimensions)).Ok?
    ensures AllWellFormed(features, Columns(store, analysis, Dims(primary, dimensions)).value)
    ensures var t := Reformat(store, analysis, primary, dimensions, features, capitalize).value;
      var columns := Columns(store, analysis, Dims(primary, dimensions)).value;
      exists order :: StableOrder(FeatureKeys(features, columns, capitalize), order) &&
        forall k :: 0 <= k < |features| ==> t.values[k] == Display(Projection(features[order[k]], columns), capitalize)
  {
    var columns := Columns(store, analysis, Dims(primary, dimensions)).value;
    var lines := Lines(features, columns, capitalize).value;
    var t := Reformat(store, analysis, primary, dimensions, features, capitalize).value;
    assert t.values == Items(StableSort(lines));
    SortedLines(features, columns, capitalize);
  }

  /** The sorted lines are the features' rows in a stable order of their keys. */
  lemma SortedLines(features: seq<Properties>, columns: seq<string>, capitalize: bool)
    requires AllWellFormed(features, columns)
    ensures var lines := Lines(features, columns, capitalize).value;
      exists order :: StableOrder(FeatureKeys(features, columns, capitalize), order) &&
        forall k :: 0 <= k < |features| ==> Items(StableSort(lines))[k] == Display(Projection(features[order[k]], columns), capitalize)
  {
    var lines := Lines(features, columns, capitalize).value;
    var keys := FeatureKeys(features, columns, capitalize);
    var rows := seq(|features|, i requires 0 <= i < |features| => Display(Projection(features[i], columns), capitalize));
    forall i | 0 <= i < |lines|
      ensures lines[i] == Keyed(keys[i], rows[i])
    {
    }
    SortedRows(lines, keys, rows);
    var order :| StableOrder(keys, order) && forall k :: 0 <= k < |lines| ==> Items(StableSort(lines))[k] == rows[order[k]];
    forall k | 0 <= k < |features|
      ensures Items(StableSort(lines))[k] == Display(Projection(features[order[k]], columns), capitalize)
    {
      assert 0 <= order[k] < |features|;
    }
  }

  /** Sorting rows tagged with keys lays them out in a stable order of the keys. */
  lemma SortedRows<T>(lines: seq<Keyed<T>>, keys: seq<SortKey>, rows: seq<T>)
    requires |lines| == |keys| == |rows|
    requires forall i :: 0 <= i < |lines| ==> lines[i] == Keyed(keys[i], rows[i])
    ensures exists order :: StableOrder(keys, order) && (forall k :: 0 <= k < |lines| ==> Items(StableSort(lines))[k] == rows[order[k]])
  {
    var sorted := StableSort(lines);
    assert KeysOf(lines) == keys;
    StableSortIsStableOrder(lines);
    var order :| StableOrder(keys, order) && forall k :: 0 <= k < |lines| ==> sorted[k] == lines[order[k]];
    forall k | 0 <= k < |lines|
      ensures Items(sorted)[k] == rows[order[k]]
    {
      assert 0 <= order[k] < |lines|;
    }
  }

  // ---------------------------------------------------------------------
  // The composite order key
  // ---------------------------------------------------------------------

  /**
    The composite order is a two-digit number in base 1000: while the other
    dimensions' orders sum to a value in [0, 1000), the first dimension's
    order and that sum can be read back from it.
   */
  lemma CompositeOrderDecodes(p: Properties, columns: seq<string>)
    requires |columns| > 0
    requires 0 <= OrderSum(p, columns[1..]) < 1000
    ensures CompositeOrder(p, columns) / 1000 == OrderOf(p, OrderField(columns[0]))
    ensures CompositeOrder(p, columns) % 1000 == OrderSum(p, columns[1..])
  {
    var a, b := OrderOf(p, OrderField(columns[0])), OrderSum(p, columns[1..]);
    assert CompositeOrder(p, columns) == a * 1000 + b;
  }

  /**
    Within that range the key orders features lexicographically: first by
    the first dimension's order, then by the sum of the others.
   */
  lemma CompositeOrderLexicographic(p: Properties, q: Properties, columns: seq<string>)
    requires |columns| > 0
    requires 0 <= OrderSum(p, columns[1..]) < 1000 && 0 <= OrderSum(q, columns[1..]) < 1000
    ensures var f := OrderField(columns[0]);
      CompositeOrder(p, columns) <= CompositeOrder(q, columns) <==>
      OrderOf(p, f) < OrderOf(q, f) || (OrderOf(p, f) == OrderOf(q, f) && OrderSum(p, columns[1..]) <= OrderSum(q, columns[1..]))
  {
    CompositeOrderDecodes(p, columns);
    CompositeOrderDecodes(q, columns);
  }

  /**
    Outside that range distinct orders collide: a secondary order of 1000
    weighs as much as a first-dimension order of 1.
   */
  lemma CompositeOrderCollides()
    ensures var columns := ["dim1", "dim2"];
      var p := map["dim1_order" := Int(0), "dim2_order" := Int(1000)];
      var q := map["dim1_order" := Int(1), "dim2_order" := Int(0)];
      OrderOf(p, "dim1_order") != OrderOf(q, "dim1_order") &&
      CompositeOrder(p, columns) == CompositeOrder(q, columns) == 1000
  {
    var columns := ["dim1", "dim2"];
    assert columns[1..] == ["dim2"];
    assert OrderField("dim1") == "dim1_order" && OrderField("dim2") == "dim2_order";
  }

  /**
    Orders [2, 1] and [1, 5] give the keys 2001 and 1005, so the second
    feature sorts first.
   */
  lemma CompositeOrderExample()
    ensures var columns := ["dim1", "dim2"];
      var p := map["dim1_order" := Int(2), "dim2_order" := Int(1)];
      var q := map["dim1_order" := Int(1), "dim2_order" := Int(5)];
      CompositeOrder(p, columns) == 2001 && CompositeOrder(q, columns) == 1005 &&
      KeyLe(KeyOf(q, columns, false), KeyOf(p, columns, false)) &&
      !KeyLe(KeyOf(p, columns, false), KeyOf(q, columns, false))
  {
    var columns := ["dim1", "dim2"];
    assert columns[1..] == ["dim2"];
    assert OrderField("dim1") == "dim1_order" && OrderField("dim2") == "dim2_order";
  }

  /** Two features whose composite orders are 2 and 1000. */
  const EarlyFeature: Properties := map[
    "dim1_value" := Str("RP-10"), "dim1_order" := Int(0),
    "dim2_value" := Str("base"), "dim2_order" := Int(2), "value" := Other("5.0")]

  const LateFeature: Properties := map[
    "dim1_value" := Str("RP-20"), "dim1_order" := Int(1),
    "dim2_value" := Str("base"), "dim2_order" := Int(0), "value" := Other("9.0")]

  /** A feature with values and integer orders on the columns `dim1` and `dim2`. */
  lemma TwoDimFeature(p: Properties, v1: Scalar, o1: int, v2: Scalar, o2: int, m: Scalar)
    requires p == map["dim1_value" := v1, "dim1_order" := Int(o1), "dim2_value" := v2, "dim2_order" := Int(o2), "value" := m]
    ensures WellFormed(p, ["dim1", "dim2"])
    ensures Projection(p, ["dim1", "dim2"]) == [v1, v2, m]
    ensures CompositeOrder(p, ["dim1", "dim2"]) == 1000 * o1 + o2
  {
    var columns := ["dim1", "dim2"];
    assert columns[1..] == ["dim2"];
    assert OrderField("dim1") == "dim1_order" && OrderField("dim2") == "dim2_order";
    assert ValueField("dim1") == "dim1_value" && ValueField("dim2") == "dim2_value";
    assert WellFormed(p, columns);
    assert OrderOf(p, "dim1_order") == o1 && OrderOf(p, "dim2_order") == o2;
    assert ["dim2"][1..] == [];
    assert OrderSum(p, ["dim2"]) == o2;
    var cells := Projection(p, columns);
    assert cells[0] == v1 && cells[1] == v2 && cells[2] == m;
  }

  lemma EarlyLateFeatures()
    ensures WellFormed(EarlyFeature, ["dim1", "dim2"]) && WellFormed(LateFeature, ["dim1", "dim2"])
    ensures CompositeOrder(EarlyFeature, ["dim1", "dim2"]) == 2
    ensures CompositeOrder(LateFeature, ["dim1", "dim2"]) == 1000
    ensures Projection(EarlyFeature, ["dim1", "dim2"]) == [Str("RP-10"), Str("base"), Other("5.0")]
    ensures Projection(LateFeature, ["dim1", "dim2"]) == [Str("RP-20"), Str("base"), Other("9.0")]
  {
    TwoDimFeature(EarlyFeature, Str("RP-10"), 0, Str("base"), 2, Other("5.0"));
    TwoDimFeature(LateFeature, Str("RP-20"), 1, Str("base"), 0, Other("9.0"));
  }

  /**
    In capitalising mode the keys are compared as text: the key "1000" sorts
    before "2" although 1000 > 2, so the order of the rows flips.
   */
  lemma CapitalizedKeysCompareAsText()
    ensures KeyOf(LateFeature, ["dim1", "dim2"], true) == TextKey("1000")
    ensures KeyOf(EarlyFeature, ["dim1", "dim2"], true) == TextKey("2")
    ensures KeyLe(KeyOf(LateFeature, ["dim1", "dim2"], true), KeyOf(EarlyFeature, ["dim1", "dim2"], true))
    ensures !KeyLe(KeyOf(EarlyFeature, ["dim1", "dim2"], true), KeyOf(LateFeature, ["dim1", "dim2"], true))
    ensures KeyLe(KeyOf(EarlyFeature, ["dim1", "dim2"], false), KeyOf(LateFeature, ["dim1", "dim2"], false))
    ensures !KeyLe(KeyOf(LateFeature, ["dim1", "dim2"], false), KeyOf(EarlyFeature, ["dim1", "dim2"], false))
  {
    EarlyLateFeatures();
    assert IntToText(1000) == "1000" by {
      assert NatToText(1) == "1";
      assert NatToText(10) == "10";
      assert NatToText(100) == "100";
    }
    assert IntToText(2) == "2";
  }

  // ---------------------------------------------------------------------
  // A worked example
  // ---------------------------------------------------------------------

  /**
    Analysis 1 bound to "Round Period" (dimension 10, axis x, column `dim1`,
    values RP-10 and RP-20) and to "Scenario" (dimension 20, axis y, column
    `dim2`, values Base and Scenario-1).
   */
  const ExampleStore: seq<Binding> := [
    Binding(1, 1, 10, "x", 0, "RP-10", "dim1", None, None),
    Binding(2, 1, 10, "x", 1, "RP-20", "dim1", None, None),
    Binding(3, 1, 20, "y", 0, "Base", "dim2", None, None),
    Binding(4, 1, 20, "y", 1, "Scenario-1", "dim2", None, None)]

  const RoundPeriod := DimInfo(10, "Round Period", "", "")
  const ScenarioDim := DimInfo(20, "Scenario", "", "")

  const ExampleFirst: Properties := map[
    "dim1_value" := Str("RP-10"), "dim1_order" := Int(0),
    "dim2_value" := Str("Base"), "dim2_order" := Int(0), "value" := Other("5.0")]

  const ExampleSecond: Properties := map[
    "dim1_value" := Str("RP-20"), "dim1_order" := Int(1),
    "dim2_value" := Str("Base"), "dim2_order" := Int(0), "value" := Other("9.0")]

  /**
    A store shaped like the example: every binding of analysis 1 binds
    dimension 10 on axis x to column `dim1` or dimension 20 on axis y to
    column `dim2`, and both dimensions are bound.
   */
  predicate ExampleShaped(store: seq<Binding>)
  {
    && (forall c :: c in store && c.analysis == 1 ==>
          (c.dimension == 10 && c.axis == "x" && c.layerAttribute == "dim1") ||
          (c.dimension == 20 && c.axis == "y" && c.layerAttribute == "dim2"))
    && (exists b :: b in store && Binds(store, 1, 10, b))
    && (exists b :: b in store && Binds(store, 1, 20, b))
  }

  lemma ExampleStoreShaped()
    ensures ExampleShaped(ExampleStore)
  {
    assert Binds(ExampleStore, 1, 10, ExampleStore[0]);
    assert Binds(ExampleStore, 1, 20, ExampleStore[2]);
  }

  /** A primary listed first and one other dimension give the dimension list `[primary, other]`. */
  lemma DimsOfTwo(p: DimInfo, q: DimInfo)
    requires p.id != q.id
    ensures Dims(p, [p, q]) == [p, q]
  {
    assert [p, q][1..] == [q] && [q][1..] == [];
    assert OtherDims(p, [q]) == [q];
  }

  /** Two distinct dimensions that resolve to columns give the column list of a reshape. */
  lemma TwoColumns(store: seq<Binding>, analysis: nat, p: DimInfo, q: DimInfo, cp: string, cq: string)
    requires p.id != q.id
    requires DimAssociation(store, analysis, p.id) == Ok(cp)
    requires DimAssociation(store, analysis, q.id) == Ok(cq)
    ensures Columns(store, analysis, Dims(p, [p, q])) == Ok([cp, cq])
  {
    DimsOfTwo(p, q);
    var dims := [p, q];
    assert AllResolve(store, analysis, dims);
    var r := Columns(store, analysis, dims);
    assert DimAssociation(store, analysis, dims[0].id) == Ok(r.value[0]);
    assert DimAssociation(store, analysis, dims[1].id) == Ok(r.value[1]);
    assert r.value == [cp, cq];
  }

  lemma ExampleRoundPeriod(store: seq<Binding>)
    requires ExampleShaped(store)
    ensures DimAssociation(store, 1, 10) == Ok("dim1")
  {
    DimAssociationOfColumn(store, 1, 10, "dim1");
  }

  lemma ExampleScenario(store: seq<Binding>)
    requires ExampleShaped(store)
    ensures DimAssociation(store, 1, 20) == Ok("dim2")
  {
    DimAssociationOfColumn(store, 1, 20, "dim2");
  }

  /** In a store shaped like the example the two dimensions resolve to `dim1` and `dim2`. */
  lemma ExampleColumns(store: seq<Binding>)
    requires ExampleShaped(store)
    ensures Columns(store, 1, Dims(RoundPeriod, [RoundPeriod, ScenarioDim])) == Ok(["dim1", "dim2"])
  {
    ExampleRoundPeriod(store);
    ExampleScenario(store);
    TwoColumns(store, 1, RoundPeriod, ScenarioDim, "dim1", "dim2");
  }

  /** A reshape whose columns resolve and whose features are well formed sorts their lines. */
  lemma ReformatValues(store: seq<Binding>, analysis: nat, primary: DimInfo, dimensions: seq<DimInfo>,
                       features: seq<Properties>, capitalize: bool, columns: seq<string>)
    requires Columns(store, analysis, Dims(primary, dimensions)) == Ok(columns)
    requires AllWellFormed(features, columns)
    ensures Reformat(store, analysis, primary, dimensions, features, capitalize).Ok?
    ensures Reformat(store, analysis, primary, dimensions, features, capitalize).value.values ==
      Items(StableSort(Lines(features, columns, capitalize).value))
  {
  }

  /** The lines of two well-formed features. */
  lemma TwoLines(p: Properties, q: Properties, columns: seq<string>, capitalize: bool)
    requires WellFormed(p, columns) && WellFormed(q, columns)
    ensures Lines([p, q], columns, capitalize) == Ok([
      Keyed(KeyOf(p, columns, capitalize), Display(Projection(p, columns), capitalize)),
      Keyed(KeyOf(q, columns, capitalize), Display(Projection(q, columns), capitalize))])
  {
    var features := [p, q];
    assert AllWellFormed(features, columns);
    var r := Lines(features, columns, capitalize);
    assert |r.value| == 2 && features[0] == p && features[1] == q;
    assert r.value == [r.value[0], r.value[1]];
  }

  /** Two lines already in key order are left as they are. */
  lemma SortTwo<T>(a: Keyed<T>, b: Keyed<T>)
    requires KeyLe(a.key, b.key)
    ensures StableSort([a, b]) == [a, b]
    ensures Items(StableSort([a, b])) == [a.item, b.item]
  {
    assert [a, b][..1] == [a];
  }

  /** Two lines in reverse key order are swapped. */
  lemma SwapTwo<T>(a: Keyed<T>, b: Keyed<T>)
    requires !KeyLe(a.key, b.key)
    ensures StableSort([a, b]) == [b, a]
    ensures Items(StableSort([a, b])) == [b.item, a.item]
  {
    assert [a, b][..1] == [a];
  }

  /** The two example features' order keys and rows. */
  lemma ExampleLines()
    ensures Lines([ExampleFirst, ExampleSecond], ["dim1", "dim2"], false) == Ok([
      Keyed(IntKey(0), [Str("RP-10"), Str("Base"), Other("5.0")]),
      Keyed(IntKey(1000), [Str("RP-20"), Str("Base"), Other("9.0")])])
  {
    var columns := ["dim1", "dim2"];
    TwoDimFeature(ExampleFirst, Str("RP-10"), 0, Str("Base"), 0, Other("5.0"));
    TwoDimFeature(ExampleSecond, Str("RP-20"), 1, Str("Base"), 0, Other("9.0"));
    TwoLines(ExampleFirst, ExampleSecond, columns, false);
  }

  /**
    Reshaping the two example features with "Round Period" as primary
    dimension: keys 0 and 1000, so RP-10 comes first.
   */
  lemma ExampleReformat()
    ensures var r := Reformat(ExampleStore, 1, RoundPeriod, [RoundPeriod, ScenarioDim], [ExampleFirst, ExampleSecond], false);
      r.Ok? && r.value.values == [[Str("RP-10"), Str("Base"), Other("5.0")], [Str("RP-20"), Str("Base"), Other("9.0")]]
  {
    ExampleStoreShaped();
    ExampleReformatIn(ExampleStore);
  }

  lemma ExampleReformatIn(store: seq<Binding>)
    requires ExampleShaped(store)
    ensures var r := Reformat(store, 1, RoundPeriod, [RoundPeriod, ScenarioDim], [ExampleFirst, ExampleSecond], false);
      r.Ok? && r.value.values == [[Str("RP-10"), Str("Base"), Other("5.0")], [Str("RP-20"), Str("Base"), Other("9.0")]]
  {
    var columns := ["dim1", "dim2"];
    ExampleColumns(store);
    ExampleLines();
    var first := Keyed(IntKey(0), [Str("RP-10"), Str("Base"), Other("5.0")]);
    var second := Keyed(IntKey(1000), [Str("RP-20"), Str("Base"), Other("9.0")]);
    SortTwo(first, second);
    ReformatValues(store, 1, RoundPeriod, [RoundPeriod, ScenarioDim], [ExampleFirst, ExampleSecond], false, columns);
  }

  /** Without capitalising, the row of key 2 comes before the row of key 1000. */
  lemma ExamplePlainOrder()
    ensures Lines([EarlyFeature, LateFeature], ["dim1", "dim2"], false).Ok?
    ensures Items(StableSort(Lines([EarlyFeature, LateFeature], ["dim1", "dim2"], false).value)) ==
      [[Str("RP-10"), Str("base"), Other("5.0")], [Str("RP-20"), Str("base"), Other("9.0")]]
  {
    EarlyLateFeatures();
    var e := [Str("RP-10"), Str("base"), Other("5.0")];
    var l := [Str("RP-20"), Str("base"), Other("9.0")];
    TwoLines(EarlyFeature, LateFeature, ["dim1", "dim2"], false);
    SortTwo(Keyed(IntKey(2), e), Keyed(IntKey(1000), l));
  }

  /**
    Capitalising changes the cells and the order: "RP-20" becomes "Rp-20",
    and the row of key 1000 is put before the row of key 2.
   */
  lemma ExampleCapitalizedOrder()
    ensures Lines([EarlyFeature, LateFeature], ["dim1", "dim2"], true).Ok?
    ensures Items(StableSort(Lines([EarlyFeature, LateFeature], ["dim1", "dim2"], true).value)) ==
      [[Str("Rp-20"), Str("Base"), Str("9.0")], [Str("Rp-10"), Str("Base"), Str("5.0")]]
  {
    var columns := ["dim1", "dim2"];
    EarlyLateFeatures();
    CapitalizedKeysCompareAsText();
    var ce := [Str("Rp-10"), Str("Base"), Str("5.0")];
    var cl := [Str("Rp-20"), Str("Base"), Str("9.0")];
    ExampleCapitalizedCells();
    TwoLines(EarlyFeature, LateFeature, columns, true);
    SwapTwo(Keyed(KeyOf(EarlyFeature, columns, true), ce), Keyed(KeyOf(LateFeature, columns, true), cl));
  }

  lemma ExampleCapitalizedCells()
    ensures CapitalizeAll([Str("RP-10"), Str("base"), Other("5.0")]) == [Str("Rp-10"), Str("Base"), Str("5.0")]
    ensures CapitalizeAll([Str("RP-20"), Str("base"), Other("9.0")]) == [Str("Rp-20"), Str("Base"), Str("9.0")]
  {
    CapitalizeThree(Str("RP-10"), Str("base"), Other("5.0"));
    CapitalizeThree(Str("RP-20"), Str("base"), Other("9.0"));
    ExampleCapitalizedTexts();
  }

  /** The capitalised cells of a three-cell row. */
  lemma CapitalizeThree(x: Scalar, y: Scalar, z: Scalar)
    ensures CapitalizeAll([x, y, z]) ==
      [Str(Capitalize(ToText(x))), Str(Capitalize(ToText(y))), Str(Capitalize(ToText(z)))]
  {
  }

  lemma ExampleCapitalizedTexts()
    ensures Capitalize("RP-10") == "Rp-10" && Capitalize("RP-20") == "Rp-20"
    ensures Capitalize("base") == "Base"
    ensures Capitalize("5.0") == "5.0" && Capitalize("9.0") == "9.0"
  {
    CapitalizeFirstPeriod();
    CapitalizeSecondPeriod();
    CapitalizeBase();
    CapitalizeNoLetters("5.0");
    CapitalizeNoLetters("9.0");
  }

  lemma CapitalizeFirstPeriod()
    ensures Capitalize("RP-10") == "Rp-10"
  {
  }

  lemma CapitalizeSecondPeriod()
    ensures Capitalize("RP-20") == "Rp-20"
  {
  }

  lemma CapitalizeBase()
    ensures Capitalize("base") == "Base"
  {
  }
}
