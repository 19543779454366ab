/**
 * The sidebar's option lists and the default year range, derived from the
 * cleaned data before any filter is applied.
 */
module Options {
  import opened Wrappers
  import opened Ordering
  import opened Records

  /** Some row has the value `v` in the column read by `key`. */
  ghost predicate Occurs<K>(rows: seq<Record>, key: Record -> Option<K>, v: K) {
    exists i :: 0 <= i < |rows| && key(rows[i]) == Some(v)
  }

  /** `column.dropna()`: the present values of a column, in row order. */
  function Present<K>(rows: seq<Record>, key: Record -> Option<K>): (vs: seq<K>)
    ensures forall i :: 0 <= i < |rows| && key(rows[i]).Some? ==> key(rows[i]).value in vs
    ensures forall v :: v in vs ==> Occurs(rows, key, v)
  {
    if rows == [] then []
    else
      var rest := Present(rows[1..], key);
      assert forall v :: v in rest ==> Occurs(rows, key, v) by {
        forall v | v in rest ensures Occurs(rows, key, v) {
          var i :| 0 <= i < |rows[1..]| && key(rows[1..][i]) == Some(v);
          assert key(rows[i + 1]) == Some(v);
        }
      }
      match key(rows[0])
      case None => rest
      case Some(v) => [v] + rest
  }

  /** `sorted(column.dropna().unique())` for a text column. */
  function ColumnOptions(rows: seq<Record>, key: Record -> Option<string>): (opts: seq<string>)
    ensures forall v :: v in opts ==> Occurs(rows, key, v)
    ensures forall i :: 0 <= i < |rows| && key(rows[i]).Some? ==> key(rows[i]).value in opts
  {
    SortedUnique(Present(rows, key), StrLess)
  }

  /**
   * An option list is strictly ascending in string order, hence free of
   * duplicates, and holds exactly the values present in its column.
   */
  lemma ColumnOptionsSpec(rows: seq<Record>, key: Record -> Option<string>)
    ensures StrictlyAscending(ColumnOptions(rows, key), StrLess)
    ensures Distinct(ColumnOptions(rows, key))
    ensures forall v :: v in ColumnOptions(rows, key) ==> Occurs(rows, key, v)
    ensures forall i :: 0 <= i < |rows| && key(rows[i]).Some? ==> key(rows[i]).value in ColumnOptions(rows, key)
  {
    StrLessIsStrictTotalOrder();
    SortedUniqueAscending(Present(rows, key), StrLess);
    AscendingDistinct(ColumnOptions(rows, key), StrLess);
  }

  /** The city options (all selected by default): each present city once, in ascending order. */
  function CityOptions(rows: seq<Record>): (opts: seq<string>)
    ensures StrictlyAscending(opts, StrLess)
    ensures forall c :: c in opts ==> exists i :: 0 <= i < |rows| && rows[i].city == Some(c)
    ensures forall i :: 0 <= i < |rows| && rows[i].city.Some? ==> rows[i].city.value in opts
  {
    ColumnOptionsSpec(rows, CityOf);
    ColumnOptions(rows, CityOf)
  }

  /** The industry options (all selected by default): each present industry once, in ascending order. */
  function IndustryOptions(rows: seq<Record>): (opts: seq<string>)
    ensures StrictlyAscending(opts, StrLess)
    ensures forall v :: v in opts ==> exists i :: 0 <= i < |rows| && rows[i].industry == Some(v)
    ensures forall i :: 0 <= i < |rows| && rows[i].industry.Some? ==> rows[i].industry.value in opts
  {
    ColumnOptionsSpec(rows, IndustryOf);
    ColumnOptions(rows, IndustryOf)
  }

  /**
   * The investment-type options, offered only when the table has an
   * "Investment Type" column; without one there is no selection at all.
   */
  function InvestTypeOptions(rows: seq<Record>, hasInvestTypeColumn: bool): (opts: Option<seq<string>>)
    ensures opts.Some? <==> hasInvestTypeColumn
    ensures opts.Some? ==> StrictlyAscending(opts.value, StrLess)
    ensures opts.Some? ==> forall v :: v in opts.value ==> exists i :: 0 <= i < |rows| && rows[i].investType == Some(v)
    ensures opts.Some? ==> forall i :: 0 <= i < |rows| && rows[i].investType.Some? ==> rows[i].investType.value in opts.value
  {
    ColumnOptionsSpec(rows, InvestTypeOf);
    if hasInvestTypeColumn then Some(ColumnOptions(rows, InvestTypeOf)) else None
  }

  /** `date.dt.year`: the year of a row's date, missing when the date is. */
  function YearOf(r: Record): Option<int> {
    match r.date
    case None => None
    case Some(d) => Some(d.year)
  }

  /**
   * The default year range: the least and the greatest year among the present
   * dates. With no present date the source fails (`int` of a missing minimum),
   * modelled here as None.
   */
  function YearBounds(rows: seq<Record>): (b: Option<(int, int)>)
    ensures b.None? <==> forall i :: 0 <= i < |rows| ==> rows[i].date.None?
    ensures b.Some? ==> Occurs(rows, YearOf, b.value.0) && Occurs(rows, YearOf, b.value.1)
    ensures b.Some? ==> forall i :: 0 <= i < |rows| && rows[i].date.Some? ==>
      b.value.0 <= rows[i].date.value.year <= b.value.1
  {
    if rows == [] then None
    else
      var rest := YearBounds(rows[1..]);
      assert forall y :: Occurs(rows[1..], YearOf, y) ==> Occurs(rows, YearOf, y) by {
        forall y | Occurs(rows[1..], YearOf, y) ensures Occurs(rows, YearOf, y) {
          var i :| 0 <= i < |rows[1..]| && YearOf(rows[1..][i]) == Some(y);
          assert rows[i + 1] == rows[1..][i];
        }
      }
      assert forall i :: 1 <= i < |rows| ==> rows[i] == rows[1..][i - 1];
      match rows[0].date
      case None => rest
      case Some(d) =>
        assert Occurs(rows, YearOf, d.year) by { assert YearOf(rows[0]) == Some(d.year); }
        match rest
        case None => Some((d.year, d.year))
        case Some(bounds) =>
          Some((if d.year < bounds.0 then d.year else bounds.0, if d.year > bounds.1 then d.year else bounds.1))
  }
}
