/**
 * The dashboard's aggregate views of the filtered rows: three "top 10 by
 * summed amount" rankings and the monthly funding trend.
 */
module Aggregates {
  import opened Wrappers
  import opened Seqs
  import opened Ordering
  import opened Records
  import opened Options

  /** One row of an aggregate view: a group label and its summed amount. */
  datatype Entry<K> = Entry(group: K, total: int)

  /** A row's amount in a sum; a missing amount adds nothing, as pandas' `sum` skips it. */
  function Amount(r: Record): int {
    r.amount.GetOr(0)
  }

  /** The summed amount of `rows`. */
  function TotalAmount(rows: seq<Record>): int {
    if rows == [] then 0 else Amount(rows[0]) + TotalAmount(rows[1..])
  }

  lemma {:induction false} TotalAmountConcat(a: seq<Record>, b: seq<Record>)
    ensures TotalAmount(a + b) == TotalAmount(a) + TotalAmount(b)
  {
    if a == [] {
      assert a + b == b;
    } else {
      assert (a + b)[1..] == a[1..] + b;
      TotalAmountConcat(a[1..], b);
    }
  }

  function HasKey<K>(key: Record -> Option<K>): Record -> bool {
    r => key(r).Some?
  }

  function LabelIs<K(==)>(key: Record -> Option<K>, l: K): Record -> bool {
    r => key(r) == Some(l)
  }

  /** The summed amount of the rows whose group label is `l`: one group of `groupby(key).sum()`. */
  function LabelSum<K(==)>(rows: seq<Record>, key: Record -> Option<K>, l: K): int {
    TotalAmount(Select(rows, LabelIs(key, l)))
  }

  /** The summed amount of the rows that have a group label at all. */
  function LabelledAmount<K>(rows: seq<Record>, key: Record -> Option<K>): int {
    TotalAmount(Select(rows, HasKey(key)))
  }

  /** Peels the first row off a group sum. */
  lemma {:induction false} LabelSumCons<K>(rows: seq<Record>, key: Record -> Option<K>, l: K)
    requires rows != []
    ensures LabelSum(rows, key, l)
         == (if key(rows[0]) == Some(l) then Amount(rows[0]) else 0) + LabelSum(rows[1..], key, l)
  {
    if key(rows[0]) == Some(l) {
      TotalAmountConcat([rows[0]], Select(rows[1..], LabelIs(key, l)));
    }
  }

  lemma {:induction false} LabelledAmountCons<K>(rows: seq<Record>, key: Record -> Option<K>)
    requires rows != []
    ensures LabelledAmount(rows, key)
         == (if key(rows[0]).Some? then Amount(rows[0]) else 0) + LabelledAmount(rows[1..], key)
  {
    if key(rows[0]).Some? {
      TotalAmountConcat([rows[0]], Select(rows[1..], HasKey(key)));
    }
  }

  /** `groupby(key)[amount].sum()` over the given group labels, in their order. */
  function Totals<K(==)>(labels: seq<K>, rows: seq<Record>, key: Record -> Option<K>): (es: seq<Entry<K>>)
    ensures |es| == |labels|
  {
    seq(|labels|, i requires 0 <= i < |labels| => Entry(labels[i], LabelSum(rows, key, labels[i])))
  }

  /** The summed totals of a view. */
  function SumTotals<K>(es: seq<Entry<K>>): int {
    if es == [] then 0 else es[0].total + SumTotals(es[1..])
  }

  // ----- sorting by summed amount, largest first -----

  ghost predicate NonIncreasing<K>(s: seq<Entry<K>>) {
    forall i, j :: 0 <= i < j < |s| ==> s[i].total >= s[j].total
  }

  /** Puts `e` before the first entry with a smaller total. */
  function InsertDesc<K>(e: Entry<K>, s: seq<Entry<K>>): (r: seq<Entry<K>>)
    requires NonIncreasing(s)
    ensures NonIncreasing(r)
    ensures multiset(r) == multiset(s) + multiset{e}
    ensures forall y :: y in r ==> y == e || y in s
  {
    if s == [] then [e]
    else if e.total >= s[0].total then [e] + s
    else
      var rest := InsertDesc(e, s[1..]);
      assert s == [s[0]] + s[1..];
      assert NonIncreasing([s[0]] + rest) by {
        forall j | 0 <= j < |rest| ensures s[0].total >= rest[j].total {
          assert rest[j] in rest;
        }
      }
      [s[0]] + rest
  }

  /** `sort_values(ascending=False)`: a permutation of `s` in non-increasing order of totals. */
  function SortDesc<K>(s: seq<Entry<K>>): (r: seq<Entry<K>>)
    ensures NonIncreasing(r)
    ensures multiset(r) == multiset(s)
  {
    if s == [] then []
    else
      assert s == [s[0]] + s[1..];
      InsertDesc(s[0], SortDesc(s[1..]))
  }

  // ----- top N by summed amount -----

  /** The number of entries each ranking shows (`head(10)`). */
  const TopN: nat := 10

  /** The groups of `key`, ranked by total: the view before truncation. */
  function Ranked(rows: seq<Record>, key: Record -> Option<string>): (ranked: seq<Entry<string>>)
    ensures NonIncreasing(ranked)
    ensures forall e :: e in ranked ==> e.total == LabelSum(rows, key, e.group) && Occurs(rows, key, e.group)
  {
    var groups := Totals(ColumnOptions(rows, key), rows, key);
    var r := SortDesc(groups);
    assert forall e :: e in r ==> e in multiset(groups);
    r
  }

  /**
   * `groupby(key)[amount].sum().sort_values(ascending=False).head(n)`: groups
   * keyed by the present labels (sorted, as groupby sorts its keys), ranked by
   * total, truncated to `n`.
   */
  function TopBySum(rows: seq<Record>, key: Record -> Option<string>, n: nat): (v: seq<Entry<string>>)
    ensures |v| <= n
    ensures NonIncreasing(v)
    ensures forall e :: e in v ==> e.total == LabelSum(rows, key, e.group) && Occurs(rows, key, e.group)
  {
    var ranked := Ranked(rows, key);
    if |ranked| <= n then ranked
    else
      assert forall e :: e in ranked[..n] ==> e in ranked;
      ranked[..n]
  }

  /**
   * A view of at most TopN groups with distinct labels, largest first, each
   * with its summed amount; a present label it leaves out leaves it full and
   * sums to no more than any entry shown.
   */
  ghost predicate IsTopView(v: seq<Entry<string>>, rows: seq<Record>, key: Record -> Option<string>) {
    && |v| <= TopN
    && NonIncreasing(v)
    && (forall i, j :: 0 <= i < j < |v| ==> v[i].group != v[j].group)
    && (forall i :: 0 <= i < |v| ==> v[i].total == LabelSum(rows, key, v[i].group) && Occurs(rows, key, v[i].group))
    && (forall i :: 0 <= i < |rows| && key(rows[i]).Some? && !Shown(v, key(rows[i]).value) ==>
          && |v| == TopN
          && forall j :: 0 <= j < |v| ==> LabelSum(rows, key, key(rows[i]).value) <= v[j].total)
  }

  /** The "Top 10 Funded Startups" view. */
  function TopStartups(rows: seq<Record>): (v: seq<Entry<string>>)
    ensures IsTopView(v, rows, StartupOf)
  {
    TopBySumSpec(rows, StartupOf, TopN);
    TopBySumOmitted(rows, StartupOf, TopN);
    TopBySum(rows, StartupOf, TopN)
  }

  /** The "Top 10 Investors" view. */
  function TopInvestors(rows: seq<Record>): (v: seq<Entry<string>>)
    ensures IsTopView(v, rows, InvestorsOf)
  {
    TopBySumSpec(rows, InvestorsOf, TopN);
    TopBySumOmitted(rows, InvestorsOf, TopN);
    TopBySum(rows, InvestorsOf, TopN)
  }

  /** The "Funding Distribution by Industry" view. */
  function TopIndustries(rows: seq<Record>): (v: seq<Entry<string>>)
    ensures IsTopView(v, rows, IndustryOf)
  {
    TopBySumSpec(rows, IndustryOf, TopN);
    TopBySumOmitted(rows, IndustryOf, TopN);
    TopBySum(rows, IndustryOf, TopN)
  }

  /** Some entry of `v` carries the label `l`. */
  ghost predicate Shown<K>(v: seq<Entry<K>>, l: K) {
    exists j :: 0 <= j < |v| && v[j].group == l
  }

  lemma {:induction false} DistinctCount<T>(s: seq<T>)
    requires Distinct(s)
    ensures forall x :: multiset(s)[x] <= 1
  {
    if s != [] {
      assert s == [s[0]] + s[1..];
      DistinctCount(s[1..]);
      assert s[0] !in s[1..];
    }
  }

  lemma RepeatCount<T>(s: seq<T>, i: nat, j: nat)
    requires i < j < |s|
    ensures s[i] == s[j] ==> multiset(s)[s[i]] >= 2
  {
    assert s == s[..j] + s[j..];
    assert s[i] in s[..j];
    assert s[j] in s[j..];
  }

  /** There is one ranked entry per label. */
  lemma RankedEntries(rows: seq<Record>, key: Record -> Option<string>)
    ensures |Ranked(rows, key)| == |ColumnOptions(rows, key)|
  {
    var groups := Totals(ColumnOptions(rows, key), rows, key);
    assert |multiset(Ranked(rows, key))| == |multiset(groups)|;
  }

  /** No label is ranked twice. */
  lemma RankedDistinct(rows: seq<Record>, key: Record -> Option<string>)
    ensures forall i, j :: 0 <= i < j < |Ranked(rows, key)| ==>
      Ranked(rows, key)[i].group != Ranked(rows, key)[j].group
  {
    ColumnOptionsSpec(rows, key);
    RankedEntries(rows, key);
    var groups := Totals(ColumnOptions(rows, key), rows, key);
    var ranked := Ranked(rows, key);
    DistinctCount(groups);
    forall i, j | 0 <= i < j < |ranked| ensures ranked[i].group != ranked[j].group {
      assert ranked[i] in ranked && ranked[j] in ranked;
      assert ranked[i].group == ranked[j].group ==> ranked[i] == ranked[j];
      RepeatCount(ranked, i, j);
      assert multiset(groups)[ranked[i]] <= 1;
    }
  }

  /** Every label present in the rows is ranked. */
  lemma RankedComplete(rows: seq<Record>, key: Record -> Option<string>)
    ensures forall i :: 0 <= i < |rows| && key(rows[i]).Some? ==> Shown(Ranked(rows, key), key(rows[i]).value)
  {
    ColumnOptionsSpec(rows, key);
    var labels := ColumnOptions(rows, key);
    var groups := Totals(labels, rows, key);
    var ranked := Ranked(rows, key);
    forall i | 0 <= i < |rows| && key(rows[i]).Some? ensures Shown(ranked, key(rows[i]).value) {
      var l := key(rows[i]).value;
      var k :| 0 <= k < |labels| && labels[k] == l;
      assert groups[k] in multiset(ranked);
      var p :| 0 <= p < |ranked| && ranked[p] == groups[k];
    }
  }

  /** A top-N view is a prefix of the ranking. */
  lemma TopBySumPrefix(rows: seq<Record>, key: Record -> Option<string>, n: nat)
    ensures TopBySum(rows, key, n) == Ranked(rows, key)[..|TopBySum(rows, key, n)|]
    ensures |TopBySum(rows, key, n)| == if |Ranked(rows, key)| <= n then |Ranked(rows, key)| else n
  {
  }

  /**
   * A top-N view has at most `n` entries; its labels are distinct; its totals
   * are non-increasing; each total is the summed amount of the rows with that
   * label, which occurs in the rows.
   */
  lemma TopBySumSpec(rows: seq<Record>, key: Record -> Option<string>, n: nat)
    ensures |TopBySum(rows, key, n)| <= n
    ensures NonIncreasing(TopBySum(rows, key, n))
    ensures forall i, j :: 0 <= i < j < |TopBySum(rows, key, n)| ==>
      TopBySum(rows, key, n)[i].group != TopBySum(rows, key, n)[j].group
    ensures forall i :: 0 <= i < |TopBySum(rows, key, n)| ==>
      && Occurs(rows, key, TopBySum(rows, key, n)[i].group)
      && TopBySum(rows, key, n)[i].total == LabelSum(rows, key, TopBySum(rows, key, n)[i].group)
  {
    var ranked := Ranked(rows, key);
    var v := TopBySum(rows, key, n);
    TopBySumPrefix(rows, key, n);
    RankedEntries(rows, key);
    RankedDistinct(rows, key);
    forall i | 0 <= i < |v| ensures v[i] in ranked {
      assert v[i] == ranked[i];
    }
  }

  /**
   * A label present in the rows but left out of a top-N view leaves the view
   * full, and its summed amount is no greater than that of any entry shown.
   */
  lemma TopBySumOmitted(rows: seq<Record>, key: Record -> Option<string>, n: nat)
    ensures forall i :: 0 <= i < |rows| && key(rows[i]).Some? && !Shown(TopBySum(rows, key, n), key(rows[i]).value) ==>
      && |TopBySum(rows, key, n)| == n
      && (forall j :: 0 <= j < n ==> LabelSum(rows, key, key(rows[i]).value) <= TopBySum(rows, key, n)[j].total)
  {
    RankedComplete(rows, key);
    forall i | 0 <= i < |rows| && key(rows[i]).Some? && !Shown(TopBySum(rows, key, n), key(rows[i]).value)
      ensures |TopBySum(rows, key, n)| == n
      ensures forall j :: 0 <= j < n ==> LabelSum(rows, key, key(rows[i]).value) <= TopBySum(rows, key, n)[j].total
    {
      OmittedLabel(rows, key, n, key(rows[i]).value);
    }
  }

  lemma OmittedLabel(rows: seq<Record>, key: Record -> Option<string>, n: nat, l: string)
    requires Shown(Ranked(rows, key), l) && !Shown(TopBySum(rows, key, n), l)
    ensures |TopBySum(rows, key, n)| == n
    ensures forall j :: 0 <= j < n ==> LabelSum(rows, key, l) <= TopBySum(rows, key, n)[j].total
  {
    var ranked := Ranked(rows, key);
    TopBySumPrefix(rows, key, n);
    var p := OmittedFromPrefix(ranked, TopBySum(rows, key, n), n, l);
    assert ranked[p] in ranked;
  }

  /**
   * A label of a non-increasing ranking that is missing from a prefix of
   * length `min(n, |ranked|)` sits at some position past a full prefix, so
   * every entry of the prefix has at least its total.
   */
  lemma OmittedFromPrefix<K>(ranked: seq<Entry<K>>, v: seq<Entry<K>>, n: nat, l: K) returns (p: nat)
    requires NonIncreasing(ranked)
    requires |v| == (if |ranked| <= n then |ranked| else n) && v == ranked[..|v|]
    requires Shown(ranked, l) && !Shown(v, l)
    ensures |v| == n && n <= p < |ranked| && ranked[p].group == l
    ensures forall j :: 0 <= j < n ==> ranked[p].total <= v[j].total
  {
    p :| 0 <= p < |ranked| && ranked[p].group == l;
    assert forall q :: 0 <= q < |v| ==> v[q] == ranked[q];
  }

  /** Rows without a label contribute to no entry: dropping them leaves the view unchanged. */
  lemma TopBySumIgnoresUnlabelled(rows: seq<Record>, key: Record -> Option<string>, n: nat)
    ensures TopBySum(Select(rows, HasKey(key)), key, n) == TopBySum(rows, key, n)
  {
    var labelled := Select(rows, HasKey(key));
    PresentOfLabelled(rows, key);
    forall l: string ensures LabelSum(labelled, key, l) == LabelSum(rows, key, l) {
      SelectCompose(rows, HasKey(key), LabelIs(key, l), LabelIs(key, l));
    }
    var labels := ColumnOptions(rows, key);
    assert Totals(labels, labelled, key) == Totals(labels, rows, key);
  }

  lemma {:induction false} PresentOfLabelled<K>(rows: seq<Record>, key: Record -> Option<K>)
    ensures Present(Select(rows, HasKey(key)), key) == Present(rows, key)
  {
    if rows != [] {
      PresentOfLabelled(rows[1..], key);
      if key(rows[0]).Some? {
        assert ([rows[0]] + Select(rows[1..], HasKey(key)))[1..] == Select(rows[1..], HasKey(key));
      }
    }
  }

  // ----- conservation of the summed amount -----

  /** The sum of the group totals over `labels`. */
  function SumOverLabels<K(==)>(labels: seq<K>, rows: seq<Record>, key: Record -> Option<K>): int {
    if labels == [] then 0 else LabelSum(rows, key, labels[0]) + SumOverLabels(labels[1..], rows, key)
  }

  lemma {:induction false} SumTotalsOfTotals<K>(labels: seq<K>, rows: seq<Record>, key: Record -> Option<K>)
    ensures SumTotals(Totals(labels, rows, key)) == SumOverLabels(labels, rows, key)
  {
    if labels != [] {
      assert Totals(labels, rows, key)[1..] == Totals(labels[1..], rows, key);
      SumTotalsOfTotals(labels[1..], rows, key);
    }
  }

  lemma {:induction false} SumOverLabelsNoRows<K>(labels: seq<K>, key: Record -> Option<K>)
    ensures SumOverLabels(labels, [], key) == 0
  {
    if labels != [] {
      SumOverLabelsNoRows(labels[1..], key);
    }
  }

  /** Over distinct labels, the first row adds its amount once if its label is among them. */
  lemma {:induction false} SumOverLabelsCons<K>(labels: seq<K>, rows: seq<Record>, key: Record -> Option<K>)
    requires rows != [] && Distinct(labels)
    ensures SumOverLabels(labels, rows, key)
         == (if key(rows[0]).Some? && key(rows[0]).value in labels then Amount(rows[0]) else 0)
          + SumOverLabels(labels, rows[1..], key)
  {
    if labels != [] {
      LabelSumCons(rows, key, labels[0]);
      assert Distinct(labels[1..]);
      SumOverLabelsCons(labels[1..], rows, key);
      assert labels[0] !in labels[1..];
      assert labels == [labels[0]] + labels[1..];
    }
  }

  /**
   * When every present label is among the distinct `labels`, the group
   * totals add up to the summed amount of the labelled rows.
   */
  lemma {:induction false} TotalsConserveAmount<K>(labels: seq<K>, rows: seq<Record>, key: Record -> Option<K>)
    requires Distinct(labels)
    requires forall i :: 0 <= i < |rows| && key(rows[i]).Some? ==> key(rows[i]).value in labels
    ensures SumTotals(Totals(labels, rows, key)) == LabelledAmount(rows, key)
  {
    SumTotalsOfTotals(labels, rows, key);
    SumOverLabelsConserve(labels, rows, key);
  }

  lemma {:induction false} SumOverLabelsConserve<K>(labels: seq<K>, rows: seq<Record>, key: Record -> Option<K>)
    requires Distinct(labels)
    requires forall i :: 0 <= i < |rows| && key(rows[i]).Some? ==> key(rows[i]).value in labels
    ensures SumOverLabels(labels, rows, key) == LabelledAmount(rows, key)
  {
    if rows == [] {
      SumOverLabelsNoRows(labels, key);
    } else {
      SumOverLabelsCons(labels, rows, key);
      LabelledAmountCons(rows, key);
      assert forall i :: 0 <= i < |rows[1..]| ==> rows[1..][i] == rows[i + 1];
      SumOverLabelsConserve(labels, rows[1..], key);
    }
  }

  // ----- monthly trend -----

  /** A calendar month, the key of `to_period("M")`. */
  datatype YearMonth = YearMonth(year: int, month: int)

  /** Chronological order of months. */
  predicate Earlier(a: YearMonth, b: YearMonth) {
    a.year < b.year || (a.year == b.year && a.month < b.month)
  }

  lemma EarlierIsStrictTotalOrder()
    ensures StrictTotalOrder(Earlier)
  {
  }

  /** The month of a row's date, missing when the date is. */
  function MonthOf(r: Record): Option<YearMonth> {
    match r.date
    case None => None
    case Some(d) => Some(YearMonth(d.year, d.month))
  }

  /** The months that occur among the rows, in chronological order. */
  function Months(rows: seq<Record>): seq<YearMonth> {
    SortedUnique(Present(rows, MonthOf), Earlier)
  }

  /** `groupby(date.to_period("M"))[amount].sum()`: one entry per occurring month. */
  function MonthlyTrend(rows: seq<Record>): (trend: seq<Entry<YearMonth>>)
    ensures forall i, j :: 0 <= i < j < |trend| ==> Earlier(trend[i].group, trend[j].group)
    ensures forall i :: 0 <= i < |trend| ==>
      trend[i].total == LabelSum(rows, MonthOf, trend[i].group) && Occurs(rows, MonthOf, trend[i].group)
  {
    EarlierIsStrictTotalOrder();
    SortedUniqueAscending(Present(rows, MonthOf), Earlier);
    Totals(Months(rows), rows, MonthOf)
  }

  /**
   * The trend's months are strictly ascending in chronological order; each
   * occurs among the rows and carries that month's summed amount; every month
   * that occurs has an entry, and no other month does.
   */
  lemma MonthlyTrendSpec(rows: seq<Record>)
    ensures forall i, j :: 0 <= i < j < |MonthlyTrend(rows)| ==>
      Earlier(MonthlyTrend(rows)[i].group, MonthlyTrend(rows)[j].group)
    ensures forall i :: 0 <= i < |MonthlyTrend(rows)| ==>
      && Occurs(rows, MonthOf, MonthlyTrend(rows)[i].group)
      && MonthlyTrend(rows)[i].total == LabelSum(rows, MonthOf, MonthlyTrend(rows)[i].group)
    ensures forall i :: 0 <= i < |rows| && rows[i].date.Some? ==>
      Shown(MonthlyTrend(rows), YearMonth(rows[i].date.value.year, rows[i].date.value.month))
  {
    EarlierIsStrictTotalOrder();
    SortedUniqueAscending(Present(rows, MonthOf), Earlier);
    var months := Months(rows);
    forall i | 0 <= i < |rows| && rows[i].date.Some?
      ensures Shown(MonthlyTrend(rows), YearMonth(rows[i].date.value.year, rows[i].date.value.month))
    {
      var m := YearMonth(rows[i].date.value.year, rows[i].date.value.month);
      assert MonthOf(rows[i]) == Some(m);
      assert m in months;
      var k :| 0 <= k < |months| && months[k] == m;
      assert MonthlyTrend(rows)[k].group == m;
    }
  }

  /** The monthly totals add up to the summed amount of the rows with a date. */
  lemma MonthlyTrendConservesAmount(rows: seq<Record>)
    ensures SumTotals(MonthlyTrend(rows)) == LabelledAmount(rows, MonthOf)
  {
    EarlierIsStrictTotalOrder();
    SortedUniqueAscending(Present(rows, MonthOf), Earlier);
    AscendingDistinct(Months(rows), Earlier);
    TotalsConserveAmount(Months(rows), rows, MonthOf);
  }

  /** When every row has a date, the monthly totals add up to the total amount. */
  lemma MonthlyTrendTotal(rows: seq<Record>)
    requires forall r :: r in rows ==> r.date.Some?
    ensures SumTotals(MonthlyTrend(rows)) == TotalAmount(rows)
  {
    MonthlyTrendConservesAmount(rows);
    SelectAll(rows, HasKey(MonthOf));
  }
}
