/**
 * The sidebar selection and the filter the dashboard applies to the cleaned
 * data: city, year range and industry always, investment type only when a
 * non-empty selection of it exists.
 */
module Filters {
  import opened Wrappers
  import opened Seqs
  import opened Records

  /**
   * The user's choices, taken as plain inputs. `investTypes` is None when the
   * table has no "Investment Type" column.
   */
  datatype Selection = Selection(
    cities: seq<string>,
    yearFrom: int,
    yearTo: int,
    industries: seq<string>,
    investTypes: Option<seq<string>>)

  /** `year.between(from, to)`: a present date whose year lies in the inclusive range. */
  predicate YearInRange(r: Record, from: int, to: int) {
    r.date.Some? && from <= r.date.value.year <= to
  }

  /** `isin`: a present value that is one of the selected ones (a missing value never is). */
  predicate IsIn(v: Option<string>, selected: seq<string>) {
    v.Some? && v.value in selected
  }

  /** The mask built from the city, year and industry conditions. */
  predicate MatchesBase(r: Record, sel: Selection) {
    && IsIn(r.city, sel.cities)
    && YearInRange(r, sel.yearFrom, sel.yearTo)
    && IsIn(r.industry, sel.industries)
  }

  /** `if selected_invest_types:` — neither None nor an empty list. */
  predicate InvestFilterActive(sel: Selection) {
    sel.investTypes.Some? && |sel.investTypes.value| > 0
  }

  /** The conjunction of every active condition: what a kept row must satisfy. */
  predicate Matches(r: Record, sel: Selection) {
    MatchesBase(r, sel) && (InvestFilterActive(sel) ==> IsIn(r.investType, sel.investTypes.value))
  }

  function BaseMask(sel: Selection): Record -> bool {
    (r: Record) => MatchesBase(r, sel)
  }

  function InvestMask(types: seq<string>): Record -> bool {
    (r: Record) => IsIn(r.investType, types)
  }

  function MatchMask(sel: Selection): Record -> bool {
    (r: Record) => Matches(r, sel)
  }

  /** The filtered table: the base mask first, then the investment-type mask if active. */
  function Filter(rows: seq<Record>, sel: Selection): (kept: seq<Record>)
    ensures forall r :: r in kept ==> r in rows && Matches(r, sel)
    ensures forall i :: 0 <= i < |rows| && Matches(rows[i], sel) ==> rows[i] in kept
  {
    var base := Select(rows, BaseMask(sel));
    if InvestFilterActive(sel) then Select(base, InvestMask(sel.investTypes.value)) else base
  }

  /** The two-step filter keeps exactly the rows that satisfy every active condition. */
  lemma {:induction false} FilterSelectsMatches(rows: seq<Record>, sel: Selection)
    ensures Filter(rows, sel) == Select(rows, MatchMask(sel))
  {
    if InvestFilterActive(sel) {
      SelectCompose(rows, BaseMask(sel), InvestMask(sel.investTypes.value), MatchMask(sel));
    } else {
      SelectCongruent(rows, BaseMask(sel), MatchMask(sel));
    }
  }

  /**
   * Soundness: every kept row has a selected city, a present date whose year
   * is in range, a present selected industry and, when that filter is active,
   * a present selected investment type; the rows keep their order.
   */
  lemma FilterSound(rows: seq<Record>, sel: Selection)
    ensures IsSubsequence(Filter(rows, sel), rows)
    ensures forall r :: r in Filter(rows, sel) ==>
      && r.city.Some? && r.city.value in sel.cities
      && r.date.Some? && sel.yearFrom <= r.date.value.year <= sel.yearTo
      && r.industry.Some? && r.industry.value in sel.industries
      && (InvestFilterActive(sel) ==> r.investType.Some? && r.investType.value in sel.investTypes.value)
  {
    FilterSelectsMatches(rows, sel);
    SelectIsSubsequence(rows, MatchMask(sel));
  }

  /** Exhaustiveness: every row meeting all active conditions is kept, every copy of it. */
  lemma FilterComplete(rows: seq<Record>, sel: Selection)
    ensures forall i :: 0 <= i < |rows| && Matches(rows[i], sel) ==> rows[i] in Filter(rows, sel)
    ensures forall r :: multiset(Filter(rows, sel))[r] == if Matches(r, sel) then multiset(rows)[r] else 0
  {
    FilterSelectsMatches(rows, sel);
    SelectMultiset(rows, MatchMask(sel));
  }

  /** With no city or no industry selected, nothing is kept. */
  lemma FilterEmptySelection(rows: seq<Record>, sel: Selection)
    requires |sel.cities| == 0 || |sel.industries| == 0
    ensures Filter(rows, sel) == []
  {
    FilterSelectsMatches(rows, sel);
    SelectNone(rows, MatchMask(sel));
  }

  /**
   * The asymmetry of the investment-type filter: an empty investment-type
   * selection, like a missing column, leaves the city/year/industry result unchanged.
   */
  lemma EmptyInvestSelectionIgnored(rows: seq<Record>, sel: Selection)
    requires sel.investTypes == None || sel.investTypes == Some([])
    ensures Filter(rows, sel) == Select(rows, BaseMask(sel))
    ensures Filter(rows, sel) == Filter(rows, sel.(investTypes := None))
  {
  }

  /** An active investment-type filter only removes rows from the base result. */
  lemma InvestFilterNarrows(rows: seq<Record>, sel: Selection)
    ensures IsSubsequence(Filter(rows, sel), Filter(rows, sel.(investTypes := None)))
  {
    var base := Select(rows, BaseMask(sel));
    SelectCongruent(rows, BaseMask(sel), BaseMask(sel.(investTypes := None)));
    if InvestFilterActive(sel) {
      SelectIsSubsequence(base, InvestMask(sel.investTypes.value));
    } else {
      SubsequenceReflexive(base);
    }
  }

  /** Filtering the cleaned data twice with one selection changes nothing. */
  lemma FilterIdempotent(rows: seq<Record>, sel: Selection)
    ensures Filter(Filter(rows, sel), sel) == Filter(rows, sel)
  {
    FilterSelectsMatches(rows, sel);
    FilterSelectsMatches(Filter(rows, sel), sel);
    SelectAll(Filter(rows, sel), MatchMask(sel));
  }
}
