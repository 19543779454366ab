/**
 * The funding records of the dashboard and the load-time cleaning:
 * coercion of the amount and date columns, then dropping unusable rows.
 */
module Records {
  import opened Wrappers
  import opened Seqs

  /** A calendar date as produced by a successful date parse. */
  datatype Date = Date(year: int, month: int, day: int)

  /**
   * One funding event after coercion. Every cell may be missing; the column
   * names of the CSV are "Startup Name", "Industry Vertical", "City Location",
   * "Investment Type", "Investors Name", "Amount in USD" and "Date".
   */
  datatype Record = Record(
    startup: Option<string>,
    industry: Option<string>,
    city: Option<string>,
    investType: Option<string>,
    investors: Option<string>,
    amount: Option<int>,
    date: Option<Date>)

  /** One CSV row as read: text cells, an empty cell being missing. */
  datatype RawRecord = RawRecord(
    startup: Option<string>,
    industry: Option<string>,
    city: Option<string>,
    investType: Option<string>,
    investors: Option<string>,
    amountCell: Option<string>,
    dateCell: Option<string>)

  /** Coerces one cell with a "value or missing" parser: a missing cell stays missing. */
  function CoerceCell<V>(cell: Option<string>, parse: string -> Option<V>): (v: Option<V>)
    ensures v.Some? ==> cell.Some? && parse(cell.value) == v
    ensures cell.Some? ==> v == parse(cell.value)
  {
    match cell
    case None => None
    case Some(text) => parse(text)
  }

  /**
   * Coercion of the amount and date columns (`errors="coerce"`): a cell that
   * fails to parse becomes missing, every other column is kept as it is.
   */
  function Coerce(raws: seq<RawRecord>, parseAmount: string -> Option<int>, parseDate: string -> Option<Date>)
    : (rows: seq<Record>)
    ensures |rows| == |raws|
    ensures forall i :: 0 <= i < |raws| ==>
      && rows[i].startup == raws[i].startup
      && rows[i].industry == raws[i].industry
      && rows[i].city == raws[i].city
      && rows[i].investType == raws[i].investType
      && rows[i].investors == raws[i].investors
      && (rows[i].amount.Some? <==> raws[i].amountCell.Some? && parseAmount(raws[i].amountCell.value).Some?)
      && (rows[i].date.Some? <==> raws[i].dateCell.Some? && parseDate(raws[i].dateCell.value).Some?)
      && (rows[i].amount.Some? ==> rows[i].amount == parseAmount(raws[i].amountCell.value))
      && (rows[i].date.Some? ==> rows[i].date == parseDate(raws[i].dateCell.value))
  {
    seq(|raws|, i requires 0 <= i < |raws| =>
      var raw := raws[i];
      Record(raw.startup, raw.industry, raw.city, raw.investType, raw.investors,
             CoerceCell(raw.amountCell, parseAmount), CoerceCell(raw.dateCell, parseDate)))
  }

  /** Column accessors, used to name the column a view groups or lists by. */
  function CityOf(r: Record): Option<string> { r.city }
  function IndustryOf(r: Record): Option<string> { r.industry }
  function InvestTypeOf(r: Record): Option<string> { r.investType }
  function StartupOf(r: Record): Option<string> { r.startup }
  function InvestorsOf(r: Record): Option<string> { r.investors }

  /** A row is usable when its amount, city and startup name are all present. */
  predicate Usable(r: Record) {
    r.amount.Some? && r.city.Some? && r.startup.Some?
  }

  /** `dropna(subset=[amount, city, startup])`: the usable rows, in order. */
  function Clean(rows: seq<Record>): (clean: seq<Record>)
    ensures forall r :: r in clean ==> r in rows && Usable(r)
    ensures forall i :: 0 <= i < |rows| && Usable(rows[i]) ==> rows[i] in clean
  {
    Select(rows, Usable)
  }

  /**
   * The cleaned data is the order-preserving subsequence of the usable rows:
   * it keeps every copy of each usable row and nothing else.
   */
  lemma CleanSpec(rows: seq<Record>)
    ensures IsSubsequence(Clean(rows), rows)
    ensures forall r :: r in Clean(rows) ==> Usable(r)
    ensures forall i :: 0 <= i < |rows| && Usable(rows[i]) ==> rows[i] in Clean(rows)
    ensures forall r :: multiset(Clean(rows))[r] == if Usable(r) then multiset(rows)[r] else 0
  {
    SelectIsSubsequence(rows, Usable);
    SelectMultiset(rows, Usable);
  }

  /** Cleaning twice changes nothing. */
  lemma CleanIdempotent(rows: seq<Record>)
    ensures Clean(Clean(rows)) == Clean(rows)
  {
    SelectAll(Clean(rows), Usable);
  }
}
