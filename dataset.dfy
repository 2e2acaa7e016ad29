/**
  The security-ID table (security_id_list.csv) as values: its rows, the columns its header
  carries, and the three pandas filters main.py runs over it, as first-index searches.
 */
module Dataset {
  import opened Wrappers

  /** The four columns the code reads, by their CSV header names
      SEM_EXM_EXCH_ID, SEM_TRADING_SYMBOL, SEM_SERIES and SEM_SMST_SECURITY_ID. */
  datatype Column = ExchangeId | TradingSymbol | Series | SecurityId

  const AllColumns: set<Column> := {ExchangeId, TradingSymbol, Series, SecurityId}

  /** The columns a (exchange, symbol, series) filter reads. */
  const KeyColumns: set<Column> := {ExchangeId, TradingSymbol, Series}

  /** One row of the table. A field whose column the table lacks carries no meaning. */
  datatype Record = Record(exchange: string, symbol: string, series: string, securityId: string)

  /** A parsed table: which of the four columns its header has, and its rows in file order. */
  datatype Table = Table(columns: set<Column>, rows: seq<Record>)

  /** What `pd.read_csv` makes of a file: a table, or the parse error it raises. */
  datatype Content = Unparseable(reason: string) | Parsed(table: Table)

  /** The header-only table written by create_empty_csv and used by save_security_id_to_csv
      when the file is absent. */
  const EmptyTable: Table := Table(AllColumns, [])

  /** An equality filter on symbol and series, and on the exchange too when one is given. */
  datatype Filter = Filter(exchange: Option<string>, symbol: string, series: string)

  /** The filter on the full key (exchange, trading symbol, series). */
  function KeyFilter(exchange: string, symbol: string, series: string): Filter {
    Filter(Some(exchange), symbol, series)
  }

  predicate Matches(r: Record, f: Filter) {
    && (f.exchange.None? || r.exchange == f.exchange.value)
    && r.symbol == f.symbol
    && r.series == f.series
  }

  /** `i` is the position `df[mask].iloc[0]` picks: the first row the filter keeps. */
  predicate IsFirstMatch(rows: seq<Record>, f: Filter, i: int) {
    && 0 <= i < |rows|
    && Matches(rows[i], f)
    && forall j :: 0 <= j < i ==> !Matches(rows[j], f)
  }

  /** The index of the first row the filter keeps, or None when the filtered frame is empty. */
  function FirstMatch(rows: seq<Record>, f: Filter): (r: Option<nat>)
    ensures r.Some? ==> IsFirstMatch(rows, f, r.value)
    ensures r.None? ==> forall j :: 0 <= j < |rows| ==> !Matches(rows[j], f)
  {
    if |rows| == 0 then None
    else if Matches(rows[0], f) then Some(0)
    else match FirstMatch(rows[1..], f)
      case None => None
      case Some(i) => Some(i + 1)
  }

  /** There is at most one first match, so the position FirstMatch reports is the only one. */
  lemma FirstMatchUnique(rows: seq<Record>, f: Filter, i: int)
    requires IsFirstMatch(rows, f, i)
    ensures FirstMatch(rows, f) == Some(i)
  {
    var r := FirstMatch(rows, f);
    assert r.Some?;
  }

  /** Number of rows the filter keeps (the length of the filtered frame). */
  function CountMatches(rows: seq<Record>, f: Filter): nat {
    if |rows| == 0 then 0
    else (if Matches(rows[0], f) then 1 else 0) + CountMatches(rows[1..], f)
  }

  /** The filtered frame is empty exactly when no row matches. */
  lemma {:induction false} NoMatchIffCountZero(rows: seq<Record>, f: Filter)
    ensures FirstMatch(rows, f).None? <==> CountMatches(rows, f) == 0
  {
    if |rows| > 0 {
      NoMatchIffCountZero(rows[1..], f);
    }
  }

  /** Appending one row adds one to the count exactly when that row matches. */
  lemma {:induction false} CountMatchesAppend(rows: seq<Record>, r: Record, f: Filter)
    ensures CountMatches(rows + [r], f) == CountMatches(rows, f) + (if Matches(r, f) then 1 else 0)
  {
    if |rows| == 0 {
      assert rows + [r] == [r];
      assert [r][1..] == [];
    } else {
      assert (rows + [r])[1..] == rows[1..] + [r];
      CountMatchesAppend(rows[1..], r, f);
    }
  }

  /** Appending a row never moves an existing first match; it becomes the first match only when
      none existed. */
  lemma FirstMatchAppend(rows: seq<Record>, r: Record, f: Filter)
    ensures FirstMatch(rows + [r], f) ==
      if FirstMatch(rows, f).Some? then FirstMatch(rows, f)
      else if Matches(r, f) then Some(|rows|)
      else None
  {
    var s := rows + [r];
    match FirstMatch(rows, f)
    case Some(i) =>
      assert IsFirstMatch(s, f, i);
      FirstMatchUnique(s, f, i);
    case None =>
      if Matches(r, f) {
        assert IsFirstMatch(s, f, |rows|);
        FirstMatchUnique(s, f, |rows|);
      } else {
        assert forall j :: 0 <= j < |s| ==> !Matches(s[j], f);
      }
  }

  /** The dataset tier of get_security_id (main.py:272-289): the security ID of the first row
      matching exchange, symbol and series. None when nothing matches, and also when the table
      lacks a column the filter or the ID read needs: the KeyError that the caller swallows. */
  function DatasetLookup(t: Table, exchange: string, symbol: string, series: string): (r: Option<string>)
    ensures r.Some? <==>
      && AllColumns <= t.columns
      && exists i :: 0 <= i < |t.rows| && Matches(t.rows[i], KeyFilter(exchange, symbol, series))
    ensures r.Some? ==>
      exists i :: IsFirstMatch(t.rows, KeyFilter(exchange, symbol, series), i) && r.value == t.rows[i].securityId
  {
    if !(KeyColumns <= t.columns) then None
    else match FirstMatch(t.rows, KeyFilter(exchange, symbol, series))
      case None => None
      case Some(i) => if SecurityId in t.columns then Some(t.rows[i].securityId) else None
  }

  /** The matching step of fetch_security_id_from_dhan (main.py:184-214) over the broker's
      catalog. `catalog` is None when there is no client, the call returned None or it raised.
      The match is on trading symbol and series only: the exchange is not compared. A missing
      SEM_TRADING_SYMBOL column gives None by the explicit test, a missing series or ID column
      by the KeyError the function catches. */
  function CatalogLookup(catalog: Option<Table>, symbol: string, series: string): (r: Option<string>)
    ensures r.Some? <==>
      && catalog.Some?
      && {TradingSymbol, Series, SecurityId} <= catalog.value.columns
      && exists i :: 0 <= i < |catalog.value.rows| && Matches(catalog.value.rows[i], Filter(None, symbol, series))
    ensures r.Some? ==>
      exists i :: IsFirstMatch(catalog.value.rows, Filter(None, symbol, series), i)
                  && r.value == catalog.value.rows[i].securityId
  {
    if catalog.None? then None
    else
      var t := catalog.value;
      if TradingSymbol !in t.columns || Series !in t.columns then None
      else match FirstMatch(t.rows, Filter(None, symbol, series))
        case None => None
        case Some(i) => if SecurityId in t.columns then Some(t.rows[i].securityId) else None
  }

  /** What save_security_id_to_csv reports, and the file it leaves behind. */
  datatype SaveResult = SaveResult(saved: bool, file: Option<Content>)

  /** The rows of a file, as the code reads them; an absent or unreadable file has none. */
  function RowsOf(file: Option<Content>): seq<Record> {
    if file.Some? && file.value.Parsed? then file.value.table.rows else []
  }

  /** save_security_id_to_csv (main.py:151-179) on the file `file` (None when absent). */
  function AppendIfAbsent(file: Option<Content>, rec: Record): SaveResult {
    if file.Some? && file.value.Unparseable? then SaveResult(false, file)
    else
      var t := if file.None? then EmptyTable else file.value.table;
      if !(KeyColumns <= t.columns) then SaveResult(false, file)
      else if FirstMatch(t.rows, KeyFilter(rec.exchange, rec.symbol, rec.series)).Some? then SaveResult(false, file)
      else SaveResult(true, Some(Parsed(Table(t.columns + AllColumns, t.rows + [rec]))))
  }

  /** A row is appended exactly when the file can be read, has the key columns and holds no row
      with the record's key; then the old rows keep their order and the record comes last.
      Otherwise the file is left as it was. */
  lemma AppendIfAbsentSpec(file: Option<Content>, rec: Record)
    ensures var res := AppendIfAbsent(file, rec);
      && (res.saved <==>
            (file.None? ||
             (file.value.Parsed? && KeyColumns <= file.value.table.columns
              && CountMatches(file.value.table.rows, KeyFilter(rec.exchange, rec.symbol, rec.series)) == 0)))
      && (res.saved ==> res.file.Some? && res.file.value.Parsed?
                        && AllColumns <= res.file.value.table.columns
                        && RowsOf(res.file) == RowsOf(file) + [rec])
      && (!res.saved ==> res.file == file)
  {
    if file.Some? && file.value.Parsed? {
      NoMatchIffCountZero(file.value.table.rows, KeyFilter(rec.exchange, rec.symbol, rec.series));
    }
  }

  /** Two saves with the same key leave the file as the first save left it, and the second
      reports False. When the file held no row with that key, exactly one such row is left. */
  lemma {:induction false} AppendIfAbsentTwice(file: Option<Content>, rec: Record, again: Record)
    requires again.exchange == rec.exchange && again.symbol == rec.symbol && again.series == rec.series
    ensures var first := AppendIfAbsent(file, rec);
      var second := AppendIfAbsent(first.file, again);
      && !second.saved
      && second.file == first.file
      && (first.saved ==> CountMatches(RowsOf(second.file), KeyFilter(rec.exchange, rec.symbol, rec.series)) == 1)
  {
    var f := KeyFilter(rec.exchange, rec.symbol, rec.series);
    var first := AppendIfAbsent(file, rec);
    if first.saved {
      var rows := RowsOf(file);
      AppendIfAbsentSpec(file, rec);
      assert RowsOf(first.file) == rows + [rec];
      FirstMatchAppend(rows, rec, f);
      assert FirstMatch(rows + [rec], f).Some?;
      CountMatchesAppend(rows, rec, f);
    }
  }
}
