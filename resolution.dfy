/**
  The three-tier resolution of get_security_id and the startup provisioner load_csv_cache, as
  functions from the state before a call to the result and the state after it. The state is
  `symbol_cache`, the three entries of `csv_cache` and the file on disk.
 */
module Resolution {
  import opened Wrappers
  import opened Dataset

  /** csv_cache["source"]: None, "local_file", "downloaded", "none" or "error". */
  datatype Source = NotLoaded | LocalFile | Downloaded | NoneAvailable | LoadError

  /** The state a resolution reads and writes. */
  datatype State = State(
    memory: map<string, string>,   // symbol_cache
    data: Option<Table>,           // csv_cache["data"]
    error: Option<string>,         // csv_cache["error"]
    source: Source,                // csv_cache["source"]
    file: Option<Content>)         // security_id_list.csv; None when it does not exist

  /** The state at import time (main.py:135-136), over whatever file is already on disk. */
  function Startup(file: Option<Content>): State {
    State(map[], None, None, NotLoaded, file)
  }

  /** The outcome of get_security_id: an ID, None, or the exception that the reload at
      main.py:295 raises out of it when the file cannot be parsed. */
  datatype Lookup = Found(id: string) | NotFound | Raised(reason: string)

  /** The key of symbol_cache: "{exchange}:{symbol}:{instrument}" (main.py:266). */
  function CacheKey(exchange: string, symbol: string, instrument: string): string {
    exchange + ":" + symbol + ":" + instrument
  }

  /** Splitting at the first ':' is unambiguous when the part before it holds no ':'. */
  lemma {:induction false} SplitAtFirstColon(a: string, b: string, x: string, y: string)
    requires ':' !in a && ':' !in x
    requires a + ":" + b == x + ":" + y
    ensures a == x && b == y
  {
    var s := a + ":" + b;
    assert s[|a|] == ':';
    assert s[|x|] == ':';
    assert forall i :: 0 <= i < |a| ==> s[i] == a[i];
    assert forall i :: 0 <= i < |x| ==> s[i] == x[i];
    assert |a| == |x|;
    assert a == s[..|a|] == x;
    assert b == s[|a| + 1..] == y;
  }

  /** Triples whose exchange and symbol hold no ':' get distinct memory keys. */
  lemma CacheKeyInjective(exchange: string, symbol: string, instrument: string,
                          exchange': string, symbol': string, instrument': string)
    requires ':' !in exchange && ':' !in symbol && ':' !in exchange' && ':' !in symbol'
    requires CacheKey(exchange, symbol, instrument) == CacheKey(exchange', symbol', instrument')
    ensures exchange == exchange' && symbol == symbol' && instrument == instrument'
  {
    assert CacheKey(exchange, symbol, instrument) == exchange + ":" + (symbol + ":" + instrument);
    assert CacheKey(exchange', symbol', instrument') == exchange' + ":" + (symbol' + ":" + instrument');
    SplitAtFirstColon(exchange, symbol + ":" + instrument, exchange', symbol' + ":" + instrument');
    SplitAtFirstColon(symbol, instrument, symbol', instrument');
  }

  /** Without that condition two different triples can share one key. */
  lemma CacheKeyCollision()
    ensures CacheKey("NSE", "A:B", "EQ") == CacheKey("NSE:A", "B", "EQ")
  {
    assert CacheKey("NSE", "A:B", "EQ") == "NSE:A:B:EQ";
    assert CacheKey("NSE:A", "B", "EQ") == "NSE:A:B:EQ";
  }

  /** Tier 2 of get_security_id: the dataset, when one is loaded. */
  function DatasetTier(s: State, ticker: string, instrument: string, exchange: string): Option<string> {
    if s.data.Some? then DatasetLookup(s.data.value, exchange, ticker, instrument) else None
  }

  /** Tier 3 of get_security_id (main.py:288-298): the remote catalog, with write-back of a hit. */
  function RemoteTier(s: State, ticker: string, instrument: string, exchange: string,
                      catalog: Option<Table>): (Lookup, State)
  {
    var remote := CatalogLookup(catalog, ticker, instrument);
    // `if security_id:` also rejects the empty string
    if remote.None? || remote.value == "" then (NotFound, s)
    else
      var id := remote.value;
      var save := AppendIfAbsent(s.file, Record(exchange, ticker, instrument, id));
      var s' := s.(memory := s.memory[CacheKey(exchange, ticker, instrument) := id], file := save.file);
      // the source reloads only when the file exists (main.py:294); after a save it always does,
      // so the first case is kept for fidelity and never taken
      match save.file
      case None => (Found(id), s')
      case Some(Unparseable(why)) => (Raised(why), s')
      case Some(Parsed(t)) => (Found(id), s'.(data := Some(t)))
  }

  /** get_security_id (main.py:262-298) on state `s`, with `catalog` what the broker returns if asked. */
  function Resolve(s: State, ticker: string, instrument: string, exchange: string,
                   catalog: Option<Table>): (Lookup, State)
  {
    var key := CacheKey(exchange, ticker, instrument);
    if key in s.memory then (Found(s.memory[key]), s)
    else
      var hit := DatasetTier(s, ticker, instrument, exchange);
      if hit.Some? then (Found(hit.value), s.(memory := s.memory[key := hit.value]))
      else RemoteTier(s, ticker, instrument, exchange, catalog)
  }

  /** Memory wins: a cached key is answered from memory, whatever the dataset, the file and the
      catalog hold, and nothing changes. */
  lemma MemoryWins(s: State, ticker: string, instrument: string, exchange: string, catalog: Option<Table>)
    requires CacheKey(exchange, ticker, instrument) in s.memory
    ensures Resolve(s, ticker, instrument, exchange, catalog) == (Found(s.memory[CacheKey(exchange, ticker, instrument)]), s)
  {
  }

  /** Dataset hit: on a memory miss, the ID of the FIRST row matching exchange, symbol and series
      is returned and put into memory; no remote lookup happens and the file and dataset stay. */
  lemma DatasetHit(s: State, ticker: string, instrument: string, exchange: string,
                   catalog: Option<Table>, i: int)
    requires CacheKey(exchange, ticker, instrument) !in s.memory
    requires s.data.Some? && AllColumns <= s.data.value.columns
    requires IsFirstMatch(s.data.value.rows, KeyFilter(exchange, ticker, instrument), i)
    ensures var id := s.data.value.rows[i].securityId;
      Resolve(s, ticker, instrument, exchange, catalog)
        == (Found(id), s.(memory := s.memory[CacheKey(exchange, ticker, instrument) := id]))
  {
    FirstMatchUnique(s.data.value.rows, KeyFilter(exchange, ticker, instrument), i);
  }

  /** The dataset tier is skipped when no dataset is loaded, and a dataset the scan cannot read
      (a missing column) or that holds no matching row falls through to the remote tier. */
  lemma DatasetTierFallsThrough(s: State, ticker: string, instrument: string, exchange: string,
                                catalog: Option<Table>)
    requires CacheKey(exchange, ticker, instrument) !in s.memory
    requires s.data.None?
          || !(AllColumns <= s.data.value.columns)
          || forall j :: 0 <= j < |s.data.value.rows| ==> !Matches(s.data.value.rows[j], KeyFilter(exchange, ticker, instrument))
    ensures Resolve(s, ticker, instrument, exchange, catalog) == RemoteTier(s, ticker, instrument, exchange, catalog)
  {
  }

  /** Remote hit writes back: on a readable or absent file the catalog's ID is returned and cached,
      the file is passed through append-if-absent (which leaves a file lacking a key column as it
      was), and the dataset is reloaded from the file; `source` and `error` stay. When the file
      carries all four columns the dataset tier then answers the key, with the ID just learnt when
      the file held no row for it. */
  lemma RemoteHitWritesBack(s: State, ticker: string, instrument: string, exchange: string,
                            catalog: Option<Table>, id: string)
    requires CacheKey(exchange, ticker, instrument) !in s.memory
    requires DatasetTier(s, ticker, instrument, exchange).None?
    requires CatalogLookup(catalog, ticker, instrument) == Some(id) && id != ""
    requires s.file.None? || s.file.value.Parsed?
    ensures var (r, s') := Resolve(s, ticker, instrument, exchange, catalog);
      var rec := Record(exchange, ticker, instrument, id);
      && r == Found(id)
      && s'.memory == s.memory[CacheKey(exchange, ticker, instrument) := id]
      && s'.file == AppendIfAbsent(s.file, rec).file
      && s'.data.Some? && s'.file == Some(Parsed(s'.data.value))
      && s'.error == s.error && s'.source == s.source
      && (s.file.Some? && !(KeyColumns <= s.file.value.table.columns) ==> s'.file == s.file)
      && (s.file.None? || AllColumns <= s.file.value.table.columns ==>
            && DatasetTier(s', ticker, instrument, exchange).Some?
            && (CountMatches(RowsOf(s.file), KeyFilter(exchange, ticker, instrument)) == 0 ==>
                  DatasetTier(s', ticker, instrument, exchange) == Some(id)))
  {
    var rec := Record(exchange, ticker, instrument, id);
    var f := KeyFilter(exchange, ticker, instrument);
    var rows := RowsOf(s.file);
    AppendIfAbsentSpec(s.file, rec);
    FirstMatchAppend(rows, rec, f);
    NoMatchIffCountZero(rows, f);
    var (r, s') := Resolve(s, ticker, instrument, exchange, catalog);
    if AppendIfAbsent(s.file, rec).saved {
      assert s'.data.value.rows == rows + [rec];
      assert IsFirstMatch(rows + [rec], f, |rows|) ==> s'.data.value.rows[|rows|].securityId == id;
    } else if s.file.None? || AllColumns <= s.file.value.table.columns {
      assert s'.data.value.rows == rows;
      var i := FirstMatch(rows, f).value;
      assert Matches(rows[i], f);
    }
  }

  /** A remote hit over a file that read_csv rejects: the save fails and changes nothing, the ID
      is cached all the same, and the reload then raises the parse error out of the call, leaving
      the dataset as it was. A repeat call is answered from memory. */
  lemma RemoteHitOnUnreadableFile(s: State, ticker: string, instrument: string, exchange: string,
                                  catalog: Option<Table>, later: Option<Table>, id: string, why: string)
    requires CacheKey(exchange, ticker, instrument) !in s.memory
    requires DatasetTier(s, ticker, instrument, exchange).None?
    requires CatalogLookup(catalog, ticker, instrument) == Some(id) && id != ""
    requires s.file == Some(Unparseable(why))
    ensures var (r, s') := Resolve(s, ticker, instrument, exchange, catalog);
      && r == Raised(why)
      && s' == s.(memory := s.memory[CacheKey(exchange, ticker, instrument) := id])
      && Resolve(s', ticker, instrument, exchange, later) == (Found(id), s')
  {
  }

  /** A miss changes nothing: when all three tiers miss, the result is None and memory, dataset
      and file are as before. */
  lemma MissChangesNothing(s: State, ticker: string, instrument: string, exchange: string,
                           catalog: Option<Table>)
    requires CacheKey(exchange, ticker, instrument) !in s.memory
    requires DatasetTier(s, ticker, instrument, exchange).None?
    requires CatalogLookup(catalog, ticker, instrument).None? || CatalogLookup(catalog, ticker, instrument).value == ""
    ensures Resolve(s, ticker, instrument, exchange, catalog) == (NotFound, s)
  {
  }

  /** Write-back idempotence: once a call has produced an ID (or raised after caching it), a
      second call with the same key is answered from memory with that ID, changes nothing, and
      does not depend on the catalog: the broker is asked at most once and the file written at
      most once. */
  lemma SecondResolutionFromMemory(s: State, ticker: string, instrument: string, exchange: string,
                                   catalog: Option<Table>, later: Option<Table>)
    ensures var (r, s1) := Resolve(s, ticker, instrument, exchange, catalog);
      r != NotFound ==>
        var id := s1.memory[CacheKey(exchange, ticker, instrument)];
        && (r.Found? ==> r.id == id)
        && Resolve(s1, ticker, instrument, exchange, later) == (Found(id), s1)
  {
  }

  /** The remote match ignores the exchange: a catalog that lists a symbol only on BSE answers an
      NSE query with the BSE row's ID, and that ID is written to the file under NSE. */
  lemma RemoteIgnoresExchange()
    ensures var catalog := Some(Table(AllColumns, [Record("BSE", "INFY", "EQ", "500209")]));
      var (r, s') := Resolve(Startup(None), "INFY", "EQ", "NSE", catalog);
      r == Found("500209") && RowsOf(s'.file) == [Record("NSE", "INFY", "EQ", "500209")]
  {
    var catalog := Some(Table(AllColumns, [Record("BSE", "INFY", "EQ", "500209")]));
    assert IsFirstMatch(catalog.value.rows, Filter(None, "INFY", "EQ"), 0);
    FirstMatchUnique(catalog.value.rows, Filter(None, "INFY", "EQ"), 0);
    assert FirstMatch([], KeyFilter("NSE", "INFY", "EQ")) == None;
  }

  /** The error text load_csv_cache stores when it finds no data source (main.py:252). */
  const NotAvailableNote: string := "CSV not available initially - will fetch from Dhan API"

  /** The error text load_csv_cache stores when reading the CSV raises (main.py:256). */
  function LoadErrorNote(reason: string): string {
    "Error loading CSV: " + reason
  }

  /** load_csv_cache (main.py:229-259). `downloadUrl` is CSV_DOWNLOAD_URL; `download` is what
      download_csv fetches, None when it fails. Returns the function's boolean and the new state. */
  function Provision(s: State, downloadUrl: string, download: Option<Content>): (bool, State) {
    match s.file
    case Some(Parsed(t)) => (true, s.(data := Some(t), error := None, source := LocalFile))
    case Some(Unparseable(why)) => (false, s.(error := Some(LoadErrorNote(why)), source := LoadError))
    case None =>
      if downloadUrl != "" && download.Some? then
        var s1 := s.(file := download);
        match download.value
        case Parsed(t) => (true, s1.(data := Some(t), error := None, source := Downloaded))
        case Unparseable(why) => (false, s1.(error := Some(LoadErrorNote(why)), source := LoadError))
      else
        (false, s.(file := Some(Parsed(EmptyTable)), error := Some(NotAvailableNote), source := NoneAvailable))
  }

  /** Provisioner order: a present file is loaded and nothing is downloaded; otherwise a successful
      download is stored and loaded; otherwise an empty header-only file is written and no data is
      set. A file or download that read_csv rejects gives source "error" with its reason and leaves
      the data as it was. In every case the memory map is untouched, and True means data was loaded. */
  lemma ProvisionOrder(s: State, downloadUrl: string, download: Option<Content>)
    ensures var (ok, s') := Provision(s, downloadUrl, download);
      && s'.memory == s.memory
      && (ok <==> s'.source in {LocalFile, Downloaded})
      && (ok ==> s'.data.Some? && s'.file == Some(Parsed(s'.data.value)) && s'.error.None?)
      && (s.file.Some? ==> s'.file == s.file)
      && (s.file.Some? && s.file.value.Parsed? ==>
            ok && s'.source == LocalFile && s'.data == Some(s.file.value.table))
      && (s.file.Some? && s.file.value.Unparseable? ==>
            && !ok && s'.source == LoadError && s'.data == s.data
            && s'.error == Some(LoadErrorNote(s.file.value.reason)))
      && (s.file.None? && downloadUrl != "" && download.Some? ==>
            && s'.file == download
            && (download.value.Parsed? ==>
                  ok && s'.source == Downloaded && s'.data == Some(download.value.table) && s'.error.None?)
            && (download.value.Unparseable? ==>
                  && !ok && s'.source == LoadError && s'.data == s.data
                  && s'.error == Some(LoadErrorNote(download.value.reason))))
      && (s.file.None? && (downloadUrl == "" || download.None?) ==>
            && !ok && s'.source == NoneAvailable && s'.data == s.data
            && s'.error == Some(NotAvailableNote) && s'.file == Some(Parsed(EmptyTable)))
  {
  }

  /** With no file and no download, provisioning leaves the dataset tier off; the first remote
      hit then creates the file with that one row and reloads it, turning the tier on while the
      source still reads "none". */
  lemma EmptyStartThenWriteBack(ticker: string, instrument: string, exchange: string,
                                catalog: Option<Table>, id: string)
    requires CatalogLookup(catalog, ticker, instrument) == Some(id) && id != ""
    ensures var (_, s0) := Provision(Startup(None), "", None);
      var (r, s1) := Resolve(s0, ticker, instrument, exchange, catalog);
      && s0.data.None? && s0.source == NoneAvailable
      && r == Found(id)
      && s1.data == Some(Table(AllColumns, [Record(exchange, ticker, instrument, id)]))
      && s1.source == NoneAvailable
  {
    var rec := Record(exchange, ticker, instrument, id);
    assert FirstMatch([], KeyFilter(exchange, ticker, instrument)) == None;
    assert AllColumns + AllColumns == AllColumns;
    assert [] + [rec] == [rec];
  }

  /** The write-back outlives the process: after a remote hit on a well-formed file, a restarted
      process that provisions from that file answers the same key from the dataset tier, whatever
      the catalog then says, with the learnt ID when the file had no row for the key. */
  lemma RestartAnswersFromFile(s: State, ticker: string, instrument: string, exchange: string,
                               catalog: Option<Table>, later: Option<Table>, id: string)
    requires CacheKey(exchange, ticker, instrument) !in s.memory
    requires DatasetTier(s, ticker, instrument, exchange).None?
    requires CatalogLookup(catalog, ticker, instrument) == Some(id) && id != ""
    requires s.file.None? || (s.file.value.Parsed? && AllColumns <= s.file.value.table.columns)
    ensures var (_, s1) := Resolve(s, ticker, instrument, exchange, catalog);
      var (_, p) := Provision(Startup(s1.file), "", None);
      var (r, p') := Resolve(p, ticker, instrument, exchange, later);
      && p.source == LocalFile
      && r.Found?
      && p'.file == s1.file
      && (CountMatches(RowsOf(s.file), KeyFilter(exchange, ticker, instrument)) == 0 ==> r == Found(id))
  {
    RemoteHitWritesBack(s, ticker, instrument, exchange, catalog, id);
  }

  /** A dataset holding (NSE, INFY, EQ, "1594") answers a cold lookup of INFY/EQ/NSE with "1594"
      and caches it; a second lookup succeeds from memory even with the dataset gone. */
  lemma InfyScenario(catalog: Option<Table>, later: Option<Table>)
    ensures var s := Startup(None).(data := Some(Table(AllColumns, [Record("NSE", "INFY", "EQ", "1594")])));
      var (r1, s1) := Resolve(s, "INFY", "EQ", "NSE", catalog);
      var (r2, _) := Resolve(s1.(data := None), "INFY", "EQ", "NSE", later);
      && r1 == Found("1594") && s1.memory == map[CacheKey("NSE", "INFY", "EQ") := "1594"]
      && r2 == Found("1594")
  {
    var rows := [Record("NSE", "INFY", "EQ", "1594")];
    assert IsFirstMatch(rows, KeyFilter("NSE", "INFY", "EQ"), 0);
    FirstMatchUnique(rows, KeyFilter("NSE", "INFY", "EQ"), 0);
  }

  /** Keys that contain ':' can alias: once ("A:B", EQ, NSE) is cached, looking up ("B", EQ,
      "NSE:A") returns the cached ID of the other triple from memory. */
  lemma AliasedKeysShareMemory(s: State, catalog: Option<Table>)
    requires CacheKey("NSE", "A:B", "EQ") in s.memory
    ensures Resolve(s, "B", "EQ", "NSE:A", catalog) == (Found(s.memory[CacheKey("NSE", "A:B", "EQ")]), s)
  {
    CacheKeyCollision();
  }
}
