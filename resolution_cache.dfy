/**
  The process-wide caches of main.py as one object: `symbol_cache` and the three entries of
  `csv_cache`, over the on-disk file. Its two methods are get_security_id and load_csv_cache,
  written step by step as the source runs them, each proved equal to its function in module
  Resolution, where the tier and provisioning properties are proved.
 */
module ResolutionCache {
  import opened Wrappers
  import opened Dataset
  import opened DatasetStore
  import opened Resolution

  class Resolver {
    var memory: map<string, string>   // symbol_cache
    var data: Option<Table>           // csv_cache["data"]
    var error: Option<string>         // csv_cache["error"]
    var source: Source                // csv_cache["source"]
    const disk: DatasetFile

    /** The module-level initial values (main.py:135-136). */
    constructor (disk: DatasetFile)
      ensures this.disk == disk
      ensures Snapshot() == Startup(disk.content)
    {
      memory := map[];
      data := None;
      error := None;
      source := NotLoaded;
      this.disk := disk;
    }

    function Snapshot(): State
      reads this, disk
    {
      State(memory, data, error, source, disk.content)
    }

    /** get_security_id (main.py:262-298): memory, then dataset, then the broker's `catalog`,
        writing a remote hit back to the file, the memory map and the reloaded dataset. */
    method GetSecurityId(ticker: string, instrument: string, exchange: string, catalog: Option<Table>)
      returns (r: Lookup)
      modifies this, disk
      ensures (r, Snapshot()) == Resolve(old(Snapshot()), ticker, instrument, exchange, catalog)
    {
      var key := CacheKey(exchange, ticker, instrument);
      if key in memory {
        return Found(memory[key]);
      }
      if data.Some? {
        var hit := DatasetLookup(data.value, exchange, ticker, instrument);
        if hit.Some? {
          memory := memory[key := hit.value];
          return Found(hit.value);
        }
      }
      var remote := CatalogLookup(catalog, ticker, instrument);
      if remote.None? || remote.value == "" {
        return NotFound;
      }
      var id := remote.value;
      // the save's boolean is ignored, as at main.py:292
      var saved := disk.Save(Record(exchange, ticker, instrument, id));
      memory := memory[key := id];
      if disk.content.Some? {
        match disk.content.value {
          case Unparseable(why) =>
            return Raised(why);
          case Parsed(t) =>
            data := Some(t);
        }
      }
      r := Found(id);
    }

    /** load_csv_cache (main.py:229-259): local file, else download, else an empty file. */
    method LoadCsvCache(downloadUrl: string, download: Option<Content>) returns (ok: bool)
      modifies this, disk
      ensures (ok, Snapshot()) == Provision(old(Snapshot()), downloadUrl, download)
    {
      match disk.content {
        case Some(Parsed(t)) =>
          data, error, source := Some(t), None, LocalFile;
          return true;
        case Some(Unparseable(why)) =>
          error, source := Some(LoadErrorNote(why)), LoadError;
          return false;
        case None =>
      }
      if downloadUrl != "" && download.Some? {
        disk.StoreDownload(download.value);
        match download.value {
          case Parsed(t) =>
            data, error, source := Some(t), None, Downloaded;
            return true;
          case Unparseable(why) =>
            error, source := Some(LoadErrorNote(why)), LoadError;
            return false;
        }
      }
      disk.CreateEmpty();
      source, error := NoneAvailable, Some(NotAvailableNote);
      ok := false;
    }
  }
}
