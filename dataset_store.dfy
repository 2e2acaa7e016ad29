/**
  The on-disk security_id_list.csv and the two helpers of main.py that write it. The file is
  `content`: None when it does not exist, otherwise what `pd.read_csv` would make of it.
 */
module DatasetStore {
  import opened Wrappers
  import opened Dataset

  class DatasetFile {
    var content: Option<Content>

    constructor (initial: Option<Content>)
      ensures content == initial
    {
      content := initial;
    }

    /** create_empty_csv (main.py:139-148): write the header-only file. */
    method CreateEmpty()
      modifies this
      ensures content == Some(Parsed(EmptyTable))
    {
      content := Some(Parsed(EmptyTable));
    }

    /** download_csv's effect on success: the downloaded bytes replace the file. */
    method StoreDownload(downloaded: Content)
      modifies this
      ensures content == Some(downloaded)
    {
      content := Some(downloaded);
    }

    /** save_security_id_to_csv (main.py:151-179): append `rec` unless a row with its
        (exchange, symbol, series) is already there; see AppendIfAbsentSpec and
        AppendIfAbsentTwice for what that means for the file. */
    method Save(rec: Record) returns (saved: bool)
      modifies this
      ensures saved == AppendIfAbsent(old(content), rec).saved
      ensures content == AppendIfAbsent(old(content), rec).file
    {
      var t: Table;
      match content {
        case None =>
          t := EmptyTable;
        case Some(Unparseable(_)) =>
          // read_csv raised; the exception is caught and reported as False
          return false;
        case Some(Parsed(loaded)) =>
          t := loaded;
      }
      if !(KeyColumns <= t.columns) {
        // the filter's KeyError, caught
        return false;
      }
      var existing := FirstMatch(t.rows, KeyFilter(rec.exchange, rec.symbol, rec.series));
      if existing.Some? {
        return false;
      }
      content := Some(Parsed(Table(t.columns + AllColumns, t.rows + [rec])));
      saved := true;
    }
  }
}
