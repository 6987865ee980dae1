/**
 * The worker's history store (`FileHandler.save_history_entry` and
 * `FileHandler.delete_history_entry`): a list of entries kept in a JSON file,
 * appended to and truncated to the last 50, and deleted from by position.
 *
 * The file is abstract: it is missing, unreadable, or holds a list of entries.
 */
module History {
  import opened Wrappers
  import opened Json

  const MaxEntries: nat := 50
  const PreviewLength: nat := 500

  /** What reading `history.json` gives. */
  datatype HistoryFile =
    | Missing
    | Unreadable(reason: string)
    | Stored(entries: seq<Json>)

  /**
   * What writing a list back with `open(path, 'w')` and `json.dump` does: it
   * is written, or `open` raises and the file is untouched, or the dump
   * raises after `open` truncated the file, leaving text that no longer reads
   * as JSON.
   */
  datatype WriteResult = Written | OpenFailed(error: string) | DumpFailed(error: string)

  /** The file after writing `h` back. */
  function AfterWrite(f: HistoryFile, h: seq<Json>, w: WriteResult): (r: HistoryFile)
    ensures w.Written? ==> r == Stored(h)
    ensures w.OpenFailed? ==> r == f
    ensures w.DumpFailed? ==> r.Unreadable?
  {
    match w
    case Written => Stored(h)
    case OpenFailed(_) => f
    case DumpFailed(e) => Unreadable(e)
  }

  /**
   * A dump that fails part-way loses the history: the next save starts from an
   * empty list, while a failed `open` leaves the old list to start from.
   */
  lemma FailedDumpLosesHistory(f: HistoryFile, h: seq<Json>, e: string)
    ensures LoadedOrEmpty(AfterWrite(f, h, DumpFailed(e))) == []
    ensures LoadedOrEmpty(AfterWrite(f, h, OpenFailed(e))) == LoadedOrEmpty(f)
    ensures LoadedOrEmpty(AfterWrite(f, h, Written)) == h
  {
  }

  /** The list the save path starts from: an absent or unreadable file counts as empty. */
  function LoadedOrEmpty(f: HistoryFile): (r: seq<Json>)
    ensures f.Stored? ==> r == f.entries
    ensures !f.Stored? ==> r == []
  {
    match f
    case Stored(entries) => entries
    case _ => []
  }

  /** `s[:n]`: the first `n` characters, or all of a shorter string. */
  function Prefix(s: string, n: nat): (r: string)
    ensures |r| == if |s| < n then |s| else n
    ensures r <= s
  {
    if |s| <= n then s else s[..n]
  }

  /** `h[-n:]` for `n > 0`: the last `n` entries, or all of a shorter list. */
  function LastN(h: seq<Json>, n: nat): (r: seq<Json>)
    requires n > 0
    ensures |r| == if |h| < n then |h| else n
    ensures r == h[|h| - |r|..]
  {
    if |h| <= n then h else h[|h| - n..]
  }

  /** Python truthiness of an optional list: present and not empty. */
  predicate Truthy<T>(xs: Option<seq<T>>) {
    xs.Some? && |xs.value| > 0
  }

  function Strings(xs: seq<string>): (r: seq<Json>)
    ensures |r| == |xs| && forall i :: 0 <= i < |xs| ==> r[i] == Str(xs[i])
  {
    if xs == [] then [] else [Str(xs[0])] + Strings(xs[1..])
  }

  function Numbers(xs: seq<int>): (r: seq<Json>)
    ensures |r| == |xs| && forall i :: 0 <= i < |xs| ==> r[i] == Number(xs[i])
  {
    if xs == [] then [] else [Number(xs[0])] + Numbers(xs[1..])
  }

  /** The fields every entry starts with, in order. */
  function BaseFields(timestamp: string, asciiArt: string, options: Json, isGif: bool): seq<(string, Json)> {
    [("timestamp", Str(timestamp)), ("ascii", Str(asciiArt)),
     ("preview", Str(Prefix(asciiArt, PreviewLength))), ("options", options),
     ("isGif", Bool(isGif))]
  }

  /** The entry dictionary: its fixed fields, then frames and delays for a GIF that has both. */
  function MakeEntry(timestamp: string, asciiArt: string, options: Json, isGif: bool,
                     frames: Option<seq<string>>, delays: Option<seq<int>>): Json
  {
    var base := BaseFields(timestamp, asciiArt, options, isGif);
    if isGif && Truthy(frames) && Truthy(delays) then
      Obj(base + [("frames", Arr(Strings(frames.value))), ("delays", Arr(Numbers(delays.value)))])
    else Obj(base)
  }

  /**
   * The entry records the timestamp it is given, the whole text, a preview
   * that is its first 500 characters, the options and `isGif`, whatever else
   * it holds.
   */
  lemma EntryFixedFields(timestamp: string, asciiArt: string, options: Json, isGif: bool,
                         frames: Option<seq<string>>, delays: Option<seq<int>>)
    ensures var e := MakeEntry(timestamp, asciiArt, options, isGif, frames, delays);
      && e.Obj?
      && Get(e.fields, "timestamp") == Some(Str(timestamp))
      && Get(e.fields, "ascii") == Some(Str(asciiArt))
      && Get(e.fields, "preview") == Some(Str(Prefix(asciiArt, PreviewLength)))
      && Get(e.fields, "options") == Some(options)
      && Get(e.fields, "isGif") == Some(Bool(isGif))
  {
    var fs := MakeEntry(timestamp, asciiArt, options, isGif, frames, delays).fields;
    var base := BaseFields(timestamp, asciiArt, options, isGif);
    assert fs[..5] == base;
    forall i | 0 <= i < 5 ensures Get(fs, fs[i].0) == Some(fs[i].1) {
      assert forall j :: i < j < |fs| ==> fs[j].0 != fs[i].0;
      GetAt(fs, i);
    }
    assert fs[0] == ("timestamp", Str(timestamp));
    assert fs[1] == ("ascii", Str(asciiArt));
    assert fs[2] == ("preview", Str(Prefix(asciiArt, PreviewLength)));
    assert fs[3] == ("options", options);
    assert fs[4] == ("isGif", Bool(isGif));
  }

  /** A GIF entry with frames and delays records both lists. */
  lemma EntryGifFields(timestamp: string, asciiArt: string, options: Json,
                       frames: seq<string>, delays: seq<int>)
    requires |frames| > 0 && |delays| > 0
    ensures var e := MakeEntry(timestamp, asciiArt, options, true, Some(frames), Some(delays));
      && Get(e.fields, "frames") == Some(Arr(Strings(frames)))
      && Get(e.fields, "delays") == Some(Arr(Numbers(delays)))
  {
    var fs := MakeEntry(timestamp, asciiArt, options, true, Some(frames), Some(delays)).fields;
    assert fs[5] == ("frames", Arr(Strings(frames)));
    assert fs[6] == ("delays", Arr(Numbers(delays)));
    GetAt(fs, 5);
    GetAt(fs, 6);
  }

  /** Without `is_gif`, or with no frames or no delays, neither list is recorded. */
  lemma EntryWithoutGifFields(timestamp: string, asciiArt: string, options: Json, isGif: bool,
                              frames: Option<seq<string>>, delays: Option<seq<int>>)
    requires !(isGif && Truthy(frames) && Truthy(delays))
    ensures var e := MakeEntry(timestamp, asciiArt, options, isGif, frames, delays);
      Get(e.fields, "frames") == None && Get(e.fields, "delays") == None
  {
    var fs := MakeEntry(timestamp, asciiArt, options, isGif, frames, delays).fields;
    assert Keys(fs) == ["timestamp", "ascii", "preview", "options", "isGif"];
  }

  /** The list after a save: the new entry last, then only the last 50 kept. */
  function Saved(h: seq<Json>, entry: Json): seq<Json> {
    LastN(h + [entry], MaxEntries)
  }

  /**
   * A save puts the new entry last; the list has `min(old + 1, 50)` entries,
   * and the entries kept before it are the most recent old ones, in order.
   */
  lemma SavedKeepsMostRecent(h: seq<Json>, entry: Json)
    ensures var r := Saved(h, entry);
      && |r| == (if |h| + 1 < MaxEntries then |h| + 1 else MaxEntries)
      && r[|r| - 1] == entry
      && r[..|r| - 1] == h[|h| - (|r| - 1)..]
  {
    var r := Saved(h, entry);
    var all := h + [entry];
    assert r == all[|all| - |r|..];
    assert r[..|r| - 1] == all[|all| - |r|..|all| - 1];
    assert all[..|h|] == h;
  }

  /** `history.pop(index)` for a valid index: that entry goes, the rest keep their order. */
  function RemoveAt(h: seq<Json>, index: nat): (r: seq<Json>)
    requires index < |h|
    ensures |r| == |h| - 1
    ensures forall j :: 0 <= j < index ==> r[j] == h[j]
    ensures forall j :: index <= j < |r| ==> r[j] == h[j + 1]
  {
    h[..index] + h[index + 1..]
  }

  /**
   * Two deletes of index 0 against the same positional list remove the two
   * first original entries: the second index refers to the list as the first
   * delete left it.
   */
  lemma RepeatedDeleteShifts(h: seq<Json>)
    requires |h| >= 2
    ensures RemoveAt(RemoveAt(h, 0), 0) == h[2..]
  {
  }

  class FileHandler {
    var historyFile: HistoryFile

    constructor (historyFile: HistoryFile)
      ensures this.historyFile == historyFile
    {
      this.historyFile := historyFile;
    }

    /**
     * `save_history_entry`: load (or start empty), append, keep the last 50,
     * write back. A failed write raises its error.
     */
    method SaveHistoryEntry(asciiArt: string, options: Json, isGif: bool,
                            frames: Option<seq<string>>, delays: Option<seq<int>>, now: string,
                            write: WriteResult) returns (r: Outcome)
      modifies this
      ensures historyFile == AfterWrite(old(historyFile),
                                        Saved(LoadedOrEmpty(old(historyFile)),
                                              MakeEntry(now, asciiArt, options, isGif, frames, delays)),
                                        write)
      ensures r == if write.Written? then Pass else Fail(write.error)
    {
      var history: seq<Json> := [];
      if historyFile.Stored? {
        history := historyFile.entries;
      }
      var entry := MakeEntry(now, asciiArt, options, isGif, frames, delays);
      history := history + [entry];
      history := LastN(history, MaxEntries);
      match write {
        case Written =>
          historyFile := Stored(history);
          return Pass;
        case OpenFailed(e) =>
          return Fail(e);
        case DumpFailed(e) =>
          historyFile := Unreadable(e);
          return Fail(e);
      }
    }

    /**
     * `delete_history_entry`: deletes exactly when the file holds a list and
     * `0 <= index < len`, writing back the list without that entry and
     * returning true, or raising when the write fails; otherwise it returns
     * false and the file is left as it was.
     */
    method DeleteHistoryEntry(index: int, write: WriteResult) returns (r: Result<bool>)
      modifies this
      ensures var valid := old(historyFile).Stored? && 0 <= index < |old(historyFile).entries|;
        && (!valid ==> r == Ok(false) && historyFile == old(historyFile))
        && (valid ==> historyFile == AfterWrite(old(historyFile), RemoveAt(old(historyFile).entries, index), write))
        && (valid ==> r == if write.Written? then Ok(true) else Err(write.error))
    {
      var history: seq<Json> := [];
      match historyFile {
        case Unreadable(_) => return Ok(false);
        case Stored(entries) => history := entries;
        case Missing =>
      }
      if 0 <= index < |history| {
        history := history[..index] + history[index + 1..];
        match write {
          case Written =>
            historyFile := Stored(history);
            return Ok(true);
          case OpenFailed(e) =>
            return Err(e);
          case DumpFailed(e) =>
            historyFile := Unreadable(e);
            return Err(e);
        }
      }
      return Ok(false);
    }
  }
}
