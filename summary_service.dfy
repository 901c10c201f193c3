/**
 * The summary list: one JSON array kept directly in the browser table under the
 * fixed key "ocr_summaries", read whole, appended to, and written back.
 */
module SummaryService {
  import opened Wrappers
  import opened WebStorage

  const SummaryStorageKey := "ocr_summaries"

  datatype Summary = Summary(id: string, text: string)

  /** `getSummaries()` against the table `entries`: [] when the key is absent or empty, else the parsed list. */
  function ReadSummaries(entries: map<string, string>, codec: Codec<seq<Summary>>): (r: Result<seq<Summary>, Thrown>)
    ensures SummaryStorageKey !in entries ==> r == Ok([])
    ensures SummaryStorageKey in entries && entries[SummaryStorageKey] == "" ==> r == Ok([])
    ensures r.Ok? && SummaryStorageKey in entries && entries[SummaryStorageKey] != "" ==>
              codec.decode(entries[SummaryStorageKey]) == Some(r.value)
    ensures r.Err? <==> SummaryStorageKey in entries && entries[SummaryStorageKey] != "" && codec.decode(entries[SummaryStorageKey]).None?
    ensures r.Err? ==> r.error == MalformedJson
  {
    if SummaryStorageKey !in entries || entries[SummaryStorageKey] == "" then Ok([])
    else
      match codec.decode(entries[SummaryStorageKey])
      case None => Err(MalformedJson)
      case Some(list) => Ok(list)
  }

  /** The table after `saveSummary(summary)`, or the error that stops it before it writes. */
  function SavedEntries(entries: map<string, string>, codec: Codec<seq<Summary>>, summary: Summary): (r: Result<map<string, string>, Thrown>)
    ensures r.Err? <==> ReadSummaries(entries, codec).Err?
    ensures r.Ok? ==> r.value.Keys == entries.Keys + {SummaryStorageKey}
    ensures r.Ok? ==> forall k :: k in entries && k != SummaryStorageKey ==> r.value[k] == entries[k]
  {
    match ReadSummaries(entries, codec)
    case Err(e) => Err(e)
    case Ok(list) => Ok(entries[SummaryStorageKey := codec.encode(list + [summary])])
  }

  /** `getSummaries()` on the live table; `ReadSummaries` states the same over a table's contents, for the lemmas below. */
  function GetSummaries(store: BrowserStore, codec: Codec<seq<Summary>>): (r: Result<seq<Summary>, Thrown>)
    reads store
    ensures r == ReadSummaries(store.entries, codec)
    ensures store.GetItem(SummaryStorageKey).None? ==> r == Ok([])
  {
    ReadSummaries(store.entries, codec)
  }

  /**
   * `saveSummary(summary)`: reads the list, appends, writes it back. When the
   * stored list is not JSON the read throws and nothing is written.
   */
  method SaveSummary(store: BrowserStore, codec: Codec<seq<Summary>>, summary: Summary) returns (r: Result<(), Thrown>)
    requires store.Valid()
    modifies store
    ensures store.Valid()
    ensures r.Err? <==> SavedEntries(old(store.entries), codec, summary).Err?
    ensures r.Err? ==> r.error == MalformedJson && store.entries == old(store.entries) && store.keys == old(store.keys)
    ensures r.Ok? ==> store.entries == SavedEntries(old(store.entries), codec, summary).value
    ensures r.Ok? ==> store.keys == if SummaryStorageKey in old(store.entries) then old(store.keys)
                                    else old(store.keys) + [SummaryStorageKey]
  {
    var summaries := GetSummaries(store, codec);
    if summaries.Err? {
      return Err(summaries.error);
    }
    var list := summaries.value + [summary];
    store.SetItem(SummaryStorageKey, codec.encode(list));
    r := Ok(());
  }

  /** `clearSummaries()`. */
  method ClearSummaries(store: BrowserStore)
    requires store.Valid()
    modifies store
    ensures store.Valid()
    ensures store.entries == old(store.entries) - {SummaryStorageKey}
    ensures store.keys == Without(old(store.keys), SummaryStorageKey)
  {
    store.RemoveItem(SummaryStorageKey);
  }

  /** After `saveSummary(s)`, `getSummaries()` is the previous list followed by `s`. */
  lemma SaveThenGet(entries: map<string, string>, codec: Codec<seq<Summary>>, summary: Summary)
    requires Faithful(codec)
    requires ReadSummaries(entries, codec).Ok?
    ensures SavedEntries(entries, codec, summary).Ok?
    ensures ReadSummaries(SavedEntries(entries, codec, summary).value, codec) == Ok(ReadSummaries(entries, codec).value + [summary])
    ensures |ReadSummaries(SavedEntries(entries, codec, summary).value, codec).value| == |ReadSummaries(entries, codec).value| + 1
  {
    var list := ReadSummaries(entries, codec).value + [summary];
    assert codec.decode(codec.encode(list)) == Some(list) && codec.encode(list) != "";
  }

  /** Saving two summaries with the same id keeps both: there is no de-duplication. */
  lemma SaveTwiceKeepsBoth(entries: map<string, string>, codec: Codec<seq<Summary>>, summary: Summary)
    requires Faithful(codec)
    requires ReadSummaries(entries, codec).Ok?
    ensures SavedEntries(entries, codec, summary).Ok?
    ensures SavedEntries(SavedEntries(entries, codec, summary).value, codec, summary).Ok?
    ensures ReadSummaries(SavedEntries(SavedEntries(entries, codec, summary).value, codec, summary).value, codec)
            == Ok(ReadSummaries(entries, codec).value + [summary, summary])
  {
    var list := ReadSummaries(entries, codec).value;
    SaveThenGet(entries, codec, summary);
    var once := SavedEntries(entries, codec, summary).value;
    SaveThenGet(once, codec, summary);
    assert list + [summary] + [summary] == list + [summary, summary];
  }

  /** After `clearSummaries()`, `getSummaries()` is the empty list. */
  lemma ClearThenGet(entries: map<string, string>, codec: Codec<seq<Summary>>)
    ensures ReadSummaries(entries - {SummaryStorageKey}, codec) == Ok([])
  {
  }
}
