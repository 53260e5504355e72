/**
 * The translation history of the Translator component: a most-recent-first
 * list of exchanges, cut to 50 entries on every insertion, and the record
 * that persists it in the browser's local storage.
 */
module History {
  import opened Wrappers

  /**
   * One finished translation. `id` is the `Date.now()` timestamp taken when
   * the exchange was recorded; it also serves as the entry's key.
   */
  datatype Exchange = Exchange(
    id: int,
    sourceText: string,
    translatedText: string,
    sourceLang: string,
    targetLang: string)

  /** The history is cut to this many entries after each insertion. */
  const MaxEntries: nat := 50

  function Min(a: int, b: int): int
  {
    if a <= b then a else b
  }

  /** `s.slice(0, n)`: the first `n` elements, or all of `s` when it is shorter. */
  function Take<T>(s: seq<T>, n: nat): (r: seq<T>)
    ensures |r| == Min(|s|, n)
    ensures r == s[..|r|]
  {
    if |s| <= n then s else s[..n]
  }

  /**
   * The history update `[newHistoryItem, ...prevHistory].slice(0, 50)`: the
   * new item first, followed by the newest old entries that still fit.
   */
  function Record(item: Exchange, prev: seq<Exchange>): (r: seq<Exchange>)
    ensures |r| == Min(|prev| + 1, MaxEntries)
    ensures r[0] == item
    ensures r[1..] == prev[..|r| - 1]
  {
    Take([item] + prev, MaxEntries)
  }

  /** Recording one exchange after another, in arrival order. */
  function RecordAll(h: seq<Exchange>, items: seq<Exchange>): (r: seq<Exchange>)
    ensures items != [] ==> |r| <= MaxEntries
    ensures |h| <= MaxEntries ==> |r| <= MaxEntries
    decreases |items|
  {
    if items == [] then h else RecordAll(Record(items[0], h), items[1..])
  }

  /** `s` in reverse order. */
  function Reversed<T>(s: seq<T>): (r: seq<T>)
    ensures |r| == |s|
    ensures forall i :: 0 <= i < |s| ==> r[i] == s[|s| - 1 - i]
  {
    if s == [] then [] else Reversed(s[1..]) + [s[0]]
  }

  /** Cutting the tail first does not change a later cut to the same length. */
  lemma TakeAppendTake<T>(a: seq<T>, b: seq<T>, n: nat)
    ensures Take(a + Take(b, n), n) == Take(a + b, n)
  {
  }

  /**
   * The entries beyond the first 49 never reach the new history: recording
   * into a list or into its first 49 entries gives the same result.
   */
  lemma RecordIgnoresOverflow(item: Exchange, prev: seq<Exchange>)
    ensures Record(item, Take(prev, MaxEntries - 1)) == Record(item, prev)
  {
  }

  /**
   * Whatever the number of exchanges recorded, the history holds the newest
   * of them first (the last recorded at the front), then the older history,
   * cut to 50 entries.
   */
  lemma {:induction false} RecordAllNewestFirst(h: seq<Exchange>, items: seq<Exchange>)
    requires items != [] || |h| <= MaxEntries
    ensures RecordAll(h, items) == Take(Reversed(items) + h, MaxEntries)
    decreases |items|
  {
    if items != [] {
      var x, rest := items[0], items[1..];
      RecordAllNewestFirst(Record(x, h), rest);
      TakeAppendTake(Reversed(rest), [x] + h, MaxEntries);
      assert Reversed(items) + h == Reversed(rest) + ([x] + h);
    }
  }

  /** Entries are ordered newest first: ids strictly decrease from the front. */
  predicate NewestFirst(h: seq<Exchange>)
  {
    forall i, j :: 0 <= i < j < |h| ==> h[i].id > h[j].id
  }

  /**
   * When the new exchange's timestamp is later than the current front entry's,
   * recording it keeps the history ordered newest first (so ids stay unique).
   */
  lemma RecordKeepsNewestFirst(item: Exchange, prev: seq<Exchange>)
    requires NewestFirst(prev)
    requires prev == [] || item.id > prev[0].id
    ensures NewestFirst(Record(item, prev))
  {
  }

  /** The local-storage key under which the history is persisted. */
  const StorageKey := "translationHistory"

  /**
   * What local storage holds under the key: text that `JSON.parse` rejects,
   * or the serialization of a history list.
   */
  datatype StoredValue = Unparsable(raw: string) | Serialized(entries: seq<Exchange>)

  /**
   * The list the load-on-mount effect passes to `setHistory`, or None when it
   * calls no setter: a missing or empty (falsy) record leaves the history
   * alone, a record that fails to parse resets it to the empty list, and a
   * serialized list is restored as it was saved.
   */
  function LoadedHistory(record: Option<StoredValue>): (r: Option<seq<Exchange>>)
    ensures r == None <==> record == None || record == Some(Unparsable(""))
    ensures forall h :: record == Some(Serialized(h)) ==> r == Some(h)
    ensures r.Some? && r.value != [] ==> record == Some(Serialized(r.value))
  {
    match record
    case None => None
    case Some(Unparsable(raw)) => if raw == "" then None else Some([])
    case Some(Serialized(entries)) => Some(entries)
  }
}
