/** The browser-side cache (`getCachedData` / `setCachedData`) and the data
    loading of the page: the start-up sequence (`initialize`), which serves
    fresh cached data and refreshes it in the background, or else fetches in
    the foreground and fills the cache (`refreshDataInBackground`,
    `fetchSeatMapData`, `fetchLibraries`). The clock reading and the outcome
    of every request are parameters; requests run one after the other. */
module Loader {
  import opened JsValues
  import opened Records
  import opened Reconcile
  import opened SeatMap

  /** Five minutes, in milliseconds. */
  const CACHE_DURATION: int := 5 * 60 * 1000

  /** The two cache namespaces. */
  const LibrariesKey: string := "libraries"
  const SeatMapKey: string := "seatMap"

  /** What the page caches: the reconciled library list or the seat-map index. */
  datatype Snapshot = LibrarySet(libraries: seq<Library>) | SeatMaps(index: Index)

  /** A stored item: text `JSON.parse` rejects (or `null`); a parsed value
      whose `timestamp` is not a number; or `{data, timestamp}`. */
  datatype Stored = Unparsable | Untimed | Entry(data: Snapshot, timestamp: int)

  /** `localStorage`: storage key to stored item. */
  type Store = map<string, Stored>

  /** The storage key of a namespace. */
  function StorageKey(key: string): (k: string)
    ensures |k| == |key| + 9 && k[9..] == key
  {
    "opendata_" + key
  }

  /** `now - timestamp < CACHE_DURATION`. */
  predicate IsFresh(timestamp: int, now: int) {
    now - timestamp < CACHE_DURATION
  }

  /** An item the read removes: one whose age is not a number or not below
      the limit. */
  predicate Expired(item: Stored, now: int) {
    item.Untimed? || (item.Entry? && !IsFresh(item.timestamp, now))
  }

  /** Each namespace holds only its own kind of snapshot. */
  predicate WellTyped(store: Store) {
    && (StorageKey(LibrariesKey) in store && store[StorageKey(LibrariesKey)].Entry? ==>
          store[StorageKey(LibrariesKey)].data.LibrarySet?)
    && (StorageKey(SeatMapKey) in store && store[StorageKey(SeatMapKey)].Entry? ==>
          store[StorageKey(SeatMapKey)].data.SeatMaps?)
  }

  /** `data` may be written under `key`. */
  predicate Fits(key: string, data: Snapshot) {
    (key == LibrariesKey ==> data.LibrarySet?) && (key == SeatMapKey ==> data.SeatMaps?)
  }

  /** What `getCachedData(key)` returns: the data of a fresh entry, else `null`. */
  function CachedData(store: Store, key: string, now: int): (r: Option<Snapshot>)
    ensures r.Some? <==> StorageKey(key) in store && store[StorageKey(key)].Entry?
                         && IsFresh(store[StorageKey(key)].timestamp, now)
    ensures r.Some? ==> r.value == store[StorageKey(key)].data
    ensures WellTyped(store) && r.Some? ==> Fits(key, r.value)
  {
    var k := StorageKey(key);
    if k in store && store[k].Entry? && IsFresh(store[k].timestamp, now) then Some(store[k].data) else None
  }

  /** The store after `getCachedData(key)`: an expired item is removed. */
  function AfterRead(store: Store, key: string, now: int): (r: Store)
    ensures WellTyped(store) ==> WellTyped(r)
  {
    var k := StorageKey(key);
    if k in store && Expired(store[k], now) then store - {k} else store
  }

  /** The store after `setCachedData(key, data)` at time `now`. */
  function AfterWrite(store: Store, key: string, data: Snapshot, now: int): (r: Store)
    requires Fits(key, data)
    ensures WellTyped(store) ==> WellTyped(r)
  {
    store[StorageKey(key) := Entry(data, now)]
  }

  /** The state the page keeps: the two globals and the store. */
  datatype AppData = AppData(allLibraries: seq<Library>, seatMapData: Index, store: Store)

  /** What the requests of one loading round come to: the seat-map sources
      and the two registry responses (`None` when `body.item` is missing or
      the request or parse fails). */
  datatype Outcomes = Outcomes(
    seatPrimary: HttpOutcome,
    seatFallback: HttpOutcome,
    libraryItems: Option<seq<LibraryRecord>>,
    roomItems: Option<seq<ReadingRoomRecord>>)

  /** How `initialize` obtained its data. */
  datatype LoadPath = FromCache | Fetched | LoadFailed

  /** After `fetchSeatMapData`: the index is rebuilt whatever happens. */
  function SeatMapFetched(d: AppData, primary: HttpOutcome, fallback: HttpOutcome): AppData {
    d.(seatMapData := ResolvedIndex(primary, fallback))
  }

  /** After `fetchLibraries`: the library list is replaced only when
      reconciliation succeeds; otherwise it throws and nothing changes. */
  function LibrariesFetched(d: AppData, libraryItems: Option<seq<LibraryRecord>>, roomItems: Option<seq<ReadingRoomRecord>>): AppData {
    match Reconciled(libraryItems, roomItems)
    case None => d
    case Some(libraries) => d.(allLibraries := libraries)
  }

  /** After `refreshDataInBackground` at time `now`: a non-empty new library
      list replaces the old one and is cached; then a new seat-map index, if
      any, replaces the old one and is cached. */
  function Refreshed(d: AppData, now: int, o: Outcomes): (r: AppData)
    ensures WellTyped(d.store) ==> WellTyped(r.store)
  {
    var libraries := Reconciled(o.libraryItems, o.roomItems);
    var index := SilentIndex(o.seatPrimary);
    var d1 :=
      if libraries.Some? && |libraries.value| > 0 then
        d.(allLibraries := libraries.value, store := AfterWrite(d.store, LibrariesKey, LibrarySet(libraries.value), now))
      else d;
    if index.Some? then
      d1.(seatMapData := index.value, store := AfterWrite(d1.store, SeatMapKey, SeatMaps(index.value), now))
    else d1
  }

  /** After the data part of `initialize` at time `now`. Both namespaces are
      read first; when both are fresh the cached data is installed and the
      background refresh runs (at `refreshNow`, with outcomes `bg`); otherwise
      both fetches run (with outcomes `fg`) and, only when both succeed, both
      namespaces are written. */
  function Initialized(d: AppData, now: int, refreshNow: int, fg: Outcomes, bg: Outcomes): (r: (AppData, LoadPath))
    requires WellTyped(d.store)
    ensures WellTyped(r.0.store)
  {
    var cachedLibraries := CachedData(d.store, LibrariesKey, now);
    var afterFirstRead := AfterRead(d.store, LibrariesKey, now);
    var cachedSeatMap := CachedData(afterFirstRead, SeatMapKey, now);
    var read := d.(store := AfterRead(afterFirstRead, SeatMapKey, now));
    if cachedLibraries.Some? && cachedSeatMap.Some? then
      var installed := read.(allLibraries := cachedLibraries.value.libraries, seatMapData := cachedSeatMap.value.index);
      (Refreshed(installed, refreshNow, bg), FromCache)
    else
      var fetched := LibrariesFetched(SeatMapFetched(read, fg.seatPrimary, fg.seatFallback), fg.libraryItems, fg.roomItems);
      if Reconciled(fg.libraryItems, fg.roomItems).Some? then
        var s1 := AfterWrite(fetched.store, LibrariesKey, LibrarySet(fetched.allLibraries), now);
        (fetched.(store := AfterWrite(s1, SeatMapKey, SeatMaps(fetched.seatMapData), now)), Fetched)
      else (fetched, LoadFailed)
  }

  /** The page's globals `allLibraries` and `seatMapData` and its `localStorage`. */
  class App {
    var allLibraries: seq<Library>
    var seatMapData: Index
    var store: Store

    function Data(): AppData
      reads this
    {
      AppData(allLibraries, seatMapData, store)
    }

    ghost predicate Valid()
      reads this
    {
      WellTyped(store)
    }

    /** Page load: empty globals over whatever the browser has stored. */
    constructor(persisted: Store)
      requires WellTyped(persisted)
      ensures Valid() && Data() == AppData([], map[], persisted)
    {
      allLibraries := [];
      seatMapData := map[];
      store := persisted;
    }

    /** `setCachedData`. */
    method SetCachedData(key: string, data: Snapshot, now: int)
      requires Valid() && Fits(key, data)
      modifies this
      ensures Valid()
      ensures Data() == old(Data()).(store := AfterWrite(old(store), key, data, now))
    {
      store := store[StorageKey(key) := Entry(data, now)];
    }

    /** `getCachedData`. */
    method GetCachedData(key: string, now: int) returns (data: Option<Snapshot>)
      requires Valid()
      modifies this
      ensures Valid()
      ensures data == CachedData(old(store), key, now)
      ensures Data() == old(Data()).(store := AfterRead(old(store), key, now))
    {
      var k := StorageKey(key);
      if k !in store {
        return None;
      }
      match store[k]
      case Unparsable =>
        data := None;
      case Untimed =>
        store := store - {k};
        data := None;
      case Entry(cached, timestamp) =>
        if now - timestamp < CACHE_DURATION {
          data := Some(cached);
        } else {
          store := store - {k};
          data := None;
        }
    }

    /** `fetchSeatMapData`. */
    method FetchSeatMapData(primary: HttpOutcome, fallback: HttpOutcome)
      modifies this
      ensures Data() == SeatMapFetched(old(Data()), primary, fallback)
    {
      seatMapData := FetchSeatMapIndex(primary, fallback);
    }

    /** `fetchLibraries`; `false` is the rejection. */
    method FetchLibraries(libraryItems: Option<seq<LibraryRecord>>, roomItems: Option<seq<ReadingRoomRecord>>) returns (ok: bool)
      modifies this
      ensures ok <==> Reconciled(libraryItems, roomItems).Some?
      ensures Data() == LibrariesFetched(old(Data()), libraryItems, roomItems)
    {
      var libraries := ReconcileLibraries(libraryItems, roomItems);
      if libraries.None? {
        return false;
      }
      allLibraries := libraries.value;
      ok := true;
    }

    /** `refreshDataInBackground`. */
    method RefreshDataInBackground(now: int, o: Outcomes)
      requires Valid()
      modifies this
      ensures Valid()
      ensures Data() == Refreshed(old(Data()), now, o)
    {
      var newSeatMapData := FetchSeatMapDataSilent(o.seatPrimary);
      var newLibraries := ReconcileLibraries(o.libraryItems, o.roomItems);
      if newLibraries.Some? && |newLibraries.value| > 0 {
        allLibraries := newLibraries.value;
        SetCachedData(LibrariesKey, LibrarySet(allLibraries), now);
      }
      if newSeatMapData.Some? {
        seatMapData := newSeatMapData.value;
        SetCachedData(SeatMapKey, SeatMaps(seatMapData), now);
      }
    }

    /** The data part of `initialize`. */
    method Initialize(now: int, refreshNow: int, fg: Outcomes, bg: Outcomes) returns (path: LoadPath)
      requires Valid()
      modifies this
      ensures Valid()
      ensures (Data(), path) == Initialized(old(Data()), now, refreshNow, fg, bg)
    {
      var cachedLibraries := GetCachedData(LibrariesKey, now);
      var cachedSeatMap := GetCachedData(SeatMapKey, now);
      if cachedLibraries.Some? && cachedSeatMap.Some? {
        allLibraries := cachedLibraries.value.libraries;
        seatMapData := cachedSeatMap.value.index;
        RefreshDataInBackground(refreshNow, bg);
        path := FromCache;
      } else {
        FetchSeatMapData(fg.seatPrimary, fg.seatFallback);
        var ok := FetchLibraries(fg.libraryItems, fg.roomItems);
        if !ok {
          return LoadFailed;
        }
        SetCachedData(LibrariesKey, LibrarySet(allLibraries), now);
        SetCachedData(SeatMapKey, SeatMaps(seatMapData), now);
        path := Fetched;
      }
    }
  }

  /** Different namespaces never share a storage key. */
  lemma StorageKeyInjective(a: string, b: string)
    requires StorageKey(a) == StorageKey(b)
    ensures a == b
  {
    assert a == StorageKey(a)[9..];
  }

  /** What was written at `written` is read back as long as fewer than five
      minutes have passed, and is removed by the first read after that. */
  lemma ReadAfterWrite(store: Store, key: string, data: Snapshot, written: int, now: int)
    requires Fits(key, data)
    ensures CachedData(AfterWrite(store, key, data, written), key, now)
         == (if now - written < CACHE_DURATION then Some(data) else None)
    ensures now - written >= CACHE_DURATION ==>
      AfterRead(AfterWrite(store, key, data, written), key, now) == store - {StorageKey(key)}
  {
  }

  /** The window in numbers: fresh 299999 ms after the write, gone at 300000. */
  lemma FreshnessBoundary(store: Store, key: string, data: Snapshot, written: int)
    requires Fits(key, data)
    ensures CachedData(AfterWrite(store, key, data, written), key, written + 299999) == Some(data)
    ensures CachedData(AfterWrite(store, key, data, written), key, written + 300000) == None
    ensures StorageKey(key) !in AfterRead(AfterWrite(store, key, data, written), key, written + 300000)
  {
    ReadAfterWrite(store, key, data, written, written + 300000);
  }

  /** A read removes at most its own item, and only when it has expired; an
      item that does not parse stays. */
  lemma ReadRemovesOnlyExpired(store: Store, key: string, now: int, k: string)
    ensures k in AfterRead(store, key, now) <==>
      k in store && !(k == StorageKey(key) && Expired(store[k], now))
    ensures k in AfterRead(store, key, now) ==> AfterRead(store, key, now)[k] == store[k]
    ensures StorageKey(key) in store && store[StorageKey(key)].Unparsable? ==> AfterRead(store, key, now) == store
  {
  }

  /** Reading one namespace does not change what the other reads. */
  lemma ReadsIndependent(store: Store, key1: string, key2: string, now: int)
    requires key1 != key2
    ensures CachedData(AfterRead(store, key1, now), key2, now) == CachedData(store, key2, now)
  {
    if StorageKey(key1) == StorageKey(key2) {
      StorageKeyInjective(key1, key2);
    }
  }

  /** `initialize` takes the cached path exactly when both namespaces hold
      fresh entries. */
  lemma CachedPathIffBothFresh(d: AppData, now: int, refreshNow: int, fg: Outcomes, bg: Outcomes)
    requires WellTyped(d.store)
    ensures Initialized(d, now, refreshNow, fg, bg).1 == FromCache <==>
      CachedData(d.store, LibrariesKey, now).Some? && CachedData(d.store, SeatMapKey, now).Some?
  {
    ReadsIndependent(d.store, LibrariesKey, SeatMapKey, now);
  }

  /** On the foreground path the seat-map index is always rebuilt; the
      library list is replaced and both namespaces are written (stamped
      `now`) only when the library fetch succeeds; on failure the list and the
      stored items other than expired ones are left as they were. */
  lemma ForegroundPath(d: AppData, now: int, refreshNow: int, fg: Outcomes, bg: Outcomes)
    requires WellTyped(d.store)
    requires Initialized(d, now, refreshNow, fg, bg).1 != FromCache
    ensures var (r, path) := Initialized(d, now, refreshNow, fg, bg);
      && r.seatMapData == ResolvedIndex(fg.seatPrimary, fg.seatFallback)
      && (path == Fetched <==> Reconciled(fg.libraryItems, fg.roomItems).Some?)
      && (path == Fetched ==>
            && r.allLibraries == Reconciled(fg.libraryItems, fg.roomItems).value
            && r.store[StorageKey(LibrariesKey)] == Entry(LibrarySet(r.allLibraries), now)
            && r.store[StorageKey(SeatMapKey)] == Entry(SeatMaps(r.seatMapData), now))
      && (path == LoadFailed ==>
            && r.allLibraries == d.allLibraries
            && r.store == AfterRead(AfterRead(d.store, LibrariesKey, now), SeatMapKey, now))
  {
    var (r, path) := Initialized(d, now, refreshNow, fg, bg);
    if path == Fetched {
      assert StorageKey(LibrariesKey) != StorageKey(SeatMapKey) by {
        if StorageKey(LibrariesKey) == StorageKey(SeatMapKey) {
          StorageKeyInjective(LibrariesKey, SeatMapKey);
        }
      }
    }
  }

  /** The background refresh only replaces: a failed or empty library fetch
      keeps the list and its cache item, a failed seat-map fetch keeps the
      index and its cache item, and when both fail nothing changes. */
  lemma RefreshReplacesOnlyOnSuccess(d: AppData, now: int, o: Outcomes)
    ensures var r := Refreshed(d, now, o);
      var libraries := Reconciled(o.libraryItems, o.roomItems);
      var index := SilentIndex(o.seatPrimary);
      && (r.allLibraries == if libraries.Some? && |libraries.value| > 0 then libraries.value else d.allLibraries)
      && (r.seatMapData == if index.Some? then index.value else d.seatMapData)
      && (libraries.Some? && |libraries.value| > 0 ==>
            r.store[StorageKey(LibrariesKey)] == Entry(LibrarySet(libraries.value), now))
      && (index.Some? ==> r.store[StorageKey(SeatMapKey)] == Entry(SeatMaps(index.value), now))
      && ((libraries.None? || libraries.value == []) && index.None? ==> r == d)
  {
    assert StorageKey(LibrariesKey) != StorageKey(SeatMapKey) by {
      if StorageKey(LibrariesKey) == StorageKey(SeatMapKey) {
        StorageKeyInjective(LibrariesKey, SeatMapKey);
      }
    }
  }

  /** A page reloaded less than five minutes after a successful foreground
      load takes the cached path, starting from the libraries and the index
      that load produced (before its own background refresh). */
  lemma ReloadWithinWindowUsesCache(d: AppData, now: int, refreshNow: int, fg: Outcomes, bg: Outcomes,
                                    later: int, refreshLater: int, fg2: Outcomes, bg2: Outcomes)
    requires WellTyped(d.store)
    requires Initialized(d, now, refreshNow, fg, bg).1 == Fetched
    requires now <= later < now + CACHE_DURATION
    ensures var loaded := Initialized(d, now, refreshNow, fg, bg).0;
      && Initialized(loaded, later, refreshLater, fg2, bg2).1 == FromCache
      && CachedData(loaded.store, LibrariesKey, later) == Some(LibrarySet(loaded.allLibraries))
      && CachedData(loaded.store, SeatMapKey, later) == Some(SeatMaps(loaded.seatMapData))
  {
    var loaded := Initialized(d, now, refreshNow, fg, bg).0;
    ForegroundPath(d, now, refreshNow, fg, bg);
    CachedPathIffBothFresh(loaded, later, refreshLater, fg2, bg2);
  }
}
