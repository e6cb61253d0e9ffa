/** The seat-map index (`seatMapData`): reading-room seat-layout pages keyed by
    "<stdgCd>_<pblibId>_<rdrmId>", built from a primary source with a fallback
    source, and the lookup done when a library's info window is opened. */
module SeatMap {
  import opened JsValues
  import opened JsStrings
  import opened Records
  import opened Seqs

  /** One item of the seat-map data file. */
  datatype RawEntry = RawEntry(
    stdgCd: Field,
    pblibId: Field,
    rdrmId: Field,
    rdrmUrl: Field,   // address of the seat-layout page
    rdrmNm: Field,
    pblibNm: Field)

  /** The value stored under a key of `seatMapData`. */
  datatype SeatMapEntry = SeatMapEntry(url: string, rdrmNm: string, pblibNm: string)

  type Index = map<string, SeatMapEntry>

  /** A parsed response body: an array of entries, or anything else
      (`null`, an object, a number), which `Array.isArray` rejects. */
  datatype Payload = EntryArray(items: seq<RawEntry>) | NotAnArray

  /** What one `fetch` of a seat-map source comes to: a rejected request, or
      a response with its `ok` flag and its body, `None` when `json()` fails. */
  datatype HttpOutcome = NetworkError | Response(ok: bool, body: Option<Payload>)

  /** `item.stdgCd && item.pblibId && item.rdrmId && item.rdrmUrl`. */
  predicate Indexable(e: RawEntry) {
    Truthy(e.stdgCd) && Truthy(e.pblibId) && Truthy(e.rdrmId) && Truthy(e.rdrmUrl)
  }

  /** The index key: the three identifiers as they are, not trimmed. */
  function EntryKey(e: RawEntry): string {
    Text(e.stdgCd) + "_" + Text(e.pblibId) + "_" + Text(e.rdrmId)
  }

  /** The stored value, with the names defaulting to "열람실" (reading room)
      and "도서관" (library). */
  function EntryOf(e: RawEntry): (v: SeatMapEntry)
    requires Indexable(e)
    ensures v.url != "" && v.rdrmNm != "" && v.pblibNm != ""
    ensures v.url == e.rdrmUrl.value
    ensures Truthy(e.rdrmNm) ==> v.rdrmNm == e.rdrmNm.value
    ensures !Truthy(e.rdrmNm) ==> v.rdrmNm == "열람실"
    ensures Truthy(e.pblibNm) ==> v.pblibNm == e.pblibNm.value
    ensures !Truthy(e.pblibNm) ==> v.pblibNm == "도서관"
  {
    SeatMapEntry(e.rdrmUrl.value, OrDefault(e.rdrmNm, "열람실"), OrDefault(e.pblibNm, "도서관"))
  }

  /** The index the `forEach` over `items` leaves: each indexable entry in
      turn is assigned under its key, so a later entry overwrites an earlier. */
  function IndexOf(items: seq<RawEntry>): (index: Index)
    ensures forall key :: key in index ==> index[key].url != "" && index[key].rdrmNm != "" && index[key].pblibNm != ""
  {
    if |items| == 0 then map[]
    else
      var init := IndexOf(items[..|items| - 1]);
      var e := items[|items| - 1];
      if Indexable(e) then init[EntryKey(e) := EntryOf(e)] else init
  }

  /** The index made from a parsed body; a body that is not an array gives `{}`. */
  function PayloadIndex(p: Payload): Index {
    match p
    case EntryArray(items) => IndexOf(items)
    case NotAnArray => map[]
  }

  /** The primary request fails on a rejected request, a status that is not
      `ok`, or a body that does not parse. */
  predicate PrimaryFailed(o: HttpOutcome) {
    o.NetworkError? || !o.ok || o.body.None?
  }

  /** The fallback request does not look at `ok`: only a rejected request or
      an unparsable body fails it. */
  predicate FallbackFailed(o: HttpOutcome) {
    o.NetworkError? || o.body.None?
  }

  /** `seatMapData` after `fetchSeatMapData`: the primary's index, else the
      fallback's, else `{}`. The previous index plays no part. */
  function ResolvedIndex(primary: HttpOutcome, fallback: HttpOutcome): Index {
    if !PrimaryFailed(primary) then PayloadIndex(primary.body.value)
    else if !FallbackFailed(fallback) then PayloadIndex(fallback.body.value)
    else map[]
  }

  /** The result of `fetchSeatMapDataSilent`, which has no fallback: `None`
      is the `null` it returns when the primary request fails. */
  function SilentIndex(primary: HttpOutcome): Option<Index> {
    if PrimaryFailed(primary) then None else Some(PayloadIndex(primary.body.value))
  }

  /** The `forEach` that fills the index. */
  method BuildIndex(items: seq<RawEntry>) returns (index: Index)
    ensures index == IndexOf(items)
  {
    index := map[];
    var i := 0;
    while i < |items|
      invariant 0 <= i <= |items|
      invariant index == IndexOf(items[..i])
    {
      var e := items[i];
      assert items[..i + 1][..i] == items[..i];
      if Indexable(e) {
        index := index[EntryKey(e) := EntryOf(e)];
      }
      i := i + 1;
    }
    assert items[..i] == items;
  }

  method IndexPayload(p: Payload) returns (index: Index)
    ensures index == PayloadIndex(p)
  {
    match p
    case EntryArray(items) =>
      index := BuildIndex(items);
    case NotAnArray =>
      index := map[];
  }

  /** The index `fetchSeatMapData` assigns to `seatMapData`, from the outcomes
      of the primary and (when it is reached) the fallback request. */
  method FetchSeatMapIndex(primary: HttpOutcome, fallback: HttpOutcome) returns (index: Index)
    ensures index == ResolvedIndex(primary, fallback)
  {
    if !PrimaryFailed(primary) {
      index := IndexPayload(primary.body.value);
    } else if !FallbackFailed(fallback) {
      index := IndexPayload(fallback.body.value);
    } else {
      index := map[];
    }
  }

  /** `fetchSeatMapDataSilent`. */
  method FetchSeatMapDataSilent(primary: HttpOutcome) returns (result: Option<Index>)
    ensures result == SilentIndex(primary)
  {
    if PrimaryFailed(primary) {
      return None;
    }
    var index := IndexPayload(primary.body.value);
    result := Some(index);
  }

  /** `e` is indexed under `key`. */
  predicate Carries(e: RawEntry, key: string) {
    Indexable(e) && EntryKey(e) == key
  }

  /** A key is in the index exactly when some indexable entry carries it. */
  lemma {:induction false} IndexKeys(items: seq<RawEntry>, key: string)
    ensures key in IndexOf(items) <==> exists i :: 0 <= i < |items| && Carries(items[i], key)
  {
    if |items| > 0 {
      var n := |items| - 1;
      IndexKeys(items[..n], key);
      IndexStep(items, key);
      AnyLast(items, items[..n], e => Carries(e, key));
    }
  }

  lemma IndexStep(items: seq<RawEntry>, key: string)
    requires |items| > 0
    ensures key in IndexOf(items) <==> key in IndexOf(items[..|items| - 1]) || Carries(items[|items| - 1], key)
  {
  }

  /** The value under a key is the one made from the last indexable entry
      with that key. */
  lemma {:induction false} LastWriteWins(items: seq<RawEntry>, i: nat)
    requires i < |items| && Indexable(items[i])
    requires forall j :: i < j < |items| && Indexable(items[j]) ==> EntryKey(items[j]) != EntryKey(items[i])
    ensures EntryKey(items[i]) in IndexOf(items)
    ensures IndexOf(items)[EntryKey(items[i])] == EntryOf(items[i])
    decreases |items|
  {
    var n := |items| - 1;
    if i < n {
      var init := items[..n];
      assert forall j :: i < j < n ==> init[j] == items[j];
      LastWriteWins(init, i);
    }
  }

  /** Which source the index comes from: the primary when it succeeds
      (whatever the fallback would have given, and even when its body is not
      an array), the fallback when only the primary fails, `{}` when both
      fail. Every key of the result is carried by an entry of the chosen
      source, so nothing of an earlier index survives. */
  lemma FallbackChain(primary: HttpOutcome, fallback: HttpOutcome, key: string)
    ensures !PrimaryFailed(primary) ==> ResolvedIndex(primary, fallback) == PayloadIndex(primary.body.value)
    ensures PrimaryFailed(primary) && !FallbackFailed(fallback) ==> ResolvedIndex(primary, fallback) == PayloadIndex(fallback.body.value)
    ensures PrimaryFailed(primary) && FallbackFailed(fallback) ==> ResolvedIndex(primary, fallback) == map[]
    ensures key in ResolvedIndex(primary, fallback) ==>
      var o := if !PrimaryFailed(primary) then primary else fallback;
      !FallbackFailed(o) && o.body.value.EntryArray? &&
        exists i :: 0 <= i < |o.body.value.items| && Indexable(o.body.value.items[i]) && EntryKey(o.body.value.items[i]) == key
  {
    if key in ResolvedIndex(primary, fallback) {
      var o := if !PrimaryFailed(primary) then primary else fallback;
      IndexKeys(o.body.value.items, key);
    }
  }

  /** A response that is not `ok` sends the primary to the fallback even when
      its body is a valid entry array. */
  lemma NotOkPrimaryFallsBack(body: Option<Payload>, fallback: HttpOutcome)
    ensures ResolvedIndex(Response(false, body), fallback)
         == (if FallbackFailed(fallback) then map[] else PayloadIndex(fallback.body.value))
  {
  }

  /** The silent variant yields an index exactly when the primary succeeds,
      and then the same index as `fetchSeatMapData`. */
  lemma SilentAgreesWithPrimary(primary: HttpOutcome, fallback: HttpOutcome)
    ensures SilentIndex(primary).Some? <==> !PrimaryFailed(primary)
    ensures SilentIndex(primary).Some? ==> SilentIndex(primary).value == ResolvedIndex(primary, fallback)
  {
  }

  /** The key built at lookup time: the library's and the room's identifiers
      as they are, not trimmed. */
  function LookupKey(lib: LibraryRecord, room: ReadingRoomRecord): string {
    Text(lib.stdgCd) + "_" + Text(lib.pblibId) + "_" + Text(room.rdrmId)
  }

  /** A truthy URL that is blank, "null" or "undefined" is discarded. */
  predicate Discarded(url: string) {
    url != "" && (Trim(url) == "" || url == "null" || url == "undefined")
  }

  /** The seat-layout URL shown for a room; `None` is `null`. */
  function SeatMapUrl(index: Index, lib: LibraryRecord, room: ReadingRoomRecord): (url: Option<string>)
    ensures url.Some? <==> LookupKey(lib, room) in index && !Discarded(index[LookupKey(lib, room)].url)
    ensures url.Some? ==> url.value == index[LookupKey(lib, room)].url
    ensures url.Some? ==> url.value == "" || (Trim(url.value) != "" && url.value != "null" && url.value != "undefined")
  {
    var key := LookupKey(lib, room);
    if key in index && !Discarded(index[key].url) then Some(index[key].url) else None
  }

  /** A room with no indexable entry under its lookup key has no seat map. */
  lemma LookupAbsent(items: seq<RawEntry>, lib: LibraryRecord, room: ReadingRoomRecord)
    requires forall i :: 0 <= i < |items| && Indexable(items[i]) ==> EntryKey(items[i]) != LookupKey(lib, room)
    ensures SeatMapUrl(IndexOf(items), lib, room) == None
  {
    IndexKeys(items, LookupKey(lib, room));
  }

  /** The lookup finds the URL of the last entry registered under the room's
      key, unless that URL is blank, "null" or "undefined". The URL found is
      never empty, since only truthy URLs are indexed. */
  lemma LookupFindsLastRegistration(items: seq<RawEntry>, i: nat, lib: LibraryRecord, room: ReadingRoomRecord)
    requires i < |items| && Indexable(items[i]) && EntryKey(items[i]) == LookupKey(lib, room)
    requires forall j :: i < j < |items| && Indexable(items[j]) ==> EntryKey(items[j]) != LookupKey(lib, room)
    ensures var url := items[i].rdrmUrl.value;
      SeatMapUrl(IndexOf(items), lib, room) == (if Discarded(url) then None else Some(url))
    ensures SeatMapUrl(IndexOf(items), lib, room).Some? ==> SeatMapUrl(IndexOf(items), lib, room).value != ""
  {
    LastWriteWins(items, i);
  }

  /** The seat-map key is not trimmed: an entry whose district code carries
      leading white space is filed under a different key from the one the
      (trimmed-equal) library looks up, although the same padding does not
      stop a reading-room record from joining its library. */
  lemma PaddingChangesSeatMapKey(e: RawEntry, lib: LibraryRecord, room: ReadingRoomRecord, pad: string)
    requires |pad| > 0 && AllSpace(pad)
    requires lib.stdgCd.Some? && e.stdgCd == Some(pad + lib.stdgCd.value)
    requires e.pblibId == lib.pblibId && e.rdrmId == room.rdrmId
    ensures EntryKey(e) != LookupKey(lib, room)
  {
    assert |EntryKey(e)| == |LookupKey(lib, room)| + |pad|;
  }

  /** When the primary request fails, lookups are answered from the
      fallback's entries; when both fail, every lookup yields `null`. */
  lemma FallbackServesLookups(primary: HttpOutcome, fallback: HttpOutcome, lib: LibraryRecord, room: ReadingRoomRecord)
    requires PrimaryFailed(primary)
    ensures !FallbackFailed(fallback) && fallback.body.value.EntryArray? ==>
      SeatMapUrl(ResolvedIndex(primary, fallback), lib, room) == SeatMapUrl(IndexOf(fallback.body.value.items), lib, room)
    ensures FallbackFailed(fallback) ==> SeatMapUrl(ResolvedIndex(primary, fallback), lib, room) == None
  {
  }

  /** `hasUrl`: the room row is offered as having a seat map. */
  predicate HasUrl(url: Option<string>) {
    url.Some? && url.value != "" && url.value != "null" && Trim(url.value) != ""
  }

  /** On an index built from entries, a room row is offered a seat map
      exactly when the lookup found a URL. */
  lemma OfferedExactlyWhenFound(items: seq<RawEntry>, lib: LibraryRecord, room: ReadingRoomRecord)
    ensures HasUrl(SeatMapUrl(IndexOf(items), lib, room)) <==> SeatMapUrl(IndexOf(items), lib, room).Some?
  {
  }
}
