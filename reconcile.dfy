/** Reconciliation of the library registry with the reading-room registry
    (`fetchLibraries` / `fetchLibrariesSilent`): both lists are filtered on
    their key fields, the rooms are grouped under the trimmed key
    "<stdgCd>_<pblibId>", and every valid library is extended with its group. */
module Reconcile {
  import opened JsValues
  import opened JsStrings
  import opened Seqs
  import opened Records

  /** `x && String(x).trim() !== ''`. */
  predicate IsKeyPart(f: Field) {
    Truthy(f) && Trim(Text(f)) != ""
  }

  predicate ValidLibrary(lib: LibraryRecord) {
    IsKeyPart(lib.pblibId) && IsKeyPart(lib.stdgCd)
  }

  predicate ValidRoom(room: ReadingRoomRecord) {
    IsKeyPart(room.pblibId) && IsKeyPart(room.stdgCd)
  }

  /** The join key: both parts trimmed, then joined with "_". */
  function JoinKey(stdgCd: Field, pblibId: Field): string {
    Trim(Text(stdgCd)) + "_" + Trim(Text(pblibId))
  }

  function LibraryKey(lib: LibraryRecord): string {
    JoinKey(lib.stdgCd, lib.pblibId)
  }

  function RoomKey(room: ReadingRoomRecord): string {
    JoinKey(room.stdgCd, room.pblibId)
  }

  function ValidLibraries(libs: seq<LibraryRecord>): seq<LibraryRecord> {
    Filter(libs, ValidLibrary)
  }

  function ValidRooms(rooms: seq<ReadingRoomRecord>): seq<ReadingRoomRecord> {
    Filter(rooms, ValidRoom)
  }

  /** The rooms filed under `key`, in input order. */
  function RoomsFor(rooms: seq<ReadingRoomRecord>, key: string): seq<ReadingRoomRecord> {
    Select(rooms, RoomKey, key)
  }

  /** The projection of one valid library record. */
  function Attach(lib: LibraryRecord, rooms: seq<ReadingRoomRecord>): Library {
    Library(lib, Some(RoomsFor(ValidRooms(rooms), LibraryKey(lib))))
  }

  function RecordsOf(libraries: seq<Library>): (records: seq<LibraryRecord>)
    ensures |records| == |libraries|
  {
    seq(|libraries|, i requires 0 <= i < |libraries| => libraries[i].record)
  }

  /** What one reconciliation pass yields. `None` stands for either response
      lacking `body.item`: `fetchLibraries` then throws and
      `fetchLibrariesSilent` returns null; no partial list is produced. */
  function Reconciled(libraryItems: Option<seq<LibraryRecord>>, roomItems: Option<seq<ReadingRoomRecord>>): Option<seq<Library>> {
    if libraryItems.None? || roomItems.None? then None
    else
      var valid := ValidLibraries(libraryItems.value);
      Some(seq(|valid|, i requires 0 <= i < |valid| => Attach(valid[i], roomItems.value)))
  }

  /** The `readingRoomMap` built by `forEach` and `push`. */
  method GroupRooms(validRooms: seq<ReadingRoomRecord>) returns (groups: map<string, seq<ReadingRoomRecord>>)
    ensures forall key :: key in groups <==> RoomsFor(validRooms, key) != []
    ensures forall key :: key in groups ==> groups[key] == RoomsFor(validRooms, key)
  {
    groups := map[];
    var i := 0;
    while i < |validRooms|
      invariant 0 <= i <= |validRooms|
      invariant groups == GroupBy(validRooms[..i], RoomKey)
    {
      var room := validRooms[i];
      var key := RoomKey(room);
      var filed := if key in groups then groups[key] else [];
      groups := groups[key := filed + [room]];
      GroupByStep(validRooms, i, RoomKey);
      i := i + 1;
    }
    assert validRooms[..i] == validRooms;
    forall key ensures (key in groups <==> RoomsFor(validRooms, key) != [])
      && (key in groups ==> groups[key] == RoomsFor(validRooms, key))
    {
      GroupByAt(validRooms, RoomKey, key);
    }
  }

  /** The processing part of `fetchLibraries` and `fetchLibrariesSilent`. */
  method ReconcileLibraries(libraryItems: Option<seq<LibraryRecord>>, roomItems: Option<seq<ReadingRoomRecord>>)
    returns (libraries: Option<seq<Library>>)
    ensures libraries == Reconciled(libraryItems, roomItems)
  {
    if libraryItems.None? || roomItems.None? {
      return None;
    }
    var validLibraries := ValidLibraries(libraryItems.value);
    var groups := GroupRooms(ValidRooms(roomItems.value));
    var projected := seq(|validLibraries|, i requires 0 <= i < |validLibraries| =>
      var key := LibraryKey(validLibraries[i]);
      Library(validLibraries[i], Some(if key in groups then groups[key] else [])));
    forall i | 0 <= i < |validLibraries|
      ensures projected[i] == Attach(validLibraries[i], roomItems.value)
    {
      var key := LibraryKey(validLibraries[i]);
      assert key !in groups ==> RoomsFor(ValidRooms(roomItems.value), key) == [];
    }
    assert projected == Reconciled(libraryItems, roomItems).value;
    libraries := Some(projected);
  }

  /** Reconciliation fails as a whole exactly when a response lacks its item list. */
  lemma AllOrNothing(libraryItems: Option<seq<LibraryRecord>>, roomItems: Option<seq<ReadingRoomRecord>>)
    ensures Reconciled(libraryItems, roomItems).None? <==> libraryItems.None? || roomItems.None?
  {
  }

  /** The output holds exactly the valid library records, in input order, none
      of them dropped for want of rooms. */
  lemma KeepsValidLibraries(libs: seq<LibraryRecord>, rooms: seq<ReadingRoomRecord>)
    ensures Reconciled(Some(libs), Some(rooms)).Some?
    ensures RecordsOf(Reconciled(Some(libs), Some(rooms)).value) == ValidLibraries(libs)
    ensures forall lib :: lib in RecordsOf(Reconciled(Some(libs), Some(rooms)).value) <==> lib in libs && ValidLibrary(lib)
  {
    var out := Reconciled(Some(libs), Some(rooms)).value;
    assert RecordsOf(out) == ValidLibraries(libs);
    forall lib | lib in libs && ValidLibrary(lib) ensures lib in RecordsOf(out) {
      FilterKeeps(libs, ValidLibrary, lib);
    }
  }

  /** A room is attached to a reconciled library exactly when it is a valid
      room whose trimmed key equals the library's; a library no room matches
      gets the empty list. */
  lemma AttachesMatchingRooms(libs: seq<LibraryRecord>, rooms: seq<ReadingRoomRecord>, i: nat)
    requires i < |ValidLibraries(libs)|
    ensures var lib := Reconciled(Some(libs), Some(rooms)).value[i];
      && lib.readingRooms.Some?
      && forall room :: room in lib.readingRooms.value <==>
           room in rooms && ValidRoom(room) && RoomKey(room) == LibraryKey(lib.record)
  {
    var lib := Reconciled(Some(libs), Some(rooms)).value[i];
    var key := LibraryKey(lib.record);
    forall room | room in rooms && ValidRoom(room) && RoomKey(room) == key
      ensures room in lib.readingRooms.value
    {
      FilterKeeps(rooms, ValidRoom, room);
      SelectKeeps(ValidRooms(rooms), RoomKey, key, room);
    }
  }

  /** A valid room whose key matches no valid library is attached nowhere. */
  lemma UnmatchedRoomAttachedNowhere(libs: seq<LibraryRecord>, rooms: seq<ReadingRoomRecord>, room: ReadingRoomRecord)
    requires forall lib :: lib in libs && ValidLibrary(lib) ==> LibraryKey(lib) != RoomKey(room)
    ensures forall lib :: lib in Reconciled(Some(libs), Some(rooms)).value ==> room !in lib.readingRooms.value
  {
    var out := Reconciled(Some(libs), Some(rooms)).value;
    forall lib | lib in out ensures room !in lib.readingRooms.value {
      var i :| 0 <= i < |out| && out[i] == lib;
      AttachesMatchingRooms(libs, rooms, i);
      assert lib.record == ValidLibraries(libs)[i];
    }
  }

  /** The rooms of a library keep the order of the room response: the rooms
      found in an earlier part of the response come before those of a later part. */
  lemma RoomsKeepInputOrder(a: seq<ReadingRoomRecord>, b: seq<ReadingRoomRecord>, key: string)
    ensures RoomsFor(ValidRooms(a + b), key) == RoomsFor(ValidRooms(a), key) + RoomsFor(ValidRooms(b), key)
  {
    FilterAppend(a, b, ValidRoom);
    SelectAppend(ValidRooms(a), ValidRooms(b), RoomKey, key);
  }

  /** White-space padding around either identifier does not prevent a join. */
  lemma PaddingDoesNotPreventJoin(stdgCd: string, pblibId: string, p1: string, q1: string, p2: string, q2: string)
    requires AllSpace(p1) && AllSpace(q1) && AllSpace(p2) && AllSpace(q2)
    ensures JoinKey(Some(p1 + stdgCd + q1), Some(p2 + pblibId + q2)) == JoinKey(Some(stdgCd), Some(pblibId))
  {
    TrimIgnoresPadding(p1, stdgCd, q1);
    TrimIgnoresPadding(p2, pblibId, q2);
  }

  /** The position of the first "_" in `s`, or `|s|` when there is none. */
  function FirstUnderscore(s: string): (i: nat)
    ensures i <= |s|
  {
    if |s| == 0 || s[0] == '_' then 0 else 1 + FirstUnderscore(s[1..])
  }

  lemma {:induction false} FirstUnderscoreOfKey(a: string, b: string)
    requires '_' !in a
    ensures FirstUnderscore(a + "_" + b) == |a|
  {
    if |a| > 0 {
      assert (a + "_" + b)[1..] == a[1..] + "_" + b;
      assert a[0] in a;
      FirstUnderscoreOfKey(a[1..], b);
    }
  }

  lemma SplitAtFirstUnderscore(a1: string, b1: string, a2: string, b2: string)
    requires '_' !in a1 && '_' !in a2
    requires a1 + "_" + b1 == a2 + "_" + b2
    ensures a1 == a2 && b1 == b2
  {
    var k := a1 + "_" + b1;
    FirstUnderscoreOfKey(a1, b1);
    FirstUnderscoreOfKey(a2, b2);
    assert a1 == k[..|a1|] == a2;
    assert b1 == k[|a1| + 1..] == b2;
  }

  /** When district codes contain no "_", equal join keys mean equal trimmed
      identifiers, so rooms are attached only to their own library. */
  lemma JoinKeyInjective(s1: Field, l1: Field, s2: Field, l2: Field)
    requires '_' !in Trim(Text(s1)) && '_' !in Trim(Text(s2))
    requires JoinKey(s1, l1) == JoinKey(s2, l2)
    ensures Trim(Text(s1)) == Trim(Text(s2)) && Trim(Text(l1)) == Trim(Text(l2))
  {
    SplitAtFirstUnderscore(Trim(Text(s1)), Trim(Text(l1)), Trim(Text(s2)), Trim(Text(l2)));
  }

  /** A library list that filters to itself yields one library per record. */
  lemma SingleLibraryKept(lib: LibraryRecord, rooms: seq<ReadingRoomRecord>)
    requires ValidLibraries([lib]) == [lib]
    ensures var out := Reconciled(Some([lib]), Some(rooms));
      && out.Some? && |out.value| == 1 && out.value[0].record == lib
  {
  }

  /** A valid library and a valid room with the same trimmed key: the library
      is kept and the room is attached to it. */
  lemma SingleMatchJoins(lib: LibraryRecord, room: ReadingRoomRecord)
    requires ValidLibrary(lib) && ValidRoom(room) && RoomKey(room) == LibraryKey(lib)
    ensures var out := Reconciled(Some([lib]), Some([room]));
      && out.Some? && |out.value| == 1 && out.value[0].record == lib
      && room in out.value[0].readingRooms.value
  {
    assert ValidLibraries([lib]) == [lib] by {
      FilterSingleton(lib, ValidLibrary);
    }
    SingleLibraryKept(lib, [room]);
    assert room in [room];
    AttachesMatchingRooms([lib], [room], 0);
  }

  /** A key part padded with white space is still a key part, trimming to the same text. */
  lemma PaddedKeyPart(p: string, x: string, q: string)
    requires AllSpace(p) && AllSpace(q) && IsKeyPart(Some(x))
    ensures IsKeyPart(Some(p + x + q)) && Trim(Text(Some(p + x + q))) == Trim(Text(Some(x)))
  {
    TrimIgnoresPadding(p, x, q);
    assert |p + x + q| >= |x| > 0;
  }

  /** A room whose identifiers are a library's padded with white space, such
      as " 11 "/" 001 " for "11"/"001", is attached to that library. */
  lemma PaddedRoomJoins(lib: LibraryRecord, room: ReadingRoomRecord, p1: string, q1: string, p2: string, q2: string)
    requires ValidLibrary(lib)
    requires AllSpace(p1) && AllSpace(q1) && AllSpace(p2) && AllSpace(q2)
    requires room.stdgCd == Some(p1 + lib.stdgCd.value + q1) && room.pblibId == Some(p2 + lib.pblibId.value + q2)
    ensures var out := Reconciled(Some([lib]), Some([room]));
      && out.Some? && |out.value| == 1 && out.value[0].record == lib
      && room in out.value[0].readingRooms.value
  {
    PaddedKeyPart(p1, lib.stdgCd.value, q1);
    PaddedKeyPart(p2, lib.pblibId.value, q2);
    assert ValidRoom(room);
    assert RoomKey(room) == LibraryKey(lib);
    SingleMatchJoins(lib, room);
  }
}
