/** The nationwide statistics (`updateStatistics`) and the congestion badge
    of a library card (`displayLibraries`). */
module Statistics {
  import opened JsValues
  import opened JsNumbers
  import opened Records

  /** Which seat count of a reading room is read. */
  datatype SeatField = Remaining | Total

  /** `parseInt(room.rmndSeatCnt) || 0` or `parseInt(room.tseatCnt) || 0`. */
  function SeatCount(room: ReadingRoomRecord, field: SeatField): int {
    ParseIntOrZero(if field == Remaining then room.rmndSeatCnt else room.tseatCnt)
  }

  /** The sum of one seat count over a list of rooms. */
  function RoomsSum(rooms: seq<ReadingRoomRecord>, field: SeatField): int {
    if |rooms| == 0 then 0
    else RoomsSum(rooms[..|rooms| - 1], field) + SeatCount(rooms[|rooms| - 1], field)
  }

  /** What one library adds: nothing when it has no `readingRooms` property. */
  function LibrarySeats(lib: Library, field: SeatField): int {
    if lib.readingRooms.None? then 0 else RoomsSum(lib.readingRooms.value, field)
  }

  /** The sum of one seat count over every room of every library. */
  function SeatTotal(libraries: seq<Library>, field: SeatField): int {
    if |libraries| == 0 then 0
    else SeatTotal(libraries[..|libraries| - 1], field) + LibrarySeats(libraries[|libraries| - 1], field)
  }

  /** `updateStatistics`: the three numbers written to the page. */
  method UpdateStatistics(libraries: seq<Library>) returns (libraryCount: nat, availableSeats: int, totalSeats: int)
    ensures libraryCount == |libraries|
    ensures availableSeats == SeatTotal(libraries, Remaining)
    ensures totalSeats == SeatTotal(libraries, Total)
  {
    availableSeats, totalSeats := 0, 0;
    var i := 0;
    while i < |libraries|
      invariant 0 <= i <= |libraries|
      invariant availableSeats == SeatTotal(libraries[..i], Remaining)
      invariant totalSeats == SeatTotal(libraries[..i], Total)
    {
      var lib := libraries[i];
      assert libraries[..i + 1][..i] == libraries[..i];
      if lib.readingRooms.Some? {
        var rooms := lib.readingRooms.value;
        var j := 0;
        while j < |rooms|
          invariant 0 <= j <= |rooms|
          invariant availableSeats == SeatTotal(libraries[..i], Remaining) + RoomsSum(rooms[..j], Remaining)
          invariant totalSeats == SeatTotal(libraries[..i], Total) + RoomsSum(rooms[..j], Total)
        {
          assert rooms[..j + 1][..j] == rooms[..j];
          availableSeats := availableSeats + SeatCount(rooms[j], Remaining);
          totalSeats := totalSeats + SeatCount(rooms[j], Total);
          j := j + 1;
        }
        assert rooms[..j] == rooms;
      }
      i := i + 1;
    }
    assert libraries[..i] == libraries;
    libraryCount := |libraries|;
  }

  /** The totals of two lists taken together are the sums of their totals, so
      the figures do not depend on how the libraries are split into batches. */
  lemma {:induction false} SeatTotalAppend(a: seq<Library>, b: seq<Library>, field: SeatField)
    ensures SeatTotal(a + b, field) == SeatTotal(a, field) + SeatTotal(b, field)
    decreases |b|
  {
    if |b| == 0 {
      assert a + b == a;
    } else {
      var n := |b| - 1;
      assert (a + b)[..|a + b| - 1] == a + b[..n];
      SeatTotalAppend(a, b[..n], field);
    }
  }

  /** A library without reading rooms, or without the property at all, is
      counted as a library but adds no seats. */
  lemma RoomlessLibraryAddsNoSeats(libraries: seq<Library>, record: LibraryRecord, rooms: Option<seq<ReadingRoomRecord>>, field: SeatField)
    requires rooms == None || rooms == Some([])
    ensures SeatTotal(libraries + [Library(record, rooms)], field) == SeatTotal(libraries, field)
  {
    assert (libraries + [Library(record, rooms)])[..|libraries|] == libraries;
  }

  /** A library's seats are the sum over its rooms, and a room whose counts are
      written as decimal integers adds exactly those numbers. */
  lemma DecimalRoomCounts(rooms: seq<ReadingRoomRecord>, room: ReadingRoomRecord, remaining: int, total: int)
    requires room.rmndSeatCnt == Some(IntString(remaining)) && room.tseatCnt == Some(IntString(total))
    ensures RoomsSum(rooms + [room], Remaining) == RoomsSum(rooms, Remaining) + remaining
    ensures RoomsSum(rooms + [room], Total) == RoomsSum(rooms, Total) + total
  {
    assert (rooms + [room])[..|rooms|] == rooms;
    SeatCountOfDecimalText(remaining);
    SeatCountOfDecimalText(total);
  }

  /** The congestion badge: 여유 (relaxed), 보통 (moderate), 혼잡 (congested). */
  datatype Congestion = Relaxed | Moderate | Congested

  /** The badge for `total` seats of which `remaining` are free: the occupancy
      rate `(used / total) * 100` (0 when there are no seats) against 80 and 30
      percent. The contract restates the thresholds in integers. */
  function Classify(total: int, remaining: int): (c: Congestion)
    ensures c == Congested <==> total > 0 && (total - remaining) * 100 >= 80 * total
    ensures c == Moderate <==> total > 0 && 30 * total <= (total - remaining) * 100 < 80 * total
    ensures c == Relaxed <==> total <= 0 || (total - remaining) * 100 < 30 * total
  {
    var used := total - remaining;
    var rate: real := if total > 0 then (used as real / total as real) * 100.0 else 0.0;
    assert total > 0 ==> (rate >= 80.0 <==> used * 100 >= 80 * total) by {
      if total > 0 { RateAtLeast(used, total, 80); }
    }
    assert total > 0 ==> (rate >= 30.0 <==> used * 100 >= 30 * total) by {
      if total > 0 { RateAtLeast(used, total, 30); }
    }
    if rate >= 80.0 then Congested else if rate >= 30.0 then Moderate else Relaxed
  }

  /** Multiplying both sides by a positive number keeps a comparison. */
  lemma ScalePositive(a: real, b: real, t: real)
    requires t > 0.0
    ensures a >= b <==> a * t >= b * t
  {
    if a >= b {
      assert (a - b) * t >= 0.0;
    } else {
      assert (b - a) * t > 0.0;
    }
  }

  /** The percentage reaches `k` exactly when `used * 100 >= k * total`. */
  lemma RateAtLeast(used: int, total: int, k: int)
    requires total > 0
    ensures (used as real / total as real) * 100.0 >= k as real <==> used * 100 >= k * total
  {
    var t := total as real;
    var q := used as real / t;
    assert q * t == used as real;
    ScalePositive(q * 100.0, k as real, t);
    assert q * 100.0 * t == (used * 100) as real;
    assert (k as real) * t == (k * total) as real;
  }

  function Rank(c: Congestion): nat {
    match c
    case Relaxed => 0
    case Moderate => 1
    case Congested => 2
  }

  /** With the same number of seats, fewer free seats never give a calmer badge. */
  lemma ClassifyMonotone(total: int, remaining1: int, remaining2: int)
    requires remaining2 <= remaining1
    ensures Rank(Classify(total, remaining1)) <= Rank(Classify(total, remaining2))
  {
  }

  /** A full room (no free seat) is congested, an empty one relaxed. */
  lemma ClassifyExtremes(total: int)
    requires total > 0
    ensures Classify(total, 0) == Congested
    ensures Classify(total, total) == Relaxed
  {
  }

  /** The badge of a library card, from the sums over its rooms. */
  function LibraryCongestion(lib: Library): Congestion {
    Classify(LibrarySeats(lib, Total), LibrarySeats(lib, Remaining))
  }

  /** A library without rooms shows the relaxed badge. */
  lemma RoomlessLibraryRelaxed(record: LibraryRecord, rooms: Option<seq<ReadingRoomRecord>>)
    requires rooms == None || rooms == Some([])
    ensures LibraryCongestion(Library(record, rooms)) == Relaxed
  {
  }
}
