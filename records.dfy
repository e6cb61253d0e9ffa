/** The records of the two registry responses (library information and
    real-time reading-room information) and the reconciled library. */
module Records {
  import opened JsValues

  /** One item of the library registry response. */
  datatype LibraryRecord = LibraryRecord(
    stdgCd: Field,           // administrative-district code
    pblibId: Field,          // library identifier within the district
    pblibNm: Field,          // library name
    pblibRoadNmAddr: Field,  // road-name address, "<sido> <district> ..."
    pblibTelno: Field,       // telephone number
    lat: Field,              // latitude as decimal text
    lot: Field)              // longitude as decimal text

  /** One item of the reading-room response. */
  datatype ReadingRoomRecord = ReadingRoomRecord(
    stdgCd: Field,
    pblibId: Field,
    rdrmId: Field,           // reading-room identifier
    rdrmNm: Field,           // reading-room name
    tseatCnt: Field,         // total seats, as text
    rmndSeatCnt: Field)      // remaining seats, as text

  /** `{...lib, readingRooms}`: a library record with its reading rooms. The
      statistics treat a library without the property (`None`) as having none. */
  datatype Library = Library(record: LibraryRecord, readingRooms: Option<seq<ReadingRoomRecord>>)
}
