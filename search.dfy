/** The name/address search (`performSearch`): the libraries whose lower-cased
    name or road-name address includes the lower-cased search term. */
module Search {
  import opened JsValues
  import opened JsStrings
  import opened Seqs
  import opened Records

  /** `toLowerCase` can be called on both fields: neither is missing. */
  predicate Searchable(lib: Library) {
    lib.record.pblibNm.Some? && lib.record.pblibRoadNmAddr.Some?
  }

  /** `name.includes(term) || address.includes(term)`, all lower-cased. */
  predicate Matches(lib: Library, term: string)
    requires Searchable(lib)
  {
    var t := LowerAscii(term);
    Contains(LowerAscii(lib.record.pblibNm.value), t) || Contains(LowerAscii(lib.record.pblibRoadNmAddr.value), t)
  }

  /** The libraries the search keeps. `None` stands for the `TypeError` thrown
      when some library lacks its name or address: the filter is abandoned
      and neither the list nor the statistics are updated. */
  function SearchLibraries(libraries: seq<Library>, term: string): (r: Option<seq<Library>>)
    ensures r.None? <==> exists i :: 0 <= i < |libraries| && !Searchable(libraries[i])
    ensures r.Some? ==> forall lib :: lib in r.value <==> lib in libraries && Matches(lib, term)
  {
    if |libraries| == 0 then Some([])
    else
      var init := libraries[..|libraries| - 1];
      var last := libraries[|libraries| - 1];
      assert forall i :: 0 <= i < |init| ==> init[i] == libraries[i];
      assert libraries == init + [last];
      if !Searchable(last) then None
      else
        match SearchLibraries(init, term)
        case None => None
        case Some(kept) => Some(kept + (if Matches(last, term) then [last] else []))
  }

  /** The search keeps the libraries in their list order: it is a filter. */
  lemma {:induction false} SearchIsFilter(libraries: seq<Library>, term: string)
    requires forall i :: 0 <= i < |libraries| ==> Searchable(libraries[i])
    ensures SearchLibraries(libraries, term) == Some(Filter(libraries, lib => Searchable(lib) && Matches(lib, term)))
  {
    if |libraries| > 0 {
      SearchIsFilter(libraries[..|libraries| - 1], term);
    }
  }

  /** An empty search term keeps every library. */
  lemma {:induction false} EmptyTermKeepsAll(libraries: seq<Library>)
    requires forall i :: 0 <= i < |libraries| ==> Searchable(libraries[i])
    ensures SearchLibraries(libraries, "") == Some(libraries)
  {
    if |libraries| > 0 {
      var last := libraries[|libraries| - 1];
      EmptyTermKeepsAll(libraries[..|libraries| - 1]);
      ContainsEmpty(LowerAscii(last.record.pblibNm.value));
      assert libraries[..|libraries| - 1] + [last] == libraries;
    }
  }

  /** The search ignores the ASCII case of the term. */
  lemma {:induction false} TermCaseIgnored(libraries: seq<Library>, term: string)
    ensures SearchLibraries(libraries, LowerAscii(term)) == SearchLibraries(libraries, term)
  {
    LowerAsciiIdempotent(term);
    if |libraries| > 0 {
      TermCaseIgnored(libraries[..|libraries| - 1], term);
    }
  }
}
