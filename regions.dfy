/** The region navigation: one button per province-level division ("sido")
    that has libraries (`generateCityButtons`), and, for a chosen sido, the
    "전체" (all) count and one count per district (`showDistrictButtons`).
    Regions are read off the road-name address "<sido> <district> ...". */
module Regions {
  import opened JsValues
  import opened JsStrings
  import opened Seqs
  import opened Records

  /** The 17 province-level divisions of Korea, in button order. */
  const Sidos: seq<string> := [
    "서울특별시", "부산광역시", "대구광역시", "인천광역시", "광주광역시", "대전광역시",
    "울산광역시", "세종특별자치시", "경기도", "강원특별자치도", "충청북도", "충청남도",
    "전북특별자치도", "전라남도", "경상북도", "경상남도", "제주특별자치도"]

  /** What a library is counted under. */
  datatype Grouping = BySido | ByDistrict

  /** The first address token for a sido, the second for a district; `None`
      when the address is missing or empty, or has no second token. */
  function KeyOf(g: Grouping, lib: Library): Option<string> {
    var addr := lib.record.pblibRoadNmAddr;
    if !Truthy(addr) then None
    else
      var parts := Split(addr.value);
      match g
      case BySido => Some(parts[0])
      case ByDistrict => if |parts| > 1 then Some(parts[1]) else None
  }

  /** How many libraries are counted under `key`. */
  function Count(libraries: seq<Library>, g: Grouping, key: string): (n: nat)
    ensures n <= |libraries|
  {
    if |libraries| == 0 then 0
    else
      var last := libraries[|libraries| - 1];
      Count(libraries[..|libraries| - 1], g, key) + (if KeyOf(g, last) == Some(key) then 1 else 0)
  }

  /** `counts` holds the positive counts of `libraries` and nothing else. */
  ghost predicate Tallied(counts: map<string, nat>, libraries: seq<Library>, g: Grouping) {
    && (forall key :: key in counts <==> Count(libraries, g, key) > 0)
    && (forall key :: key in counts ==> counts[key] == Count(libraries, g, key))
  }

  /** The `counts` / `districtCounts` map built by `forEach`. */
  method Tally(libraries: seq<Library>, g: Grouping) returns (counts: map<string, nat>)
    ensures forall key :: key in counts <==> Count(libraries, g, key) > 0
    ensures forall key :: key in counts ==> counts[key] == Count(libraries, g, key)
  {
    counts := map[];
    var i := 0;
    assert Tallied(counts, libraries[..0], g);
    while i < |libraries|
      invariant 0 <= i <= |libraries|
      invariant Tallied(counts, libraries[..i], g)
    {
      var key := KeyOf(g, libraries[i]);
      ghost var before := counts;
      if key.Some? {
        var current := if key.value in counts then counts[key.value] else 0;
        counts := counts[key.value := current + 1];
      }
      TallyStep(libraries, g, i, before, counts);
      i := i + 1;
    }
    assert libraries[..i] == libraries;
  }

  lemma TallyStep(libraries: seq<Library>, g: Grouping, i: nat, before: map<string, nat>, after: map<string, nat>)
    requires i < |libraries| && Tallied(before, libraries[..i], g)
    requires var key := KeyOf(g, libraries[i]);
      after == if key.None? then before
               else before[key.value := (if key.value in before then before[key.value] else 0) + 1]
    ensures Tallied(after, libraries[..i + 1], g)
  {
    assert libraries[..i + 1][..i] == libraries[..i];
  }

  /** A sido button: the sido, its label, and its library count. */
  datatype CityButton = CityButton(sido: string, shortName: string, count: nat)

  /** The buttons for `sidos`, in order, skipping those without libraries,
      each labelled by `labelOf`. */
  function CityButtonsFor(sidos: seq<string>, libraries: seq<Library>, labelOf: string -> string): seq<CityButton> {
    if |sidos| == 0 then []
    else
      var sido := sidos[|sidos| - 1];
      var n := Count(libraries, BySido, sido);
      CityButtonsFor(sidos[..|sidos| - 1], libraries, labelOf)
        + (if n == 0 then [] else [CityButton(sido, labelOf(sido), n)])
  }

  /** `generateCityButtons`, without the markup; the labels are those it
      computes, `CityLabelAsWritten`. */
  method GenerateCityButtons(libraries: seq<Library>) returns (buttons: seq<CityButton>)
    ensures buttons == CityButtonsFor(Sidos, libraries, CityLabelAsWritten)
  {
    var counts := Tally(libraries, BySido);
    buttons := [];
    var i := 0;
    while i < |Sidos|
      invariant 0 <= i <= |Sidos|
      invariant buttons == CityButtonsFor(Sidos[..i], libraries, CityLabelAsWritten)
    {
      var sido := Sidos[i];
      var n := if sido in counts then counts[sido] else 0;
      assert Sidos[..i + 1][..i] == Sidos[..i];
      if n != 0 {
        buttons := buttons + [CityButton(sido, CityLabelAsWritten(sido), n)];
      }
      i := i + 1;
    }
    assert Sidos[..i] == Sidos;
  }

  /** There is a button for a sido exactly when it is one of the 17 and some
      library's address starts with it as its first token; the button carries
      that number of libraries. Addresses naming anything else get no button. */
  lemma {:induction false} CityButtonsListed(sidos: seq<string>, libraries: seq<Library>, labelOf: string -> string, b: CityButton)
    ensures b in CityButtonsFor(sidos, libraries, labelOf) <==>
      b.sido in sidos && b.count == Count(libraries, BySido, b.sido) && b.count > 0 && b.shortName == labelOf(b.sido)
  {
    if |sidos| > 0 {
      var init := sidos[..|sidos| - 1];
      CityButtonsListed(init, libraries, labelOf, b);
      assert sidos == init + [sidos[|sidos| - 1]];
    }
  }

  /** The short names shown on the sido buttons, as `generateCityButtons`
      lists them: nine of the seventeen. */
  const ButtonShortNames: map<string, string> := map[
    "서울특별시" := "서울", "부산광역시" := "부산", "대구광역시" := "대구", "인천광역시" := "인천",
    "울산광역시" := "울산", "경기도" := "경기", "충청북도" := "충북", "전북특별자치도" := "전북",
    "전라남도" := "전남"]

  /** The short names of all seventeen, as `showDistrictButtons` lists them. */
  const ShortNames: map<string, string> := map[
    "서울특별시" := "서울", "부산광역시" := "부산", "대구광역시" := "대구", "인천광역시" := "인천",
    "광주광역시" := "광주", "대전광역시" := "대전", "울산광역시" := "울산", "세종특별자치시" := "세종",
    "경기도" := "경기", "강원특별자치도" := "강원", "충청북도" := "충북", "충청남도" := "충남",
    "전북특별자치도" := "전북", "전라남도" := "전남", "경상북도" := "경북", "경상남도" := "경남",
    "제주특별자치도" := "제주"]

  /** `sido.slice(0, 2)`. */
  function FirstTwo(s: string): string {
    if |s| < 2 then s else s[..2]
  }

  /** The button label as `generateCityButtons` computes it: a listed short
      name, else the first two characters. */
  function CityLabelAsWritten(sido: string): string {
    if sido in ButtonShortNames then ButtonShortNames[sido] else FirstTwo(sido)
  }

  /** 경상북도 and 경상남도 both get the label "경상", so their two buttons
      cannot be told apart. */
  lemma AsWrittenLabelsCollide()
    ensures "경상북도" in Sidos && "경상남도" in Sidos
    ensures CityLabelAsWritten("경상북도") == CityLabelAsWritten("경상남도") == "경상"
  {
    assert Sidos[14] == "경상북도" && Sidos[15] == "경상남도";
    assert "경상북도"[..2] == "경상";
    assert "경상남도"[..2] == "경상";
  }

  /** As written, when both Gyeongsang provinces have libraries, the page shows
      two buttons with the same label "경상". */
  lemma AsWrittenButtonsCollide(libraries: seq<Library>)
    requires Count(libraries, BySido, "경상북도") > 0 && Count(libraries, BySido, "경상남도") > 0
    ensures CityButton("경상북도", "경상", Count(libraries, BySido, "경상북도")) in CityButtonsFor(Sidos, libraries, CityLabelAsWritten)
    ensures CityButton("경상남도", "경상", Count(libraries, BySido, "경상남도")) in CityButtonsFor(Sidos, libraries, CityLabelAsWritten)
  {
    AsWrittenLabelsCollide();
    CityButtonsListed(Sidos, libraries, CityLabelAsWritten, CityButton("경상북도", "경상", Count(libraries, BySido, "경상북도")));
    CityButtonsListed(Sidos, libraries, CityLabelAsWritten, CityButton("경상남도", "경상", Count(libraries, BySido, "경상남도")));
  }

  /** The label with the seventeen short names of `showDistrictButtons`. */
  function CityLabel(sido: string): string {
    if sido in ShortNames then ShortNames[sido] else FirstTwo(sido)
  }

  /** The labels of the 17 sidos, in button order. */
  const Labels: seq<string> := [
    "서울", "부산", "대구", "인천", "광주", "대전", "울산", "세종", "경기", "강원",
    "충북", "충남", "전북", "전남", "경북", "경남", "제주"]

  /** Each sido is labelled with its short name. */
  lemma LabelsListed()
    ensures forall i :: 0 <= i < |Sidos| ==> CityLabel(Sidos[i]) == Labels[i]
  {
    assert CityLabel(Sidos[0]) == Labels[0];
    assert CityLabel(Sidos[1]) == Labels[1];
    assert CityLabel(Sidos[2]) == Labels[2];
    assert CityLabel(Sidos[3]) == Labels[3];
    assert CityLabel(Sidos[4]) == Labels[4];
    assert CityLabel(Sidos[5]) == Labels[5];
    assert CityLabel(Sidos[6]) == Labels[6];
    assert CityLabel(Sidos[7]) == Labels[7];
    assert CityLabel(Sidos[8]) == Labels[8];
    assert CityLabel(Sidos[9]) == Labels[9];
    assert CityLabel(Sidos[10]) == Labels[10];
    assert CityLabel(Sidos[11]) == Labels[11];
    assert CityLabel(Sidos[12]) == Labels[12];
    assert CityLabel(Sidos[13]) == Labels[13];
    assert CityLabel(Sidos[14]) == Labels[14];
    assert CityLabel(Sidos[15]) == Labels[15];
    assert CityLabel(Sidos[16]) == Labels[16];
  }

  /** With the full list of short names every sido button has its own label. */
  lemma CityLabelsDistinct()
    ensures forall i, j :: 0 <= i < j < |Sidos| ==> CityLabel(Sidos[i]) != CityLabel(Sidos[j])
  {
    LabelsListed();
    assert forall i, j :: 0 <= i < j < |Labels| ==> Labels[i] != Labels[j];
  }

  /** With the corrected labels, buttons for two different sidos never share
      a label. */
  lemma CorrectedButtonsDistinct(libraries: seq<Library>, b1: CityButton, b2: CityButton)
    requires b1 in CityButtonsFor(Sidos, libraries, CityLabel)
    requires b2 in CityButtonsFor(Sidos, libraries, CityLabel)
    requires b1.sido != b2.sido
    ensures b1.shortName != b2.shortName
  {
    CityButtonsListed(Sidos, libraries, CityLabel, b1);
    CityButtonsListed(Sidos, libraries, CityLabel, b2);
    var i :| 0 <= i < |Sidos| && Sidos[i] == b1.sido;
    var j :| 0 <= j < |Sidos| && Sidos[j] == b2.sido;
    CityLabelsDistinct();
    if i < j {
      assert CityLabel(Sidos[i]) != CityLabel(Sidos[j]);
    } else {
      assert CityLabel(Sidos[j]) != CityLabel(Sidos[i]);
    }
  }

  /** A library belongs to the district view of `sido` when its address
      starts with the sido's name. */
  predicate InSido(lib: Library, sido: string) {
    Truthy(lib.record.pblibRoadNmAddr) && StartsWith(lib.record.pblibRoadNmAddr.value, sido)
  }

  /** `sidoLibraries`: the libraries listed under "전체" for `sido`. */
  function SidoLibraries(libraries: seq<Library>, sido: string): seq<Library> {
    Filter(libraries, lib => InSido(lib, sido))
  }

  /** `districtLibraries`: the libraries shown when a district button is clicked. */
  function DistrictLibraries(sidoLibraries: seq<Library>, district: string): seq<Library> {
    Filter(sidoLibraries, lib => KeyOf(ByDistrict, lib) == Some(district))
  }

  /** The counts `showDistrictButtons` shows: the "전체" count and the
      per-district counts. */
  method ShowDistrictButtons(libraries: seq<Library>, sido: string) returns (allCount: nat, districtCounts: map<string, nat>)
    ensures allCount == |SidoLibraries(libraries, sido)|
    ensures forall d :: d in districtCounts <==> Count(SidoLibraries(libraries, sido), ByDistrict, d) > 0
    ensures forall d :: d in districtCounts ==> districtCounts[d] == Count(SidoLibraries(libraries, sido), ByDistrict, d)
  {
    var sidoLibraries := SidoLibraries(libraries, sido);
    districtCounts := Tally(sidoLibraries, ByDistrict);
    allCount := |sidoLibraries|;
  }

  /** The count on a district button is the number of libraries its click shows. */
  lemma {:induction false} DistrictButtonMatchesList(sidoLibraries: seq<Library>, district: string)
    ensures |DistrictLibraries(sidoLibraries, district)| == Count(sidoLibraries, ByDistrict, district)
  {
    if |sidoLibraries| > 0 {
      DistrictButtonMatchesList(sidoLibraries[..|sidoLibraries| - 1], district);
    }
  }

  /** The first piece of `split(' ')` is a prefix of the string. */
  lemma {:induction false} SplitFirstIsPrefix(s: string)
    ensures StartsWith(s, Split(s)[0])
  {
    if |s| > 0 && s[0] != ' ' {
      SplitFirstIsPrefix(s[1..]);
      assert Split(s)[0] == [s[0]] + Split(s[1..])[0];
    }
  }

  /** Every library counted on a sido button is listed in that sido's
      district view, so the button's count never exceeds its "전체" count. */
  lemma {:induction false} SidoCountWithinDistrictView(libraries: seq<Library>, sido: string)
    ensures Count(libraries, BySido, sido) <= |SidoLibraries(libraries, sido)|
  {
    if |libraries| > 0 {
      var last := libraries[|libraries| - 1];
      SidoCountWithinDistrictView(libraries[..|libraries| - 1], sido);
      if KeyOf(BySido, last) == Some(sido) {
        SplitFirstIsPrefix(last.record.pblibRoadNmAddr.value);
        assert InSido(last, sido);
      }
    }
  }
}
