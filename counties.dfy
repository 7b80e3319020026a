/**
 * The county registry: the closed set of county identifiers, their
 * Chinese display names, their base colours, the neutral default colour,
 * and the crop rectangle of each of the three offshore islands.
 */
module Counties {
  import opened Wrappers
  import Jsx
  import ViewBox

  /** The `CountyId` union type, in declaration order. */
  const CountyIds: seq<string> := [
    "keelung-city", "taipei-city", "new-taipei-city", "taoyuan-city",
    "hsinchu-county", "hsinchu-city", "miaoli-county", "taichung-city",
    "changhua-county", "nantou-county", "yunlin-county", "chiayi-county",
    "chiayi-city", "tainan-city", "kaohsiung-city", "pingtung-county",
    "yilan-county", "hualien-county", "taitung-county", "penghu-county",
    "kinmen-county", "lienchiang-county"
  ]

  predicate IsCountyId(id: string) {
    id in CountyIds
  }

  /** `COUNTY_NAMES_ZH`. */
  const NamesZh: map<string, string> := map[
    "keelung-city" := "基隆市",
    "taipei-city" := "台北市",
    "new-taipei-city" := "新北市",
    "taoyuan-city" := "桃園市",
    "hsinchu-county" := "新竹縣",
    "hsinchu-city" := "新竹市",
    "miaoli-county" := "苗栗縣",
    "taichung-city" := "台中市",
    "changhua-county" := "彰化縣",
    "nantou-county" := "南投縣",
    "yunlin-county" := "雲林縣",
    "chiayi-county" := "嘉義縣",
    "chiayi-city" := "嘉義市",
    "tainan-city" := "台南市",
    "kaohsiung-city" := "高雄市",
    "pingtung-county" := "屏東縣",
    "yilan-county" := "宜蘭縣",
    "hualien-county" := "花蓮縣",
    "taitung-county" := "台東縣",
    "penghu-county" := "澎湖縣",
    "kinmen-county" := "金門縣",
    "lienchiang-county" := "連江縣 (馬祖)"
  ]

  /** `COUNTY_COLORS`. */
  const Colors: map<string, string> := map[
    "keelung-city" := "#8dd3c7",
    "taipei-city" := "#ffffb3",
    "new-taipei-city" := "#bebada",
    "taoyuan-city" := "#fb8072",
    "hsinchu-county" := "#80b1d3",
    "hsinchu-city" := "#fdb462",
    "miaoli-county" := "#b3de69",
    "taichung-city" := "#fccde5",
    "changhua-county" := "#d9d9d9",
    "nantou-county" := "#bc80bd",
    "yunlin-county" := "#ccebc5",
    "chiayi-county" := "#ffed6f",
    "chiayi-city" := "#c4e17f",
    "tainan-city" := "#f7f4c3",
    "kaohsiung-city" := "#ffb7b2",
    "pingtung-county" := "#e2f0cb",
    "yilan-county" := "#ffdac1",
    "hualien-county" := "#b5ead7",
    "taitung-county" := "#c7ceea",
    "penghu-county" := "#a0c4ff",
    "kinmen-county" := "#bdb2ff",
    "lienchiang-county" := "#ffc6ff"
  ]

  /** `DEFAULT_COLOR`. */
  const DefaultColor := "#e2e8f0"

  /** One entry of `ISLAND_CONFIG`: a county and its crop rectangle as an SVG `viewBox` string. */
  datatype IslandConfig = IslandConfig(id: string, viewBox: string)

  /** `ISLAND_CONFIG`, in display order. */
  const Islands: seq<IslandConfig> := [
    IslandConfig("penghu-county", "280 755 115 182"),
    IslandConfig("kinmen-county", "0 400 340 190"),
    IslandConfig("lienchiang-county", "445 0 165 140")
  ]

  /** A key lookup on a string-keyed table: a missing key reads as `undefined`. */
  function Lookup(table: map<string, string>, key: string): Option<string> {
    if key in table then Some(table[key]) else None
  }

  /** `COUNTY_NAMES_ZH[id]`. */
  function NameZh(id: string): (r: Option<string>)
    ensures r.Some? <==> IsCountyId(id)
    ensures r.Some? ==> r.value == NamesZh[id]
  {
    NamesTotal();
    Lookup(NamesZh, id)
  }

  predicate IsHexDigit(c: char) {
    '0' <= c <= '9' || 'a' <= c <= 'f' || 'A' <= c <= 'F'
  }

  /** A CSS colour of the form `#` followed by six hexadecimal digits. */
  predicate IsHexColor(s: string) {
    |s| == 7 && s[0] == '#' && forall i :: 1 <= i < 7 ==> IsHexDigit(s[i])
  }

  /** `COUNTY_COLORS[id] || DEFAULT_COLOR`: the registry colour, or the default for an unknown id. */
  function BaseColor(id: string): (r: string)
    ensures IsHexColor(r)
    ensures IsCountyId(id) ==> r == Colors[id]
    ensures !IsCountyId(id) ==> r == DefaultColor
  {
    ColorsTotal();
    ColorsAreHex();
    Jsx.Or(Lookup(Colors, id), DefaultColor)
  }

  /** `CountyId` has exactly 22 members, all distinct. */
  lemma CountyIdsDistinct()
    ensures |CountyIds| == 22
    ensures forall i, j :: 0 <= i < j < |CountyIds| ==> CountyIds[i] != CountyIds[j]
  {
  }

  /** No county id is the empty string, so every one is truthy. */
  lemma CountyIdsNonEmpty(id: string)
    requires IsCountyId(id)
    ensures id != ""
  {
  }

  /** The name table has an entry for every county and for nothing else. */
  lemma NamesTotal()
    ensures forall id :: id in NamesZh <==> IsCountyId(id)
  {
  }

  /** Every name is non-empty, so `|| id` falls back only for unknown ids. */
  lemma NamesNonEmpty()
    ensures forall i :: 0 <= i < |CountyIds| ==> CountyIds[i] in NamesZh && NamesZh[CountyIds[i]] != ""
  {
  }

  /** The colour table has an entry for every county and for nothing else. */
  lemma ColorsTotal()
    ensures forall id :: id in Colors <==> IsCountyId(id)
  {
  }

  /** Every registry colour is `#` and six hex digits. */
  lemma ColorsAreHex()
    ensures forall i :: 0 <= i < |CountyIds| ==> CountyIds[i] in Colors && IsHexColor(Colors[CountyIds[i]])
  {
  }

  /** The island list: three distinct counties, penghu, kinmen, lienchiang, in that order. */
  lemma IslandsShape()
    ensures |Islands| == 3
    ensures Islands[0].id == "penghu-county" && Islands[1].id == "kinmen-county" && Islands[2].id == "lienchiang-county"
    ensures forall i :: 0 <= i < |Islands| ==> IsCountyId(Islands[i].id)
    ensures forall i, j :: 0 <= i < j < |Islands| ==> Islands[i].id != Islands[j].id
  {
  }

  /** Each island crop is four integers "x y width height" with positive width and height. */
  lemma IslandViewBoxesWellFormed()
    ensures forall i :: 0 <= i < |Islands| ==> ViewBox.WellFormed(Islands[i].viewBox)
  {
    forall i | 0 <= i < |Islands|
      ensures ViewBox.WellFormed(Islands[i].viewBox)
    {
      if i == 0 {
        PenghuCrop();
      } else if i == 1 {
        KinmenCrop();
      } else {
        LienchiangCrop();
      }
    }
  }

  lemma PenghuCrop()
    ensures ViewBox.Parse(Islands[0].viewBox) == Some(ViewBox.Rect(280, 755, 115, 182))
  {
    PenghuFormat();
    ViewBox.ParseFormat(ViewBox.Rect(280, 755, 115, 182));
  }

  /** The penghu crop string is the printed form of its rectangle. */
  lemma PenghuFormat()
    ensures Islands[0].viewBox == ViewBox.Format(ViewBox.Rect(280, 755, 115, 182))
  {
    assert ViewBox.NatString(280) == "280" && ViewBox.NatString(755) == "755";
    assert ViewBox.NatString(115) == "115" && ViewBox.NatString(182) == "182";
    assert ViewBox.Field("115", "182") == "115 182";
    assert ViewBox.Field("755", "115 182") == "755 115 182";
    assert ViewBox.Field("280", "755 115 182") == "280 755 115 182";
  }

  lemma KinmenCrop()
    ensures ViewBox.Parse(Islands[1].viewBox) == Some(ViewBox.Rect(0, 400, 340, 190))
  {
    KinmenFormat();
    ViewBox.ParseFormat(ViewBox.Rect(0, 400, 340, 190));
  }

  /** The kinmen crop string is the printed form of its rectangle. */
  lemma KinmenFormat()
    ensures Islands[1].viewBox == ViewBox.Format(ViewBox.Rect(0, 400, 340, 190))
  {
    assert ViewBox.NatString(0) == "0" && ViewBox.NatString(400) == "400";
    assert ViewBox.NatString(340) == "340" && ViewBox.NatString(190) == "190";
    assert ViewBox.Field("340", "190") == "340 190";
    assert ViewBox.Field("400", "340 190") == "400 340 190";
    assert ViewBox.Field("0", "400 340 190") == "0 400 340 190";
  }

  lemma LienchiangCrop()
    ensures ViewBox.Parse(Islands[2].viewBox) == Some(ViewBox.Rect(445, 0, 165, 140))
  {
    LienchiangFormat();
    ViewBox.ParseFormat(ViewBox.Rect(445, 0, 165, 140));
  }

  /** The lienchiang crop string is the printed form of its rectangle. */
  lemma LienchiangFormat()
    ensures Islands[2].viewBox == ViewBox.Format(ViewBox.Rect(445, 0, 165, 140))
  {
    assert ViewBox.NatString(445) == "445" && ViewBox.NatString(0) == "0";
    assert ViewBox.NatString(165) == "165" && ViewBox.NatString(140) == "140";
    assert ViewBox.Field("165", "140") == "165 140";
    assert ViewBox.Field("0", "165 140") == "0 165 140";
    assert ViewBox.Field("445", "0 165 140") == "445 0 165 140";
  }

  /** The fixed base colours of two of the islands. */
  lemma IslandBaseColors()
    ensures BaseColor("penghu-county") == "#a0c4ff"
    ensures BaseColor("kinmen-county") == "#bdb2ff"
  {
  }
}
