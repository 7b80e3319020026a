/**
 * How the earlier single-file component and the refactored one relate:
 * same colours and same cards, keyboard activation added, and an info
 * panel that no longer looks the hovered county up in the dataset.
 */
module Versions {
  import opened Wrappers
  import opened Events
  import opened HighlightModel
  import Counties
  import Geometry
  import Jsx
  import LocationPath
  import IslandCard
  import Demo
  import TaiwanMap

  /** Both versions fill every outline alike. */
  lemma SameMapColours(geometry: seq<Geometry.Location>, s: Highlight, i: nat)
    requires i < |geometry|
    ensures Demo.MapPaths(geometry, s)[i].fill == TaiwanMap.MapPaths(geometry, s)[i].fill
  {
  }

  /** Both versions draw the card of an island entry alike, save the caption colour and the raised shadow. */
  lemma SameCard(config: Counties.IslandConfig, geometry: seq<Geometry.Location>, s: Highlight)
    ensures Demo.CardFor(config, geometry, s).Some? <==> IslandCard.Render(TaiwanMap.CardPropsFor(config, s), geometry).Some?
    ensures Demo.CardFor(config, geometry, s).Some? ==>
      var d, t := Demo.CardFor(config, geometry, s).value, IslandCard.Render(TaiwanMap.CardPropsFor(config, s), geometry).value;
      d == t.(captionColor := IslandCard.PlainCaption, raised := false)
  {
  }

  /** Both versions show the same island cards with the same fill, border and background. */
  lemma SameCards(geometry: seq<Geometry.Location>, s: Highlight, k: nat)
    requires k < |Counties.Islands|
    ensures Demo.IslandCards(geometry, s)[k].Some? <==> TaiwanMap.IslandCards(geometry, s)[k].Some?
    ensures Demo.IslandCards(geometry, s)[k].Some? ==>
      var d, t := Demo.IslandCards(geometry, s)[k].value, TaiwanMap.IslandCards(geometry, s)[k].value;
      d == t.(captionColor := IslandCard.PlainCaption, raised := false)
  {
    SameCard(Counties.Islands[k], geometry, s);
  }

  /** Pointer events are handled alike; only the keyboard handler is new, and it only selects. */
  lemma KeyboardIsTheOnlyNewWiring(id: string, ev: Event)
    ensures !ev.KeyDown? ==> LocationPath.Handle(id, ev) == Demo.Handle(id, ev)
    ensures ev.KeyDown? ==> Demo.Handle(id, ev).None?
    ensures ev.KeyDown? ==> LocationPath.Handle(id, ev) == (if IsActivationKey(ev.key) then Some(Select(id)) else None)
  {
  }

  /** Keys are compared exactly: other spellings of Enter and Space select nothing, on an outline or a card. */
  lemma OtherSpellingsIgnored(id: string, config: Counties.IslandConfig)
    ensures LocationPath.Handle(id, KeyDown("enter")).None? && IslandCard.Handle(config, KeyDown("enter")).None?
    ensures LocationPath.Handle(id, KeyDown("Spacebar")).None? && IslandCard.Handle(config, KeyDown("Spacebar")).None?
    ensures LocationPath.Handle(id, KeyDown("Space")).None? && IslandCard.Handle(config, KeyDown("Space")).None?
  {
  }

  /**
   * The refactored panel shows the hover message for a hovered id the
   * dataset does not hold, where the earlier panel shows the prompt.
   */
  lemma HoverMessageWithoutLookup(geometry: seq<Geometry.Location>, s: Highlight)
    requires Geometry.Find(geometry, s.selected).None?
    requires s.hovered.Some? && s.hovered.value != "" && !Geometry.Has(geometry, s.hovered.value)
    ensures Demo.InfoPanel(geometry, s) == Prompt
    ensures TaiwanMap.InfoPanel(geometry, s).Pointing?
  {
    Geometry.FindHas(geometry, s.hovered.value);
  }

  /** For county ids the dataset holds, both panels agree. */
  lemma PanelsAgreeOnCounties(geometry: seq<Geometry.Location>, s: Highlight)
    requires s.selected.Some? ==> Counties.IsCountyId(s.selected.value)
    requires s.hovered.Some? ==> Counties.IsCountyId(s.hovered.value) && Geometry.Has(geometry, s.hovered.value)
    ensures Demo.InfoPanel(geometry, s) == TaiwanMap.InfoPanel(geometry, s)
  {
    if Geometry.Find(geometry, s.selected).Some? {
      KnownName(s.selected.value);
    } else if s.hovered.Some? {
      Geometry.FindHas(geometry, s.hovered.value);
      KnownName(s.hovered.value);
    }
  }

  /**
   * For an id the dataset holds but the registry does not, the earlier
   * panel falls back to the id itself, while the refactored panel shows an
   * empty title when it is selected and "undefined" when it is hovered.
   */
  lemma PanelsDifferOffRegistry()
    ensures var g := [Geometry.Location("x", "", None)];
      && Demo.InfoPanel(g, Highlight(None, Some("x"))).title == "x"
      && TaiwanMap.InfoPanel(g, Highlight(None, Some("x"))).title == ""
      && Demo.InfoPanel(g, Highlight(Some("x"), None)) == Pointing(PointingPrefix + "x")
      && TaiwanMap.InfoPanel(g, Highlight(Some("x"), None)) == Pointing(PointingPrefix + "undefined")
  {
    var g := [Geometry.Location("x", "", None)];
    assert !Counties.IsCountyId("x");
    assert Geometry.Find(g, Some("x")) == Some(g[0]);
  }

  /** The two name lookups agree on a county id. */
  lemma KnownName(id: string)
    requires Counties.IsCountyId(id)
    ensures Demo.ZhName(Some(id)) == Jsx.Text(Counties.NameZh(id)) == Jsx.Interpolate(Counties.NameZh(id))
  {
    Counties.CountyIdsNonEmpty(id);
    Counties.NamesTotal();
  }
}
