/**
 * The earlier single-file map component: the same highlight state and
 * colouring, outlines and island cards wired to pointer events only, and
 * an info panel that looks both the selected and the hovered county up in
 * the dataset.
 */
module Demo {
  import opened Wrappers
  import opened Events
  import opened HighlightModel
  import Counties
  import Geometry
  import Jsx
  import LocationPath
  import IslandCard

  /** `getZhName`: empty for a missing or empty id, the Chinese name of a known county, the id itself otherwise. */
  function ZhName(id: Option<string>): (r: string)
    ensures !Jsx.Truthy(id) ==> r == ""
    ensures Jsx.Truthy(id) && Counties.IsCountyId(id.value) ==> r == Counties.NamesZh[id.value] && r != ""
    ensures Jsx.Truthy(id) && !Counties.IsCountyId(id.value) ==> r == id.value
  {
    Counties.NamesTotal();
    Counties.NamesNonEmpty();
    if !Jsx.Truthy(id) then "" else Jsx.Or(Counties.NameZh(id.value), id.value)
  }

  /** The outline of `loc`: fill from the state, a fixed stroke, no label and no shadow. */
  function PathFor(loc: Geometry.Location, s: Highlight): LocationPath.PathView {
    LocationPath.PathView(loc.id, loc.name, loc.path, ColorFor(s, loc.id), "1", false, None)
  }

  /** The outlines of the main map. */
  function MapPaths(geometry: seq<Geometry.Location>, s: Highlight): (r: seq<LocationPath.PathView>)
    ensures |r| == |geometry|
    ensures forall i :: 0 <= i < |r| ==> r[i].id == geometry[i].id && r[i].d == geometry[i].path && r[i].name == geometry[i].name
    ensures forall i :: 0 <= i < |r| ==> r[i].fill == ColorFor(s, geometry[i].id) && r[i].strokeWidth == "1"
  {
    seq(|geometry|, i requires 0 <= i < |geometry| => PathFor(geometry[i], s))
  }

  /** The callback an outline or card of `id` emits: pointer events only, no keyboard handler. */
  function Handle(id: string, ev: Event): (r: Option<Action>)
    ensures r == Some(Hover(Some(id))) <==> ev == MouseEnter
    ensures r == Some(Hover(None)) <==> ev == MouseLeave
    ensures r == Some(Select(id)) <==> ev == Click
    ensures r.None? <==> ev.KeyDown?
  {
    match ev
    case MouseEnter => Some(Hover(Some(id)))
    case MouseLeave => Some(Hover(None))
    case Click => Some(Select(id))
    case KeyDown(_) => None
  }

  /** The card of one island entry, or `None` when the dataset lacks the county. */
  function CardFor(config: Counties.IslandConfig, geometry: seq<Geometry.Location>, s: Highlight)
    : (r: Option<IslandCard.CardView>)
    ensures r.None? <==> !Geometry.Has(geometry, config.id)
    ensures r.Some? ==> r.value.id == config.id && r.value.viewBox == config.viewBox
    ensures r.Some? ==> r.value.fill == ColorFor(s, config.id)
    ensures r.Some? ==>
              r.value.border == (if s.selected == Some(config.id) then IslandCard.SelectedBorder else IslandCard.PlainBorder)
    ensures r.Some? ==>
              r.value.background == (if s.hovered == Some(config.id) then IslandCard.HoverBackground else IslandCard.PlainBackground)
    ensures r.Some? ==> r.value.captionColor == IslandCard.PlainCaption && !r.value.raised
  {
    Geometry.FindHas(geometry, config.id);
    match Geometry.Find(geometry, Some(config.id))
    case None => None
    case Some(loc) =>
      var selected := s.selected == Some(config.id);
      Some(IslandCard.CardView(
        config.id,
        if selected then IslandCard.SelectedBorder else IslandCard.PlainBorder,
        if s.hovered == Some(config.id) then IslandCard.HoverBackground else IslandCard.PlainBackground,
        false,
        config.viewBox, loc.path, ColorFor(s, config.id),
        Jsx.Text(Counties.NameZh(config.id)),
        IslandCard.PlainCaption))
  }

  /** `ISLAND_CONFIG.map(...)`: one child per entry, `None` where the callback returns `null`. */
  function CardsFor(configs: seq<Counties.IslandConfig>, geometry: seq<Geometry.Location>, s: Highlight)
    : (r: seq<Option<IslandCard.CardView>>)
    ensures |r| == |configs|
    ensures forall i :: 0 <= i < |r| ==> r[i] == CardFor(configs[i], geometry, s)
    ensures forall i :: 0 <= i < |r| ==> (r[i].Some? <==> Geometry.Has(geometry, configs[i].id))
  {
    if configs == [] then [] else [CardFor(configs[0], geometry, s)] + CardsFor(configs[1..], geometry, s)
  }

  function IslandCards(geometry: seq<Geometry.Location>, s: Highlight): (r: seq<Option<IslandCard.CardView>>)
    ensures |r| == 3
    ensures r[0].Some? <==> Geometry.Has(geometry, "penghu-county")
    ensures r[1].Some? <==> Geometry.Has(geometry, "kinmen-county")
    ensures r[2].Some? <==> Geometry.Has(geometry, "lienchiang-county")
  {
    CardsFor(Counties.Islands, geometry, s)
  }

  /** The cards on screen are those of the islands the dataset has, in configuration order. */
  lemma {:induction false} CardsOnScreen(configs: seq<Counties.IslandConfig>, geometry: seq<Geometry.Location>, s: Highlight)
    ensures IslandCard.Ids(Jsx.Rendered(CardsFor(configs, geometry, s))) == IslandCard.PresentIds(configs, geometry)
  {
    if configs != [] {
      var cards := CardsFor(configs, geometry, s);
      assert cards[1..] == CardsFor(configs[1..], geometry, s);
      CardsOnScreen(configs[1..], geometry, s);
      var rest := Jsx.Rendered(cards[1..]);
      if cards[0].Some? {
        assert Jsx.Rendered(cards) == [cards[0].value] + rest;
        assert ([cards[0].value] + rest)[1..] == rest;
      }
    }
  }

  /** When the dataset lacks exactly one island, the other two cards appear, in order, and no error occurs. */
  lemma MissingIslandSkipped(geometry: seq<Geometry.Location>, s: Highlight, k: nat)
    requires k < |Counties.Islands|
    requires !Geometry.Has(geometry, Counties.Islands[k].id)
    requires forall j :: 0 <= j < |Counties.Islands| && j != k ==> Geometry.Has(geometry, Counties.Islands[j].id)
    ensures var ids := [Counties.Islands[0].id, Counties.Islands[1].id, Counties.Islands[2].id];
      IslandCard.Ids(Jsx.Rendered(IslandCards(geometry, s))) == ids[..k] + ids[k + 1..]
  {
    CardsOnScreen(Counties.Islands, geometry, s);
    IslandCard.PresentIdsSkipOne(Counties.Islands, geometry, k);
  }

  /**
   * The info panel: the selected county when the dataset has it; else the
   * hover message when the dataset has the hovered county; else the prompt.
   */
  function InfoPanel(geometry: seq<Geometry.Location>, s: Highlight): (p: Panel)
    ensures p.SelectedView? <==> Geometry.Find(geometry, s.selected).Some?
    ensures p.SelectedView? ==> p.badgeColor == SelectedColor && p.title == ZhName(s.selected)
    ensures p.SelectedView? ==> p.subtitle == Jsx.Text(Geometry.Find(geometry, s.selected).value.name) + " (En)"
    ensures p.Pointing? <==> Geometry.Find(geometry, s.selected).None? && Geometry.Find(geometry, s.hovered).Some?
    ensures p.Pointing? ==> p.message == PointingPrefix + ZhName(s.hovered)
  {
    match Geometry.Find(geometry, s.selected)
    case Some(loc) =>
      SelectedView(ZhName(Some(loc.id)), Jsx.Text(loc.name) + " (En)", ColorFor(s, loc.id))
    case None =>
      match Geometry.Find(geometry, s.hovered)
      case Some(h) => Pointing(PointingPrefix + ZhName(Some(h.id)))
      case None => Prompt
  }

  /** Before any event the panel shows the prompt and every county its base colour. */
  lemma InitialView(geometry: seq<Geometry.Location>, id: string)
    ensures InfoPanel(geometry, Initial) == Prompt
    ensures ColorFor(Initial, id) == Counties.BaseColor(id)
  {
  }

  /** An event on an outline or card of `id`: the inline handler calls the state setter. */
  method OnEvent(state: HighlightState, id: string, ev: Event)
    modifies state
    ensures state.View() == Step(old(state.View()), Handle(id, ev))
    ensures ev.KeyDown? ==> state.View() == old(state.View())
  {
    state.Deliver(Handle(id, ev));
  }
}
