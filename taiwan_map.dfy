/**
 * The refactored map component: it owns the highlight state, draws one
 * `LocationPath` per dataset record and one `IslandCard` per configured
 * island, all coloured from the same state, and shows an info panel.
 */
module TaiwanMap {
  import opened Wrappers
  import opened Events
  import opened HighlightModel
  import Counties
  import Geometry
  import Jsx
  import LocationPath
  import IslandCard

  /** The props the map passes to the outline of `loc`. */
  function PathPropsFor(loc: Geometry.Location, s: Highlight): (r: LocationPath.PathProps)
    ensures r.isSelected <==> r.fill == SelectedColor
  {
    ColorReflectsState(s, loc.id);
    LocationPath.PathProps(loc.id, Jsx.Or(loc.name, ""), loc.path, ColorFor(s, loc.id), s.selected == Some(loc.id))
  }

  /** The outlines of the main map. */
  function MapPaths(geometry: seq<Geometry.Location>, s: Highlight): (r: seq<LocationPath.PathView>)
    ensures |r| == |geometry|
    ensures forall i :: 0 <= i < |r| ==> r[i].id == geometry[i].id && r[i].d == geometry[i].path
    ensures forall i :: 0 <= i < |r| ==> r[i].fill == ColorFor(s, geometry[i].id)
    ensures forall i :: 0 <= i < |r| ==> (r[i].strokeWidth == "2" <==> s.selected == Some(geometry[i].id))
    ensures forall i :: 0 <= i < |r| ==> r[i] == LocationPath.Render(PathPropsFor(geometry[i], s))
    ensures forall i :: 0 <= i < |r| ==>
              r[i].name == Some(Jsx.Or(geometry[i].name, "")) && r[i].ariaLabel == Counties.NameZh(geometry[i].id)
  {
    seq(|geometry|, i requires 0 <= i < |geometry| => LocationPath.Render(PathPropsFor(geometry[i], s)))
  }

  /** The props the map passes to the card of `config`. */
  function CardPropsFor(config: Counties.IslandConfig, s: Highlight): (r: IslandCard.CardProps)
    ensures r.isSelected <==> r.fill == SelectedColor
    ensures r.isHovered && !r.isSelected <==> r.fill == HoverColor
  {
    ColorReflectsState(s, config.id);
    IslandCard.CardProps(config, s.selected == Some(config.id), s.hovered == Some(config.id), ColorFor(s, config.id))
  }

  /** One `IslandCard` child per configuration entry, `None` where the card renders `null`. */
  function CardsFor(configs: seq<Counties.IslandConfig>, geometry: seq<Geometry.Location>, s: Highlight)
    : (r: seq<Option<IslandCard.CardView>>)
    ensures |r| == |configs|
    ensures forall i :: 0 <= i < |r| ==> r[i] == IslandCard.Render(CardPropsFor(configs[i], s), geometry)
    ensures forall i :: 0 <= i < |r| ==> (r[i].Some? <==> Geometry.Has(geometry, configs[i].id))
    ensures forall i :: 0 <= i < |r| && r[i].Some? ==>
      r[i].value.id == configs[i].id && r[i].value.fill == ColorFor(s, configs[i].id)
      && r[i].value.border ==
        (if s.selected == Some(configs[i].id) then IslandCard.SelectedBorder else IslandCard.PlainBorder)
      && r[i].value.background ==
        (if s.hovered == Some(configs[i].id) then IslandCard.HoverBackground else IslandCard.PlainBackground)
  {
    if configs == [] then []
    else [IslandCard.Render(CardPropsFor(configs[0], s), geometry)] + CardsFor(configs[1..], geometry, s)
  }

  function IslandCards(geometry: seq<Geometry.Location>, s: Highlight): (r: seq<Option<IslandCard.CardView>>)
    ensures |r| == 3
    ensures r[0].Some? <==> Geometry.Has(geometry, "penghu-county")
    ensures r[1].Some? <==> Geometry.Has(geometry, "kinmen-county")
    ensures r[2].Some? <==> Geometry.Has(geometry, "lienchiang-county")
  {
    CardsFor(Counties.Islands, geometry, s)
  }

  /** The cards on screen are those of the islands the dataset has, in configuration order. */
  lemma {:induction false} CardsOnScreen(configs: seq<Counties.IslandConfig>, geometry: seq<Geometry.Location>, s: Highlight)
    ensures IslandCard.Ids(Jsx.Rendered(CardsFor(configs, geometry, s))) == IslandCard.PresentIds(configs, geometry)
  {
    if configs != [] {
      var cards := CardsFor(configs, geometry, s);
      assert cards[1..] == CardsFor(configs[1..], geometry, s);
      CardsOnScreen(configs[1..], geometry, s);
      var rest := Jsx.Rendered(cards[1..]);
      if cards[0].Some? {
        assert Jsx.Rendered(cards) == [cards[0].value] + rest;
        assert ([cards[0].value] + rest)[1..] == rest;
      }
    }
  }

  /** When the dataset lacks exactly one island, the other two cards appear, in order, and nothing else. */
  lemma MissingIslandSkipped(geometry: seq<Geometry.Location>, s: Highlight, k: nat)
    requires k < |Counties.Islands|
    requires !Geometry.Has(geometry, Counties.Islands[k].id)
    requires forall j :: 0 <= j < |Counties.Islands| && j != k ==> Geometry.Has(geometry, Counties.Islands[j].id)
    ensures var ids := [Counties.Islands[0].id, Counties.Islands[1].id, Counties.Islands[2].id];
      IslandCard.Ids(Jsx.Rendered(IslandCards(geometry, s))) == ids[..k] + ids[k + 1..]
  {
    CardsOnScreen(Counties.Islands, geometry, s);
    IslandCard.PresentIdsSkipOne(Counties.Islands, geometry, k);
  }

  /** An outline and a card for the same county get the same fill: both read the one state. */
  lemma PathAndCardShareFill(geometry: seq<Geometry.Location>, s: Highlight, i: nat, k: nat)
    requires i < |geometry| && k < |Counties.Islands|
    requires geometry[i].id == Counties.Islands[k].id
    ensures MapPaths(geometry, s)[i].fill == IslandCards(geometry, s)[k].value.fill
  {
  }

  /** The info panel: the selected county when the dataset has it, else the hover message whenever hovering, else the prompt. */
  function InfoPanel(geometry: seq<Geometry.Location>, s: Highlight): (p: Panel)
    ensures p.SelectedView? <==> Geometry.Find(geometry, s.selected).Some?
    ensures p.SelectedView? ==> p.badgeColor == SelectedColor
    ensures p.SelectedView? ==> p.title == Jsx.Text(Counties.NameZh(s.selected.value))
    ensures p.SelectedView? ==> p.subtitle == Jsx.Text(Geometry.Find(geometry, s.selected).value.name) + " (En)"
    ensures p.Pointing? <==> Geometry.Find(geometry, s.selected).None? && Jsx.Truthy(s.hovered)
    ensures p.Pointing? ==> p.message == PointingPrefix + Jsx.Interpolate(Counties.NameZh(s.hovered.value))
  {
    match Geometry.Find(geometry, s.selected)
    case Some(loc) =>
      SelectedView(Jsx.Text(Counties.NameZh(loc.id)), Jsx.Text(loc.name) + " (En)", ColorFor(s, loc.id))
    case None =>
      if Jsx.Truthy(s.hovered) then Pointing(PointingPrefix + Jsx.Interpolate(Counties.NameZh(s.hovered.value)))
      else Prompt
  }

  /** Pointing at a known county names it in Chinese. */
  lemma PointingNamesCounty(geometry: seq<Geometry.Location>, s: Highlight)
    requires Geometry.Find(geometry, s.selected).None?
    requires s.hovered.Some? && Counties.IsCountyId(s.hovered.value)
    ensures InfoPanel(geometry, s) == Pointing(PointingPrefix + Counties.NamesZh[s.hovered.value])
  {
    Counties.NamesTotal();
    Counties.CountyIdsNonEmpty(s.hovered.value);
  }

  /** Entering a path and then leaving it, through the path's own handlers, restores its colour. */
  lemma EnterLeaveOnPath(s: Highlight, id: string)
    requires s.hovered != Some(id)
    ensures LocationPath.Handle(id, MouseEnter).Some? && LocationPath.Handle(id, MouseLeave).Some?
    ensures ColorFor(Apply(Apply(s, LocationPath.Handle(id, MouseEnter).value), LocationPath.Handle(id, MouseLeave).value), id)
            == ColorFor(s, id)
  {
    HoverThenLeaveRestores(s, id);
  }

  /** Clicking or activating a path or a card selects its county, which is then drawn in the selection colour. */
  lemma ActivationSelects(s: Highlight, config: Counties.IslandConfig, ev: Event)
    requires ev == Click || (ev.KeyDown? && IsActivationKey(ev.key))
    ensures IslandCard.Handle(config, ev) == LocationPath.Handle(config.id, ev) == Some(Select(config.id))
    ensures ColorFor(Apply(s, Select(config.id)), config.id) == SelectedColor
  {
  }

  /** A card and an outline of the same county are wired identically. */
  lemma CardWiredLikePath(config: Counties.IslandConfig, ev: Event)
    ensures IslandCard.Handle(config, ev) == LocationPath.Handle(config.id, ev)
  {
  }

  /** An event on the outline of `id`: its handler's callback reaches the shared state. */
  method OnPathEvent(state: HighlightState, id: string, ev: Event)
    modifies state
    ensures state.View() == Step(old(state.View()), LocationPath.Handle(id, ev))
    ensures ev == MouseLeave ==> state.hovered.None? && state.selected == old(state.selected)
    ensures ev.KeyDown? && !IsActivationKey(ev.key) ==> state.View() == old(state.View())
  {
    state.Deliver(LocationPath.Handle(id, ev));
  }

  /** An event on the card of `config`: its handler's callback reaches the shared state. */
  method OnCardEvent(state: HighlightState, config: Counties.IslandConfig, ev: Event)
    modifies state
    ensures state.View() == Step(old(state.View()), IslandCard.Handle(config, ev))
    ensures ev == Click ==> state.selected == Some(config.id) && state.hovered == old(state.hovered)
  {
    state.Deliver(IslandCard.Handle(config, ev));
  }
}
