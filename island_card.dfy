/**
 * One zoomed preview of an offshore county: it renders nothing when the
 * dataset has no outline for its county, and otherwise draws the outline
 * cropped to the configured rectangle with selection and hover styling.
 */
module IslandCard {
  import opened Wrappers
  import opened Events
  import Counties
  import Geometry
  import Jsx

  const SelectedBorder := "#3b82f6"
  const PlainBorder := "#e2e8f0"
  const HoverBackground := "#f1f5f9"
  const PlainBackground := "white"
  const SelectedCaption := "#3b82f6"
  const PlainCaption := "#334155"

  datatype CardProps = CardProps(config: Counties.IslandConfig, isSelected: bool, isHovered: bool, fill: string)

  /** The discrete parts of a rendered card: its styling choices, its thumbnail and its label. */
  datatype CardView = CardView(
    id: string, border: string, background: string, raised: bool,
    viewBox: string, path: string, fill: string, caption: string, captionColor: string)

  /** The card an `IslandCard` draws, or `None` (`null`) when the dataset lacks its county. */
  function Render(p: CardProps, geometry: seq<Geometry.Location>): (r: Option<CardView>)
    ensures r.None? <==> Geometry.Find(geometry, Some(p.config.id)).None?
    ensures r.None? <==> !Geometry.Has(geometry, p.config.id)
    ensures r.Some? ==> r.value.id == p.config.id && r.value.viewBox == p.config.viewBox && r.value.fill == p.fill
    ensures r.Some? ==> r.value.path == Geometry.Find(geometry, Some(p.config.id)).value.path
    ensures r.Some? ==> r.value.caption == Jsx.Text(Counties.NameZh(p.config.id))
    ensures r.Some? ==> r.value.border == (if p.isSelected then SelectedBorder else PlainBorder)
    ensures r.Some? ==> r.value.background == (if p.isHovered then HoverBackground else PlainBackground)
    ensures r.Some? ==> r.value.captionColor == (if p.isSelected then SelectedCaption else PlainCaption)
    ensures r.Some? ==> (r.value.raised <==> p.isSelected)
  {
    Geometry.FindHas(geometry, p.config.id);
    match Geometry.Find(geometry, Some(p.config.id))
    case None => None
    case Some(loc) =>
      Some(CardView(
        p.config.id,
        if p.isSelected then SelectedBorder else PlainBorder,
        if p.isHovered then HoverBackground else PlainBackground,
        p.isSelected,
        p.config.viewBox, loc.path, p.fill,
        Jsx.Text(Counties.NameZh(p.config.id)),
        if p.isSelected then SelectedCaption else PlainCaption))
  }

  /** The callback the card of `config` emits for `ev`, if any. */
  function Handle(config: Counties.IslandConfig, ev: Event): (r: Option<Action>)
    ensures r == Some(Hover(Some(config.id))) <==> ev == MouseEnter
    ensures r == Some(Hover(None)) <==> ev == MouseLeave
    ensures r == Some(Select(config.id)) <==> ev == Click || (ev.KeyDown? && IsActivationKey(ev.key))
    ensures r.None? <==> ev.KeyDown? && !IsActivationKey(ev.key)
  {
    match ev
    case MouseEnter => Some(Hover(Some(config.id)))
    case MouseLeave => Some(Hover(None))
    case Click => Some(Select(config.id))
    case KeyDown(key) => if IsActivationKey(key) then Some(Select(config.id)) else None
  }

  /** Every configured island card is labelled with its county's (non-empty) Chinese name. */
  lemma IslandCaptions(p: CardProps, geometry: seq<Geometry.Location>)
    requires p.config in Counties.Islands
    ensures Render(p, geometry).Some? ==>
      Render(p, geometry).value.caption == Counties.NamesZh[p.config.id] && Render(p, geometry).value.caption != ""
  {
    Counties.IslandsShape();
    Counties.NamesTotal();
    Counties.NamesNonEmpty();
  }

  /** The ids of the cards on screen, in screen order. */
  function Ids(cards: seq<CardView>): (r: seq<string>)
    ensures |r| == |cards| && forall i :: 0 <= i < |cards| ==> r[i] == cards[i].id
  {
    if cards == [] then [] else [cards[0].id] + Ids(cards[1..])
  }

  /** The configured islands the dataset has an outline for, in configuration order. */
  function PresentIds(configs: seq<Counties.IslandConfig>, geometry: seq<Geometry.Location>): seq<string> {
    if configs == [] then []
    else (if Geometry.Has(geometry, configs[0].id) then [configs[0].id] else []) + PresentIds(configs[1..], geometry)
  }

  lemma PresentIdsOfThree(configs: seq<Counties.IslandConfig>, geometry: seq<Geometry.Location>)
    requires |configs| == 3
    ensures PresentIds(configs, geometry) ==
      (if Geometry.Has(geometry, configs[0].id) then [configs[0].id] else []) +
      (if Geometry.Has(geometry, configs[1].id) then [configs[1].id] else []) +
      (if Geometry.Has(geometry, configs[2].id) then [configs[2].id] else [])
  {
    var t1, t2 := configs[1..], configs[2..];
    assert t1[0] == configs[1] && t1[1..] == t2;
    assert t2[0] == configs[2] && t2[1..] == [];
    assert PresentIds(t2, geometry) == (if Geometry.Has(geometry, configs[2].id) then [configs[2].id] else []);
  }

  /** With one of three configured islands missing from the dataset, exactly the other two remain, in order. */
  lemma PresentIdsSkipOne(configs: seq<Counties.IslandConfig>, geometry: seq<Geometry.Location>, k: nat)
    requires |configs| == 3 && k < 3
    requires !Geometry.Has(geometry, configs[k].id)
    requires forall j :: 0 <= j < 3 && j != k ==> Geometry.Has(geometry, configs[j].id)
    ensures var ids := [configs[0].id, configs[1].id, configs[2].id];
      PresentIds(configs, geometry) == ids[..k] + ids[k + 1..]
  {
    PresentIdsOfThree(configs, geometry);
    var ids := [configs[0].id, configs[1].id, configs[2].id];
    if k == 0 {
      assert ids[..k] + ids[k + 1..] == [ids[1], ids[2]];
    } else if k == 1 {
      assert ids[..k] + ids[k + 1..] == [ids[0], ids[2]];
    } else {
      assert ids[..k] + ids[k + 1..] == [ids[0], ids[1]];
    }
  }
}
