/**
 * The highlight state shared by the map and the island cards: two
 * independent nullable county identifiers, overwritten by the callbacks
 * the paths and cards emit, and the colour each county is drawn in.
 */
module HighlightModel {
  import opened Wrappers
  import opened Events
  import Counties

  const SelectedColor := "#3b82f6"
  const HoverColor := "#64748b"

  /** The value of the two `useState` fields `hoveredLocation` and `selectedLocation`. */
  datatype Highlight = Highlight(hovered: Option<string>, selected: Option<string>)

  /** Both fields start out `null`. */
  const Initial := Highlight(None, None)

  /** The state after a callback: `onHover` overwrites `hovered`, `onSelect` overwrites `selected`. */
  function Apply(s: Highlight, a: Action): (r: Highlight)
    ensures a.Hover? ==> r.hovered == a.hoverTarget && r.selected == s.selected
    ensures a.Select? ==> r.selected == Some(a.selectTarget) && r.hovered == s.hovered
  {
    match a
    case Hover(t) => s.(hovered := t)
    case Select(id) => s.(selected := Some(id))
  }

  /** The state after an event whose handler may emit nothing. */
  function Step(s: Highlight, a: Option<Action>): (r: Highlight)
    ensures a.None? ==> r == s
    ensures r.hovered == s.hovered || (a.Some? && a.value.Hover?)
    ensures r.selected == s.selected || (a.Some? && a.value.Select?)
    ensures s.selected.Some? ==> r.selected.Some?
  {
    match a
    case None => s
    case Some(act) => Apply(s, act)
  }

  /** The state after a series of callbacks, the earliest first. */
  function Run(s: Highlight, acts: seq<Action>): (r: Highlight)
    ensures (forall i :: 0 <= i < |acts| ==> acts[i].Select?) ==> r.hovered == s.hovered
    ensures (forall i :: 0 <= i < |acts| ==> acts[i].Hover?) ==> r.selected == s.selected
    decreases |acts|
  {
    if acts == [] then s else Run(Apply(s, acts[0]), acts[1..])
  }

  /** `getLocationColor(id)`. */
  function ColorFor(s: Highlight, id: string): (r: string)
    ensures Counties.IsHexColor(r)
  {
    if s.selected == Some(id) then SelectedColor
    else if s.hovered == Some(id) then HoverColor
    else Counties.BaseColor(id)
  }

  /** The info panel's three views. */
  datatype Panel =
    | SelectedView(title: string, subtitle: string, badgeColor: string)
    | Pointing(message: string)
    | Prompt

  /** The text shown by the prompt view. */
  const PromptText := "請選擇一個縣市"
  /** The text that starts the hover message. */
  const PointingPrefix := "指向："

  /** A selected county is drawn in the selection colour whatever the hover state. */
  lemma SelectionDominatesHover(h: Option<string>, id: string)
    ensures ColorFor(Highlight(h, Some(id)), id) == SelectedColor
  {
  }

  /** A hovered county that is not selected is drawn in the hover colour. */
  lemma HoverColorWhenNotSelected(s: Highlight, id: string)
    requires s.hovered == Some(id) && s.selected != Some(id)
    ensures ColorFor(s, id) == HoverColor
  {
  }

  /** A county neither selected nor hovered is drawn in its registry colour, or the default for an unknown id. */
  lemma BaseColorOtherwise(s: Highlight, id: string)
    requires s.hovered != Some(id) && s.selected != Some(id)
    ensures Counties.IsCountyId(id) ==> ColorFor(s, id) == Counties.Colors[id]
    ensures !Counties.IsCountyId(id) ==> ColorFor(s, id) == Counties.DefaultColor
  {
  }

  /** No registry colour and not the default coincides with a highlight colour. */
  lemma BaseNeverHighlight(id: string)
    ensures Counties.BaseColor(id) != SelectedColor && Counties.BaseColor(id) != HoverColor
  {
    if Counties.IsCountyId(id) {
      var i :| 0 <= i < |Counties.CountyIds| && Counties.CountyIds[i] == id;
      RegistryAvoidsHighlight();
      assert Counties.BaseColor(id) == Counties.Colors[Counties.CountyIds[i]];
    }
  }

  lemma RegistryAvoidsHighlight()
    ensures forall i :: 0 <= i < |Counties.CountyIds| ==>
      Counties.Colors[Counties.CountyIds[i]] != SelectedColor && Counties.Colors[Counties.CountyIds[i]] != HoverColor
  {
  }

  /**
   * The colour tells the state apart: a county shows the selection colour
   * exactly when it is selected, and the hover colour exactly when it is
   * hovered but not selected.
   */
  lemma ColorReflectsState(s: Highlight, id: string)
    ensures ColorFor(s, id) == SelectedColor <==> s.selected == Some(id)
    ensures ColorFor(s, id) == HoverColor <==> s.selected != Some(id) && s.hovered == Some(id)
  {
    BaseNeverHighlight(id);
  }

  /** Leaving clears the hover whatever it held and keeps the selection. */
  lemma LeaveClearsHover(s: Highlight)
    ensures Apply(s, Hover(None)) == Highlight(None, s.selected)
  {
  }

  /** There is no deselect: clicking the selected county again changes nothing. */
  lemma ReselectUnchanged(s: Highlight, id: string)
    requires s.selected == Some(id)
    ensures Apply(s, Select(id)) == s
  {
  }

  /** Entering and then leaving a county restores its colour, provided it was not already hovered. */
  lemma HoverThenLeaveRestores(s: Highlight, id: string)
    requires s.hovered != Some(id)
    ensures ColorFor(Apply(Apply(s, Hover(Some(id))), Hover(None)), id) == ColorFor(s, id)
  {
  }

  /** From a state with nothing hovered, entering and leaving a county restores every colour. */
  lemma HoverThenLeaveRestoresAll(s: Highlight, id: string, other: string)
    requires s.hovered.None?
    ensures Apply(Apply(s, Hover(Some(id))), Hover(None)) == s
    ensures ColorFor(Apply(Apply(s, Hover(Some(id))), Hover(None)), other) == ColorFor(s, other)
  {
  }

  /** A callback recolours only the counties it names or un-names. */
  lemma ActionRecoloursLocally(s: Highlight, a: Action, x: string)
    requires a.Hover? ==> a.hoverTarget != Some(x) && s.hovered != Some(x)
    requires a.Select? ==> a.selectTarget != x && s.selected != Some(x)
    ensures ColorFor(Apply(s, a), x) == ColorFor(s, x)
  {
  }

  /** Running one more callback after a series. */
  lemma {:induction false} RunSnoc(s: Highlight, acts: seq<Action>, a: Action)
    ensures Run(s, acts + [a]) == Apply(Run(s, acts), a)
    decreases |acts|
  {
    if acts != [] {
      assert (acts + [a])[1..] == acts[1..] + [a];
      RunSnoc(Apply(s, acts[0]), acts[1..], a);
    }
  }

  /** The target of the last select callback in `acts`, or `initial` when there is none. */
  function LastSelected(initial: Option<string>, acts: seq<Action>): Option<string> {
    if acts == [] then initial
    else
      var a := acts[|acts| - 1];
      if a.Select? then Some(a.selectTarget) else LastSelected(initial, acts[..|acts| - 1])
  }

  /** The target of the last hover callback in `acts`, or `initial` when there is none. */
  function LastHovered(initial: Option<string>, acts: seq<Action>): Option<string> {
    if acts == [] then initial
    else
      var a := acts[|acts| - 1];
      if a.Hover? then a.hoverTarget else LastHovered(initial, acts[..|acts| - 1])
  }

  /**
   * After any series of callbacks, `selected` holds the last select target
   * and `hovered` the last hover target; each field is untouched by the
   * other kind of callback.
   */
  lemma {:induction false} RunIsLastWrite(s: Highlight, acts: seq<Action>)
    ensures Run(s, acts).selected == LastSelected(s.selected, acts)
    ensures Run(s, acts).hovered == LastHovered(s.hovered, acts)
    decreases |acts|
  {
    if acts != [] {
      var init := acts[..|acts| - 1];
      assert init + [acts[|acts| - 1]] == acts;
      RunSnoc(s, init, acts[|acts| - 1]);
      RunIsLastWrite(s, init);
    }
  }

  /** Once a county is selected, no series of callbacks clears the selection. */
  lemma SelectionIsSticky(s: Highlight, acts: seq<Action>)
    requires s.selected.Some?
    ensures Run(s, acts).selected.Some?
  {
    RunIsLastWrite(s, acts);
    LastSelectedSome(s.selected, acts);
  }

  lemma {:induction false} LastSelectedSome(initial: Option<string>, acts: seq<Action>)
    requires initial.Some?
    ensures LastSelected(initial, acts).Some?
    decreases |acts|
  {
    if acts != [] {
      LastSelectedSome(initial, acts[..|acts| - 1]);
    }
  }

  /** From the start, selecting kinmen draws it in the selection colour while penghu keeps its base colour. */
  lemma SelectKinmenScenario()
    ensures ColorFor(Apply(Initial, Select("kinmen-county")), "kinmen-county") == "#3b82f6"
    ensures ColorFor(Apply(Initial, Select("kinmen-county")), "penghu-county") == "#a0c4ff"
  {
  }

  /** At the start nothing is highlighted: every county shows its base colour. */
  lemma InitialShowsBase(id: string)
    ensures ColorFor(Initial, id) == Counties.BaseColor(id)
  {
  }

  /** The single owner of the highlight state. */
  class HighlightState {
    var hovered: Option<string>
    var selected: Option<string>

    function View(): Highlight
      reads this
    {
      Highlight(hovered, selected)
    }

    /** Mounting: both `useState(null)`. */
    constructor ()
      ensures View() == Initial
    {
      hovered := None;
      selected := None;
    }

    /** `handleHover` / `setHoveredLocation`: replaces `hovered`, `null` included. */
    method SetHovered(id: Option<string>)
      modifies this
      ensures hovered == id && selected == old(selected)
    {
      hovered := id;
    }

    /** `handleSelect` / `setSelectedLocation`: replaces `selected`. */
    method SetSelected(id: string)
      modifies this
      ensures selected == Some(id) && hovered == old(hovered)
    {
      selected := Some(id);
    }

    /** Delivers what a path's or card's handler emitted to the matching setter; nothing emitted changes nothing. */
    method Deliver(a: Option<Action>)
      modifies this
      ensures View() == Step(old(View()), a)
    {
      match a
      case None =>
      case Some(Hover(t)) => SetHovered(t);
      case Some(Select(id)) => SetSelected(id);
    }
  }
}
