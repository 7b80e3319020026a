/**
 * One county outline on the main map: its attributes follow from its
 * props, and its handlers turn events into hover and select callbacks.
 */
module LocationPath {
  import opened Wrappers
  import opened Events
  import Counties

  datatype PathProps = PathProps(id: string, name: string, d: string, fill: string, isSelected: bool)

  /** The discrete attributes of a rendered outline; `None` marks an attribute that is absent. */
  datatype PathView = PathView(
    id: string, name: Option<string>, d: string, fill: string,
    strokeWidth: string, dropShadow: bool, ariaLabel: Option<string>)

  /** The outline a `LocationPath` draws. */
  function Render(p: PathProps): (r: PathView)
    ensures r.id == p.id && r.name == Some(p.name) && r.d == p.d && r.fill == p.fill
    ensures r.strokeWidth == "2" <==> p.isSelected
    ensures r.strokeWidth == "1" <==> !p.isSelected
    ensures r.dropShadow <==> p.isSelected
    ensures r.ariaLabel == Counties.NameZh(p.id)
    ensures Counties.IsCountyId(p.id) ==> r.ariaLabel == Some(Counties.NamesZh[p.id])
  {
    Counties.NamesTotal();
    PathView(p.id, Some(p.name), p.d, p.fill, if p.isSelected then "2" else "1",
             p.isSelected, Counties.NameZh(p.id))
  }

  /** The callback the outline of `id` emits for `ev`, if any. */
  function Handle(id: string, ev: Event): (r: Option<Action>)
    ensures r == Some(Hover(Some(id))) <==> ev == MouseEnter
    ensures r == Some(Hover(None)) <==> ev == MouseLeave
    ensures r == Some(Select(id)) <==> ev == Click || (ev.KeyDown? && IsActivationKey(ev.key))
    ensures r.None? <==> ev.KeyDown? && !IsActivationKey(ev.key)
    ensures ev.KeyDown? ==> !(r.Some? && r.value.Hover?)
  {
    match ev
    case MouseEnter => Some(Hover(Some(id)))
    case MouseLeave => Some(Hover(None))
    case Click => Some(Select(id))
    case KeyDown(key) => if IsActivationKey(key) then Some(Select(id)) else None
  }
}
