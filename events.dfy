/**
 * What a map path or an island card can receive (pointer enter and leave,
 * click, a key press) and the two callbacks it can emit in response.
 */
module Events {
  import opened Wrappers

  datatype Event = MouseEnter | MouseLeave | Click | KeyDown(key: string)

  /** `onHover(id)` (a `null` id clears the hover) and `onSelect(id)`. */
  datatype Action = Hover(hoverTarget: Option<string>) | Select(selectTarget: string)

  /** The keys a focused path or card treats as activation: `Enter` and the space bar. */
  predicate IsActivationKey(key: string) {
    key == "Enter" || key == " "
  }
}
