# Taiwan county map: highlight state, colours, registries and wiring

A Dafny model of the interactive map of Taiwan's 22 counties. The map shows
one outline per record of an external geometry dataset and three zoomed cards
for the offshore islands (Penghu, Kinmen, Lienchiang). One piece of state
drives everything: two independent nullable county ids, `hovered` and
`selected`. Pointer and keyboard events on outlines and cards overwrite them.
Every outline and card is then recoloured from that state: the selection
colour first, then the hover colour, then the county's registry colour, then
a neutral default. An info panel shows the selected county, a hover message
or a prompt.

Two versions of the component are modelled:

- `Demo` is the earlier single-file version (`src/TaiwanMapDemo.tsx`).
- `TaiwanMap` is the refactored version (`src/components/TaiwanMap/index.tsx`).
  It uses `LocationPath` and `IslandCard` for the outlines and cards.

Both use the shared state model `HighlightModel` and the registry `Counties`
(`src/constants/taiwan.ts`). `Versions` proves where the two versions agree
and where their info panels differ:

- A hovered id the dataset lacks: the earlier panel shows the prompt, the
  refactored one the hover message.
- A selected id the dataset holds but the registry lacks: the earlier
  panel's title is the id itself, the refactored one's is empty.
- A hovered id the dataset holds but the registry lacks: the earlier panel
  shows "指向：" and the id, the refactored one "指向：undefined".

On county ids the dataset holds, the two panels agree.

Modules, leaf first:

- `Wrappers`: `Option`, standing for `null` / `undefined`.
- `Jsx`: the JavaScript and React rules the code relies on. A string is truthy
  when it is non-empty, and that decides `||`. `undefined` renders as no text
  in JSX but as the word "undefined" inside a template literal. A `null`
  child renders nothing.
- `Geometry`: the dataset's record shape `{id, path, name?}` and `Array.find`.
  The dataset is any `seq` of records, and path strings are never interpreted.
- `ViewBox`: the "x y width height" crop strings, with a parser and a printer.
- `Counties`: `CountyId`, `COUNTY_NAMES_ZH`, `COUNTY_COLORS`, `DEFAULT_COLOR`,
  `ISLAND_CONFIG`.
- `Events`: mouse enter, mouse leave, click and key down. Handlers answer with
  an `onHover(id | null)` or `onSelect(id)` callback.
- `HighlightModel`: the state as a value, how callbacks update it (`Apply`, `Run`),
  `getLocationColor` (`ColorFor`), the info panel's views, and the class
  `HighlightState` that owns the two fields.
- `LocationPath`, `IslandCard`: the two presentational components. Each one
  turns props into attributes and events into callbacks.
- `TaiwanMap`, `Demo`: the two top-level components.
- `Versions`: lemmas comparing the two.

Three behaviours of the code worth noting:

- The panel shows the selected view only when the selected id is found in
  the dataset.
- In the earlier version, the hover message also needs the hovered id to be
  in the dataset. The refactored version shows it whenever `hovered` is a
  non-empty string, and it looks the name up in the registry without a
  fallback. For an id outside the registry the message reads "指向：undefined".
- Ids are plain strings. The refactored code casts dataset ids with
  `as CountyId` and never checks the cast, so any string can reach the state.

The earlier file keeps its own copies of the name table, the colour table,
the default colour and the island list (`src/TaiwanMapDemo.tsx:13-71`). They
match `src/constants/taiwan.ts` entry for entry, so they are modelled once,
in `Counties`.

## Model

| member | source | states |
|---|---|---|
| `Jsx.Rendered` | src/TaiwanMapDemo.tsx:165-167 | the on-screen children are at most the list's length; each comes from a present child and every present child appears; a list with no `null` keeps its length |
| `Jsx.RenderedAppend` | src/components/TaiwanMap/index.tsx:90-100 | rendering a child list in two pieces yields the two renderings concatenated, so order is kept |
| `Geometry.Find` | src/TaiwanMapDemo.tsx:110-111 | `find` returns `None` exactly when no record's id equals the target (so a `null` target finds nothing); otherwise it returns the first matching record |
| `Geometry.FindHas` | src/TaiwanMapDemo.tsx:166-167 | the lookup for an id succeeds exactly when the dataset holds a record with that id |
| `Counties.CountyIdsDistinct` | src/constants/taiwan.ts:5-27 | `CountyId` has exactly 22 members and no two are equal |
| `Counties.CountyIdsNonEmpty` | src/constants/taiwan.ts:5-27 | no county id is the empty string, so every county id is truthy |
| `Counties.NamesTotal` | src/constants/taiwan.ts:29-52 | the name table has a key for every county id and for nothing else |
| `Counties.NamesNonEmpty` | src/constants/taiwan.ts:29-52 | every Chinese name is non-empty, so a `||` fallback fires only for unknown ids |
| `Counties.ColorsTotal` | src/constants/taiwan.ts:54-77 | the colour table has a key for every county id and for nothing else |
| `Counties.ColorsAreHex` | src/constants/taiwan.ts:54-77 | every registry colour is `#` followed by six hex digits |
| `Counties.BaseColor` | src/components/TaiwanMap/index.tsx:33 | the registry lookup with its default fallback (also at src/TaiwanMapDemo.tsx:81, over the tables of src/constants/taiwan.ts:54-79) is the county's own colour for a county id and `#e2e8f0` for any other id; it is always a hex colour |
| `Counties.NameZh` | src/components/TaiwanMap/LocationPath.tsx:14 | `COUNTY_NAMES_ZH[id]` is defined exactly for the county ids, and then it is that county's entry in the name table |
| `Counties.IslandsShape` | src/constants/taiwan.ts:86-90 | exactly three island entries, penghu, kinmen, lienchiang in that order, pairwise distinct and all county ids |
| `Counties.IslandViewBoxesWellFormed` | src/constants/taiwan.ts:87-89 | every island crop parses as four integers with positive width and height |
| `Counties.PenghuCrop` | src/constants/taiwan.ts:87 | the penghu crop denotes x 280, y 755, width 115, height 182 |
| `Counties.KinmenCrop` | src/constants/taiwan.ts:88 | the kinmen crop denotes x 0, y 400, width 340, height 190 |
| `Counties.LienchiangCrop` | src/constants/taiwan.ts:89 | the lienchiang crop denotes x 445, y 0, width 165, height 140 |
| `Counties.IslandBaseColors` | src/constants/taiwan.ts:74-75 | the base colours of penghu and kinmen are `#a0c4ff` and `#bdb2ff` |
| `ViewBox.ParseFormat` | src/TaiwanMapDemo.tsx:66 | parsing the "x y width height" string printed for any rectangle returns that rectangle |
| `HighlightModel.ColorFor` | src/TaiwanMapDemo.tsx:78-82 | every colour `getLocationColor` returns is a hex colour |
| `HighlightModel.Apply` | src/components/TaiwanMap/index.tsx:27-28 | a hover callback sets `hovered` to its target, null included, and keeps `selected`; a select callback sets `selected` to its id and keeps `hovered` |
| `HighlightModel.Step` | src/TaiwanMapDemo.tsx:152-154 | an event that emits nothing leaves the state alone; only a hover callback changes `hovered`, only a select callback changes `selected`, and no event clears a selection |
| `HighlightModel.Run` | src/TaiwanMapDemo.tsx:74-75 | a series of hover callbacks only never changes `selected`, and a series of select callbacks only never changes `hovered` |
| `HighlightModel.SelectionDominatesHover` | src/TaiwanMapDemo.tsx:79 | a selected county is `#3b82f6` whatever the hover state holds |
| `HighlightModel.HoverColorWhenNotSelected` | src/TaiwanMapDemo.tsx:80 | a hovered county that is not selected is `#64748b` |
| `HighlightModel.BaseColorOtherwise` | src/TaiwanMapDemo.tsx:81 | a county neither selected nor hovered shows its registry colour, and an unknown id shows `#e2e8f0` |
| `HighlightModel.RegistryAvoidsHighlight` | src/constants/taiwan.ts:54-77 | no registry colour equals the selection or the hover colour |
| `HighlightModel.BaseNeverHighlight` | src/constants/taiwan.ts:54-79 | no base colour, default included, equals the selection or the hover colour |
| `HighlightModel.ColorReflectsState` | src/components/TaiwanMap/index.tsx:30-34 | a county shows `#3b82f6` if and only if it is selected, and `#64748b` if and only if it is hovered and not selected |
| `HighlightModel.LeaveClearsHover` | src/TaiwanMapDemo.tsx:153 | leaving sets `hovered` to null whatever it held and keeps `selected` |
| `HighlightModel.ReselectUnchanged` | src/TaiwanMapDemo.tsx:154 | clicking the selected county again leaves the state unchanged (there is no deselect) |
| `HighlightModel.HoverThenLeaveRestores` | src/TaiwanMapDemo.tsx:152-153 | entering and then leaving a county that was not hovered restores its colour |
| `HighlightModel.HoverThenLeaveRestoresAll` | src/components/TaiwanMap/index.tsx:27 | from a state with nothing hovered, entering and leaving restores the whole state, and so every colour |
| `HighlightModel.ActionRecoloursLocally` | src/components/TaiwanMap/index.tsx:30-34 | a callback changes the colour of no county other than the one it names and the one it un-names |
| `HighlightModel.RunIsLastWrite` | src/TaiwanMapDemo.tsx:74-75 | after any series of callbacks, `selected` is the last select target and `hovered` the last hover target, or the initial values when there are none |
| `HighlightModel.SelectionIsSticky` | src/TaiwanMapDemo.tsx:186 | once something is selected, no series of callbacks clears the selection |
| `HighlightModel.SelectKinmenScenario` | src/TaiwanMapDemo.tsx:79-81 | from the start, selecting kinmen shows kinmen as `#3b82f6` while penghu keeps `#a0c4ff` |
| `HighlightModel.InitialShowsBase` | src/components/TaiwanMap/index.tsx:24-25 | before any event every county shows its base colour |
| `HighlightModel.HighlightState.constructor` | src/TaiwanMapDemo.tsx:74-75 | both fields start out null |
| `HighlightModel.HighlightState.SetHovered` | src/components/TaiwanMap/index.tsx:27 | `handleHover` sets `hovered` to its argument, null included, and leaves `selected` |
| `HighlightModel.HighlightState.SetSelected` | src/components/TaiwanMap/index.tsx:28 | `handleSelect` sets `selected` to its argument and leaves `hovered` |
| `HighlightModel.HighlightState.Deliver` | src/components/TaiwanMap/index.tsx:80-81 | a callback a handler emits reaches the matching setter; an event that emits nothing changes nothing |
| `LocationPath.Render` | src/components/TaiwanMap/LocationPath.tsx:7-22 | id, name, path and fill pass through; stroke width is "2" exactly when selected and "1" otherwise; the drop shadow exactly when selected; the aria-label is the county's Chinese name |
| `LocationPath.Handle` | src/components/TaiwanMap/LocationPath.tsx:23-30 | enter gives `onHover(id)`, leave `onHover(null)`, click or Enter/Space `onSelect(id)`; any other key gives nothing, and no key gives a hover |
| `IslandCard.Render` | src/components/TaiwanMap/IslandCard.tsx:6-47 | no card exactly when the dataset lacks the island; otherwise the thumbnail uses the config's crop, the dataset's path and the fill prop unchanged; border `#3b82f6` when selected and `#e2e8f0` otherwise; background `#f1f5f9` when hovered and `white` otherwise; caption colour `#3b82f6` when selected and `#334155` otherwise; the raised shadow exactly when selected |
| `IslandCard.Handle` | src/components/TaiwanMap/IslandCard.tsx:26-33 | enter gives `onHover(config.id)`, leave `onHover(null)`, click or Enter/Space `onSelect(config.id)`, any other key nothing |
| `IslandCard.IslandCaptions` | src/components/TaiwanMap/IslandCard.tsx:41-43 | a configured island's card is captioned with its non-empty Chinese name |
| `IslandCard.PresentIdsSkipOne` | src/components/TaiwanMap/IslandCard.tsx:7-8 | of three entries with exactly one missing from the dataset, exactly the other two remain, in order |
| `TaiwanMap.MapPaths` | src/components/TaiwanMap/index.tsx:72-83 | one outline per record, in dataset order, each the `LocationPath` rendering of that record's props, with the record's id and path; the name `loc.name` or '' when it is missing or empty; the aria-label `COUNTY_NAMES_ZH[id]`; fill is `getLocationColor(id)`; stroke width "2" exactly when selected |
| `TaiwanMap.PathPropsFor` | src/components/TaiwanMap/index.tsx:73-82 | the props an outline receives are consistent: `isSelected` holds exactly when its fill is the selection colour `#3b82f6` |
| `TaiwanMap.CardPropsFor` | src/components/TaiwanMap/index.tsx:91-99 | the props a card receives are consistent: `isSelected` holds exactly when its fill is `#3b82f6`, and `isHovered` without `isSelected` exactly when its fill is the hover colour `#64748b` |
| `TaiwanMap.CardsFor` | src/components/TaiwanMap/index.tsx:90-100 | one card child per island entry; it is present exactly when the dataset has the island; fill from the shared state; border `#3b82f6` when selected and `#e2e8f0` otherwise; background `#f1f5f9` when hovered and `white` otherwise |
| `TaiwanMap.IslandCards` | src/components/TaiwanMap/index.tsx:90-100 | the real island list yields three children, penghu, kinmen and lienchiang, each present exactly when the dataset has that county |
| `TaiwanMap.CardsOnScreen` | src/components/TaiwanMap/IslandCard.tsx:7-8 | the cards on screen are the islands the dataset has, in configuration order |
| `TaiwanMap.MissingIslandSkipped` | src/components/TaiwanMap/index.tsx:90-100 | with one island missing from the dataset, exactly the other two cards appear, in order |
| `TaiwanMap.PathAndCardShareFill` | src/components/TaiwanMap/index.tsx:78-96 | an outline and a card of the same county get the same fill |
| `TaiwanMap.InfoPanel` | src/components/TaiwanMap/index.tsx:104-121 | the selected view exactly when the selected id is in the dataset (badge `#3b82f6`, registry name as title, the record's raw name followed by " (En)" as subtitle); otherwise the hover message exactly when `hovered` is truthy, with no dataset lookup; otherwise the prompt |
| `TaiwanMap.PointingNamesCounty` | src/components/TaiwanMap/index.tsx:118 | hovering a county id with nothing selected found gives "指向：" followed by its Chinese name |
| `TaiwanMap.EnterLeaveOnPath` | src/components/TaiwanMap/LocationPath.tsx:23-24 | the callbacks an outline emits for enter and leave restore that outline's colour |
| `TaiwanMap.ActivationSelects` | src/components/TaiwanMap/IslandCard.tsx:28-33 | click or Enter/Space on a card or an outline selects the county, which then shows `#3b82f6` |
| `TaiwanMap.CardWiredLikePath` | src/components/TaiwanMap/IslandCard.tsx:26-33 | a card and an outline of the same county answer every event with the same callback |
| `TaiwanMap.OnPathEvent` | src/components/TaiwanMap/index.tsx:80-81 | an outline event updates the shared state by its handler's callback; leave clears `hovered` only; other keys change nothing |
| `TaiwanMap.OnCardEvent` | src/components/TaiwanMap/index.tsx:97-98 | a card event updates the shared state by its handler's callback; a click selects the card's county and keeps `hovered` |
| `Demo.ZhName` | src/TaiwanMapDemo.tsx:113-116 | `getZhName` gives '' for a null or empty id, the non-empty Chinese name for a county id, and the id itself for any other id |
| `Demo.MapPaths` | src/TaiwanMapDemo.tsx:138-156 | one outline per record, in dataset order, with the record's id, path and name; fill is `getLocationColor(id)`; stroke width always "1" |
| `Demo.Handle` | src/TaiwanMapDemo.tsx:152-154 | enter gives a hover of the id, leave a hover of null, click a select of the id; key presses give nothing |
| `Demo.CardFor` | src/TaiwanMapDemo.tsx:165-209 | no card exactly when the dataset lacks the island; otherwise the config's crop and the state's fill; border `#3b82f6` when selected and `#e2e8f0` otherwise; background `#f1f5f9` when hovered and `white` otherwise; caption colour always `#334155`; no raised shadow |
| `Demo.CardsFor` | src/TaiwanMapDemo.tsx:165-210 | one child per island entry, present exactly when the dataset has the island |
| `Demo.IslandCards` | src/TaiwanMapDemo.tsx:165-210 | the real island list yields three children, penghu, kinmen and lienchiang, each present exactly when the dataset has that county |
| `Demo.CardsOnScreen` | src/TaiwanMapDemo.tsx:166-167 | the cards on screen are the islands the dataset has, in configuration order |
| `Demo.MissingIslandSkipped` | src/TaiwanMapDemo.tsx:165-210 | with one island missing from the dataset, exactly the other two cards appear, in order |
| `Demo.InfoPanel` | src/TaiwanMapDemo.tsx:215-236 | the selected view exactly when the selected id is in the dataset (badge `#3b82f6`, `getZhName` title, the record's raw name followed by " (En)" as subtitle); else "指向：" and the name exactly when the hovered id is in the dataset; else the prompt |
| `Demo.InitialView` | src/TaiwanMapDemo.tsx:231-235 | before any event the panel shows the prompt and every county its base colour |
| `Demo.OnEvent` | src/TaiwanMapDemo.tsx:184-186 | an outline or card event updates the state by its inline handler; key presses change nothing |
| `Versions.SameMapColours` | src/components/TaiwanMap/index.tsx:78 | both versions fill every outline alike |
| `Versions.SameCard` | src/components/TaiwanMap/IslandCard.tsx:11-46 | both versions draw an island's card alike, except the caption colour and the raised shadow |
| `Versions.SameCards` | src/components/TaiwanMap/index.tsx:90-100 | both versions show the same island cards, equal except the caption colour and the raised shadow |
| `Versions.KeyboardIsTheOnlyNewWiring` | src/components/TaiwanMap/LocationPath.tsx:26-30 | pointer events are handled alike in both versions; only the refactored one reacts to keys, and then only Enter/Space, with a select |
| `Versions.OtherSpellingsIgnored` | src/components/TaiwanMap/IslandCard.tsx:30 | keys are compared exactly: `enter`, `Spacebar` and `Space` select nothing on an outline or a card |
| `Versions.HoverMessageWithoutLookup` | src/components/TaiwanMap/index.tsx:118 | for a hovered id not in the dataset, with nothing selected found, the refactored panel shows the hover message where the earlier one shows the prompt |
| `Versions.PanelsDifferOffRegistry` | src/TaiwanMapDemo.tsx:115 | for an id the dataset holds but the registry lacks, the earlier panel's title and hover message use the id itself, while the refactored panel's title is empty and its message reads "指向：undefined" (src/components/TaiwanMap/index.tsx:107,118) |
| `Versions.PanelsAgreeOnCounties` | src/components/TaiwanMap/index.tsx:105-121 | when the selected id is a county id and the hovered id is a county id in the dataset, both versions show the same panel |
| `Versions.KnownName` | src/TaiwanMapDemo.tsx:115 | for a county id, `getZhName` and the plain registry lookup give the same text |

## Left out

- SVG and DOM output, JSX layout, CSS values, transitions, shadows and the page header and GitHub link. They are visual output. Only the discrete style choices (border, background, caption colour, stroke width, drop shadow, raised card) are kept.
- `src/components/TaiwanMap/styles.ts` and `src/components/ui/Highlight.tsx` are not part of this model. They are a style table and a span wrapper.
- `src/components/TaiwanMap/types.ts` and `src/vite-env.d.ts` declare types only. The second gives the shape of `Geometry.Location`.
- The `@svg-maps/taiwan` data: its path strings and its overall `viewBox`. The dataset is an arbitrary sequence of records whose paths are never read.
- `React.memo`, `useCallback`, `useMemo`: memoisation with no effect on what is shown.
- React's scheduling and batching of state updates: each callback is applied at once, in event order.
- Object-prototype keys: in JavaScript, `COUNTY_NAMES_ZH['toString']` finds an inherited function. The model's tables hold only their own entries. Dataset ids are assumed not to be such names.
- The `name` attribute of an outline in the refactored version is `loc.name || ''`. The props are modelled, but not how the browser prints the attribute.
- `ViewBox.Parse` reads only unsigned decimal integers separated by single spaces. That covers every crop constant in the source, but not the full SVG number syntax (signs, decimals, commas).
- The info panel's English subtitle, `{name} (En)`, is modelled as text. Its styling is not.
