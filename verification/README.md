# Sidebar navigation: slim rail and root toggler

A Dafny model of the presentation logic of a collapsible sidebar navigation
written as two React class components:

- `NavTogglerComponent`, the root controller. It reads two persisted boolean
  preferences (`NavToggler.isNavCollapsed`, `NavToggler.showMore`) and the
  viewport width at mount. It splits the incoming link groups into the
  "ToggleGroup" and the rest, and draws the collapse/expand control from the
  first link of the first toggle group. It hands the other groups to the slim
  strategy (collapsed) or the wide one (expanded). It owns the two
  flip-and-persist handlers.
- `SlimNavComponent`, the collapsed icon-rail strategy. It decides which links
  of each group are drawn (the show-more visibility filter). It builds each
  rail entry and the floating submenu beside it, applies the click and hover
  rules, and runs an Enter-key state machine that keeps at most one floating
  submenu shown.

Modules, one per concept:

- `Wrappers`: `Option`, standing for `undefined`.
- `Seqs`: `Keep`, which selects elements by a boolean mask. It is the
  reference form of an order-preserving filter.
- `LinkTree`: links, groups, handlers, event effects, strategy props, and the
  base-class helpers `isLinkSelected`, `getLinkText` and
  `hasAtleastOneVisibleLink`. These helpers are function-valued parameters,
  so the model states nothing about their definitions.
- `SlimNav`: the slim strategy.
- `NavToggler`: the root controller.
- `NavScenarios`: concrete link trees worked through the model.

The preference store is a `map<string, string>`. The viewport width is an
`int` parameter. The DOM lookup of a rail entry's floating container becomes
an optional `AnchorId` carried by the key event. The container's
`style="display: block"` marking is membership in a set of shown anchors.
The `_prevFloatingNav` field is `prev: Option<AnchorId>`.

Behaviour of the code worth knowing, each with the lemma that states it:

- The hidden-link flag of the visibility filter is reset once per render
  pass (`SlimNav.tsx:37`), not once per group. A hidden link in an earlier
  group therefore keeps a later group's show-more link drawn
  (`RenderFollowsRule`, `HiddenInEarlierGroupReachesLaterGroup`).
- The initial collapse is `stored == "true" || width < 720`. A stored
  `"false"` does not override a narrow viewport
  (`NarrowViewportStartsCollapsed`).
- A hidden link followed by a show-more link, with show-more off, draws the
  show-more link: the hidden link is dropped and sets the flag the show-more
  link reads (`HiddenThenShowMore`).
- Two collapse clicks restore the state. They restore the stored string only
  when the key already held the state's encoding. With an empty store, the key ends up
  holding `"false"` (`CollapseTwiceRestores`, `CollapseTwiceFromEmptyStore`).
- Hovering a rail entry clears `scrollTop` on the link object of the props
  itself, and the next render draws that entry's floating container with the
  flag cleared (`HoverClearsScrollTopForNextRender`).
- Floating submenus draw a link's children unfiltered. Hidden children appear
  there even with show-more off (`FloatingSubmenuShape`).

## Model

| member | source | states |
|---|---|---|
| `SlimNav.FilterLinks` | src/components/layout/Sidebar/Nav/SlimNav.tsx:277-306 | the outgoing hidden-link flag is the incoming one or (show-more off and some link hidden), so it never goes back to false; the drawn links are drawn from the input, and with show-more off none of them is hidden |
| `SlimNav.FilterLinksFollowsRule` | src/components/layout/Sidebar/Nav/SlimNav.tsx:286-303 | the drawn links are exactly, and in input order, the positions where the per-link rule holds with "hidden link seen" = incoming flag or a hidden link earlier in the list |
| `SlimNav.ShowMoreDrawsAll` | src/components/layout/Sidebar/Nav/SlimNav.tsx:286-303 | with show-more on, the output equals the input list and the flag is unchanged |
| `SlimNav.ShowMoreLinkRule` | src/components/layout/Sidebar/Nav/SlimNav.tsx:293-301 | with show-more off, a non-hidden link is dropped iff it is a show-more link and no hidden link was seen before it |
| `SlimNav.RenderGroup` | src/components/layout/Sidebar/Nav/SlimNav.tsx:308-340 | a group without links draws nothing and leaves the flag alone; a header is drawn only after the first group; the flag advances as the filter says |
| `SlimNav.Render` | src/components/layout/Sidebar/Nav/SlimNav.tsx:28-46 | no groups draws nothing; otherwise one entry per group |
| `SlimNav.RenderFollowsRule` | src/components/layout/Sidebar/Nav/SlimNav.tsx:28-46 | every group of a pass is drawn as the reference rule says, with hidden links of all earlier groups counting as seen, because the flag is reset once per pass |
| `SlimNav.ClickHandler` | src/components/layout/Sidebar/Nav/SlimNav.tsx:244-247 | a show-more link with a supplied callback is wired to that callback; every other link to the click rule for itself |
| `SlimNav.RightIconName` | src/components/layout/Sidebar/Nav/SlimNav.tsx:130-134 | the OpenInNewWindow icon is shown iff the url is a non-empty string and the target is `_blank` |
| `SlimNav.RenderCompositeLink` | src/components/layout/Sidebar/Nav/SlimNav.tsx:130-148 | a floating link keeps its key and nesting level; it is never selected at level 0 and, below it, selected exactly when the base helper says so without descendants; the open-in-new-window icon appears exactly for a link with a url and a `_blank` target; the click goes to the supplied show-more callback for a show-more link when one is given, otherwise to the strategy's own link handler |
| `SlimNav.RenderFloatingLink` | src/components/layout/Sidebar/Nav/SlimNav.tsx:170-205 | a floating list item is titled with the link text and holds the composite link at the given level, wired to the link's click handler; only a level-0 item draws children, one per child link in order, each at level 1 with no children of its own |
| `SlimNav.RenderFloatingNav` | src/components/layout/Sidebar/Nav/SlimNav.tsx:207-226 | the container is marked as having children exactly when the link has some, carries the link's `scrollTop`, and holds the link itself as an unselected level-0 item with one entry per child |
| `SlimNav.RenderLink` | src/components/layout/Sidebar/Nav/SlimNav.tsx:228-275 | the rail entry is highlighted with descendants included, has children iff the link does, is wired through the click-handler rule (so a show-more link with a supplied callback gets that callback), and its floating container carries the link's `scrollTop` |
| `SlimNav.FloatingSubmenuShape` | src/components/layout/Sidebar/Nav/SlimNav.tsx:170-205 | the submenu is the link at level 0 (never selected) holding all its children at level 1, each selected per the base helper without descendants, wired to its own click handler, and childless; depth at most 1, exactly 1 iff the link has children |
| `SlimNav.OnKeyDown` | src/components/layout/Sidebar/Nav/SlimNav.tsx:86-121 | a non-Enter key or a missing container changes nothing; Enter records the container in `prev` and leaves every marking other than the current and previous container as it was; Enter on a container other than `prev` shows it and hides the one `prev` recorded |
| `SlimNav.EnterOnPrevToggles` | src/components/layout/Sidebar/Nav/SlimNav.tsx:101-107 | Enter on the recorded container flips only its marking, keeps `prev`, and twice restores the state |
| `SlimNav.EnterOnOtherSwitches` | src/components/layout/Sidebar/Nav/SlimNav.tsx:108-120 | from a state satisfying the invariant, Enter on another container leaves only it shown and records it |
| `SlimNav.OnKeyDownKeepsAtMostOneShown` | src/components/layout/Sidebar/Nav/SlimNav.tsx:86-121 | the handler preserves "every shown container is the recorded one" |
| `SlimNav.AtMostOneShownBound` | src/components/layout/Sidebar/Nav/SlimNav.tsx:108-120 | under that invariant at most one container is shown |
| `SlimNav.RunKeepsAtMostOneShown` | src/components/layout/Sidebar/Nav/SlimNav.tsx:250-254 | after any sequence of key, hover and click events the invariant still holds and at most one submenu is shown |
| `SlimNav.Init` | src/components/layout/Sidebar/Nav/SlimNav.tsx:19-26 | the selected key at mount is the initial key when non-empty, else the selected key; nothing is shown and the invariant holds |
| `SlimNav.OnLinkClicked` | src/components/layout/Sidebar/Nav/SlimNav.tsx:48-70 | the link becomes selected; its callback runs iff it has no children and one is defined; default is prevented iff it has children; propagation is always stopped; submenu state is untouched |
| `SlimNav.OnLinkMouseEnterOrLeave` | src/components/layout/Sidebar/Nav/SlimNav.tsx:72-80 | only the link's scrollTop is cleared and the expand-changed flag set; selection and submenu state are untouched; both event effects are applied |
| `SlimNav.HoverClearsScrollTopForNextRender` | src/components/layout/Sidebar/Nav/SlimNav.tsx:72-80 | a hover clears `scrollTop` on exactly the hovered link of the props, so the next render draws its floating container with the flag cleared (line 217); selection and floating state are unchanged |
| `SlimNav.Step` | src/components/layout/Sidebar/Nav/SlimNav.tsx:244-254 | hover and click never change the floating submenu state; only a hover changes the props, and never the show-more flag, selected key, callback or number of groups; a click selects the clicked link unless it is a show-more link with a supplied callback, in which case the callback decides: the strategy's own handler for another link selects that link, any other callback leaves the widget unchanged |
| `SlimNav.ShowMoreClickKeepsSelection` | src/components/layout/Sidebar/Nav/SlimNav.tsx:145-148 | clicking a show-more link wired to the supplied callback leaves the strategy's state unchanged |
| `NavToggler.Init` | src/components/layout/Sidebar/Nav/NavToggler.tsx:34-43 | the widget mounts collapsed exactly when the store holds the string "true" under the collapse key or the viewport is narrower than 720, and with show-more on exactly when the store holds "true" under the show-more key |
| `NavToggler.NarrowViewportStartsCollapsed` | src/components/layout/Sidebar/Nav/NavToggler.tsx:37-39 | a viewport narrower than 720 always starts collapsed, whatever is stored |
| `NavToggler.WideViewportFollowsStore` | src/components/layout/Sidebar/Nav/NavToggler.tsx:37-39 | on a wide viewport the widget starts collapsed iff the stored string is exactly "true" |
| `NavToggler.ShowMoreStartsFromExactTrue` | src/components/layout/Sidebar/Nav/NavToggler.tsx:40 | show-more starts on iff the stored string is exactly "true" ("True" does not count) |
| `NavToggler.ToggleNavGroups` | src/components/layout/Sidebar/Nav/NavToggler.tsx:58-61 | the result holds exactly the input's "ToggleGroup" groups |
| `NavToggler.NonToggleNavGroups` | src/components/layout/Sidebar/Nav/NavToggler.tsx:62-65 | the result holds exactly the input's other groups |
| `NavToggler.ToggleNavGroupsKeepsMarked` | src/components/layout/Sidebar/Nav/NavToggler.tsx:58-61 | the toggle side is the input restricted to the "ToggleGroup" positions, in input order |
| `NavToggler.NonToggleNavGroupsKeepsUnmarked` | src/components/layout/Sidebar/Nav/NavToggler.tsx:62-65 | the other side is the input restricted to the remaining positions, in input order |
| `NavToggler.PartitionSizes` | src/components/layout/Sidebar/Nav/NavToggler.tsx:58-65 | the two sides' lengths sum to the input length |
| `NavToggler.PartitionIsStable` | src/components/layout/Sidebar/Nav/NavToggler.tsx:58-65 | every group lands on exactly one side: the two sides' multisets add up to the input's |
| `NavToggler.ExpandCollapseNavItem` | src/components/layout/Sidebar/Nav/NavToggler.tsx:109-140 | the control is absent iff there is no first toggle group or it has no first link; otherwise it is that link's and is wired to the collapse handler |
| `NavToggler.ControlFollowsCollapse` | src/components/layout/Sidebar/Nav/NavToggler.tsx:121-128 | aria-expanded is the negation of collapsed; the label is the name when collapsed, the alternate text when expanded; a collapse click flips the one and swaps the other |
| `NavToggler.ControlClickFlipsCollapse` | src/components/layout/Sidebar/Nav/NavToggler.tsx:127 | activating the control dispatches the collapse handler: collapse flips and the stored string is "true" iff now collapsed |
| `NavToggler.Render` | src/components/layout/Sidebar/Nav/NavToggler.tsx:45-92 | no groups draws nothing; otherwise the slim strategy is chosen iff collapsed, the strategy receives exactly the non-toggle groups, and the drawn control is the one built from the first toggle group, absent exactly when there is no toggle group or its first group has no links |
| `NavToggler.BothStrategiesGetSameProps` | src/components/layout/Sidebar/Nav/NavToggler.tsx:73-87 | switching mode changes the strategy and never the props: the non-toggle groups, the selected key, show-more and the show-more handler |
| `NavToggler.OnNavCollapseClicked` | src/components/layout/Sidebar/Nav/NavToggler.tsx:94-107 | collapse flips and show-more is kept; the stored string is "true" iff now collapsed, always "true" or "false"; no other key changes; the event is suppressed |
| `NavToggler.OnShowMoreLinkClicked` | src/components/layout/Sidebar/Nav/NavToggler.tsx:142-155 | show-more flips and collapse is kept; the stored string is "true" iff now on; no other key changes; the event is suppressed |
| `NavToggler.ControllerHandler` | src/components/layout/Sidebar/Nav/NavToggler.tsx:78-85 | the show-more and collapse handlers the controller binds run their transitions; a strategy's own click rule yields no controller transition |
| `NavToggler.CollapseTwiceRestores` | src/components/layout/Sidebar/Nav/NavToggler.tsx:100-105 | two collapse clicks restore the state and leave the collapse key holding the original state's encoding; the store comes back unchanged exactly when that key already held that encoding |
| `NavToggler.ShowMoreTwiceRestores` | src/components/layout/Sidebar/Nav/NavToggler.tsx:148-153 | two show-more clicks restore the state and leave the show-more key holding the original flag's encoding; the store comes back unchanged exactly when that key already held that encoding |
| `NavToggler.PersistedStateSurvivesRemount` | src/components/layout/Sidebar/Nav/NavToggler.tsx:36-41 | the next mount reads back what a handler wrote: always for show-more, for collapse unless the viewport is narrow |
| `NavToggler.SlimShowMoreLinkTogglesShowMore` | src/components/layout/Sidebar/Nav/NavToggler.tsx:73-79 | a show-more rail entry drawn from the delegated props is wired to the controller's show-more handler; dispatching it flips show-more and stores the new value, and the click leaves the slim state alone |
| `NavScenarios.HiddenThenShowMore` | src/components/layout/Sidebar/Nav/SlimNav.tsx:287-301 | hidden link then show-more link, show-more off: only the show-more link is drawn; show-more on: both |
| `NavScenarios.ShowMoreBeforeHidden` | src/components/layout/Sidebar/Nav/SlimNav.tsx:293-299 | a show-more link placed before the hidden link is dropped |
| `NavScenarios.HiddenInEarlierGroupReachesLaterGroup` | src/components/layout/Sidebar/Nav/SlimNav.tsx:28-46 | in a full render pass with show-more off, a hidden link in group 0 makes group 1's only drawn entry its show-more link |
| `NavScenarios.ToggleScenario` | src/components/layout/Sidebar/Nav/NavToggler.tsx:36-41 | nothing stored, width 1024: starts expanded, wide strategy, label "Expand"; a click collapses and stores "true" |
| `NavScenarios.CollapseTwiceFromEmptyStore` | src/components/layout/Sidebar/Nav/NavToggler.tsx:100-105 | from an empty store two collapse clicks restore the state but leave "false" stored |

## Left out

- The base-class helpers `isLinkSelected`, `getLinkText` and `hasAtleastOneVisibleLink` are not part of this model. They are parameters, so the model proves nothing about how selection or the group-header check are decided.
- The wide `Nav` strategy is not part of this model. The model only checks that it is chosen and what props it receives.
- Styling is left out: `getClassNames`, `Nav.styles`, `FocusZone`, `NavLink` rendering and the `styled` wrappers are foreign UI calls. Only the decision values passed to them are kept.
- The DOM lookup `parentElement.querySelector("[data-floating-nav]")` is an optional anchor id on the key event. Stale element references after React re-mounts a container are not modelled.
- A hover names its rail entry by group and link position. If the same link object appeared twice in the groups, the source would clear `scrollTop` at both places; the model clears it at the named one only.
- SlimNav.Step: a hover event may name any link position in the groups, including one the visibility filter does not draw. The source binds the hover handler only on drawn rail entries, so it never receives such an event; the model does not restrict it.
- SlimNav.OnLinkMouseEnterOrLeave: the source clears `scrollTop` on the link object, which the controller's own groups share (its group filter copies the array, not the groups), so the cleared flag survives a collapse, expand and collapse again. The model keeps the cleared flag in the slim widget's props only and does not carry it back to the controller.
- React `setState` batching and updater timing are not modelled. Each handler's transition is applied at once, and the store write is part of it.
- The list `key` React uses (`link.key || linkIndex`) and the `role` attributes are left out. They carry no decision.
- A link's `onClick(ev, link)` callback is foreign code. The model records only whether it is called.
- `null` entries in the groups or links arrays (the `navGroup?.` and `!link` guards) are not modelled. A missing `links` list is the empty sequence, which the source treats the same way.
- `window.innerWidth` is an integer. Fractional widths are not modelled.
- `localStorage` and `window` are plain values (a map and an integer), not I/O.
- Render idempotence holds by construction: every rendering function is pure.
- `src/pages/Details/Details.tsx` is left out: an HTTP fetch, a timer and HTML injection.
- `src/index.tsx` is left out: DOM bootstrap and providers.
- `src/components/route/ComingSoon.tsx` is left out: a static view.
