/**
 * The root controller of the sidebar: its state at mount, read from the
 * preference store and the viewport width; the split of the incoming groups
 * into the toggle group and the rest; the collapse/expand control; the choice
 * of rendering strategy; and the two flip-and-persist handlers.
 */
module NavToggler {
  import opened Wrappers
  import opened Seqs
  import opened LinkTree
  import SlimNav

  const CollapsedKey: string := "NavToggler.isNavCollapsed"
  const ShowMoreKey: string := "NavToggler.showMore"
  const NarrowWidth: int := 720
  const ToggleGroupType: string := "ToggleGroup"

  /** The persisted preference store: string keys to string values; a missing key reads as absent. */
  type Store = map<string, string>

  /** The store holds exactly the string "true" under `key`. */
  predicate StoredTrue(store: Store, key: string) {
    key in store && store[key] == "true"
  }

  /** The string the controller writes for a boolean preference. */
  function Encode(b: bool): (s: string)
    ensures s == "true" || s == "false"
  {
    if b then "true" else "false"
  }

  datatype TogglerState = TogglerState(isNavCollapsed: bool, showMore: bool)

  /** The state at mount: collapsed when the store says so or the viewport is narrow; show-more only when stored "true". */
  function Init(store: Store, innerWidth: int): (st: TogglerState)
    ensures st.isNavCollapsed <==> StoredTrue(store, CollapsedKey) || innerWidth < NarrowWidth
    ensures st.showMore <==> StoredTrue(store, ShowMoreKey)
  {
    TogglerState(
      StoredTrue(store, CollapsedKey) || innerWidth < NarrowWidth,
      StoredTrue(store, ShowMoreKey))
  }

  /** A narrow viewport always starts collapsed, whatever the store holds, even "false". */
  lemma NarrowViewportStartsCollapsed(store: Store, innerWidth: int)
    requires innerWidth < NarrowWidth
    ensures Init(store, innerWidth).isNavCollapsed
  {
  }

  /** On a wide viewport the stored string decides: collapsed exactly when it is "true". */
  lemma WideViewportFollowsStore(store: Store, innerWidth: int)
    requires innerWidth >= NarrowWidth
    ensures Init(store, innerWidth).isNavCollapsed <==> CollapsedKey in store && store[CollapsedKey] == "true"
    ensures !Init(map[], innerWidth).isNavCollapsed
  {
  }

  /** Show-more starts on only for the exact string "true"; absent or any other string means off. */
  lemma ShowMoreStartsFromExactTrue(store: Store, innerWidth: int)
    ensures Init(store, innerWidth).showMore <==> ShowMoreKey in store && store[ShowMoreKey] == "true"
    ensures !Init(store[ShowMoreKey := "True"], innerWidth).showMore
  {
  }

  // ---------------------------------------------------------------------
  // Group partition
  // ---------------------------------------------------------------------

  predicate IsToggleGroup(g: Group) {
    g.groupType == Some(ToggleGroupType)
  }

  /** The groups of type "ToggleGroup", in order. */
  function ToggleNavGroups(groups: seq<Group>): (r: seq<Group>)
    ensures forall g :: g in r ==> g in groups && IsToggleGroup(g)
    ensures forall g :: g in groups && IsToggleGroup(g) ==> g in r
    decreases |groups|
  {
    if |groups| == 0 then []
    else (if IsToggleGroup(groups[0]) then [groups[0]] else []) + ToggleNavGroups(groups[1..])
  }

  /** The groups of any other type, in order. */
  function NonToggleNavGroups(groups: seq<Group>): (r: seq<Group>)
    ensures forall g :: g in r ==> g in groups && !IsToggleGroup(g)
    ensures forall g :: g in groups && !IsToggleGroup(g) ==> g in r
    decreases |groups|
  {
    if |groups| == 0 then []
    else (if !IsToggleGroup(groups[0]) then [groups[0]] else []) + NonToggleNavGroups(groups[1..])
  }

  /** Position `i` of the input holds a toggle group. */
  function ToggleMask(groups: seq<Group>): (m: seq<bool>)
    ensures |m| == |groups|
  {
    seq(|groups|, i requires 0 <= i < |groups| => IsToggleGroup(groups[i]))
  }

  lemma {:induction false} ToggleNavGroupsKeepsMarked(groups: seq<Group>)
    ensures ToggleNavGroups(groups) == Keep(groups, ToggleMask(groups))
    decreases |groups|
  {
    if |groups| > 0 {
      assert ToggleMask(groups)[1..] == ToggleMask(groups[1..]);
      ToggleNavGroupsKeepsMarked(groups[1..]);
    }
  }

  lemma {:induction false} NonToggleNavGroupsKeepsUnmarked(groups: seq<Group>)
    ensures NonToggleNavGroups(groups) == Keep(groups, Complement(ToggleMask(groups)))
    decreases |groups|
  {
    if |groups| > 0 {
      assert ToggleMask(groups)[1..] == ToggleMask(groups[1..]);
      assert Complement(ToggleMask(groups))[1..] == Complement(ToggleMask(groups[1..]));
      NonToggleNavGroupsKeepsUnmarked(groups[1..]);
    }
  }

  lemma PartitionSizes(groups: seq<Group>)
    ensures |ToggleNavGroups(groups)| + |NonToggleNavGroups(groups)| == |groups|
  {
    ToggleNavGroupsKeepsMarked(groups);
    NonToggleNavGroupsKeepsUnmarked(groups);
    KeepSplitLength(groups, ToggleMask(groups));
  }

  lemma PartitionIsStable(groups: seq<Group>)
    ensures multiset(ToggleNavGroups(groups)) + multiset(NonToggleNavGroups(groups)) == multiset(groups)
  {
    ToggleNavGroupsKeepsMarked(groups);
    NonToggleNavGroupsKeepsUnmarked(groups);
    KeepSplit(groups, ToggleMask(groups));
  }

  // ---------------------------------------------------------------------
  // Collapse/expand control and strategy choice
  // ---------------------------------------------------------------------

  /** The collapse/expand control, with the decision values its NavLink receives. */
  datatype ToggleControl = ToggleControl(
    id: string,
    href: Option<string>,
    ariaLabel: string,
    ariaExpanded: bool,
    leftIconName: Option<string>,
    title: string,
    onClick: Handler)

  /**
   * The first link of the first toggle group becomes the control; its label
   * is the link's name while collapsed and its alternate text while expanded.
   */
  function ExpandCollapseNavItem(toggleNavGroups: seq<Group>, st: TogglerState): (r: Option<ToggleControl>)
    ensures r.None? <==> |toggleNavGroups| == 0 || |toggleNavGroups[0].links| == 0
    ensures r.Some? ==> r.value.id == toggleNavGroups[0].links[0].key && r.value.onClick == NavCollapseClicked
  {
    if |toggleNavGroups| == 0 || |toggleNavGroups[0].links| == 0 then None
    else
      var link := toggleNavGroups[0].links[0];
      Some(ToggleControl(
        link.key,
        link.url,
        if st.isNavCollapsed then link.name else link.alternateText,
        !st.isNavCollapsed,
        link.icon,
        link.title,
        NavCollapseClicked))
  }

  /** Which strategy draws the non-toggle groups. */
  datatype Strategy = Slim | Wide

  /** What the controller draws: the optional control and the chosen strategy with its props. */
  datatype NavView = NavView(toggle: Option<ToggleControl>, strategy: Strategy, delegated: NavProps)

  function Render(groups: seq<Group>, selectedKey: Option<string>, st: TogglerState): (r: Option<NavView>)
    ensures r.None? <==> |groups| == 0
    ensures r.Some? ==> (r.value.strategy == Slim <==> st.isNavCollapsed)
    ensures r.Some? ==> forall g :: g in r.value.delegated.groups ==> !IsToggleGroup(g)
    ensures r.Some? ==> r.value.toggle == ExpandCollapseNavItem(ToggleNavGroups(groups), st)
    ensures r.Some? ==> (r.value.toggle.None? <==>
      |ToggleNavGroups(groups)| == 0 || |ToggleNavGroups(groups)[0].links| == 0)
    ensures r.Some? ==> r.value.delegated.groups == NonToggleNavGroups(groups)
  {
    if |groups| == 0 then None
    else
      var props := NavProps(NonToggleNavGroups(groups), selectedKey, st.showMore, Some(ShowMoreLinkClicked));
      Some(NavView(
        ExpandCollapseNavItem(ToggleNavGroups(groups), st),
        if st.isNavCollapsed then Slim else Wide,
        props))
  }

  /**
   * Both strategies receive the same props: switching mode changes only the
   * strategy and the control, and the props carry the non-toggle groups, the
   * selected key, the show-more preference and the show-more handler.
   */
  lemma BothStrategiesGetSameProps(groups: seq<Group>, selectedKey: Option<string>, st: TogglerState)
    requires |groups| > 0
    ensures var other := st.(isNavCollapsed := !st.isNavCollapsed);
      && Render(groups, selectedKey, st).value.delegated == Render(groups, selectedKey, other).value.delegated
      && Render(groups, selectedKey, st).value.strategy != Render(groups, selectedKey, other).value.strategy
    ensures Render(groups, selectedKey, st).value.delegated
         == NavProps(NonToggleNavGroups(groups), selectedKey, st.showMore, Some(ShowMoreLinkClicked))
  {
  }

  // ---------------------------------------------------------------------
  // Flip-and-persist handlers
  // ---------------------------------------------------------------------

  /** The controller's state, the store and the event effect after a handler ran. */
  datatype Transition = Transition(state: TogglerState, store: Store, effect: EventEffect)

  /** Both boolean preferences are stored as the state says. */
  predicate StoreAgrees(st: TogglerState, store: Store) {
    && CollapsedKey in store && store[CollapsedKey] == Encode(st.isNavCollapsed)
    && ShowMoreKey in store && store[ShowMoreKey] == Encode(st.showMore)
  }

  /** The collapse handler: flips collapse, stores the new value, suppresses the event. */
  function OnNavCollapseClicked(st: TogglerState, store: Store): (t: Transition)
    ensures t.state.isNavCollapsed == !st.isNavCollapsed && t.state.showMore == st.showMore
    ensures CollapsedKey in t.store && (t.store[CollapsedKey] == "true" <==> t.state.isNavCollapsed)
    ensures t.store[CollapsedKey] == "true" || t.store[CollapsedKey] == "false"
    ensures t.store.Keys == store.Keys + {CollapsedKey}
    ensures forall k :: k in store && k != CollapsedKey ==> t.store[k] == store[k]
    ensures t.effect.preventDefault && t.effect.stopPropagation
  {
    Transition(
      st.(isNavCollapsed := !st.isNavCollapsed),
      store[CollapsedKey := if st.isNavCollapsed then "false" else "true"],
      EventEffect(true, true))
  }

  /** The show-more handler: flips show-more, stores the new value, suppresses the event. */
  function OnShowMoreLinkClicked(st: TogglerState, store: Store): (t: Transition)
    ensures t.state.showMore == !st.showMore && t.state.isNavCollapsed == st.isNavCollapsed
    ensures ShowMoreKey in t.store && (t.store[ShowMoreKey] == "true" <==> t.state.showMore)
    ensures t.store[ShowMoreKey] == "true" || t.store[ShowMoreKey] == "false"
    ensures t.store.Keys == store.Keys + {ShowMoreKey}
    ensures forall k :: k in store && k != ShowMoreKey ==> t.store[k] == store[k]
    ensures t.effect.preventDefault && t.effect.stopPropagation
  {
    Transition(
      st.(showMore := !st.showMore),
      store[ShowMoreKey := if st.showMore then "false" else "true"],
      EventEffect(true, true))
  }

  /**
   * Clicking collapse twice restores the state; the stored string ends as the
   * encoding of the original state, so the store is restored exactly when it
   * already agreed with the state.
   */
  lemma CollapseTwiceRestores(st: TogglerState, store: Store)
    ensures var t1 := OnNavCollapseClicked(st, store);
      var t2 := OnNavCollapseClicked(t1.state, t1.store);
      && t2.state == st
      && t2.store == store[CollapsedKey := Encode(st.isNavCollapsed)]
      && (t2.store == store <==> CollapsedKey in store && store[CollapsedKey] == Encode(st.isNavCollapsed))
      && (StoreAgrees(st, store) ==> t2.store == store)
  {
  }

  /** Clicking show-more twice restores the state, and the store when it agreed with the state. */
  lemma ShowMoreTwiceRestores(st: TogglerState, store: Store)
    ensures var t1 := OnShowMoreLinkClicked(st, store);
      var t2 := OnShowMoreLinkClicked(t1.state, t1.store);
      && t2.state == st
      && t2.store == store[ShowMoreKey := Encode(st.showMore)]
      && (t2.store == store <==> ShowMoreKey in store && store[ShowMoreKey] == Encode(st.showMore))
      && (StoreAgrees(st, store) ==> t2.store == store)
  {
  }

  /**
   * A handler's write is what the next mount reads back: show-more always,
   * collapse whenever the viewport is wide (a narrow one forces collapse).
   */
  lemma PersistedStateSurvivesRemount(st: TogglerState, store: Store, innerWidth: int)
    ensures var t := OnShowMoreLinkClicked(st, store);
      Init(t.store, innerWidth).showMore == t.state.showMore
    ensures var t := OnNavCollapseClicked(st, store);
      Init(t.store, innerWidth).isNavCollapsed == (t.state.isNavCollapsed || innerWidth < NarrowWidth)
    ensures innerWidth >= NarrowWidth ==>
      var t := OnNavCollapseClicked(st, store);
      Init(t.store, innerWidth).isNavCollapsed == t.state.isNavCollapsed
  {
  }

  /** Clicking the control flips its expanded flag and swaps its label between the link's two texts. */
  lemma ControlFollowsCollapse(toggleNavGroups: seq<Group>, st: TogglerState, store: Store)
    requires |toggleNavGroups| > 0 && |toggleNavGroups[0].links| > 0
    ensures var link := toggleNavGroups[0].links[0];
      var before := ExpandCollapseNavItem(toggleNavGroups, st).value;
      var after := ExpandCollapseNavItem(toggleNavGroups, OnNavCollapseClicked(st, store).state).value;
      && before.ariaExpanded == !st.isNavCollapsed
      && after.ariaExpanded == !before.ariaExpanded
      && before.ariaLabel == (if st.isNavCollapsed then link.name else link.alternateText)
      && after.ariaLabel == (if st.isNavCollapsed then link.alternateText else link.name)
  {
  }

  /**
   * The controller's reaction to a handler a rendered control invokes: its
   * two bound handlers run their transitions; a strategy's own click rule is
   * not the controller's business, so it yields nothing here.
   */
  function ControllerHandler(h: Handler, st: TogglerState, store: Store): (r: Option<Transition>)
    ensures r.None? <==> h.LinkClicked?
    ensures h == ShowMoreLinkClicked ==> r == Some(OnShowMoreLinkClicked(st, store))
    ensures h == NavCollapseClicked ==> r == Some(OnNavCollapseClicked(st, store))
  {
    match h
    case LinkClicked(_) => None
    case ShowMoreLinkClicked => Some(OnShowMoreLinkClicked(st, store))
    case NavCollapseClicked => Some(OnNavCollapseClicked(st, store))
  }

  /** Activating the collapse/expand control collapses or expands the widget and stores the new value. */
  lemma ControlClickFlipsCollapse(toggleNavGroups: seq<Group>, st: TogglerState, store: Store)
    requires |toggleNavGroups| > 0 && |toggleNavGroups[0].links| > 0
    ensures var h := ExpandCollapseNavItem(toggleNavGroups, st).value.onClick;
      var t := ControllerHandler(h, st, store);
      && t.Some?
      && t.value.state.isNavCollapsed == !st.isNavCollapsed
      && StoredTrue(t.value.store, CollapsedKey) == t.value.state.isNavCollapsed
  {
  }

  /**
   * A show-more link drawn by the slim strategy is wired to this controller's
   * show-more handler: clicking it flips show-more, stores the new value and
   * leaves the strategy's own state alone.
   */
  lemma SlimShowMoreLinkTogglesShowMore(groups: seq<Group>, selectedKey: Option<string>, st: TogglerState,
                                        store: Store, base: NavBase, slim: SlimNav.SlimState, link: Link)
    requires |groups| > 0 && link.isShowMoreLink
    ensures var props := Render(groups, selectedKey, st).value.delegated;
      var h := SlimNav.RenderLink(base, props, link).onClick;
      var t := ControllerHandler(h, st, store);
      && h == ShowMoreLinkClicked
      && t.Some? && t.value.state.showMore == !st.showMore
      && StoredTrue(t.value.store, ShowMoreKey) == t.value.state.showMore
      && SlimNav.Step(SlimNav.Widget(props, slim), SlimNav.Click(link)) == SlimNav.Widget(props, slim)
  {
  }
}
