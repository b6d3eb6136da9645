/**
 * The slim (icon rail) rendering strategy: which links of each group are
 * drawn, what each rail entry and its floating submenu show, what a click or
 * a hover does, and the Enter-key state machine that keeps at most one
 * floating submenu open.
 */
module SlimNav {
  import opened Wrappers
  import opened Seqs
  import opened LinkTree

  // ---------------------------------------------------------------------
  // Visibility filter
  // ---------------------------------------------------------------------

  /**
   * The per-link visibility rule: a hidden link is dropped unless show-more
   * is on; a show-more link is dropped when show-more is off and no hidden
   * link has been met earlier in the render pass; every other link is drawn.
   */
  predicate LinkShown(link: Link, showMore: bool, hiddenSeen: bool) {
    if link.isHidden && !showMore then false
    else if link.isShowMoreLink && !hiddenSeen && !showMore then false
    else true
  }

  /** Some link of `links` is marked hidden. */
  predicate HasHidden(links: seq<Link>) {
    exists j :: 0 <= j < |links| && links[j].isHidden
  }

  /** The links a group draws, and the render pass's hidden-link flag afterwards. */
  datatype LinkPass = LinkPass(visible: seq<Link>, hiddenSeen: bool)

  /**
   * The filter applied while mapping a group's links, left to right, with the
   * render pass's running hidden-link flag `hiddenSeen`.
   */
  function FilterLinks(links: seq<Link>, showMore: bool, hiddenSeen: bool): (r: LinkPass)
    ensures r.hiddenSeen == (hiddenSeen || (!showMore && HasHidden(links)))
    ensures |r.visible| <= |links|
    ensures forall l :: l in r.visible ==> l in links
    ensures !showMore ==> forall l :: l in r.visible ==> !l.isHidden
    decreases |links|
  {
    if |links| == 0 then LinkPass([], hiddenSeen)
    else
      var link := links[0];
      HasHiddenCons(links);
      if link.isHidden && !showMore then
        FilterLinks(links[1..], showMore, true)
      else
        var rest := FilterLinks(links[1..], showMore, hiddenSeen);
        if link.isShowMoreLink && !hiddenSeen && !showMore then rest
        else LinkPass([link] + rest.visible, rest.hiddenSeen)
  }

  lemma HasHiddenCons(links: seq<Link>)
    requires |links| > 0
    ensures HasHidden(links) <==> links[0].isHidden || HasHidden(links[1..])
  {
    if HasHidden(links) && !links[0].isHidden {
      var j :| 0 <= j < |links| && links[j].isHidden;
      assert links[1..][j - 1].isHidden;
    }
    if HasHidden(links[1..]) {
      var j :| 0 <= j < |links[1..]| && links[1..][j].isHidden;
      assert links[j + 1].isHidden;
    }
  }

  /**
   * The reference rule, position by position: link `i` is drawn exactly when
   * LinkShown holds for it with "a hidden link was met earlier" meaning the
   * incoming flag or a hidden link among `links[..i]`.
   */
  ghost function VisibilityMask(links: seq<Link>, showMore: bool, hiddenSeen: bool): (m: seq<bool>)
    ensures |m| == |links|
  {
    seq(|links|, i requires 0 <= i < |links| =>
      LinkShown(links[i], showMore, hiddenSeen || HasHidden(links[..i])))
  }

  lemma VisibilityMaskShift(links: seq<Link>, showMore: bool, hiddenSeen: bool)
    requires |links| > 0
    ensures VisibilityMask(links, showMore, hiddenSeen)[1..]
         == VisibilityMask(links[1..], showMore, hiddenSeen || (!showMore && links[0].isHidden))
  {
    var m := VisibilityMask(links, showMore, hiddenSeen);
    var seen' := hiddenSeen || (!showMore && links[0].isHidden);
    var m' := VisibilityMask(links[1..], showMore, seen');
    forall i | 0 <= i < |m'|
      ensures m[1..][i] == m'[i]
    {
      assert links[..i + 1][1..] == links[1..][..i];
      HasHiddenCons(links[..i + 1]);
    }
  }

  /** The filter draws exactly the links the reference rule marks, in their original order. */
  lemma {:induction false} FilterLinksFollowsRule(links: seq<Link>, showMore: bool, hiddenSeen: bool)
    ensures FilterLinks(links, showMore, hiddenSeen).visible
         == Keep(links, VisibilityMask(links, showMore, hiddenSeen))
    decreases |links|
  {
    if |links| > 0 {
      var seen' := hiddenSeen || (!showMore && links[0].isHidden);
      VisibilityMaskShift(links, showMore, hiddenSeen);
      FilterLinksFollowsRule(links[1..], showMore, seen');
      assert links[..0] == [];
    }
  }

  /** With show-more on, every link is drawn, in order, and the flag is left as it was. */
  lemma {:induction false} ShowMoreDrawsAll(links: seq<Link>, hiddenSeen: bool)
    ensures FilterLinks(links, true, hiddenSeen) == LinkPass(links, hiddenSeen)
    decreases |links|
  {
    if |links| > 0 {
      ShowMoreDrawsAll(links[1..], hiddenSeen);
      assert links == [links[0]] + links[1..];
    }
  }

  /**
   * With show-more off, a non-hidden show-more link at position `i` is dropped
   * exactly when no hidden link was met before it in the pass; any other
   * non-hidden link is drawn.
   */
  lemma ShowMoreLinkRule(links: seq<Link>, hiddenSeen: bool, i: int)
    requires 0 <= i < |links| && !links[i].isHidden
    ensures VisibilityMask(links, false, hiddenSeen)[i]
        <==> (!links[i].isShowMoreLink || hiddenSeen || HasHidden(links[..i]))
  {
  }

  // ---------------------------------------------------------------------
  // Rendered structure
  // ---------------------------------------------------------------------

  const OpenInNewWindow: string := "OpenInNewWindow"
  const BlankTarget: string := "_blank"

  /** A link drawn inside a floating submenu, with the decision values its NavLink receives. */
  datatype CompositeView = CompositeView(
    key: string,
    text: string,
    href: Option<string>,
    target: Option<string>,
    nestingLevel: nat,
    isSelected: bool,
    rightIconName: Option<string>,
    onClick: Handler)

  /** A list item of a floating submenu and the submenu items nested below it. */
  datatype FloatingItem = FloatingItem(title: string, composite: CompositeView, children: seq<FloatingItem>)

  /** The floating submenu container of a rail entry. */
  datatype FloatingNav = FloatingNav(hasChildren: bool, scrollTop: bool, root: FloatingItem)

  /** A rail entry: the icon link of a top-level link and its floating submenu. */
  datatype RailEntry = RailEntry(
    link: Link,
    title: string,
    isSelected: bool,
    hasChildren: bool,
    leftIconName: Option<string>,
    onClick: Handler,
    floatingNav: FloatingNav)

  /** A non-empty group: whether its separator header is drawn, and its rail entries. */
  datatype GroupView = GroupView(headerVisible: bool, entries: seq<RailEntry>)

  /**
   * The handler a drawn link is wired to: the supplied show-more callback for
   * a show-more link when one is given, the strategy's click rule otherwise.
   */
  function ClickHandler(link: Link, props: NavProps): (h: Handler)
    ensures link.isShowMoreLink && props.onShowMoreLinkClicked.Some? ==> h == props.onShowMoreLinkClicked.value
    ensures !(link.isShowMoreLink && props.onShowMoreLinkClicked.Some?) ==> h == LinkClicked(link)
  {
    if link.isShowMoreLink && props.onShowMoreLinkClicked.Some? then props.onShowMoreLinkClicked.value
    else LinkClicked(link)
  }

  /** The right-hand icon of a floating link: shown for a link that opens a non-empty url in a new window. */
  function RightIconName(link: Link): (r: Option<string>)
    ensures r.Some? <==> Truthy(link.url) && link.target == Some(BlankTarget)
    ensures r.Some? ==> r.value == OpenInNewWindow
  {
    if Truthy(link.url) && link.target == Some(BlankTarget) then Some(OpenInNewWindow) else None
  }

  /** A floating link at `nestingLevel`; it counts as selected only below the top level. */
  function RenderCompositeLink(base: NavBase, props: NavProps, link: Link, nestingLevel: nat): (v: CompositeView)
    ensures nestingLevel == 0 ==> !v.isSelected
    ensures nestingLevel > 0 ==> (v.isSelected <==> base.isLinkSelected(link, false))
    ensures v.key == link.key && v.nestingLevel == nestingLevel
    ensures v.onClick == ClickHandler(link, props)
    ensures link.isShowMoreLink && props.onShowMoreLinkClicked.Some? ==> v.onClick == props.onShowMoreLinkClicked.value
    ensures v.rightIconName == RightIconName(link)
  {
    CompositeView(
      link.key,
      base.getLinkText(link, props.showMore),
      link.url,
      link.target,
      nestingLevel,
      nestingLevel > 0 && base.isLinkSelected(link, false),
      RightIconName(link),
      ClickHandler(link, props))
  }

  /** A floating list item; only an item at level 0 draws its children, at level 1. */
  function RenderFloatingLink(base: NavBase, props: NavProps, link: Link, nestingLevel: nat): (item: FloatingItem)
    ensures item.title == base.getLinkText(link, props.showMore)
    ensures item.composite.key == link.key && item.composite.nestingLevel == nestingLevel
    ensures item.composite.onClick == ClickHandler(link, props)
    ensures nestingLevel > 0 ==> item.children == []
    ensures nestingLevel == 0 ==>
      && |item.children| == |link.links|
      && forall i :: 0 <= i < |link.links| ==>
           && item.children[i].composite.key == link.links[i].key
           && item.children[i].composite.nestingLevel == 1
           && item.children[i].children == []
    decreases if nestingLevel == 0 then 1 else 0
  {
    FloatingItem(
      base.getLinkText(link, props.showMore),
      RenderCompositeLink(base, props, link, nestingLevel),
      if nestingLevel == 0 then
        seq(|link.links|, i requires 0 <= i < |link.links| => RenderFloatingLink(base, props, link.links[i], 1))
      else [])
  }

  /** The floating submenu container of a rail entry: the link itself as the single level-0 item. */
  function RenderFloatingNav(base: NavBase, props: NavProps, link: Link): (f: FloatingNav)
    ensures f.hasChildren <==> HasChildren(link)
    ensures f.scrollTop == link.scrollTop
    ensures f.root.composite.key == link.key && f.root.composite.nestingLevel == 0 && !f.root.composite.isSelected
    ensures |f.root.children| == |link.links|
  {
    FloatingNav(HasChildren(link), link.scrollTop, RenderFloatingLink(base, props, link, 0))
  }

  /**
   * A rail entry: highlighted when the link or one of its descendants is
   * selected (unlike a level-0 floating link, which is never highlighted),
   * and wired like any other drawn link.
   */
  function RenderLink(base: NavBase, props: NavProps, link: Link): (e: RailEntry)
    ensures e.link == link
    ensures e.isSelected == base.isLinkSelected(link, true)
    ensures e.hasChildren <==> HasChildren(link)
    ensures e.onClick == ClickHandler(link, props)
    ensures link.isShowMoreLink && props.onShowMoreLinkClicked.Some? ==> e.onClick == props.onShowMoreLinkClicked.value
    ensures e.floatingNav.scrollTop == link.scrollTop
  {
    RailEntry(
      link,
      base.getLinkText(link, props.showMore),
      base.isLinkSelected(link, true),
      HasChildren(link),
      link.icon,
      ClickHandler(link, props),
      RenderFloatingNav(base, props, link))
  }

  /** No chain of nested floating items below `item` is longer than `d`. */
  ghost predicate DepthAtMost(item: FloatingItem, d: nat)
    decreases item
  {
    if d == 0 then |item.children| == 0
    else forall i :: 0 <= i < |item.children| ==> DepthAtMost(item.children[i], d - 1)
  }

  /**
   * The floating submenu of every rail entry is one level-0 item for the link
   * itself, never highlighted, holding all of the link's children (unfiltered,
   * in order) as level-1 items with no children of their own; so the submenu
   * nests at most one level, and exactly one when the link has children.
   */
  lemma FloatingSubmenuShape(base: NavBase, props: NavProps, link: Link)
    ensures var root := RenderLink(base, props, link).floatingNav.root;
      && root.composite.nestingLevel == 0
      && !root.composite.isSelected
      && root.composite.key == link.key
      && |root.children| == |link.links|
      && (forall i :: 0 <= i < |root.children| ==>
            && root.children[i].composite.nestingLevel == 1
            && root.children[i].composite.key == link.links[i].key
            && root.children[i].composite.isSelected == base.isLinkSelected(link.links[i], false)
            && root.children[i].composite.onClick == ClickHandler(link.links[i], props)
            && root.children[i].children == [])
      && DepthAtMost(root, 1)
      && (DepthAtMost(root, 0) <==> !HasChildren(link))
  {
  }

  /** The rail entries of the drawn links, one per link, in order. */
  function RenderRail(base: NavBase, props: NavProps, visible: seq<Link>): (entries: seq<RailEntry>)
    ensures |entries| == |visible|
    ensures forall i :: 0 <= i < |visible| ==> entries[i].link == visible[i]
  {
    seq(|visible|, i requires 0 <= i < |visible| => RenderLink(base, props, visible[i]))
  }

  /** One group's contribution and the render pass's hidden-link flag after it. */
  datatype GroupStep = GroupStep(view: Option<GroupView>, hiddenSeen: bool)

  /**
   * A group draws nothing when it has no links (and leaves the flag alone);
   * otherwise its header is drawn only after the first group and only when
   * the base helper reports a visible link.
   */
  function RenderGroup(base: NavBase, props: NavProps, group: Group, groupIndex: nat, hiddenSeen: bool): (r: GroupStep)
    ensures r.view.None? <==> |group.links| == 0
    ensures r.view.Some? && r.view.value.headerVisible ==> groupIndex > 0
    ensures r.hiddenSeen == (hiddenSeen || (!props.showMore && HasHidden(group.links)))
  {
    if |group.links| == 0 then GroupStep(None, hiddenSeen)
    else
      var header := groupIndex > 0 && base.hasAtleastOneVisibleLink(group.links, props.showMore);
      var pass := FilterLinks(group.links, props.showMore, hiddenSeen);
      GroupStep(Some(GroupView(header, RenderRail(base, props, pass.visible))), pass.hiddenSeen)
  }

  /** The groups from `start` on, with the flag threaded from group to group. */
  datatype GroupsPass = GroupsPass(views: seq<Option<GroupView>>, hiddenSeen: bool)

  function RenderGroupsFrom(base: NavBase, props: NavProps, start: nat, hiddenSeen: bool): (r: GroupsPass)
    requires start <= |props.groups|
    ensures |r.views| == |props.groups| - start
    decreases |props.groups| - start
  {
    if start == |props.groups| then GroupsPass([], hiddenSeen)
    else
      var step := RenderGroup(base, props, props.groups[start], start, hiddenSeen);
      var rest := RenderGroupsFrom(base, props, start + 1, step.hiddenSeen);
      GroupsPass([step.view] + rest.views, rest.hiddenSeen)
  }

  /** A render pass: nothing for no groups; otherwise every group, with the flag reset once. */
  function Render(base: NavBase, props: NavProps): (r: Option<seq<Option<GroupView>>>)
    ensures r.None? <==> |props.groups| == 0
    ensures r.Some? ==> |r.value| == |props.groups|
  {
    if |props.groups| == 0 then None
    else Some(RenderGroupsFrom(base, props, 0, false).views)
  }

  /** Some link of a group before group `g` is marked hidden. */
  ghost predicate HiddenInEarlierGroups(groups: seq<Group>, g: int) {
    exists h, j :: 0 <= h < g && h < |groups| && 0 <= j < |groups[h].links| && groups[h].links[j].isHidden
  }

  lemma HiddenInEarlierGroupsStep(groups: seq<Group>, g: nat)
    requires g < |groups|
    ensures HiddenInEarlierGroups(groups, g + 1) <==> HiddenInEarlierGroups(groups, g) || HasHidden(groups[g].links)
  {
    if HasHidden(groups[g].links) {
      var j :| 0 <= j < |groups[g].links| && groups[g].links[j].isHidden;
      assert groups[g].links[j].isHidden;
    }
  }

  /**
   * The reference view of group `g`: nothing for an empty group; otherwise
   * the links the visibility rule marks, where a hidden link met in any
   * earlier group of the same pass also counts as met.
   */
  ghost function ExpectedGroup(base: NavBase, props: NavProps, g: nat): Option<GroupView>
    requires g < |props.groups|
  {
    var links := props.groups[g].links;
    var sm := props.showMore;
    if |links| == 0 then None
    else Some(GroupView(
      g > 0 && base.hasAtleastOneVisibleLink(links, sm),
      RenderRail(base, props, Keep(links, VisibilityMask(links, sm, !sm && HiddenInEarlierGroups(props.groups, g))))))
  }

  lemma RenderGroupFollowsRule(base: NavBase, props: NavProps, g: nat)
    requires g < |props.groups|
    ensures RenderGroup(base, props, props.groups[g], g, !props.showMore && HiddenInEarlierGroups(props.groups, g)).view
         == ExpectedGroup(base, props, g)
  {
    var links := props.groups[g].links;
    var seen := !props.showMore && HiddenInEarlierGroups(props.groups, g);
    FilterLinksFollowsRule(links, props.showMore, seen);
  }

  /** The first view of a pass from `start` is that group's own step; the rest continue with its flag. */
  lemma RenderGroupsFromUnfold(base: NavBase, props: NavProps, start: nat, hiddenSeen: bool)
    requires start < |props.groups|
    ensures var step := RenderGroup(base, props, props.groups[start], start, hiddenSeen);
      var pass := RenderGroupsFrom(base, props, start, hiddenSeen);
      && pass.views[0] == step.view
      && pass.views[1..] == RenderGroupsFrom(base, props, start + 1, step.hiddenSeen).views
  {
  }

  /** Group `g` of a pass is drawn by its own step, entered with every earlier hidden link counted. */
  lemma {:induction false} RenderGroupsFromThreadsFlag(base: NavBase, props: NavProps, start: nat, g: nat)
    requires start <= g < |props.groups|
    ensures RenderGroupsFrom(base, props, start, !props.showMore && HiddenInEarlierGroups(props.groups, start)).views[g - start]
         == RenderGroup(base, props, props.groups[g], g, !props.showMore && HiddenInEarlierGroups(props.groups, g)).view
    decreases g - start
  {
    var sm := props.showMore;
    var seen := !sm && HiddenInEarlierGroups(props.groups, start);
    RenderGroupsFromUnfold(base, props, start, seen);
    if g > start {
      var step := RenderGroup(base, props, props.groups[start], start, seen);
      HiddenInEarlierGroupsStep(props.groups, start);
      assert step.hiddenSeen == (!sm && HiddenInEarlierGroups(props.groups, start + 1));
      RenderGroupsFromThreadsFlag(base, props, start + 1, g);
    }
  }

  /**
   * Every group of a render pass is drawn as the reference rule says: the
   * hidden-link flag is reset once per pass, not per group, so a hidden link
   * in an earlier group keeps a later group's show-more link drawn.
   */
  lemma RenderFollowsRule(base: NavBase, props: NavProps, g: nat)
    requires g < |props.groups|
    ensures Render(base, props).Some?
    ensures Render(base, props).value[g] == ExpectedGroup(base, props, g)
  {
    assert !HiddenInEarlierGroups(props.groups, 0);
    RenderGroupsFromThreadsFlag(base, props, 0, g);
    RenderGroupFollowsRule(base, props, g);
  }

  // ---------------------------------------------------------------------
  // Floating submenu state machine (Enter key)
  // ---------------------------------------------------------------------

  /** The identity of a floating submenu container. */
  type AnchorId = string

  const EnterKeyCode: int := 13

  /**
   * `shown` holds the containers currently styled `display: block`;
   * `prev` is the container the last opening activation recorded.
   */
  datatype FloatingState = FloatingState(shown: set<AnchorId>, prev: Option<AnchorId>)

  /** A key press: its key code and the floating container found beside the event target, if any. */
  datatype KeyEvent = KeyEvent(keyCode: int, floatingNav: Option<AnchorId>)

  /** At most one container is shown, and only the one recorded in `prev`. */
  ghost predicate AtMostOneShown(fs: FloatingState) {
    forall a :: a in fs.shown ==> fs.prev == Some(a)
  }

  /** The key-down handler of a rail entry. */
  function OnKeyDown(fs: FloatingState, ev: KeyEvent): (r: FloatingState)
    ensures ev.keyCode != EnterKeyCode || ev.floatingNav.None? ==> r == fs
    ensures ev.keyCode == EnterKeyCode && ev.floatingNav.Some? ==>
      && r.prev == ev.floatingNav
      && forall a :: a != ev.floatingNav.value && Some(a) != fs.prev ==> (a in r.shown <==> a in fs.shown)
    ensures ev.keyCode == EnterKeyCode && ev.floatingNav.Some? && fs.prev != ev.floatingNav ==>
      && ev.floatingNav.value in r.shown
      && (fs.prev.Some? ==> fs.prev.value !in r.shown)
  {
    if ev.keyCode != EnterKeyCode then fs
    else if ev.floatingNav.None? then fs
    else
      var current := ev.floatingNav.value;
      if fs.prev == Some(current) then
        if current in fs.shown then fs.(shown := fs.shown - {current})
        else fs.(shown := fs.shown + {current})
      else
        var closed := if fs.prev.Some? then fs.shown - {fs.prev.value} else fs.shown;
        FloatingState(closed + {current}, Some(current))
  }

  /** Enter on the recorded container flips only its own marking and keeps `prev`. */
  lemma EnterOnPrevToggles(fs: FloatingState, ev: KeyEvent)
    requires ev.keyCode == EnterKeyCode && ev.floatingNav.Some? && fs.prev == ev.floatingNav
    ensures OnKeyDown(fs, ev).prev == fs.prev
    ensures var a := ev.floatingNav.value;
      (a in OnKeyDown(fs, ev).shown <==> a !in fs.shown)
      && OnKeyDown(fs, ev).shown - {a} == fs.shown - {a}
    ensures OnKeyDown(OnKeyDown(fs, ev), ev) == fs
  {
  }

  /** Enter on another container closes the recorded one, opens this one and records it. */
  lemma EnterOnOtherSwitches(fs: FloatingState, ev: KeyEvent)
    requires ev.keyCode == EnterKeyCode && ev.floatingNav.Some? && fs.prev != ev.floatingNav
    requires AtMostOneShown(fs)
    ensures OnKeyDown(fs, ev) == FloatingState({ev.floatingNav.value}, ev.floatingNav)
  {
  }

  /** The key-down handler keeps at most one container shown. */
  lemma OnKeyDownKeepsAtMostOneShown(fs: FloatingState, ev: KeyEvent)
    requires AtMostOneShown(fs)
    ensures AtMostOneShown(OnKeyDown(fs, ev))
  {
  }

  /** Under the invariant, the shown set has at most one element. */
  lemma AtMostOneShownBound(fs: FloatingState)
    requires AtMostOneShown(fs)
    ensures |fs.shown| <= 1
  {
    if fs.prev.None? {
      assert fs.shown == {};
    } else if fs.prev.value in fs.shown {
      assert fs.shown == {fs.prev.value};
    } else {
      assert fs.shown == {};
    }
  }

  // ---------------------------------------------------------------------
  // Component state, clicks and hover
  // ---------------------------------------------------------------------

  datatype SlimState = SlimState(selectedKey: Option<string>, isLinkExpandStateChanged: bool, floating: FloatingState)

  /** The state at mount: the initial selected key when it is a non-empty string, else the selected key. */
  function Init(initialSelectedKey: Option<string>, selectedKey: Option<string>): (st: SlimState)
    ensures st.selectedKey == (if Truthy(initialSelectedKey) then initialSelectedKey else selectedKey)
    ensures st.floating.shown == {} && st.floating.prev.None? && !st.isLinkExpandStateChanged
    ensures AtMostOneShown(st.floating)
  {
    SlimState(if Truthy(initialSelectedKey) then initialSelectedKey else selectedKey, false, FloatingState({}, None))
  }

  /** What a click on a link does: the new state, whether the link's own callback runs, the event effect. */
  datatype ClickOutcome = ClickOutcome(state: SlimState, onClickCalled: bool, effect: EventEffect)

  /**
   * The click rule: the link becomes selected; its callback runs only for a
   * leaf; default navigation is suppressed only for a link with children;
   * propagation is always stopped.
   */
  function OnLinkClicked(st: SlimState, link: Link): (r: ClickOutcome)
    ensures r.state.selectedKey == Some(link.key)
    ensures r.state.floating == st.floating && r.state.isLinkExpandStateChanged == st.isLinkExpandStateChanged
    ensures r.onClickCalled <==> !HasChildren(link) && link.hasOnClick
    ensures r.effect.preventDefault <==> HasChildren(link)
    ensures r.effect.stopPropagation
    ensures !(r.onClickCalled && r.effect.preventDefault)
  {
    var hasChildren := HasChildren(link);
    ClickOutcome(
      st.(selectedKey := Some(link.key)),
      !hasChildren && link.hasOnClick,
      EventEffect(hasChildren, true))
  }

  /** What entering or leaving a rail entry does: the link with its flag cleared, the new state, the effect. */
  datatype HoverOutcome = HoverOutcome(link: Link, state: SlimState, effect: EventEffect)

  function OnLinkMouseEnterOrLeave(st: SlimState, link: Link): (r: HoverOutcome)
    ensures r.link == link.(scrollTop := false)
    ensures r.state.floating == st.floating && r.state.selectedKey == st.selectedKey
    ensures r.state.isLinkExpandStateChanged
    ensures r.effect == EventEffect(true, true)
  {
    HoverOutcome(link.(scrollTop := false), st.(isLinkExpandStateChanged := true), EventEffect(true, true))
  }

  /**
   * An input the slim strategy reacts to. A hover names the rail entry by
   * its group and link position, because the handler mutates that very link
   * object of the props, which the next render reads.
   */
  datatype SlimEvent =
    | KeyDown(key: KeyEvent)
    | MouseEnterOrLeave(group: nat, index: nat)
    | Click(clicked: Link)

  /** The props the strategy renders from and the state it owns. */
  datatype Widget = Widget(props: NavProps, state: SlimState)

  /** Link `index` of group `group` exists in `groups`. */
  predicate IsEntry(groups: seq<Group>, group: nat, index: nat) {
    group < |groups| && index < |groups[group].links|
  }

  /** `groups` with link `index` of group `group` replaced by `link`. */
  function ReplaceLink(groups: seq<Group>, group: nat, index: nat, link: Link): (r: seq<Group>)
    requires IsEntry(groups, group, index)
    ensures |r| == |groups| && IsEntry(r, group, index)
    ensures r[group].links[index] == link
    ensures forall g :: 0 <= g < |groups| && g != group ==> r[g] == groups[g]
    ensures r[group].groupType == groups[group].groupType && |r[group].links| == |groups[group].links|
    ensures forall i :: 0 <= i < |groups[group].links| && i != index ==> r[group].links[i] == groups[group].links[i]
  {
    groups[group := groups[group].(links := groups[group].links[index := link])]
  }

  /**
   * One event: a key press goes to the state machine; a hover runs the hover
   * rule and writes the link it returns back into the props; a click runs the
   * click rule unless the link is wired to the supplied show-more callback,
   * which belongs to the root controller.
   */
  function Step(w: Widget, e: SlimEvent): (r: Widget)
    ensures !e.KeyDown? ==> r.state.floating == w.state.floating
    ensures !e.MouseEnterOrLeave? ==> r.props == w.props
    ensures r.props.showMore == w.props.showMore && r.props.selectedKey == w.props.selectedKey
    ensures r.props.onShowMoreLinkClicked == w.props.onShowMoreLinkClicked
    ensures |r.props.groups| == |w.props.groups|
    ensures e.Click? && !(e.clicked.isShowMoreLink && w.props.onShowMoreLinkClicked.Some?) ==>
      r.state.selectedKey == Some(e.clicked.key)
    ensures e.Click? && e.clicked.isShowMoreLink && w.props.onShowMoreLinkClicked.Some? ==>
      match w.props.onShowMoreLinkClicked.value
      case LinkClicked(x) => r.state.selectedKey == Some(x.key)
      case _ => r == w
  {
    match e
    case KeyDown(ev) => w.(state := w.state.(floating := OnKeyDown(w.state.floating, ev)))
    case MouseEnterOrLeave(g, i) =>
      if IsEntry(w.props.groups, g, i) then
        var out := OnLinkMouseEnterOrLeave(w.state, w.props.groups[g].links[i]);
        Widget(w.props.(groups := ReplaceLink(w.props.groups, g, i, out.link)), out.state)
      else w
    case Click(link) =>
      var h := ClickHandler(link, w.props);
      if h.LinkClicked? then w.(state := OnLinkClicked(w.state, h.link).state) else w
  }

  function Run(w: Widget, events: seq<SlimEvent>): Widget
    decreases |events|
  {
    if |events| == 0 then w
    else Run(Step(w, events[0]), events[1..])
  }

  /** After any sequence of events, at most one floating submenu is shown. */
  lemma {:induction false} RunKeepsAtMostOneShown(w: Widget, events: seq<SlimEvent>)
    requires AtMostOneShown(w.state.floating)
    ensures AtMostOneShown(Run(w, events).state.floating)
    ensures |Run(w, events).state.floating.shown| <= 1
    decreases |events|
  {
    if |events| == 0 {
      AtMostOneShownBound(w.state.floating);
    } else {
      var next := Step(w, events[0]);
      if events[0].KeyDown? {
        OnKeyDownKeepsAtMostOneShown(w.state.floating, events[0].key);
      }
      RunKeepsAtMostOneShown(next, events[1..]);
    }
  }

  /**
   * Hovering a rail entry clears `scrollTop` on that link of the props and
   * on no other, so the next render draws its floating container with the
   * flag cleared; selection and floating state are unchanged.
   */
  lemma HoverClearsScrollTopForNextRender(base: NavBase, w: Widget, g: nat, i: nat)
    requires IsEntry(w.props.groups, g, i)
    ensures var r := Step(w, MouseEnterOrLeave(g, i));
      var link := w.props.groups[g].links[i];
      && IsEntry(r.props.groups, g, i)
      && r.props.groups[g].links[i] == link.(scrollTop := false)
      && !RenderLink(base, r.props, r.props.groups[g].links[i]).floatingNav.scrollTop
      && (forall h :: 0 <= h < |w.props.groups| && h != g ==> r.props.groups[h] == w.props.groups[h])
      && (forall j :: 0 <= j < |w.props.groups[g].links| && j != i ==> r.props.groups[g].links[j] == w.props.groups[g].links[j])
      && r.state.selectedKey == w.state.selectedKey
      && r.state.floating == w.state.floating
  {
  }

  /** A show-more link wired to the supplied callback leaves the strategy's state untouched when clicked. */
  lemma ShowMoreClickKeepsSelection(props: NavProps, st: SlimState, link: Link)
    requires link.isShowMoreLink && props.onShowMoreLinkClicked.Some?
    requires !props.onShowMoreLinkClicked.value.LinkClicked?
    ensures Step(Widget(props, st), Click(link)) == Widget(props, st)
  {
  }
}
