/**
 * The data the sidebar navigation is rendered from: link trees grouped into
 * groups, the props handed to a rendering strategy, the handlers a rendered
 * control can be wired to, and the helpers of the shared base class, which
 * are taken as given.
 */
module LinkTree {
  import opened Wrappers

  /**
   * One navigation link. `links` are its children (an undefined list is the
   * empty sequence); `hasOnClick` says whether the caller supplied an
   * `onClick` callback; `scrollTop` is the transient flag hover clears.
   */
  datatype Link = Link(
    key: string,
    name: string,
    alternateText: string,
    title: string,
    url: Option<string>,
    target: Option<string>,
    icon: Option<string>,
    links: seq<Link>,
    isHidden: bool,
    isShowMoreLink: bool,
    hasOnClick: bool,
    scrollTop: bool)

  /** JavaScript's `link.links?.length` used as a condition. */
  predicate HasChildren(link: Link) {
    |link.links| > 0
  }

  /** A string-valued prop used as a condition: defined and not the empty string. */
  predicate Truthy(s: Option<string>) {
    s.Some? && |s.value| > 0
  }

  /** A group of links; `groupType` is `Some("ToggleGroup")` for the collapse/expand group. */
  datatype Group = Group(groupType: Option<string>, links: seq<Link>)

  /** The handler a rendered control invokes when activated. */
  datatype Handler =
    | LinkClicked(link: Link)      // the strategy's own click rule for this link
    | ShowMoreLinkClicked          // the root controller's show-more toggle
    | NavCollapseClicked           // the root controller's collapse toggle

  /** What a handler does to the DOM event it receives. */
  datatype EventEffect = EventEffect(preventDefault: bool, stopPropagation: bool)

  /** The props the root controller passes to either rendering strategy. */
  datatype NavProps = NavProps(
    groups: seq<Group>,
    selectedKey: Option<string>,
    showMore: bool,
    onShowMoreLinkClicked: Option<Handler>)

  /**
   * The helpers the strategies inherit from their base class. Their
   * definitions are not part of this model, so they are parameters:
   * `isLinkSelected(link, includeChildren)` for the current selection,
   * `getLinkText(link, showMore)` and `hasAtleastOneVisibleLink(links, showMore)`.
   */
  datatype NavBase = NavBase(
    isLinkSelected: (Link, bool) -> bool,
    getLinkText: (Link, bool) -> string,
    hasAtleastOneVisibleLink: (seq<Link>, bool) -> bool)
}
