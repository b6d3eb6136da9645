/** Concrete link trees exercising the visibility rule and the root controller. */
module NavScenarios {
  import opened Wrappers
  import opened LinkTree
  import SlimNav
  import NavToggler

  /** A plain leaf link with the given key. */
  function Plain(key: string): Link {
    Link(key, key, key, key, Some("/" + key), None, None, [], false, false, false, false)
  }

  /**
   * A hidden link followed by the show-more link: with show-more off the
   * hidden link is dropped and the show-more link, having seen it, is drawn;
   * with show-more on both are drawn.
   */
  lemma HiddenThenShowMore()
    ensures var b := Plain("b").(isHidden := true);
      var more := Plain("more").(isShowMoreLink := true);
      && SlimNav.FilterLinks([b, more], false, false) == SlimNav.LinkPass([more], true)
      && SlimNav.FilterLinks([b, more], true, false).visible == [b, more]
  {
    var b := Plain("b").(isHidden := true);
    var more := Plain("more").(isShowMoreLink := true);
    assert [b, more][1..] == [more];
    assert [more][1..] == [];
    SlimNav.ShowMoreDrawsAll([b, more], false);
  }

  /** The show-more link placed before the hidden link does not see it and is dropped. */
  lemma ShowMoreBeforeHidden()
    ensures var b := Plain("b").(isHidden := true);
      var more := Plain("more").(isShowMoreLink := true);
      SlimNav.FilterLinks([more, b], false, false).visible == []
  {
  }

  /**
   * A render pass over two groups with show-more off: the hidden link of the
   * first group keeps the second group's show-more link drawn, because the
   * flag is reset once per pass and not per group.
   */
  lemma HiddenInEarlierGroupReachesLaterGroup(base: NavBase)
    ensures var b := Plain("b").(isHidden := true);
      var more := Plain("more").(isShowMoreLink := true);
      var props := NavProps([Group(None, [Plain("a"), b]), Group(None, [more])], None, false, None);
      var r := SlimNav.Render(base, props);
      && r.Some? && r.value[1].Some?
      && |r.value[1].value.entries| == 1
      && r.value[1].value.entries[0].link == more
  {
    var b := Plain("b").(isHidden := true);
    var more := Plain("more").(isShowMoreLink := true);
    var props := NavProps([Group(None, [Plain("a"), b]), Group(None, [more])], None, false, None);
    SlimNav.RenderFollowsRule(base, props, 1);
    assert props.groups[0].links[1].isHidden;
    assert SlimNav.HiddenInEarlierGroups(props.groups, 1);
    SlimNav.FilterLinksFollowsRule([more], false, true);
    assert [more][1..] == [];
    assert SlimNav.FilterLinks([more], false, true).visible == [more];
  }

  /**
   * A toggle group and one ordinary group, nothing stored, a 1024-wide
   * viewport: the widget starts expanded, the control is labelled with the
   * alternate text, and clicking it collapses and stores "true".
   */
  lemma ToggleScenario()
    ensures var t1 := Plain("t1").(name := "Collapse", alternateText := "Expand", url := Some("#"));
      var groups := [Group(Some("ToggleGroup"), [t1]), Group(None, [Plain("a")])];
      var st := NavToggler.Init(map[], 1024);
      var view := NavToggler.Render(groups, None, st);
      var t := NavToggler.OnNavCollapseClicked(st, map[]);
      && !st.isNavCollapsed
      && view.Some? && view.value.strategy == NavToggler.Wide
      && view.value.toggle.Some? && view.value.toggle.value.ariaLabel == "Expand"
      && view.value.delegated.groups == [Group(None, [Plain("a")])]
      && t.state.isNavCollapsed
      && t.store == map[NavToggler.CollapsedKey := "true"]
  {
    var t1 := Plain("t1").(name := "Collapse", alternateText := "Expand", url := Some("#"));
    var groups := [Group(Some("ToggleGroup"), [t1]), Group(None, [Plain("a")])];
    assert groups[1..] == [groups[1]] && groups[1..][1..] == [];
    assert NavToggler.ToggleNavGroups(groups[1..]) == [];
    assert NavToggler.ToggleNavGroups(groups) == [groups[0]];
    assert NavToggler.NonToggleNavGroups(groups[1..]) == [groups[1]];
    assert NavToggler.NonToggleNavGroups(groups) == [groups[1]];
  }

  /**
   * Two collapse clicks restore the state but not necessarily the stored
   * string: with nothing stored, the key ends up holding "false".
   */
  lemma CollapseTwiceFromEmptyStore()
    ensures var st := NavToggler.Init(map[], 1024);
      var t1 := NavToggler.OnNavCollapseClicked(st, map[]);
      var t2 := NavToggler.OnNavCollapseClicked(t1.state, t1.store);
      && t2.state == st
      && t2.store == map[NavToggler.CollapsedKey := "false"]
      && t2.store != map[]
  {
    var st := NavToggler.Init(map[], 1024);
    var t1 := NavToggler.OnNavCollapseClicked(st, map[]);
    var t2 := NavToggler.OnNavCollapseClicked(t1.state, t1.store);
    assert NavToggler.CollapsedKey in t2.store;
  }
}
