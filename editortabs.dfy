/**
  The tab strip: pinned tabs first, then the others, a divider between the two
  groups when both are present, a placeholder when no tab is open, and the pin
  button that flips one tab's `isPinned` through the store.
*/
module EditorTabs {
  import opened Optional
  import opened Seqs
  import opened IdeTypes
  import IdeStore

  predicate IsPinned(t: Tab) {
    IsTrue(t.isPinned)
  }

  predicate IsUnpinned(t: Tab) {
    !IsTrue(t.isPinned)
  }

  function PinnedTabs(tabs: seq<Tab>): seq<Tab> {
    Filter(tabs, IsPinned)
  }

  function UnpinnedTabs(tabs: seq<Tab>): seq<Tab> {
    Filter(tabs, IsUnpinned)
  }

  /** The tabs in the order the strip draws them. */
  function RenderedTabs(tabs: seq<Tab>): seq<Tab> {
    PinnedTabs(tabs) + UnpinnedTabs(tabs)
  }

  predicate ShowsDivider(tabs: seq<Tab>) {
    |PinnedTabs(tabs)| > 0 && |UnpinnedTabs(tabs)| > 0
  }

  predicate ShowsNoFilesOpen(tabs: seq<Tab>) {
    |tabs| == 0
  }

  /** Every open tab is drawn exactly once, pinned tabs before all others; within each group
      the tabs keep their order (each group is a filter of the open tabs). */
  lemma RenderedOnce(tabs: seq<Tab>)
    ensures multiset(RenderedTabs(tabs)) == multiset(tabs)
    ensures |RenderedTabs(tabs)| == |tabs|
    ensures forall i :: 0 <= i < |RenderedTabs(tabs)| ==>
      (IsPinned(RenderedTabs(tabs)[i]) <==> i < |PinnedTabs(tabs)|)
  {
    var p, u := PinnedTabs(tabs), UnpinnedTabs(tabs);
    forall x ensures multiset(p + u)[x] == multiset(tabs)[x] {
      FilterCount(tabs, IsPinned, x);
      FilterCount(tabs, IsUnpinned, x);
    }
    assert multiset(p + u) == multiset(tabs);
    assert |multiset(p + u)| == |multiset(tabs)|;
    forall i | 0 <= i < |p + u| ensures IsPinned((p + u)[i]) <==> i < |p| {
      if i >= |p| {
        assert (p + u)[i] == u[i - |p|];
      }
    }
  }

  /** The divider is drawn exactly when some tab is pinned and some tab is not. */
  lemma DividerIff(tabs: seq<Tab>)
    ensures ShowsDivider(tabs) <==>
      (exists i :: 0 <= i < |tabs| && IsPinned(tabs[i])) && (exists j :: 0 <= j < |tabs| && !IsPinned(tabs[j]))
  {
    var p, u := PinnedTabs(tabs), UnpinnedTabs(tabs);
    if |p| > 0 {
      assert p[0] in tabs;
    }
    if |u| > 0 {
      assert u[0] in tabs;
    }
  }

  /** The placeholder is shown exactly when nothing is drawn. */
  lemma NoFilesOpenIff(tabs: seq<Tab>)
    ensures ShowsNoFilesOpen(tabs) <==> RenderedTabs(tabs) == []
  {
    RenderedOnce(tabs);
  }

  /** The pin button's call: `updateTabProperty(tab.id, 'isPinned', !tab.isPinned)`. */
  function TogglePin(s: IdeStore.StoreState, tab: Tab): IdeStore.StoreState {
    IdeStore.UpdateTabProperty(s, tab.id, IdeStore.PinnedValue(Some(!IsTrue(tab.isPinned))))
  }

  /** The pin button flips the pinned flag of the tab it belongs to, and of no tab with another
      id; every other field of every tab and of the store is kept. So the tab changes group. */
  lemma TogglePinFlips(s: IdeStore.StoreState, tab: Tab, k: nat)
    requires k < |s.openTabs| && s.openTabs[k] == tab
    ensures var r := TogglePin(s, tab);
      |r.openTabs| == |s.openTabs|
      && IsPinned(r.openTabs[k]) == !IsPinned(tab)
      && r.openTabs[k] == tab.(isPinned := Some(!IsPinned(tab)))
      && (forall i :: 0 <= i < |s.openTabs| && s.openTabs[i].id != tab.id ==> r.openTabs[i] == s.openTabs[i])
      && (forall i :: 0 <= i < |s.openTabs| ==> r.openTabs[i] == s.openTabs[i].(isPinned := r.openTabs[i].isPinned))
      && r == s.(openTabs := r.openTabs)
  {
  }

  /** Flipping twice restores the tab's truthiness of `isPinned`, so it is back in its group. */
  lemma TogglePinTwice(s: IdeStore.StoreState, tab: Tab, k: nat)
    requires k < |s.openTabs| && s.openTabs[k] == tab
    ensures var r := TogglePin(s, tab); var t1 := r.openTabs[k];
      |r.openTabs| == |s.openTabs|
      && IsPinned(TogglePin(r, t1).openTabs[k]) == IsPinned(tab)
  {
    TogglePinFlips(s, tab, k);
    var r := TogglePin(s, tab);
    TogglePinFlips(r, r.openTabs[k], k);
  }
}
