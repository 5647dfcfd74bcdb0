/**
 * What the two passes produce, stated against reference definitions that
 * look at one workspace (and one folder) at a time: which bookmarks land in
 * which list, in which order, and in which order workspaces and folders
 * appear.
 */
module AggregatorFacts {
  import opened Wrappers
  import opened OrderedMap
  import opened Records
  import opened Aggregator
  import opened Seqs

  // ---------------------------------------------------------------------
  // Reference definitions

  /** The bookmark pass 1 files for tab `t` under compartment `c` of workspace `w`, if any. */
  function FiledEntry(t: Tab, w: string, c: Compartment): seq<Entry>
  {
    match ResolveEntry(t.page)
    case Some(e) => if WorkspaceId(t.workspaceAttr) == w && CompartmentOf(t) == c then [e] else []
    case None => []
  }

  /** The bookmarks pass 1 files under compartment `c` of workspace `w`, in tab order. */
  function Filed(tabs: seq<Tab>, w: string, c: Compartment): seq<Entry>
    decreases |tabs|
  {
    if tabs == [] then []
    else Filed(tabs[..|tabs| - 1], w, c) + FiledEntry(tabs[|tabs| - 1], w, c)
  }

  /** Pass 1 files only bookmarks with a title and a usable URL. */
  lemma {:induction false} FiledGood(tabs: seq<Tab>, w: string, c: Compartment)
    ensures forall e :: e in Filed(tabs, w, c) ==> GoodEntry(e)
    decreases |tabs|
  {
    if tabs != [] {
      FiledGood(tabs[..|tabs| - 1], w, c);
    }
  }

  /** The workspace ids of the tabs that have a usable URL, in tab order. */
  function UsableTabIds(tabs: seq<Tab>): seq<string>
    decreases |tabs|
  {
    if tabs == [] then []
    else
      var t := tabs[|tabs| - 1];
      UsableTabIds(tabs[..|tabs| - 1]) + if ResolveEntry(t.page).Some? then [WorkspaceId(t.workspaceAttr)] else []
  }

  /** The workspace ids of the groups, in group order. */
  function GroupIds(groups: seq<Group>): (r: seq<string>)
    ensures forall g :: g in groups ==> WorkspaceId(g.workspaceAttr) in r
    decreases |groups|
  {
    if groups == [] then []
    else
      var r := GroupIds(groups[..|groups| - 1]) + [WorkspaceId(groups[|groups| - 1].workspaceAttr)];
      assert forall g :: g in groups ==> g in groups[..|groups| - 1] || g == groups[|groups| - 1];
      r
  }

  /** The folder names of the groups of workspace `w`, in group order. */
  function FolderNamesIn(groups: seq<Group>, w: string): (r: seq<string>)
    ensures forall g :: g in groups && WorkspaceId(g.workspaceAttr) == w ==> FolderName(g) in r
    decreases |groups|
  {
    if groups == [] then []
    else
      var g := groups[|groups| - 1];
      var r := FolderNamesIn(groups[..|groups| - 1], w) + if WorkspaceId(g.workspaceAttr) == w then [FolderName(g)] else [];
      assert forall h :: h in groups ==> h in groups[..|groups| - 1] || h == g;
      r
  }

  /** The bookmarks of all groups of workspace `w` named `name`, group after group. */
  function GroupEntries(groups: seq<Group>, w: string, name: string): (r: seq<Entry>)
    ensures forall e :: e in r ==> GoodEntry(e)
    decreases |groups|
  {
    if groups == [] then []
    else
      var g := groups[|groups| - 1];
      MemberEntriesGood(g.items);
      GroupEntries(groups[..|groups| - 1], w, name)
        + if WorkspaceId(g.workspaceAttr) == w && FolderName(g) == name then MemberEntries(g.items) else []
  }

  /** Group members contribute only bookmarks with a title and a usable URL. */
  lemma {:induction false} MemberEntriesGood(items: seq<Item>)
    ensures forall e :: e in MemberEntries(items) ==> GoodEntry(e)
    decreases |items|
  {
    if items != [] {
      MemberEntriesGood(items[..|items| - 1]);
    }
  }

  /**
   * A bookmark is among a group's member bookmarks exactly when some member
   * is a tab whose page resolves to it: non-tab members and unusable URLs
   * give nothing, every usable tab member gives its bookmark.
   */
  lemma {:induction false} MemberEntriesExactly(items: seq<Item>)
    ensures forall e :: (e in MemberEntries(items)
      <==> exists i :: 0 <= i < |items| && IsTabItem(items[i]) && ResolveEntry(items[i].page) == Some(e))
    decreases |items|
  {
    if items != [] {
      var init, last := items[..|items| - 1], items[|items| - 1];
      MemberEntriesExactly(init);
      forall e
        ensures e in MemberEntries(items)
          <==> exists i :: 0 <= i < |items| && IsTabItem(items[i]) && ResolveEntry(items[i].page) == Some(e)
      {
        if e in MemberEntries(items) {
          if e in MemberEntries(init) {
            var i :| 0 <= i < |init| && IsTabItem(init[i]) && ResolveEntry(init[i].page) == Some(e);
            assert items[i] == init[i];
          } else {
            assert e in ItemEntries(last);
            assert items[|items| - 1] == last;
          }
        }
        if exists i :: 0 <= i < |items| && IsTabItem(items[i]) && ResolveEntry(items[i].page) == Some(e) {
          var i :| 0 <= i < |items| && IsTabItem(items[i]) && ResolveEntry(items[i].page) == Some(e);
          if i < |items| - 1 {
            assert init[i] == items[i];
          } else {
            assert e in ItemEntries(last);
          }
        }
      }
    }
  }

  // ---------------------------------------------------------------------
  // Pass 1

  /**
   * After pass 1 a workspace's Essentials and loose pinned lists have grown
   * by exactly the bookmarks of its tabs filed there, in tab order; its
   * folders are untouched.
   */
  lemma {:induction false} TabPassBucket(ws: Workspaces, tabs: seq<Tab>, w: string)
    ensures var b := BucketOf(ws, w);
      BucketOf(TabPass(ws, tabs), w)
        == Bucket(b.essentials + Filed(tabs, w, Essentials),
                  b.pinnedOutside + Filed(tabs, w, PinnedOutside),
                  b.folders)
    decreases |tabs|
  {
    var b := BucketOf(ws, w);
    if tabs == [] {
      assert b.essentials + [] == b.essentials && b.pinnedOutside + [] == b.pinnedOutside;
    } else {
      var prefix, t := tabs[..|tabs| - 1], tabs[|tabs| - 1];
      TabPassBucket(ws, prefix, w);
      AddTabBucket(TabPass(ws, prefix), t, w);
      var es, ps := Filed(prefix, w, Essentials), Filed(prefix, w, PinnedOutside);
      Assoc(b.essentials, es, FiledEntry(t, w, Essentials));
      Assoc(b.pinnedOutside, ps, FiledEntry(t, w, PinnedOutside));
    }
  }

  /** One step of pass 1 seen from workspace `w`: at most one of its two lists grows, by the tab's bookmark. */
  lemma AddTabBucket(ws: Workspaces, t: Tab, w: string)
    ensures var b := BucketOf(ws, w);
      BucketOf(AddTab(ws, t), w)
        == Bucket(b.essentials + FiledEntry(t, w, Essentials),
                  b.pinnedOutside + FiledEntry(t, w, PinnedOutside),
                  b.folders)
  {
    var b := BucketOf(ws, w);
    match ResolveEntry(t.page)
    case None =>
      assert b.essentials + [] == b.essentials && b.pinnedOutside + [] == b.pinnedOutside;
    case Some(e) =>
      if WorkspaceId(t.workspaceAttr) != w {
        assert b.essentials + [] == b.essentials && b.pinnedOutside + [] == b.pinnedOutside;
      } else {
        match CompartmentOf(t)
        case Essentials =>
          assert b.pinnedOutside + [] == b.pinnedOutside;
        case PinnedOutside =>
          assert b.essentials + [] == b.essentials;
        case Nowhere =>
          assert b.essentials + [] == b.essentials && b.pinnedOutside + [] == b.pinnedOutside;
      }
  }

  /** Pass 1 adds workspaces in the order their first usable tab appears. */
  lemma {:induction false} TabPassKeys(ws: Workspaces, tabs: seq<Tab>)
    ensures Keys(TabPass(ws, tabs)) == AppendNew(Keys(ws), UsableTabIds(tabs))
    decreases |tabs|
  {
    if tabs != [] {
      var prefix, t := tabs[..|tabs| - 1], tabs[|tabs| - 1];
      TabPassKeys(ws, prefix);
      var mid := TabPass(ws, prefix);
      var ids := UsableTabIds(tabs);
      match ResolveEntry(t.page)
      case None =>
        assert ids == UsableTabIds(prefix) + [];
        assert ids == UsableTabIds(prefix);
      case Some(e) =>
        var id := WorkspaceId(t.workspaceAttr);
        PutKeys(mid, id, Classify(BucketOf(mid, id), t, e));
        assert ids[..|ids| - 1] == UsableTabIds(prefix);
    }
  }

  /**
   * Tabs without a usable URL (missing, or `about:blank`) change nothing:
   * in particular they never create a workspace bucket.
   */
  lemma {:induction false} UnusableTabsChangeNothing(ws: Workspaces, tabs: seq<Tab>)
    requires forall i :: 0 <= i < |tabs| ==> ResolveEntry(tabs[i].page).None?
    ensures TabPass(ws, tabs) == ws
    decreases |tabs|
  {
    if tabs != [] {
      UnusableTabsChangeNothing(ws, tabs[..|tabs| - 1]);
    }
  }

  // ---------------------------------------------------------------------
  // Pass 2

  /** What setting one folder list does to the bucket of any workspace. */
  lemma WithFolderBucket(ws: Workspaces, id: string, name: string, list: seq<Entry>, w: string)
    ensures var b := BucketOf(ws, id);
      BucketOf(WithFolder(ws, id, name, list), w)
        == if w == id then b.(folders := Put(b.folders, name, list)) else BucketOf(ws, w)
  {
  }

  /** One group: only folder `FolderName(g)` of workspace `WorkspaceId(g)` grows, by the group's bookmarks. */
  lemma AddGroupBucket(ws: Workspaces, g: Group, w: string, name: string)
    ensures var b := BucketOf(ws, w); var b' := BucketOf(AddGroup(ws, g), w);
      b'.essentials == b.essentials && b'.pinnedOutside == b.pinnedOutside
      && FolderOf(b', name) == FolderOf(b, name)
           + if WorkspaceId(g.workspaceAttr) == w && FolderName(g) == name then MemberEntries(g.items) else []
  {
    var id, gname := WorkspaceId(g.workspaceAttr), FolderName(g);
    var b := BucketOf(ws, w);
    var list := FolderOf(BucketOf(ws, id), gname) + MemberEntries(g.items);
    WithFolderBucket(ws, id, gname, list, w);
    if id != w || gname != name {
      assert FolderOf(b, name) + [] == FolderOf(b, name);
    }
  }

  /** One group: folder `FolderName(g)` is added to the end of its workspace's folders if it is new. */
  lemma AddGroupFolderNames(ws: Workspaces, g: Group, w: string)
    ensures var names := Keys(BucketOf(ws, w).folders);
      Keys(BucketOf(AddGroup(ws, g), w).folders)
        == if WorkspaceId(g.workspaceAttr) == w && FolderName(g) !in names then names + [FolderName(g)] else names
  {
    var id, gname := WorkspaceId(g.workspaceAttr), FolderName(g);
    var list := FolderOf(BucketOf(ws, id), gname) + MemberEntries(g.items);
    WithFolderBucket(ws, id, gname, list, w);
    PutKeys(BucketOf(ws, id).folders, gname, list);
  }

  /**
   * Pass 2 leaves Essentials and loose pinned lists alone, and folder `name`
   * of workspace `w` grows by the bookmarks of every group of that workspace
   * and name, in group order; a repeated name appends, never replaces.
   */
  lemma {:induction false} GroupPassBucket(ws: Workspaces, groups: seq<Group>, w: string, name: string)
    ensures var b := BucketOf(ws, w); var b' := BucketOf(GroupPass(ws, groups), w);
      b'.essentials == b.essentials && b'.pinnedOutside == b.pinnedOutside
      && FolderOf(b', name) == FolderOf(b, name) + GroupEntries(groups, w, name)
    decreases |groups|
  {
    var b := BucketOf(ws, w);
    if groups == [] {
      assert FolderOf(b, name) + [] == FolderOf(b, name);
    } else {
      var prefix, g := groups[..|groups| - 1], groups[|groups| - 1];
      GroupPassBucket(ws, prefix, w, name);
      AddGroupBucket(GroupPass(ws, prefix), g, w, name);
      var added := if WorkspaceId(g.workspaceAttr) == w && FolderName(g) == name then MemberEntries(g.items) else [];
      assert GroupEntries(groups, w, name) == GroupEntries(prefix, w, name) + added;
      Assoc(FolderOf(b, name), GroupEntries(prefix, w, name), added);
    }
  }

  /** Pass 2 adds the folders of a workspace in the order their first group appears. */
  lemma {:induction false} GroupPassFolderNames(ws: Workspaces, groups: seq<Group>, w: string)
    ensures Keys(BucketOf(GroupPass(ws, groups), w).folders)
         == AppendNew(Keys(BucketOf(ws, w).folders), FolderNamesIn(groups, w))
    decreases |groups|
  {
    if groups != [] {
      var prefix, g := groups[..|groups| - 1], groups[|groups| - 1];
      GroupPassFolderNames(ws, prefix, w);
      AddGroupFolderNames(GroupPass(ws, prefix), g, w);
      var names := FolderNamesIn(groups, w);
      var ks := Keys(BucketOf(ws, w).folders);
      var prev := AppendNew(ks, FolderNamesIn(prefix, w));
      if WorkspaceId(g.workspaceAttr) == w {
        assert names == FolderNamesIn(prefix, w) + [FolderName(g)];
        assert names[..|names| - 1] == FolderNamesIn(prefix, w);
        assert AppendNew(ks, names) == if FolderName(g) in prev then prev else prev + [FolderName(g)];
      } else {
        assert names == FolderNamesIn(prefix, w) + [];
        assert names == FolderNamesIn(prefix, w);
        assert AppendNew(ks, names) == prev;
      }
    }
  }

  /** Pass 2 adds workspaces in the order their first group appears. */
  lemma {:induction false} GroupPassKeys(ws: Workspaces, groups: seq<Group>)
    ensures Keys(GroupPass(ws, groups)) == AppendNew(Keys(ws), GroupIds(groups))
    decreases |groups|
  {
    if groups != [] {
      var prefix, g := groups[..|groups| - 1], groups[|groups| - 1];
      GroupPassKeys(ws, prefix);
      var m := GroupPass(ws, prefix);
      var id, gname := WorkspaceId(g.workspaceAttr), FolderName(g);
      var b := BucketOf(m, id);
      PutKeys(m, id, b.(folders := Put(b.folders, gname, FolderOf(b, gname) + MemberEntries(g.items))));
      var ids := GroupIds(groups);
      assert ids[..|ids| - 1] == GroupIds(prefix);
    }
  }

  // ---------------------------------------------------------------------
  // Both passes

  /**
   * The workspaces come out in first-reference order, over the usable tabs
   * and then the groups, each id once.
   */
  lemma AggregateKeys(tabs: seq<Tab>, groups: seq<Group>)
    ensures Keys(Aggregate(tabs, groups)) == AppendNew([], UsableTabIds(tabs) + GroupIds(groups))
    ensures Distinct(Keys(Aggregate(tabs, groups)))
  {
    TabPassKeys([], tabs);
    GroupPassKeys(TabPass([], tabs), groups);
    AppendNewConcat([], UsableTabIds(tabs), GroupIds(groups));
  }

  /**
   * Each workspace's lists after both passes: Essentials and loose pinned
   * tabs as pass 1 filed them, folders in first-seen order of the group
   * names, each folder the bookmarks of all groups of that name.
   */
  lemma AggregateBucket(tabs: seq<Tab>, groups: seq<Group>, w: string, name: string)
    ensures var b := BucketOf(Aggregate(tabs, groups), w);
      b.essentials == Filed(tabs, w, Essentials)
      && b.pinnedOutside == Filed(tabs, w, PinnedOutside)
      && Keys(b.folders) == AppendNew([], FolderNamesIn(groups, w))
      && FolderOf(b, name) == GroupEntries(groups, w, name)
  {
    var ws := TabPass([], tabs);
    var ess, pin := Filed(tabs, w, Essentials), Filed(tabs, w, PinnedOutside);
    assert BucketOf([], w) == EmptyBucket;
    TabPassBucket([], tabs, w);
    assert [] + ess == ess && [] + pin == pin;
    var b := BucketOf(ws, w);
    assert b == Bucket(ess, pin, []);
    assert FolderOf(b, name) == [];
    GroupPassBucket(ws, groups, w, name);
    GroupPassFolderNames(ws, groups, w);
    assert Keys(b.folders) == [];
    assert [] + GroupEntries(groups, w, name) == GroupEntries(groups, w, name);
  }

  /** Every stored bookmark has a title and a URL that is neither empty nor `about:blank`. */
  lemma AggregateEntriesGood(tabs: seq<Tab>, groups: seq<Group>, w: string, name: string)
    ensures var b := BucketOf(Aggregate(tabs, groups), w);
      forall e :: e in b.essentials + b.pinnedOutside + FolderOf(b, name) ==> GoodEntry(e)
  {
    AggregateBucket(tabs, groups, w, name);
    FiledGood(tabs, w, Essentials);
    FiledGood(tabs, w, PinnedOutside);
  }

  /** Every group has a folder in its workspace, even one with no qualifying member. */
  lemma EveryGroupHasFolder(tabs: seq<Tab>, groups: seq<Group>, g: Group)
    requires g in groups
    ensures WorkspaceId(g.workspaceAttr) in Keys(Aggregate(tabs, groups))
    ensures FolderName(g) in Keys(BucketOf(Aggregate(tabs, groups), WorkspaceId(g.workspaceAttr)).folders)
  {
    AggregateKeys(tabs, groups);
    AggregateBucket(tabs, groups, WorkspaceId(g.workspaceAttr), FolderName(g));
  }

  /**
   * An essential tab that also sits in a group is listed twice: under
   * Essentials by pass 1 and in its folder by pass 2.
   */
  lemma EssentialGroupedTabListedTwice(t: Tab, g: Group)
    requires IsEssential(t) && ResolveEntry(t.page).Some?
    requires g.workspaceAttr == t.workspaceAttr && g.items == [Item("tab", t.page)]
    ensures var b := BucketOf(Aggregate([t], [g]), WorkspaceId(t.workspaceAttr));
      b.essentials == [ResolveEntry(t.page).value]
      && FolderOf(b, FolderName(g)) == [ResolveEntry(t.page).value]
  {
    var w, e := WorkspaceId(t.workspaceAttr), ResolveEntry(t.page).value;
    AggregateBucket([t], [g], w, FolderName(g));
    assert [t][..0] == [] && [g][..0] == [];
    assert Filed([t], w, Essentials) == [] + [e];
    OneTabMember(t.page);
    assert GroupEntries([g], w, FolderName(g)) == [] + [e];
  }

  /** A group whose only member is a tab on a usable page holds that page's bookmark. */
  lemma OneTabMember(p: Page)
    requires ResolveEntry(p).Some?
    ensures MemberEntries([Item("tab", p)]) == [ResolveEntry(p).value]
  {
    var items := [Item("tab", p)];
    assert items[..0] == [];
    assert LowerAscii("tab") == "tab";
    assert ItemEntries(items[0]) == [ResolveEntry(p).value];
  }
}
