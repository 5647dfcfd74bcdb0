/**
 * The two passes that sort tabs into one bucket per workspace: pass 1 over
 * the tab strip fills the Essentials and loose pinned lists, pass 2 over the
 * tab groups fills one folder list per group name.
 */
module Aggregator {
  import opened Wrappers
  import opened OrderedMap
  import opened Records

  /** What is collected for one workspace; `folders` keeps first-seen order. */
  datatype Bucket = Bucket(
    essentials: seq<Entry>,
    pinnedOutside: seq<Entry>,
    folders: seq<(string, seq<Entry>)>)

  /** Workspace id to bucket, in first-reference order. */
  type Workspaces = seq<(string, Bucket)>

  const EmptyBucket := Bucket([], [], [])

  /** The bucket of workspace `id`, or an empty one when it has none yet. */
  function BucketOf(ws: Workspaces, id: string): Bucket
  {
    match Get(ws, id)
    case Some(b) => b
    case None => EmptyBucket
  }

  /** The list of folder `name`, or the empty list when there is no such folder. */
  function FolderOf(b: Bucket, name: string): seq<Entry>
  {
    match Get(b.folders, name)
    case Some(l) => l
    case None => []
  }

  // ---------------------------------------------------------------------
  // Pass 1: the tab strip

  /** Where pass 1 files a tab that has a usable URL. */
  datatype Compartment = Essentials | PinnedOutside | Nowhere

  /** Essential first; then pinned and outside any group; else not filed. */
  function CompartmentOf(t: Tab): Compartment
  {
    if IsEssential(t) then Essentials
    else if !t.inGroupContainer && t.pinned then PinnedOutside
    else Nowhere
  }

  function Classify(b: Bucket, t: Tab, e: Entry): Bucket
  {
    match CompartmentOf(t)
    case Essentials => b.(essentials := b.essentials + [e])
    case PinnedOutside => b.(pinnedOutside := b.pinnedOutside + [e])
    case Nowhere => b
  }

  /**
   * One step of pass 1: a tab without a usable URL changes nothing; any
   * other tab creates its workspace's bucket if need be and is filed there.
   */
  function AddTab(ws: Workspaces, t: Tab): Workspaces
  {
    match ResolveEntry(t.page)
    case None => ws
    case Some(e) =>
      var id := WorkspaceId(t.workspaceAttr);
      Put(ws, id, Classify(BucketOf(ws, id), t, e))
  }

  /** Pass 1 over `tabs`, in order, starting from `ws`. */
  function TabPass(ws: Workspaces, tabs: seq<Tab>): Workspaces
    decreases |tabs|
  {
    if tabs == [] then ws
    else AddTab(TabPass(ws, tabs[..|tabs| - 1]), tabs[|tabs| - 1])
  }

  /** Pass 1 as the source runs it: a loop over the tabs that updates the map. */
  method CollectTabs(tabs: seq<Tab>) returns (ws: Workspaces)
    ensures ws == TabPass([], tabs)
  {
    ws := [];
    var i := 0;
    while i < |tabs|
      invariant 0 <= i <= |tabs|
      invariant ws == TabPass([], tabs[..i])
    {
      var tab := tabs[i];
      assert tabs[..i + 1][..i] == tabs[..i];
      ghost var before := ws;
      var wsId := WorkspaceId(tab.workspaceAttr);
      var rawUrl := ResolveUrl(tab.page);
      if rawUrl.Some? && rawUrl.value != Blank {
        var isInFolder := tab.inGroupContainer;
        if Get(ws, wsId).None? {
          ws := Put(ws, wsId, EmptyBucket);
        }
        var bucket := Get(ws, wsId).value;
        assert bucket == BucketOf(before, wsId);
        var entry := Entry(Title(tab.page, rawUrl.value), rawUrl.value);
        if IsEssential(tab) {
          PutPut(before, wsId, EmptyBucket, bucket.(essentials := bucket.essentials + [entry]));
          ws := Put(ws, wsId, bucket.(essentials := bucket.essentials + [entry]));
        } else if !isInFolder && tab.pinned {
          PutPut(before, wsId, EmptyBucket, bucket.(pinnedOutside := bucket.pinnedOutside + [entry]));
          ws := Put(ws, wsId, bucket.(pinnedOutside := bucket.pinnedOutside + [entry]));
        } else if Get(before, wsId).Some? {
          PutUnchanged(before, wsId, bucket);
        }
      }
      i := i + 1;
    }
    assert tabs[..i] == tabs;
  }

  // ---------------------------------------------------------------------
  // Pass 2: the tab groups

  /** The bookmark a group member contributes: none for a non-tab or an unusable URL. */
  function ItemEntries(item: Item): (r: seq<Entry>)
    ensures |r| <= 1
    ensures forall e :: e in r <==> IsTabItem(item) && ResolveEntry(item.page) == Some(e)
  {
    if !IsTabItem(item) then []
    else match ResolveEntry(item.page)
      case Some(e) => [e]
      case None => []
  }

  /** The bookmarks of a group's members, in member order. */
  function MemberEntries(items: seq<Item>): (r: seq<Entry>)
    ensures |r| <= |items|
    decreases |items|
  {
    if items == [] then []
    else MemberEntries(items[..|items| - 1]) + ItemEntries(items[|items| - 1])
  }

  /** `ws` with the list of folder `name` of workspace `id` set to `list`. */
  function WithFolder(ws: Workspaces, id: string, name: string, list: seq<Entry>): Workspaces
  {
    var b := BucketOf(ws, id);
    Put(ws, id, b.(folders := Put(b.folders, name, list)))
  }

  lemma WithFolderGet(ws: Workspaces, id: string, name: string, list: seq<Entry>)
    ensures Get(WithFolder(ws, id, name, list), id).Some?
    ensures Get(BucketOf(WithFolder(ws, id, name, list), id).folders, name) == Some(list)
  {
  }

  lemma WithFolderTwice(ws: Workspaces, id: string, name: string, l1: seq<Entry>, l2: seq<Entry>)
    ensures WithFolder(WithFolder(ws, id, name, l1), id, name, l2) == WithFolder(ws, id, name, l2)
  {
    var b := BucketOf(ws, id);
    var b1 := b.(folders := Put(b.folders, name, l1));
    assert BucketOf(WithFolder(ws, id, name, l1), id) == b1;
    PutPut(b.folders, name, l1, l2);
    assert b1.(folders := Put(b1.folders, name, l2)) == b.(folders := Put(b.folders, name, l2));
    PutPut(ws, id, b1, b.(folders := Put(b.folders, name, l2)));
  }

  lemma WithFolderSame(ws: Workspaces, id: string, name: string)
    requires Get(ws, id).Some? && Get(BucketOf(ws, id).folders, name).Some?
    ensures WithFolder(ws, id, name, FolderOf(BucketOf(ws, id), name)) == ws
  {
    var b := BucketOf(ws, id);
    PutUnchanged(b.folders, name, FolderOf(b, name));
    assert b.(folders := b.folders) == b;
    PutUnchanged(ws, id, b);
  }

  /**
   * One step of pass 2: the group's workspace bucket and its folder are
   * created if need be (even when no member qualifies), and the members'
   * bookmarks are appended to the folder.
   */
  function AddGroup(ws: Workspaces, g: Group): Workspaces
  {
    var id := WorkspaceId(g.workspaceAttr);
    var name := FolderName(g);
    WithFolder(ws, id, name, FolderOf(BucketOf(ws, id), name) + MemberEntries(g.items))
  }

  /** Pass 2 over `groups`, in order, starting from `ws`. */
  function GroupPass(ws: Workspaces, groups: seq<Group>): Workspaces
    decreases |groups|
  {
    if groups == [] then ws
    else AddGroup(GroupPass(ws, groups[..|groups| - 1]), groups[|groups| - 1])
  }

  /**
   * The callback of the inner loop of pass 2: one group member's bookmark,
   * if it has one, pushed onto the existing folder `name` of workspace `id`.
   */
  method PushMember(start: Workspaces, id: string, name: string, item: Item) returns (ws: Workspaces)
    requires Get(start, id).Some? && Get(BucketOf(start, id).folders, name).Some?
    ensures ws == WithFolder(start, id, name, FolderOf(BucketOf(start, id), name) + ItemEntries(item))
  {
    ws := start;
    if !IsTabItem(item) {
      WithFolderSame(start, id, name);
      assert FolderOf(BucketOf(start, id), name) + [] == FolderOf(BucketOf(start, id), name);
      return;
    }
    var rawUrl := ResolveUrl(item.page);
    if rawUrl.None? || rawUrl.value == Blank {
      WithFolderSame(start, id, name);
      assert FolderOf(BucketOf(start, id), name) + [] == FolderOf(BucketOf(start, id), name);
      return;
    }
    var title := Title(item.page, rawUrl.value);
    var bucket := Get(ws, id).value;
    var list := Get(bucket.folders, name).value;
    ws := Put(ws, id, bucket.(folders := Put(bucket.folders, name, list + [Entry(title, rawUrl.value)])));
  }

  lemma MemberEntriesStep(base: seq<Entry>, items: seq<Item>, j: nat)
    requires j < |items|
    ensures base + MemberEntries(items[..j + 1]) == base + MemberEntries(items[..j]) + ItemEntries(items[j])
  {
    assert items[..j + 1][..j] == items[..j];
  }

  /**
   * The inner loop of pass 2: the bookmarks of `items` pushed, one by one,
   * onto the existing folder `name` of the existing workspace `id`.
   */
  method PushMembers(start: Workspaces, id: string, name: string, items: seq<Item>) returns (ws: Workspaces)
    requires Get(start, id).Some? && Get(BucketOf(start, id).folders, name).Some?
    ensures ws == WithFolder(start, id, name, FolderOf(BucketOf(start, id), name) + MemberEntries(items))
  {
    ghost var base := FolderOf(BucketOf(start, id), name);
    WithFolderSame(start, id, name);
    ws := start;
    var j := 0;
    assert base + MemberEntries(items[..j]) == base;
    while j < |items|
      invariant 0 <= j <= |items|
      invariant ws == WithFolder(start, id, name, base + MemberEntries(items[..j]))
    {
      ghost var done := base + MemberEntries(items[..j]);
      MemberEntriesStep(base, items, j);
      WithFolderGet(start, id, name, done);
      ws := PushMember(ws, id, name, items[j]);
      WithFolderTwice(start, id, name, done, done + ItemEntries(items[j]));
      j := j + 1;
    }
    assert items[..j] == items;
  }

  /**
   * The start of one group's step: the workspace bucket and then the folder
   * are created when missing; an existing folder keeps its list.
   */
  method EnsureFolder(start: Workspaces, id: string, name: string) returns (ws: Workspaces)
    ensures ws == WithFolder(start, id, name, FolderOf(BucketOf(start, id), name))
  {
    ws := start;
    if Get(ws, id).None? {
      ws := Put(ws, id, EmptyBucket);
    }
    var bucket := Get(ws, id).value;
    if Get(bucket.folders, name).None? {
      bucket := bucket.(folders := Put(bucket.folders, name, []));
      PutPut(start, id, EmptyBucket, bucket);
      ws := Put(ws, id, bucket);
    } else {
      WithFolderSame(start, id, name);
    }
  }

  /** Pass 2 as the source runs it: a loop over the groups that updates the map. */
  method CollectGroups(start: Workspaces, groups: seq<Group>) returns (ws: Workspaces)
    ensures ws == GroupPass(start, groups)
  {
    ws := start;
    var i := 0;
    while i < |groups|
      invariant 0 <= i <= |groups|
      invariant ws == GroupPass(start, groups[..i])
    {
      var group := groups[i];
      assert groups[..i + 1][..i] == groups[..i];
      ghost var before := ws;
      var wsId := WorkspaceId(group.workspaceAttr);
      var folderName := FolderName(group);
      ghost var base := FolderOf(BucketOf(before, wsId), folderName);
      ws := EnsureFolder(ws, wsId, folderName);
      WithFolderGet(before, wsId, folderName, base);
      ws := PushMembers(ws, wsId, folderName, group.items);
      WithFolderTwice(before, wsId, folderName, base, base + MemberEntries(group.items));
      i := i + 1;
    }
    assert groups[..i] == groups;
  }

  /** Both passes: the tabs, then the groups, from an empty map. */
  function Aggregate(tabs: seq<Tab>, groups: seq<Group>): Workspaces
  {
    GroupPass(TabPass([], tabs), groups)
  }

  /** Both passes as the source runs them. */
  method CollectWorkspaces(tabs: seq<Tab>, groups: seq<Group>) returns (ws: Workspaces)
    ensures ws == Aggregate(tabs, groups)
  {
    ws := CollectTabs(tabs);
    ws := CollectGroups(ws, groups);
  }
}
