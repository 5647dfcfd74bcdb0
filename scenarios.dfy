/**
 * Small exports worked out in full: one workspace with all three kinds of
 * section, a lone blank tab, and a group with no members.
 */
module Scenarios {
  import opened Wrappers
  import opened OrderedMap
  import opened Text
  import opened Records
  import opened Aggregator
  import opened Render
  import opened RenderFacts
  import opened Export
  import AggregatorFacts
  import opened Seqs

  /** A page whose bookmark is `title` at `url`. */
  function Loaded(title: string, url: string): Page
  {
    Page(Some(title), None, Some(url), None)
  }

  lemma LoadedEntry(e: Entry)
    requires GoodEntry(e)
    ensures ResolveEntry(Loaded(e.title, e.url)) == Some(e)
  {
  }

  lemma BracedId()
    ensures WorkspaceId(Some("{abc}")) == "abc"
  {
    var s := "{abc}";
    assert s[1..] == "abc}" && s[1..][1..] == "bc}" && s[1..][1..][1..] == "c}" && s[1..][1..][1..][1..] == "}";
    assert StripBraces("}") == [];
    assert StripBraces("c}") == "c";
    assert StripBraces("bc}") == "bc";
    assert StripBraces("abc}") == "abc";
  }

  /** A workspace with one essential and one loose pinned bookmark, and folder `folder` holding one bookmark. */
  lemma ScenarioDocument(mail: Entry, news: Entry, docs: Entry, folder: string)
    ensures var b := Bucket([mail], [news], [(folder, [docs])]);
      SectionNames(b) == ["Essentials", "Pinned Tabs", folder]
      && |Matching(DocLines("abc", b), LinkPrefix)| == 3
  {
    var b := Bucket([mail], [news], [(folder, [docs])]);
    OneFolder(folder, [docs]);
    DocumentLinks("abc", b);
  }

  lemma OneFolder(name: string, es: seq<Entry>)
    ensures FolderNames([(name, es)]) == [name] && FolderEntries([(name, es)]) == es
  {
    var f := [(name, es)];
    assert f[..0] == [];
    assert [] + es == es;
  }

  /** Pass 1 over the essential tab and the loose pinned tab of workspace `{abc}`. */
  lemma ScenarioTabs(mail: Entry, news: Entry)
    requires GoodEntry(mail) && GoodEntry(news)
    ensures var attr := Some("{abc}");
      TabPass([], [Tab(attr, Some("true"), true, false, Loaded(mail.title, mail.url)),
                   Tab(attr, None, true, false, Loaded(news.title, news.url))])
        == [("abc", Bucket([mail], [news], []))]
  {
    var attr := Some("{abc}");
    var t1 := Tab(attr, Some("true"), true, false, Loaded(mail.title, mail.url));
    var t2 := Tab(attr, None, true, false, Loaded(news.title, news.url));
    var b1 := Bucket([mail], [], []);
    assert [t1, t2][..1] == [t1] && [t1][..0] == [];
    assert TabPass([], [t1]) == AddTab([], t1);
    EssentialTab(mail);
    assert TabPass([], [t1, t2]) == AddTab([("abc", b1)], t2);
    PinnedTab(b1, news);
  }

  lemma EssentialTab(mail: Entry)
    requires GoodEntry(mail)
    ensures AddTab([], Tab(Some("{abc}"), Some("true"), true, false, Loaded(mail.title, mail.url)))
         == [("abc", Bucket([mail], [], []))]
  {
    var t := Tab(Some("{abc}"), Some("true"), true, false, Loaded(mail.title, mail.url));
    BracedId();
    LoadedEntry(mail);
    assert BucketOf([], "abc") == EmptyBucket;
    assert CompartmentOf(t) == Essentials;
    assert Classify(EmptyBucket, t, mail) == Bucket([mail], [], []) by {
      assert [] + [mail] == [mail];
    }
  }

  lemma PinnedTab(b: Bucket, news: Entry)
    requires GoodEntry(news) && b.pinnedOutside == []
    ensures AddTab([("abc", b)], Tab(Some("{abc}"), None, true, false, Loaded(news.title, news.url)))
         == [("abc", b.(pinnedOutside := [news]))]
  {
    var t := Tab(Some("{abc}"), None, true, false, Loaded(news.title, news.url));
    BracedId();
    LoadedEntry(news);
    assert BucketOf([("abc", b)], "abc") == b;
    assert CompartmentOf(t) == PinnedOutside;
    assert Classify(b, t, news) == b.(pinnedOutside := [news]) by {
      assert [] + [news] == [news];
    }
  }

  /** A member whose page is loaded gives its bookmark. */
  lemma TabMember(e: Entry)
    requires GoodEntry(e)
    ensures MemberEntries([Item("tab", Loaded(e.title, e.url))]) == [e]
  {
    var items := [Item("tab", Loaded(e.title, e.url))];
    LoadedEntry(e);
    assert LowerAscii("tab") == "tab";
    assert items[..0] == [];
  }

  /** Pass 2 over a one-tab group of workspace `{abc}`. */
  lemma ScenarioGroup(b: Bucket, docs: Entry, folder: string)
    requires GoodEntry(docs) && folder != "" && b.folders == []
    ensures GroupPass([("abc", b)], [Group(Some("{abc}"), Some(folder), "g1", [Item("tab", Loaded(docs.title, docs.url))])])
         == [("abc", b.(folders := [(folder, [docs])]))]
  {
    var g := Group(Some("{abc}"), Some(folder), "g1", [Item("tab", Loaded(docs.title, docs.url))]);
    var ws := [("abc", b)];
    BracedId();
    TabMember(docs);
    assert [g][..0] == [];
    assert GroupPass(ws, [g]) == AddGroup(ws, g);
    assert BucketOf(ws, "abc") == b;
    assert FolderOf(b, folder) == [];
    assert AddGroup(ws, g) == WithFolder(ws, "abc", folder, [] + [docs]);
    assert Put(b.folders, folder, [] + [docs]) == [(folder, [docs])];
  }

  /**
   * An essential tab, a loose pinned tab and a one-tab group, all in
   * workspace `{abc}`: one workspace `abc` whose document has the sections
   * Essentials, Pinned Tabs and the group's folder, one bookmark each.
   */
  lemma OneWorkspaceThreeSections(mail: Entry, news: Entry, docs: Entry, folder: string,
                                  year: int, month0: int, day: int)
    requires GoodEntry(mail) && GoodEntry(news) && GoodEntry(docs) && folder != ""
    ensures var attr := Some("{abc}");
      var tabs := [Tab(attr, Some("true"), true, false, Loaded(mail.title, mail.url)),
                   Tab(attr, None, true, false, Loaded(news.title, news.url))];
      var groups := [Group(attr, Some(folder), "g1", [Item("tab", Loaded(docs.title, docs.url))])];
      var ws := Aggregate(tabs, groups);
      && ws == [("abc", Bucket([mail], [news], [(folder, [docs])]))]
      && SectionNames(ws[0].1) == ["Essentials", "Pinned Tabs", folder]
      && |Matching(DocLines("abc", ws[0].1), LinkPrefix)| == 3
      && Downloads(ws, year, month0, day)
           == [Download("zen-bookmarks-abc-" + DateStamp(year, month0, day) + ".html", Document("abc", ws[0].1))]
  {
    ScenarioTabs(mail, news);
    ScenarioGroup(Bucket([mail], [news], []), docs, folder);
    ScenarioDocument(mail, news, docs, folder);
    var ws := [("abc", Bucket([mail], [news], [(folder, [docs])]))];
    OneDownload(ws, year, month0, day);
    AbcFileName(year, month0, day);
  }

  /** A single workspace gives a single file. */
  lemma OneDownload(ws: Workspaces, year: int, month0: int, day: int)
    requires |ws| == 1
    ensures Downloads(ws, year, month0, day) == [FileFor(ws[0].0, ws[0].1, year, month0, day)]
  {
    assert ws[..0] == [];
  }

  /** The file of workspace `abc` is named `zen-bookmarks-abc-` and the date stamp. */
  lemma AbcFileName(year: int, month0: int, day: int)
    ensures FileName("abc", year, month0, day) == "zen-bookmarks-abc-" + DateStamp(year, month0, day) + ".html"
  {
    var abc := "abc";
    assert NoBraces(abc) by {
      assert forall i :: 0 <= i < |abc| ==> !IsBrace(abc[i]);
    }
    StripBracesNoop(abc);
    FileNameParts(abc, year, month0, day);
    Regroup(NamePrefix, abc, "-", DateStamp(year, month0, day), NameSuffix);
    assert NamePrefix + abc + "-" == "zen-bookmarks-abc-";
  }

  /** A tab with no workspace and a blank page adds nothing, not even the default workspace. */
  lemma BlankTabAlone(essential: Option<string>, pinned: bool, inGroup: bool, title: Option<string>)
    ensures Aggregate([Tab(None, essential, pinned, inGroup, Page(title, title, Some(Blank), None))], []) == []
  {
    var t := Tab(None, essential, pinned, inGroup, Page(title, title, Some(Blank), None));
    AggregatorFacts.UnusableTabsChangeNothing([], [t]);
  }

  /** Aggregating one group with no members and no tabs. */
  lemma EmptyGroupAggregate(attr: Option<string>, name: string)
    requires name != ""
    ensures Aggregate([], [Group(attr, Some(name), "g1", [])]) == [(WorkspaceId(attr), Bucket([], [], [(name, [])]))]
  {
    var g := Group(attr, Some(name), "g1", []);
    assert [g][..0] == [];
    var b := Bucket([], [], [(name, [])]);
    assert BucketOf([], WorkspaceId(attr)) == EmptyBucket;
    assert FolderOf(EmptyBucket, name) == [];
    var none: seq<Entry> := [];
    assert FolderName(g) == name && MemberEntries(g.items) == none;
    assert FolderOf(BucketOf([], WorkspaceId(attr)), name) + none == none;
    assert AddGroup([], g) == WithFolder([], WorkspaceId(attr), name, none);
    assert Put([], name, none) == [(name, none)];
    assert WithFolder([], WorkspaceId(attr), name, none) == Put([], WorkspaceId(attr), b);
    assert TabPass([], []) == [];
    assert GroupPass([], [g]) == AddGroup([], g);
  }

  /** A group with no members still gets its folder, an empty section in the document. */
  lemma EmptyGroupStillListed(attr: Option<string>, name: string)
    requires name != ""
    ensures var ws := Aggregate([], [Group(attr, Some(name), "g1", [])]);
      && ws == [(WorkspaceId(attr), Bucket([], [], [(name, [])]))]
      && Document(WorkspaceId(attr), ws[0].1)
           == Concat(PreambleLines(WorkspaceId(attr))) + Concat(SectionLines(name, [])) + DocumentClose
  {
    EmptyGroupAggregate(attr, name);
    EmptyFolderDocument(WorkspaceId(attr), name);
  }

  /** The document of a bucket that holds only an empty folder. */
  lemma EmptyFolderDocument(id: string, name: string)
    ensures Document(id, Bucket([], [], [(name, [])]))
         == Concat(PreambleLines(id)) + Concat(SectionLines(name, [])) + DocumentClose
  {
    var b := Bucket([], [], [(name, [])]);
    DocumentText(id, b);
    assert FolderLines(b.folders) == SectionLines(name, []) by {
      assert b.folders[..0] == [];
    }
    var p, none := Concat(PreambleLines(id)), Concat([]);
    assert none == "";
    assert p + none + none == p;
  }
}
