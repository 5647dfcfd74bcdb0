/**
 * What the document of a workspace contains: one bookmark line per entry, in
 * bucket order; one heading per non-empty section; as many list openings as
 * closings; and bookmark lines from which the entry can be read back.
 */
module RenderFacts {
  import opened Wrappers
  import opened Records
  import opened Text
  import opened Aggregator
  import opened Render
  import opened OrderedMap
  import opened AggregatorFacts

  // ---------------------------------------------------------------------
  // Selecting lines by their prefix

  /** The lines that start with `prefix`, in document order. */
  function Matching(lines: seq<string>, prefix: string): (r: seq<string>)
    ensures |r| <= |lines|
    ensures forall l :: l in r ==> StartsWith(l, prefix)
    decreases |lines|
  {
    if lines == [] then []
    else
      var rest := Matching(lines[..|lines| - 1], prefix);
      if StartsWith(lines[|lines| - 1], prefix) then rest + [lines[|lines| - 1]] else rest
  }

  lemma MatchingSnoc(s: seq<string>, line: string, prefix: string)
    ensures Matching(s + [line], prefix) == Matching(s, prefix) + (if StartsWith(line, prefix) then [line] else [])
  {
    var t := s + [line];
    assert t[..|t| - 1] == s;
    assert t[|t| - 1] == line;
  }

  lemma {:induction false} MatchingAppend(a: seq<string>, b: seq<string>, prefix: string)
    ensures Matching(a + b, prefix) == Matching(a, prefix) + Matching(b, prefix)
    decreases |b|
  {
    if b == [] {
      assert a + b == a;
    } else {
      var init, last := b[..|b| - 1], b[|b| - 1];
      MatchingAppend(a, init, prefix);
      assert a + b == (a + init) + [last] by {
        assert b == init + [last];
      }
      assert b == init + [last];
      MatchingSnoc(a + init, last, prefix);
      MatchingSnoc(init, last, prefix);
      var ma, mi, ml := Matching(a, prefix), Matching(init, prefix), if StartsWith(last, prefix) then [last] else [];
      assert ma + mi + ml == ma + (mi + ml);
    }
  }

  lemma MatchingOne(line: string, prefix: string)
    ensures Matching([line], prefix) == if StartsWith(line, prefix) then [line] else []
  {
    assert [line][..0] == [];
  }

  /** A line that starts with `other` does not start with a prefix that differs from `other` at some position. */
  lemma Differ(line: string, other: string, prefix: string, i: nat)
    requires StartsWith(line, other)
    requires i < |other| && i < |prefix| && other[i] != prefix[i]
    ensures !StartsWith(line, prefix)
  {
    assert line[..|other|][i] == line[i];
  }

  lemma StartsWithItself(s: string)
    ensures StartsWith(s, s)
  {
    assert s[..|s|] == s;
  }

  /** The kinds of line a document is searched for. */
  datatype Kind = Link | Heading | ListOpen | ListClose

  /** The prefix that marks a line of kind `k`. */
  function PrefixOf(k: Kind): string
  {
    match k
    case Link => LinkPrefix
    case Heading => HeaderPrefix
    case ListOpen => SectionOpen
    case ListClose => SectionClose
  }

  /** The characters that tell the kinds of line apart. */
  lemma Glyphs()
    ensures |LinkPrefix| == 17 && LinkPrefix[0] == ' ' && LinkPrefix[2] == ' '
    ensures |HeaderPrefix| == 10 && HeaderPrefix[0] == ' ' && HeaderPrefix[2] == '<'
    ensures HeaderPrefix[3] == 'D' && HeaderPrefix[4] == 'T'
    ensures |SectionOpen| == 10 && SectionOpen[0] == ' ' && SectionOpen[2] == '<'
    ensures SectionOpen[3] == 'D' && SectionOpen[4] == 'L'
    ensures |SectionClose| == 11 && SectionClose[0] == ' ' && SectionClose[2] == '<' && SectionClose[3] == '/'
    ensures |DocumentClose| == 9 && DocumentClose[0] == '<'
  {
  }

  lemma HeaderLineStart(name: string)
    ensures StartsWith(HeaderLine(name), HeaderPrefix)
  {
    assert HeaderLine(name)[..|HeaderPrefix|] == HeaderPrefix;
  }

  lemma LinkLineStart(e: Entry)
    ensures StartsWith(LinkLine(e), LinkPrefix)
  {
    assert LinkLine(e)[..|LinkPrefix|] == LinkPrefix;
  }

  /** Every line of the preamble starts with `<`. */
  lemma PreambleStart(id: string)
    ensures forall i :: 0 <= i < |PreambleLines(id)| ==> StartsWith(PreambleLines(id)[i], "<")
  {
    var p := PreambleLines(id);
    assert p[0][0] == '<' && p[0][..1] == [p[0][0]];
    assert p[1][0] == '<' && p[1][..1] == [p[1][0]];
    assert p[2][0] == '<' && p[2][..1] == [p[2][0]];
    assert p[3][0] == '<' && p[3][..1] == [p[3][0]];
    assert p[4][0] == '<' && p[4][..1] == [p[4][0]];
  }

  lemma PreambleMatchesNothing(id: string, k: Kind)
    ensures Matching(PreambleLines(id), PrefixOf(k)) == []
    ensures Matching([DocumentClose], PrefixOf(k)) == []
  {
    var p, prefix := PreambleLines(id), PrefixOf(k);
    Glyphs();
    PreambleStart(id);
    forall i | 0 <= i < |p|
      ensures !StartsWith(p[i], prefix)
    {
      Differ(p[i], "<", prefix, 0);
    }
    NoneMatch(p, prefix);
    StartsWithItself(DocumentClose);
    Differ(DocumentClose, DocumentClose, prefix, 0);
    MatchingOne(DocumentClose, prefix);
  }

  lemma {:induction false} NoneMatch(lines: seq<string>, prefix: string)
    requires forall i :: 0 <= i < |lines| ==> !StartsWith(lines[i], prefix)
    ensures Matching(lines, prefix) == []
    decreases |lines|
  {
    if lines != [] {
      NoneMatch(lines[..|lines| - 1], prefix);
    }
  }

  // ---------------------------------------------------------------------
  // Sections

  /** The headings of a list of section names. */
  function HeaderLines(names: seq<string>): (r: seq<string>)
    ensures |r| == |names|
    decreases |names|
  {
    if names == [] then [] else HeaderLines(names[..|names| - 1]) + [HeaderLine(names[|names| - 1])]
  }

  lemma {:induction false} LinkLinesAppend(a: seq<Entry>, b: seq<Entry>)
    ensures LinkLines(a + b) == LinkLines(a) + LinkLines(b)
    decreases |b|
  {
    if b == [] {
      assert a + b == a;
    } else {
      LinkLinesAppend(a, b[..|b| - 1]);
      assert (a + b)[..|a + b| - 1] == a + b[..|b| - 1];
    }
  }

  lemma {:induction false} LinkLinesMatch(es: seq<Entry>, k: Kind)
    ensures Matching(LinkLines(es), PrefixOf(k)) == if k == Link then LinkLines(es) else []
    decreases |es|
  {
    if es != [] {
      var l := LinkLine(es[|es| - 1]);
      LinkLinesMatch(es[..|es| - 1], k);
      LinkLineStart(es[|es| - 1]);
      if k != Link {
        Glyphs();
        Differ(l, LinkPrefix, PrefixOf(k), 2);
      }
    }
  }

  lemma HeaderMatching(name: string, k: Kind)
    ensures Matching([HeaderLine(name)], PrefixOf(k)) == if k == Heading then [HeaderLine(name)] else []
  {
    var prefix := PrefixOf(k);
    Glyphs();
    HeaderLineStart(name);
    MatchingOne(HeaderLine(name), prefix);
    match k
    case Link => Differ(HeaderLine(name), HeaderPrefix, prefix, 2);
    case Heading =>
    case ListOpen => Differ(HeaderLine(name), HeaderPrefix, prefix, 4);
    case ListClose => Differ(HeaderLine(name), HeaderPrefix, prefix, 3);
  }

  lemma OpenMatching(k: Kind)
    ensures Matching([SectionOpen], PrefixOf(k)) == if k == ListOpen then [SectionOpen] else []
  {
    var prefix := PrefixOf(k);
    Glyphs();
    StartsWithItself(SectionOpen);
    MatchingOne(SectionOpen, prefix);
    match k
    case Link => Differ(SectionOpen, SectionOpen, prefix, 2);
    case Heading => Differ(SectionOpen, SectionOpen, prefix, 4);
    case ListOpen =>
    case ListClose => Differ(SectionOpen, SectionOpen, prefix, 3);
  }

  lemma CloseMatching(k: Kind)
    ensures Matching([SectionClose], PrefixOf(k)) == if k == ListClose then [SectionClose] else []
  {
    var prefix := PrefixOf(k);
    Glyphs();
    StartsWithItself(SectionClose);
    MatchingOne(SectionClose, prefix);
    match k
    case Link => Differ(SectionClose, SectionClose, prefix, 2);
    case Heading => Differ(SectionClose, SectionClose, prefix, 3);
    case ListOpen => Differ(SectionClose, SectionClose, prefix, 3);
    case ListClose =>
  }

  lemma SectionParts(name: string, es: seq<Entry>, prefix: string)
    ensures Matching(SectionLines(name, es), prefix)
         == Matching([HeaderLine(name)], prefix) + Matching([SectionOpen], prefix)
          + Matching(LinkLines(es), prefix) + Matching([SectionClose], prefix)
  {
    var h := HeaderLine(name);
    assert [h, SectionOpen] == [h] + [SectionOpen];
    MatchingAppend([h], [SectionOpen], prefix);
    MatchingAppend([h, SectionOpen], LinkLines(es), prefix);
    MatchingAppend([h, SectionOpen] + LinkLines(es), [SectionClose], prefix);
  }

  /** A section's lines of kind `k`, from its four parts. */
  lemma SectionKind(name: string, es: seq<Entry>, k: Kind)
    ensures Matching(SectionLines(name, es), PrefixOf(k))
         == (if k == Heading then [HeaderLine(name)] else [])
          + (if k == ListOpen then [SectionOpen] else [])
          + (if k == Link then LinkLines(es) else [])
          + (if k == ListClose then [SectionClose] else [])
  {
    SectionParts(name, es, PrefixOf(k));
    HeaderMatching(name, k);
    OpenMatching(k);
    LinkLinesMatch(es, k);
    CloseMatching(k);
  }

  /** Which lines of a section start with each searched prefix: its bookmarks, its one heading, its one opening, its one closing. */
  lemma SectionMatching(name: string, es: seq<Entry>, k: Kind)
    ensures Matching(SectionLines(name, es), PrefixOf(k))
         == match k
            case Link => LinkLines(es)
            case Heading => [HeaderLine(name)]
            case ListOpen => [SectionOpen]
            case ListClose => [SectionClose]
  {
    SectionKind(name, es, k);
    var none: seq<string> := [];
    match k
    case Link =>
      assert none + none + LinkLines(es) + none == LinkLines(es);
    case Heading =>
      assert [HeaderLine(name)] + none + none + none == [HeaderLine(name)];
    case ListOpen =>
      assert none + [SectionOpen] + none + none == [SectionOpen];
    case ListClose =>
      assert none + none + none + [SectionClose] == [SectionClose];
  }

  // ---------------------------------------------------------------------
  // Folders and whole documents

  /** The entries of the folders, one folder after the other. */
  function FolderEntries(folders: seq<(string, seq<Entry>)>): (r: seq<Entry>)
    decreases |folders|
  {
    if folders == [] then []
    else FolderEntries(folders[..|folders| - 1]) + folders[|folders| - 1].1
  }

  function FolderNames(folders: seq<(string, seq<Entry>)>): (r: seq<string>)
    ensures |r| == |folders|
    decreases |folders|
  {
    if folders == [] then [] else FolderNames(folders[..|folders| - 1]) + [folders[|folders| - 1].0]
  }

  /** The folder names, read from the last folder back, are the map's keys. */
  lemma {:induction false} FolderNamesAreKeys(folders: seq<(string, seq<Entry>)>)
    ensures FolderNames(folders) == Keys(folders)
    decreases |folders|
  {
    if folders != [] {
      var init := folders[..|folders| - 1];
      FolderNamesAreKeys(init);
      KeysSnoc(init, folders[|folders| - 1]);
      assert init + [folders[|folders| - 1]] == folders;
    }
  }

  /** Every entry of a bucket in the order the document lists them. */
  function AllEntries(b: Bucket): seq<Entry>
  {
    b.essentials + b.pinnedOutside + FolderEntries(b.folders)
  }

  /** The headings a bucket's document carries, in order. */
  function SectionNames(b: Bucket): seq<string>
  {
    (if |b.essentials| > 0 then ["Essentials"] else [])
      + (if |b.pinnedOutside| > 0 then ["Pinned Tabs"] else [])
      + FolderNames(b.folders)
  }

  lemma {:induction false} FolderLinks(folders: seq<(string, seq<Entry>)>)
    ensures Matching(FolderLines(folders), LinkPrefix) == LinkLines(FolderEntries(folders))
    decreases |folders|
  {
    if folders != [] {
      var init, f := folders[..|folders| - 1], folders[|folders| - 1];
      FolderLinks(init);
      MatchingAppend(FolderLines(init), SectionLines(f.0, f.1), LinkPrefix);
      SectionMatching(f.0, f.1, Link);
      LinkLinesAppend(FolderEntries(init), f.1);
    }
  }

  lemma {:induction false} FolderHeaders(folders: seq<(string, seq<Entry>)>)
    ensures Matching(FolderLines(folders), HeaderPrefix) == HeaderLines(FolderNames(folders))
    decreases |folders|
  {
    if folders != [] {
      var init, f := folders[..|folders| - 1], folders[|folders| - 1];
      FolderHeaders(init);
      MatchingAppend(FolderLines(init), SectionLines(f.0, f.1), HeaderPrefix);
      SectionMatching(f.0, f.1, Heading);
      assert FolderNames(folders)[..|folders| - 1] == FolderNames(init);
    }
  }

  lemma {:induction false} FolderLists(folders: seq<(string, seq<Entry>)>)
    ensures |Matching(FolderLines(folders), SectionOpen)| == |folders|
    ensures |Matching(FolderLines(folders), SectionClose)| == |folders|
    decreases |folders|
  {
    if folders != [] {
      var init, f := folders[..|folders| - 1], folders[|folders| - 1];
      FolderLists(init);
      MatchingAppend(FolderLines(init), SectionLines(f.0, f.1), SectionOpen);
      MatchingAppend(FolderLines(init), SectionLines(f.0, f.1), SectionClose);
      SectionMatching(f.0, f.1, ListOpen);
      SectionMatching(f.0, f.1, ListClose);
    }
  }

  lemma MatchingParts(p: seq<string>, e: seq<string>, n: seq<string>, f: seq<string>, c: seq<string>, prefix: string)
    requires Matching(p, prefix) == [] && Matching(c, prefix) == []
    ensures Matching(p + e + n + f + c, prefix) == Matching(e, prefix) + Matching(n, prefix) + Matching(f, prefix)
  {
    var body := e + n + f;
    MatchingAppend(p + e + n + f, c, prefix);
    assert Matching(p + e + n + f, prefix) + [] == Matching(p + e + n + f, prefix);
    assert p + e + n + f == p + body;
    MatchingAppend(p, body, prefix);
    assert [] + Matching(body, prefix) == Matching(body, prefix);
    MatchingAppend(e, n, prefix);
    MatchingAppend(e + n, f, prefix);
  }

  /** The preamble and the final line hold none of the searched lines. */
  lemma DocMatching(id: string, b: Bucket, k: Kind)
    ensures Matching(DocLines(id, b), PrefixOf(k))
         == Matching(OptionalSectionLines("Essentials", b.essentials), PrefixOf(k))
          + Matching(OptionalSectionLines("Pinned Tabs", b.pinnedOutside), PrefixOf(k))
          + Matching(FolderLines(b.folders), PrefixOf(k))
  {
    var prefix := PrefixOf(k);
    var p, e, n, f := PreambleLines(id), OptionalSectionLines("Essentials", b.essentials),
                      OptionalSectionLines("Pinned Tabs", b.pinnedOutside), FolderLines(b.folders);
    assert DocLines(id, b) == p + e + n + f + [DocumentClose];
    PreambleMatchesNothing(id, k);
    MatchingParts(p, e, n, f, [DocumentClose], prefix);
  }

  /**
   * The bookmark lines of a document are one per entry of the bucket:
   * Essentials first, then the pinned tabs, then each folder's entries.
   */
  lemma DocumentLinks(id: string, b: Bucket)
    ensures Matching(DocLines(id, b), LinkPrefix) == LinkLines(AllEntries(b))
    ensures |Matching(DocLines(id, b), LinkPrefix)|
         == |b.essentials| + |b.pinnedOutside| + |FolderEntries(b.folders)|
  {
    DocMatching(id, b, Link);
    if |b.essentials| > 0 {
      SectionMatching("Essentials", b.essentials, Link);
    } else {
      assert b.essentials == [];
    }
    if |b.pinnedOutside| > 0 {
      SectionMatching("Pinned Tabs", b.pinnedOutside, Link);
    } else {
      assert b.pinnedOutside == [];
    }
    FolderLinks(b.folders);
    LinkLinesAppend(b.essentials, b.pinnedOutside);
    LinkLinesAppend(b.essentials + b.pinnedOutside, FolderEntries(b.folders));
  }

  /** A document has a heading for each non-empty fixed section and for each folder, in that order. */
  lemma DocumentHeaders(id: string, b: Bucket)
    ensures Matching(DocLines(id, b), HeaderPrefix) == HeaderLines(SectionNames(b))
  {
    DocMatching(id, b, Heading);
    if |b.essentials| > 0 {
      SectionMatching("Essentials", b.essentials, Heading);
    }
    if |b.pinnedOutside| > 0 {
      SectionMatching("Pinned Tabs", b.pinnedOutside, Heading);
    }
    FolderHeaders(b.folders);
    var e := if |b.essentials| > 0 then ["Essentials"] else [];
    var n := if |b.pinnedOutside| > 0 then ["Pinned Tabs"] else [];
    HeaderLinesAppend(e, n);
    HeaderLinesAppend(e + n, FolderNames(b.folders));
    assert HeaderLines(["Essentials"]) == [HeaderLine("Essentials")] by {
      assert ["Essentials"][..0] == [];
    }
    assert HeaderLines(["Pinned Tabs"]) == [HeaderLine("Pinned Tabs")] by {
      assert ["Pinned Tabs"][..0] == [];
    }
  }

  /**
   * After both passes, the headings of workspace `w`'s document are
   * Essentials when pass 1 filed an essential tab there, Pinned Tabs when it
   * filed a loose pinned tab there, and then one heading per group name of
   * that workspace, in the order the names are first used.
   */
  lemma AggregateHeadings(tabs: seq<Tab>, groups: seq<Group>, w: string)
    ensures var b := BucketOf(Aggregate(tabs, groups), w);
      Matching(DocLines(w, b), HeaderPrefix)
        == HeaderLines((if |Filed(tabs, w, Essentials)| > 0 then ["Essentials"] else [])
                     + (if |Filed(tabs, w, PinnedOutside)| > 0 then ["Pinned Tabs"] else [])
                     + AppendNew([], FolderNamesIn(groups, w)))
  {
    var b := BucketOf(Aggregate(tabs, groups), w);
    AggregateBucket(tabs, groups, w, "");
    DocumentHeaders(w, b);
    FolderNamesAreKeys(b.folders);
  }

  lemma {:induction false} HeaderLinesAppend(a: seq<string>, b: seq<string>)
    ensures HeaderLines(a + b) == HeaderLines(a) + HeaderLines(b)
    decreases |b|
  {
    if b == [] {
      assert a + b == a;
    } else {
      HeaderLinesAppend(a, b[..|b| - 1]);
      assert (a + b)[..|a + b| - 1] == a + b[..|b| - 1];
    }
  }

  /** A document has one list-open line, and one list-close line, per section. */
  lemma DocumentLists(id: string, b: Bucket, k: Kind)
    requires k == ListOpen || k == ListClose
    ensures |Matching(DocLines(id, b), PrefixOf(k))| == |SectionNames(b)|
  {
    DocMatching(id, b, k);
    OptionalLists("Essentials", b.essentials, k);
    OptionalLists("Pinned Tabs", b.pinnedOutside, k);
    FolderLists(b.folders);
    var e := if |b.essentials| > 0 then ["Essentials"] else [];
    var n := if |b.pinnedOutside| > 0 then ["Pinned Tabs"] else [];
    assert |SectionNames(b)| == |e| + |n| + |b.folders|;
  }

  /** A section written only when its list is not empty opens and closes one list, or none. */
  lemma OptionalLists(name: string, es: seq<Entry>, k: Kind)
    requires k == ListOpen || k == ListClose
    ensures |Matching(OptionalSectionLines(name, es), PrefixOf(k))| == if |es| > 0 then 1 else 0
  {
    if |es| > 0 {
      SectionMatching(name, es, k);
    }
  }

  /** Every section of a document opens one list and closes one list. */
  lemma DocumentListsBalanced(id: string, b: Bucket)
    ensures |Matching(DocLines(id, b), SectionOpen)| == |SectionNames(b)|
    ensures |Matching(DocLines(id, b), SectionClose)| == |SectionNames(b)|
  {
    DocumentLists(id, b, ListOpen);
    DocumentLists(id, b, ListClose);
  }

  // ---------------------------------------------------------------------
  // Reading a bookmark line back

  /** The position of the first `"` in `s`, or `|s|` when there is none. */
  function QuoteIndex(s: string): (k: nat)
    ensures k <= |s|
    ensures forall i :: 0 <= i < k ==> s[i] != '"'
    ensures k < |s| ==> s[k] == '"'
  {
    if s == [] || s[0] == '"' then 0 else 1 + QuoteIndex(s[1..])
  }

  const LinkClose := "</A>\n"

  /**
   * The entry a bookmark line stands for: the URL runs from the prefix to
   * the first `"`, the title from the following `">` to the closing tag.
   */
  function ParseLink(line: string): Option<Entry>
  {
    if !StartsWith(line, LinkPrefix) then None
    else
      var rest := line[|LinkPrefix|..];
      var q := QuoteIndex(rest);
      var tail := rest[q..];
      if |tail| < 2 + |LinkClose| || tail[..2] != "\">" || tail[|tail| - |LinkClose|..] != LinkClose then None
      else Some(Entry(UnescapeQuotes(tail[2..|tail| - |LinkClose|]), UnescapeQuotes(rest[..q])))
  }

  /** A bookmark line is what the prefix, the two escaped fields and the fixed separators make. */
  lemma LinkLineShape(e: Entry)
    ensures LinkLine(e) == LinkPrefix + (EscapeQuotes(e.url) + ("\">" + EscapeQuotes(e.title) + LinkClose))
  {
  }

  /** In `u + tail` with no `"` in `u`, the first `"` is the one that starts `tail`. */
  lemma QuoteIndexAt(u: string, tail: string)
    requires '"' !in u && |tail| > 0 && tail[0] == '"'
    ensures QuoteIndex(u + tail) == |u|
    ensures (u + tail)[..|u|] == u && (u + tail)[|u|..] == tail
  {
    var s := u + tail;
    assert s[|u|] == '"';
  }

  /** The parts of `open + t + close` that the reader cuts out. */
  lemma Fields(open: string, t: string, close: string)
    requires |open| == 2
    ensures var tail := open + t + close;
      |tail| >= 2 + |close| && tail[0] == open[0] && tail[..2] == open
      && tail[|tail| - |close|..] == close && tail[2..|tail| - |close|] == t
  {
  }

  /**
   * The escaped URL stops at the first `"` of a bookmark line, so the line
   * gives the entry back whenever neither field holds an `&`.
   */
  lemma LinkLineRoundTrip(e: Entry)
    requires '&' !in e.url && '&' !in e.title
    ensures ParseLink(LinkLine(e)) == Some(e)
  {
    var u, t, open := EscapeQuotes(e.url), EscapeQuotes(e.title), "\">";
    assert |open| == 2 && open[0] == '"';
    var tail := open + t + LinkClose;
    LinkLineShape(e);
    LinkLineStart(e);
    assert LinkLine(e)[|LinkPrefix|..] == u + tail;
    Fields(open, t, LinkClose);
    QuoteIndexAt(u, tail);
    UnescapeEscape(e.url);
    UnescapeEscape(e.title);
  }
}
