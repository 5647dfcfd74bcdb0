/**
 * The Netscape bookmark document written for one workspace. The document is
 * described as the list of lines the exporter emits, each ending in a line
 * feed; the file's text is their concatenation.
 */
module Render {
  import opened OrderedMap
  import opened Records
  import opened Text
  import opened Aggregator
  import opened Seqs

  // ---------------------------------------------------------------------
  // Lines

  predicate StartsWith(line: string, prefix: string)
  {
    |prefix| <= |line| && line[..|prefix|] == prefix
  }

  const HeaderPrefix := "  <DT><H3>"
  const LinkPrefix := "    <DT><A HREF=\""
  const SectionOpen := "  <DL><p>\n"
  const SectionClose := "  </DL><p>\n"
  const DocumentClose := "</DL><p>\n"

  /** The fixed preamble; the workspace id appears, unescaped, in the title and the heading. */
  function PreambleLines(id: string): seq<string>
  {
    [ "<!DOCTYPE NETSCAPE-Bookmark-file-1>\n",
      "<META HTTP-EQUIV=\"Content-Type\" " + "CONTENT=\"text/html; charset=UTF-8\">\n",
      "<TITLE>Zen Browser Bookmarks \U{2013} Workspace " + id + "</TITLE>\n",
      "<H1>Zen Browser Bookmarks \U{2013} Workspace " + id + "</H1>\n",
      "<DL><p>\n" ]
  }

  /** A section heading; the name is not escaped. */
  function HeaderLine(name: string): string
  {
    HeaderPrefix + name + "</H3>\n"
  }

  /** One bookmark: URL and title with every `"` escaped, and nothing else. */
  function LinkLine(e: Entry): string
  {
    LinkPrefix + EscapeQuotes(e.url) + "\">" + EscapeQuotes(e.title) + "</A>\n"
  }

  function LinkLines(es: seq<Entry>): (r: seq<string>)
    ensures |r| == |es|
    decreases |es|
  {
    if es == [] then [] else LinkLines(es[..|es| - 1]) + [LinkLine(es[|es| - 1])]
  }

  /** A heading, the opening of its list, one line per bookmark, and the closing of the list. */
  function SectionLines(name: string, es: seq<Entry>): seq<string>
  {
    [HeaderLine(name), SectionOpen] + LinkLines(es) + [SectionClose]
  }

  /** A section that is written only when its list is not empty (Essentials, Pinned Tabs). */
  function OptionalSectionLines(name: string, es: seq<Entry>): seq<string>
  {
    if |es| > 0 then SectionLines(name, es) else []
  }

  /** One section per folder, in folder order, empty folders included. */
  function FolderLines(folders: seq<(string, seq<Entry>)>): seq<string>
    decreases |folders|
  {
    if folders == [] then []
    else
      var f := folders[|folders| - 1];
      FolderLines(folders[..|folders| - 1]) + SectionLines(f.0, f.1)
  }

  /** The lines of the document of workspace `id`. */
  function DocLines(id: string, b: Bucket): seq<string>
  {
    PreambleLines(id)
      + OptionalSectionLines("Essentials", b.essentials)
      + OptionalSectionLines("Pinned Tabs", b.pinnedOutside)
      + FolderLines(b.folders)
      + [DocumentClose]
  }

  function Concat(lines: seq<string>): string
    decreases |lines|
  {
    if lines == [] then "" else Concat(lines[..|lines| - 1]) + lines[|lines| - 1]
  }

  lemma {:induction false} ConcatAppend(a: seq<string>, b: seq<string>)
    ensures Concat(a + b) == Concat(a) + Concat(b)
    decreases |b|
  {
    if b == [] {
      assert a + b == a;
    } else {
      var init, last := b[..|b| - 1], b[|b| - 1];
      ConcatAppend(a, init);
      assert b == init + [last];
      assert a + b == (a + init) + [last];
      ConcatSnoc(a + init, last);
      ConcatSnoc(init, last);
      Assoc(Concat(a), Concat(init), last);
    }
  }

  lemma ConcatSnoc(lines: seq<string>, line: string)
    ensures Concat(lines + [line]) == Concat(lines) + line
  {
    var t := lines + [line];
    assert t[..|t| - 1] == lines;
  }

  /** The text of the document of workspace `id`. */
  function Document(id: string, b: Bucket): string
  {
    Concat(DocLines(id, b))
  }

  // ---------------------------------------------------------------------
  // The emitter

  lemma SectionText(name: string, es: seq<Entry>)
    ensures Concat(SectionLines(name, es)) == HeaderLine(name) + SectionOpen + Concat(LinkLines(es)) + SectionClose
  {
    var head := [HeaderLine(name), SectionOpen];
    assert head[..1] == [HeaderLine(name)] && [HeaderLine(name)][..0] == [];
    ConcatAppend(head, LinkLines(es));
    ConcatAppend(head + LinkLines(es), [SectionClose]);
  }

  /** One section, appended to `html` as the source does: heading, list, one line per bookmark, end of list. */
  method AppendSection(html: string, name: string, entries: seq<Entry>) returns (out: string)
    ensures out == html + Concat(SectionLines(name, entries))
  {
    out := html + HeaderLine(name);
    out := out + SectionOpen;
    ghost var start := out;
    var i := 0;
    while i < |entries|
      invariant 0 <= i <= |entries|
      invariant out == start + Concat(LinkLines(entries[..i]))
    {
      var safeTitle := EscapeQuotes(entries[i].title);
      var safeUrl := EscapeQuotes(entries[i].url);
      assert entries[..i + 1][..i] == entries[..i];
      ghost var done := Concat(LinkLines(entries[..i]));
      assert Concat(LinkLines(entries[..i + 1])) == done + LinkLine(entries[i]);
      Assoc(start, done, LinkLine(entries[i]));
      out := out + (LinkPrefix + safeUrl + "\">" + safeTitle + "</A>\n");
      i := i + 1;
    }
    assert entries[..i] == entries;
    SectionText(name, entries);
    ghost var links := Concat(LinkLines(entries));
    Assoc(html, HeaderLine(name), SectionOpen);
    Assoc(html, HeaderLine(name) + SectionOpen, links);
    Assoc(html, HeaderLine(name) + SectionOpen + links, SectionClose);
    out := out + SectionClose;
  }

  /** Every folder, in folder order, appended to `html` as a section. */
  method AppendFolders(html: string, folders: seq<(string, seq<Entry>)>) returns (out: string)
    ensures out == html + Concat(FolderLines(folders))
  {
    out := html;
    var k := 0;
    assert html + Concat(FolderLines(folders[..k])) == html;
    while k < |folders|
      invariant 0 <= k <= |folders|
      invariant out == html + Concat(FolderLines(folders[..k]))
    {
      var (folderName, items) := folders[k];
      assert folders[..k + 1][..k] == folders[..k];
      ghost var done := FolderLines(folders[..k]);
      assert FolderLines(folders[..k + 1]) == done + SectionLines(folderName, items);
      ConcatAppend(done, SectionLines(folderName, items));
      Assoc(html, Concat(done), Concat(SectionLines(folderName, items)));
      out := AppendSection(out, folderName, items);
      k := k + 1;
    }
    assert folders[..k] == folders;
  }

  /** The document of one workspace, built by appending to a string. */
  method RenderWorkspace(id: string, b: Bucket) returns (html: string)
    ensures html == Document(id, b)
  {
    ghost var preamble := PreambleLines(id);
    ghost var essentials := OptionalSectionLines("Essentials", b.essentials);
    ghost var pinned := OptionalSectionLines("Pinned Tabs", b.pinnedOutside);
    ghost var folders := FolderLines(b.folders);
    html := Concat(PreambleLines(id));
    if |b.essentials| > 0 {
      html := AppendSection(html, "Essentials", b.essentials);
    }
    assert html == Concat(preamble) + Concat(essentials);
    if |b.pinnedOutside| > 0 {
      html := AppendSection(html, "Pinned Tabs", b.pinnedOutside);
    }
    assert html == Concat(preamble) + Concat(essentials) + Concat(pinned);
    html := AppendFolders(html, b.folders);
    html := html + DocumentClose;
    DocumentText(id, b);
  }

  /** The text of a document is the text of its parts, one after the other. */
  lemma DocumentText(id: string, b: Bucket)
    ensures Document(id, b)
         == Concat(PreambleLines(id))
          + Concat(OptionalSectionLines("Essentials", b.essentials))
          + Concat(OptionalSectionLines("Pinned Tabs", b.pinnedOutside))
          + Concat(FolderLines(b.folders))
          + DocumentClose
  {
    var p, e, n, f := PreambleLines(id), OptionalSectionLines("Essentials", b.essentials),
                      OptionalSectionLines("Pinned Tabs", b.pinnedOutside), FolderLines(b.folders);
    ConcatAppend(p, e);
    ConcatAppend(p + e, n);
    ConcatAppend(p + e + n, f);
    ConcatAppend(p + e + n + f, [DocumentClose]);
    assert [DocumentClose][..0] == [];
  }
}
