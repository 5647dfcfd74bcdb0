/**
 * The fields the exporter reads from the browser's tab and tab-group
 * elements, and how it turns them into a workspace id, a URL and a title.
 */
module Records {
  import opened Wrappers
  import opened Text

  /** JavaScript truthiness of an optional string: present and not empty. */
  predicate Truthy(o: Option<string>)
  {
    o.Some? && o.value != ""
  }

  /** What is read from a tab to build a bookmark. */
  datatype Page = Page(
    labelAttr: Option<string>,         // the `label` attribute
    contentTitle: Option<string>,  // the title of the page loaded in the tab's browser
    originalUrl: Option<string>,   // the tab's `_originalUrl` property
    currentSpec: Option<string>)   // the spec of the tab browser's current URI

  /** A tab element of the tab strip. */
  datatype Tab = Tab(
    workspaceAttr: Option<string>,  // the `zen-workspace-id` attribute
    essentialAttr: Option<string>,  // the `zen-essential` attribute
    pinned: bool,                   // the `pinned` attribute is present
    inGroupContainer: bool,         // the parent element has class `tab-group-container`
    page: Page)

  /** A member of a tab group: a tab, or another kind of element. */
  datatype Item = Item(tagName: string, page: Page)

  /** A tab group (a Zen folder). */
  datatype Group = Group(
    workspaceAttr: Option<string>,  // the `zen-workspace-id` attribute
    labelAttr: Option<string>,          // the `label` attribute
    id: string,                     // the element id
    items: seq<Item>)

  /** One bookmark. */
  datatype Entry = Entry(title: string, url: string)

  const Blank := "about:blank"
  const DefaultWorkspace := "default"

  /** What every stored bookmark satisfies. */
  predicate GoodEntry(e: Entry)
  {
    e.title != "" && e.url != "" && e.url != Blank
  }

  /**
   * The workspace of a tab or a group. The attribute is tested for
   * truthiness before its braces are removed, so an attribute made only of
   * braces gives the empty id rather than the default.
   */
  function WorkspaceId(attr: Option<string>): (id: string)
    ensures NoBraces(id)
    ensures !Truthy(attr) ==> id == DefaultWorkspace
    ensures Truthy(attr) ==> id == StripBraces(attr.value)
    ensures Truthy(attr) ==> |id| == |attr.value| - BraceCount(attr.value)
    ensures Truthy(attr) && NoBraces(attr.value) ==> id == attr.value
  {
    if Truthy(attr) then
      if NoBraces(attr.value) then StripBracesNoop(attr.value); StripBraces(attr.value)
      else StripBraces(attr.value)
    else
      assert forall i :: 0 <= i < |DefaultWorkspace| ==> !IsBrace(DefaultWorkspace[i]);
      DefaultWorkspace
  }

  /** `{` `}` give the empty workspace id, not the default one. */
  lemma {:induction false} OnlyBracesGiveEmptyId(s: string)
    requires s != [] && BraceCount(s) == |s|
    ensures WorkspaceId(Some(s)) == ""
  {
  }

  /** The URL: `_originalUrl`, else the current URI's spec, else none. */
  function ResolveUrl(p: Page): (u: Option<string>)
    ensures u.Some? <==> Truthy(p.originalUrl) || Truthy(p.currentSpec)
    ensures u.Some? ==> u.value != "" && (u == p.originalUrl || u == p.currentSpec)
    ensures Truthy(p.originalUrl) ==> u == p.originalUrl
  {
    if Truthy(p.originalUrl) then p.originalUrl
    else if Truthy(p.currentSpec) then p.currentSpec
    else None
  }

  /** The title: the label, else the page title, else the URL. */
  function Title(p: Page, url: string): (t: string)
    requires url != ""
    ensures t != ""
    ensures t == url || Some(t) == p.labelAttr || Some(t) == p.contentTitle
    ensures Truthy(p.labelAttr) ==> Some(t) == p.labelAttr
    ensures !Truthy(p.labelAttr) && Truthy(p.contentTitle) ==> Some(t) == p.contentTitle
    ensures !Truthy(p.labelAttr) && !Truthy(p.contentTitle) ==> t == url
  {
    if Truthy(p.labelAttr) then p.labelAttr.value
    else if Truthy(p.contentTitle) then p.contentTitle.value
    else url
  }

  /**
   * The bookmark for a tab, or none when its URL is missing or is
   * `about:blank`.
   */
  function ResolveEntry(p: Page): (e: Option<Entry>)
    ensures e.Some? <==> ResolveUrl(p).Some? && ResolveUrl(p).value != Blank
    ensures e.Some? ==> e.value.url == ResolveUrl(p).value && e.value.title == Title(p, e.value.url)
    ensures e.Some? ==> GoodEntry(e.value)
  {
    var rawUrl := ResolveUrl(p);
    if rawUrl.None? || rawUrl.value == Blank then None
    else Some(Entry(Title(p, rawUrl.value), rawUrl.value))
  }

  /** A tab carries `zen-essential="true"`. */
  predicate IsEssential(t: Tab)
  {
    t.essentialAttr == Some("true")
  }

  function LowerAscii(s: string): (r: string)
    ensures |r| == |s|
  {
    if s == [] then []
    else [if 'A' <= s[0] <= 'Z' then (s[0] as int + 32) as char else s[0]] + LowerAscii(s[1..])
  }

  /** A group member is a tab when its tag name, lower-cased, is `tab`. */
  predicate IsTabItem(item: Item)
  {
    LowerAscii(item.tagName) == "tab"
  }

  /** The folder a group becomes: its label, else its element id. */
  function FolderName(g: Group): (r: string)
    ensures Truthy(g.labelAttr) ==> r == g.labelAttr.value
    ensures !Truthy(g.labelAttr) ==> r == g.id
  {
    if Truthy(g.labelAttr) then g.labelAttr.value else g.id
  }
}
