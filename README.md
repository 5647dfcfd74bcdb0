# Zen Browser tabs to Netscape bookmark files, modelled in Dafny

`main.js` is a one-shot script that runs in the Zen Browser. It exports pinned and special tabs as bookmark files, one Netscape-format HTML file per workspace:

- **Workspace id.** Each tab and each tab group belongs to a workspace, named by its `zen-workspace-id` attribute. Braces are removed; a missing or empty attribute means `default`.
- **Pass 1: tabs.** A pass over the tab strip files each tab that has a usable URL:
  - an essential tab goes under *Essentials*;
  - a pinned tab outside any group goes under *Pinned Tabs*;
  - any other tab is not filed.
- **Pass 2: groups.** A pass over the tab groups (Zen folders) gives every group a folder list under its label, or under its id when it has no label. The group's tab members are appended to that list.
- **Rendering.** For every workspace, in the order workspaces were first seen, the script:
  - builds the document by appending text to a string, escaping only `"` in URLs and titles;
  - names the file `zen-bookmarks-<id>-<year><mm><dd>.html`;
  - hands the file to the browser for download.

The model follows that structure module by module:

| file | module | what it holds |
|---|---|---|
| `wrappers.dfy` | `Wrappers` | `Option` |
| `seqs.dfy` | `Seqs` | regrouping of concatenations, stated once for any element type |
| `ordered_map.dfy` | `OrderedMap` | JavaScript's insertion-ordered `Map` as a sequence of pairs: `Get` is `get`, `Put` is `set` (a new key goes last, an existing key keeps its place) |
| `text.dfy` | `Text` | the two regular-expression replacements as character-level functions, `String(n)` and `padStart(2, "0")` |
| `records.dfy` | `Records` | the fields read from tab and group elements; the workspace id; URL and title resolution |
| `aggregator.dfy` | `Aggregator` | the two passes, both as specification functions (`TabPass`, `GroupPass`) and as the loops the script runs (`CollectTabs`, `CollectGroups`), proved equal |
| `aggregator_facts.dfy` | `AggregatorFacts` | what the passes produce, stated per workspace and per folder against independent reference definitions |
| `render.dfy` | `Render` | the document as the list of lines the script appends, and the appending loops proved to build exactly that text |
| `render_facts.dfy` | `RenderFacts` | which lines a document holds: one bookmark line per entry, headings, list openings and closings, and bookmark lines that read back as their entry |
| `export.dfy` | `Export` | file names, the date stamp, and the whole run |
| `scenarios.dfy` | `Scenarios` | small exports worked out in full |

The browser's state is an input: tabs and groups are sequences of records holding the values the script reads from the DOM. The date is three integer parameters. The downloads are the returned sequence of `(name, html)` pairs.

## Model

| member | source | states |
|---|---|---|
| Text.StripBraces | main.js:10 | The result holds no `{` or `}`, and is shorter than the input by exactly the number of braces in it |
| Text.StripBracesNoop | main.js:154 | Text without braces is left unchanged |
| Text.StripBracesIdempotent | main.js:154 | Stripping an id that is already stripped changes nothing |
| Text.StripBracesConcat | main.js:10 | Stripping works character by character: stripping a concatenation gives the concatenation of the stripped parts |
| Text.EscapeQuotes | main.js:118-119 | The result holds no `"`, and grows by five characters for every `"` replaced by `&quot;` |
| Text.EscapeQuotesNoop | main.js:129-130 | Text without `"` is left unchanged |
| Text.EscapeQuotesIdempotent | main.js:140-141 | Escaping twice is the same as escaping once |
| Text.EscapeQuotesConcat | main.js:118 | Escaping works character by character over a concatenation |
| Text.UnescapeEscape | main.js:119 | Text without `&` comes back unchanged when `&quot;` is turned back into `"`, so escaping loses nothing else |
| Text.EscapeExample | main.js:118 | `He said "hi"` is escaped to `He said &quot;hi&quot;` |
| Text.NatStringValue | main.js:102 | The decimal numeral of a number reads back as that number |
| Text.NatStringLength | main.js:102 | A number from 10^(k-1) up to, but not including, 10^k has a k-digit numeral |
| Text.Pad2Digits | main.js:103-104 | Every number from 0 to 99 is padded to exactly two digits that read back as the number |
| Records.WorkspaceId | main.js:8-11 | The result holds no brace. A missing or empty attribute gives `default`. Otherwise the result is the attribute minus its braces, and a brace-free attribute is returned as is |
| Records.OnlyBracesGiveEmptyId | main.js:10 | An attribute made only of braces, such as `{}`, gives the empty id, not `default`: truthiness is tested before the braces are stripped |
| Records.ResolveUrl | main.js:20-25 | There is a URL exactly when `_originalUrl` or the current URI spec is non-empty. `_originalUrl` wins when it is non-empty. The URL is never empty |
| Records.Title | main.js:43-46 | The title is never empty, and is one of label, page title or URL. A non-empty label wins; otherwise a non-empty page title wins; with neither, the title is the URL |
| Records.ResolveEntry | main.js:20-26 | A bookmark exists exactly when the URL exists and is not `about:blank`. It carries the resolved URL and title, both non-empty |
| Records.FolderName | main.js:64 | A group's folder is named by its label when the label is non-empty, and by its id otherwise |
| OrderedMap.Put | main.js:33-37 | After `set`, the key maps to the new value and every other key keeps its value |
| OrderedMap.GetKeys | main.js:32 | `has` is true exactly for the listed keys |
| OrderedMap.PutKeys | main.js:75-77 | `set` on a new key adds it at the end of the key order; on an existing key it keeps the order |
| OrderedMap.GetAt | main.js:106 | With distinct keys, the pair at each position is the one `get` finds, so the `forEach` order and `get` agree |
| Aggregator.ItemEntries | main.js:81-96 | A group member contributes at most one bookmark: a given bookmark exactly when the member is a tab whose page resolves to it. A non-tab member or an unusable URL gives nothing |
| Aggregator.CollectTabs | main.js:17-58 | The tab loop builds exactly the map of the specification of pass 1 |
| Aggregator.PushMember | main.js:80-96 | One member's callback appends that member's bookmark, if any, to the existing folder and changes nothing else |
| Aggregator.PushMembers | main.js:79-97 | The member loop appends the bookmarks of all members, in member order, to the folder |
| Aggregator.EnsureFolder | main.js:66-77 | The workspace gets a bucket and the bucket a folder of that name when missing; an existing folder list is kept as it is |
| Aggregator.CollectGroups | main.js:62-98 | The group loop builds exactly the map of the specification of pass 2 |
| Aggregator.CollectWorkspaces | main.js:13-98 | Both loops together build exactly the specified aggregate |
| Aggregator.WithFolderTwice | main.js:96 | Setting a folder list twice keeps only the last list |
| AggregatorFacts.FiledGood | main.js:42-56 | Pass 1 files only bookmarks with a title and a URL that is neither empty nor `about:blank` |
| AggregatorFacts.MemberEntriesGood | main.js:89-96 | Group members contribute only bookmarks with a title and a usable URL |
| AggregatorFacts.MemberEntriesExactly | main.js:80-97 | A bookmark is among a group's member bookmarks exactly when some member is a tab whose page resolves to it. Non-tab members are skipped, and every usable tab member is appended |
| AggregatorFacts.TabPassBucket | main.js:41-57 | After pass 1 each workspace's Essentials grew by the bookmarks of its essential tabs. Its loose-pinned list grew by its pinned tabs that are not essential and not in a group. Both keep tab order. Its folders are untouched |
| AggregatorFacts.AddTabBucket | main.js:39-57 | Seen from any workspace, one tab appends its bookmark to Essentials when pass 1 files it there, to Pinned Tabs when it files it there, and otherwise changes nothing; folders are untouched |
| AggregatorFacts.TabPassKeys | main.js:32-38 | Pass 1 adds workspaces in the order of their first tab with a usable URL |
| AggregatorFacts.UnusableTabsChangeNothing | main.js:26 | Tabs without a usable URL change nothing, so they never create a workspace bucket |
| AggregatorFacts.WithFolderBucket | main.js:96 | Setting one folder list changes only that folder of that workspace |
| AggregatorFacts.AddGroupBucket | main.js:75-96 | One group grows only its own folder, by its members' bookmarks. Essentials and loose pinned lists are untouched |
| AggregatorFacts.AddGroupFolderNames | main.js:75-77 | One group adds its folder name at the end of its workspace's folders when the name is new, and changes nothing otherwise |
| AggregatorFacts.GroupPassBucket | main.js:62-98 | After pass 2 a folder holds the bookmarks of every group of that workspace and name, group after group. A repeated name appends rather than replaces |
| AggregatorFacts.GroupPassFolderNames | main.js:64-77 | Folders appear in the order their name is first used by a group |
| AggregatorFacts.GroupPassKeys | main.js:66-72 | Pass 2 adds workspaces in the order of their first group |
| AggregatorFacts.AggregateKeys | main.js:13 | Workspaces come out in first-reference order (usable tabs, then groups), each id once |
| AggregatorFacts.AggregateBucket | main.js:13-98 | After both passes a workspace holds three things. Its Essentials and loose pinned lists are exactly what pass 1 filed. Its folders are in first-seen name order. Each folder holds the bookmarks of all groups with that name |
| AggregatorFacts.AggregateEntriesGood | main.js:83-94 | Every stored bookmark has a non-empty title and a URL that is neither empty nor `about:blank` |
| AggregatorFacts.EveryGroupHasFolder | main.js:64-77 | Every group, even one with no qualifying member, has a folder in its workspace |
| AggregatorFacts.EssentialGroupedTabListedTwice | main.js:41-48 | An essential tab that also sits in a group is listed twice: under Essentials and in its folder |
| Render.ConcatAppend | main.js:107-147 | The text of two runs of lines is the text of the first followed by the text of the second |
| Render.AppendSection | main.js:114-122 | The section loop appends, in order: the heading, the list opening, one escaped bookmark line per entry in list order, and the list closing |
| Render.AppendFolders | main.js:136-145 | The folder loop appends one section per folder, in folder order, empty folders included |
| Render.RenderWorkspace | main.js:106-147 | The appended string is exactly the document. The document has five parts in order: the preamble; Essentials, only when non-empty; Pinned Tabs, only when non-empty; every folder; the closing line |
| RenderFacts.MatchingAppend | main.js:106-147 | Selecting lines by prefix distributes over concatenation |
| RenderFacts.PreambleMatchesNothing | main.js:107-111 | No preamble line and not the closing line is a bookmark, heading, opening or closing line |
| RenderFacts.SectionKind | main.js:136-145 | A section's lines of each kind come from its heading, its opening, its bookmark lines and its closing, one part per kind |
| RenderFacts.SectionMatching | main.js:136-145 | A section's bookmark lines are exactly those of its entries. It has one heading, its own, one list opening and one list closing |
| RenderFacts.LinkLinesAppend | main.js:117-121 | Bookmark lines of two lists are those of the first list followed by those of the second |
| RenderFacts.FolderLinks | main.js:136-145 | The folders' bookmark lines are those of the folders' entries, folder after folder |
| RenderFacts.FolderHeaders | main.js:137 | The folders carry one heading each, in folder order |
| RenderFacts.FolderLists | main.js:138-144 | The folders open and close one list each |
| RenderFacts.DocMatching | main.js:106-147 | Bookmark, heading, opening and closing lines come only from the sections |
| RenderFacts.DocumentLinks | main.js:114-145 | The document's bookmark lines are one per entry, in order: Essentials, then Pinned Tabs, then each folder. Their number is the sum of the list lengths |
| RenderFacts.DocumentHeaders | main.js:114-137 | The document's headings are, in order: Essentials only when that list is non-empty; Pinned Tabs only when that list is non-empty; one heading per folder |
| RenderFacts.FolderNamesAreKeys | main.js:136-137 | The folder headings follow the folder map's key order, as `forEach` visits it |
| RenderFacts.AggregateHeadings | main.js:62-137 | After both passes, a workspace document's headings are Essentials when pass 1 filed an essential tab there, Pinned Tabs when it filed a loose pinned tab there, then one heading per group name of the workspace, in first-use order |
| RenderFacts.DocumentLists | main.js:116-144 | A document has one list opening, and one list closing, per section |
| RenderFacts.DocumentListsBalanced | main.js:116-144 | The document opens as many lists as it closes, one pair per section |
| RenderFacts.LinkLineRoundTrip | main.js:120 | When neither URL nor title holds `&`, a bookmark line reads back as its entry. The escaped URL ends at the first `"` after `HREF="` |
| Export.DateStampDigits | main.js:101-104 | For a four-digit year, the date stamp is eight digits. They read back as the year, the month counted from 1, and the day |
| Export.FileNameInjective | main.js:154-156 | On one day two workspaces get the same file name exactly when their ids agree once braces are removed |
| Export.FileNameReadBack | main.js:156 | For a four-digit year and an in-range month and day, the name is the prefix, the brace-free id, a dash, the eight-digit date stamp and `.html`, each at a known position |
| Export.DownloadAt | main.js:106-156 | The i-th file is named after the i-th workspace and holds that workspace's document |
| Export.FileAtKey | main.js:106 | With distinct ids, the i-th file belongs to the i-th id and to the bucket `get` finds for that id |
| Export.NamesDistinct | main.js:154-156 | Distinct brace-free ids give files with pairwise different names |
| Export.ExportAll | main.js:100-164 | The run returns exactly the specified files, in workspace order. The count it returns is the number of workspaces |
| Export.WorkspaceFile | main.js:106-156 | One iteration of the workspace loop yields the file named after the brace-free id and the date, holding that workspace's document |
| Export.WorkspaceIdsBraceFree | main.js:154 | Every workspace id is already brace-free, so the file name carries the id unchanged |
| Export.ExportedFiles | main.js:106-161 | One file per workspace, in first-reference order. No two files share a name. Each file holds the document of its own workspace's bucket |
| Scenarios.BracedId | main.js:8-11 | The attribute `{abc}` gives the workspace id `abc` |
| Scenarios.ScenarioTabs | main.js:17-57 | Pass 1 over an essential tab and a loose pinned tab of `{abc}` gives one workspace `abc` with one bookmark in each list |
| Scenarios.ScenarioGroup | main.js:62-98 | Pass 2 over a one-tab group of `{abc}` adds one folder holding that tab's bookmark |
| Scenarios.OneWorkspaceThreeSections | main.js:17-156 | An essential tab, a loose pinned tab and a one-tab group, all in `{abc}`, give one workspace `abc`. It has three sections, Essentials, Pinned Tabs and the folder, with three bookmark lines in all, and the export is the single file `zen-bookmarks-abc-<date stamp>.html` holding that document |
| Scenarios.BlankTabAlone | main.js:20-26 | A lone tab without a workspace attribute and with a blank page creates nothing, not even `default` |
| Scenarios.EmptyGroupStillListed | main.js:75-77 | A group with no members still gives its workspace and a folder, rendered as a heading over an empty list |

## Left out

- The DOM is not modelled:
  - enumerating tabs and groups (main.js:16, 61);
  - `getAttribute`, `hasAttribute`, `parentElement.classList`, `tagName`;
  - the `linkedBrowser` / `currentURI` chain.

  Records carry the values these produce. An absent browser or URI is an absent (`None`) field.
- `group.allItems || []`: a group's members are a sequence, so a missing list is the empty sequence.
- `tagName.toLowerCase()` is modelled as ASCII lower-casing. Only `T`, `A` and `B` lower-case to the letters of `tab`, so the comparison is unaffected.
- The download is not modelled: the Blob, the object URL, the anchor element, `click()` and `revokeObjectURL` (main.js:150-161). `ExportAll` returns the `(name, html)` pairs instead.
- `new Date()` (main.js:101) is not modelled. The year, the month counted from 0 and the day are parameters.
- `console.log` (main.js:164) is not modelled. `ExportAll` returns the count it prints.
- The two regular-expression replacements are modelled as character-level functions. The regular-expression engine is not modelled.
- The script fetches a bucket or folder list from a `Map` and mutates it through the shared reference. The model instead puts the updated value back under the same key. The resulting map is the same, but aliasing itself is not represented.
- Strings are sequences of characters. UTF-16 code units, the UTF-8 encoding of the file and its MIME type are not modelled.
- RenderFacts.DocumentLinks: counts the lines the script appends, not physical lines. A title, URL, folder name or workspace id containing a line feed splits one appended line into several in the file. The same holds for RenderFacts.DocumentHeaders and RenderFacts.DocumentListsBalanced.
- Export.FileNameReadBack: the fixed positions are stated only under the same four-digit-year, in-range-date hypothesis as Export.DateStampDigits; for other dates the name is still built as the script builds it.
- Export.DateStampDigits: stated only for four-digit years and in-range months and days. For other years, `String(yyyy)` is not four digits; the stamp is still built as the script builds it.

## Where the code and its description differ

The model follows `main.js` in each case:

- An attribute made only of braces (for example `{}`) is truthy. The script strips it to the empty id, where `default` might be expected (`Records.OnlyBracesGiveEmptyId`).
- An essential tab that sits in a group is exported twice: under Essentials, and in its folder (`AggregatorFacts.EssentialGroupedTabListedTwice`). A bookmark therefore does not always land in exactly one list.
- The year is written as `String(yyyy)` with no padding. Only the month and the day are padded to two digits.
- Workspace ids in the title and heading, and folder names in headings, are written without escaping. Only bookmark URLs and titles have `"` replaced.
