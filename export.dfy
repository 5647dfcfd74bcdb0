/**
 * The export run: one bookmark file per workspace, in workspace order, each
 * named after its workspace and the day of the export.
 */
module Export {
  import opened Wrappers
  import opened OrderedMap
  import opened Text
  import opened Records
  import opened Aggregator
  import opened AggregatorFacts
  import opened Render
  import opened Seqs

  /** A file handed to the browser for download. */
  datatype Download = Download(name: string, html: string)

  const NamePrefix := "zen-bookmarks-"
  const NameSuffix := ".html"

  /**
   * The download's name: the workspace id without braces, then the local
   * date as the year, the two-digit month and the two-digit day. `month0`
   * counts from 0, as the clock reports it.
   */
  function FileName(id: string, year: int, month0: int, day: int): string
  {
    NamePrefix + StripBraces(id) + "-" + DateStamp(year, month0, day) + NameSuffix
  }

  /** The year as `String` writes it, then the month counted from 1 and the day, each padded to two digits. */
  function DateStamp(year: int, month0: int, day: int): string
  {
    IntString(year) + Pad2(month0 + 1) + Pad2(day)
  }

  /** A calendar date with a four-digit year, as a clock may report it. */
  predicate FourDigitDate(year: int, month0: int, day: int)
  {
    1000 <= year <= 9999 && 0 <= month0 < 12 && 1 <= day <= 31
  }

  /** The date is written as eight digits that read back as the year, the month and the day. */
  lemma DateStampDigits(year: int, month0: int, day: int)
    requires FourDigitDate(year, month0, day)
    ensures var s := DateStamp(year, month0, day);
      |s| == 8 && AllDigits(s)
      && DigitsValue(s[..4]) == year && DigitsValue(s[4..6]) == month0 + 1 && DigitsValue(s[6..]) == day
  {
    assert Pow10(3) == 1000 && Pow10(4) == 10000 by {
      assert Pow10(1) == 10 && Pow10(2) == 100;
    }
    NatStringLength(year, 4);
    NatStringValue(year);
    Pad2Digits(month0 + 1);
    Pad2Digits(day);
    var y, m, d := IntString(year), Pad2(month0 + 1), Pad2(day);
    var s := y + m + d;
    assert s[..4] == y && s[4..6] == m && s[6..] == d;
  }

  /** The name is the prefix, the brace-free id, a dash, the date stamp and the suffix. */
  lemma FileNameParts(id: string, year: int, month0: int, day: int)
    ensures FileName(id, year, month0, day)
         == NamePrefix + StripBraces(id) + ("-" + DateStamp(year, month0, day) + NameSuffix)
  {
    Regroup(NamePrefix, StripBraces(id), "-", DateStamp(year, month0, day), NameSuffix);
  }

  /** On one day, two workspaces get the same name only when their ids agree once braces are dropped. */
  lemma FileNameInjective(a: string, b: string, year: int, month0: int, day: int)
    ensures FileName(a, year, month0, day) == FileName(b, year, month0, day) <==> StripBraces(a) == StripBraces(b)
  {
    var tail := "-" + DateStamp(year, month0, day) + NameSuffix;
    FileNameParts(a, year, month0, day);
    FileNameParts(b, year, month0, day);
    var na, nb := NamePrefix + StripBraces(a) + tail, NamePrefix + StripBraces(b) + tail;
    if na == nb {
      assert |StripBraces(a)| == |StripBraces(b)|;
      assert StripBraces(a) == na[|NamePrefix|..|na| - |tail|];
      assert StripBraces(b) == nb[|NamePrefix|..|nb| - |tail|];
    }
  }

  /** The brace-free id and the date can be read back from a name. */
  lemma FileNameReadBack(id: string, year: int, month0: int, day: int)
    requires FourDigitDate(year, month0, day)
    ensures var n := FileName(id, year, month0, day);
      |n| == |NamePrefix| + |StripBraces(id)| + 14
      && n[..|NamePrefix|] == NamePrefix
      && n[|NamePrefix|..|n| - 14] == StripBraces(id)
      && n[|n| - 13..|n| - 5] == DateStamp(year, month0, day)
      && n[|n| - 5..] == NameSuffix
  {
    DateStampDigits(year, month0, day);
    FileNameParts(id, year, month0, day);
    assert |NameSuffix| == 5;
    Slices(NamePrefix, StripBraces(id), "-", DateStamp(year, month0, day), NameSuffix);
  }

  /** Where each of five consecutive parts sits in their concatenation, when the middle three have lengths 1 and 8. */
  lemma Slices(p: string, s: string, h: string, d: string, n: string)
    requires |h| == 1 && |d| == 8 && |n| == 5
    ensures var all := p + s + (h + d + n);
      |all| == |p| + |s| + 14
      && all[..|p|] == p
      && all[|p|..|all| - 14] == s
      && all[|all| - 13..|all| - 5] == d
      && all[|all| - 5..] == n
  {
    var tail := h + d + n;
    var all := p + s + tail;
    assert all[|p|..|all| - 14] == s;
    assert all[|all| - 13..|all| - 5] == tail[1..9] == d;
    assert all[|all| - 5..] == tail[9..] == n;
  }

  // ---------------------------------------------------------------------
  // The run

  /** The file of workspace `id`: its name and its document. */
  function FileFor(id: string, b: Bucket, year: int, month0: int, day: int): Download
  {
    Download(FileName(id, year, month0, day), Document(id, b))
  }

  /** The files an export produces from the workspaces, in workspace order. */
  function Downloads(ws: Workspaces, year: int, month0: int, day: int): (r: seq<Download>)
    ensures |r| == |ws|
    decreases |ws|
  {
    if ws == [] then []
    else Downloads(ws[..|ws| - 1], year, month0, day) + [FileFor(ws[|ws| - 1].0, ws[|ws| - 1].1, year, month0, day)]
  }

  lemma {:induction false} DownloadAt(ws: Workspaces, year: int, month0: int, day: int, i: nat)
    requires i < |ws|
    ensures Downloads(ws, year, month0, day)[i]
         == FileFor(ws[i].0, ws[i].1, year, month0, day)
    decreases |ws|
  {
    var init := ws[..|ws| - 1];
    var d := Downloads(init, year, month0, day);
    assert Downloads(ws, year, month0, day) == d + [FileFor(ws[|ws| - 1].0, ws[|ws| - 1].1, year, month0, day)];
    if i < |ws| - 1 {
      DownloadAt(init, year, month0, day, i);
      assert init[i] == ws[i];
      assert (d + [FileFor(ws[|ws| - 1].0, ws[|ws| - 1].1, year, month0, day)])[i] == d[i];
    }
  }

  lemma DownloadsStep(ws: Workspaces, year: int, month0: int, day: int, i: nat)
    requires i < |ws|
    ensures Downloads(ws[..i + 1], year, month0, day)
         == Downloads(ws[..i], year, month0, day) + [FileFor(ws[i].0, ws[i].1, year, month0, day)]
  {
    assert ws[..i + 1][..i] == ws[..i];
  }

  /** The body of the loop over workspaces: one workspace's document and file name. */
  method WorkspaceFile(wsId: string, wsData: Bucket, yyyy: string, mm: string, dd: string,
                       ghost year: int, ghost month0: int, ghost day: int)
    returns (file: Download)
    requires yyyy == IntString(year) && mm == Pad2(month0 + 1) && dd == Pad2(day)
    ensures file == FileFor(wsId, wsData, year, month0, day)
  {
    var html := RenderWorkspace(wsId, wsData);
    var fileWsId := StripBraces(wsId);
    file := Download(NamePrefix + fileWsId + "-" + (yyyy + mm + dd) + NameSuffix, html);
  }

  /**
   * The whole export: aggregate, then for every workspace in order render
   * its document and name its file; the count is the number of workspaces.
   */
  method ExportAll(tabs: seq<Tab>, groups: seq<Group>, year: int, month0: int, day: int)
    returns (files: seq<Download>, count: nat)
    ensures files == Downloads(Aggregate(tabs, groups), year, month0, day)
    ensures count == |files| == |Keys(Aggregate(tabs, groups))|
  {
    var workspaces := CollectWorkspaces(tabs, groups);
    var yyyy := IntString(year);
    var mm := Pad2(month0 + 1);
    var dd := Pad2(day);
    files := [];
    var i := 0;
    while i < |workspaces|
      invariant 0 <= i <= |workspaces|
      invariant files == Downloads(workspaces[..i], year, month0, day)
    {
      var (wsId, wsData) := workspaces[i];
      var file := WorkspaceFile(wsId, wsData, yyyy, mm, dd, year, month0, day);
      DownloadsStep(workspaces, year, month0, day, i);
      files := files + [file];
      i := i + 1;
    }
    assert workspaces[..i] == workspaces;
    count := |workspaces|;
  }

  // ---------------------------------------------------------------------
  // What an export holds

  lemma {:induction false} UsableTabIdsBraceFree(tabs: seq<Tab>)
    ensures forall k :: k in UsableTabIds(tabs) ==> NoBraces(k)
    decreases |tabs|
  {
    if tabs != [] {
      UsableTabIdsBraceFree(tabs[..|tabs| - 1]);
    }
  }

  lemma {:induction false} GroupIdsBraceFree(groups: seq<Group>)
    ensures forall k :: k in GroupIds(groups) ==> NoBraces(k)
    decreases |groups|
  {
    if groups != [] {
      GroupIdsBraceFree(groups[..|groups| - 1]);
    }
  }

  /** Every workspace id holds no brace, so the file name carries the id unchanged. */
  lemma WorkspaceIdsBraceFree(tabs: seq<Tab>, groups: seq<Group>)
    ensures forall k :: k in Keys(Aggregate(tabs, groups)) ==> NoBraces(k) && StripBraces(k) == k
  {
    AggregateKeys(tabs, groups);
    UsableTabIdsBraceFree(tabs);
    GroupIdsBraceFree(groups);
    forall k | k in Keys(Aggregate(tabs, groups))
      ensures NoBraces(k) && StripBraces(k) == k
    {
      StripBracesNoop(k);
    }
  }

  /** With distinct workspace ids, the i-th file is the file of the i-th id and of the bucket `get` finds for it. */
  lemma FileAtKey(ws: Workspaces, year: int, month0: int, day: int, i: nat)
    requires Distinct(Keys(ws)) && i < |ws|
    ensures Downloads(ws, year, month0, day)[i] == FileFor(Keys(ws)[i], BucketOf(ws, Keys(ws)[i]), year, month0, day)
  {
    DownloadAt(ws, year, month0, day, i);
    KeysAt(ws, i);
    GetAt(ws, i);
  }

  /** Distinct brace-free ids give distinct file names. */
  lemma NamesDistinct(ws: Workspaces, year: int, month0: int, day: int)
    requires Distinct(Keys(ws))
    requires forall k :: k in Keys(ws) ==> StripBraces(k) == k
    ensures var files := Downloads(ws, year, month0, day);
      forall i, j :: 0 <= i < j < |files| ==> files[i].name != files[j].name
  {
    var files := Downloads(ws, year, month0, day);
    forall i, j | 0 <= i < j < |files|
      ensures files[i].name != files[j].name
    {
      var ki, kj := Keys(ws)[i], Keys(ws)[j];
      assert ki != kj && ki in Keys(ws) && kj in Keys(ws);
      FileAtKey(ws, year, month0, day, i);
      FileAtKey(ws, year, month0, day, j);
      FileNameInjective(ki, kj, year, month0, day);
    }
  }

  /**
   * An export writes one file per workspace, in the order workspaces were
   * first seen; no two files share a name, and each holds the document of
   * its own workspace's bucket.
   */
  lemma ExportedFiles(tabs: seq<Tab>, groups: seq<Group>, year: int, month0: int, day: int)
    ensures var ws := Aggregate(tabs, groups);
      var files := Downloads(ws, year, month0, day);
      && |files| == |Keys(ws)|
      && (forall i, j :: 0 <= i < j < |files| ==> files[i].name != files[j].name)
      && (forall i :: 0 <= i < |files| ==> files[i] == FileFor(Keys(ws)[i], BucketOf(ws, Keys(ws)[i]), year, month0, day))
  {
    var ws := Aggregate(tabs, groups);
    AggregateKeys(tabs, groups);
    WorkspaceIdsBraceFree(tabs, groups);
    NamesDistinct(ws, year, month0, day);
    forall i | 0 <= i < |ws|
      ensures Downloads(ws, year, month0, day)[i] == FileFor(Keys(ws)[i], BucketOf(ws, Keys(ws)[i]), year, month0, day)
    {
      FileAtKey(ws, year, month0, day, i);
    }
  }
}
