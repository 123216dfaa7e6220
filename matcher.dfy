/** The reconciliation step of `_handle_platform`: every download record of every item of one
    platform becomes a candidate file `<machine_name>.<filetype>`, which is either present in
    the local listing (and then optionally checked against its MD5) or missing.

    These functions describe, as a fold over the candidates in visiting order, what the nested
    loops of the method `HumbleBundleDownloader.MatchPlatform` accumulate. */
module Matcher {
  import opened Search
  import opened Strings
  import opened Paths
  import opened Manifest
  import opened Resolve
  import opened Checksum

  /** One download record seen by the matcher: the item's machine name, the filetype derived
      from the record's URL, and the record's MD5. */
  datatype Candidate = Candidate(machineName: string, filetype: string, md5: string)

  /** The local file name the matcher looks for. */
  function FileName(c: Candidate): string {
    c.machineName + "." + c.filetype
  }

  /** The candidates of one item's records, in order; records whose URL gives no filetype
      (placeholders among them) are skipped. */
  function RecordCandidates(it: Item, ds: seq<DownloadRecord>): (r: seq<Candidate>)
    ensures forall j :: 0 <= j < |r| ==> r[j].machineName == it.machineName
    ensures forall j :: 0 <= j < |r| ==> r[j].filetype != "" && '.' !in r[j].filetype
  {
    if ds == [] then []
    else
      var front := RecordCandidates(it, ds[..|ds| - 1]);
      var last := RecordCandidate(it.machineName, ds[|ds| - 1]);
      assert forall j :: 0 <= j < |last| ==> last[j].machineName == it.machineName && last[j].filetype != "" && '.' !in last[j].filetype;
      front + last
  }

  /** The candidate of one record, if its URL gives a filetype. */
  function RecordCandidate(machineName: string, d: DownloadRecord): (r: seq<Candidate>)
    ensures |r| <= 1
  {
    var ft := FiletypeFromUrl(d.web);
    if ft == "" then [] else [Candidate(machineName, ft, d.md5)]
  }

  /** Every listed candidate comes from a record whose URL gives it a filetype. */
  lemma {:induction false} RecordCandidateSource(it: Item, ds: seq<DownloadRecord>, c: Candidate)
    requires c in RecordCandidates(it, ds)
    ensures exists k :: 0 <= k < |ds| && FiletypeFromUrl(ds[k].web) != "" &&
                        c == Candidate(it.machineName, FiletypeFromUrl(ds[k].web), ds[k].md5)
  {
    assert ds != [];
    if c in RecordCandidates(it, ds[..|ds| - 1]) {
      RecordCandidateSource(it, ds[..|ds| - 1], c);
      var k :| 0 <= k < |ds| - 1 && FiletypeFromUrl(ds[..|ds| - 1][k].web) != "" &&
               c == Candidate(it.machineName, FiletypeFromUrl(ds[..|ds| - 1][k].web), ds[..|ds| - 1][k].md5);
      assert ds[..|ds| - 1][k] == ds[k];
    } else {
      assert c in RecordCandidate(it.machineName, ds[|ds| - 1]);
    }
  }

  /** Every record whose URL gives a filetype contributes its candidate. */
  lemma {:induction false} RecordCandidateListed(it: Item, ds: seq<DownloadRecord>, k: nat)
    requires k < |ds| && FiletypeFromUrl(ds[k].web) != ""
    ensures Candidate(it.machineName, FiletypeFromUrl(ds[k].web), ds[k].md5) in RecordCandidates(it, ds)
  {
    if k < |ds| - 1 {
      assert ds[..|ds| - 1][k] == ds[k];
      RecordCandidateListed(it, ds[..|ds| - 1], k);
    }
  }

  /** A candidate is listed exactly when some record's URL gives it a filetype: the candidate
      of that record, carrying the item's machine name, that filetype and the record's MD5. */
  lemma RecordCandidatesMembers(it: Item, ds: seq<DownloadRecord>)
    ensures forall c :: c in RecordCandidates(it, ds) <==>
              exists k :: 0 <= k < |ds| && FiletypeFromUrl(ds[k].web) != "" &&
                          c == Candidate(it.machineName, FiletypeFromUrl(ds[k].web), ds[k].md5)
  {
    forall c | c in RecordCandidates(it, ds)
      ensures exists k :: 0 <= k < |ds| && FiletypeFromUrl(ds[k].web) != "" &&
                          c == Candidate(it.machineName, FiletypeFromUrl(ds[k].web), ds[k].md5)
    {
      RecordCandidateSource(it, ds, c);
    }
    forall k | 0 <= k < |ds| && FiletypeFromUrl(ds[k].web) != ""
      ensures Candidate(it.machineName, FiletypeFromUrl(ds[k].web), ds[k].md5) in RecordCandidates(it, ds)
    {
      RecordCandidateListed(it, ds, k);
    }
  }

  /** The candidates of the items whose platform is exactly `platform`. */
  function ItemCandidates(items: seq<Item>, platform: string): (r: seq<Candidate>)
    ensures forall j :: 0 <= j < |r| ==> r[j].filetype != "" && '.' !in r[j].filetype
  {
    if items == [] then []
    else
      var it := items[|items| - 1];
      ItemCandidates(items[..|items| - 1], platform) +
        (if it.platform == platform then RecordCandidates(it, it.downloadStruct) else [])
  }

  /** The candidates of a whole catalog for one platform, bundle by bundle. */
  function PlatformCandidates(data: seq<Bundle>, platform: string): (r: seq<Candidate>)
    ensures forall j :: 0 <= j < |r| ==> r[j].filetype != "" && '.' !in r[j].filetype
  {
    if data == [] then []
    else PlatformCandidates(data[..|data| - 1], platform) + ItemCandidates(data[|data| - 1].items, platform)
  }

  /** The directory an existing file is checked in: `<root>/<platform>/` and, for the ebook
      platform, its `<filetype>` sub-directory. */
  function ExistingDir(root: string, platform: string, filetype: string): string {
    var head := Join(root, platform + "/");
    if platform == "ebook" then Join(head, filetype) else head
  }

  /** The path of a present candidate's file, with the filetype lower-cased. */
  function ExistingPath(root: string, platform: string, c: Candidate): string {
    Join(ExistingDir(root, platform, c.filetype), c.machineName + "." + Lower(c.filetype))
  }

  /** Whether a present file passes its MD5 check: the sentinel always does, a readable file
      does when its digest is the recorded one, and an unreadable file never does. */
  function ExistingFileOk(digest: Digester, fs: map<string, Content>, root: string, platform: string,
                          c: Candidate): (r: bool)
    ensures r <==> c.md5 == NA ||
                   (ExistingPath(root, platform, c) in fs && c.md5 == digest(Md5, fs[ExistingPath(root, platform, c)]))
  {
    var result := VerifyChecksum(digest, fs, ExistingDir(root, platform, c.filetype),
                                 c.machineName + "." + Lower(c.filetype), c.md5, Md5);
    result.Success? && result.value.verdict
  }

  /** The checker for one platform, as a function value. */
  function ExistingChecker(digest: Digester, fs: map<string, Content>, root: string, platform: string): Candidate -> bool {
    c => ExistingFileOk(digest, fs, root, platform, c)
  }

  /** What the matching loops have accumulated: the `filename_matches` and
      `filename_no_matches` sets, and what was appended to the MD5 match and no-match lists. */
  datatype MatchState = MatchState(matches: set<string>, noMatches: set<string>, passed: seq<string>, failed: seq<string>)

  const Start: MatchState := MatchState({}, {}, [], [])

  /** One candidate: a present file adds its machine name to the matches and, when existing
      files are verified, to the passed or the failed list; a missing one adds its file name
      to the no-matches. */
  function MatchStep(st: MatchState, c: Candidate, local: seq<string>, verify: bool, ok: Candidate -> bool): MatchState {
    if FileName(c) in local then
      st.(matches := st.matches + {c.machineName},
          passed := st.passed + (if verify && ok(c) then [c.machineName] else []),
          failed := st.failed + (if verify && !ok(c) then [c.machineName] else []))
    else
      st.(noMatches := st.noMatches + {FileName(c)})
  }

  /** The state after the candidates `cs`, visited in order. */
  function Scan(cs: seq<Candidate>, local: seq<string>, verify: bool, ok: Candidate -> bool): MatchState {
    if cs == [] then Start
    else MatchStep(Scan(cs[..|cs| - 1], local, verify, ok), cs[|cs| - 1], local, verify, ok)
  }

  /** Visiting one more candidate is one more step. */
  lemma ScanStep(cs: seq<Candidate>, more: seq<Candidate>, local: seq<string>, verify: bool, ok: Candidate -> bool)
    requires |more| <= 1
    ensures Scan(cs + more, local, verify, ok) ==
            if more == [] then Scan(cs, local, verify, ok) else MatchStep(Scan(cs, local, verify, ok), more[0], local, verify, ok)
  {
    if more != [] {
      assert (cs + more)[..|cs|] == cs;
    } else {
      assert cs + more == cs;
    }
  }

  /** The candidate lists grow one record, one item and one order at a time. */
  lemma RecordCandidatesStep(it: Item, ds: seq<DownloadRecord>, k: nat)
    requires k < |ds|
    ensures RecordCandidates(it, ds[..k + 1]) == RecordCandidates(it, ds[..k]) + RecordCandidate(it.machineName, ds[k])
  {
    assert ds[..k + 1][..k] == ds[..k];
  }

  lemma ItemCandidatesStep(items: seq<Item>, platform: string, i: nat)
    requires i < |items|
    ensures ItemCandidates(items[..i + 1], platform) == ItemCandidates(items[..i], platform) +
            (if items[i].platform == platform then RecordCandidates(items[i], items[i].downloadStruct) else [])
  {
    assert items[..i + 1][..i] == items[..i];
  }

  lemma PlatformCandidatesStep(data: seq<Bundle>, platform: string, b: nat)
    requires b < |data|
    ensures PlatformCandidates(data[..b + 1], platform) == PlatformCandidates(data[..b], platform) + ItemCandidates(data[b].items, platform)
  {
    assert data[..b + 1][..b] == data[..b];
  }

  // ----- properties of the matcher -----

  /** A file name is reported missing exactly when some candidate has it and it is not in the
      local listing; in particular no missing name is a local file. */
  lemma {:induction false} NoMatchesExactly(cs: seq<Candidate>, local: seq<string>, verify: bool, ok: Candidate -> bool, f: string)
    ensures f in Scan(cs, local, verify, ok).noMatches <==>
            f !in local && exists j :: 0 <= j < |cs| && FileName(cs[j]) == f
  {
    if cs != [] {
      var front := cs[..|cs| - 1];
      NoMatchesExactly(front, local, verify, ok, f);
      if j :| 0 <= j < |cs| && FileName(cs[j]) == f {
        if j < |cs| - 1 {
          assert front[j] == cs[j];
        }
      }
      if j :| 0 <= j < |front| && FileName(front[j]) == f {
        assert cs[j] == front[j];
      }
    }
  }

  /** A machine name is matched exactly when one of its candidate file names is local. */
  lemma {:induction false} MatchesExactly(cs: seq<Candidate>, local: seq<string>, verify: bool, ok: Candidate -> bool, m: string)
    ensures m in Scan(cs, local, verify, ok).matches <==>
            exists j :: 0 <= j < |cs| && cs[j].machineName == m && FileName(cs[j]) in local
  {
    if cs != [] {
      var front := cs[..|cs| - 1];
      MatchesExactly(front, local, verify, ok, m);
      if j :| 0 <= j < |cs| && cs[j].machineName == m && FileName(cs[j]) in local {
        if j < |cs| - 1 {
          assert front[j] == cs[j];
        }
      }
      if j :| 0 <= j < |front| && front[j].machineName == m && FileName(front[j]) in local {
        assert cs[j] == front[j];
      }
    }
  }

  /** Without verification of existing files nothing is appended to the MD5 lists; with it,
      every present candidate adds its machine name to exactly one of the two, and every name
      appended belongs to a matched item. */
  lemma {:induction false} Md5ListsFollowMatches(cs: seq<Candidate>, local: seq<string>, verify: bool, ok: Candidate -> bool)
    ensures var st := Scan(cs, local, verify, ok);
      (!verify ==> st.passed == [] && st.failed == []) &&
      (forall m :: m in st.passed ==> m in st.matches && verify) &&
      (forall m :: m in st.failed ==> m in st.matches && verify) &&
      |st.passed| + |st.failed| <= |cs|
  {
    if cs != [] {
      Md5ListsFollowMatches(cs[..|cs| - 1], local, verify, ok);
    }
  }

  /** With verification on, a machine name goes to the match list exactly when one of its
      present candidates passes its MD5 check. */
  lemma {:induction false} Md5PassedExactly(cs: seq<Candidate>, local: seq<string>, verify: bool, ok: Candidate -> bool, m: string)
    ensures m in Scan(cs, local, verify, ok).passed <==>
            verify && exists j :: 0 <= j < |cs| && cs[j].machineName == m && FileName(cs[j]) in local && ok(cs[j])
  {
    if cs != [] {
      Md5PassedExactly(cs[..|cs| - 1], local, verify, ok, m);
      if j :| 0 <= j < |cs| - 1 && cs[j].machineName == m && FileName(cs[j]) in local && ok(cs[j]) {
        assert cs[..|cs| - 1][j] == cs[j];
      }
      var front := cs[..|cs| - 1];
      if j :| 0 <= j < |front| && front[j].machineName == m && FileName(front[j]) in local && ok(front[j]) {
        assert cs[j] == front[j];
      }
    }
  }

  /** With verification on, a machine name goes to the no-match list, which the retry loop
      works from, exactly when one of its present candidates fails its MD5 check. */
  lemma {:induction false} Md5FailedExactly(cs: seq<Candidate>, local: seq<string>, verify: bool, ok: Candidate -> bool, m: string)
    ensures m in Scan(cs, local, verify, ok).failed <==>
            verify && exists j :: 0 <= j < |cs| && cs[j].machineName == m && FileName(cs[j]) in local && !ok(cs[j])
  {
    if cs != [] {
      Md5FailedExactly(cs[..|cs| - 1], local, verify, ok, m);
      if j :| 0 <= j < |cs| - 1 && cs[j].machineName == m && FileName(cs[j]) in local && !ok(cs[j]) {
        assert cs[..|cs| - 1][j] == cs[j];
      }
      var front := cs[..|cs| - 1];
      if j :| 0 <= j < |front| && front[j].machineName == m && FileName(front[j]) in local && !ok(front[j]) {
        assert cs[j] == front[j];
      }
    }
  }

  /** Each present candidate is counted once in passed or failed: the two lists together are
      exactly as long as the number of present candidates when verifying. */
  function PresentCount(cs: seq<Candidate>, local: seq<string>): nat {
    if cs == [] then 0
    else PresentCount(cs[..|cs| - 1], local) + (if FileName(cs[|cs| - 1]) in local then 1 else 0)
  }

  lemma {:induction false} Md5ListsCountPresent(cs: seq<Candidate>, local: seq<string>, ok: Candidate -> bool)
    ensures |Scan(cs, local, true, ok).passed| + |Scan(cs, local, true, ok).failed| == PresentCount(cs, local)
  {
    if cs != [] {
      Md5ListsCountPresent(cs[..|cs| - 1], local, ok);
    }
  }

  /** A missing file name splits back, at its last dot, into the machine name and filetype of
      the candidate that produced it, which is what the repair loop relies on. */
  lemma MissingNameSplitsBack(data: seq<Bundle>, platform: string, local: seq<string>, verify: bool,
                              ok: Candidate -> bool, f: string)
    requires f in Scan(PlatformCandidates(data, platform), local, verify, ok).noMatches
    ensures exists c :: c in PlatformCandidates(data, platform) && FileName(c) == f &&
                        SplitLastDot(f) == (c.machineName, c.filetype)
  {
    var cs := PlatformCandidates(data, platform);
    NoMatchesExactly(cs, local, verify, ok, f);
    var j :| 0 <= j < |cs| && FileName(cs[j]) == f;
    SplitJoinRoundTrip(cs[j].machineName, cs[j].filetype);
  }

  /** A present file whose record carries the "n/a" MD5 always passes its check. */
  lemma SentinelExistingFilePasses(digest: Digester, fs: map<string, Content>, root: string, platform: string,
                                   c: Candidate)
    requires c.md5 == NA
    ensures ExistingChecker(digest, fs, root, platform)(c)
  {
  }
}
