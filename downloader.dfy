/** The downloader object: its settings, the catalog it has parsed, the platforms it has seen,
    the MD5 match and no-match lists it keeps across platforms, and the per-platform work of
    matching the catalog against local files and fetching, checking and placing what is
    missing.

    The outside world is reduced to three things the object holds: a file system `fs` (a map
    from path to content, so directories are implicit), a digest function, and a network
    `net` that answers the n-th request for a URL with the whole body or with the part
    received before it failed. `fetches` counts the requests made so far. */
module Downloader {
  import opened Wrappers
  import opened Search
  import opened Strings
  import opened Paths
  import opened Manifest
  import opened Resolve
  import opened Checksum
  import opened Filter
  import opened Worklist
  import opened Matcher

  /** The answer to one HTTP GET: the whole body, or, on failure, the part that arrived
      before it (the destination file was already opened for writing, so it keeps that). */
  datatype FetchOutcome = Complete(body: Content) | Broken(body: Content)

  /** The answer to the request for a URL made as the n-th request overall. */
  type Network = (string, nat) -> FetchOutcome

  /** What trying one name leaves behind: whether the name is done with (dropped by the
      filter, or placed), the file system, and the request count. */
  datatype Outcome = Outcome(done: bool, fs: map<string, Content>, fetches: nat)

  /** One pass of the repair loop so far: the names collected for removal, the names kept,
      the file system and the request count. */
  datatype PassState = PassState(toRemove: seq<string>, kept: seq<string>, fs: map<string, Content>, fetches: nat)

  /** The repair loop so far: the names still missing, the file system and the request count. */
  datatype Progress = Progress(remaining: seq<string>, fs: map<string, Content>, fetches: nat)

  /** What handling platforms changes: the MD5 match and no-match lists, the file system and
      the request count. */
  datatype Tracking = Tracking(passed: seq<string>, failed: seq<string>, fs: map<string, Content>, fetches: nat)

  /** The conversion loop over one `download_struct`: None as soon as a record lacks one of
      its keys (which makes `_parse_json` skip the item). */
  method ConvertDownloadStruct(ds: seq<RawRecord>) returns (r: Option<seq<DownloadRecord>>)
    ensures r.Some? <==> RecordsComplete(ds)
    ensures r.Some? ==> r.value == ConvertRecords(ds)
  {
    var out: seq<DownloadRecord> := [];
    var k := 0;
    while k < |ds|
      invariant 0 <= k <= |ds|
      invariant |out| == k
      invariant forall j :: 0 <= j < k ==> ConvertRecord(ds[j]) == Some(out[j])
    {
      var d := ds[k];
      if d.name.None? || d.web.None? || d.humanSize.None? || d.md5.None? {
        return None;
      }
      out := out + [DownloadRecord(d.name.value, d.web.value, d.humanSize.value, d.md5.value, d.sha1)];
      k := k + 1;
    }
    return Some(out);
  }

  /** The item and URL `_download` works with, when both resolve. */
  function ResolveDownload(data: seq<Bundle>, machineName: string, filetype: string): Option<(Item, string)> {
    match GetItemObject(data, machineName)
    case None => None
    case Some(item) =>
      var url := GetUrl(item, filetype);
      if url == NA then None else Some((item, url))
  }

  /** The retry file name for one machine name, if its item is found and has a record: the
      item's first record decides the filetype. */
  function RetryName(data: seq<Bundle>, m: string): (r: seq<string>)
    ensures |r| <= 1
  {
    var item := GetItemObject(data, m);
    if item.Some? && item.value.downloadStruct != [] then [m + "." + FiletypeFromUrl(item.value.downloadStruct[0].web)] else []
  }

  function RetryNamer(data: seq<Bundle>): string -> seq<string> {
    m => RetryName(data, m)
  }

  /** The file names `_handle_platform` retries for machine names whose MD5 check failed, in
      order; unknown items and items without records are dropped. */
  function RetryNames(data: seq<Bundle>, machineNames: seq<string>): (r: seq<string>)
    ensures |r| <= |machineNames|
    ensures forall f :: f in r <==> exists m :: m in machineNames && f in RetryName(data, m)
  {
    FlatMapShort(machineNames, RetryNamer(data));
    FlatMapMembers(machineNames, RetryNamer(data));
    FlatMap(machineNames, RetryNamer(data))
  }

  /** The retry names keep the order of the machine names: those of a longer list are those
      of its front followed by the one name, if any, of the next machine name. */
  lemma RetryNamesAppend(data: seq<Bundle>, ms: seq<string>, m: string)
    ensures RetryNames(data, ms + [m]) == RetryNames(data, ms) + RetryName(data, m)
  {
    FlatMapAppend(ms, [m], RetryNamer(data));
    assert [m][..0] == [];
  }

  /** The file system after one request for a name: the body, or what arrived of it, is
      written to the temporary file `temp`; a placed file is then moved from there to `dest`.
      No other path changes. */
  function AfterFetch(fs0: map<string, Content>, temp: string, body: Content, dest: string, placed: bool): (r: map<string, Content>)
    ensures placed ==> dest in r && r[dest] == body && (temp != dest ==> temp !in r)
    ensures !placed ==> temp in r && r[temp] == body
  {
    var written := fs0[temp := body];
    if placed then (written - {temp})[dest := body] else written
  }

  /** Only the temporary file and the destination can change. */
  lemma AfterFetchTouchesTwoPaths(fs0: map<string, Content>, temp: string, body: Content, dest: string, placed: bool, p: string)
    requires p != temp && p != dest
    ensures p in AfterFetch(fs0, temp, body, dest, placed) <==> p in fs0
    ensures p in fs0 ==> AfterFetch(fs0, temp, body, dest, placed)[p] == fs0[p]
  {
  }

  /** The request budget of `p` passes over at most `n` names each. */
  function Budget(p: int, n: nat): nat
    decreases p
  {
    if p <= 0 then 0 else Budget(p - 1, n) + n
  }

  /** A pass that costs at most `m <= n` more stays within the budget of one more pass. */
  lemma BudgetStep(p: nat, q: nat, n: nat, m: nat, f0: nat, f1: nat, f2: nat)
    requires q == p + 1
    requires f0 <= f1 <= f0 + Budget(p, n)
    requires f1 <= f2 <= f1 + m && m <= n
    ensures f0 <= f2 <= f0 + Budget(q, n)
  {
  }

  lemma {:induction false} BudgetIsProduct(p: nat, n: nat)
    ensures Budget(p, n) == p * n
  {
    if p > 0 {
      BudgetIsProduct(p - 1, n);
      assert p * n == (p - 1) * n + n;
    }
  }

  /** A retry file name splits back, at its last dot, into the machine name and the filetype
      of the item's first record, which is what the repair loop downloads. */
  lemma RetryNameSplitsBack(data: seq<Bundle>, m: string)
    requires GetItemObject(data, m).Some? && GetItemObject(data, m).value.downloadStruct != []
    ensures var ft := FiletypeFromUrl(GetItemObject(data, m).value.downloadStruct[0].web);
      RetryName(data, m) == [m + "." + ft] && SplitLastDot(m + "." + ft) == (m, ft)
  {
    var ft := FiletypeFromUrl(GetItemObject(data, m).value.downloadStruct[0].web);
    SplitJoinRoundTrip(m, ft);
  }

  // ----- one file, on values -----

  /** The settings and the catalog that fetching, checking and placing a file read; none of
      them changes while files are fetched. */
  datatype Context = Context(allowed: seq<string>, verifyExisting: bool, ignoreDownloadedChecksum: bool,
                             data: seq<Bundle>, fallbackOrder: seq<string>, digest: Digester, net: Network,
                             path: string, tempPath: string)

  /** A context whose fallback order lists each fallback label. */
  type Config = c: Context | IsFallbackOrder(c.fallbackOrder)
    witness Context([], false, false, [], ["download", "supplement", "mp3", "companion file", "installer", ".zip"],
                    (alg, body) => "", (url, n) => Broken([]), "", "")

  /** Whether `_checksum_file` accepts the body downloaded for `info`, once it has been
      written to the temporary file over `fs0`. */
  predicate Accepted(c: Config, fs0: map<string, Content>, body: Content, info: FileInfo) {
    ChecksumFile(c.ignoreDownloadedChecksum, c.data, c.fallbackOrder, c.digest,
                 fs0[Join(c.tempPath, info.machineName) := body], info) == Success(true)
  }

  /** `_download`, `_checksum_file` and `_move_file` for `<machineName>` from `fs0` and
      `fetches0`: nothing happens when the item or its URL does not resolve; otherwise one
      request is made, and the file is placed exactly when the download completed and the
      checksum accepted it. */
  function Attempt(c: Config, machineName: string, filetype: string, fs0: map<string, Content>, fetches0: nat): (r: Outcome)
    ensures fetches0 <= r.fetches <= fetches0 + 1
  {
    var resolved := ResolveDownload(c.data, machineName, filetype);
    if resolved.None? then Outcome(false, fs0, fetches0)
    else
      var item, url := resolved.value.0, resolved.value.1;
      var outcome := c.net(url, fetches0);
      var info := FileInfo(c.tempPath, machineName, FiletypeFromUrl(url), item.platform);
      var placed := outcome.Complete? && Accepted(c, fs0, outcome.body, info);
      Outcome(placed, AfterFetch(fs0, Join(c.tempPath, machineName), outcome.body,
                                 Destination(c.path, item.platform, info.filetype, machineName), placed),
              fetches0 + 1)
  }

  /** One request is made for a name exactly when it resolves; without a request nothing
      changes and the name is not placed. */
  lemma AttemptAtMostOneRequest(c: Config, machineName: string, filetype: string, fs0: map<string, Content>, fetches0: nat)
    ensures var r := Attempt(c, machineName, filetype, fs0, fetches0);
      (r.fetches == fetches0 <==> ResolveDownload(c.data, machineName, filetype).None?) &&
      (r.fetches == fetches0 ==> !r.done && r.fs == fs0)
  {
  }

  /** A name is placed only after its item and URL resolved, the request returned the whole
      body and the checksum accepted it; the destination then holds that body. */
  lemma PlacedMeansAccepted(c: Config, machineName: string, filetype: string, fs0: map<string, Content>, fetches0: nat)
    requires Attempt(c, machineName, filetype, fs0, fetches0).done
    ensures ResolveDownload(c.data, machineName, filetype).Some?
    ensures var item, url := ResolveDownload(c.data, machineName, filetype).value.0, ResolveDownload(c.data, machineName, filetype).value.1;
      var info := FileInfo(c.tempPath, machineName, FiletypeFromUrl(url), item.platform);
      var dest := Destination(c.path, item.platform, info.filetype, machineName);
      var r := Attempt(c, machineName, filetype, fs0, fetches0);
      c.net(url, fetches0).Complete? && Accepted(c, fs0, c.net(url, fetches0).body, info) &&
      dest in r.fs && r.fs[dest] == c.net(url, fetches0).body
  {
  }

  /** With downloaded checksums ignored, every complete download is placed. */
  lemma IgnoredChecksumPlacesDownload(c: Config, machineName: string, filetype: string, fs0: map<string, Content>, fetches0: nat)
    requires c.ignoreDownloadedChecksum
    requires ResolveDownload(c.data, machineName, filetype).Some?
    requires c.net(ResolveDownload(c.data, machineName, filetype).value.1, fetches0).Complete?
    ensures Attempt(c, machineName, filetype, fs0, fetches0).done
  {
  }

  /** The body of the pass loop for one file name: a name the filter rejects is done with at
      once and costs nothing; any other is split at its last dot and attempted. */
  function TryResult(c: Config, filename: string, fs0: map<string, Content>, fetches0: nat): (r: Outcome)
    ensures !CheckFileAgainstFilter(c.allowed, filename) ==> r == Outcome(true, fs0, fetches0)
    ensures fetches0 <= r.fetches <= fetches0 + 1
  {
    if !CheckFileAgainstFilter(c.allowed, filename) then Outcome(true, fs0, fetches0)
    else Attempt(c, SplitLastDot(filename).0, SplitLastDot(filename).1, fs0, fetches0)
  }

  // ----- the repair loop on values -----

  /** One try at a file name, from a file system and a request count. */
  type Attempter = (string, map<string, Content>, nat) -> Outcome

  /** One pass of `_loop_through_missing_files` over `files`: each name is tried in turn on
      the file system and request count the previous one left; a name the try is done with
      is collected for removal, any other is kept. */
  function Pass(try: Attempter, files: seq<string>, fs0: map<string, Content>, fetches0: nat): PassState
    decreases |files|
  {
    if files == [] then PassState([], [], fs0, fetches0)
    else
      var st := Pass(try, files[..|files| - 1], fs0, fetches0);
      var o := try(files[|files| - 1], st.fs, st.fetches);
      if o.done then PassState(st.toRemove + [files[|files| - 1]], st.kept, o.fs, o.fetches)
      else PassState(st.toRemove, st.kept + [files[|files| - 1]], o.fs, o.fetches)
  }

  // The proofs below write out the terms the definitions unfold to (`files[..|files| - 1]`,
  // `Pass(..)`) instead of binding them to local variables, which the solver matches far
  // more cheaply.

  /** The pass over one more name tries that name on what the shorter pass left. */
  lemma PassStep(try: Attempter, files: seq<string>, fs0: map<string, Content>, fetches0: nat, j: nat)
    requires j < |files|
    ensures var st := Pass(try, files[..j], fs0, fetches0);
      var o := try(files[j], st.fs, st.fetches);
      Pass(try, files[..j + 1], fs0, fetches0) ==
        if o.done then PassState(st.toRemove + [files[j]], st.kept, o.fs, o.fetches)
        else PassState(st.toRemove, st.kept + [files[j]], o.fs, o.fetches)
  {
    assert files[..j + 1][..j] == files[..j];
  }

  /** Every name of a pass is either collected or kept, as often as it is listed. */
  lemma {:induction false} PassSplits(try: Attempter, files: seq<string>, fs0: map<string, Content>, fetches0: nat)
    ensures multiset(files) == multiset(Pass(try, files, fs0, fetches0).toRemove) + multiset(Pass(try, files, fs0, fetches0).kept)
    decreases |files|
  {
    if files != [] {
      PassSplits(try, files[..|files| - 1], fs0, fetches0);
      assert files == files[..|files| - 1] + [files[|files| - 1]];
    }
  }

  /** When the try is done with every name the filter `ok` rejects, a kept name passes the
      filter and a rejected name is collected. */
  lemma {:induction false} PassFiltered(try: Attempter, ok: string -> bool, files: seq<string>, fs0: map<string, Content>, fetches0: nat)
    requires forall x: string, f: map<string, Content>, k: nat :: !ok(x) ==> try(x, f, k).done
    ensures forall x :: x in Pass(try, files, fs0, fetches0).kept ==> ok(x)
    ensures forall x :: x in files && !ok(x) ==> x in Pass(try, files, fs0, fetches0).toRemove
    decreases |files|
  {
    if files != [] {
      PassFiltered(try, ok, files[..|files| - 1], fs0, fetches0);
      assert files == files[..|files| - 1] + [files[|files| - 1]];
    }
  }

  /** When a try makes at most one request, a pass makes at most one per name. */
  lemma {:induction false} PassCost(try: Attempter, files: seq<string>, fs0: map<string, Content>, fetches0: nat)
    requires forall x: string, f: map<string, Content>, k: nat :: k <= try(x, f, k).fetches <= k + 1
    ensures fetches0 <= Pass(try, files, fs0, fetches0).fetches <= fetches0 + |files|
    decreases |files|
  {
    if files != [] {
      PassCost(try, files[..|files| - 1], fs0, fetches0);
    }
  }

  /** In a list without repeats, a pass keeps exactly the names it did not collect, in their
      order in the list. */
  lemma {:induction false} PassKeepsOrder(try: Attempter, files: seq<string>, fs0: map<string, Content>, fetches0: nat)
    requires Distinct(files)
    ensures Pass(try, files, fs0, fetches0).kept == Without(files, Pass(try, files, fs0, fetches0).toRemove)
    decreases |files|
  {
    // `Without` peels off the last name as `Pass` does.
    if files != [] {
      assert Distinct(files[..|files| - 1]);
      PassKeepsOrder(try, files[..|files| - 1], fs0, fetches0);
      PassSplits(try, files[..|files| - 1], fs0, fetches0);
      assert multiset(files[..|files| - 1])[files[|files| - 1]] == 0;
      if try(files[|files| - 1], Pass(try, files[..|files| - 1], fs0, fetches0).fs,
             Pass(try, files[..|files| - 1], fs0, fetches0).fetches).done {
        WithoutAbsent(files[..|files| - 1], Pass(try, files[..|files| - 1], fs0, fetches0).toRemove, files[|files| - 1]);
      }
    }
  }

  /** `_loop_through_missing_files` on values: while retries are left and names are missing,
      a pass is made and the names it collected are removed with `list.remove`. */
  function Loop(try: Attempter, missing: seq<string>, retries: int, fs0: map<string, Content>, fetches0: nat): Progress
    decreases retries
  {
    if retries <= 0 || missing == [] then Progress(missing, fs0, fetches0)
    else
      var st := Pass(try, missing, fs0, fetches0);
      Loop(try, RemoveEach(missing, st.toRemove), retries - 1, st.fs, st.fetches)
  }

  /** With retries left and names missing, the loop makes one pass, removes what it
      collected and goes on with one retry fewer. */
  lemma LoopStep(try: Attempter, missing: seq<string>, retries: int, fs0: map<string, Content>, fetches0: nat)
    requires retries > 0 && missing != []
    ensures Loop(try, missing, retries, fs0, fetches0) ==
      Loop(try, RemoveEach(missing, Pass(try, missing, fs0, fetches0).toRemove), retries - 1,
           Pass(try, missing, fs0, fetches0).fs, Pass(try, missing, fs0, fetches0).fetches)
  {
  }

  /** One pass of the loop, stated on the values a caller holds before and after it. */
  lemma {:induction false} LoopAdvance(try: Attempter, before: seq<string>, prev: int, fsB: map<string, Content>, fetchesB: nat,
                                       after: seq<string>, left: int, fsA: map<string, Content>, fetchesA: nat)
    requires prev > 0 && before != [] && left == prev - 1
    requires after == RemoveEach(before, Pass(try, before, fsB, fetchesB).toRemove)
    requires fsA == Pass(try, before, fsB, fetchesB).fs && fetchesA == Pass(try, before, fsB, fetchesB).fetches
    ensures Loop(try, after, left, fsA, fetchesA) == Loop(try, before, prev, fsB, fetchesB)
  {
    LoopStep(try, before, prev, fsB, fetchesB);
    LoopSameRetries(try, after, prev - 1, left, fsA, fetchesA);
  }

  /** Equal retry counts give equal loops. */
  lemma LoopSameRetries(try: Attempter, missing: seq<string>, r1: int, r2: int, fs0: map<string, Content>, fetches0: nat)
    requires r1 == r2
    ensures Loop(try, missing, r1, fs0, fetches0) == Loop(try, missing, r2, fs0, fetches0)
  {
  }

  /** The loop only removes names, and once a pass has run every remaining name passes the
      filter the try respects. */
  lemma {:induction false} LoopShrinks(try: Attempter, ok: string -> bool, missing: seq<string>, retries: int,
                                       fs0: map<string, Content>, fetches0: nat)
    requires forall x: string, f: map<string, Content>, k: nat :: !ok(x) ==> try(x, f, k).done
    ensures multiset(Loop(try, missing, retries, fs0, fetches0).remaining) <= multiset(missing)
    ensures retries > 0 && missing != [] ==> forall x :: x in Loop(try, missing, retries, fs0, fetches0).remaining ==> ok(x)
    decreases retries
  {
    if retries > 0 && missing != [] {
      LoopStep(try, missing, retries, fs0, fetches0);
      PassSplits(try, missing, fs0, fetches0);
      PassFiltered(try, ok, missing, fs0, fetches0);
      PassLeavesKept(missing, Pass(try, missing, fs0, fetches0).toRemove, Pass(try, missing, fs0, fetches0).kept, missing);
      LoopShrinks(try, ok, RemoveEach(missing, Pass(try, missing, fs0, fetches0).toRemove), retries - 1,
                  Pass(try, missing, fs0, fetches0).fs, Pass(try, missing, fs0, fetches0).fetches);
    }
  }

  /** One pass of the loop, with what it leaves named: at most as many names remain, and the
      pass makes at most one request per name. */
  lemma LoopUnfold(try: Attempter, missing: seq<string>, retries: int, fs0: map<string, Content>, fetches0: nat)
      returns (rest: seq<string>, fs1: map<string, Content>, fetches1: nat)
    requires forall x: string, f: map<string, Content>, k: nat :: k <= try(x, f, k).fetches <= k + 1
    requires retries > 0 && missing != []
    ensures Loop(try, missing, retries, fs0, fetches0) == Loop(try, rest, retries - 1, fs1, fetches1)
    ensures |rest| <= |missing| && fetches0 <= fetches1 <= fetches0 + |missing|
  {
    rest := RemoveEach(missing, Pass(try, missing, fs0, fetches0).toRemove);
    fs1 := Pass(try, missing, fs0, fetches0).fs;
    fetches1 := Pass(try, missing, fs0, fetches0).fetches;
    LoopStep(try, missing, retries, fs0, fetches0);
    PassCost(try, missing, fs0, fetches0);
    RemoveEachShrinks(missing, Pass(try, missing, fs0, fetches0).toRemove);
  }

  /** With at most one request per try, a loop over at most `n` names makes at most `n`
      requests per pass. */
  lemma {:induction false} LoopCost(try: Attempter, missing: seq<string>, retries: int, fs0: map<string, Content>, fetches0: nat, n: nat)
    requires forall x: string, f: map<string, Content>, k: nat :: k <= try(x, f, k).fetches <= k + 1
    requires |missing| <= n
    ensures fetches0 <= Loop(try, missing, retries, fs0, fetches0).fetches <= fetches0 + Budget(retries, n)
    decreases retries
  {
    if retries > 0 && missing != [] {
      var rest, fs1, fetches1 := LoopUnfold(try, missing, retries, fs0, fetches0);
      LoopCost(try, rest, retries - 1, fs1, fetches1, n);
    }
  }

  /** The try of a context: the pass loop's body for one file name. */
  function Tries(c: Config): Attempter {
    (filename: string, fs0: map<string, Content>, fetches0: nat) => TryResult(c, filename, fs0, fetches0)
  }

  /** The filter of a context. */
  function Allows(c: Config): string -> bool {
    (filename: string) => CheckFileAgainstFilter(c.allowed, filename)
  }

  /** The try of a context is done with every name its filter rejects, and makes at most one
      request. */
  lemma TriesRespectFilter(c: Config)
    ensures forall x: string, f: map<string, Content>, k: nat :: !Allows(c)(x) ==> Tries(c)(x, f, k).done
    ensures forall x: string, f: map<string, Content>, k: nat :: k <= Tries(c)(x, f, k).fetches <= k + 1
  {
    forall x: string, f: map<string, Content>, k: nat ensures !Allows(c)(x) ==> Tries(c)(x, f, k).done {
      assert Tries(c)(x, f, k) == TryResult(c, x, f, k);
    }
    forall x: string, f: map<string, Content>, k: nat ensures k <= Tries(c)(x, f, k).fetches <= k + 1 {
      assert Tries(c)(x, f, k) == TryResult(c, x, f, k);
    }
  }

  /** The repair loop of a context keeps only names its filter passes, once a pass has run. */
  lemma LoopFiltered(c: Config, missing: seq<string>, retries: int, fs0: map<string, Content>, fetches0: nat)
    ensures retries > 0 && missing != [] ==>
      forall x :: x in Loop(Tries(c), missing, retries, fs0, fetches0).remaining ==> CheckFileAgainstFilter(c.allowed, x)
  {
    TriesRespectFilter(c);
    LoopShrinks(Tries(c), Allows(c), missing, retries, fs0, fetches0);
  }

  // ----- a platform and a run, on values -----

  /** The matching loop of `_handle_platform` over the file system `fs0`. */
  function PlatformScan(c: Config, platform: string, localFiles: seq<string>, fs0: map<string, Content>): MatchState {
    Scan(PlatformCandidates(c.data, platform), localFiles, c.verifyExisting, ExistingChecker(c.digest, fs0, c.path, platform))
  }

  /** `_handle_platform` on values: the matching loop appends to the MD5 lists; the sorted
      missing names get up to three passes; then the retry names of the whole no-match list,
      earlier platforms' failures included, get up to three passes on what that left. The
      lists only grow and requests are only added. */
  ghost function PlatformEffect(c: Config, platform: string, localFiles: seq<string>, t: Tracking): (r: Tracking)
    ensures t.passed <= r.passed && t.failed <= r.failed && t.fetches <= r.fetches
  {
    var st := PlatformScan(c, platform, localFiles, t.fs);
    var missing := SortedUniques(SetToSeq(st.noMatches));
    var first := Loop(Tries(c), missing, 3, t.fs, t.fetches);
    var failed := t.failed + st.failed;
    var retry := RetryNames(c.data, SortedUniques(failed));
    var second := Loop(Tries(c), retry, 3, first.fs, first.fetches);
    TriesRespectFilter(c);
    LoopCost(Tries(c), missing, 3, t.fs, t.fetches, |missing|);
    LoopCost(Tries(c), retry, 3, first.fs, first.fetches, |retry|);
    Tracking(t.passed + st.passed, failed, second.fs, second.fetches)
  }

  /** A loop over no names changes nothing. */
  lemma LoopNothing(try: Attempter, retries: int, fs0: map<string, Content>, fetches0: nat)
    ensures Loop(try, [], retries, fs0, fetches0) == Progress([], fs0, fetches0)
  {
  }

  /** A platform's effect, given what its two repair loops leave. */
  lemma PlatformEffectFrom(c: Config, platform: string, localFiles: seq<string>, t: Tracking, first: Progress, second: Progress)
    requires first == Loop(Tries(c), SortedUniques(SetToSeq(PlatformScan(c, platform, localFiles, t.fs).noMatches)), 3, t.fs, t.fetches)
    requires second == Loop(Tries(c), RetryNames(c.data, SortedUniques(t.failed + PlatformScan(c, platform, localFiles, t.fs).failed)),
                            3, first.fs, first.fetches)
    ensures PlatformEffect(c, platform, localFiles, t) ==
            Tracking(t.passed + PlatformScan(c, platform, localFiles, t.fs).passed,
                     t.failed + PlatformScan(c, platform, localFiles, t.fs).failed, second.fs, second.fetches)
  {
  }

  /** The platform loop of `run`: each platform handled in turn on what the previous ones
      left; the lists only grow and requests are only added. */
  ghost function RunEffect(c: Config, platforms: seq<string>, listing: string -> seq<string>, t: Tracking): (r: Tracking)
    ensures t.passed <= r.passed && t.failed <= r.failed && t.fetches <= r.fetches
    decreases |platforms|
  {
    if platforms == [] then t
    else
      var last := platforms[|platforms| - 1];
      PlatformEffect(c, last, listing(last), RunEffect(c, platforms[..|platforms| - 1], listing, t))
  }

  /** Handling one more platform extends the run by that platform's effect. */
  lemma RunEffectSnoc(c: Config, platforms: seq<string>, p: nat, listing: string -> seq<string>,
                      t0: Tracking, t: Tracking, t': Tracking)
    requires p < |platforms|
    requires t == RunEffect(c, platforms[..p], listing, t0)
    requires t' == PlatformEffect(c, platforms[p], listing(platforms[p]), t)
    ensures t' == RunEffect(c, platforms[..p + 1], listing, t0)
  {
    assert platforms[..p + 1][..p] == platforms[..p];
  }

  class HumbleBundleDownloader {
    const allowedFiletypes: seq<string>
    const verifyChecksumOnExistingFiles: bool
    const ignoreDownloadedChecksum: bool
    /** The download root and the temporary directory. */
    const path: string
    const downloadTempPath: string
    /** The order in which this process iterates the fallback-label set. */
    const fallbackOrder: seq<string>
    const digest: Digester
    const net: Network

    var data: seq<Bundle>
    var rawPlatforms: seq<string>
    var md5MatchList: seq<string>
    var md5NoMatchList: seq<string>
    var fs: map<string, Content>
    var fetches: nat

    ghost predicate Valid() {
      IsFallbackOrder(fallbackOrder)
    }

    /** The settings and catalog the per-file work reads. */
    ghost function Ctx(): Config
      requires Valid()
      reads this`data
    {
      Context(allowedFiletypes, verifyChecksumOnExistingFiles, ignoreDownloadedChecksum, data, fallbackOrder,
              digest, net, path, downloadTempPath)
    }

    /** `__init__` with the settings already read: an empty configured directory means the
        current one; the tracking lists start empty. */
    constructor (flags: Flags, noChecksumOnLocalFiles: bool, ignoreDownloadedChecksum: bool,
                 downloadPath: string, tempPath: string, cwd: string,
                 order: seq<string>, digest: Digester, net: Network, files: map<string, Content>)
      requires IsFallbackOrder(order)
      ensures Valid()
      ensures allowedFiletypes == AllowedFiletypes(flags)
      ensures verifyChecksumOnExistingFiles == !noChecksumOnLocalFiles
      ensures this.ignoreDownloadedChecksum == ignoreDownloadedChecksum
      ensures path == (if downloadPath == "" then cwd else downloadPath)
      ensures downloadTempPath == (if tempPath == "" then cwd else tempPath)
      ensures fallbackOrder == order && this.digest == digest && this.net == net
      ensures data == [] && rawPlatforms == [] && md5MatchList == [] && md5NoMatchList == []
      ensures fs == files && fetches == 0
    {
      allowedFiletypes := AllowedFiletypes(flags);
      verifyChecksumOnExistingFiles := !noChecksumOnLocalFiles;
      this.ignoreDownloadedChecksum := ignoreDownloadedChecksum;
      path := if downloadPath == "" then cwd else downloadPath;
      downloadTempPath := if tempPath == "" then cwd else tempPath;
      fallbackOrder := order;
      this.digest := digest;
      this.net := net;
      data := [];
      rawPlatforms := [];
      md5MatchList := [];
      md5NoMatchList := [];
      fs := files;
      fetches := 0;
    }

    // ----- `_parse_json` -----

    /** The body of the sub-product loop: the platform is logged as soon as the first download
        entry is read, before the keys that may still make the item be skipped. */
    method ParseSubproduct(ri: RawItem) returns (item: Option<Item>)
      modifies this`rawPlatforms
      ensures item == ConvertItem(ri)
      ensures rawPlatforms == old(rawPlatforms) + LoggedPlatform(ri)
    {
      if ri.downloads.None? || ri.downloads.value == [] {
        return None;
      }
      var first := ri.downloads.value[0];
      if first.platform.None? {
        return None;
      }
      var platform := first.platform.value;
      rawPlatforms := rawPlatforms + [platform];
      if ri.humanName.None? || ri.machineName.None? {
        return None;
      }
      var records := ConvertDownloadStruct(first.downloadStruct.GetOr([]));
      if records.None? {
        return None;
      }
      return Some(Item(ri.humanName.value, ri.machineName.value, platform, records.value));
    }

    /** The body of the order loop for an order whose own keys are present: its sub-products
        are converted in order, and its record counts both the listed and the kept ones. */
    method ParseBundle(res: RawBundle) returns (bundle: Bundle)
      requires HeaderOk(res)
      modifies this`rawPlatforms
      ensures bundle == BuildBundle(res)
      ensures rawPlatforms == old(rawPlatforms) + ItemsPlatforms(res.subproducts.value)
    {
      var subs := res.subproducts.value;
      var items: seq<Item> := [];
      var counter := 0;
      ghost var logged0 := rawPlatforms;
      assert subs[..0] == [] && logged0 + [] == logged0;
      var j := 0;
      while j < |subs|
        invariant 0 <= j <= |subs|
        invariant items == ConvertItems(subs[..j]) && counter == |items|
        invariant rawPlatforms == logged0 + ItemsPlatforms(subs[..j])
      {
        ghost var logged := rawPlatforms;
        var item := ParseSubproduct(subs[j]);
        if item.Some? {
          items := items + [item.value];
          counter := counter + 1;
        }
        assert subs[..j + 1][..j] == subs[..j];
        AppendAssociates(logged0, ItemsPlatforms(subs[..j]), LoggedPlatform(subs[j]));
        j := j + 1;
      }
      assert subs[..j] == subs;
      return Bundle(res.machineName.value, res.humanName.value, |subs|, items, counter);
    }

    /** `_parse_json`: one record per order, in order, or the error for the first order that
        lacks its own keys; the platforms of all sub-products visited before that are logged. */
    method ParseJson(raws: seq<RawBundle>) returns (r: Result<seq<Bundle>, ParseError>)
      modifies this`rawPlatforms
      ensures AllHeadersOk(raws) ==> r == Success(BuildBundles(raws))
      ensures !AllHeadersOk(raws) ==> r == Failure(MissingBundleKey(GoodPrefix(raws)))
      ensures rawPlatforms == old(rawPlatforms) + BundlesPlatforms(raws[..GoodPrefix(raws)])
    {
      var out: seq<Bundle> := [];
      ghost var logged0 := rawPlatforms;
      assert raws[..0] == [] && logged0 + [] == logged0;
      var b := 0;
      while b < |raws|
        invariant 0 <= b <= |raws|
        invariant AllHeadersOk(raws[..b])
        invariant out == BuildBundles(raws[..b])
        invariant rawPlatforms == logged0 + BundlesPlatforms(raws[..b])
      {
        var res := raws[b];
        if !HeaderOk(res) {
          GoodPrefixAt(raws, b);
          return Failure(MissingBundleKey(b));
        }
        var bundle := ParseBundle(res);
        out := out + [bundle];
        assert raws[..b + 1][..b] == raws[..b];
        assert AllHeadersOk(raws[..b + 1]) by {
          assert forall k :: 0 <= k < b + 1 ==> raws[..b + 1][k] == raws[k];
        }
        AppendAssociates(logged0, BundlesPlatforms(raws[..b]), ItemsPlatforms(res.subproducts.value));
        b := b + 1;
      }
      assert raws[..b] == raws;
      GoodPrefixAt(raws, b);
      return Success(out);
    }

    // ----- the matching loop of `_handle_platform` -----

    /** The candidates `done` have been visited: the two sets and the appended MD5 lists are
        what `Scan` says. */
    ghost predicate Scanned(done: seq<Candidate>, platform: string, localFiles: seq<string>,
                            matches: set<string>, noMatches: set<string>, passed0: seq<string>, failed0: seq<string>)
      reads this
    {
      var st := Scan(done, localFiles, verifyChecksumOnExistingFiles, ExistingChecker(digest, fs, path, platform));
      matches == st.matches && noMatches == st.noMatches &&
      md5MatchList == passed0 + st.passed && md5NoMatchList == failed0 + st.failed
    }

    /** The MD5 check of a present file: with verification of existing files on, the machine
        name goes to the match list when the file passes and to the no-match list otherwise. */
    method CheckExisting(platform: string, c: Candidate)
      modifies this`md5MatchList, this`md5NoMatchList
      ensures var ok := ExistingFileOk(digest, fs, path, platform, c);
        md5MatchList == old(md5MatchList) + (if verifyChecksumOnExistingFiles && ok then [c.machineName] else []) &&
        md5NoMatchList == old(md5NoMatchList) + (if verifyChecksumOnExistingFiles && !ok then [c.machineName] else [])
    {
      if verifyChecksumOnExistingFiles {
        var result := VerifyChecksum(digest, fs, ExistingDir(path, platform, c.filetype),
                                     c.machineName + "." + Lower(c.filetype), c.md5, Md5);
        if result.Success? && result.value.verdict {
          md5MatchList := md5MatchList + [c.machineName];
        } else {
          md5NoMatchList := md5NoMatchList + [c.machineName];
        }
      } else {
        assert md5MatchList + [] == md5MatchList && md5NoMatchList + [] == md5NoMatchList;
      }
    }

    /** One download record of an item of the platform being handled: when its URL gives a
        filetype it is a candidate, and the file `<machine_name>.<filetype>` is either local
        (a match, MD5-checked when existing files are verified) or missing. */
    method MatchRecord(platform: string, localFiles: seq<string>, machineName: string, d: DownloadRecord,
                       matches0: set<string>, noMatches0: set<string>,
                       ghost done: seq<Candidate>, ghost passed0: seq<string>, ghost failed0: seq<string>)
        returns (matches: set<string>, noMatches: set<string>)
      requires Scanned(done, platform, localFiles, matches0, noMatches0, passed0, failed0)
      modifies this`md5MatchList, this`md5NoMatchList
      ensures Scanned(done + RecordCandidate(machineName, d), platform, localFiles, matches, noMatches, passed0, failed0)
    {
      matches, noMatches := matches0, noMatches0;
      ghost var ok := ExistingChecker(digest, fs, path, platform);
      ghost var st := Scan(done, localFiles, verifyChecksumOnExistingFiles, ok);
      ScanStep(done, RecordCandidate(machineName, d), localFiles, verifyChecksumOnExistingFiles, ok);
      var urlFileType := FiletypeFromUrl(d.web);
      var filename := machineName + "." + urlFileType;
      if urlFileType != "" {
        var c := Candidate(machineName, urlFileType, d.md5);
        assert RecordCandidate(machineName, d) == [c];
        if filename in localFiles {
          matches := matches + {machineName};
          CheckExisting(platform, c);
          AppendAssociates(passed0, st.passed, if verifyChecksumOnExistingFiles && ok(c) then [machineName] else []);
          AppendAssociates(failed0, st.failed, if verifyChecksumOnExistingFiles && !ok(c) then [machineName] else []);
        } else {
          noMatches := noMatches + {filename};
        }
      }
    }

    /** The records of one item, in order, when the item belongs to the platform. */
    method MatchItem(platform: string, localFiles: seq<string>, item: Item,
                     matches0: set<string>, noMatches0: set<string>,
                     ghost done: seq<Candidate>, ghost passed0: seq<string>, ghost failed0: seq<string>)
        returns (matches: set<string>, noMatches: set<string>)
      requires Scanned(done, platform, localFiles, matches0, noMatches0, passed0, failed0)
      modifies this`md5MatchList, this`md5NoMatchList
      ensures Scanned(done + (if item.platform == platform then RecordCandidates(item, item.downloadStruct) else []),
                      platform, localFiles, matches, noMatches, passed0, failed0)
    {
      matches, noMatches := matches0, noMatches0;
      if item.platform != platform {
        assert done + [] == done;
        return;
      }
      var ds := item.downloadStruct;
      ghost var visited := done;
      assert ds[..0] == [];
      var k := 0;
      while k < |ds|
        invariant 0 <= k <= |ds|
        invariant visited == done + RecordCandidates(item, ds[..k])
        invariant Scanned(visited, platform, localFiles, matches, noMatches, passed0, failed0)
      {
        matches, noMatches := MatchRecord(platform, localFiles, item.machineName, ds[k], matches, noMatches,
                                          visited, passed0, failed0);
        RecordCandidatesStep(item, ds, k);
        AppendAssociates(done, RecordCandidates(item, ds[..k]), RecordCandidate(item.machineName, ds[k]));
        visited := visited + RecordCandidate(item.machineName, ds[k]);
        k := k + 1;
      }
      assert ds[..k] == ds;
    }

    /** The items of one order, in order. */
    method MatchBundle(platform: string, localFiles: seq<string>, items: seq<Item>,
                       matches0: set<string>, noMatches0: set<string>,
                       ghost done: seq<Candidate>, ghost passed0: seq<string>, ghost failed0: seq<string>)
        returns (matches: set<string>, noMatches: set<string>)
      requires Scanned(done, platform, localFiles, matches0, noMatches0, passed0, failed0)
      modifies this`md5MatchList, this`md5NoMatchList
      ensures Scanned(done + ItemCandidates(items, platform), platform, localFiles, matches, noMatches, passed0, failed0)
    {
      matches, noMatches := matches0, noMatches0;
      ghost var visited := done;
      assert items[..0] == [] && done + [] == done;
      var i := 0;
      while i < |items|
        invariant 0 <= i <= |items|
        invariant visited == done + ItemCandidates(items[..i], platform)
        invariant Scanned(visited, platform, localFiles, matches, noMatches, passed0, failed0)
      {
        matches, noMatches := MatchItem(platform, localFiles, items[i], matches, noMatches, visited, passed0, failed0);
        ghost var more := if items[i].platform == platform then RecordCandidates(items[i], items[i].downloadStruct) else [];
        ItemCandidatesStep(items, platform, i);
        AppendAssociates(done, ItemCandidates(items[..i], platform), more);
        visited := visited + more;
        i := i + 1;
      }
      assert items[..i] == items;
    }

    /** Every record of every item of `platform` whose URL gives a filetype: a local file of
        that name adds the machine name to the matches (and, when existing files are
        verified, to the MD5 match or no-match list); otherwise the name is missing. The MD5
        lists are appended to, never reset. */
    method MatchPlatform(platform: string, localFiles: seq<string>) returns (matches: set<string>, noMatches: set<string>)
      modifies this`md5MatchList, this`md5NoMatchList
      ensures var st := Scan(PlatformCandidates(data, platform), localFiles, verifyChecksumOnExistingFiles,
                             ExistingChecker(digest, fs, path, platform));
        matches == st.matches && noMatches == st.noMatches &&
        md5MatchList == old(md5MatchList) + st.passed && md5NoMatchList == old(md5NoMatchList) + st.failed
    {
      matches, noMatches := {}, {};
      ghost var done: seq<Candidate> := [];
      ghost var passed0, failed0 := md5MatchList, md5NoMatchList;
      assert md5MatchList == passed0 + [] && md5NoMatchList == failed0 + [];
      var b := 0;
      while b < |data|
        invariant 0 <= b <= |data|
        invariant done == PlatformCandidates(data[..b], platform)
        invariant Scanned(done, platform, localFiles, matches, noMatches, passed0, failed0)
      {
        matches, noMatches := MatchBundle(platform, localFiles, data[b].items, matches, noMatches, done, passed0, failed0);
        PlatformCandidatesStep(data, platform, b);
        done := done + ItemCandidates(data[b].items, platform);
        b := b + 1;
      }
      assert data[..b] == data;
    }

    // ----- one file: `_download`, `_checksum_file`, `_move_file` -----

    /** `_download`: nothing happens unless the item and its URL resolve; then one request is
        made and its body (or what arrived of it) is written to `<temp>/<machine_name>`, and
        only a complete download is reported. */
    method Download(machineName: string, filetype: string) returns (info: Option<FileInfo>)
      modifies this`fs, this`fetches
      ensures ResolveDownload(data, machineName, filetype).None? ==>
        info.None? && fs == old(fs) && fetches == old(fetches)
      ensures ResolveDownload(data, machineName, filetype).Some? ==>
        var item, url := ResolveDownload(data, machineName, filetype).value.0, ResolveDownload(data, machineName, filetype).value.1;
        fetches == old(fetches) + 1 &&
        fs == old(fs)[Join(downloadTempPath, machineName) := net(url, old(fetches)).body] &&
        info == if net(url, old(fetches)).Complete? then Some(FileInfo(downloadTempPath, machineName, FiletypeFromUrl(url), item.platform))
                else None
    {
      // `_get_item_object` then `_get_url`: either failing ends the download early.
      var resolved := ResolveDownload(data, machineName, filetype);
      if resolved.None? {
        return None;
      }
      var item, url := resolved.value.0, resolved.value.1;
      var urlFileType := FiletypeFromUrl(url);
      var tempFilename := Join(downloadTempPath, machineName);
      var outcome := net(url, fetches);
      fetches := fetches + 1;
      fs := fs[tempFilename := outcome.body];
      if outcome.Complete? {
        info := Some(FileInfo(downloadTempPath, machineName, urlFileType, item.platform));
      } else {
        info := None;
      }
    }

    /** `_move_file`: the temporary file is moved to its placement under the download root. */
    method MoveFile(info: FileInfo)
      requires Join(downloadTempPath, info.machineName) in fs
      modifies this`fs
      ensures var temp := Join(downloadTempPath, info.machineName);
        fs == (old(fs) - {temp})[Destination(path, info.platform, info.filetype, info.machineName) := old(fs)[temp]]
    {
      var platform := Lower(info.platform);
      var filetype := Lower(info.filetype);
      var filename := info.machineName + "." + filetype;
      var tempfile := Join(downloadTempPath, info.machineName);
      var dir := if platform == "ebook" then Join(path, "ebook/" + filetype) else Join(path, platform);
      var finalpath := Join(dir, filename);
      var content := fs[tempfile];
      fs := (fs - {tempfile})[finalpath := content];
    }

    /** `_download`, then `_checksum_file` and `_move_file` when the download completed. */
    method FetchAndPlace(machineName: string, filetype: string) returns (placed: bool)
      requires Valid()
      modifies this`fs, this`fetches
      ensures Outcome(placed, fs, fetches) == Attempt(Ctx(), machineName, filetype, old(fs), old(fetches))
      ensures old(fetches) <= fetches <= old(fetches) + 1
    {
      var info := Download(machineName, filetype);
      if info.None? {
        return false;
      }
      var accepted := ChecksumFile(ignoreDownloadedChecksum, data, fallbackOrder, digest, fs, info.value);
      if accepted.Success? && accepted.value {
        MoveFile(info.value);
        return true;
      }
      return false;
    }

    /** The body of the pass loop of `_loop_through_missing_files` for one file name: a name
        the filter rejects is dropped at once; otherwise the name is split at its last dot,
        downloaded, checked and, when the check passes, moved into place and dropped. A
        failed download or check keeps the name. */
    method TryFile(filename: string) returns (remove: bool)
      requires Valid()
      modifies this`fs, this`fetches
      ensures !CheckFileAgainstFilter(allowedFiletypes, filename) ==> remove && fs == old(fs) && fetches == old(fetches)
      ensures Outcome(remove, fs, fetches) == TryResult(Ctx(), filename, old(fs), old(fetches))
      ensures old(fetches) <= fetches <= old(fetches) + 1
    {
      if !CheckFileAgainstFilter(allowedFiletypes, filename) {
        return true;
      }
      var machineName := SplitLastDot(filename).0;
      var filetype := SplitLastDot(filename).1;
      remove := FetchAndPlace(machineName, filetype);
    }

    // ----- `_loop_through_missing_files` -----

    /** One pass over the work list: every name is tried once, on what the previous name
        left; the names to drop are collected, the others are kept, and the list itself is
        not touched during the pass. */
    method AttemptPass(files: seq<string>) returns (toRemove: seq<string>, ghost kept: seq<string>)
      requires Valid()
      modifies this`fs, this`fetches
      ensures PassState(toRemove, kept, fs, fetches) == Pass(Tries(Ctx()), files, old(fs), old(fetches))
      ensures multiset(files) == multiset(toRemove) + multiset(kept)
      ensures forall x :: x in kept ==> CheckFileAgainstFilter(allowedFiletypes, x)
      ensures forall x :: x in files && !CheckFileAgainstFilter(allowedFiletypes, x) ==> x in toRemove
      ensures old(fetches) <= fetches <= old(fetches) + |files|
    {
      toRemove, kept := [], [];
      ghost var try := Tries(Ctx());
      assert files[..0] == [];
      var j := 0;
      while j < |files|
        invariant 0 <= j <= |files|
        invariant try == Tries(Ctx())
        invariant PassState(toRemove, kept, fs, fetches) == Pass(try, files[..j], old(fs), old(fetches))
      {
        var filename := files[j];
        ghost var fs', fetches' := fs, fetches;
        var remove := TryFile(filename);
        assert try(filename, fs', fetches') == Outcome(remove, fs, fetches);
        PassStep(try, files, old(fs), old(fetches), j);
        if remove {
          toRemove := toRemove + [filename];
        } else {
          kept := kept + [filename];
        }
        j := j + 1;
      }
      assert files[..j] == files;
      TriesRespectFilter(Ctx());
      PassSplits(try, files, old(fs), old(fetches));
      PassFiltered(try, Allows(Ctx()), files, old(fs), old(fetches));
      PassCost(try, files, old(fs), old(fetches));
    }

    /** One pass of `_loop_through_missing_files` with its removal loop: what is left are
        the names the pass kept (the same names, as many times each; in a list without
        repeats, the very list of kept names), each of which passes the filter. */
    method RetryPass(files: seq<string>) returns (remaining: seq<string>)
      requires Valid()
      modifies this`fs, this`fetches
      ensures remaining == RemoveEach(files, Pass(Tries(Ctx()), files, old(fs), old(fetches)).toRemove)
      ensures fs == Pass(Tries(Ctx()), files, old(fs), old(fetches)).fs
      ensures fetches == Pass(Tries(Ctx()), files, old(fs), old(fetches)).fetches
      ensures multiset(remaining) == multiset(Pass(Tries(Ctx()), files, old(fs), old(fetches)).kept)
      ensures Distinct(files) ==> remaining == Pass(Tries(Ctx()), files, old(fs), old(fetches)).kept
      ensures multiset(remaining) <= multiset(files)
      ensures forall x :: x in remaining ==> CheckFileAgainstFilter(allowedFiletypes, x)
      ensures old(fetches) <= fetches <= old(fetches) + |files|
    {
      var toRemove, kept := AttemptPass(files);
      remaining := RemoveProcessed(files, toRemove);
      PassLeavesKept(files, toRemove, kept, files);
      if Distinct(files) {
        PassKeepsOrder(Tries(Ctx()), files, old(fs), old(fetches));
        RemoveEachDistinct(files, toRemove);
      }
    }

    /** `_loop_through_missing_files`: at most `maxRetries` passes, stopping early only once
        the list is empty; after each pass the collected names are removed with `list.remove`,
        so the list only shrinks, the names a pass kept are exactly what remains, and every
        remaining name passes the filter. Each pass makes at most one request per name. */
    method LoopThroughMissingFiles(missing: seq<string>, maxRetries: int) returns (remaining: seq<string>, ghost passes: nat)
      requires Valid()
      modifies this`fs, this`fetches
      ensures Progress(remaining, fs, fetches) == Loop(Tries(Ctx()), missing, maxRetries, old(fs), old(fetches))
      ensures passes <= (if maxRetries < 0 then 0 else maxRetries)
      ensures passes < maxRetries ==> remaining == []
      ensures passes == 0 ==> remaining == missing
      ensures multiset(remaining) <= multiset(missing)
      ensures passes > 0 ==> forall x :: x in remaining ==> CheckFileAgainstFilter(allowedFiletypes, x)
      ensures old(fetches) <= fetches <= old(fetches) + passes * |missing|
    {
      remaining := missing;
      passes := 0;
      ghost var try := Tries(Ctx());
      ghost var goal := Loop(try, missing, maxRetries, fs, fetches);
      // `left` counts the retries still allowed; it is a variable of its own so that the
      // loop terms before and after a pass match without arithmetic.
      ghost var left := maxRetries;
      var i := 0;
      while i < maxRetries && remaining != []
        invariant 0 <= i && passes == i && left == maxRetries - i
        invariant passes <= (if maxRetries < 0 then 0 else maxRetries)
        invariant try == Tries(Ctx())
        invariant Loop(try, remaining, left, fs, fetches) == goal
        invariant multiset(remaining) <= multiset(missing)
        invariant passes == 0 ==> remaining == missing
        invariant passes > 0 ==> maxRetries > 0 && missing != []
        invariant old(fetches) <= fetches <= old(fetches) + Budget(passes, |missing|)
      {
        ghost var before, fs', fetches', prev, spent := remaining, fs, fetches, left, passes;
        remaining := RetryPass(remaining);
        assert multiset(remaining) <= multiset(missing) by {
          SubsetTransitive(remaining, before, missing);
        }
        DrawnIsShorter(before, missing);
        i := i + 1;
        left := left - 1;
        passes := i;
        BudgetStep(spent, passes, |missing|, |before|, old(fetches), fetches', fetches);
        LoopAdvance(try, before, prev, fs', fetches', remaining, left, fs, fetches);
      }
      assert passes > 0 ==> forall x :: x in remaining ==> CheckFileAgainstFilter(allowedFiletypes, x) by {
        LoopFiltered(Ctx(), missing, maxRetries, old(fs), old(fetches));
      }
      BudgetIsProduct(passes, |missing|);
    }

    // ----- `_handle_platform` -----

    /** The retry list built from the failed MD5 checks. */
    method FailedFilenames(failedList: seq<string>) returns (names: seq<string>)
      ensures names == RetryNames(data, failedList)
    {
      names := [];
      var k := 0;
      while k < |failedList|
        invariant 0 <= k <= |failedList|
        invariant names == RetryNames(data, failedList[..k])
      {
        names := names + RetryName(data, failedList[k]);
        assert failedList[..k + 1][..k] == failedList[..k];
        k := k + 1;
      }
      assert failedList[..k] == failedList;
    }

    /** `_handle_platform` given the platform's local file listing: match, then repair the
        missing files from a sorted list, then retry every machine name on the MD5 no-match
        list, which still holds the failures of earlier platforms. */
    method HandlePlatform(platform: string, localFiles: seq<string>) returns (ghost missingList: seq<string>, ghost retried: seq<string>)
      requires Valid()
      modifies this`md5MatchList, this`md5NoMatchList, this`fs, this`fetches
      ensures Tracking(md5MatchList, md5NoMatchList, fs, fetches) ==
              PlatformEffect(Ctx(), platform, localFiles, Tracking(old(md5MatchList), old(md5NoMatchList), old(fs), old(fetches)))
      ensures var st := Scan(PlatformCandidates(data, platform), localFiles, verifyChecksumOnExistingFiles,
                             ExistingChecker(digest, old(fs), path, platform));
        md5MatchList == old(md5MatchList) + st.passed && md5NoMatchList == old(md5NoMatchList) + st.failed &&
        StrictlySorted(missingList) && (forall f :: f in missingList <==> f in st.noMatches) &&
        retried == RetryNames(data, SortedUniques(md5NoMatchList))
      ensures missingList == SortedUniques(SetToSeq(PlatformScan(Ctx(), platform, localFiles, old(fs)).noMatches))
    {
      var matches, noMatches := MatchPlatform(platform, localFiles);
      ghost var first: Progress;
      missingList := [];
      if noMatches != {} {
        var listed := ListOfSet(noMatches);
        var sortedMissing := SortedUniques(listed);
        SortedUniquesCanonical(listed, SetToSeq(noMatches));
        missingList := sortedMissing;
        var left, _ := LoopThroughMissingFiles(sortedMissing, 3);
        first := Progress(left, fs, fetches);
      } else {
        assert SetToSeq(noMatches) == [];
        LoopNothing(Tries(Ctx()), 3, fs, fetches);
        first := Progress([], fs, fetches);
      }
      retried := [];
      ghost var second: Progress;
      if md5NoMatchList != [] {
        var failedList := SortedUniques(md5NoMatchList);
        var failedFilenames := FailedFilenames(failedList);
        retried := failedFilenames;
        var left, _ := LoopThroughMissingFiles(failedFilenames, 3);
        second := Progress(left, fs, fetches);
      } else {
        assert SortedUniques(md5NoMatchList) == [];
        LoopNothing(Tries(Ctx()), 3, fs, fetches);
        second := Progress([], fs, fetches);
      }
      PlatformEffectFrom(Ctx(), platform, localFiles, Tracking(old(md5MatchList), old(md5NoMatchList), old(fs), old(fetches)),
                         first, second);
    }

    // ----- `run`, from the parsed orders on -----

    /** The platform loop of `run`: each platform handled in turn, in the order given. */
    method HandlePlatforms(platforms: seq<string>, listing: string -> seq<string>)
      requires Valid()
      modifies this`md5MatchList, this`md5NoMatchList, this`fs, this`fetches
      ensures Tracking(md5MatchList, md5NoMatchList, fs, fetches) ==
              RunEffect(Ctx(), platforms, listing, Tracking(old(md5MatchList), old(md5NoMatchList), old(fs), old(fetches)))
    {
      ghost var t0 := Tracking(md5MatchList, md5NoMatchList, fs, fetches);
      assert platforms[..0] == [];
      var p := 0;
      while p < |platforms|
        invariant 0 <= p <= |platforms|
        invariant Tracking(md5MatchList, md5NoMatchList, fs, fetches) == RunEffect(Ctx(), platforms[..p], listing, t0)
      {
        ghost var t := Tracking(md5MatchList, md5NoMatchList, fs, fetches);
        var _, _ := HandlePlatform(platforms[p], listing(platforms[p]));
        RunEffectSnoc(Ctx(), platforms, p, listing, t0, t, Tracking(md5MatchList, md5NoMatchList, fs, fetches));
        p := p + 1;
      }
      assert platforms[..p] == platforms;
    }

    /** Parse the orders, then handle each platform seen while parsing, once, in sorted order.
        `listing` gives a platform's local file names. A missing order key ends the run. */
    method Run(raws: seq<RawBundle>, listing: string -> seq<string>) returns (r: Result<seq<string>, ParseError>)
      requires Valid()
      modifies this
      ensures AllHeadersOk(raws) ==>
        r == Success(SortedUniques(old(rawPlatforms) + BundlesPlatforms(raws))) && data == BuildBundles(raws)
      ensures !AllHeadersOk(raws) ==> r == Failure(MissingBundleKey(GoodPrefix(raws))) && data == old(data)
      ensures AllHeadersOk(raws) ==>
        Tracking(md5MatchList, md5NoMatchList, fs, fetches) ==
        RunEffect(Ctx(), SortedUniques(old(rawPlatforms) + BundlesPlatforms(raws)), listing,
                  Tracking(old(md5MatchList), old(md5NoMatchList), old(fs), old(fetches)))
      ensures !AllHeadersOk(raws) ==>
        md5MatchList == old(md5MatchList) && md5NoMatchList == old(md5NoMatchList) && fs == old(fs) && fetches == old(fetches)
      ensures rawPlatforms == old(rawPlatforms) + BundlesPlatforms(raws[..GoodPrefix(raws)])
    {
      var parsed := ParseJson(raws);
      if parsed.Failure? {
        return Failure(parsed.error);
      }
      data := parsed.value;
      assert raws[..GoodPrefix(raws)] == raws;
      var platforms := SortedUniques(rawPlatforms);
      HandlePlatforms(platforms, listing);
      return Success(platforms);
    }
  }

  /** The MD5 no-match list is never reset, so a failure recorded while handling an earlier
      platform is retried again by every later platform. */
  lemma EarlierFailuresRetried(data: seq<Bundle>, earlier: seq<string>, now: seq<string>, m: string)
    requires m in earlier
    requires GetItemObject(data, m).Some? && GetItemObject(data, m).value.downloadStruct != []
    ensures m + "." + FiletypeFromUrl(GetItemObject(data, m).value.downloadStruct[0].web) in
            RetryNames(data, SortedUniques(earlier + now))
  {
    var xs := SortedUniques(earlier + now);
    assert m in xs by { assert m in earlier + now; }
    var name := m + "." + FiletypeFromUrl(GetItemObject(data, m).value.downloadStruct[0].web);
    RetryNameSplitsBack(data, m);
    assert RetryNamer(data)(m) == [name];
    FlatMapCovers(xs, RetryNamer(data), m);
    assert name in FlatMap(xs, RetryNamer(data));
  }
}
