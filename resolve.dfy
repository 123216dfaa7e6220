/** From a catalog item and a requested filetype to a download URL and an expected digest:
    `_get_filetype_from_url`, `_get_url` and `_get_hash`. The URL chain and the hash chain are
    two separate first-match scans and differ in their stages. */
module Resolve {
  import opened Wrappers
  import opened Strings
  import opened Search
  import opened Manifest

  /** The sentinel the downloader uses for "no URL" and "no hash". */
  const NA: string := "n/a"

  /** The un-substituted token that marks a placeholder URL. */
  const Placeholder: string := "FILE_NAME"

  /** Labels that name a miscellaneous asset; tried when no exact label matches. */
  const FallbackLabels: set<string> := {"download", "supplement", "mp3", "companion file", "installer", ".zip"}

  // ----- `_get_filetype_from_url` -----

  /** The filetype of a URL: the lower-cased text after the last '.' of the part before the
      first '?'; empty for a placeholder URL. */
  function FiletypeFromUrl(url: string): (r: string)
    ensures Contains(url, Placeholder) ==> r == ""
    ensures '.' !in r && '?' !in r
    ensures forall i :: 0 <= i < |r| ==> !IsUpper(r[i])
  {
    if Contains(url, Placeholder) then ""
    else
      var path := BeforeFirst(url, '?');
      var ext := AfterLast(path, '.');
      SuffixAvoids(path, ext, '?');
      LowerKeepsNonLetter(ext, '.');
      LowerKeepsNonLetter(ext, '?');
      Lower(ext)
  }

  /** For a URL `stem.ext` followed by nothing or by a query starting with '?', where `ext` has
      no dot and neither part a '?', the filetype is `ext` lower-cased. */
  lemma FiletypeOfUrl(stem: string, ext: string, query: string)
    requires '.' !in ext && '?' !in ext && '?' !in stem
    requires query == [] || query[0] == '?'
    requires !Contains(stem + "." + ext + query, Placeholder)
    ensures FiletypeFromUrl(stem + "." + ext + query) == Lower(ext)
  {
    var url := stem + "." + ext + query;
    var path := stem + "." + ext;
    var before := BeforeFirst(url, '?');
    assert forall i :: 0 <= i < |path| ==> url[i] == path[i] && url[i] != '?';
    assert |before| < |url| ==> url[|before|] == '?';
    assert query != [] ==> url[|path|] == '?';
    assert before == url[..|before|];
    assert |before| == |path|;
    assert before == path;
    SplitJoinRoundTrip(stem, ext);
  }

  /** A URL whose path part has no dot at all yields that whole part, lower-cased. */
  lemma FiletypeOfDotlessUrl(url: string)
    requires !Contains(url, Placeholder) && '.' !in BeforeFirst(url, '?')
    ensures FiletypeFromUrl(url) == Lower(BeforeFirst(url, '?'))
  {
  }

  lemma FiletypeOfPlaceholderExample()
    ensures FiletypeFromUrl("https://host/FILE_NAME_placeholder") == ""
  {
    var url := "https://host/FILE_NAME_placeholder";
    assert url[13..22] == Placeholder;
    ContainsAt(url, Placeholder, 13);
  }

  // ----- `_get_url` -----

  predicate LabelIs(d: DownloadRecord, filetype: string) {
    Lower(d.name) == Lower(filetype)
  }

  predicate UrlTypeIs(d: DownloadRecord, filetype: string) {
    FiletypeFromUrl(d.web) == Lower(filetype)
  }

  predicate HasFallbackLabel(d: DownloadRecord) {
    Lower(d.name) in FallbackLabels
  }

  /** A chosen URL is returned unless it carries the placeholder token, which gives "n/a". */
  function UsableUrl(url: string): (r: string)
    ensures r == url || r == NA
    ensures r == url <==> !Contains(url, Placeholder) || url == NA
  {
    if Contains(url, Placeholder) then NA else url
  }

  function LabelMatcher(filetype: string): DownloadRecord -> bool {
    d => LabelIs(d, filetype)
  }

  function UrlTypeMatcher(filetype: string): DownloadRecord -> bool {
    d => UrlTypeIs(d, filetype)
  }

  function FallbackMatcher(): DownloadRecord -> bool {
    d => HasFallbackLabel(d)
  }

  /** The download URL for `filetype`: exact label first, then URL-derived filetype, then a
      fallback label; the first stage that matches decides, and "n/a" when none does. */
  function GetUrl(item: Item, filetype: string): (r: string)
    ensures r != NA ==> !Contains(r, Placeholder)
    ensures r != NA ==> exists k :: 0 <= k < |item.downloadStruct| && item.downloadStruct[k].web == r
    ensures (forall k :: 0 <= k < |item.downloadStruct| ==>
              var d := item.downloadStruct[k];
              !LabelIs(d, filetype) && !UrlTypeIs(d, filetype) && !HasFallbackLabel(d)) ==> r == NA
  {
    var ds := item.downloadStruct;
    match FirstIndex(ds, LabelMatcher(filetype))
    case Some(k) => UsableUrl(ds[k].web)
    case None =>
      match FirstIndex(ds, UrlTypeMatcher(filetype))
      case Some(k) => UsableUrl(ds[k].web)
      case None =>
        match FirstIndex(ds, FallbackMatcher())
        case Some(k) => UsableUrl(ds[k].web)
        case None => NA
  }

  /** Stage 1 wins: the first record whose label matches decides, even when its URL is a
      placeholder and a later stage would have found a usable one. */
  lemma GetUrlLabelStage(item: Item, filetype: string, k: nat)
    requires k < |item.downloadStruct| && LabelIs(item.downloadStruct[k], filetype)
    requires forall j :: 0 <= j < k ==> !LabelIs(item.downloadStruct[j], filetype)
    ensures GetUrl(item, filetype) == UsableUrl(item.downloadStruct[k].web)
  {
    var ds := item.downloadStruct;
    assert LabelMatcher(filetype)(ds[k]);
    assert forall j :: 0 <= j < k ==> !LabelMatcher(filetype)(ds[j]);
    var f := FirstIndex(ds, LabelMatcher(filetype));
    assert f.Some? && f.value == k;
  }

  /** Stage 2: with no label match, the first record whose URL-derived filetype matches. */
  lemma GetUrlUrlTypeStage(item: Item, filetype: string, k: nat)
    requires forall j :: 0 <= j < |item.downloadStruct| ==> !LabelIs(item.downloadStruct[j], filetype)
    requires k < |item.downloadStruct| && UrlTypeIs(item.downloadStruct[k], filetype)
    requires forall j :: 0 <= j < k ==> !UrlTypeIs(item.downloadStruct[j], filetype)
    ensures GetUrl(item, filetype) == UsableUrl(item.downloadStruct[k].web)
  {
    var ds := item.downloadStruct;
    assert forall j :: 0 <= j < |ds| ==> !LabelMatcher(filetype)(ds[j]);
    assert FirstIndex(ds, LabelMatcher(filetype)).None?;
    var f := FirstIndex(ds, UrlTypeMatcher(filetype));
    assert UrlTypeMatcher(filetype)(ds[k]);
    assert f.Some? && f.value == k;
  }

  /** Stage 3: with neither, the first record carrying a fallback label. */
  lemma GetUrlFallbackStage(item: Item, filetype: string, k: nat)
    requires forall j :: 0 <= j < |item.downloadStruct| ==>
      !LabelIs(item.downloadStruct[j], filetype) && !UrlTypeIs(item.downloadStruct[j], filetype)
    requires k < |item.downloadStruct| && HasFallbackLabel(item.downloadStruct[k])
    requires forall j :: 0 <= j < k ==> !HasFallbackLabel(item.downloadStruct[j])
    ensures GetUrl(item, filetype) == UsableUrl(item.downloadStruct[k].web)
  {
    var ds := item.downloadStruct;
    assert forall j :: 0 <= j < |ds| ==> !LabelMatcher(filetype)(ds[j]);
    assert forall j :: 0 <= j < |ds| ==> !UrlTypeMatcher(filetype)(ds[j]);
    assert FirstIndex(ds, LabelMatcher(filetype)).None?;
    assert FirstIndex(ds, UrlTypeMatcher(filetype)).None?;
    var f := FirstIndex(ds, FallbackMatcher());
    assert FallbackMatcher()(ds[k]);
    assert f.Some? && f.value == k;
  }

  /** A placeholder URL under the matching label gives "n/a" although a usable fallback URL
      follows it. */
  lemma PlaceholderStopsUrlChain()
    ensures var item := Item("Book", "book", "ebook", [
        DownloadRecord("PDF", "https://host/FILE_NAME", "1 MB", "h1", None),
        DownloadRecord("Download", "https://host/book.zip", "1 MB", "h2", None)]);
      GetUrl(item, "pdf") == NA
  {
    var item := Item("Book", "book", "ebook", [
        DownloadRecord("PDF", "https://host/FILE_NAME", "1 MB", "h1", None),
        DownloadRecord("Download", "https://host/book.zip", "1 MB", "h2", None)]);
    assert Lower("PDF") == Lower("pdf") == "pdf";
    ContainsAt("https://host/FILE_NAME", Placeholder, 13);
    GetUrlLabelStage(item, "pdf", 0);
  }

  // ----- `_get_hash` -----

  datatype HashAlg = Md5 | Sha1

  /** The value that `{d['name'].lower(): d for d in ds}` holds under `key`: later records
      overwrite earlier ones, so it is the LAST record with that label. */
  function LabelEntry(ds: seq<DownloadRecord>, key: string): (r: Option<DownloadRecord>)
    ensures r.None? <==> forall k :: 0 <= k < |ds| ==> Lower(ds[k].name) != key
    ensures r.Some? ==> exists k :: (0 <= k < |ds| && ds[k] == r.value && Lower(ds[k].name) == key &&
                                     forall j :: k < j < |ds| ==> Lower(ds[j].name) != key)
    decreases |ds|
  {
    if ds == [] then None
    else if Lower(ds[|ds| - 1].name) == key then Some(ds[|ds| - 1])
    else LabelEntry(ds[..|ds| - 1], key)
  }

  /** `record.get(hash_type, 'n/a')`: md5 is always present, sha1 may be missing. */
  function HashOf(d: DownloadRecord, alg: HashAlg): string {
    match alg
    case Md5 => d.md5
    case Sha1 => d.sha1.GetOr(NA)
  }

  /** One iteration order of the fallback-label set. Python does not fix the order in which a
      set of strings is iterated, so it is a parameter. */
  predicate IsFallbackOrder(order: seq<string>) {
    (forall w :: w in order ==> w in FallbackLabels) && (forall w :: w in FallbackLabels ==> w in order)
  }

  /** The expected digest for `filetype`: exact label first, then the first fallback label (in
      set-iteration order) present, then the first entry of the label dictionary. */
  function GetHash(item: Item, filetype: string, alg: HashAlg, order: seq<string>): (r: string)
    requires IsFallbackOrder(order)
    ensures item.downloadStruct == [] ==> r == NA
    ensures r == NA || exists k :: 0 <= k < |item.downloadStruct| && r == HashOf(item.downloadStruct[k], alg)
    ensures alg == Md5 && item.downloadStruct != [] ==>
      exists k :: 0 <= k < |item.downloadStruct| && r == item.downloadStruct[k].md5
  {
    var ds := item.downloadStruct;
    match LabelEntry(ds, Lower(filetype))
    case Some(d) => HashOf(d, alg)
    case None =>
      match FirstIndex(order, w => LabelEntry(ds, w).Some?)
      case Some(i) => HashOf(LabelEntry(ds, order[i]).value, alg)
      case None => if ds == [] then NA else HashOf(LabelEntry(ds, Lower(ds[0].name)).value, alg)
  }

  /** An exact label match wins, takes the last record with that label, and does not depend
      on the set-iteration order. */
  lemma GetHashExactLabel(item: Item, filetype: string, alg: HashAlg, order: seq<string>, k: nat)
    requires IsFallbackOrder(order)
    requires k < |item.downloadStruct| && LabelIs(item.downloadStruct[k], filetype)
    requires forall j :: k < j < |item.downloadStruct| ==> !LabelIs(item.downloadStruct[j], filetype)
    ensures GetHash(item, filetype, alg, order) == HashOf(item.downloadStruct[k], alg)
  {
    var ds := item.downloadStruct;
    var e := LabelEntry(ds, Lower(filetype));
    var k' :| 0 <= k' < |ds| && ds[k'] == e.value && Lower(ds[k'].name) == Lower(filetype) &&
      forall j :: k' < j < |ds| ==> Lower(ds[j].name) != Lower(filetype);
    assert k' == k;
  }

  /** With no exact label, a record with a fallback label wins over the first entry: the
      result is the hash of the last record carrying some fallback label present. */
  lemma {:induction false} GetHashFallbackLabel(item: Item, filetype: string, alg: HashAlg, order: seq<string>, k: nat)
    requires IsFallbackOrder(order)
    requires forall j :: 0 <= j < |item.downloadStruct| ==> !LabelIs(item.downloadStruct[j], filetype)
    requires k < |item.downloadStruct| && HasFallbackLabel(item.downloadStruct[k])
    ensures exists w :: (w in FallbackLabels && LabelEntry(item.downloadStruct, w).Some? &&
                         GetHash(item, filetype, alg, order) == HashOf(LabelEntry(item.downloadStruct, w).value, alg))
  {
    var ds := item.downloadStruct;
    var w := Lower(ds[k].name);
    assert w in order;
    var i :| 0 <= i < |order| && order[i] == w;
    assert LabelEntry(ds, order[i]).Some?;
    var p := (v: string) => LabelEntry(ds, v).Some?;
    var f := FirstIndex(order, p);
    assert f.Some?;
    assert order[f.value] in FallbackLabels;
  }

  /** When only one fallback label is present, the set-iteration order does not matter. */
  lemma GetHashOneFallbackLabel(item: Item, filetype: string, alg: HashAlg, order1: seq<string>, order2: seq<string>, w: string)
    requires IsFallbackOrder(order1) && IsFallbackOrder(order2)
    requires forall j :: 0 <= j < |item.downloadStruct| ==> !LabelIs(item.downloadStruct[j], filetype)
    requires w in FallbackLabels && LabelEntry(item.downloadStruct, w).Some?
    requires forall v :: v in FallbackLabels && v != w ==> LabelEntry(item.downloadStruct, v).None?
    ensures GetHash(item, filetype, alg, order1) == GetHash(item, filetype, alg, order2)
  {
    var ds := item.downloadStruct;
    var p := (v: string) => LabelEntry(ds, v).Some?;
    var f1 := FirstIndex(order1, p);
    var f2 := FirstIndex(order2, p);
    assert w in order1 && w in order2;
    var i1 :| 0 <= i1 < |order1| && order1[i1] == w;
    var i2 :| 0 <= i2 < |order2| && order2[i2] == w;
    assert p(order1[i1]) && p(order2[i2]);
    assert order1[f1.value] in FallbackLabels && order2[f2.value] in FallbackLabels;
    assert order1[f1.value] == w && order2[f2.value] == w;
    assert LabelEntry(ds, Lower(filetype)).None?;
  }

  /** With neither an exact nor a fallback label, the first dictionary entry is used: the
      last record that shares the first record's label. */
  lemma GetHashFirstEntry(item: Item, filetype: string, alg: HashAlg, order: seq<string>)
    requires IsFallbackOrder(order)
    requires item.downloadStruct != []
    requires forall j :: 0 <= j < |item.downloadStruct| ==>
      !LabelIs(item.downloadStruct[j], filetype) && !HasFallbackLabel(item.downloadStruct[j])
    ensures GetHash(item, filetype, alg, order) ==
      HashOf(LabelEntry(item.downloadStruct, Lower(item.downloadStruct[0].name)).value, alg)
  {
    var ds := item.downloadStruct;
    var p := (v: string) => LabelEntry(ds, v).Some?;
    forall i | 0 <= i < |order| ensures !p(order[i]) {
      assert order[i] in FallbackLabels;
    }
  }

  /** A requested sha1 that the selected record does not carry reads as "n/a". */
  lemma GetHashMissingSha1(item: Item, filetype: string, order: seq<string>, k: nat)
    requires IsFallbackOrder(order)
    requires k < |item.downloadStruct| && LabelIs(item.downloadStruct[k], filetype)
    requires forall j :: k < j < |item.downloadStruct| ==> !LabelIs(item.downloadStruct[j], filetype)
    requires item.downloadStruct[k].sha1.None?
    ensures GetHash(item, filetype, Sha1, order) == NA
  {
    GetHashExactLabel(item, filetype, Sha1, order, k);
  }

  /** Two records under one label: the URL comes from the first, the expected digest from the
      last, so the two chains can disagree about which asset they describe. */
  lemma UrlAndHashCanComeFromDifferentRecords(order: seq<string>)
    requires IsFallbackOrder(order)
    ensures var item := Item("Book", "book", "ebook", [
        DownloadRecord("PDF", "https://host/a.pdf", "1 MB", "h1", None),
        DownloadRecord("PDF", "https://host/b.pdf", "2 MB", "h2", None)]);
      GetUrl(item, "pdf") == "https://host/a.pdf" && GetHash(item, "pdf", Md5, order) == "h2"
  {
    var item := Item("Book", "book", "ebook", [
        DownloadRecord("PDF", "https://host/a.pdf", "1 MB", "h1", None),
        DownloadRecord("PDF", "https://host/b.pdf", "2 MB", "h2", None)]);
    assert Lower("PDF") == Lower("pdf") == "pdf";
    NotContainsWithoutChar("https://host/a.pdf", Placeholder, '_');
    GetUrlLabelStage(item, "pdf", 0);
    GetHashExactLabel(item, "pdf", Md5, order, 1);
  }
}
