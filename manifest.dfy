/** The order manifest: the raw per-bundle JSON as the storefront returns it, the normalised
    bundle records `_parse_json` builds from it, and the lookup `_get_item_object`.

    A raw JSON key that may be absent is an `Option`; `None` is a missing key, which the
    Python code meets as a `KeyError`. */
module Manifest {
  import opened Wrappers
  import opened Strings
  import opened Search

  // ----- raw JSON, as read from the order endpoint or the offline cache -----

  /** One entry of `downloads[0].download_struct`; `web` stands for `url.web`. */
  datatype RawRecord = RawRecord(
    name: Option<string>, web: Option<string>, humanSize: Option<string>,
    md5: Option<string>, sha1: Option<string>)

  /** One entry of a sub-product's `downloads`. */
  datatype RawDownload = RawDownload(platform: Option<string>, downloadStruct: Option<seq<RawRecord>>)

  /** One sub-product of an order. */
  datatype RawItem = RawItem(humanName: Option<string>, machineName: Option<string>, downloads: Option<seq<RawDownload>>)

  /** One order; `machineName` and `humanName` stand for `product.machine_name` and
      `product.human_name`. */
  datatype RawBundle = RawBundle(machineName: Option<string>, humanName: Option<string>, subproducts: Option<seq<RawItem>>)

  // ----- normalised records -----

  /** A download record; `sha1` is None exactly when the source record had no `sha1` key. */
  datatype DownloadRecord = DownloadRecord(name: string, web: string, humanSize: string, md5: string, sha1: Option<string>)

  datatype Item = Item(humanName: string, machineName: string, platform: string, downloadStruct: seq<DownloadRecord>)

  datatype Bundle = Bundle(bundle: string, name: string, nbrSubproductsOrg: nat, items: seq<Item>, nbrSubproducts: nat)

  /** `_parse_json` lets a `KeyError` on an order's own keys escape; `index` is that order. */
  datatype ParseError = MissingBundleKey(index: nat)

  // ----- normalisation of one download record -----

  function ConvertRecord(d: RawRecord): Option<DownloadRecord> {
    if d.name.Some? && d.web.Some? && d.humanSize.Some? && d.md5.Some? then
      Some(DownloadRecord(d.name.value, d.web.value, d.humanSize.value, d.md5.value, d.sha1))
    else None
  }

  /** No record of the list raises a `KeyError`. */
  predicate RecordsComplete(ds: seq<RawRecord>) {
    forall k :: 0 <= k < |ds| ==> ConvertRecord(ds[k]).Some?
  }

  function ConvertRecords(ds: seq<RawRecord>): seq<DownloadRecord>
    requires RecordsComplete(ds)
  {
    seq(|ds|, k requires 0 <= k < |ds| => ConvertRecord(ds[k]).value)
  }

  // ----- normalisation of one sub-product -----

  /** What `_parse_json` appends to `raw_platforms` for this sub-product: the platform of its
      first download, once the item has a non-empty `downloads` whose first entry has one. */
  function LoggedPlatform(ri: RawItem): seq<string> {
    if ri.downloads.None? || ri.downloads.value == [] || ri.downloads.value[0].platform.None? then []
    else [ri.downloads.value[0].platform.value]
  }

  /** The download list of the first download entry; an absent `download_struct` reads as []. */
  function FirstStruct(ri: RawItem): seq<RawRecord>
    requires ri.downloads.Some? && ri.downloads.value != []
  {
    ri.downloads.value[0].downloadStruct.GetOr([])
  }

  /** The item `_parse_json` keeps for a sub-product, or None when it is skipped. */
  function ConvertItem(ri: RawItem): (r: Option<Item>)
    ensures r.Some? <==> LoggedPlatform(ri) != [] && ri.humanName.Some? && ri.machineName.Some? &&
                         RecordsComplete(FirstStruct(ri))
    ensures r.Some? ==> LoggedPlatform(ri) == [r.value.platform]
    ensures r.Some? ==> r.value.humanName == ri.humanName.value && r.value.machineName == ri.machineName.value
    ensures r.Some? ==>
      var ds := FirstStruct(ri);
      |r.value.downloadStruct| == |ds| &&
      forall k :: 0 <= k < |ds| ==> ConvertRecord(ds[k]) == Some(r.value.downloadStruct[k])
  {
    if LoggedPlatform(ri) == [] || ri.humanName.None? || ri.machineName.None? then None
    else
      var ds := FirstStruct(ri);
      if RecordsComplete(ds) then
        Some(Item(ri.humanName.value, ri.machineName.value, ri.downloads.value[0].platform.value, ConvertRecords(ds)))
      else None
  }

  /** `bundle_data['items']` for a list of sub-products, in order. */
  function ConvertItems(ris: seq<RawItem>): (r: seq<Item>)
    ensures |r| <= |ris|
  {
    if ris == [] then []
    else
      var last := ris[|ris| - 1];
      ConvertItems(ris[..|ris| - 1]) + (if ConvertItem(last).Some? then [ConvertItem(last).value] else [])
  }

  /** The kept items of two runs of sub-products, one after the other, are those of the first
      run followed by those of the second: the conversion is an order-preserving filter, so
      the first item `_get_item_object` finds is that of the earliest matching sub-product. */
  lemma {:induction false} ConvertItemsAppend(a: seq<RawItem>, b: seq<RawItem>)
    ensures ConvertItems(a + b) == ConvertItems(a) + ConvertItems(b)
    decreases |b|
  {
    if b == [] {
      assert a + b == a;
    } else {
      var n := |b|;
      assert (a + b)[..|a + b| - 1] == a + b[..n - 1];
      ConvertItemsAppend(a, b[..n - 1]);
    }
  }

  /** A single sub-product contributes its item when it converts, and nothing otherwise. */
  lemma ConvertItemsOne(ri: RawItem)
    ensures ConvertItems([ri]) == if ConvertItem(ri).Some? then [ConvertItem(ri).value] else []
  {
    assert [ri][..0] == [];
  }

  /** Everything `_parse_json` appends to `raw_platforms` for a list of sub-products. */
  function ItemsPlatforms(ris: seq<RawItem>): seq<string> {
    if ris == [] then [] else ItemsPlatforms(ris[..|ris| - 1]) + LoggedPlatform(ris[|ris| - 1])
  }

  // ----- normalisation of orders -----

  /** The order's own keys are present, so building its record raises nothing. */
  predicate HeaderOk(rb: RawBundle) {
    rb.machineName.Some? && rb.humanName.Some? && rb.subproducts.Some?
  }

  function BuildBundle(rb: RawBundle): (r: Bundle)
    requires HeaderOk(rb)
    ensures r.bundle == rb.machineName.value && r.name == rb.humanName.value
    ensures r.nbrSubproductsOrg == |rb.subproducts.value|
    ensures r.nbrSubproducts == |r.items| <= r.nbrSubproductsOrg
  {
    var items := ConvertItems(rb.subproducts.value);
    Bundle(rb.machineName.value, rb.humanName.value, |rb.subproducts.value|, items, |items|)
  }

  predicate AllHeadersOk(raws: seq<RawBundle>) {
    forall i :: 0 <= i < |raws| ==> HeaderOk(raws[i])
  }

  /** The list `_parse_json` returns: one record per order, in order. */
  function BuildBundles(raws: seq<RawBundle>): (r: seq<Bundle>)
    requires AllHeadersOk(raws)
    ensures |r| == |raws|
    ensures forall i :: 0 <= i < |raws| ==> r[i] == BuildBundle(raws[i])
  {
    if raws == [] then [] else BuildBundles(raws[..|raws| - 1]) + [BuildBundle(raws[|raws| - 1])]
  }

  /** Everything `_parse_json` appends to `raw_platforms` for a list of orders. */
  function BundlesPlatforms(raws: seq<RawBundle>): seq<string>
    requires AllHeadersOk(raws)
  {
    if raws == [] then []
    else BundlesPlatforms(raws[..|raws| - 1]) + ItemsPlatforms(raws[|raws| - 1].subproducts.value)
  }

  /** The number of leading orders whose own keys are all present. */
  function GoodPrefix(raws: seq<RawBundle>): (n: nat)
    ensures n <= |raws| && AllHeadersOk(raws[..n])
    ensures n < |raws| ==> !HeaderOk(raws[n])
  {
    if raws == [] || !HeaderOk(raws[0]) then 0
    else
      var n := 1 + GoodPrefix(raws[1..]);
      assert raws[..n] == [raws[0]] + raws[1..][..n - 1];
      n
  }

  /** The orders before `i` all have their keys and order `i` (if any) lacks one: then `i` is
      where `_parse_json` stops. */
  lemma GoodPrefixAt(raws: seq<RawBundle>, i: nat)
    requires i <= |raws| && AllHeadersOk(raws[..i])
    requires i < |raws| ==> !HeaderOk(raws[i])
    ensures GoodPrefix(raws) == i
  {
    var n := GoodPrefix(raws);
    assert forall k :: 0 <= k < i ==> raws[..i][k] == raws[k];
    assert forall k :: 0 <= k < n ==> raws[..n][k] == raws[k];
  }

  // ----- properties of the normaliser -----

  /** Every kept item is the conversion of one of the sub-products. */
  lemma {:induction false} KeptItemsComeFromInput(ris: seq<RawItem>, k: nat)
    requires k < |ConvertItems(ris)|
    ensures exists j :: 0 <= j < |ris| && ConvertItem(ris[j]) == Some(ConvertItems(ris)[k])
  {
    var n := |ris|;
    var front := ConvertItems(ris[..n - 1]);
    if k < |front| {
      KeptItemsComeFromInput(ris[..n - 1], k);
      var j :| 0 <= j < n - 1 && ConvertItem(ris[..n - 1][j]) == Some(front[k]);
      assert ris[j] == ris[..n - 1][j];
    } else {
      assert ConvertItem(ris[n - 1]) == Some(ConvertItems(ris)[k]);
    }
  }

  /** No convertible sub-product is dropped: with KeptItemsComeFromInput, the kept items are
      exactly the conversions of the sub-products that have a non-empty `downloads`, a platform,
      both names and complete download records. */
  lemma {:induction false} ConvertibleItemsAreKept(ris: seq<RawItem>, j: nat)
    requires j < |ris| && ConvertItem(ris[j]).Some?
    ensures ConvertItem(ris[j]).value in ConvertItems(ris)
  {
    var n := |ris|;
    if j < n - 1 {
      ConvertibleItemsAreKept(ris[..n - 1], j);
      assert ris[..n - 1][j] == ris[j];
    }
  }

  /** A kept item's platform has been logged; so every platform the items carry is among the
      platforms that drive the per-platform loop. */
  lemma {:induction false} KeptPlatformsAreLogged(ris: seq<RawItem>)
    ensures |ConvertItems(ris)| <= |ItemsPlatforms(ris)|
    ensures forall it :: it in ConvertItems(ris) ==> it.platform in ItemsPlatforms(ris)
  {
    if ris != [] {
      KeptPlatformsAreLogged(ris[..|ris| - 1]);
    }
  }

  /** A sub-product can be skipped after its platform was logged: the platform is appended
      before the item's own keys are read. */
  lemma SkippedItemCanLogPlatform()
    ensures exists ri :: LoggedPlatform(ri) != [] && ConvertItem(ri).None?
  {
    var ri := RawItem(Some("Book"), None, Some([RawDownload(Some("ebook"), Some([]))]));
    assert LoggedPlatform(ri) == ["ebook"];
  }

  /** An item whose first download entry lacks `download_struct` is kept, with no records. */
  lemma MissingStructKeepsItem(h: string, m: string, p: string)
    ensures ConvertItem(RawItem(Some(h), Some(m), Some([RawDownload(Some(p), None)]))) == Some(Item(h, m, p, []))
  {
  }

  // ----- `_get_item_object` -----

  /** The items of all orders, in the order the nested loops visit them. */
  function AllItems(data: seq<Bundle>): seq<Item> {
    if data == [] then [] else data[0].items + AllItems(data[1..])
  }

  predicate NameMatches(it: Item, machineName: string) {
    Lower(it.machineName) == Lower(machineName)
  }

  /** The first item whose machine name equals `machineName` case-insensitively. */
  function GetItemObject(data: seq<Bundle>, machineName: string): (r: Option<Item>)
    ensures r.None? <==> forall it :: it in AllItems(data) ==> !NameMatches(it, machineName)
    ensures r.Some? ==> NameMatches(r.value, machineName)
    ensures r.Some? ==>
      exists k :: (0 <= k < |AllItems(data)| && AllItems(data)[k] == r.value &&
                   forall j :: 0 <= j < k ==> !NameMatches(AllItems(data)[j], machineName))
  {
    var items := AllItems(data);
    match FirstIndex(items, it => NameMatches(it, machineName))
    case None => None
    case Some(k) => Some(items[k])
  }
}
