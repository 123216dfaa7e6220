# HumbleBundleDownloader: reconciliation and repair core in Dafny

This project models the core of `humble_download.py`, a tool that keeps a local library in
sync with the orders of a storefront account. The core has six parts:

- It normalises the per-order JSON into bundle records (`_parse_json`).
- It finds items by machine name (`_get_item_object`).
- It resolves a download URL and an expected digest for a filetype (`_get_url`, `_get_hash`,
  `_get_filetype_from_url`).
- It decides whether a file passes the filetype filter (`_get_allowed_filetypes`,
  `_check_file_against_filter`).
- It verifies checksums (`_verify_checksum`, `_checksum_file`).
- It drives the per-platform reconciliation:
  - match the catalog against the local listing;
  - MD5-check the existing files;
  - build the sorted work lists;
  - run up to three passes of download, check and move, removing each processed name
    (`_handle_platform`, `_loop_through_missing_files`, `_download`, `_move_file`, `run`).

Modules, one per file, leaf first:

| module | file | models |
|---|---|---|
| Wrappers | wrappers.dfy | `Option` and `Result` |
| Strings | strings.dfy | ASCII `str.lower`, `in`, `rfind` slicing, `split('?')[0]`, Python's string order |
| Paths | paths.dfy | POSIX `os.path.join` and the placement rule of `_move_file` |
| Search | search.dfy | first-match scans and the append-per-element loops |
| Manifest | manifest.dfy | the raw JSON shapes, the normaliser, `_get_item_object` |
| Resolve | resolve.dfy | `_get_filetype_from_url`, `_get_url`, `_get_hash` |
| Checksum | checksum.dfy | `_verify_checksum`, `_checksum_file` |
| Filter | filter.dfy | `_get_allowed_filetypes`, `_check_file_against_filter` |
| Worklist | worklist.dfy | `_get_sorted_uniques` and the `list.remove` loop |
| Matcher | matcher.dfy | the matching loop of `_handle_platform`, as a fold over candidates |
| Downloader | downloader.dfy | the class `HumbleBundleDownloader` with its mutable state |

The class holds the settings as constants and the tracking state as fields:

- the settings: allowed filetypes, the two checksum switches, the download and temporary
  directories;
- the tracking state: `data`, `raw_platforms` and the MD5 match and no-match lists.

The outside world is reduced to four things:

- **File system:** a field `fs` maps a path to its content.
- **Hash function:** a constant `digest` stands in for `hashlib`.
- **Network:** a constant `net` answers the n-th request for a URL with the whole body or
  with the part that arrived before a failure. The field `fetches` counts the requests.
- **Fallback-label order:** Python does not fix the iteration order of the fallback-label set
  in `_get_hash`. The model takes that order as a constant `fallbackOrder`, which must be a
  permutation of the set.

The loops of the source are methods with loop invariants. Each method is proved against a
specification function: `Scan` for the matching loop, `RemoveEach` for the removal loop,
`SortedUniques` for `sorted(list(set(xs)))`, `BuildBundles` and `ItemsPlatforms` for the
parser, `Attempt` and `TryResult` for one file, `Pass` and `Loop` for the repair loop,
`PlatformEffect` for a platform and `RunEffect` for the platform loop of `run`.

Behaviours of the code a reader might not expect, which the model keeps as they are:

- **URL and hash can describe different records.** The URL comes from the first record whose
  label matches. The hash comes from the last one, because a dictionary comprehension keeps
  the last value per key.
- **The hash fallback is not the first record.** It takes the first dictionary entry, which is
  the last record sharing the first record's label.
- **Platforms are logged early.** A sub-product's platform is logged before the keys that may
  still make it be skipped.
- **Missing order keys end the parse.** An order that lacks its own keys raises out of
  `_parse_json`.
- **MD5 failures accumulate.** The MD5 no-match list is never cleared, so a failure on one
  platform is retried again by every later platform.
- **Only the first record is retried.** A failed MD5 check is retried under the filetype of the
  item's first record, not of the record that failed.
- **A failed download leaves a partial file.** The temporary file is opened before the request
  is made.
- **Two work lists.** Missing files and failed MD5 checks are separate lists, each with its
  own retry loop, not one merged list.

## Model

| member | source | states |
|---|---|---|
| Strings.Lower | humble_download.py:284 | `str.lower` on ASCII: same length, each capital becomes its small letter (code point plus 32), every other character is unchanged |
| Strings.AfterLast | humble_download.py:339 | `s[s.rfind(c) + 1:]`: has no `c`, is a suffix of `s`, and is preceded by `c` whenever it is shorter than `s` |
| Strings.SplitLastDot | humble_download.py:526-527 | the extension is the text after the last '.'; with a dot, stem + '.' + extension rebuild the name; without one, the extension is the whole name and the stem drops its last character, as Python's `name[:-1]` does |
| Strings.SplitJoinRoundTrip | humble_download.py:526-527 | splitting `m + "." + ext` back at its last dot gives `(m, ext)` when `ext` has no dot |
| Strings.LessIrreflexive | humble_download.py:512 | the string order `sorted` uses is irreflexive |
| Strings.LessTransitive | humble_download.py:512 | the string order is transitive |
| Strings.LessTotal | humble_download.py:512 | any two different strings are ordered one way or the other |
| Strings.LessAsymmetric | humble_download.py:512 | no two strings are ordered both ways |
| Paths.Join | humble_download.py:469-476 | `os.path.join`: an absolute second part replaces the first; otherwise the result is at least as long as both parts, and after a non-empty first part at most one '/' is added, right before the second part |
| Paths.EbookDestinationShape | humble_download.py:465-476 | an ebook is placed at `<root>/ebook/<ft>/<machine>.<ft>` with the filetype lower-cased |
| Paths.PlatformDestinationShape | humble_download.py:465-476 | other platforms place at `<root>/<platform>/<machine>.<ft>`, both lower-cased |
| Search.FirstIndex | humble_download.py:291-293 | a first-match scan: the index of the first element satisfying the test, None exactly when no element does |
| Search.FlatMapCovers | humble_download.py:614-618 | everything a listed element contributes appears in the accumulated list |
| Manifest.ConvertItem | humble_download.py:202-235 | a sub-product is kept exactly when it has a platform, both names and a first `download_struct` whose records all carry name, url, size and md5; the kept item has the logged platform, the sub-product's names and one record per raw record, each a copy of its four fields with `sha1` only where present |
| Manifest.ConvertItems | humble_download.py:202-232 | no more items are kept than sub-products are listed |
| Manifest.ConvertItemsAppend | humble_download.py:202-232 | the items kept from two runs of sub-products are those of the first run followed by those of the second, so conversion is an order-preserving filter and `_get_item_object` meets the earliest matching sub-product first |
| Manifest.ConvertItemsOne | humble_download.py:202-232 | a single sub-product contributes its item when it converts and nothing otherwise |
| Manifest.BuildBundle | humble_download.py:193-238 | the bundle record carries the order's names, the listed count, and a kept count that equals the items kept and never exceeds the listed count |
| Manifest.BuildBundles | humble_download.py:190-240 | one record per order, in order |
| Manifest.GoodPrefix | humble_download.py:193-196 | the index of the first order lacking its own keys, i.e. where `_parse_json` raises |
| Manifest.GoodPrefixAt | humble_download.py:193-196 | the stopping index is unique |
| Manifest.KeptItemsComeFromInput | humble_download.py:202-235 | every kept item is the conversion of some sub-product |
| Manifest.ConvertibleItemsAreKept | humble_download.py:202-235 | every convertible sub-product is kept |
| Manifest.KeptPlatformsAreLogged | humble_download.py:207-208 | every kept item's platform is among the logged platforms, so every item's platform gets handled |
| Manifest.SkippedItemCanLogPlatform | humble_download.py:207-212 | example, on one concrete input: some sub-product is skipped after its platform was logged |
| Manifest.MissingStructKeepsItem | humble_download.py:217 | a first download without `download_struct` keeps the item, with no records |
| Manifest.GetItemObject | humble_download.py:280-286 | the first item, in visiting order, whose machine name matches case-insensitively; None exactly when none matches |
| Resolve.FiletypeFromUrl | humble_download.py:334-339 | empty for a placeholder URL; otherwise lower-case, without '.' or '?' |
| Resolve.FiletypeOfUrl | humble_download.py:338-339 | for `stem.ext?query` the filetype is `ext` lower-cased |
| Resolve.FiletypeOfDotlessUrl | humble_download.py:339 | a path part without a dot yields the whole part, lower-cased |
| Resolve.FiletypeOfPlaceholderExample | humble_download.py:336-337 | example, on one concrete input: a URL containing `FILE_NAME` yields the empty filetype |
| Resolve.GetUrl | humble_download.py:288-310 | a non-"n/a" result is the URL of some record and never a placeholder; "n/a" when no record matches any of the three stages |
| Resolve.GetUrlLabelStage | humble_download.py:290-293 | the first record with the exact label decides, even if its URL is a placeholder |
| Resolve.GetUrlUrlTypeStage | humble_download.py:295-300 | with no label match, the first record whose URL-derived filetype matches decides |
| Resolve.GetUrlFallbackStage | humble_download.py:302-306 | with neither, the first record with a fallback label decides |
| Resolve.PlaceholderStopsUrlChain | humble_download.py:291-293 | a placeholder under the matching label gives "n/a" although a usable fallback follows |
| Resolve.LabelEntry | humble_download.py:314 | the dictionary value under a label is the last record with that label; None exactly when no record has it |
| Resolve.GetHash | humble_download.py:312-332 | "n/a" for an item without records; otherwise "n/a" or some record's digest, and for MD5 always some record's digest |
| Resolve.GetHashExactLabel | humble_download.py:316-318 | an exact label wins, takes the last record with that label, and does not depend on the set order |
| Resolve.GetHashFallbackLabel | humble_download.py:320-324 | with no exact label but some fallback label, the result is the hash of the last record of a present fallback label |
| Resolve.GetHashOneFallbackLabel | humble_download.py:321-324 | with one fallback label present, the result is the same for every set-iteration order |
| Resolve.GetHashFirstEntry | humble_download.py:326-330 | otherwise the first dictionary entry is used: the last record sharing the first record's label |
| Resolve.GetHashMissingSha1 | humble_download.py:318 | a SHA1 the selected record lacks reads as "n/a" |
| Resolve.UrlAndHashCanComeFromDifferentRecords | humble_download.py:288-332 | example, on one concrete input: with two records under one label, the URL comes from the first and the digest from the last |
| Checksum.VerifyChecksum | humble_download.py:256-278 | "n/a" passes with "skipped" and reads nothing; an unreadable file is an error naming the path; otherwise the verdict is equality with the file's digest |
| Checksum.SentinelIgnoresFile | humble_download.py:263-264 | the sentinel's result does not depend on the file system |
| Checksum.VerdictIsHashAccepts | humble_download.py:266-275 | a readable file is accepted exactly when the expected digest is "n/a" or equals its digest |
| Checksum.ChecksumFile | humble_download.py:422-457 | true when checks are ignored; false for an unknown item; for a readable file the MD5 verdict OR the SHA1 verdict; for an unreadable file, an error naming it for the first digest that is not "n/a", and acceptance when both are "n/a" |
| Checksum.SentinelAccepts | humble_download.py:440-452 | when either expected digest is "n/a", a found item's file is accepted |
| Checksum.BothSentinelsNeedNoFile | humble_download.py:434-442 | with both digests "n/a", the download is accepted even if the file is gone |
| Checksum.RejectedOnlyWhenBothMismatch | humble_download.py:440-457 | a readable file is rejected exactly when both digests are real and both differ |
| Filter.AllowedFiletypes | humble_download.py:72-89 | never empty; the wildcard alone exactly when no switch is given; only the known types otherwise |
| Filter.AllowedBySwitch | humble_download.py:76-83 | each book type is listed exactly when its switch or `--books` is given; the archive types exactly when `--other` is |
| Filter.FilterExtension | humble_download.py:343 | the extension the filter compares is the text after the last '.', lower-cased; it has no '.' and no upper-case letter |
| Filter.CheckFileAgainstFilter | humble_download.py:341-353 | a name passes exactly when the wildcard is allowed or some allowed type, lower-cased, equals its lower-cased extension |
| Filter.FilterUnderFlags | humble_download.py:341-353 | with the list built from the switches, a name passes exactly when no switch is given or its extension is listed |
| Filter.BuiltNameFilter | humble_download.py:522 | a name `<machine>.<ft>` built by the matcher passes exactly when `ft` is allowed or everything is |
| Worklist.SortedUniques | humble_download.py:508-512 | strictly ascending, and holds exactly the names of the input |
| Worklist.StrictlySortedUnique | humble_download.py:512 | two strictly sorted lists with the same names are equal |
| Worklist.SortedUniquesCanonical | humble_download.py:512 | the result does not depend on the order in which the set is listed |
| Worklist.RemoveFirst | humble_download.py:548 | `list.remove`: one occurrence fewer, everything else kept, one name shorter |
| Worklist.RemoveFirstTakesFirst | humble_download.py:548 | the occurrence removed is the first one, and the names before and after it keep their order |
| Worklist.RemoveFirstDistinct | humble_download.py:548 | in a list without repeats, removing a name is filtering it out |
| Worklist.RemoveEachCounts | humble_download.py:546-548 | the list after the removal loop is the multiset difference of the list and the processed names |
| Worklist.RemoveEachStep | humble_download.py:546-548 | proof step, unfolding the definition once: each processed name removes its first occurrence from what the earlier ones left, if it is still there |
| Worklist.RemoveEachDistinct | humble_download.py:546-548 | in a list without repeats, the names left are exactly those not processed, in their original order |
| Worklist.RemoveEachShrinks | humble_download.py:546-548 | removal never adds a name and never lengthens the list |
| Worklist.RemoveEachSplit | humble_download.py:545-548 | removing the names a pass collected leaves exactly the names it kept |
| Worklist.PassLeavesKept | humble_download.py:520-548 | after a pass, exactly the kept names remain, still drawn from the original list |
| Worklist.RemoveProcessed | humble_download.py:546-548 | the removal loop computes `RemoveEach` |
| Worklist.ListOfSet | humble_download.py:607 | `list(set)`: each element once, nothing else |
| Matcher.RecordCandidates | humble_download.py:566-572 | each candidate of an item carries its machine name and a non-empty filetype without a dot |
| Matcher.RecordCandidatesMembers | humble_download.py:566-572 | a candidate is listed exactly when some record's URL gives a non-empty filetype, and it carries that filetype and the record's MD5 |
| Matcher.RecordCandidatesStep | humble_download.py:566-572 | proof step, unfolding the definition once: the candidates follow the records' order: one more record adds its candidate, if any, at the end |
| Matcher.ItemCandidatesStep | humble_download.py:562-572 | proof step, unfolding the definition once: one more item adds its records' candidates at the end when it is on the platform, and nothing otherwise |
| Matcher.PlatformCandidatesStep | humble_download.py:561-572 | proof step, unfolding the definition once: one more order adds its items' candidates at the end |
| Matcher.ScanStep | humble_download.py:561-596 | proof step, unfolding the definition once: scanning one more candidate applies one matching step to what the earlier candidates left |
| Matcher.ExistingFileOk | humble_download.py:578-594 | a present file passes exactly when its MD5 is "n/a" or it is readable at the checked path with the recorded MD5; an unreadable file fails |
| Matcher.NoMatchesExactly | humble_download.py:574-596 | a name is reported missing exactly when a candidate has it and it is not in the local listing |
| Matcher.MatchesExactly | humble_download.py:574-575 | a machine name is matched exactly when one of its candidate names is local |
| Matcher.Md5ListsFollowMatches | humble_download.py:577-594 | nothing is appended to the MD5 lists without verification; every appended name is a matched one |
| Matcher.Md5PassedExactly | humble_download.py:577-592 | with verification on, a machine name is on the match list exactly when one of its present candidates passes its MD5 check; without verification the list stays empty |
| Matcher.Md5FailedExactly | humble_download.py:577-594 | with verification on, a machine name is on the no-match list exactly when one of its present candidates fails its MD5 check; without verification the list stays empty |
| Matcher.Md5ListsCountPresent | humble_download.py:577-594 | with verification on, the two MD5 lists together are as long as the number of present candidates, so each present candidate adds its machine name once |
| Matcher.MissingNameSplitsBack | humble_download.py:526-527 | every missing name splits back into the machine name and filetype of the candidate that produced it |
| Matcher.SentinelExistingFilePasses | humble_download.py:578-592 | a present file whose record has MD5 "n/a" always passes |
| Downloader.ConvertDownloadStruct | humble_download.py:217-229 | the record loop returns the converted records, or None exactly when some record lacks a key |
| Downloader.RetryNames | humble_download.py:613-618 | a file name is retried exactly when it is the retry name of some failed machine name; at most one per machine name |
| Downloader.RetryName | humble_download.py:613-618 | a failed machine name gives at most one retry name |
| Downloader.RetryNamesAppend | humble_download.py:613-618 | the retry names keep the order of the machine names |
| Downloader.AfterFetch | humble_download.py:392-482 | a placed download ends at its destination and leaves the temporary path; otherwise the body stays in the temporary file |
| Downloader.AfterFetchTouchesTwoPaths | humble_download.py:392-482 | no path other than the temporary file and the destination changes |
| Downloader.RetryNameSplitsBack | humble_download.py:614-618 | a retry name splits back into the machine name and the filetype of the item's first record |
| Downloader.Attempt | humble_download.py:530-539 | one attempt at a machine name and filetype makes at most one request |
| Downloader.AttemptAtMostOneRequest | humble_download.py:381-413 | one request is made exactly when the name resolves; without one nothing changes and nothing is placed |
| Downloader.PlacedMeansAccepted | humble_download.py:532-536 | a placed file was completely downloaded and accepted by the checksum, and its destination holds that body |
| Downloader.IgnoredChecksumPlacesDownload | humble_download.py:424-425 | with downloaded checksums ignored, every complete download is placed |
| Downloader.TryResult | humble_download.py:521-541 | a name the filter rejects is done with at once, with no request and no change; any other costs at most one request |
| Downloader.PassStep | humble_download.py:521-541 | proof step, unfolding the definition once: a pass over one more name tries it on what the shorter pass left, then collects it if the try is done with it and keeps it otherwise |
| Downloader.PassSplits | humble_download.py:520-544 | every name of a pass is collected or kept, as often as it is listed |
| Downloader.PassFiltered | humble_download.py:521-524 | a kept name passes the filter and a name the filter rejects is collected |
| Downloader.PassCost | humble_download.py:520-541 | a pass makes at most one request per name |
| Downloader.PassKeepsOrder | humble_download.py:520-548 | in a list without repeats, the kept names are the names not collected, in list order |
| Downloader.LoopStep | humble_download.py:516-548 | proof step, unfolding the definition once: with retries left and names missing, the loop makes one pass, removes what it collected and goes on with one retry fewer |
| Downloader.LoopAdvance | humble_download.py:516-548 | proof step, unfolding the definition once: one pass stated on the values before and after it leaves the loop's final result unchanged |
| Downloader.LoopNothing | humble_download.py:517-518 | proof step, unfolding the definition once: a loop over an empty list stops at once and changes nothing |
| Downloader.LoopShrinks | humble_download.py:516-548 | the loop only removes names, and once a pass has run every remaining name passes the filter |
| Downloader.LoopCost | humble_download.py:516-548 | a loop over at most `n` names makes at most `n` requests per pass, over at most `max_retries` passes |
| Downloader.BudgetIsProduct | humble_download.py:516 | the request budget of `p` passes over `n` names is `p * n` |
| Downloader.TriesRespectFilter | humble_download.py:521-541 | the pass body is done with every name the filter rejects and makes at most one request |
| Downloader.LoopFiltered | humble_download.py:516-548 | after at least one pass, the names left all pass the filter |
| Downloader.PlatformEffect | humble_download.py:550-622 | a platform only appends to the MD5 lists and only adds requests |
| Downloader.PlatformEffectFrom | humble_download.py:605-620 | proof step, unfolding the definition once: a platform's effect is the scan's additions to the MD5 lists and the file system and request count left by the missing-file loop followed by the retry loop |
| Downloader.RunEffect | humble_download.py:686-687 | the platforms in turn only append to the MD5 lists and only add requests |
| Downloader.RunEffectSnoc | humble_download.py:686-687 | proof step, unfolding the definition once: handling one more platform extends the run by that platform's effect on what the earlier ones left |
| Downloader.EarlierFailuresRetried | humble_download.py:610-620 | a failure recorded on an earlier platform is retried on every later one |
| Downloader.HumbleBundleDownloader.constructor | humble_download.py:49-70 | settings from the switches, empty directories default to the current one, empty tracking lists |
| Downloader.HumbleBundleDownloader.ParseSubproduct | humble_download.py:202-235 | the item kept for a sub-product, with its platform logged before the item can be skipped |
| Downloader.HumbleBundleDownloader.ParseBundle | humble_download.py:193-238 | the order's record as `BuildBundle`, with every sub-product's platform logged in order |
| Downloader.HumbleBundleDownloader.ParseJson | humble_download.py:190-240 | all records when every order has its keys, otherwise the error for the first that does not; the platforms logged are those of the orders before it |
| Downloader.HumbleBundleDownloader.CheckExisting | humble_download.py:578-594 | with verification on, a present file's machine name goes to the match list if it passes and to the no-match list otherwise |
| Downloader.HumbleBundleDownloader.MatchRecord | humble_download.py:566-596 | one record advances the matching state by its candidate, if any |
| Downloader.HumbleBundleDownloader.MatchItem | humble_download.py:562-596 | an item of the platform advances the state by its records; other items change nothing |
| Downloader.HumbleBundleDownloader.MatchBundle | humble_download.py:561-596 | an order advances the state by its items |
| Downloader.HumbleBundleDownloader.MatchPlatform | humble_download.py:561-596 | the matched and missing sets and the MD5 lists are those of `Scan` over all candidates of the platform, appended to the earlier lists |
| Downloader.HumbleBundleDownloader.Download | humble_download.py:381-413 | nothing happens unless the item and URL resolve; then one request is made, its body is written to the temporary file, and only a complete download is reported |
| Downloader.HumbleBundleDownloader.MoveFile | humble_download.py:465-482 | the temporary file is removed and its content appears at the placement path |
| Downloader.HumbleBundleDownloader.FetchAndPlace | humble_download.py:530-539 | download, then check, then move: the new file system, request count and verdict are those of `Attempt` |
| Downloader.HumbleBundleDownloader.TryFile | humble_download.py:521-541 | a name the filter rejects is dropped without a request or change; any other is split at its last dot and attempted, as `TryResult` states |
| Downloader.HumbleBundleDownloader.AttemptPass | humble_download.py:520-544 | the collected names, the kept names and the new state are those of `Pass`: each name tried in turn on what the previous left, collected exactly when it is filtered out or placed; every name is collected or kept, a kept name passes the filter, at most one request per name |
| Downloader.HumbleBundleDownloader.RetryPass | humble_download.py:520-548 | what is left is `RemoveEach` of what the pass collected: the names the pass kept (exactly that list when the list has no repeats), all passing the filter, drawn from the list; the state is the pass's |
| Downloader.HumbleBundleDownloader.LoopThroughMissingFiles | humble_download.py:514-548 | the list left, the file system and the request count are those of `Loop`; at most `max_retries` passes, stopping early only on an empty list; the list only shrinks; after a pass every remaining name passes the filter; at most one request per name per pass |
| Downloader.HumbleBundleDownloader.FailedFilenames | humble_download.py:613-618 | the retry names of the failed machine names, in order |
| Downloader.HumbleBundleDownloader.HandlePlatform | humble_download.py:550-622 | the new MD5 lists, file system and request count are `PlatformEffect`: the scan's additions, then the missing-file loop over the sorted missing names, then the retry loop over the retry names of the whole sorted no-match list |
| Downloader.HumbleBundleDownloader.HandlePlatforms | humble_download.py:686-687 | the MD5 lists, file system and request count after the platform loop are `RunEffect` of the platforms in the order given |
| Downloader.HumbleBundleDownloader.Run | humble_download.py:670-687 | when every order has its keys, the sorted distinct logged platforms are each handled in turn and the tracking state is their `RunEffect`; otherwise the run stops with the parse error and the catalog and tracking state are unchanged; in both cases the logged platforms are those of the orders parsed before the stop |

## Left out

- The HTTP transport, cookie handling, the library-page scrape (`_extract_keys_from_library`), `_api_call` and the progress bar are not modelled. The network is the function `net`.
- `_calculate_hash` is not modelled: the digest is the function `digest`, so no MD5 or SHA1 is computed.
- `_get_existing_files_in_folder` (directory listing, with a recursive walk for ebooks) is not modelled. `Run` takes the listing as a function from platform to file names.
- `_assure_path_exists`, `_setup_paths`' settings file and `_get_settings` are not modelled. The directories come in as constructor arguments, and directories are implicit in the path map.
- The offline cache `data.json` (reading and writing) is not modelled. `Run` starts from the raw orders.
- Console output, colours, statistics printing, `log_error` and `_get_human_size` (used only for a message) are not modelled.
- `dry_run` is not modelled: the model always downloads and moves.
- Windows paths are not modelled: the model follows the POSIX branch of `_setup_paths` and POSIX `os.path.join`.
- Unicode is not modelled: `str.lower` is modelled on ASCII letters only.
- JSON values of the wrong type are not modelled. Only missing keys are (`Option` fields).
- Manifest.ParseError: an order missing its own keys raises an uncaught `KeyError` in the source. The model returns it as a `Failure` that ends the run.
- Downloader.HumbleBundleDownloader.LoopThroughMissingFiles: the source shrinks the caller's list in place. The model returns the shrunk list; callers discard it, as the source's callers ignore the list afterwards.
- Downloader.HumbleBundleDownloader.RetryPass: a list with repeated names is left with the kept names as a multiset; the order of the names left is stated only for lists without repeats, which both work lists of `_handle_platform` are (sorted distinct names, and one retry name per distinct machine name).
- Downloader.HumbleBundleDownloader.HandlePlatform: returns the missing and retry lists as ghost values; the source keeps them in locals.
- Downloader.HumbleBundleDownloader.FetchAndPlace: an `OSError` from `_checksum_file` on an unreadable temporary file would crash the source. The model treats it as not placed; it cannot arise, since the download has just written that file.
- Paths.Join: its ensures states only lengths and the separator position, not the full concatenation. `JoinRelative` gives the concatenation for a relative second part.
- A failed `shutil.move` (placement failure) is not modelled: the move always succeeds.
