/** The checksum decision: `_verify_checksum` compares one expected digest with the digest of
    a file's content, and `_checksum_file` combines the MD5 and SHA1 verdicts of a fresh
    download.

    The file system is a map from path to content, and the digest is a function parameter, so
    no hashing is modelled: a verdict only depends on whether the two strings are equal. */
module Checksum {
  import opened Wrappers
  import opened Strings
  import opened Paths
  import opened Manifest
  import opened Resolve

  type Content = seq<bv8>

  /** The hex digest of some content under an algorithm (`hashlib.md5` / `hashlib.sha1`). */
  type Digester = (HashAlg, Content) -> string

  /** The `checksum_calc` reported when the expected digest is the "n/a" sentinel. */
  const Skipped: string := "skipped"

  /** The dictionary `_verify_checksum` returns. */
  datatype CheckResult = CheckResult(verdict: bool, checksumOrg: string, checksumCalc: string)

  /** The `OSError` raised when the file to be hashed cannot be read. */
  datatype IoError = Unreadable(path: string, alg: HashAlg)

  /** An expected digest accepts a computed one when it is the sentinel or the same string. */
  predicate HashAccepts(expected: string, computed: string) {
    expected == NA || expected == computed
  }

  /** `_verify_checksum(filepath, filename, expected, alg)`: the sentinel passes without reading
      the file; otherwise the file is hashed, an unreadable file is an error, and the verdict is
      string equality. */
  function VerifyChecksum(digest: Digester, fs: map<string, Content>, filepath: string, filename: string,
                          expected: string, alg: HashAlg): (r: Result<CheckResult, IoError>)
    ensures expected == NA ==> r == Success(CheckResult(true, NA, Skipped))
    ensures expected != NA ==> (r.Success? <==> Join(filepath, filename) in fs)
    ensures r.Failure? ==> r.error == Unreadable(Join(filepath, filename), alg)
    ensures r.Success? ==> r.value.checksumOrg == expected
    ensures r.Success? && expected != NA ==> r.value.checksumCalc == digest(alg, fs[Join(filepath, filename)])
    ensures r.Success? ==> (r.value.verdict <==> expected == NA || expected == r.value.checksumCalc)
  {
    var filePath := Join(filepath, filename);
    if expected == NA then Success(CheckResult(true, expected, Skipped))
    else if filePath !in fs then Failure(Unreadable(filePath, alg))
    else
      var calculated := digest(alg, fs[filePath]);
      Success(CheckResult(expected == calculated, expected, calculated))
  }

  /** The sentinel never reads the file: the verdict is the same whatever the file system holds. */
  lemma SentinelIgnoresFile(digest: Digester, fs1: map<string, Content>, fs2: map<string, Content>,
                            filepath: string, filename: string, alg: HashAlg)
    ensures VerifyChecksum(digest, fs1, filepath, filename, NA, alg) ==
            VerifyChecksum(digest, fs2, filepath, filename, NA, alg)
  {
  }

  /** A readable file is accepted exactly when `HashAccepts` holds for its digest. */
  lemma VerdictIsHashAccepts(digest: Digester, fs: map<string, Content>, filepath: string, filename: string,
                             expected: string, alg: HashAlg)
    requires Join(filepath, filename) in fs
    ensures VerifyChecksum(digest, fs, filepath, filename, expected, alg).Success?
    ensures VerifyChecksum(digest, fs, filepath, filename, expected, alg).value.verdict <==>
            HashAccepts(expected, digest(alg, fs[Join(filepath, filename)]))
  {
  }

  /** What `_download` reports about a file it fetched into the temporary directory. */
  datatype FileInfo = FileInfo(path: string, machineName: string, filetype: string, platform: string)

  /** The digests `_checksum_file` expects for a downloaded file, looked up under the file's
      URL-derived filetype. */
  function ExpectedHash(item: Item, info: FileInfo, alg: HashAlg, order: seq<string>): string
    requires IsFallbackOrder(order)
  {
    GetHash(item, Lower(info.filetype), alg, order)
  }

  /** `_checksum_file`: true when checks are switched off, false for an unknown item, and
      otherwise the MD5 verdict OR the SHA1 verdict. A file that cannot be read is an error
      as soon as a real (non-sentinel) digest has to be checked against it, the MD5 first. */
  function ChecksumFile(ignore: bool, data: seq<Bundle>, order: seq<string>, digest: Digester,
                        fs: map<string, Content>, info: FileInfo): (r: Result<bool, IoError>)
    requires IsFallbackOrder(order)
    ensures ignore ==> r == Success(true)
    ensures !ignore && GetItemObject(data, info.machineName).None? ==> r == Success(false)
    ensures Join(info.path, info.machineName) in fs ==> r.Success?
    ensures !ignore && GetItemObject(data, info.machineName).Some? && Join(info.path, info.machineName) in fs ==>
      var item := GetItemObject(data, info.machineName).value;
      var content := fs[Join(info.path, info.machineName)];
      (r.value <==> HashAccepts(ExpectedHash(item, info, Md5, order), digest(Md5, content)) ||
                    HashAccepts(ExpectedHash(item, info, Sha1, order), digest(Sha1, content)))
    ensures !ignore && GetItemObject(data, info.machineName).Some? && Join(info.path, info.machineName) !in fs ==>
      var item := GetItemObject(data, info.machineName).value;
      var path := Join(info.path, info.machineName);
      var md5, sha1 := ExpectedHash(item, info, Md5, order), ExpectedHash(item, info, Sha1, order);
      (md5 != NA ==> r == Failure(Unreadable(path, Md5))) &&
      (md5 == NA && sha1 != NA ==> r == Failure(Unreadable(path, Sha1))) &&
      (md5 == NA && sha1 == NA ==> r == Success(true))
    ensures r.Failure? ==> r.error.path == Join(info.path, info.machineName)
  {
    if ignore then Success(true)
    else match GetItemObject(data, info.machineName)
      case None => Success(false)
      case Some(item) =>
        var md5Result := VerifyChecksum(digest, fs, info.path, info.machineName, ExpectedHash(item, info, Md5, order), Md5);
        if md5Result.Failure? then Failure(md5Result.error)
        else
          var sha1Result := VerifyChecksum(digest, fs, info.path, info.machineName, ExpectedHash(item, info, Sha1, order), Sha1);
          if sha1Result.Failure? then Failure(sha1Result.error)
          else Success(md5Result.value.verdict || sha1Result.value.verdict)
  }

  /** When either expected digest is the sentinel, a found item's file is accepted whatever its
      content, provided the other check does not fail to read it. */
  lemma SentinelAccepts(ignore: bool, data: seq<Bundle>, order: seq<string>, digest: Digester,
                        fs: map<string, Content>, info: FileInfo)
    requires IsFallbackOrder(order)
    requires GetItemObject(data, info.machineName).Some?
    requires var item := GetItemObject(data, info.machineName).value;
      ExpectedHash(item, info, Md5, order) == NA || ExpectedHash(item, info, Sha1, order) == NA
    requires ChecksumFile(ignore, data, order, digest, fs, info).Success?
    ensures ChecksumFile(ignore, data, order, digest, fs, info) == Success(true)
  {
  }

  /** Both sentinels: nothing is read, so the download is accepted even when the file is gone. */
  lemma BothSentinelsNeedNoFile(data: seq<Bundle>, order: seq<string>, digest: Digester,
                                fs: map<string, Content>, info: FileInfo)
    requires IsFallbackOrder(order)
    requires GetItemObject(data, info.machineName).Some?
    requires var item := GetItemObject(data, info.machineName).value;
      ExpectedHash(item, info, Md5, order) == NA && ExpectedHash(item, info, Sha1, order) == NA
    ensures ChecksumFile(false, data, order, digest, fs, info) == Success(true)
  {
  }

  /** A found item's readable file is rejected exactly when both digests are real and both
      differ from what the file hashes to. */
  lemma RejectedOnlyWhenBothMismatch(data: seq<Bundle>, order: seq<string>, digest: Digester,
                                     fs: map<string, Content>, info: FileInfo)
    requires IsFallbackOrder(order)
    requires GetItemObject(data, info.machineName).Some?
    requires Join(info.path, info.machineName) in fs
    ensures var item := GetItemObject(data, info.machineName).value;
      var content := fs[Join(info.path, info.machineName)];
      var md5 := ExpectedHash(item, info, Md5, order);
      var sha1 := ExpectedHash(item, info, Sha1, order);
      ChecksumFile(false, data, order, digest, fs, info) == Success(false) <==>
        md5 != NA && md5 != digest(Md5, content) && sha1 != NA && sha1 != digest(Sha1, content)
  {
  }
}
