/** POSIX path joining and the placement rule of `_move_file`. */
module Paths {
  import opened Strings

  predicate IsAbsolute(p: string) { |p| > 0 && p[0] == '/' }

  /** `os.path.join(a, b)` on POSIX: an absolute `b` replaces `a`; otherwise exactly one '/'
      separates a non-empty `a` from `b`. */
  function Join(a: string, b: string): (r: string)
    ensures IsAbsolute(b) ==> r == b
    ensures !IsAbsolute(b) ==> |r| >= |a| + |b|
    ensures !IsAbsolute(b) && a != [] ==> r[|r| - |b| - 1] == '/' && |r| <= |a| + 1 + |b|
  {
    if IsAbsolute(b) then b
    else if a == [] || a[|a| - 1] == '/' then a + b
    else a + "/" + b
  }

  /** The directory `_move_file` places a file in: `<root>/ebook/<ft>` for the ebook platform,
      `<root>/<platform>` otherwise, with platform and filetype lower-cased. */
  function PlacementDir(root: string, platform: string, filetype: string): string {
    var p := Lower(platform);
    if p == "ebook" then Join(root, "ebook/" + Lower(filetype)) else Join(root, p)
  }

  /** The final path `_move_file` moves the downloaded temporary file to. */
  function Destination(root: string, platform: string, filetype: string, machineName: string): string {
    Join(PlacementDir(root, platform, filetype), machineName + "." + Lower(filetype))
  }

  lemma JoinRelative(a: string, b: string)
    requires a != [] && a[|a| - 1] != '/' && !IsAbsolute(b)
    ensures Join(a, b) == a + "/" + b
  {
  }

  /** A relative name with no '/' at either end. */
  predicate IsPlainName(s: string) { s != [] && s[0] != '/' && s[|s| - 1] != '/' }

  lemma LowerPlainName(s: string)
    requires s != [] && '/' !in s
    ensures IsPlainName(Lower(s)) && '/' !in Lower(s)
  {
    LowerKeepsNonLetter(s, '/');
    assert Lower(s)[0] in Lower(s);
    assert Lower(s)[|s| - 1] in Lower(s);
  }

  lemma FileNameRelative(machineName: string, ext: string)
    requires !IsAbsolute(machineName)
    ensures !IsAbsolute(machineName + "." + ext)
  {
    var name := machineName + "." + ext;
    if machineName == [] { assert name[0] == '.'; } else { assert name[0] == machineName[0]; }
  }

  lemma EbookDir(root: string, platform: string, filetype: string)
    requires root != [] && root[|root| - 1] != '/'
    requires filetype != [] && '/' !in filetype
    requires Lower(platform) == "ebook"
    ensures PlacementDir(root, platform, filetype) == root + "/ebook/" + Lower(filetype)
    ensures IsPlainName(Lower(filetype))
  {
    var ft := Lower(filetype);
    LowerPlainName(filetype);
    var sub := "ebook/" + ft;
    assert sub[0] == 'e';
    JoinRelative(root, sub);
  }

  /** For an ordinary root directory the ebook destination is `<root>/ebook/<ft>/<m>.<ft>`,
      with the filetype lower-cased. */
  lemma EbookDestinationShape(root: string, platform: string, filetype: string, machineName: string)
    requires root != [] && root[|root| - 1] != '/'
    requires !IsAbsolute(machineName)
    requires filetype != [] && '/' !in filetype
    requires Lower(platform) == "ebook"
    ensures var ft := Lower(filetype);
      Destination(root, platform, filetype, machineName) == root + "/ebook/" + ft + "/" + machineName + "." + ft
  {
    var ft := Lower(filetype);
    EbookDir(root, platform, filetype);
    var name := machineName + "." + ft;
    FileNameRelative(machineName, ft);
    var dir := root + "/ebook/" + ft;
    assert dir[|dir| - 1] == ft[|ft| - 1];
    JoinRelative(dir, name);
    assert dir + "/" + name == root + "/ebook/" + ft + "/" + machineName + "." + ft;
  }

  /** For an ordinary root directory every other platform's destination is
      `<root>/<platform>/<m>.<ft>`, with platform and filetype lower-cased. */
  lemma PlatformDestinationShape(root: string, platform: string, filetype: string, machineName: string)
    requires root != [] && root[|root| - 1] != '/'
    requires !IsAbsolute(machineName)
    requires platform != [] && '/' !in platform
    requires Lower(platform) != "ebook"
    ensures var p, ft := Lower(platform), Lower(filetype);
      Destination(root, platform, filetype, machineName) == root + "/" + p + "/" + machineName + "." + ft
  {
    var p, ft := Lower(platform), Lower(filetype);
    LowerPlainName(platform);
    var name := machineName + "." + ft;
    FileNameRelative(machineName, ft);
    JoinRelative(root, p);
    var dir := root + "/" + p;
    assert PlacementDir(root, platform, filetype) == dir;
    assert dir[|dir| - 1] == p[|p| - 1];
    JoinRelative(dir, name);
    assert dir + "/" + name == root + "/" + p + "/" + machineName + "." + ft;
  }
}
