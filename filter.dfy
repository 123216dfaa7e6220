/** The filetype filter: `_get_allowed_filetypes` turns the command-line type flags into a
    list of extensions, and `_check_file_against_filter` decides whether a file name passes. */
module Filter {
  import opened Strings

  /** The `--epub`, `--pdf`, `--mobi`, `--books` and `--other` switches. */
  datatype Flags = Flags(epub: bool, pdf: bool, mobi: bool, books: bool, other: bool)

  predicate NoTypeFlag(f: Flags) {
    !f.epub && !f.pdf && !f.mobi && !f.books && !f.other
  }

  /** The wildcard that admits every file. */
  const Wildcard: string := "*"

  /** The allowed extensions: each book type under its own switch or `--books`, the three
      archive types under `--other`, and the wildcard alone when no switch is given. */
  function AllowedFiletypes(f: Flags): (r: seq<string>)
    ensures r != []
    ensures r == [Wildcard] <==> NoTypeFlag(f)
    ensures Wildcard in r <==> NoTypeFlag(f)
    ensures forall x :: x in r ==> x in {Wildcard, "epub", "pdf", "mobi", "zip", "rar", "7z"}
  {
    var filetypes :=
      (if f.epub || f.books then ["epub"] else []) +
      (if f.pdf || f.books then ["pdf"] else []) +
      (if f.mobi || f.books then ["mobi"] else []) +
      (if f.other then ["zip", "rar", "7z"] else []);
    assert Wildcard !in filetypes;
    if filetypes == [] then [Wildcard] else filetypes
  }

  /** Each book type is selected by its own switch or by `--books`, and the archive types
      by `--other`. */
  lemma AllowedBySwitch(f: Flags)
    ensures var r := AllowedFiletypes(f);
      ("epub" in r <==> f.epub || f.books) &&
      ("pdf" in r <==> f.pdf || f.books) &&
      ("mobi" in r <==> f.mobi || f.books) &&
      ("zip" in r <==> f.other) && ("rar" in r <==> f.other) && ("7z" in r <==> f.other)
  {
  }

  /** The extension the filter looks at: the text after the last '.' (as `AfterLast` states
      it: dot-free, a tail of the name, and either all of it or preceded by a '.'),
      lower-cased; it is the lower-cased filetype the repair loop splits off the name. */
  function FilterExtension(filename: string): (r: string)
    ensures r == Lower(AfterLast(filename, '.'))
    ensures r == Lower(SplitLastDot(filename).1)
    ensures '.' !in r
    ensures forall i :: 0 <= i < |r| ==> !IsUpper(r[i])
  {
    var ext := AfterLast(filename, '.');
    LowerKeepsNonLetter(ext, '.');
    Lower(ext)
  }

  function LowerAll(ss: seq<string>): (r: seq<string>)
    ensures |r| == |ss| && forall i :: 0 <= i < |ss| ==> r[i] == Lower(ss[i])
  {
    seq(|ss|, i requires 0 <= i < |ss| => Lower(ss[i]))
  }

  /** `_check_file_against_filter`: a file passes when the wildcard is allowed or its
      extension equals some allowed type, both compared lower-cased. */
  function CheckFileAgainstFilter(allowed: seq<string>, filename: string): (r: bool)
    ensures r <==> Wildcard in allowed || exists a :: a in allowed && Lower(a) == FilterExtension(filename)
  {
    var lowered := LowerAll(allowed);
    var result := Wildcard in allowed || FilterExtension(filename) in lowered;
    assert result ==> Wildcard in allowed || exists a :: a in allowed && Lower(a) == FilterExtension(filename) by {
      if Wildcard !in allowed && result {
        var i :| 0 <= i < |lowered| && lowered[i] == FilterExtension(filename);
        assert allowed[i] in allowed;
      }
    }
    assert (exists a :: a in allowed && Lower(a) == FilterExtension(filename)) ==> result by {
      if a :| a in allowed && Lower(a) == FilterExtension(filename) {
        var i :| 0 <= i < |allowed| && allowed[i] == a;
        assert lowered[i] == FilterExtension(filename);
      }
    }
    result
  }

  /** Lower-casing a string without upper-case letters changes nothing. */
  lemma LowerOfLowerCase(s: string)
    requires forall i :: 0 <= i < |s| ==> !IsUpper(s[i])
    ensures Lower(s) == s
  {
  }

  /** The types the switches can select are all written in lower case. */
  lemma KnownTypeIsLowerCase(a: string)
    requires a in {Wildcard, "epub", "pdf", "mobi", "zip", "rar", "7z"}
    ensures Lower(a) == a
  {
    assert forall i :: 0 <= i < |a| ==> !IsUpper(a[i]) by {
      if a == Wildcard {} else if a == "epub" {} else if a == "pdf" {} else if a == "mobi" {}
      else if a == "zip" {} else if a == "rar" {} else {}
    }
    LowerOfLowerCase(a);
  }

  /** With the list built from the switches, a file passes exactly when no switch is given or
      its lower-cased extension is one of the listed types. */
  lemma FilterUnderFlags(f: Flags, filename: string)
    ensures CheckFileAgainstFilter(AllowedFiletypes(f), filename) <==>
            NoTypeFlag(f) || FilterExtension(filename) in AllowedFiletypes(f)
  {
    var allowed := AllowedFiletypes(f);
    var ext := FilterExtension(filename);
    if ext in allowed {
      KnownTypeIsLowerCase(ext);
    }
    if a :| a in allowed && Lower(a) == ext {
      KnownTypeIsLowerCase(a);
    }
  }

  /** The file name the matcher builds from a machine name and a URL-derived filetype passes
      the filter exactly when that filetype is allowed (or everything is). */
  lemma BuiltNameFilter(f: Flags, machineName: string, filetype: string)
    requires '.' !in filetype
    requires forall i :: 0 <= i < |filetype| ==> !IsUpper(filetype[i])
    ensures CheckFileAgainstFilter(AllowedFiletypes(f), machineName + "." + filetype) <==>
            NoTypeFlag(f) || filetype in AllowedFiletypes(f)
  {
    SplitJoinRoundTrip(machineName, filetype);
    LowerOfLowerCase(filetype);
    FilterUnderFlags(f, machineName + "." + filetype);
  }
}
