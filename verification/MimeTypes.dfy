/**
  The two content-type lookups of the HTTPS server: a chain of suffix tests, and
  the older chain of case-insensitive tests on what follows the last dot.
 */
module MimeTypes {

  datatype Entry = Entry(extension: string, contentType: string)

  /** The tests of the suffix chain, in their order. */
  const TABLE: seq<Entry> := [
    Entry(".htm", "text/html"),
    Entry(".html", "text/html"),
    Entry(".php", "text/html"),
    Entry(".css", "text/css"),
    Entry(".txt", "text/plain"),
    Entry(".js", "application/javascript"),
    Entry(".json", "application/json"),
    Entry(".xml", "application/xml"),
    Entry(".swf", "application/x-shockwave-flash"),
    Entry(".flv", "video/x-flv"),
    Entry(".png", "image/png"),
    Entry(".jpe", "image/jpeg"),
    Entry(".jpeg", "image/jpeg"),
    Entry(".jpg", "image/jpeg"),
    Entry(".gif", "image/gif"),
    Entry(".bmp", "image/bmp"),
    Entry(".ico", "image/vnd.microsoft.icon"),
    Entry(".tiff", "image/tiff"),
    Entry(".tif", "image/tiff"),
    Entry(".svg", "image/svg+xml"),
    Entry(".svgz", "image/svg+xml")
  ]

  /** The tests of the older chain, in their order. */
  const OLD_TABLE: seq<Entry> := [
    Entry(".htm", "text/html"),
    Entry(".html", "text/html"),
    Entry(".php", "text/html"),
    Entry(".css", "text/css"),
    Entry(".txt", "text/plain"),
    Entry(".js", "application/javascript"),
    Entry(".json", "application/json"),
    Entry(".xml", "application/xml"),
    Entry(".swf", "application/x-shockwave-flash"),
    Entry(".flv", "video/x-flv"),
    Entry(".png", "image/png"),
    Entry(".jpe", "image/jpeg"),
    Entry(".jpeg", "image/jpeg"),
    Entry(".jpg", "image/jpeg"),
    Entry(".gif", "image/gif"),
    Entry(".bmp", "image/bmp"),
    Entry(".ico", "image/vnd.microsoft.icon"),
    Entry(".tiff", "image/tiff"),
    Entry(".tif", "image/tiff"),
    Entry(".svg", "image/svg+xml"),
    Entry(".svgz", "image/svg+xml")
  ]

  const DEFAULT_TYPE := "application/text"

  predicate EndsWith(s: string, suffix: string) {
    |suffix| <= |s| && s[|s| - |suffix|..] == suffix
  }

  /** The chain of `ends_with` tests. */
  function SuffixChain(table: seq<Entry>, path: string): string {
    if table == [] then DEFAULT_TYPE
    else if EndsWith(path, table[0].extension) then table[0].contentType
    else SuffixChain(table[1..], path)
  }

  function MimeType(path: string): string {
    SuffixChain(TABLE, path)
  }

  function LowerChar(c: char): char {
    if 'A' <= c <= 'Z' then (c as int + 32) as char else c
  }

  function Lower(s: string): (r: string)
    ensures |r| == |s|
  {
    seq(|s|, i requires 0 <= i < |s| => LowerChar(s[i]))
  }

  predicate EqualsIgnoringCase(a: string, b: string) {
    Lower(a) == Lower(b)
  }

  /** From the last dot to the end; empty if there is no dot. */
  function Extension(path: string): (r: string)
    ensures r == "" <==> '.' !in path
    ensures EndsWith(path, r)
    ensures r != "" ==> r[0] == '.' && '.' !in r[1..]
  {
    if path == "" then ""
    else
      var last, others := path[|path| - 1], path[..|path| - 1];
      assert path == others + [last];
      if last == '.' then "."
      else
        var r := Extension(others);
        if r == "" then "" else r + [last]
  }

  /** The chain of `iequals` tests. */
  function ExtensionChain(table: seq<Entry>, extension: string): string {
    if table == [] then DEFAULT_TYPE
    else if EqualsIgnoringCase(extension, table[0].extension) then table[0].contentType
    else ExtensionChain(table[1..], extension)
  }

  function MimeTypeOld(path: string): string {
    ExtensionChain(OLD_TABLE, Extension(path))
  }

  // ---------------------------------------------------------------------
  // The two lookups agree

  /** A dot and a lower-case word. */
  predicate IsExtension(s: string) {
    s != "" && s[0] == '.' && forall k :: 1 <= k < |s| ==> 'a' <= s[k] <= 'z'
  }

  predicate WellFormed(table: seq<Entry>) {
    forall k :: 0 <= k < |table| ==> IsExtension(table[k].extension)
  }

  predicate WellFormedRows(table: seq<Entry>, from: nat, to: nat)
    requires to <= |table|
  {
    forall k :: from <= k < to ==> IsExtension(table[k].extension)
  }

  lemma FirstRowsAreWellFormed()
    ensures WellFormedRows(TABLE, 0, 7)
  {
  }

  lemma MiddleRowsAreWellFormed()
    ensures WellFormedRows(TABLE, 7, 14)
  {
  }

  lemma OtherRowsAreWellFormed()
    ensures WellFormedRows(TABLE, 14, |TABLE|)
  {
  }

  lemma TableIsWellFormed()
    ensures WellFormed(TABLE)
  {
    hide TABLE, IsExtension;
    FirstRowsAreWellFormed();
    MiddleRowsAreWellFormed();
    OtherRowsAreWellFormed();
  }

  /** A suffix that starts at the last dot is the extension. */
  lemma LastDotIsUnique(path: string, a: string, b: string)
    requires EndsWith(path, a) && a != "" && a[0] == '.' && '.' !in a[1..]
    requires EndsWith(path, b) && b != "" && b[0] == '.' && '.' !in b[1..]
    ensures a == b
  {
    var i, j := |path| - |a|, |path| - |b|;
    assert path[i] == path[i..][0] && path[j] == path[j..][0];
    assert forall k :: i < k < |path| ==> path[k] == a[1..][k - i - 1];
    assert forall k :: j < k < |path| ==> path[k] == b[1..][k - j - 1];
  }

  /** Ending with an extension is having it after the last dot. */
  lemma SuffixIsExtension(path: string, e: string)
    requires IsExtension(e)
    ensures EndsWith(path, e) <==> Extension(path) == e
  {
    hide Extension;
    if EndsWith(path, e) {
      assert path[|path| - |e|] == '.';
      LastDotIsUnique(path, e, Extension(path));
    }
  }

  lemma LowerOfLast(s: string, c: char)
    ensures Lower(s + [c]) == Lower(s) + [LowerChar(c)]
    ensures LowerChar(c) == '.' <==> c == '.'
  {
  }

  lemma {:induction false} ExtensionOfLower(path: string)
    ensures Extension(Lower(path)) == Lower(Extension(path))
  {
    hide EndsWith, LowerChar;
    if path != "" {
      var last, others := path[|path| - 1], path[..|path| - 1];
      assert path == others + [last];
      LowerOfLast(others, last);
      LowerOfLast(Extension(others), last);
      LowerOfLast("", '.');
      hide Lower;
      ExtensionOfLower(others);
      assert Lower(path)[..|path| - 1] == Lower(others);
    }
  }

  lemma {:induction false} ChainsAgree(table: seq<Entry>, path: string)
    requires WellFormed(table)
    ensures ExtensionChain(table, Extension(path)) == SuffixChain(table, Lower(path))
  {
    if table != [] {
      var e := table[0].extension;
      ExtensionOfLower(path);
      SuffixIsExtension(Lower(path), e);
      assert Lower(e) == e;
      ChainsAgree(table[1..], path);
    }
  }

  lemma TablesAgree()
    ensures OLD_TABLE == TABLE
  {
  }

  /** The old lookup is the new one on the lower-cased path. */
  lemma OldLookupIgnoresCase(path: string)
    ensures MimeTypeOld(path) == MimeType(Lower(path))
    ensures Lower(path) == path ==> MimeTypeOld(path) == MimeType(path)
  {
    hide TABLE, OLD_TABLE;
    TableIsWellFormed();
    TablesAgree();
    ChainsAgree(TABLE, path);
  }

  // ---------------------------------------------------------------------
  // What the lookups answer

  /** The content type of each family of extensions. */
  function Family(ext: string): string {
    if ext == ".htm" || ext == ".html" || ext == ".php" then "text/html"
    else if ext == ".css" then "text/css"
    else if ext == ".txt" then "text/plain"
    else if ext == ".js" then "application/javascript"
    else if ext == ".json" then "application/json"
    else if ext == ".xml" then "application/xml"
    else if ext == ".swf" then "application/x-shockwave-flash"
    else if ext == ".flv" then "video/x-flv"
    else if ext == ".png" then "image/png"
    else if ext == ".jpe" || ext == ".jpeg" || ext == ".jpg" then "image/jpeg"
    else if ext == ".gif" then "image/gif"
    else if ext == ".bmp" then "image/bmp"
    else if ext == ".ico" then "image/vnd.microsoft.icon"
    else if ext == ".tiff" || ext == ".tif" then "image/tiff"
    else if ext == ".svg" || ext == ".svgz" then "image/svg+xml"
    else "application/text"
  }

  predicate RowsAreRight(table: seq<Entry>) {
    forall k :: 0 <= k < |table| ==> table[k].contentType == Family(table[k].extension)
  }

  lemma TextFamilies()
    ensures Family(".htm") == "text/html"
    ensures Family(".html") == "text/html"
    ensures Family(".php") == "text/html"
    ensures Family(".css") == "text/css"
    ensures Family(".txt") == "text/plain"
  {
  }

  lemma ScriptFamilies()
    ensures Family(".js") == "application/javascript"
    ensures Family(".json") == "application/json"
    ensures Family(".xml") == "application/xml"
  {
  }

  lemma FilmFamilies()
    ensures Family(".swf") == "application/x-shockwave-flash"
    ensures Family(".flv") == "video/x-flv"
  {
  }

  lemma PictureFamilies()
    ensures Family(".png") == "image/png"
    ensures Family(".jpe") == "image/jpeg"
  {
  }

  lemma PhotoFamilies()
    ensures Family(".jpeg") == "image/jpeg"
    ensures Family(".jpg") == "image/jpeg"
  {
  }

  lemma ImageFamilies()
    ensures Family(".gif") == "image/gif"
    ensures Family(".bmp") == "image/bmp"
  {
  }

  lemma IconFamilies()
    ensures Family(".ico") == "image/vnd.microsoft.icon"
    ensures Family(".tiff") == "image/tiff"
  {
  }

  lemma TaggedFamilies()
    ensures Family(".tif") == "image/tiff"
  {
  }

  lemma VectorFamilies()
    ensures Family(".svg") == "image/svg+xml"
    ensures Family(".svgz") == "image/svg+xml"
  {
  }

  lemma TableIsRight()
    ensures RowsAreRight(TABLE)
  {
    hide Family;
    TextFamilies();
    ScriptFamilies();
    FilmFamilies();
    PictureFamilies();
    PhotoFamilies();
    ImageFamilies();
    IconFamilies();
    TaggedFamilies();
    VectorFamilies();
  }

  predicate Tested(ext: string) {
    exists k :: 0 <= k < |TABLE| && TABLE[k].extension == ext
  }

  lemma FirstNamesAreTested()
    ensures Tested(".htm")
    ensures Tested(".html")
    ensures Tested(".php")
    ensures Tested(".css")
    ensures Tested(".txt")
    ensures Tested(".js")
    ensures Tested(".json")
  {
    assert TABLE[0].extension == ".htm";
    assert TABLE[1].extension == ".html";
    assert TABLE[2].extension == ".php";
    assert TABLE[3].extension == ".css";
    assert TABLE[4].extension == ".txt";
    assert TABLE[5].extension == ".js";
    assert TABLE[6].extension == ".json";
  }

  lemma MiddleNamesAreTested()
    ensures Tested(".xml")
    ensures Tested(".swf")
    ensures Tested(".flv")
    ensures Tested(".png")
    ensures Tested(".jpe")
    ensures Tested(".jpeg")
    ensures Tested(".jpg")
  {
    assert TABLE[7].extension == ".xml";
    assert TABLE[8].extension == ".swf";
    assert TABLE[9].extension == ".flv";
    assert TABLE[10].extension == ".png";
    assert TABLE[11].extension == ".jpe";
    assert TABLE[12].extension == ".jpeg";
    assert TABLE[13].extension == ".jpg";
  }

  lemma LastNamesAreTested()
    ensures Tested(".gif")
    ensures Tested(".bmp")
    ensures Tested(".ico")
    ensures Tested(".tiff")
    ensures Tested(".tif")
    ensures Tested(".svg")
    ensures Tested(".svgz")
  {
    assert TABLE[14].extension == ".gif";
    assert TABLE[15].extension == ".bmp";
    assert TABLE[16].extension == ".ico";
    assert TABLE[17].extension == ".tiff";
    assert TABLE[18].extension == ".tif";
    assert TABLE[19].extension == ".svg";
    assert TABLE[20].extension == ".svgz";
  }

  lemma OnlyNamedHaveFamilies(ext: string)
    ensures
      || Family(ext) == DEFAULT_TYPE
      || ext == ".htm" || ext == ".html" || ext == ".php" || ext == ".css" || ext == ".txt"
      || ext == ".js" || ext == ".json" || ext == ".xml" || ext == ".swf" || ext == ".flv"
      || ext == ".png" || ext == ".jpe" || ext == ".jpeg" || ext == ".jpg" || ext == ".gif"
      || ext == ".bmp" || ext == ".ico" || ext == ".tiff" || ext == ".tif" || ext == ".svg"
      || ext == ".svgz"
  {
  }

  /** Every extension of a family is tested for. */
  lemma TableIsComplete(ext: string)
    ensures Family(ext) == DEFAULT_TYPE || Tested(ext)
  {
    hide Tested, Family;
    OnlyNamedHaveFamilies(ext);
    FirstNamesAreTested();
    MiddleNamesAreTested();
    LastNamesAreTested();
  }

  /** A chain answers with a matching entry, or by default when none matches. */
  lemma {:induction false} ChainAnswer(table: seq<Entry>, path: string) returns (k: int)
    ensures -1 <= k < |table|
    ensures 0 <= k ==> EndsWith(path, table[k].extension) && SuffixChain(table, path) == table[k].contentType
    ensures k < 0 ==> SuffixChain(table, path) == DEFAULT_TYPE
    ensures k < 0 ==> forall j :: 0 <= j < |table| ==> !EndsWith(path, table[j].extension)
  {
    if table == [] {
      k := -1;
    } else if EndsWith(path, table[0].extension) {
      k := 0;
    } else {
      k := ChainAnswer(table[1..], path);
      k := if k < 0 then k else k + 1;
      assert forall j :: 0 < j < |table| ==> table[j] == table[1..][j - 1];
    }
  }

  predicate SameEntries(a: seq<Entry>, b: seq<Entry>) {
    (forall k :: 0 <= k < |a| ==> a[k] in b) && (forall k :: 0 <= k < |b| ==> b[k] in a)
  }

  /** A chain with the entries of the table, in any order, answers with the family of the extension. */
  lemma ChainTellsFamily(table: seq<Entry>, path: string)
    requires SameEntries(table, TABLE)
    ensures SuffixChain(table, path) == Family(Extension(path))
  {
    hide TABLE, SuffixChain, Family, Extension;
    TableIsWellFormed();
    TableIsRight();
    TableIsComplete(Extension(path));
    var k := ChainAnswer(table, path);
    if k >= 0 {
      assert table[k] in TABLE;
      SuffixIsExtension(path, table[k].extension);
    } else if j :| 0 <= j < |TABLE| && TABLE[j].extension == Extension(path) {
      assert TABLE[j] in table;
      SuffixIsExtension(path, TABLE[j].extension);
    }
  }

  /** The answer depends on the extension alone: that of its family, or the default. */
  lemma TypesOfExtensions(path: string)
    ensures MimeType(path) == Family(Extension(path))
    ensures MimeTypeOld(path) == Family(Lower(Extension(path)))
  {
    hide TABLE, Family;
    ChainTellsFamily(TABLE, path);
    ChainTellsFamily(TABLE, Lower(path));
    OldLookupIgnoresCase(path);
    ExtensionOfLower(path);
  }

  /** Any arrangement of the same tests gives the same answers. */
  lemma OrderDoesNotMatter(table: seq<Entry>, path: string)
    requires SameEntries(table, TABLE)
    ensures SuffixChain(table, path) == MimeType(path)
  {
    hide TABLE, Family;
    ChainTellsFamily(table, path);
    ChainTellsFamily(TABLE, path);
  }

  /** The same of the older lookup. */
  lemma OldOrderDoesNotMatter(table: seq<Entry>, path: string)
    requires SameEntries(table, OLD_TABLE)
    ensures ExtensionChain(table, Extension(path)) == MimeTypeOld(path)
  {
    hide TABLE, OLD_TABLE;
    TableIsWellFormed();
    TablesAgree();
    forall k | 0 <= k < |table| ensures IsExtension(table[k].extension) {
      assert table[k] in TABLE;
    }
    ChainsAgree(table, path);
    OldLookupIgnoresCase(path);
    OrderDoesNotMatter(table, Lower(path));
  }
}
