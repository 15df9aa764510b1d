/** The upload middleware: the stored file name, the accepted file types and the
    HEIC-to-JPEG path rewrite. Paths follow node's POSIX `path` rules. */
module Upload {
  import opened Wrappers
  import opened Text
  import opened Http

  /** The path without its trailing `/` characters. */
  function StripTrailingSlashes(p: string): (r: string)
    ensures |r| <= |p| && r == p[..|r|]
    ensures r == [] || r[|r| - 1] != '/'
    ensures forall i :: |r| <= i < |p| ==> p[i] == '/'
  {
    if p != [] && p[|p| - 1] == '/' then StripTrailingSlashes(p[..|p| - 1]) else p
  }

  /** The last index holding `c`. */
  function LastIndexOf(s: string, c: char): (r: Option<nat>)
    ensures r.Some? ==> r.value < |s| && s[r.value] == c && c !in s[r.value + 1..]
    ensures r.None? ==> c !in s
  {
    if s == [] then None
    else if s[|s| - 1] == c then Some(|s| - 1)
    else
      var r := LastIndexOf(s[..|s| - 1], c);
      assert s == s[..|s| - 1] + [s[|s| - 1]];
      r
  }

  /** The last occurrence is determined by its position: `c` at `k` and not after it. */
  lemma {:induction false} LastIndexOfAt(s: string, c: char, k: nat)
    requires k < |s| && s[k] == c && c !in s[k + 1..]
    ensures LastIndexOf(s, c) == Some(k)
  {
    if k < |s| - 1 {
      var t := s[..|s| - 1];
      assert s[|s| - 1] in s[k + 1..];
      assert t[k + 1..] == s[k + 1..|s| - 1];
      LastIndexOfAt(t, c, k);
    }
  }

  /** `path.basename(p)`: the last segment once trailing slashes are dropped. */
  function BaseName(p: string): (r: string)
    ensures '/' !in r
  {
    var t := StripTrailingSlashes(p);
    match LastIndexOf(t, '/')
    case None => t
    case Some(i) => t[i + 1..]
  }

  /** `path.extname(p)`: from the last `.` of the base name to its end; empty when the
      base name has no `.`, when its last `.` is its first character, or when it is `..`. */
  function ExtName(p: string): (r: string)
    ensures r == "" || (r[0] == '.' && '.' !in r[1..] && '/' !in r)
  {
    var b := BaseName(p);
    match LastIndexOf(b, '.')
    case None => ""
    case Some(d) => if d == 0 || b == ".." then "" else b[d..]
  }

  /** The extension is a proper suffix of the base name. */
  lemma ExtNameIsSuffix(p: string)
    ensures var b := BaseName(p); var e := ExtName(p);
            e != "" ==> |e| < |b| && b[|b| - |e|..] == e
  {
    if ExtName(p) != "" {
      var d := ExtStart(p);
      assert d != 0;
    }
  }

  /** The base name of a path already free of `/` is the path itself. */
  lemma BaseNameOfName(n: string)
    requires '/' !in n && (n == [] || n[|n| - 1] != '/')
    ensures BaseName(n) == n
  {
  }

  /** Where the base name starts in the path once trailing slashes are dropped. */
  function BaseStart(p: string): (k: nat)
    ensures k <= |StripTrailingSlashes(p)| && BaseName(p) == StripTrailingSlashes(p)[k..]
  {
    match LastIndexOf(StripTrailingSlashes(p), '/')
    case None => 0
    case Some(i) => i + 1
  }

  /** Where the extension starts in the base name. */
  function ExtStart(p: string): (d: nat)
    requires ExtName(p) != ""
    ensures d <= |BaseName(p)| && ExtName(p) == BaseName(p)[d..]
  {
    LastIndexOf(BaseName(p), '.').value
  }

  /** The extension of a path occurs in the path, as the end of its base name. */
  lemma ExtNameInPath(p: string)
    requires ExtName(p) != ""
    ensures Contains(p, ExtName(p))
  {
    var t := StripTrailingSlashes(p);
    var k := BaseStart(p);
    var d := ExtStart(p);
    var e := ExtName(p);
    assert e == t[k + d..];
    assert t == p[..|t|];
    assert p[k + d..k + d + |e|] == e;
    OccursContains(p, e, k + d);
  }

  /** A suffix free of `.` and `/` in front of an extension leaves that extension in place. */
  lemma SuffixedExtName(uniqueSuffix: string, e: string)
    requires uniqueSuffix != [] && '.' !in uniqueSuffix && '/' !in uniqueSuffix
    requires e == "" || (e[0] == '.' && '.' !in e[1..] && '/' !in e)
    ensures ExtName(uniqueSuffix + e) == e
  {
    var n := uniqueSuffix + e;
    assert '/' !in n by {
      forall i | 0 <= i < |n| ensures n[i] != '/' {
        if i >= |uniqueSuffix| { assert n[i] == e[i - |uniqueSuffix|]; }
      }
    }
    assert n[|n| - 1] != '/';
    BaseNameOfName(n);
    if e == "" {
      assert n == uniqueSuffix;
    } else {
      var k := |uniqueSuffix|;
      assert n[k] == '.';
      assert n[k + 1..] == e[1..];
      LastIndexOfAt(n, '.', k);
      assert n[0] == uniqueSuffix[0] && uniqueSuffix[0] in uniqueSuffix;
      assert n[k..] == e;
    }
  }

  /** The name multer's storage gives a file: `uniqueSuffix` (time stamp and random
      number, a parameter here) followed by the original file's extension. A suffix
      free of `.` and `/`, as the digits and the `-` are, keeps that extension. */
  function StoredFileName(uniqueSuffix: string, originalName: string): (r: string)
    ensures uniqueSuffix != [] && '.' !in uniqueSuffix && '/' !in uniqueSuffix ==>
              ExtName(r) == ExtName(originalName)
  {
    if uniqueSuffix != [] && '.' !in uniqueSuffix && '/' !in uniqueSuffix then
      SuffixedExtName(uniqueSuffix, ExtName(originalName));
      uniqueSuffix + ExtName(originalName)
    else uniqueSuffix + ExtName(originalName)
  }

  /** The time stamp, a `-` and the rounded random number: the suffix multer's storage
      writes, here given its digits. */
  lemma StoredFileKeepsExtension(stamp: nat, random: nat, originalName: string)
    ensures ExtName(StoredFileName(NatDigits(stamp) + "-" + NatDigits(random), originalName)) == ExtName(originalName)
  {
    var a, b := NatDigits(stamp), NatDigits(random);
    assert '.' !in a && '/' !in a && '.' !in b && '/' !in b;
    assert '.' !in "-" && '/' !in "-";
  }

  /** The decimal digits of a natural number, as JavaScript writes it. */
  function NatDigits(n: nat): (r: string)
    ensures r != [] && forall i :: 0 <= i < |r| ==> '0' <= r[i] <= '9'
  {
    if n < 10 then [('0' as int + n) as char] else NatDigits(n / 10) + [('0' as int + n % 10) as char]
  }

  /** The alternatives of `/jpeg|jpg|png|heic/`. */
  const AllowedTypes: seq<string> := ["jpeg", "jpg", "png", "heic"]

  /** The unanchored test `/jpeg|jpg|png|heic/` on a lower-cased string. */
  predicate AllowedType(s: string)
  {
    Contains(s, "jpeg") || Contains(s, "jpg") || Contains(s, "png") || Contains(s, "heic")
  }

  /** A pattern that does not start with `.` occurs in a text starting with `.` only after
      its first character. */
  lemma OccursAfterDot(l: string, t: string)
    requires Contains(l, t) && t != [] && t[0] != '.'
    requires l == [] || l[0] == '.'
    ensures |l| >= |t| + 1
  {
    var j := IndexOf(l, t).value;
    assert l[j..j + |t|] == t;
    assert l[j] == t[0];
  }

  /** A text that passes the test has an extension at least one character longer than
      the shortest allowed type, since the leading `.` matches none of them. */
  lemma ExtensionTypeLength(e: string)
    requires e == "" || e[0] == '.'
    requires AllowedType(ToLower(e))
    ensures |e| >= 4
  {
    var l := ToLower(e);
    assert l == [] || l[0] == '.';
    if Contains(l, "jpeg") { OccursAfterDot(l, "jpeg"); }
    else if Contains(l, "jpg") { OccursAfterDot(l, "jpg"); }
    else if Contains(l, "png") { OccursAfterDot(l, "png"); }
    else { OccursAfterDot(l, "heic"); }
  }

  /** `fileFilter`: both the MIME type and the extension name an allowed type; the
      extension then has at least four characters. */
  predicate FileFilter(mimetype: string, originalName: string)
    ensures FileFilter(mimetype, originalName) ==> |ExtName(originalName)| >= 4
  {
    if AllowedType(ToLower(ExtName(originalName))) then
      ExtensionTypeLength(ExtName(originalName));
      AllowedType(ToLower(mimetype))
    else false
  }

  /** A pattern holding a character the text lacks does not occur in it. */
  lemma NotContainsForeign(s: string, p: string, k: nat)
    requires k < |p| && p[k] !in s
    ensures !Contains(s, p)
  {
  }

  /** A file without an extension is refused whatever its MIME type. */
  lemma FileFilterNeedsExtension(mimetype: string, originalName: string)
    requires ExtName(originalName) == ""
    ensures !FileFilter(mimetype, originalName)
  {
    var e := ToLower(ExtName(originalName));
    assert e == [];
    NotContainsForeign(e, "jpeg", 0);
    NotContainsForeign(e, "jpg", 0);
    NotContainsForeign(e, "png", 0);
    NotContainsForeign(e, "heic", 0);
  }

  /** The match is unanchored: a text passes exactly when it contains an allowed type
      anywhere, whatever stands around it. */
  lemma AllowedTypeUnanchored(s: string)
    ensures AllowedType(s) <==> exists a, t, b :: t in AllowedTypes && s == a + t + b
  {
    if AllowedType(s) {
      var t := if Contains(s, "jpeg") then "jpeg" else if Contains(s, "jpg") then "jpg"
               else if Contains(s, "png") then "png" else "heic";
      var a, b := ContainsSplit(s, t);
      assert t in AllowedTypes;
    }
    if exists a, t, b :: t in AllowedTypes && s == a + t + b {
      var a, t, b :| t in AllowedTypes && s == a + t + b;
      assert s[|a|..|a| + |t|] == t;
      OccursContains(s, t, |a|);
    }
  }

  /** The file multer hands on: `req.file.path` and `req.file.filename`. */
  class UploadedFile {
    var path: string
    var filename: string

    constructor (path: string, filename: string)
      ensures this.path == path && this.filename == filename
    {
      this.path := path;
      this.filename := filename;
    }
  }

  /** The extension test of `convertHeicToJpeg`, case-insensitive. */
  predicate IsHeic(path: string)
  {
    ToLower(ExtName(path)) == ".heic"
  }

  /** `convertHeicToJpeg`: sharp's conversion and the removal of the original are
      abstracted by `conversionSucceeds`. */
  method ConvertHeicToJpeg(file: UploadedFile?, conversionSucceeds: bool) returns (o: Outcome)
    modifies file
    ensures file == null ==> o == Next
    ensures file != null && !IsHeic(old(file.path)) ==>
              o == Next && file.path == old(file.path) && file.filename == old(file.filename)
    ensures file != null && IsHeic(old(file.path)) && conversionSucceeds ==>
              && o == Next
              && file.path == ReplaceFirst(old(file.path), ".heic", ".jpeg")
              && file.filename == BaseName(file.path)
    ensures file != null && IsHeic(old(file.path)) && !conversionSucceeds ==>
              && o == Halt(Response(500, Error("Error converting HEIC to JPEG")))
              && file.path == old(file.path) && file.filename == old(file.filename)
  {
    if file == null {
      return Next;
    }
    var filePath := file.path;
    var ext := ToLower(ExtName(filePath));
    if ext == ".heic" {
      var jpegPath := ReplaceFirst(filePath, ".heic", ".jpeg");
      if !conversionSucceeds {
        return Halt(Response(500, Error("Error converting HEIC to JPEG")));
      }
      file.path := jpegPath;
      file.filename := BaseName(jpegPath);
    }
    o := Next;
  }

  /** The rewrite is case-sensitive: a path that passes the extension test without
      holding ".heic" literally (an upper- or mixed-case extension) is its own target
      path, so sharp is asked to write the JPEG over its source. */
  lemma UpperCaseHeicKeepsPath(p: string)
    requires IsHeic(p) && !Contains(p, ".heic")
    ensures ExtName(p) != ".heic"
    ensures ReplaceFirst(p, ".heic", ".jpeg") == p
  {
    if ExtName(p) == ".heic" {
      ExtNameInPath(p);
    }
  }

  /** "IMG.HEIC" is such a path. */
  lemma UpperCaseHeicExample()
    ensures IsHeic("IMG.HEIC") && !Contains("IMG.HEIC", ".heic")
  {
    var p := "IMG.HEIC";
    assert StripTrailingSlashes(p) == p;
    assert '/' !in p;
    assert BaseName(p) == p;
    assert p[3] == '.' && p[4..] == "HEIC" && p[3..] == ".HEIC";
    LastIndexOfAt(p, '.', 3);
    assert ExtName(p) == ".HEIC";
    var l := ToLower(".HEIC");
    assert l[0] == '.' && l[1] == 'h' && l[2] == 'e' && l[3] == 'i' && l[4] == 'c';
    assert l == ".heic";
    assert ".heic"[1] !in p;
    NotContainsForeign(p, ".heic", 1);
  }
}
