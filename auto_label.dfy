/**
 * `simple_label` (auto_label_microservice.py): a file name is classified by
 * its lower-cased extension, taken as POSIX `os.path.splitext` takes it.
 */
module AutoLabel {

  /** The index of the last `c` in `s`, or -1 (Python's `str.rfind`). */
  function LastIndex(s: string, c: char): (i: int)
    ensures -1 <= i < |s|
    ensures i >= 0 ==> s[i] == c
    ensures forall j :: i < j < |s| ==> s[j] != c
  {
    if s == [] then -1
    else if s[|s| - 1] == c then |s| - 1
    else LastIndex(s[..|s| - 1], c)
  }

  /** Some character of `p[lo..hi]` is not a dot. */
  predicate HasNonDot(p: string, lo: int, hi: int)
    requires 0 <= lo && hi <= |p|
  {
    exists j :: lo <= j < hi && p[j] != '.'
  }

  /**
   * The extension part of POSIX `os.path.splitext(p)`: from the last dot of
   * the last path component, unless everything before that dot in the
   * component is dots (a dot-file such as ".png" has no extension).
   */
  function Ext(p: string): (e: string)
    ensures |e| <= |p|
    ensures e == [] || (e[0] == '.' && '.' !in e[1..] && '/' !in e && e == p[|p| - |e|..])
  {
    var sep := LastIndex(p, '/');
    var dot := LastIndex(p, '.');
    if dot > sep && HasNonDot(p, sep + 1, dot) then
      assert p[dot..][1..] == p[dot + 1..];
      p[dot..]
    else []
  }

  /** ASCII lower-casing, the part of `str.lower` that can matter here. */
  function LowerChar(c: char): (l: char)
    ensures ('A' <= c <= 'Z') ==> 'a' <= l <= 'z'
    ensures !('A' <= c <= 'Z') ==> l == c
  {
    if 'A' <= c <= 'Z' then (c as int + 32) as char else c
  }

  function Lower(s: string): string {
    seq(|s|, i requires 0 <= i < |s| => LowerChar(s[i]))
  }

  const Image := "image"
  const Document := "document"
  const WordDocument := "word_document"
  const ExcelDocument := "excel_document"
  const Other := "other"

  const ImageExts := [".jpg", ".jpeg", ".png"]
  const DocumentExts := [".pdf"]
  const WordExts := [".docx", ".doc"]
  const ExcelExts := [".xlsx", ".xls"]

  lemma LabelsDistinct()
    ensures Image != Document && Image != WordDocument && Image != ExcelDocument && Image != Other
    ensures Document != WordDocument && Document != ExcelDocument && Document != Other
    ensures WordDocument != ExcelDocument && WordDocument != Other && ExcelDocument != Other
  {
    assert |Image| == 5 && |Document| == 8 && |WordDocument| == 13 && |ExcelDocument| == 14 && |Other| == 5;
    assert Image[0] != Other[0];
  }

  /** The label of an already lower-cased extension: the first list that holds it decides. */
  function LabelOfExt(ext: string): (l: string)
    ensures l in {Image, Document, WordDocument, ExcelDocument, Other}
    ensures l == Image <==> ext in ImageExts
    ensures l == Document <==> ext in DocumentExts
    ensures l == WordDocument <==> ext in WordExts
    ensures l == ExcelDocument <==> ext in ExcelExts
    ensures l == Other <==> ext !in ImageExts + DocumentExts + WordExts + ExcelExts
  {
    LabelsDistinct();
    if ext in ImageExts then Image
    else if ext in DocumentExts then Document
    else if ext in WordExts then WordDocument
    else if ext in ExcelExts then ExcelDocument
    else Other
  }

  /** `simple_label(filename)`: classified by its lower-cased extension. */
  function SimpleLabel(filename: string): (l: string)
    ensures l in {Image, Document, WordDocument, ExcelDocument, Other}
    ensures l == Image <==> Lower(Ext(filename)) in ImageExts
    ensures l == Document <==> Lower(Ext(filename)) in DocumentExts
    ensures l == WordDocument <==> Lower(Ext(filename)) in WordExts
    ensures l == ExcelDocument <==> Lower(Ext(filename)) in ExcelExts
    ensures l == Other <==>
      Lower(Ext(filename)) !in ImageExts + DocumentExts + WordExts + ExcelExts
  {
    LabelOfExt(Lower(Ext(filename)))
  }

  /** Lower-casing moves no dot and no slash. */
  lemma {:induction false} LastIndexOfLower(s: string, c: char)
    requires c == '.' || c == '/'
    ensures LastIndex(Lower(s), c) == LastIndex(s, c)
  {
    if s != [] {
      var t := s[..|s| - 1];
      assert Lower(s)[..|s| - 1] == Lower(t);
      LastIndexOfLower(t, c);
    }
  }

  /** Lower-casing commutes with taking a suffix. */
  lemma LowerSuffix(p: string, i: nat)
    requires i <= |p|
    ensures Lower(p)[i..] == Lower(p[i..])
  {
    var a, b := Lower(p)[i..], Lower(p[i..]);
    forall j | 0 <= j < |a| ensures a[j] == b[j] {
      assert p[i..][j] == p[i + j];
    }
  }

  /** Lower-casing turns no character into a dot and no dot into anything else. */
  lemma HasNonDotOfLower(p: string, lo: int, hi: int)
    requires 0 <= lo && hi <= |p|
    ensures HasNonDot(Lower(p), lo, hi) <==> HasNonDot(p, lo, hi)
  {
    var q := Lower(p);
    forall j | lo <= j < hi ensures (q[j] != '.') == (p[j] != '.') {
    }
  }

  /** Lower-casing twice is lower-casing once. */
  lemma LowerIdempotent(s: string)
    ensures Lower(Lower(s)) == Lower(s)
  {
    forall i | 0 <= i < |s| ensures Lower(Lower(s))[i] == Lower(s)[i] {
    }
  }

  /** Taking the extension commutes with lower-casing. */
  lemma ExtOfLower(p: string)
    ensures Ext(Lower(p)) == Lower(Ext(p))
  {
    LastIndexOfLower(p, '/');
    LastIndexOfLower(p, '.');
    var sep := LastIndex(p, '/');
    var dot := LastIndex(p, '.');
    if dot > sep {
      HasNonDotOfLower(p, sep + 1, dot);
      LowerSuffix(p, dot);
    }
  }

  /** The label ignores letter case: `A.PNG` and `a.png` get the same label. */
  lemma CaseInsensitive(filename: string)
    ensures SimpleLabel(Lower(filename)) == SimpleLabel(filename)
  {
    ExtOfLower(filename);
    LowerIdempotent(Ext(filename));
  }

  /**
   * Only the text after the last dot counts: a stem that ends in an
   * ordinary character, a dot, and a dot-free, slash-free tail give the
   * extension "." + tail, whatever dots the stem holds.
   */
  lemma ExtAfterLastDot(stem: string, tail: string)
    requires stem != [] && stem[|stem| - 1] != '.' && stem[|stem| - 1] != '/'
    requires '.' !in tail && '/' !in tail
    ensures Ext(stem + "." + tail) == "." + tail
  {
    var p := stem + "." + tail;
    assert p[|stem|] == '.';
    assert forall j :: |stem| < j < |p| ==> p[j] == tail[j - |stem| - 1];
    var dot := LastIndex(p, '.');
    assert dot == |stem|;
    var sep := LastIndex(p, '/');
    assert p[|stem| - 1] == stem[|stem| - 1];
    assert sep < |stem| - 1;
    assert HasNonDot(p, sep + 1, dot);
    assert p[dot..] == "." + tail;
  }

  lemma DotFileIsOther()
    ensures SimpleLabel(".png") == Other
  {
    var p := ".png";
    assert p[0] == '.' && p[1] == 'p' && p[2] == 'n' && p[3] == 'g';
    assert LastIndex(p, '.') == 0;
    assert !HasNonDot(p, LastIndex(p, '/') + 1, 0);
    assert Ext(p) == [];
  }

  lemma NoExtensionIsOther()
    ensures SimpleLabel("README") == Other
  {
    var p := "README";
    assert forall j :: 0 <= j < |p| ==> p[j] != '.';
    assert LastIndex(p, '.') == -1;
    assert Ext(p) == [];
  }

  /** A dot in a directory name is not an extension. */
  lemma DotInDirectoryIsOther()
    ensures SimpleLabel("archive.d/notes") == Other
  {
    var p := "archive.d/notes";
    assert p[9] == '/' && p[7] == '.';
    assert forall j :: 9 < j < |p| ==> p[j] != '.';
    assert LastIndex(p, '/') == 9;
    assert LastIndex(p, '.') == 7;
    assert Ext(p) == [];
  }
}
