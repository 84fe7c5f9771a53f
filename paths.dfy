/**
 * The sidecar lyrics files of a track: `parent/stem.txt` and `parent/stem.lrc`
 * next to the audio file, with `Path::parent`, `Path::file_stem` and
 * `Path::join` over '/'-separated paths.
 */
module Paths {
  import opened Wrappers
  import opened Text

  /** The position of the last occurrence of `c` in `s`. */
  function LastIndexOf(s: string, c: char): (r: Option<nat>)
    ensures r.Some? ==> r.value < |s| && s[r.value] == c && forall j :: r.value < j < |s| ==> s[j] != c
    ensures r.None? ==> forall j :: 0 <= j < |s| ==> s[j] != c
  {
    if s == [] then Option.None
    else if s[|s| - 1] == c then Some(|s| - 1)
    else LastIndexOf(s[..|s| - 1], c)
  }

  /** The parent directory with its separator (empty for a bare file name), so that joining is concatenation. */
  function DirPrefix(p: string): string {
    match LastIndexOf(p, '/')
    case Some(i) => p[..i + 1]
    case None => ""
  }

  /** The final component. */
  function FileName(p: string): (r: string)
    ensures forall j :: 0 <= j < |r| ==> r[j] != '/'
    ensures p == DirPrefix(p) + r
  {
    match LastIndexOf(p, '/')
    case Some(i) => p[i + 1..]
    case None => p
  }

  /** A final component that `Path::file_name` reports (not empty, `.` or `..`). */
  predicate IsNormalName(name: string) {
    name != "" && name != "." && name != ".."
  }

  predicate HasFileName(p: string) {
    IsNormalName(FileName(p))
  }

  /** `Path::file_stem` of a normal name: up to the last '.', unless that dot leads the name or there is none. */
  function FileStem(name: string): (r: string)
    requires IsNormalName(name)
    ensures r != []
    ensures |r| <= |name| && r == name[..|r|]
  {
    match LastIndexOf(name, '.')
    case Some(i) => if i == 0 then name else name[..i]
    case None => name
  }

  /** The stem of a track path, or the empty string when it has no file name. */
  function StemOf(p: string): string {
    if HasFileName(p) then FileStem(FileName(p)) else ""
  }

  /** `parent.join(format!("{stem}.{ext}"))`. */
  function SidecarPath(p: string, ext: string): string {
    DirPrefix(p) + StemOf(p) + "." + ext
  }

  /** build_txt_path. */
  function BuildTxtPath(p: string): string
    requires HasFileName(p)
  {
    SidecarPath(p, "txt")
  }

  /** build_lrc_path. */
  function BuildLrcPath(p: string): string
    requires HasFileName(p)
  {
    SidecarPath(p, "lrc")
  }

  lemma {:induction false} LastIndexOfAppend(s: string, t: string, c: char)
    requires forall j :: 0 <= j < |t| ==> t[j] != c
    ensures LastIndexOf(s + t, c) == LastIndexOf(s, c)
    decreases |t|
  {
    if t != [] {
      assert (s + t)[..|s + t| - 1] == s + t[..|t| - 1];
      LastIndexOfAppend(s, t[..|t| - 1], c);
    } else {
      assert s + t == s;
    }
  }

  /** The parent and the file name of `prefix + name`, for a name without separators. */
  lemma SplitAtLastSlash(prefix: string, name: string)
    requires prefix == DirPrefix(prefix)
    requires forall j :: 0 <= j < |name| ==> name[j] != '/'
    ensures DirPrefix(prefix + name) == prefix
    ensures FileName(prefix + name) == name
  {
    LastIndexOfAppend(prefix, name, '/');
    var s := prefix + name;
    match LastIndexOf(prefix, '/')
    case Some(i) =>
      assert prefix[..i + 1] == prefix;
      assert i + 1 == |prefix|;
      assert s[..|prefix|] == prefix;
      assert s[|prefix|..] == name;
    case None =>
      assert prefix == [];
      assert s == name;
  }

  lemma DirPrefixIsOwnPrefix(p: string)
    ensures DirPrefix(DirPrefix(p)) == DirPrefix(p)
  {
    match LastIndexOf(p, '/')
    case Some(i) =>
      var d := p[..i + 1];
      assert d[..|d| - 1] == p[..i];
    case None =>
  }

  /** A stem followed by a dot and an extension without dots has that stem again. */
  lemma StemOfExtended(stem: string, ext: string)
    requires stem != []
    requires forall j :: 0 <= j < |stem| ==> stem[j] != '/'
    requires |ext| == 3 && forall j :: 0 <= j < |ext| ==> ext[j] != '.' && ext[j] != '/'
    ensures IsNormalName(stem + "." + ext)
    ensures FileStem(stem + "." + ext) == stem
  {
    var name := stem + "." + ext;
    LastIndexOfAppend(stem + ".", ext, '.');
    assert LastIndexOf(stem + ".", '.') == Some(|stem|);
    assert name[..|stem|] == stem;
    assert |name| >= 5;
  }

  /**
   * The two sidecars of a track share its parent and its stem and differ only
   * in the extension: each one's parent is the track's parent, each one's stem
   * is the track's stem, and they are distinct paths.
   */
  lemma SidecarPathsShape(p: string)
    requires HasFileName(p)
    ensures var txt := BuildTxtPath(p);
            var lrc := BuildLrcPath(p);
            && DirPrefix(txt) == DirPrefix(p) && DirPrefix(lrc) == DirPrefix(p)
            && HasFileName(txt) && HasFileName(lrc)
            && StemOf(txt) == StemOf(p) && StemOf(lrc) == StemOf(p)
            && FileName(txt) == StemOf(p) + "." + "txt" && FileName(lrc) == StemOf(p) + "." + "lrc"
            && txt != lrc
  {
    TxtSidecar(p);
    LrcSidecar(p);
    SidecarsDistinct(p);
  }

  lemma TxtSidecar(p: string)
    requires HasFileName(p)
    ensures var txt := BuildTxtPath(p);
            DirPrefix(txt) == DirPrefix(p) && HasFileName(txt) && StemOf(txt) == StemOf(p)
            && FileName(txt) == StemOf(p) + "." + "txt"
  {
    SidecarOf(p, "txt");
  }

  lemma LrcSidecar(p: string)
    requires HasFileName(p)
    ensures var lrc := BuildLrcPath(p);
            DirPrefix(lrc) == DirPrefix(p) && HasFileName(lrc) && StemOf(lrc) == StemOf(p)
            && FileName(lrc) == StemOf(p) + "." + "lrc"
  {
    SidecarOf(p, "lrc");
  }

  /** One sidecar: its parent and stem are the track's, and its file name is the stem, a dot and the extension. */
  lemma SidecarOf(p: string, ext: string)
    requires HasFileName(p)
    requires |ext| == 3 && forall j :: 0 <= j < 3 ==> ext[j] != '.' && ext[j] != '/'
    ensures var s := SidecarPath(p, ext);
            && DirPrefix(s) == DirPrefix(p)
            && HasFileName(s)
            && StemOf(s) == StemOf(p)
            && FileName(s) == StemOf(p) + "." + ext
  {
    var name := FileName(p);
    var stem := FileStem(name);
    var dir := DirPrefix(p);
    assert StemOf(p) == stem;
    DirPrefixIsOwnPrefix(p);
    assert forall j :: 0 <= j < |stem| ==> stem[j] == name[j];
    var sidecarName := stem + "." + ext;
    var s := SidecarPath(p, ext);
    assert s == dir + sidecarName;
    SplitAtLastSlash(dir, sidecarName);
    StemOfExtended(stem, ext);
  }

  /** The two sidecars of a track are different files. */
  lemma SidecarsDistinct(p: string)
    requires HasFileName(p)
    ensures BuildTxtPath(p) != BuildLrcPath(p)
  {
    var x := DirPrefix(p) + StemOf(p) + ".";
    assert BuildTxtPath(p) == x + "txt";
    assert BuildLrcPath(p) == x + "lrc";
    assert (x + "txt")[|x|] == 't' && (x + "lrc")[|x|] == 'l';
  }
}
