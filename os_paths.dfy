/**
  The part of Rust's `std::path` that the conversion pipeline uses, on
  Unix. A file name is an OS string: a sequence of characters and of raw
  bytes that are not valid UTF-8, so that `to_str` can fail.
 */
module OsPaths {
  import opened Wrappers
  import opened Text

  /** One unit of an OS string: a decoded character, or a byte outside valid UTF-8. */
  datatype OsUnit = Ch(c: char) | Raw(b: bv8)

  /**
    A raw unit is never an ASCII byte (those always decode, to `Ch`), so
    `.` and `/` appear only as `Ch('.')` and `Ch('/')`.
   */
  predicate Canonical(s: seq<OsUnit>)
  {
    forall i :: 0 <= i < |s| ==> s[i].Ch? || s[i].b >= 0x80
  }

  type OsStr = seq<OsUnit>

  /** The OS string of a Rust `&str`. */
  function FromStr(s: string): (r: OsStr)
    ensures |r| == |s| && forall i :: 0 <= i < |s| ==> r[i] == Ch(s[i])
  {
    seq(|s|, i requires 0 <= i < |s| => Ch(s[i]))
  }

  predicate IsUnicode(s: OsStr) { forall i :: 0 <= i < |s| ==> s[i].Ch? }

  /** `OsStr::to_str`: the text when every unit decodes, `None` otherwise. */
  function ToStr(s: OsStr): (r: Option<string>)
    ensures r.Some? <==> IsUnicode(s)
    ensures r.Some? ==> FromStr(r.value) == s
  {
    if IsUnicode(s) then Some(seq(|s|, i requires 0 <= i < |s| => s[i].c)) else None
  }

  /** A `&str` turned into an OS string reads back as the same text. */
  lemma {:induction false} ToStrFromStr(s: string)
    ensures ToStr(FromStr(s)) == Some(s)
  {
    var r := ToStr(FromStr(s));
    assert r.Some?;
    assert |r.value| == |FromStr(r.value)| == |s|;
    assert forall i :: 0 <= i < |s| ==> r.value[i] == s[i] by {
      forall i | 0 <= i < |s| ensures r.value[i] == s[i] {
        assert FromStr(r.value)[i] == FromStr(s)[i];
      }
    }
    assert r.value == s;
  }

  /** A path component after the root: `..` or a normal name. */
  datatype Component = ParentDir | Normal(name: OsStr)

  /** A path: whether it starts at the root, then its components (`.` and empty ones already dropped). */
  datatype OsPath = OsPath(absolute: bool, parts: seq<Component>)

  predicate ValidName(n: OsStr)
  {
    n != [] && n != FromStr(".") && n != FromStr("..") && Ch('/') !in n && Canonical(n)
  }

  predicate Valid(p: OsPath)
  {
    forall i :: 0 <= i < |p.parts| && p.parts[i].Normal? ==> ValidName(p.parts[i].name)
  }

  /** `Path::file_name`: the last component when it is a normal name. */
  function FileName(p: OsPath): Option<OsStr>
  {
    if p.parts == [] then None
    else match p.parts[|p.parts| - 1]
      case Normal(n) => Some(n)
      case ParentDir => None
  }

  /** `Path::parent`: `None` for the root and for the empty path. */
  function Parent(p: OsPath): Option<OsPath>
  {
    if p.parts == [] then None else Some(OsPath(p.absolute, p.parts[..|p.parts| - 1]))
  }

  /** `Path::join` / `PathBuf::push`: an absolute `q` replaces `p`, a relative one is appended. */
  function Join(p: OsPath, q: OsPath): OsPath
  {
    if q.absolute then q else OsPath(p.absolute, p.parts + q.parts)
  }

  /**
    Splitting a file name at its last dot, as `file_stem` and `extension`
    do: a dot at the very start does not count, so ".png" has no extension.
   */
  function SplitAtDot(n: OsStr): (r: (OsStr, Option<OsStr>))
    ensures r.1.None? ==> r.0 == n
    ensures r.1.Some? ==> n == r.0 + [Ch('.')] + r.1.value && r.0 != [] && Ch('.') !in r.1.value
  {
    var d := RFind(n, Ch('.'));
    if d <= 0 then (n, None)
    else
      assert n == n[..d] + [Ch('.')] + n[d + 1..];
      (n[..d], Some(n[d + 1..]))
  }

  /** `Path::extension`. */
  function Extension(p: OsPath): Option<OsStr>
  {
    match FileName(p)
    case None => None
    case Some(n) => SplitAtDot(n).1
  }

  /** `Path::file_stem`. */
  function FileStem(p: OsPath): Option<OsStr>
  {
    match FileName(p)
    case None => None
    case Some(n) => Some(SplitAtDot(n).0)
  }

  /** The file name `set_extension` builds from a stem and an extension. */
  function StemWithExtension(stem: OsStr, ext: OsStr): OsStr
  {
    if ext == [] then stem else stem + [Ch('.')] + ext
  }

  /** The path with its last component replaced by the normal name `n`. */
  function WithFileName(p: OsPath, n: OsStr): (r: OsPath)
    requires p.parts != []
    ensures r.absolute == p.absolute && Parent(r) == Parent(p) && FileName(r) == Some(n)
  {
    var r := OsPath(p.absolute, p.parts[..|p.parts| - 1] + [Normal(n)]);
    assert r.parts[..|r.parts| - 1] == p.parts[..|p.parts| - 1];
    r
  }

  /**
    `PathBuf::set_extension(ext)`: a path without a file name is left as it
    is; otherwise the file name becomes the stem, then "." and `ext` unless
    `ext` is empty.
   */
  function SetExtension(p: OsPath, ext: OsStr): (r: OsPath)
    ensures FileName(p).None? ==> r == p
    ensures FileName(p).Some? ==>
      && Parent(r) == Parent(p) && r.absolute == p.absolute
      && FileName(r) == Some(StemWithExtension(FileStem(p).value, ext))
  {
    match FileName(p)
    case None => p
    case Some(n) => WithFileName(p, StemWithExtension(SplitAtDot(n).0, ext))
  }

  /** A stem that is not empty, with a dot and a dot-free extension after it, splits back into the two. */
  lemma SplitJoined(stem: OsStr, ext: OsStr)
    requires stem != [] && Ch('.') !in ext
    ensures SplitAtDot(stem + [Ch('.')] + ext) == (stem, Some(ext))
  {
    var n := stem + [Ch('.')] + ext;
    assert n[|stem|] == Ch('.');
    assert n[|stem| + 1..] == ext;
    RFindIsLast(n, Ch('.'), |stem|);
    assert n[..|stem|] == stem;
  }

  /**
    Setting a non-empty, dot-free extension and reading it back gives that
    extension, and leaves the stem as it was.
   */
  lemma SetExtensionThenExtension(p: OsPath, ext: OsStr)
    requires FileName(p).Some? && FileName(p).value != [] && ext != [] && Ch('.') !in ext
    ensures Extension(SetExtension(p, ext)) == Some(ext)
    ensures FileStem(SetExtension(p, ext)) == FileStem(p)
  {
    var n := FileName(p).value;
    var stem := SplitAtDot(n).0;
    assert stem != [];
    var q := SetExtension(p, ext);
    var m := StemWithExtension(stem, ext);
    assert FileName(q) == Some(m);
    assert m == stem + [Ch('.')] + ext;
    SplitJoined(stem, ext);
    assert SplitAtDot(m) == (stem, Some(ext));
    assert Extension(q) == Some(ext);
    assert FileStem(q) == Some(stem);
  }

  /** `p` lies at or below `base` component by component. */
  predicate IsUnder(p: OsPath, base: OsPath)
  {
    p.absolute == base.absolute && |base.parts| <= |p.parts| && p.parts[..|base.parts|] == base.parts
  }

  /** `Path::strip_prefix`'s error. */
  datatype StripPrefixError = StripPrefixError

  /**
    `p.strip_prefix(base)`: the components of `p` after those of `base`.
    The empty relative path is a prefix of every path, so stripping it
    returns `p` unchanged, root included.
   */
  function StripPrefix(p: OsPath, base: OsPath): (r: Result<OsPath, StripPrefixError>)
    ensures r.Ok? <==> IsUnder(p, base) || (!base.absolute && base.parts == [])
    ensures r.Ok? ==> Join(base, r.value) == p
  {
    if IsUnder(p, base) then
      var rel := OsPath(false, p.parts[|base.parts|..]);
      assert base.parts + rel.parts == p.parts;
      Ok(rel)
    else if !base.absolute && base.parts == [] then Ok(p)
    else Err(StripPrefixError)
  }
}
