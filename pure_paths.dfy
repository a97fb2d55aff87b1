/**
  The part of Python's `pathlib` that the conversion pipeline uses, on
  POSIX: a path is an anchor flag and a list of parts (pathlib has already
  dropped empty parts and "." parts, and parts never hold '/').
 */
module PurePaths {
  import opened Wrappers
  import opened Text

  datatype PurePath = PurePath(absolute: bool, parts: seq<string>)

  predicate ValidPart(s: string) { s != "" && s != "." && '/' !in s }

  predicate Valid(p: PurePath) { forall i :: 0 <= i < |p.parts| ==> ValidPart(p.parts[i]) }

  /** The `ValueError`s pathlib raises in the operations below. */
  datatype PathError = NotRelative | EmptyName | InvalidSuffix

  /** `p.name`: the last part, or "" for "/" and ".". */
  function Name(p: PurePath): string
  {
    if p.parts == [] then "" else p.parts[|p.parts| - 1]
  }

  /** `p.parent`: the path without its last part; "/" and "." are their own parents. */
  function Parent(p: PurePath): PurePath
  {
    if p.parts == [] then p else PurePath(p.absolute, p.parts[..|p.parts| - 1])
  }

  /** `p / name` for a single part `name`. */
  function Child(p: PurePath, name: string): PurePath
  {
    PurePath(p.absolute, p.parts + [name])
  }

  /** `p / q`: an absolute `q` replaces `p`, a relative one is appended. */
  function Join(p: PurePath, q: PurePath): PurePath
  {
    if q.absolute then q else PurePath(p.absolute, p.parts + q.parts)
  }

  /** `p` lies at or below `base`: same anchor, and the parts of `base` begin those of `p`. */
  predicate IsUnder(p: PurePath, base: PurePath)
  {
    p.absolute == base.absolute && |base.parts| <= |p.parts| && p.parts[..|base.parts|] == base.parts
  }

  /** `p.relative_to(base)`. */
  function RelativeTo(p: PurePath, base: PurePath): (r: Result<PurePath, PathError>)
    ensures r.Ok? <==> IsUnder(p, base)
    ensures r.Err? ==> r.error == NotRelative
    ensures r.Ok? ==> !r.value.absolute && Join(base, r.value) == p
  {
    if IsUnder(p, base) then
      var rel := PurePath(false, p.parts[|base.parts|..]);
      assert base.parts + rel.parts == p.parts;
      Ok(rel)
    else Err(NotRelative)
  }

  /** `PurePath(name).suffix`: from the last '.', unless that dot is first or last. */
  function Suffix(name: string): (s: string)
    ensures s == "" || (2 <= |s| < |name| && s[0] == '.' && EndsWith(name, s) && '.' !in s[1..])
  {
    var i := RFind(name, '.');
    if 0 < i < |name| - 1 then name[i..] else ""
  }

  /** The name with its suffix removed (`stem`). */
  function Stem(name: string): string
  {
    name[..|name| - |Suffix(name)|]
  }

  /** The suffixes `with_suffix` accepts: "" or a dot followed by something, without '/'. */
  predicate ValidSuffix(suffix: string)
  {
    '/' !in suffix && (suffix == "" || (suffix[0] == '.' && suffix != "."))
  }

  /** `p.with_suffix(suffix)`. */
  function WithSuffix(p: PurePath, suffix: string): (r: Result<PurePath, PathError>)
    ensures r.Ok? <==> ValidSuffix(suffix) && Name(p) != ""
    ensures !ValidSuffix(suffix) ==> r == Err(InvalidSuffix)
    ensures r.Ok? ==> r.value.absolute == p.absolute && Parent(r.value) == Parent(p)
                      && Name(r.value) == Stem(Name(p)) + suffix
  {
    if !ValidSuffix(suffix) then Err(InvalidSuffix)
    else if Name(p) == "" then Err(EmptyName)
    else Ok(PurePath(p.absolute, p.parts[..|p.parts| - 1] + [Stem(Name(p)) + suffix]))
  }

  /** A stem is never empty when the name is not. */
  lemma StemNotEmpty(name: string)
    requires name != ""
    ensures Stem(name) != ""
  {
  }

  /**
    Replacing the suffix with a proper one and reading the suffix back gives
    the new suffix: `p.with_suffix(s).suffix == s`.
   */
  lemma WithSuffixThenSuffix(p: PurePath, suffix: string)
    requires Name(p) != "" && |suffix| >= 2 && suffix[0] == '.' && '.' !in suffix[1..] && '/' !in suffix
    ensures WithSuffix(p, suffix).Ok? && Suffix(Name(WithSuffix(p, suffix).value)) == suffix
  {
    var stem := Stem(Name(p));
    StemNotEmpty(Name(p));
    var name := stem + suffix;
    assert name[|stem|] == '.';
    assert name[|stem| + 1..] == suffix[1..];
    RFindIsLast(name, '.', |stem|);
    assert name[|stem|..] == suffix;
  }
}
