/**
  The three implementations side by side: which names each discovers, and
  the file name each gives a converted image.
 */
module Comparisons {
  import opened Wrappers
  import opened Text
  import PurePaths
  import OsPaths
  import PyUtils
  import RustUtils
  import Legacy

  /** Finding the last dot does not depend on whether the name is text or an OS string. */
  lemma {:induction false} RFindFromStr(name: string)
    ensures RFind(OsPaths.FromStr(name), OsPaths.Ch('.')) == RFind(name, '.')
  {
    var os := OsPaths.FromStr(name);
    var i := RFind(name, '.');
    if i == -1 {
      assert OsPaths.Ch('.') !in os by {
        forall k | 0 <= k < |os| ensures os[k] != OsPaths.Ch('.') {
          assert os[k] == OsPaths.Ch(name[k]);
        }
      }
    } else {
      assert os[i] == OsPaths.Ch('.');
      assert OsPaths.Ch('.') !in os[i + 1..] by {
        forall k | i + 1 <= k < |os| ensures os[k] != OsPaths.Ch('.') {
          assert name[k] in name[i + 1..];
          assert os[k] == OsPaths.Ch(name[k]);
        }
      }
      RFindIsLast(os, OsPaths.Ch('.'), i);
    }
  }

  /**
    Unless the name ends with its last dot, `Path.stem` (Python) and
    `Path::file_stem` (Rust) agree, so both versions name the converted
    file alike.
   */
  lemma StemsAgree(name: string)
    requires RFind(name, '.') != |name| - 1
    ensures OsPaths.FromStr(PurePaths.Stem(name)) == OsPaths.SplitAtDot(OsPaths.FromStr(name)).0
  {
    RFindFromStr(name);
    var i := RFind(name, '.');
    if 0 < i {
      PythonStemCut(name, i);
      RustStemCut(name, i);
    } else {
      PythonNoStemCut(name);
      assert OsPaths.SplitAtDot(OsPaths.FromStr(name)).0 == OsPaths.FromStr(name);
    }
  }

  lemma PythonStemCut(name: string, i: int)
    requires i == RFind(name, '.') && 0 < i < |name| - 1
    ensures PurePaths.Stem(name) == name[..i]
  {
    assert PurePaths.Suffix(name) == name[i..];
  }

  lemma PythonNoStemCut(name: string)
    requires RFind(name, '.') <= 0
    ensures PurePaths.Stem(name) == name
  {
    assert PurePaths.Suffix(name) == "";
  }

  lemma RustStemCut(name: string, i: int)
    requires i == RFind(name, '.') && 0 < i && RFind(OsPaths.FromStr(name), OsPaths.Ch('.')) == i
    ensures OsPaths.SplitAtDot(OsPaths.FromStr(name)).0 == OsPaths.FromStr(name[..i])
  {
    var os := OsPaths.FromStr(name);
    assert OsPaths.SplitAtDot(os).0 == os[..i];
    assert OsPaths.FromStr(name[..i]) == os[..i];
  }

  /** "a." keeps its dot in Python ("a..webp") and loses it in Rust ("a.webp"). */
  lemma TrailingDotDiffers()
    ensures PurePaths.Stem("a.") == "a."
    ensures OsPaths.SplitAtDot(OsPaths.FromStr("a.")).0 == OsPaths.FromStr("a")
  {
    assert RFind("a.", '.') == 1;
    RFindFromStr("a.");
    assert OsPaths.FromStr("a.")[..1] == OsPaths.FromStr("a");
  }

  /** "photo.PNG" is found only by the Rust version: the others compare case-sensitively. */
  lemma UpperCaseFoundOnlyByRust()
    ensures !PyUtils.IsImageName("photo.PNG")
    ensures RustUtils.IsImageExtension("PNG")
    ensures !Legacy.IsImageName("photo.PNG")
  {
    var n := "photo.PNG";
    assert n[6] == 'P';
    assert !PyUtils.MatchesGlob(n, "png") by { assert n[5..][1] != ".png"[1]; }
    assert !PyUtils.MatchesGlob(n, "jpg") by { assert n[5..][1] != ".jpg"[1]; }
    assert !PyUtils.MatchesGlob(n, "jpeg") by { assert n[4..][0] != ".jpeg"[0]; }
    assert !PyUtils.MatchesGlob(n, "webp") by { assert n[4..][0] != ".webp"[0]; }
    assert !Legacy.IsImageName(n) by {
      assert n[6..][0] != "png"[0] && n[6..][0] != "jpg"[0] && n[5..][0] != "jpeg"[0];
    }
    assert EqIgnoreAsciiCase(RustUtils.ImageExtensions[2], "PNG") by {
      assert Lower("PNG") == "png";
      LowerOfLower("png");
    }
  }

  /** "photo.webp" is found only by the Python version, whose format list includes WebP. */
  lemma WebpFoundOnlyByPython()
    ensures PyUtils.IsImageName("photo.webp")
    ensures !RustUtils.IsImageExtension("webp")
    ensures !Legacy.IsImageName("photo.webp")
  {
    RustUtils.ImageExtensionCases();
    Legacy.NameTestCases();
    PythonFindsWebp();
  }

  /** Rust's `extension` finds nothing in a name without a dot. */
  lemma XpngHasNoExtension()
    ensures OsPaths.SplitAtDot(OsPaths.FromStr("xpng")).1.None?
  {
    var n := OsPaths.FromStr("xpng");
    assert OsPaths.Ch('.') !in n by {
      forall i | 0 <= i < |n| ensures n[i] != OsPaths.Ch('.') {
        assert "xpng"[i] != '.';
      }
    }
  }

  lemma PythonFindsWebp()
    ensures PyUtils.MatchesGlob("photo.webp", "webp")
  {
    var name, pattern := "photo.webp", "." + "webp";
    assert |pattern| == 5 && |name| == 10;
    assert name[5..] == pattern;
  }

  /** "xpng" is found only by the earlier script, which does not ask for a dot. */
  lemma DotlessFoundOnlyByLegacy()
    ensures !PyUtils.IsImageName("xpng")
    ensures Legacy.IsImageName("xpng")
    ensures forall p :: OsPaths.FileName(p) == Some(OsPaths.FromStr("xpng")) ==> !RustUtils.IsImagePath(p)
  {
    Legacy.NameTestCases();
    XpngHasNoExtension();
    var n := "xpng";
    assert n[0] != '.' && n[1] != '.';
    assert !PyUtils.MatchesGlob(n, "jpeg") && !PyUtils.MatchesGlob(n, "webp");
  }
}
