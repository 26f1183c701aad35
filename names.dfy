/**
 * File names as the batch mode treats them: pathlib's `stem` and `suffix`,
 * the output name `stem + "_enhanced" + suffix`, `glob('*' + ext)` as pathlib
 * matches it on POSIX systems (case-sensitively), and the supported
 * extensions.
 */
module Names {

  /** Whether no name occurs twice. */
  predicate Distinct(s: seq<string>) {
    forall i, j :: 0 <= i < j < |s| ==> s[i] != s[j]
  }

  /** Python's `str.rfind(c)`: the last position of `c`, or -1. */
  function LastIndexOf(s: string, c: char): (i: int)
    ensures -1 <= i < |s|
    ensures 0 <= i ==> s[i] == c
    ensures forall k :: i < k < |s| ==> s[k] != c
  {
    if |s| == 0 then -1
    else if s[|s| - 1] == c then |s| - 1
    else LastIndexOf(s[..|s| - 1], c)
  }

  /** pathlib's `suffix`: from the last dot on, unless that dot leads or ends the name. */
  function Suffix(name: string): (sfx: string)
    ensures |sfx| <= |name| && sfx == name[|name| - |sfx|..]
    ensures sfx != "" ==> 2 <= |sfx| < |name| && sfx[0] == '.'
    ensures '.' !in name ==> sfx == ""
  {
    var i := LastIndexOf(name, '.');
    if 0 < i < |name| - 1 then name[i..] else ""
  }

  /** pathlib's `stem`: the name without its suffix. */
  function Stem(name: string): (stem: string)
    ensures |stem| <= |name| && stem == name[..|stem|]
    ensures name != "" ==> stem != ""
    ensures '.' !in name ==> stem == name
  {
    var i := LastIndexOf(name, '.');
    if 0 < i < |name| - 1 then name[..i] else name
  }

  /** Stem and suffix split the name. */
  lemma StemSuffixSplit(name: string)
    ensures Stem(name) + Suffix(name) == name
    ensures Suffix(name) == "" || (Suffix(name)[0] == '.' && '.' !in Suffix(name)[1..])
  {
    var i := LastIndexOf(name, '.');
    if 0 < i < |name| - 1 {
      assert name[..i] + name[i..] == name;
      forall k | 1 <= k < |name[i..]| ensures name[i..][k] != '.' {
        assert name[i..][k] == name[i + k];
      }
    }
  }

  /** The name an enhanced copy is saved under: `f"{stem}_enhanced{suffix}"`. */
  function OutputName(name: string): (out: string)
    ensures |out| == |name| + 9
    ensures out[..|Stem(name)|] == Stem(name) && out[|Stem(name)|..|Stem(name)| + 9] == "_enhanced"
    ensures out[|Stem(name)| + 9..] == Suffix(name)
  {
    StemSuffixSplit(name);
    Stem(name) + "_enhanced" + Suffix(name)
  }

  predicate EndsWith(s: string, t: string) {
    |t| <= |s| && s[|s| - |t|..] == t
  }

  /** An extension pattern: a dot followed by at least one character, none of them a dot. */
  predicate IsPattern(e: string) {
    |e| >= 2 && e[0] == '.' && forall k :: 1 <= k < |e| ==> e[k] != '.'
  }

  /** A name ending in a pattern has its last dot where the pattern starts. */
  lemma {:induction false} LastDotOfPattern(name: string, e: string)
    requires IsPattern(e) && EndsWith(name, e)
    ensures LastIndexOf(name, '.') == |name| - |e|
  {
    var j := |name| - |e|;
    assert name[j] == e[0];
    forall k | j < k < |name| ensures name[k] != '.' {
      assert name[k] == e[k - j];
    }
  }

  /** A name ends in at most one pattern. */
  lemma {:induction false} PatternEndingUnique(name: string, e1: string, e2: string)
    requires IsPattern(e1) && IsPattern(e2) && EndsWith(name, e1) && EndsWith(name, e2)
    ensures e1 == e2
  {
    LastDotOfPattern(name, e1);
    LastDotOfPattern(name, e2);
  }

  /**
   * A name made of more than its pattern has that pattern as its suffix,
   * keeps it in its output name, and the output name's stem is the stem
   * plus `_enhanced`.
   */
  lemma {:induction false} OutputNameOfLong(name: string, e: string)
    requires IsPattern(e) && EndsWith(name, e) && |name| > |e|
    ensures Suffix(name) == e && Stem(name) == name[..|name| - |e|]
    ensures OutputName(name) == name[..|name| - |e|] + "_enhanced" + e
    ensures Suffix(OutputName(name)) == e && Stem(OutputName(name)) == Stem(name) + "_enhanced"
  {
    LastDotOfPattern(name, e);
    var out := OutputName(name);
    assert EndsWith(out, e) by {
      assert out[|out| - |e|..] == e;
    }
    LastDotOfPattern(out, e);
  }

  /**
   * A name that is nothing but its pattern (a dot-file such as `.jpg`) has
   * no suffix, so its output name loses the extension.
   */
  lemma {:induction false} OutputNameOfBare(e: string)
    requires IsPattern(e)
    ensures Suffix(e) == "" && Stem(e) == e
    ensures OutputName(e) == e + "_enhanced"
    ensures Suffix(OutputName(e)) == "" && Stem(OutputName(e)) == OutputName(e)
  {
    LastDotOfPattern(e, e);
    var out := e + "_enhanced";
    assert IsPattern(out) by {
      forall k | 1 <= k < |out| ensures out[k] != '.' {
        if k < |e| { assert out[k] == e[k]; }
      }
    }
    LastDotOfPattern(out, out);
  }

  /**
   * Python's `str.upper()` on ASCII text: every lower-case letter becomes the
   * same letter in upper case, and every other character is kept.
   */
  function Upper(s: string): (u: string)
    ensures |u| == |s|
    ensures forall k :: 0 <= k < |u| ==> !('a' <= u[k] <= 'z')
    ensures forall k :: 0 <= k < |s| && 'a' <= s[k] <= 'z' ==>
      'A' <= u[k] <= 'Z' && u[k] as int - 'A' as int == s[k] as int - 'a' as int
    ensures forall k :: 0 <= k < |s| && !('a' <= s[k] <= 'z') ==> u[k] == s[k]
  {
    seq(|s|, k requires 0 <= k < |s| => if 'a' <= s[k] <= 'z' then (s[k] as int - 32) as char else s[k])
  }

  /** `image_extensions`. */
  const Extensions: seq<string> := [".jpg", ".jpeg", ".png", ".bmp", ".tiff", ".webp"]

  /** The extensions as `ext.upper()` gives them. */
  const UpperExtensions: seq<string> := [".JPG", ".JPEG", ".PNG", ".BMP", ".TIFF", ".WEBP"]

  lemma UpperOfExtensions()
    ensures |UpperExtensions| == |Extensions|
    ensures forall i :: 0 <= i < |Extensions| ==> Upper(Extensions[i]) == UpperExtensions[i]
  {
    forall i | 0 <= i < |Extensions| ensures Upper(Extensions[i]) == UpperExtensions[i] {
      var e, u := Extensions[i], UpperExtensions[i];
      assert |Upper(e)| == |u|;
      forall k | 0 <= k < |e| ensures Upper(e)[k] == u[k] {
      }
    }
  }

  /** The twelve patterns the batch mode globs for: each extension as written and upper-cased. */
  const Patterns: seq<string> := Extensions + UpperExtensions

  /** The facts about the patterns that discovery and naming rely on. */
  lemma PatternFacts()
    ensures |Patterns| == 12
    ensures Distinct(Patterns)
    ensures forall i :: 0 <= i < |Patterns| ==> IsPattern(Patterns[i])
    ensures forall e :: e in Patterns ==> IsPattern(e)
    ensures forall i :: 0 <= i < |Patterns| ==> Patterns[i][|Patterns[i]| - 1] != 'd'
  {
  }

  /** Whether some pattern's glob `'*' + pattern` matches the name. */
  predicate IsImageName(name: string) {
    exists e :: e in Patterns && EndsWith(name, e)
  }

  /**
   * A name is matched exactly when its suffix, or the whole name, is one of
   * the six extensions in lower case or in upper case.
   */
  lemma {:induction false} ImageNameBySuffix(name: string)
    ensures IsImageName(name) <==> (Suffix(name) in Patterns || name in Patterns)
  {
    PatternFacts();
    if IsImageName(name) {
      var e :| e in Patterns && EndsWith(name, e);
      if |name| > |e| {
        OutputNameOfLong(name, e);
      } else {
        assert name == e;
      }
    }
    var sfx := Suffix(name);
    if sfx in Patterns {
      assert sfx == name[LastIndexOf(name, '.')..];
      assert EndsWith(name, sfx);
    }
    if name in Patterns {
      assert EndsWith(name, name);
    }
  }

  /** A name whose suffix is no pattern is not matched. */
  lemma {:induction false} UnmatchedSuffix(name: string, p: string)
    requires IsPattern(p) && EndsWith(name, p) && |name| > |p| && p !in Patterns
    ensures !IsImageName(name)
  {
    PatternFacts();
    OutputNameOfLong(name, p);
    ImageNameBySuffix(name);
    if name in Patterns {
      PatternEndingUnique(name, name, p);
    }
  }

  /** Mixed case and other spellings are not matched. */
  lemma OnlyExactCase()
    ensures !IsImageName("photo.Jpg") && !IsImageName("photo.tif") && !IsImageName("photo.jpg.txt")
  {
    assert EndsWith("photo.Jpg", ".Jpg") && EndsWith("photo.tif", ".tif") && EndsWith("photo.jpg.txt", ".txt");
    UnmatchedSuffix("photo.Jpg", ".Jpg");
    UnmatchedSuffix("photo.tif", ".tif");
    UnmatchedSuffix("photo.jpg.txt", ".txt");
  }

  /** Lower-case and upper-case extensions, and a bare dot-file, are matched. */
  lemma ExactCaseMatched()
    ensures IsImageName("photo.jpg") && IsImageName("photo.JPEG") && IsImageName(".png")
  {
    assert Patterns[0] == ".jpg";
    assert Patterns[7] == ".JPEG";
    assert Patterns[2] == ".png";
    assert EndsWith("photo.jpg", ".jpg");
    assert EndsWith("photo.JPEG", ".JPEG");
    assert EndsWith(".png", ".png");
  }

  /** Undoes `OutputName`: drops the `_enhanced` that ends the stem. */
  function OriginalName(out: string): string {
    var stem := Stem(out);
    if |stem| >= 9 then stem[..|stem| - 9] + Suffix(out) else out
  }

  lemma {:induction false} OriginalOfLong(name: string, e: string)
    requires IsPattern(e) && EndsWith(name, e) && |name| > |e|
    ensures OriginalName(OutputName(name)) == name
  {
    OutputNameOfLong(name, e);
    var stem := name[..|name| - |e|];
    assert Stem(OutputName(name)) == stem + "_enhanced";
    assert (stem + "_enhanced")[..|stem|] == stem;
    assert name == stem + e;
  }

  lemma {:induction false} OriginalOfBare(e: string)
    requires IsPattern(e)
    ensures OriginalName(OutputName(e)) == e
  {
    OutputNameOfBare(e);
    assert (e + "_enhanced")[..|e|] == e;
  }

  /** The original name can be recovered from the output name of every matched name. */
  lemma {:induction false} OriginalOfOutput(name: string)
    requires IsImageName(name)
    ensures OriginalName(OutputName(name)) == name
  {
    PatternFacts();
    var e :| e in Patterns && EndsWith(name, e);
    if |name| > |e| {
      OriginalOfLong(name, e);
    } else {
      OriginalOfBare(e);
    }
  }

  /**
   * Different matched names get different output names, so no enhanced
   * copy overwrites another one from the same batch.
   */
  lemma OutputNameInjective(a: string, b: string)
    ensures IsImageName(a) && IsImageName(b) && OutputName(a) == OutputName(b) ==> a == b
  {
    if IsImageName(a) && IsImageName(b) {
      OriginalOfOutput(a);
      OriginalOfOutput(b);
    }
  }
}
