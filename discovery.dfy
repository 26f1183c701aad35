/**
 * Finding the images of a folder: for each supported extension, in the
 * order the extension set yields them, the entries matched by
 * `glob('*' + ext)` and then those matched by `glob('*' + ext.upper())`.
 */
module Discovery {
  import opened Names

  /** `Path.glob('*' + pattern)` over one directory's entries, in listing order. */
  function Glob(listing: seq<string>, pattern: string): (found: seq<string>)
    ensures |found| <= |listing|
    ensures forall n :: n in found <==> n in listing && EndsWith(n, pattern)
    ensures Distinct(listing) ==> Distinct(found)
  {
    if |listing| == 0 then []
    else
      var rest := Glob(listing[1..], pattern);
      assert Distinct(listing) ==> Distinct(listing[1..]) && listing[0] !in listing[1..];
      if EndsWith(listing[0], pattern) then [listing[0]] + rest else rest
  }

  /** The results of globbing for several patterns, one after the other. */
  function GlobAll(listing: seq<string>, patterns: seq<string>): (found: seq<string>)
    ensures forall n :: n in found ==> n in listing
  {
    if |patterns| == 0 then []
    else GlobAll(listing, patterns[..|patterns| - 1]) + Glob(listing, patterns[|patterns| - 1])
  }

  /** Whether the name ends in one of the patterns. */
  predicate MatchesAny(name: string, patterns: seq<string>) {
    exists p :: p in patterns && EndsWith(name, p)
  }

  lemma DistinctConcat(a: seq<string>, b: seq<string>)
    requires Distinct(a) && Distinct(b)
    requires forall x :: x in a ==> x !in b
    ensures Distinct(a + b)
  {
    var c := a + b;
    forall i, j | 0 <= i < j < |c| ensures c[i] != c[j] {
      if i < |a| && |a| <= j {
        assert c[i] in a && c[j] == b[j - |a|];
      } else if |a| <= i {
        assert c[i] == b[i - |a|] && c[j] == b[j - |a|];
      }
    }
  }

  /**
   * A name is found exactly when it is listed and ends in one of the
   * patterns; when the patterns are distinct extension patterns, no listed
   * name is found twice.
   */
  lemma {:induction false} GlobAllSpec(listing: seq<string>, patterns: seq<string>)
    ensures forall n :: n in GlobAll(listing, patterns) <==> n in listing && MatchesAny(n, patterns)
    ensures Distinct(listing) && Distinct(patterns) && (forall p :: p in patterns ==> IsPattern(p)) ==>
      Distinct(GlobAll(listing, patterns))
    decreases |patterns|
  {
    if |patterns| > 0 {
      var init, last := patterns[..|patterns| - 1], patterns[|patterns| - 1];
      assert patterns == init + [last];
      GlobAllSpec(listing, init);
      var earlier, now := GlobAll(listing, init), Glob(listing, last);
      forall n ensures n in GlobAll(listing, patterns) <==> n in listing && MatchesAny(n, patterns) {
        if n in listing && MatchesAny(n, patterns) {
          var p :| p in patterns && EndsWith(n, p);
          if p != last {
            assert p in init;
          }
        }
      }
      if Distinct(listing) && Distinct(patterns) && (forall p :: p in patterns ==> IsPattern(p)) {
        assert Distinct(init) by {
          forall i, j | 0 <= i < j < |init| ensures init[i] != init[j] {
            assert init[i] == patterns[i] && init[j] == patterns[j];
          }
        }
        forall x | x in earlier ensures x !in now {
          var p :| p in init && EndsWith(x, p);
          if x in now {
            PatternEndingUnique(x, p, last);
          }
        }
        DistinctConcat(earlier, now);
      }
    }
  }

  /** The patterns globbed for an ordering of the extensions: each extension, then its upper case. */
  function PatternsOf(order: seq<string>): (ps: seq<string>)
    ensures |ps| == 2 * |order|
  {
    if |order| == 0 then []
    else PatternsOf(order[..|order| - 1]) + [order[|order| - 1], Upper(order[|order| - 1])]
  }

  /** A possible iteration order of the extension set: every extension exactly once. */
  predicate IsSetOrder(order: seq<string>) {
    |order| == |Extensions| && Distinct(order) &&
    (forall e :: e in order ==> e in Extensions) && (forall e :: e in Extensions ==> e in order)
  }

  /** The names the batch mode finds in a directory listing. */
  function Discover(listing: seq<string>, order: seq<string>): (found: seq<string>)
    ensures forall n :: n in found ==> n in listing
  {
    GlobAll(listing, PatternsOf(order))
  }

  /** The patterns of a set of extensions are the extensions and their upper cases. */
  lemma {:induction false} PatternsOfMembers(order: seq<string>)
    requires forall e :: e in order ==> e in Extensions
    ensures forall p :: p in PatternsOf(order) <==> exists e :: e in order && (p == e || p == Upper(e))
  {
    if |order| > 0 {
      var init, last := order[..|order| - 1], order[|order| - 1];
      assert order == init + [last];
      PatternsOfMembers(init);
    }
  }

  /** The upper case of an extension is the upper-case pattern at the same position. */
  lemma UpperPattern(e: string)
    requires e in Extensions
    ensures Upper(e) in Patterns
    ensures forall i :: 0 <= i < |Extensions| && Extensions[i] == e ==> Upper(e) == Patterns[i + |Extensions|]
  {
    UpperOfExtensions();
  }

  /** Two different extensions share no pattern, and no extension is its own upper case. */
  lemma ApartPatterns(e1: string, e2: string)
    requires e1 in Extensions && e2 in Extensions
    ensures e1 != Upper(e1)
    ensures e1 != e2 ==> e1 != Upper(e2) && Upper(e1) != e2 && Upper(e1) != Upper(e2)
  {
    PatternFacts();
    var i :| 0 <= i < |Extensions| && Extensions[i] == e1;
    var j :| 0 <= j < |Extensions| && Extensions[j] == e2;
    UpperPattern(e1);
    UpperPattern(e2);
    assert Patterns[i] == e1 && Patterns[j] == e2;
    assert Patterns[i + 6] == Upper(e1) && Patterns[j + 6] == Upper(e2);
  }

  /** Distinct extensions give distinct patterns. */
  lemma {:induction false} PatternsOfDistinct(order: seq<string>)
    requires Distinct(order) && forall e :: e in order ==> e in Extensions
    ensures Distinct(PatternsOf(order))
    ensures forall p :: p in PatternsOf(order) ==> p in Patterns
  {
    if |order| > 0 {
      var init, last := order[..|order| - 1], order[|order| - 1];
      assert order == init + [last];
      assert Distinct(init) by {
        forall i, j | 0 <= i < j < |init| ensures init[i] != init[j] {
          assert init[i] == order[i] && init[j] == order[j];
        }
      }
      PatternsOfDistinct(init);
      PatternsOfMembers(init);
      var ps := PatternsOf(init);
      assert last in order;
      UpperPattern(last);
      ApartPatterns(last, last);
      forall e | e in init ensures e != last && e != Upper(last) && Upper(e) != last && Upper(e) != Upper(last) {
        var j :| 0 <= j < |init| && init[j] == e;
        assert order[j] == e;
        ApartPatterns(e, last);
      }
      DistinctConcat(ps, [last, Upper(last)]);
    }
  }

  /**
   * Under any iteration order of the extension set, a listed name is found
   * exactly when it ends in a supported extension written in lower case or
   * in upper case, and no listed name is found twice.
   */
  lemma DiscoverSpec(listing: seq<string>, order: seq<string>)
    requires IsSetOrder(order)
    ensures forall n :: n in Discover(listing, order) <==> n in listing && IsImageName(n)
    ensures Distinct(listing) ==> Distinct(Discover(listing, order))
  {
    PatternFacts();
    PatternsOfMembers(order);
    PatternsOfDistinct(order);
    UpperOfExtensions();
    var ps := PatternsOf(order);
    GlobAllSpec(listing, ps);
    forall n ensures MatchesAny(n, ps) <==> IsImageName(n) {
      if IsImageName(n) {
        var p :| p in Patterns && EndsWith(n, p);
        var i :| 0 <= i < |Patterns| && Patterns[i] == p;
        if i < 6 {
          assert Extensions[i] in order;
        } else {
          assert Upper(Extensions[i - 6]) == p;
          assert Extensions[i - 6] in order;
        }
      }
    }
  }
}
