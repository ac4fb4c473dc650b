/**
 * Store slugs (src/utils/slugUtils.js): the normaliser that turns a store name into a
 * URL slug, and the validator for `^[a-z0-9]+(?:-[a-z0-9]+)*$`.
 */
module Slug {
  import opened Text

  predicate Alnum(c: char) { IsLowerAlpha(c) || IsDigit(c) }
  predicate SlugChar(c: char) { Alnum(c) || c == '-' }

  predicate AllSlugChars(s: string) { forall i :: 0 <= i < |s| ==> SlugChar(s[i]) }

  predicate NoDoubleHyphen(s: string) {
    forall i :: 0 <= i < |s| - 1 ==> !(s[i] == '-' && s[i + 1] == '-')
  }

  predicate NoEdgeHyphen(s: string) {
    s != [] ==> s[0] != '-' && s[|s| - 1] != '-'
  }

  /** The shape every slug has: only `[a-z0-9-]`, hyphens single and never at either end. */
  predicate SlugShaped(s: string) {
    AllSlugChars(s) && NoDoubleHyphen(s) && NoEdgeHyphen(s)
  }

  /** `.replace(/[^a-z0-9-]/g, '-')` */
  function HyphenateOthers(s: string): (r: string)
    ensures |r| == |s| && AllSlugChars(r)
    ensures forall i :: 0 <= i < |s| ==> r[i] == if SlugChar(s[i]) then s[i] else '-'
  {
    if s == [] then [] else [if SlugChar(s[0]) then s[0] else '-'] + HyphenateOthers(s[1..])
  }

  /** `.replace(/-+/g, '-')`: every run of hyphens becomes one hyphen. */
  function CollapseHyphens(s: string): (r: string)
    ensures |r| <= |s| && (r == [] <==> s == [])
    ensures r != [] ==> r[0] == s[0] && r[|r| - 1] == s[|s| - 1]
    ensures AllSlugChars(s) ==> AllSlugChars(r)
    ensures NoDoubleHyphen(r)
    ensures NoDoubleHyphen(s) ==> r == s
  {
    if s == [] then []
    else if |s| >= 2 && s[0] == '-' && s[1] == '-' then CollapseHyphens(s[1..])
    else [s[0]] + CollapseHyphens(s[1..])
  }

  /** `.replace(/^-|-$/g, '')`: drops one hyphen at the start and one at the end. */
  function StripEdgeHyphens(s: string): (r: string)
    ensures NoDoubleHyphen(s) ==> NoEdgeHyphen(r) && NoDoubleHyphen(r)
    ensures AllSlugChars(s) ==> AllSlugChars(r)
    ensures NoEdgeHyphen(s) ==> r == s
  {
    var a := if s != [] && s[0] == '-' then s[1..] else s;
    if a != [] && a[|a| - 1] == '-' then a[..|a| - 1] else a
  }

  /** `generateStoreSlug(storeName)`; the empty name gives the empty slug. */
  function GenerateStoreSlug(storeName: string): (slug: string)
    ensures storeName == "" ==> slug == ""
    ensures SlugShaped(slug)
  {
    if storeName == "" then ""
    else StripEdgeHyphens(CollapseHyphens(HyphenateOthers(Trim(Lower(storeName)))))
  }

  /** Length of the longest prefix of letters and digits. */
  function AlnumRun(s: string): (k: nat)
    ensures k <= |s|
    ensures forall i :: 0 <= i < k ==> Alnum(s[i])
    ensures k < |s| ==> !Alnum(s[k])
  {
    if s == [] || !Alnum(s[0]) then 0 else 1 + AlnumRun(s[1..])
  }

  /** Whether the whole of s matches `[a-z0-9]+(?:-[a-z0-9]+)*`, read left to right. */
  predicate MatchesSlugPattern(s: string)
    decreases |s|
  {
    var k := AlnumRun(s);
    k > 0 && (k == |s| || (s[k] == '-' && MatchesSlugPattern(s[k + 1..])))
  }

  /** `validateStoreSlug(slug)`. */
  predicate ValidateStoreSlug(slug: string): (valid: bool)
    ensures valid <==> slug != "" && SlugShaped(slug)
  {
    PatternIsShape(slug);
    slug != "" && MatchesSlugPattern(slug)
  }

  /** The regular expression accepts exactly the non-empty slug-shaped strings. */
  lemma {:induction false} PatternIsShape(s: string)
    ensures MatchesSlugPattern(s) <==> s != [] && SlugShaped(s)
    decreases |s|
  {
    var k := AlnumRun(s);
    if k == 0 || k == |s| {
      if k == |s| && k > 0 {
        assert forall i :: 0 <= i < |s| ==> s[i] != '-';
      }
      if k == 0 && s != [] {
        assert !Alnum(s[0]);
      }
    } else {
      var rest := s[k + 1..];
      PatternIsShape(rest);
      if MatchesSlugPattern(s) {
        assert rest != [] && SlugShaped(rest);
        forall i | 0 <= i < |s| ensures SlugChar(s[i]) {
          if i > k { assert s[i] == rest[i - k - 1]; }
        }
        forall i | 0 <= i < |s| - 1 ensures !(s[i] == '-' && s[i + 1] == '-') {
          if i > k { assert s[i] == rest[i - k - 1] && s[i + 1] == rest[i - k]; }
          if i == k { assert s[i + 1] == rest[0]; }
        }
        assert s[|s| - 1] == rest[|rest| - 1];
      }
      if s != [] && SlugShaped(s) {
        assert s[k] == '-' by { assert SlugChar(s[k]); }
        assert k + 1 < |s|;
        assert rest[0] == s[k + 1];
        forall i | 0 <= i < |rest| ensures SlugChar(rest[i]) {
          assert rest[i] == s[i + k + 1];
        }
        forall i | 0 <= i < |rest| - 1 ensures !(rest[i] == '-' && rest[i + 1] == '-') {
          assert rest[i] == s[i + k + 1] && rest[i + 1] == s[i + k + 2];
        }
        assert rest[|rest| - 1] == s[|s| - 1];
      }
    }
  }

  /** Every non-empty slug the normaliser produces passes the validator. */
  lemma GeneratedSlugValidates(storeName: string)
    requires GenerateStoreSlug(storeName) != ""
    ensures ValidateStoreSlug(GenerateStoreSlug(storeName))
  {
    PatternIsShape(GenerateStoreSlug(storeName));
  }

  lemma TrimUnspaced(s: string)
    requires s != [] ==> !IsSpace(s[0]) && !IsSpace(s[|s| - 1])
    ensures Trim(s) == s
  {
  }

  /** A string that already has the slug shape is its own slug. */
  lemma SlugOfSlugShaped(s: string)
    requires SlugShaped(s)
    ensures GenerateStoreSlug(s) == s
  {
    if s != "" {
      assert Lower(s) == s by {
        forall i | 0 <= i < |s| ensures !IsUpperAlpha(s[i]) {
          SlugCharPlain(s[i]);
        }
        LowerOfLower(s);
      }
      assert Trim(s) == s by {
        SlugCharPlain(s[0]);
        SlugCharPlain(s[|s| - 1]);
        TrimUnspaced(s);
      }
      HyphenateSlugChars(s);
    }
  }

  /** A slug character is neither upper case nor white space. */
  lemma SlugCharPlain(c: char)
    requires SlugChar(c)
    ensures !IsUpperAlpha(c) && !IsSpace(c)
  {
  }

  lemma HyphenateSlugChars(s: string)
    requires AllSlugChars(s)
    ensures HyphenateOthers(s) == s
  {
  }

  /** The normaliser is idempotent. */
  lemma GenerateStoreSlugIdempotent(storeName: string)
    ensures GenerateStoreSlug(GenerateStoreSlug(storeName)) == GenerateStoreSlug(storeName)
  {
    SlugOfSlugShaped(GenerateStoreSlug(storeName));
  }

  /** A slug the validator accepts is left unchanged by the normaliser: the two round-trip. */
  lemma ValidSlugIsFixedPoint(slug: string)
    requires ValidateStoreSlug(slug)
    ensures GenerateStoreSlug(slug) == slug
  {
    SlugOfSlugShaped(slug);
  }

  /** The validator rejects the empty string, and a leading hyphen, double hyphen or upper-case letter. */
  lemma ValidatorRejects(s: string)
    ensures !ValidateStoreSlug("")
    ensures s != [] && (s[0] == '-' || IsUpperAlpha(s[0])) ==> !ValidateStoreSlug(s)
    ensures (exists i :: 0 <= i < |s| - 1 && s[i] == '-' && s[i + 1] == '-') ==> !ValidateStoreSlug(s)
  {
    PatternIsShape(s);
  }
}
