/** The organisation slug search (apps/orgs/services.py). Django's own slugify is not part of this model:
    its result is an arbitrary string here. */
module OrgSlug {
  import opened Prelude

  predicate Alnum(c: char) {
    'a' <= c <= 'z' || '0' <= c <= '9'
  }

  /** [a-z0-9][a-z0-9-]*[a-z0-9] */
  ghost predicate WellFormed(s: string) {
    |s| >= 2 && Alnum(s[0]) && Alnum(s[|s| - 1]) && forall c :: c in s ==> Alnum(c) || c == '-'
  }

  function Keep(s: string): (r: string)
    ensures forall c :: c in r ==> Alnum(c) || c == '-'
  {
    if s == "" then "" else (if Alnum(s[0]) || s[0] == '-' then [s[0]] else "") + Keep(s[1..])
  }

  function Strip(s: string): (r: string)
    ensures r != "" ==> r[0] != '-' && r[|r| - 1] != '-'
    ensures forall c :: c in r ==> c in s
  {
    if s == "" then ""
    else if s[0] == '-' then Strip(s[1..])
    else if s[|s| - 1] == '-' then Strip(s[..|s| - 1])
    else s
  }

  function Base(slugified: string): (r: string)
    ensures WellFormed(r)
  {
    var base := Strip(Keep(slugified));
    if |base| < 2 then "org" else base
  }

  /** A name that already has the required form is kept as it is. */
  lemma {:induction false} BaseKeepsWellFormed(s: string)
    requires |s| >= 2 && s[0] != '-' && s[|s| - 1] != '-'
    requires forall c :: c in s ==> 'a' <= c <= 'z' || '0' <= c <= '9' || c == '-'
    ensures Base(s) == s
  {
    KeepAll(s);
  }

  lemma {:induction false} KeepAll(s: string)
    requires forall c :: c in s ==> Alnum(c) || c == '-'
    ensures Keep(s) == s
  {
    if s != "" {
      KeepAll(s[1..]);
      assert s == [s[0]] + s[1..] && s[0] in s;
    }
  }

  function Variant(base: string, k: nat): string {
    base + "-" + Digits(k)
  }

  lemma VariantInjective(base: string, j: nat, k: nat)
    requires Variant(base, j) == Variant(base, k)
    ensures j == k
  {
    assert Variant(base, j)[|base| + 1..] == Digits(j) && Variant(base, k)[|base| + 1..] == Digits(k);
    DigitsInjective(j, k);
  }

  predicate StartsWith(s: string, prefix: string) {
    |prefix| <= |s| && s[..|prefix|] == prefix
  }

  /** base, or base, a hyphen and digits. */
  predicate Candidate(s: string, base: string) {
    StartsWith(s, base) &&
    var rest := s[|base|..];
    rest == "" || (|rest| > 1 && rest[0] == '-' && forall c :: c in rest[1..] ==> '0' <= c <= '9')
  }

  lemma CandidateMeans(s: string, base: string)
    ensures Candidate(s, base) <==>
            s == base ||
            exists digits: string :: digits != "" && s == base + "-" + digits && forall c :: c in digits ==>
              '0' <= c <= '9'
  {
    if Candidate(s, base) && s != base {
      var rest := s[|base|..];
      assert s == base + "-" + rest[1..];
    }
    if digits: string :| digits != "" && s == base + "-" + digits && forall c :: c in digits ==> '0' <= c <= '9' {
      assert s[..|base|] == base && s[|base|..] == "-" + digits && ("-" + digits)[1..] == digits;
    }
  }

  lemma VariantIsCandidate(base: string, k: nat)
    ensures Candidate(Variant(base, k), base) && Candidate(base, base)
  {
    assert Variant(base, k)[..|base|] == base;
    assert Variant(base, k)[|base|..] == "-" + Digits(k);
    assert ("-" + Digits(k))[1..] == Digits(k);
  }

  function Existing(table: set<string>, base: string): set<string> {
    set s | s in table && Candidate(s, base)
  }

  /** The base and its variants 2..k-1 are k-1 different slugs. */
  ghost function FirstVariants(base: string, k: nat): set<string>
    requires k >= 2
  {
    if k == 2 then {base} else FirstVariants(base, k - 1) + {Variant(base, k - 1)}
  }

  lemma {:induction false} FirstVariantsFacts(base: string, k: nat)
    requires k >= 2
    ensures |FirstVariants(base, k)| == k - 1
    ensures forall s ::
              s in FirstVariants(base, k) <==> s == base || exists j: nat :: 2 <= j < k && s == Variant(base, j)
  {
    if k > 2 {
      FirstVariantsFacts(base, k - 1);
      if Variant(base, k - 1) in FirstVariants(base, k - 1) {
        if Variant(base, k - 1) != base {
          var j: nat :| 2 <= j < k - 1 && Variant(base, k - 1) == Variant(base, j);
          VariantInjective(base, k - 1, j);
        }
      }
    }
  }

  lemma NextVariant(base: string, k: nat, existing: set<string>)
    requires k >= 2 && FirstVariants(base, k) <= existing && Variant(base, k) in existing
    ensures FirstVariants(base, k + 1) <= existing && k <= |existing|
  {
    FirstVariantsFacts(base, k + 1);
    SubsetSize(FirstVariants(base, k + 1), existing);
  }

  /** The loop: the least suffix from 2 on that is not taken, found within as many steps as there are taken slugs. */
  method SearchSuffix(base: string, existing: set<string>) returns (k: nat)
    requires base in existing
    ensures 2 <= k <= |existing| + 1
    ensures Variant(base, k) !in existing
    ensures forall j: nat :: 2 <= j < k ==> Variant(base, j) in existing
  {
    k := 2;
    assert FirstVariants(base, 2) == {base};
    SubsetSize({base}, existing);
    while Variant(base, k) in existing
      invariant k >= 2 && FirstVariants(base, k) <= existing && k <= |existing| + 1
      invariant forall j: nat :: 2 <= j < k ==> Variant(base, j) in existing
      decreases |existing| - k
    {
      NextVariant(base, k, existing);
      k := k + 1;
    }
  }

  lemma VariantWellFormed(base: string, k: nat)
    requires WellFormed(base)
    ensures WellFormed(Variant(base, k))
  {
    var v := Variant(base, k);
    assert v[|v| - 1] == Digits(k)[|Digits(k)| - 1] && v[0] == base[0];
    assert Digits(k)[|Digits(k)| - 1] in Digits(k);
  }

  /** Only the candidates are looked at, yet the answer is free in the whole table; the suffix is the least free one,
      and by pigeonhole at most one more than the number of candidates. */
  method GenerateUniqueSlug(slugified: string, table: set<string>) returns (slug: string)
    ensures slug !in table
    ensures |slug| >= 2 && slug[0] != '-' && slug[|slug| - 1] != '-'
    ensures forall c :: c in slug ==> 'a' <= c <= 'z' || '0' <= c <= '9' || c == '-'
    ensures Base(slugified) !in table ==> slug == Base(slugified)
    ensures Base(slugified) in table ==>
              exists k: nat :: && 2 <= k <= |Existing(table, Base(slugified))| + 1
                               && slug == Variant(Base(slugified), k)
                               && forall j: nat :: 2 <= j < k ==> Variant(Base(slugified), j) in table
  {
    var base := Base(slugified);
    var existing := Existing(table, base);
    VariantIsCandidate(base, 0);
    if base !in existing {
      return base;
    }
    var k := SearchSuffix(base, existing);
    VariantIsCandidate(base, k);
    VariantWellFormed(base, k);
    slug := Variant(base, k);
  }

  lemma {:induction false} SubsetSize<T>(a: set<T>, b: set<T>)
    requires a <= b
    ensures |a| <= |b|
  {
    assert b == a + (b - a) && a !! b - a;
  }
}
