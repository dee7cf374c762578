/** Version comparison of the update checker, against the precedence rules of section 11 of Semantic Versioning 2.0.0. Build
    metadata has been stripped; identifiers are ASCII. */
module SemanticVersion {
  import opened Base

  const UINT64_LIMIT := 0x1_0000_0000_0000_0000

  datatype Version = Version(major: nat, minor: nat, patch: nat, prerelease: seq<string>)

  predicate Digit(c: char) {
    '0' <= c <= '9'
  }

  predicate AllDigits(id: string) {
    forall i :: 0 <= i < |id| ==> Digit(id[i])
  }

  predicate Numeric(id: string) {
    id != "" && AllDigits(id)
  }

  function Value(id: string): nat
    requires AllDigits(id)
  {
    if id == "" then 0 else 10 * Value(id[..|id| - 1]) + ((id[|id| - 1] as int) - ('0' as int))
  }

  /** A numeric identifier has no leading zeros. */
  predicate ValidIdentifier(id: string) {
    Numeric(id) && |id| > 1 ==> id[0] != '0'
  }

  predicate Valid(v: Version) {
    forall i :: 0 <= i < |v.prerelease| ==> ValidIdentifier(v.prerelease[i])
  }

  // ----- Precedence as section 11 states it -----

  /** At the first difference the left list has the lower element, or it has ended. */
  ghost predicate Lexicographic<T(!new)>(a: seq<T>, b: seq<T>, below: (T, T) -> bool) {
    exists k: nat :: LowerAt(a, b, below, k)
  }

  ghost predicate LowerAt<T(!new)>(a: seq<T>, b: seq<T>, below: (T, T) -> bool, k: nat) {
    k <= |a| && k < |b| && a[..k] == b[..k] && (k == |a| || below(a[k], b[k]))
  }

  predicate CharBelow(c: char, d: char) {
    c < d
  }

  /** Numbers by value, and below words; words in ASCII order (items 4.1 to 4.3). */
  ghost predicate IdentifierBelow(a: string, b: string) {
    if Numeric(a) && Numeric(b) then Value(a) < Value(b)
    else if Numeric(a) || Numeric(b) then Numeric(a)
    else Lexicographic(a, b, CharBelow)
  }

  /** The core numerically (item 2), a pre-release below the release (item 3), then identifier by identifier, fewer being lower
      (item 4). */
  ghost predicate Below(a: Version, b: Version) {
    if a.major != b.major then a.major < b.major
    else if a.minor != b.minor then a.minor < b.minor
    else if a.patch != b.patch then a.patch < b.patch
    else if a.prerelease == [] || b.prerelease == [] then a.prerelease != [] && b.prerelease == []
    else Lexicographic(a.prerelease, b.prerelease, IdentifierBelow)
  }

  // ----- Comparing strings and digits -----

  function CompareFrom(a: string, b: string, k: nat): (r: int)
    requires k <= |a| && k <= |b|
    ensures -1 <= r <= 1
    decreases |a| - k
  {
    if k == |a| then (if k == |b| then 0 else -1)
    else if k == |b| then 1
    else if a[k] < b[k] then -1
    else if b[k] < a[k] then 1
    else CompareFrom(a, b, k + 1)
  }

  /** `strings.Compare`. */
  function CompareStrings(a: string, b: string): int {
    CompareFrom(a, b, 0)
  }

  lemma {:induction false} CompareFromMeaning(a: string, b: string, k: nat)
    requires k <= |a| && k <= |b| && a[..k] == b[..k]
    ensures CompareFrom(a, b, k) == -1 ==> Lexicographic(a, b, CharBelow)
    ensures CompareFrom(a, b, k) == 1 ==> Lexicographic(b, a, CharBelow)
    ensures CompareFrom(a, b, k) == 0 ==> a == b
    decreases |a| - k
  {
    if k < |a| && k < |b| && a[k] == b[k] {
      PrefixStep(a, k);
      PrefixStep(b, k);
      CompareFromMeaning(a, b, k + 1);
    } else if k == |a| && k == |b| {
      WholePrefix(a);
      WholePrefix(b);
    } else {
      assert LowerAt(a, b, CharBelow, k) || LowerAt(b, a, CharBelow, k);
    }
  }

  /** An order that never has both or neither of two different elements lower. */
  ghost predicate Strict<T(!new)>(below: (T, T) -> bool) {
    forall x, y :: !(below(x, y) && below(y, x))
  }

  lemma LexicographicStrict<T(!new)>(a: seq<T>, b: seq<T>, below: (T, T) -> bool)
    requires Strict(below) && Lexicographic(a, b, below)
    ensures !Lexicographic(b, a, below) && a != b
  {
    var k: nat :| LowerAt(a, b, below, k);
    assert k < |a| ==> !below(b[k], a[k]) && !below(a[k], a[k]);
  }

  lemma CompareStringsMeaning(a: string, b: string)
    ensures CompareStrings(a, b) == -1 <==> Lexicographic(a, b, CharBelow)
    ensures CompareStrings(a, b) == 1 <==> Lexicographic(b, a, CharBelow)
    ensures CompareStrings(a, b) == 0 <==> a == b
  {
    CompareFromMeaning(a, b, 0);
    assert Strict(CharBelow);
    if Lexicographic(a, b, CharBelow) {
      LexicographicStrict(a, b, CharBelow);
    }
    if Lexicographic(b, a, CharBelow) {
      LexicographicStrict(b, a, CharBelow);
    }
  }

  function Pow10(n: nat): nat {
    if n == 0 then 1 else 10 * Pow10(n - 1)
  }

  lemma {:induction false} ValueBelowPower(id: string)
    requires AllDigits(id)
    ensures Value(id) < Pow10(|id|)
  {
    if id != "" {
      ValueBelowPower(id[..|id| - 1]);
    }
  }

  lemma {:induction false} ValueAtLeastPower(id: string)
    requires AllDigits(id) && id != "" && id[0] != '0'
    ensures Pow10(|id| - 1) <= Value(id)
  {
    if |id| > 1 {
      ValueAtLeastPower(id[..|id| - 1]);
    }
  }

  lemma {:induction false} PowerMonotone(m: nat, n: nat)
    requires m <= n
    ensures Pow10(m) <= Pow10(n)
    decreases n - m
  {
    if m < n {
      PowerMonotone(m, n - 1);
    }
  }

  lemma {:induction false} SameLengthValues(a: string, b: string, k: nat)
    requires AllDigits(a) && AllDigits(b) && k <= |a| == |b|
    ensures CompareFrom(a, b, k) == -1 && a[..k] == b[..k] ==> Value(a) < Value(b)
    decreases |a|
  {
    if k < |a| && CompareFrom(a, b, k) == -1 && a[..k] == b[..k] {
      var n := |a| - 1;
      var a', b' := a[..n], b[..n];
      assert a'[..k] == a[..k] && b'[..k] == b[..k];
      LastCharacter(a, b, k);
      if CompareFrom(a', b', k) == -1 {
        SameLengthValues(a', b', k);
      } else {
        CompareFromMeaning(a', b', k);
      }
    }
  }

  /** Comparing strings of one length is decided before the last character, or by it. */
  lemma {:induction false} LastCharacter(a: string, b: string, k: nat)
    requires |a| == |b| && k < |a|
    ensures var n := |a| - 1;
            CompareFrom(a, b, k) == if CompareFrom(a[..n], b[..n], k) != 0 then CompareFrom(a[..n], b[..n], k)
                                    else if a[n] < b[n] then -1 else if b[n] < a[n] then 1 else 0
    decreases |a| - k
  {
    var n := |a| - 1;
    if k < n {
      assert a[..n][k] == a[k] && b[..n][k] == b[k];
      LastCharacter(a, b, k + 1);
    } else {
      assert CompareFrom(a, b, n + 1) == 0;
    }
  }

  /** For numbers without leading zeros, first length and then ASCII order is the order of their values. */
  lemma LengthFirstIsNumeric(a: string, b: string)
    requires Numeric(a) && Numeric(b) && ValidIdentifier(a) && ValidIdentifier(b)
    ensures (|a| < |b| || (|a| == |b| && CompareStrings(a, b) == -1)) <==> Value(a) < Value(b)
    ensures Value(a) == Value(b) <==> a == b
  {
    if |a| < |b| {
      ShorterIsLess(a, b);
    } else if |b| < |a| {
      ShorterIsLess(b, a);
    } else {
      SameLengthValues(a, b, 0);
      SameLengthValues(b, a, 0);
      CompareStringsMeaning(a, b);
      CompareStringsMeaning(b, a);
    }
  }

  lemma ShorterIsLess(a: string, b: string)
    requires Numeric(a) && Numeric(b) && ValidIdentifier(b) && |a| < |b|
    ensures Value(a) < Value(b)
  {
    ValueBelowPower(a);
    ValueAtLeastPower(b);
    PowerMonotone(|a|, |b| - 1);
  }

  // ----- The comparison as the checker performs it -----

  method NumericIdentifier(value: string) returns (r: bool)
    ensures r <==> Numeric(value)
  {
    for i := 0 to |value|
      invariant forall j :: 0 <= j < i ==> Digit(value[j])
    {
      if value[i] < '0' || value[i] > '9' {
        return false;
      }
    }
    r := value != "";
  }

  method ComparePrereleaseIdentifiers(left: string, right: string) returns (r: int)
    requires ValidIdentifier(left) && ValidIdentifier(right)
    ensures r == -1 <==> IdentifierBelow(left, right)
    ensures r == 1 <==> IdentifierBelow(right, left)
    ensures r == 0 <==> left == right
    ensures -1 <= r <= 1
  {
    var leftNumeric := NumericIdentifier(left);
    var rightNumeric := NumericIdentifier(right);
    CompareStringsMeaning(left, right);
    if leftNumeric && rightNumeric {
      LengthFirstIsNumeric(left, right);
      LengthFirstIsNumeric(right, left);
      CompareStringsMeaning(right, left);
    }
    if leftNumeric && !rightNumeric {
      return -1;
    }
    if !leftNumeric && rightNumeric {
      return 1;
    }
    if leftNumeric {
      if |left| < |right| {
        return -1;
      }
      if |left| > |right| {
        return 1;
      }
    }
    r := CompareStrings(left, right);
  }

  lemma IdentifiersStrict(a: string, b: string)
    ensures !(IdentifierBelow(a, b) && IdentifierBelow(b, a))
  {
    if !Numeric(a) && !Numeric(b) {
      CompareStringsMeaning(a, b);
    }
  }

  method ComparePrereleases(left: seq<string>, right: seq<string>) returns (r: int)
    requires forall i :: 0 <= i < |left| ==> ValidIdentifier(left[i])
    requires forall i :: 0 <= i < |right| ==> ValidIdentifier(right[i])
    ensures r == -1 <==> Lexicographic(left, right, IdentifierBelow)
    ensures r == 1 <==> Lexicographic(right, left, IdentifierBelow)
    ensures r == 0 <==> left == right
    ensures -1 <= r <= 1
  {
    r := 0;
    var index := 0;
    while index < |left| && index < |right|
      invariant index <= |left| && index <= |right| && left[..index] == right[..index]
    {
      r := ComparePrereleaseIdentifiers(left[index], right[index]);
      if r != 0 {
        Decided(left, right, index, r);
        return;
      }
      PrefixStep(left, index);
      PrefixStep(right, index);
      index := index + 1;
    }
    if |left| < |right| {
      Decided(left, right, index, -1);
      return -1;
    }
    if |left| > |right| {
      Decided(left, right, index, 1);
      return 1;
    }
    WholePrefix(left);
    WholePrefix(right);
    NothingBelowItself(left);
    r := 0;
  }

  lemma OrderIsStrict()
    ensures Strict(IdentifierBelow)
  {
    forall x, y ensures !(IdentifierBelow(x, y) && IdentifierBelow(y, x)) {
      IdentifiersStrict(x, y);
    }
  }

  lemma Decided(left: seq<string>, right: seq<string>, index: nat, r: int)
    requires index <= |left| && index <= |right| && left[..index] == right[..index]
    requires r == -1 ==> LowerAt(left, right, IdentifierBelow, index)
    requires r == 1 ==> LowerAt(right, left, IdentifierBelow, index)
    requires r == -1 || r == 1
    ensures r == -1 <==> Lexicographic(left, right, IdentifierBelow)
    ensures r == 1 <==> Lexicographic(right, left, IdentifierBelow)
    ensures left != right
  {
    OrderIsStrict();
    if r == -1 {
      LexicographicStrict(left, right, IdentifierBelow);
    } else {
      LexicographicStrict(right, left, IdentifierBelow);
    }
  }

  lemma NothingBelowItself(list: seq<string>)
    ensures !Lexicographic(list, list, IdentifierBelow)
  {
    OrderIsStrict();
    if Lexicographic(list, list, IdentifierBelow) {
      LexicographicStrict(list, list, IdentifierBelow);
    }
  }

  /** `compareSemanticVersions` decides precedence in both directions; equal means the same core and pre-release. */
  method CompareSemanticVersions(left: Version, right: Version) returns (r: int)
    requires Valid(left) && Valid(right)
    ensures r == -1 <==> Below(left, right)
    ensures r == 1 <==> Below(right, left)
    ensures r == 0 <==> left == right
    ensures -1 <= r <= 1
  {
    if left.major != right.major {
      return if left.major < right.major then -1 else 1;
    }
    if left.minor != right.minor {
      return if left.minor < right.minor then -1 else 1;
    }
    if left.patch != right.patch {
      return if left.patch < right.patch then -1 else 1;
    }
    if left.prerelease == [] && right.prerelease == [] {
      return 0;
    }
    if left.prerelease == [] {
      return 1;
    }
    if right.prerelease == [] {
      return -1;
    }
    r := ComparePrereleases(left.prerelease, right.prerelease);
  }

  // ----- Precedence is a total order -----

  ghost predicate Transitive<T(!new)>(below: (T, T) -> bool) {
    forall x, y, z :: below(x, y) && below(y, z) ==> below(x, z)
  }

  lemma LexicographicTransitive<T(!new)>(a: seq<T>, b: seq<T>, c: seq<T>, below: (T, T) -> bool)
    requires Transitive(below) && Lexicographic(a, b, below) && Lexicographic(b, c, below)
    ensures Lexicographic(a, c, below)
  {
    var k: nat :| LowerAt(a, b, below, k);
    var l: nat :| LowerAt(b, c, below, l);
    var m := Min(k, l);
    assert a[..m] == a[..k][..m] == b[..k][..m] == b[..m];
    assert b[..m] == b[..l][..m] == c[..l][..m] == c[..m];
    if k < l {
      assert b[..l][k] == c[..l][k];
    } else if l < k {
      assert a[..k][l] == b[..k][l];
    }
    assert LowerAt(a, c, below, m);
  }

  lemma IdentifierTransitive(a: string, b: string, c: string)
    requires IdentifierBelow(a, b) && IdentifierBelow(b, c)
    ensures IdentifierBelow(a, c)
  {
    if !Numeric(a) && !Numeric(b) && !Numeric(c) {
      assert Transitive(CharBelow);
      LexicographicTransitive(a, b, c, CharBelow);
    }
  }

  /** Precedence is transitive; with `CompareSemanticVersions`, which finds every two versions equal or one below the other and never
      both, it is a total order. */
  lemma PrecedenceTransitive(a: Version, b: Version, c: Version)
    requires Below(a, b) && Below(b, c)
    ensures Below(a, c)
  {
    if a.major == b.major == c.major && a.minor == b.minor == c.minor && a.patch == b.patch == c.patch &&
       a.prerelease != [] && b.prerelease != [] && c.prerelease != [] {
      forall x, y, z | IdentifierBelow(x, y) && IdentifierBelow(y, z) ensures IdentifierBelow(x, z) {
        IdentifierTransitive(x, y, z);
      }
      LexicographicTransitive(a.prerelease, b.prerelease, c.prerelease, IdentifierBelow);
    }
  }

  // ----- Parsing the matched parts -----

  /** `parseSemanticVersion`, from the groups that its pattern matched: three numbers without leading zeros and the dot-separated
      identifiers. It rejects a number of 64 bits or more and a numeric identifier with a leading zero, and nothing else. */
  method ParseParts(core: seq<string>, identifiers: seq<string>) returns (version: Option<Version>)
    requires |core| == 3 && Numeric(core[0]) && Numeric(core[1]) && Numeric(core[2])
    ensures version.Some? <==>
            && Value(core[0]) < UINT64_LIMIT && Value(core[1]) < UINT64_LIMIT && Value(core[2]) < UINT64_LIMIT
            && forall i :: 0 <= i < |identifiers| ==> ValidIdentifier(identifiers[i])
    ensures version.Some? ==> version.value == Version(Value(core[0]), Value(core[1]), Value(core[2]), identifiers) && Valid(version.value)
  {
    var parts: seq<nat> := [];
    for index := 0 to 3
      invariant |parts| == index
      invariant index > 0 ==> parts[0] == Value(core[0]) < UINT64_LIMIT
      invariant index > 1 ==> parts[1] == Value(core[1]) < UINT64_LIMIT
      invariant index > 2 ==> parts[2] == Value(core[2]) < UINT64_LIMIT
    {
      if Value(core[index]) >= UINT64_LIMIT {
        return None;
      }
      parts := parts + [Value(core[index])];
    }
    for index := 0 to |identifiers|
      invariant forall i :: 0 <= i < index ==> ValidIdentifier(identifiers[i])
    {
      var identifier := identifiers[index];
      var numeric := NumericIdentifier(identifier);
      if |identifier| > 1 && identifier[0] == '0' && numeric {
        return None;
      }
    }
    version := Some(Version(parts[0], parts[1], parts[2], identifiers));
  }
}
