/** Domain-name syntax check of the analyzer (`isValidDomain` and
    `isValidDomainChar` in internal/dns/analyzer.go).

    Go ranges over the runes of each label, but every code point outside
    ASCII (and the U+FFFD that stands for a bad UTF-8 sequence) fails the
    character test, so checking bytes accepts and rejects the same names. */
module Validator {
  import opened GoStrings

  const Dot: byte := '.' as int as byte
  const Hyphen: byte := '-' as int as byte

  const MaxNameLength := 255
  const MaxLabelLength := 63

  /** `isValidDomainChar`: an ASCII letter, a digit or a hyphen. */
  predicate IsValidDomainChar(c: byte)
    ensures IsValidDomainChar(c) ==> c != Dot
  {
    || ('a' as int <= c as int <= 'z' as int)
    || ('A' as int <= c as int <= 'Z' as int)
    || ('0' as int <= c as int <= '9' as int)
    || c == Hyphen
  }

  /** The checks the loop body of `isValidDomain` makes on one label, in its
      order: length 1 to 63, no hyphen at either end, only valid characters. */
  predicate IsValidLabel(part: seq<byte>)
    ensures IsValidLabel(part) ==> 0 < |part| <= MaxLabelLength && Dot !in part
  {
    && !(|part| == 0 || |part| > MaxLabelLength)
    && !(HasPrefix(part, [Hyphen]) || HasSuffix(part, [Hyphen]))
    && forall i | 0 <= i < |part| :: IsValidDomainChar(part[i])
  }

  /** `isValidDomain`: 1 to 255 bytes, at least two dot-separated labels, and
      every label valid. */
  predicate IsValidDomain(domain: seq<byte>) {
    && !(|domain| == 0 || |domain| > MaxNameLength)
    && var labels := Split(domain, Dot);
       && !(|labels| < 2)
       && forall k | 0 <= k < |labels| :: IsValidLabel(labels[k])
  }

  /** The same rules read off the bytes of the name, with no splitting: the
      reference definition `IsValidDomain` is proved equal to. */
  predicate WellFormedName(d: seq<byte>) {
    && |d| <= MaxNameLength
    && Dot in d
    && WellFormedLabels(d)
  }

  /** Byte rules for a dot-separated run of valid labels. */
  predicate WellFormedLabels(d: seq<byte>) {
    OuterBytes(d) && NameBytes(d) && AfterDots(d) && BeforeDots(d) && ShortRuns(d)
  }

  /** Not empty, and neither end is a dot or a hyphen. */
  predicate OuterBytes(d: seq<byte>) {
    && |d| > 0
    && d[0] != Dot && d[0] != Hyphen
    && d[|d| - 1] != Dot && d[|d| - 1] != Hyphen
  }

  /** Only letters, digits, hyphens and dots. */
  predicate NameBytes(d: seq<byte>) {
    forall i | 0 <= i < |d| :: d[i] == Dot || IsValidDomainChar(d[i])
  }

  /** No empty label and no label that starts with a hyphen after a dot. */
  predicate AfterDots(d: seq<byte>) {
    forall i | 0 <= i < |d| - 1 :: d[i] == Dot ==> d[i + 1] != Dot && d[i + 1] != Hyphen
  }

  /** No label that ends with a hyphen before a dot. */
  predicate BeforeDots(d: seq<byte>) {
    forall i | 0 < i < |d| :: d[i] == Dot ==> d[i - 1] != Hyphen
  }

  /** No run of more than 63 bytes without a dot. */
  predicate ShortRuns(d: seq<byte>) {
    forall i, j | 0 <= i < j <= |d| && j - i > MaxLabelLength :: Dot in d[i..j]
  }

  predicate DotFree(x: seq<byte>) {
    forall m | 0 <= m < |x| :: x[m] != Dot
  }

  predicate AllValid(labels: seq<seq<byte>>) {
    forall k | 0 <= k < |labels| :: IsValidLabel(labels[k])
  }

  /** Every piece of the split is a valid label. */
  predicate AllLabelsValid(d: seq<byte>) {
    AllValid(Split(d, Dot))
  }

  lemma LabelEnds(part: seq<byte>)
    requires IsValidLabel(part)
    ensures part[0] != Hyphen && part[|part| - 1] != Hyphen
  {
    AffixOfOneByte(part, Hyphen);
  }

  /** A name passes `isValidDomain` exactly when its bytes are well formed. */
  lemma ValidDomainIffWellFormed(d: seq<byte>)
    ensures IsValidDomain(d) <==> WellFormedName(d)
  {
    SplitIsSingleIff(d, Dot);
    LabelsValidIffWellFormed(d);
  }

  /** The labels of `d` are all valid exactly when `d` is well formed. */
  lemma {:induction false} LabelsValidIffWellFormed(d: seq<byte>)
    ensures AllLabelsValid(d) <==> WellFormedLabels(d)
    decreases |d|
  {
    var e := FirstSeparator(d, Dot);
    FirstSeparatorIsFirst(d, Dot);
    if e == |d| {
      assert Split(d, Dot) == [d];
      assert AllValid([d]) <==> IsValidLabel(d) by {
        assert [d][0] == d;
      }
      OneLabelIffWellFormed(d);
    } else {
      var x, y := d[..e], d[e + 1..];
      SplitStep(d, Dot, e);
      AllValidCons(x, Split(y, Dot));
      LabelsValidIffWellFormed(y);
      OneLabelIffWellFormed(x);
      SliceAround(d, e);
      if WellFormedLabels(d) {
        WellFormedSplits(x, y);
      }
      if WellFormedLabels(x) && WellFormedLabels(y) {
        WellFormedJoins(x, y);
      }
    }
  }

  lemma AllValidCons(x: seq<byte>, rest: seq<seq<byte>>)
    ensures AllValid([x] + rest) <==> IsValidLabel(x) && AllValid(rest)
  {
    var labels := [x] + rest;
    assert labels[0] == x;
    assert forall k | 0 <= k < |rest| :: labels[k + 1] == rest[k];
    if IsValidLabel(x) && AllValid(rest) {
      forall k | 0 < k < |labels|
        ensures IsValidLabel(labels[k])
      {
        assert labels[k] == rest[k - 1];
      }
    }
  }

  /** A dot-free string is a valid label exactly when it is well formed. */
  lemma OneLabelIffWellFormed(x: seq<byte>)
    requires DotFree(x)
    ensures IsValidLabel(x) <==> WellFormedLabels(x)
  {
    AffixOfOneByte(x, Hyphen);
    if WellFormedLabels(x) {
      DotFreeRunIsShort(x);
    }
  }

  /** A well-formed dot-free string is at most one label long. */
  lemma DotFreeRunIsShort(x: seq<byte>)
    requires DotFree(x) && ShortRuns(x)
    ensures |x| <= MaxLabelLength
  {
    assert x[0..|x|] == x;
  }

  /** The two sides of the first dot of a well-formed name are well formed. */
  lemma WellFormedSplits(x: seq<byte>, y: seq<byte>)
    requires DotFree(x)
    requires WellFormedLabels(x + [Dot] + y)
    ensures WellFormedLabels(x) && WellFormedLabels(y)
  {
    SplitOuter(x, y);
    SplitNameBytes(x, y);
    SplitAfterDots(x, y);
    SplitBeforeDots(x, y);
    SplitRuns(x, y);
  }

  lemma SplitOuter(x: seq<byte>, y: seq<byte>)
    requires DotFree(x)
    requires var d := x + [Dot] + y; OuterBytes(d) && AfterDots(d) && BeforeDots(d)
    ensures OuterBytes(x) && OuterBytes(y)
  {
    var d, n := x + [Dot] + y, |x|;
    assert d[n] == Dot;
    assert n > 0 by {
      assert d[0] != Dot;
    }
    assert |y| > 0 by {
      assert d[|d| - 1] != Dot;
    }
    assert d[0] == x[0] && d[n - 1] == x[n - 1];
    assert d[n + 1] == y[0] && d[|d| - 1] == y[|y| - 1];
  }

  lemma SplitNameBytes(x: seq<byte>, y: seq<byte>)
    requires NameBytes(x + [Dot] + y)
    ensures NameBytes(x) && NameBytes(y)
  {
    var d, n := x + [Dot] + y, |x|;
    assert forall m | 0 <= m < |x| :: d[m] == x[m];
    assert forall m | 0 <= m < |y| :: d[n + 1 + m] == y[m];
  }

  lemma SplitAfterDots(x: seq<byte>, y: seq<byte>)
    requires DotFree(x)
    requires AfterDots(x + [Dot] + y)
    ensures AfterDots(x) && AfterDots(y)
  {
    var d, n := x + [Dot] + y, |x|;
    forall i | 0 <= i < |y| - 1 && y[i] == Dot
      ensures y[i + 1] != Dot && y[i + 1] != Hyphen
    {
      assert d[n + 1 + i] == y[i];
      assert d[n + 1 + i + 1] == y[i + 1];
    }
  }

  lemma SplitBeforeDots(x: seq<byte>, y: seq<byte>)
    requires DotFree(x)
    requires BeforeDots(x + [Dot] + y)
    ensures BeforeDots(x) && BeforeDots(y)
  {
    var d, n := x + [Dot] + y, |x|;
    forall i | 0 < i < |y| && y[i] == Dot
      ensures y[i - 1] != Hyphen
    {
      assert d[n + 1 + i] == y[i];
      assert d[n + 1 + i - 1] == y[i - 1];
    }
  }

  lemma SplitRuns(x: seq<byte>, y: seq<byte>)
    requires DotFree(x)
    requires ShortRuns(x + [Dot] + y)
    ensures ShortRuns(x) && ShortRuns(y)
  {
    var d, n := x + [Dot] + y, |x|;
    PrefixRuns(x, y);
    DotFreeRunIsShort(x);
    forall i, j | 0 <= i < j <= |y| && j - i > MaxLabelLength
      ensures Dot in y[i..j]
    {
      assert d[n + 1 + i..n + 1 + j] == y[i..j];
    }
  }

  lemma PrefixRuns(x: seq<byte>, y: seq<byte>)
    requires ShortRuns(x + [Dot] + y)
    ensures ShortRuns(x)
  {
    var d := x + [Dot] + y;
    forall i, j | 0 <= i < j <= |x| && j - i > MaxLabelLength
      ensures Dot in x[i..j]
    {
      assert d[i..j] == x[i..j];
    }
  }

  /** Two well-formed runs of labels joined by a dot are well formed. */
  lemma WellFormedJoins(x: seq<byte>, y: seq<byte>)
    requires DotFree(x)
    requires WellFormedLabels(x) && WellFormedLabels(y)
    ensures WellFormedLabels(x + [Dot] + y)
  {
    DotFreeRunIsShort(x);
    JoinOuter(x, y);
    JoinNameBytes(x, y);
    JoinAfterDots(x, y);
    JoinBeforeDots(x, y);
    JoinRuns(x, y);
  }

  lemma JoinOuter(x: seq<byte>, y: seq<byte>)
    requires OuterBytes(x) && OuterBytes(y)
    ensures OuterBytes(x + [Dot] + y)
  {
    var d := x + [Dot] + y;
    assert d[0] == x[0] && d[|d| - 1] == y[|y| - 1];
  }

  lemma JoinNameBytes(x: seq<byte>, y: seq<byte>)
    requires NameBytes(x) && NameBytes(y)
    ensures NameBytes(x + [Dot] + y)
  {
    var d, n := x + [Dot] + y, |x|;
    forall i | 0 <= i < |d|
      ensures d[i] == Dot || IsValidDomainChar(d[i])
    {
      if i < n {
        assert d[i] == x[i];
      } else if i > n {
        assert d[i] == y[i - n - 1];
      }
    }
  }

  lemma JoinAfterDots(x: seq<byte>, y: seq<byte>)
    requires DotFree(x) && OuterBytes(y) && AfterDots(y)
    ensures AfterDots(x + [Dot] + y)
  {
    var d, n := x + [Dot] + y, |x|;
    forall i | 0 <= i < |d| - 1 && d[i] == Dot
      ensures d[i + 1] != Dot && d[i + 1] != Hyphen
    {
      if i == n {
        assert d[i + 1] == y[0];
      } else if i > n {
        assert d[i] == y[i - n - 1];
        assert d[i + 1] == y[i - n];
      }
    }
  }

  lemma JoinBeforeDots(x: seq<byte>, y: seq<byte>)
    requires DotFree(x) && OuterBytes(x) && OuterBytes(y) && BeforeDots(y)
    ensures BeforeDots(x + [Dot] + y)
  {
    var d, n := x + [Dot] + y, |x|;
    forall i | 0 < i < |d| && d[i] == Dot
      ensures d[i - 1] != Hyphen
    {
      if i == n {
        assert d[i - 1] == x[n - 1];
      } else if i > n + 1 {
        assert d[i] == y[i - n - 1];
        assert d[i - 1] == y[i - n - 2];
      }
    }
  }

  lemma JoinRuns(x: seq<byte>, y: seq<byte>)
    requires |x| <= MaxLabelLength && ShortRuns(y)
    ensures ShortRuns(x + [Dot] + y)
  {
    var d, n := x + [Dot] + y, |x|;
    forall i, j | 0 <= i < j <= |d| && j - i > MaxLabelLength
      ensures Dot in d[i..j]
    {
      if i > n {
        assert d[i..j] == y[i - n - 1..j - n - 1];
      } else {
        assert d[i..j][n - i] == Dot;
      }
    }
  }

  // ---------------------------------------------------------------------
  // The individual rules, as consequences.

  /** An empty name and a name longer than 255 bytes are rejected. */
  lemma LengthRule(d: seq<byte>)
    ensures |d| == 0 || |d| > MaxNameLength ==> !IsValidDomain(d)
  {
  }

  /** A name with no dot is a single label and is rejected. */
  lemma SingleLabelRule(d: seq<byte>)
    ensures Dot !in d ==> !IsValidDomain(d)
  {
    SplitIsSingleIff(d, Dot);
  }

  /** A leading, trailing or doubled dot leaves an empty label. */
  lemma EmptyLabelRule(d: seq<byte>, i: nat)
    requires i < |d| && d[i] == Dot
    requires i == 0 || i == |d| - 1 || (i + 1 < |d| && d[i + 1] == Dot)
    ensures !IsValidDomain(d)
  {
    ValidDomainIffWellFormed(d);
  }

  /** A label that starts or ends with a hyphen is rejected, wherever it is. */
  lemma HyphenRule(d: seq<byte>, i: nat)
    requires i < |d| && d[i] == Hyphen
    requires i == 0 || i == |d| - 1 || d[i - 1] == Dot || (i + 1 < |d| && d[i + 1] == Dot)
    ensures !IsValidDomain(d)
  {
    ValidDomainIffWellFormed(d);
    if i > 0 && d[i - 1] == Dot {
      assert !WellFormedName(d) by {
        assert 0 <= i - 1 < |d| - 1;
      }
    }
  }

  /** Any byte other than a letter, digit, hyphen or dot is rejected. */
  lemma CharacterRule(d: seq<byte>, i: nat)
    requires i < |d| && d[i] != Dot && !IsValidDomainChar(d[i])
    ensures !IsValidDomain(d)
  {
    ValidDomainIffWellFormed(d);
  }

  /** A label of 64 or more bytes is rejected. */
  lemma LabelLengthRule(d: seq<byte>, i: nat, j: nat)
    requires i < j <= |d| && j - i > MaxLabelLength && Dot !in d[i..j]
    ensures !IsValidDomain(d)
  {
    ValidDomainIffWellFormed(d);
  }

  /** Conversely, a dot-join of at least two valid labels of at most 255
      bytes in all is accepted, and those labels are what the check sees. */
  lemma JoinedLabelsAccepted(labels: seq<seq<byte>>)
    requires |labels| >= 2
    requires forall k | 0 <= k < |labels| :: IsValidLabel(labels[k])
    requires |Join(labels, Dot)| <= MaxNameLength
    ensures IsValidDomain(Join(labels, Dot))
    ensures Split(Join(labels, Dot), Dot) == labels
  {
    forall k, m | 0 <= k < |labels| && 0 <= m < |labels[k]|
      ensures labels[k][m] != Dot
    {
      assert IsValidDomainChar(labels[k][m]);
    }
    SplitJoin(labels, Dot);
    var d := Join(labels, Dot);
    assert |labels[0]| > 0;
    assert |d| > 0 by {
      assert d == labels[0] + [Dot] + Join(labels[1..], Dot);
    }
  }

  /** "google.com", the valid name of the analyzer's test table, passes. */
  lemma GoogleComExample()
    ensures IsValidDomain(FromLiteral("google.com"))
  {
    var d, google, com := FromLiteral("google.com"), FromLiteral("google"), FromLiteral("com");
    var labels := [google, com];
    assert IsValidLabel(google) && IsValidLabel(com) by {
      AffixOfOneByte(google, Hyphen);
      AffixOfOneByte(com, Hyphen);
    }
    assert Join(labels, Dot) == d by {
      assert labels[1..] == [com];
      assert forall i | 0 <= i < |d| :: d[i] == (google + [Dot] + com)[i];
    }
    JoinedLabelsAccepted(labels);
  }

  /** "thisisaninvalid", a name of the analyzer's test table with no TLD, fails. */
  lemma NoTopLevelDomainExample()
    ensures !IsValidDomain(FromLiteral("thisisaninvalid"))
  {
    var d := FromLiteral("thisisaninvalid");
    assert forall i | 0 <= i < |d| :: d[i] as int == "thisisaninvalid"[i] as int;
    assert Dot !in d;
    SingleLabelRule(d);
  }

  /** "test@domain.com", a name of the analyzer's test table with a character
      outside the allowed set, fails. */
  lemma BadCharacterExample()
    ensures !IsValidDomain(FromLiteral("test@domain.com"))
  {
    var d := FromLiteral("test@domain.com");
    assert d[4] as int == '@' as int;
    CharacterRule(d, 4);
  }

  /** The over-long name of the analyzer's test table ("a", 256 zero bytes,
      ".com") fails on its length alone. */
  lemma TooLongExample()
    ensures !IsValidDomain(FromLiteral("a") + seq(256, _ => 0 as byte) + FromLiteral(".com"))
  {
    var d := FromLiteral("a") + seq(256, _ => 0 as byte) + FromLiteral(".com");
    assert |d| == 261;
    LengthRule(d);
  }
}
