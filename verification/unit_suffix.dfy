/** The unit suffix resolver: an ordered table of unit families, each an
    ordered list of spellings, where the first spelling that is a prefix of
    the input wins (nom's `alt` of `tag`s, src/duration.rs:35-112). */
module UnitSuffix {
  import opened Scan
  import opened Units

  datatype Family = Family(unit: Unit, spellings: seq<string>)

  /** The families in the order they are tried, and each family's spellings
      in the order they are tried. */
  const Families: seq<Family> := [
    Family(Months, ["months", "month", "mths", "mth", "M"]),
    Family(Days, ["days", "day", "dys", "dy", "d", "D"]),
    Family(Weeks, ["weeks", "week", "wks", "wk", "w", "W"]),
    Family(Years, ["years", "year", "yrs", "yr", "y", "Y"]),
    Family(Nanos, ["nanos", "nsec", "ns"]),
    Family(Micros, ["micros", "usec", "us"]),
    Family(Millis, ["millis", "msec", "ms"]),
    Family(Seconds, ["seconds", "second", "secs", "sec", "s"]),
    Family(Minutes, ["minutes", "minute", "mins", "min", "m"]),
    Family(Hours, ["hours", "hour", "hrs", "hr", "h", "H"])
  ]

  /** `(k, j)` names spelling `j` of family `k`. */
  predicate ValidEntry(k: nat, j: nat)
  {
    k < |Families| && j < |Families[k].spellings|
  }

  function Spelling(k: nat, j: nat): string
    requires ValidEntry(k, j)
  {
    Families[k].spellings[j]
  }

  /** Entry `(k1, j1)` is tried before entry `(k2, j2)`. */
  predicate Precedes(k1: nat, j1: nat, k2: nat, j2: nat)
  {
    k1 < k2 || (k1 == k2 && j1 < j2)
  }

  /** Outcome of the search: no spelling fits, or the entry that fits first. */
  datatype Match = NoMatch | Match(family: nat, spelling: nat)

  /** Index of the first of `tags[i..]` that is a prefix of `s`, or -1. */
  function FirstTag(tags: seq<string>, s: string, i: nat): int
    requires i <= |tags|
    decreases |tags| - i
  {
    if i == |tags| then -1
    else if StartsWith(s, tags[i]) then i
    else FirstTag(tags, s, i + 1)
  }

  /** The first entry of families `k..` whose spelling is a prefix of `s`. */
  function FirstFamily(s: string, k: nat): Match
    requires k <= |Families|
    decreases |Families| - k
  {
    if k == |Families| then NoMatch
    else
      var j := FirstTag(Families[k].spellings, s, 0);
      if j >= 0 then Match(k, j) else FirstFamily(s, k + 1)
  }

  /** The tag search finds the first tag that is a prefix, or reports that
      none is. */
  lemma {:induction false} FirstTagIsFirst(tags: seq<string>, s: string, i: nat)
    requires i <= |tags|
    ensures var r := FirstTag(tags, s, i);
      && (r == -1 || i <= r < |tags|)
      && (r >= 0 ==> StartsWith(s, tags[r]))
      && (forall j | i <= j < |tags| && (r == -1 || j < r) :: !StartsWith(s, tags[j]))
    decreases |tags| - i
  {
    if i < |tags| && !StartsWith(s, tags[i]) {
      FirstTagIsFirst(tags, s, i + 1);
    }
  }

  /** The family search finds the first entry, in table order, whose
      spelling is a prefix; when it finds none, no entry is. */
  lemma {:induction false} FirstFamilyIsFirst(s: string, k: nat)
    requires k <= |Families|
    ensures var m := FirstFamily(s, k);
      && (m.Match? ==> k <= m.family && ValidEntry(m.family, m.spelling))
      && (m.Match? ==> StartsWith(s, Spelling(m.family, m.spelling)))
      && (forall k2: nat, j2: nat | k <= k2 && ValidEntry(k2, j2) && (m.NoMatch? || Precedes(k2, j2, m.family, m.spelling))
            :: !StartsWith(s, Spelling(k2, j2)))
    decreases |Families| - k
  {
    if k < |Families| {
      FirstTagIsFirst(Families[k].spellings, s, 0);
      if FirstTag(Families[k].spellings, s, 0) < 0 {
        FirstFamilyIsFirst(s, k + 1);
      }
    }
  }

  /** Position of a unit's family in the table. */
  function FamilyOf(u: Unit): (k: nat)
    ensures k < |Families| && Families[k].unit == u
  {
    match u
    case Months => 0
    case Days => 1
    case Weeks => 2
    case Years => 3
    case Nanos => 4
    case Micros => 5
    case Millis => 6
    case Seconds => 7
    case Minutes => 8
    case Hours => 9
  }

  /** All spellings of one unit. */
  function Spellings(u: Unit): seq<string>
  {
    Families[FamilyOf(u)].spellings
  }

  /** Every entry is a nonempty spelling of its family's unit. */
  lemma EntryIsSpelling(k: nat, j: nat)
    requires ValidEntry(k, j)
    ensures |Spelling(k, j)| > 0
    ensures Spelling(k, j) in Spellings(Families[k].unit)
  {
    var f := Families[k];
    assert f.spellings[j] in f.spellings;
    assert FamilyOf(f.unit) == k;
    if k == 0 { assert |f.spellings[j]| > 0; }
    else if k == 1 { assert |f.spellings[j]| > 0; }
    else if k == 2 { assert |f.spellings[j]| > 0; }
    else if k == 3 { assert |f.spellings[j]| > 0; }
    else if k == 4 { assert |f.spellings[j]| > 0; }
    else if k == 5 { assert |f.spellings[j]| > 0; }
    else if k == 6 { assert |f.spellings[j]| > 0; }
    else if k == 7 { assert |f.spellings[j]| > 0; }
    else if k == 8 { assert |f.spellings[j]| > 0; }
    else { assert |f.spellings[j]| > 0; }
  }

  /** A spelling made of ASCII letters that does not begin with an exponent
      marker, so it can neither extend a number nor be split by a separator. */
  predicate IsUnitText(sp: string)
  {
    |sp| > 0 && LettersFrom(sp, 0) && sp[0] != 'e' && sp[0] != 'E'
  }

  /** Every character of `s` from position `i` on is an ASCII letter. */
  predicate LettersFrom(s: string, i: nat)
    requires i <= |s|
    decreases |s| - i
  {
    i == |s| || (IsAsciiLetter(s[i]) && LettersFrom(s, i + 1))
  }

  lemma {:induction false} LettersFromAll(s: string, i: nat, n: nat)
    requires i <= n < |s| && LettersFrom(s, i)
    ensures IsAsciiLetter(s[n])
    decreases n - i
  {
    if i < n { LettersFromAll(s, i + 1, n); }
  }

  /** What may follow a unit spelling without changing which entry is
      found: the end of input, a character that is not a letter, or the
      word "and" followed by the end of input or by a non-letter. */
  predicate EndsUnit(u: string)
  {
    || |u| == 0
    || !IsAsciiLetter(u[0])
    || (|u| >= 3 && u[..3] == "and" && (|u| == 3 || !IsAsciiLetter(u[3])))
  }

  /** A prefix entry that no earlier entry shadows is the one the search finds. */
  lemma FirstFamilyFinds(s: string, k: nat, j: nat)
    requires ValidEntry(k, j) && StartsWith(s, Spelling(k, j))
    requires forall k2: nat, j2: nat | ValidEntry(k2, j2) && Precedes(k2, j2, k, j) :: !StartsWith(s, Spelling(k2, j2))
    ensures FirstFamily(s, 0) == Match(k, j)
  {
    FirstFamilyIsFirst(s, 0);
  }

  /** No earlier entry is a prefix of entry `(k, j)`, not even when the
      word "and" follows it directly. */
  predicate Unshadowed(k: nat, j: nat)
    requires ValidEntry(k, j)
  {
    FirstFamily(Spelling(k, j) + "and", 0) == Match(k, j)
  }

  /** nom's `unit`: consume the first spelling that fits and report its unit,
      or fail at the very input when no spelling fits. */
  function ResolveUnit(s: string): (r: Parsed<Unit>)
    ensures r.Done? ==> IsSuffix(r.rest, s) && |r.rest| < |s| && s[..|s| - |r.rest|] in Spellings(r.value)
    ensures r.Failed? <==> forall k: nat, j: nat | ValidEntry(k, j) :: !StartsWith(s, Spelling(k, j))
    ensures r.Failed? ==> r == Failed(s, UnknownUnit)
  {
    var m := FirstFamily(s, 0);
    SearchVerdict(s);
    if m.NoMatch? then Failed(s, UnknownUnit) else Take(s, m.family, m.spelling)
  }

  /** The search from the first family fails exactly when no spelling
      fits, and otherwise names an entry that fits. */
  lemma SearchVerdict(s: string)
    ensures var m := FirstFamily(s, 0);
      && (m.NoMatch? <==> forall k: nat, j: nat | ValidEntry(k, j) :: !StartsWith(s, Spelling(k, j)))
      && (m.Match? ==> ValidEntry(m.family, m.spelling) && StartsWith(s, Spelling(m.family, m.spelling)))
  {
    FirstFamilyIsFirst(s, 0);
  }

  /** Consume spelling `j` of family `k` from the front of `s`. */
  function Take(s: string, k: nat, j: nat): (r: Parsed<Unit>)
    requires ValidEntry(k, j) && StartsWith(s, Spelling(k, j))
    ensures r.Done? && r.value == Families[k].unit && IsSuffix(r.rest, s) && |r.rest| < |s|
    ensures s[..|s| - |r.rest|] == Spelling(k, j) && Spelling(k, j) in Spellings(r.value)
  {
    var sp := Spelling(k, j);
    StartsWithIsPrefix(s, sp);
    EntryIsSpelling(k, j);
    assert s[..|s| - |s[|sp|..]|] == sp;
    Done(s[|sp|..], Families[k].unit)
  }
}
