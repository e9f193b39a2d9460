/** The names of captured notifications: printed when one is loaded, parsed when a directory is listed. */
module Artifacts {
  import opened Types

  const U64_MAX: nat := 0xFFFF_FFFF_FFFF_FFFF

  // ---------------------------------------------------------------------------------------------
  // Numbers

  function DigitChar(d: nat): (c: char)
    requires d < 10
    ensures c as int == '0' as int + d
  {
    ['0', '1', '2', '3', '4', '5', '6', '7', '8', '9'][d]
  }

  predicate IsDigit(c: char) { '0' <= c <= '9' }

  function DigitValue(c: char): nat
    requires IsDigit(c)
  {
    c as nat - '0' as nat
  }

  /** Decimal printing. */
  function Decimal(n: nat): string {
    if n < 10 then [DigitChar(n)] else Decimal(n / 10) + [DigitChar(n % 10)]
  }

  predicate AllDigits(s: string) {
    forall c :: c in s ==> IsDigit(c)
  }

  function DecimalValue(s: string): nat
    requires AllDigits(s)
    decreases |s|
  {
    if s == [] then 0
    else 10 * DecimalValue(s[..|s| - 1]) + DigitValue(s[|s| - 1])
  }

  /** `str::parse::<u64>`: digits, optionally after one plus sign, with a value that fits. */
  function ParseU64(s: string): Option<nat> {
    var digits := if |s| > 1 && s[0] == '+' then s[1..] else s;
    if digits == [] || !AllDigits(digits) || DecimalValue(digits) > U64_MAX then None
    else Some(DecimalValue(digits))
  }

  lemma DigitReadsBack(d: nat)
    requires d < 10
    ensures IsDigit(DigitChar(d)) && DigitValue(DigitChar(d)) == d
  {
  }

  /** One more digit on the right. */
  lemma AppendDigit(s: string, c: char)
    requires AllDigits(s) && IsDigit(c)
    ensures AllDigits(s + [c]) && DecimalValue(s + [c]) == 10 * DecimalValue(s) + DigitValue(c)
  {
    assert (s + [c])[..|s|] == s;
  }

  lemma {:induction false} DecimalReadsBack(n: nat)
    ensures Decimal(n) != [] && AllDigits(Decimal(n)) && DecimalValue(Decimal(n)) == n
  {
    if n < 10 {
      DigitReadsBack(n);
      assert Decimal(n)[..0] == [];
    } else {
      DigitReadsBack(n % 10);
      DecimalReadsBack(n / 10);
      AppendDigit(Decimal(n / 10), DigitChar(n % 10));
    }
  }

  lemma PrintThenParse(n: nat)
    requires n <= U64_MAX
    ensures ParseU64(Decimal(n)) == Some(n)
  {
    DecimalReadsBack(n);
    assert Decimal(n)[0] in Decimal(n);
  }

  /** A digit string without a superfluous leading zero. */
  predicate Canonical(s: string) {
    s != [] && AllDigits(s) && (|s| > 1 ==> s[0] != '0')
  }

  lemma {:induction false} DecimalIsCanonical(n: nat)
    ensures Canonical(Decimal(n)) && (n > 0 ==> Decimal(n)[0] != '0')
  {
    DecimalReadsBack(n);
    if n < 10 {
    } else {
      DecimalIsCanonical(n / 10);
      assert Decimal(n)[0] == Decimal(n / 10)[0];
    }
  }

  lemma LastDigit(v: nat, d: nat)
    requires d < 10
    ensures (10 * v + d) / 10 == v && (10 * v + d) % 10 == d
  {
  }

  lemma OneDigitPrints(c: char)
    requires IsDigit(c)
    ensures AllDigits([c]) && DecimalValue([c]) == DigitValue(c) < 10 && Decimal(DigitValue(c)) == [c]
    ensures DigitValue(c) == 0 <==> c == '0'
  {
    assert [c][..0] == [];
    assert DigitChar(DigitValue(c)) == c;
  }

  lemma DecimalAppends(v: nat, c: char)
    requires IsDigit(c) && v > 0
    ensures Decimal(10 * v + DigitValue(c)) == Decimal(v) + [c]
  {
    LastDigit(v, DigitValue(c));
    assert DigitChar(DigitValue(c)) == c;
  }

  lemma CanonicalAppends(front: string, last: char)
    requires Canonical(front) && IsDigit(last) && DecimalValue(front) > 0 && Decimal(DecimalValue(front)) == front
    ensures AllDigits(front + [last]) && DecimalValue(front + [last]) > 0
    ensures Decimal(DecimalValue(front + [last])) == front + [last]
  {
    AppendDigit(front, last);
    DecimalAppends(DecimalValue(front), last);
  }

  lemma {:induction false} CanonicalPrints(s: string)
    requires Canonical(s)
    ensures Decimal(DecimalValue(s)) == s
    ensures DecimalValue(s) == 0 ==> s == "0"
    decreases |s|
  {
    if |s| == 1 {
      assert s == [s[0]] && s[0] in s;
      OneDigitPrints(s[0]);
    } else {
      CanonicalFront(s);
      var front, last := s[..|s| - 1], s[|s| - 1];
      CanonicalPrints(front);
      CanonicalAppends(front, last);
      assert s == front + [last];
    }
  }

  lemma CanonicalFront(s: string)
    requires Canonical(s) && |s| > 1
    ensures Canonical(s[..|s| - 1]) && s[..|s| - 1] != "0" && s[|s| - 1] in s
  {
    var front := s[..|s| - 1];
    assert front[0] == s[0];
    assert forall c :: c in front ==> c in s;
  }

  // ---------------------------------------------------------------------------------------------
  // What is read as a number

  /** All that a number is written with. */
  predicate Plain(s: string) {
    forall c :: c in s ==> IsDigit(c) || c == '+'
  }

  function Zeros(n: nat): string {
    if n == 0 then "" else "0" + Zeros(n - 1)
  }

  /** The string is the decimal of `v`, maybe behind zeros, maybe behind one plus sign. */
  ghost predicate Spells(s: string, v: nat) {
    exists zeros: nat :: s == Zeros(zeros) + Decimal(v) || s == "+" + (Zeros(zeros) + Decimal(v))
  }

  lemma {:induction false} LeadingZero(s: string)
    requires AllDigits(s)
    ensures AllDigits("0" + s) && DecimalValue("0" + s) == DecimalValue(s)
    decreases |s|
  {
    if s == [] {
      assert ("0" + s)[..0] == [];
    } else {
      var front, last := s[..|s| - 1], s[|s| - 1];
      LeadingZero(front);
      AppendDigit("0" + front, last);
      assert "0" + s == "0" + front + [last];
    }
  }

  lemma {:induction false} ZerosCountNothing(n: nat, s: string)
    requires AllDigits(s)
    ensures AllDigits(Zeros(n) + s) && DecimalValue(Zeros(n) + s) == DecimalValue(s)
  {
    if n == 0 {
      assert Zeros(n) + s == s;
    } else {
      ZerosCountNothing(n - 1, s);
      LeadingZero(Zeros(n - 1) + s);
      assert Zeros(n) + s == "0" + (Zeros(n - 1) + s);
    }
  }

  lemma {:induction false} DigitsSpell(s: string) returns (n: nat)
    requires s != [] && AllDigits(s)
    ensures s == Zeros(n) + Decimal(DecimalValue(s))
    decreases |s|
  {
    if Canonical(s) {
      CanonicalPrints(s);
      n := 0;
    } else {
      var rest := s[1..];
      assert s == "0" + rest;
      LeadingZero(rest);
      n := DigitsSpell(rest);
      n := n + 1;
    }
  }

  lemma SpellingIsPlain(s: string, v: nat)
    requires Spells(s, v)
    ensures Plain(s)
  {
    var zeros: nat :| s == Zeros(zeros) + Decimal(v) || s == "+" + (Zeros(zeros) + Decimal(v));
    DecimalReadsBack(v);
    ZerosCountNothing(zeros, Decimal(v));
  }

  lemma DigitsAreSpelt(s: string, digits: string)
    requires digits != [] && AllDigits(digits) && (s == digits || s == "+" + digits)
    ensures Spells(s, DecimalValue(digits))
  {
    var n := DigitsSpell(digits);
  }

  lemma SpellingReads(s: string, zeros: nat, v: nat)
    requires v <= U64_MAX
    requires s == Zeros(zeros) + Decimal(v) || s == "+" + (Zeros(zeros) + Decimal(v))
    ensures ParseU64(s) == Some(v)
  {
    var digits := Zeros(zeros) + Decimal(v);
    DecimalReadsBack(v);
    ZerosCountNothing(zeros, Decimal(v));
    assert digits[0] in digits;
    if s != digits {
      assert s[1..] == digits;
    }
  }

  /** A string is read as a number exactly when it spells it and it fits: a bare plus, an empty string, any other
      character and any number beyond 64 bits are refused. */
  lemma ReadsWhatIsSpelt(s: string, v: nat)
    ensures ParseU64(s) == Some(v) <==> v <= U64_MAX && Spells(s, v)
  {
    if ParseU64(s) == Some(v) {
      DigitsAreSpelt(s, if |s| > 1 && s[0] == '+' then s[1..] else s);
    } else if v <= U64_MAX && Spells(s, v) {
      var zeros: nat :| s == Zeros(zeros) + Decimal(v) || s == "+" + (Zeros(zeros) + Decimal(v));
      SpellingReads(s, zeros, v);
    }
  }

  // ---------------------------------------------------------------------------------------------
  // Splitting

  predicate MatchesAt(s: string, pat: string, i: nat) {
    i + |pat| <= |s| && s[i..i + |pat|] == pat
  }

  /** `str::split`: cut at every match, leftmost first, never overlapping. */
  function Split(s: string, pat: string): (parts: seq<string>)
    requires pat != []
    ensures |parts| >= 1
  {
    SplitFrom(s, pat, 0)
  }

  /** `from` is the first position not yet ruled out as a match. */
  function SplitFrom(s: string, pat: string, from: nat): (parts: seq<string>)
    requires pat != []
    ensures |parts| >= 1
    decreases |s|, |s| - from
  {
    if from >= |s| then [s]
    else if MatchesAt(s, pat, from) then [s[..from]] + SplitFrom(s[from + |pat|..], pat, 0)
    else SplitFrom(s, pat, from + 1)
  }

  lemma {:induction false} SplitNone(s: string, pat: string, from: nat)
    requires pat != [] && forall i: nat :: from <= i ==> !MatchesAt(s, pat, i)
    ensures SplitFrom(s, pat, from) == [s]
    decreases |s| - from
  {
    if from >= |s| {
    } else {
      SplitNone(s, pat, from + 1);
    }
  }

  /** The first match cuts, and the rest is split on its own. */
  lemma {:induction false} SplitFirst(s: string, pat: string, from: nat, at: nat)
    requires pat != [] && from <= at && MatchesAt(s, pat, at)
    requires forall i: nat :: from <= i < at ==> !MatchesAt(s, pat, i)
    ensures SplitFrom(s, pat, from) == [s[..at]] + Split(s[at + |pat|..], pat)
    decreases at - from
  {
    if from == at {
    } else {
      SplitFirst(s, pat, from + 1, at);
    }
  }

  /** Splitting loses nothing. */
  lemma {:induction false} SplitJoins(s: string, pat: string, from: nat)
    requires pat != []
    ensures var parts := SplitFrom(s, pat, from);
            && parts != []
            && (|parts| == 2 ==> s == parts[0] + pat + parts[1])
            && (|parts| == 1 ==> s == parts[0])
    decreases |s|, |s| - from
  {
    if from >= |s| {
    } else {
      if MatchesAt(s, pat, from) {
        SplitJoins(s[from + |pat|..], pat, 0);
        assert s == s[..from] + s[from..from + |pat|] + s[from + |pat|..];
      } else {
        SplitJoins(s, pat, from + 1);
      }
    }
  }

  // ---------------------------------------------------------------------------------------------
  // Names

  function CommitName(block: nat): string {
    "commit_" + Decimal(block) + "_" + Decimal(block) + ".bincode"
  }

  function ReorgRange(oldStart: nat, oldEnd: nat, newStart: nat, newEnd: nat): string {
    Decimal(oldStart) + "_" + Decimal(oldEnd) + "_to_" + Decimal(newStart) + "_" + Decimal(newEnd)
  }

  function ReorgName(oldStart: nat, oldEnd: nat, newStart: nat, newEnd: nat): string {
    "reorg_" + ReorgRange(oldStart, oldEnd, newStart, newEnd) + ".bincode"
  }

  predicate EndsWith(s: string, suffix: string) {
    |suffix| <= |s| && s[|s| - |suffix|..] == suffix
  }

  /** What `list_commit_blocks` reads from one file name. */
  function ParseCommitName(name: string): Option<nat> {
    if "commit_" <= name && EndsWith(name, ".bincode")
    then ParseU64(Split(name[7..], "_")[0])
    else None
  }

  /** The four fields between the prefix and the suffix, if there are exactly four. */
  function ReorgFields(range: string): Option<(string, string, string, string)> {
    var parts := Split(range, "_to_");
    if |parts| == 2 then
      var olds, news := Split(parts[0], "_"), Split(parts[1], "_");
      if |olds| == 2 && |news| == 2 then Some((olds[0], olds[1], news[0], news[1])) else None
    else None
  }

  /** What `list_reorgs` reads from one file name. */
  function ParseReorgName(name: string): Option<(nat, nat, nat, nat)> {
    if "reorg_" <= name && EndsWith(name, ".bincode") then
      var tail := name[6..];
      var range := if EndsWith(tail, ".bincode") then tail[..|tail| - 8] else "";
      match ReorgFields(range)
      case None => None
      case Some(f) =>
        match (ParseU64(f.0), ParseU64(f.1), ParseU64(f.2), ParseU64(f.3))
        case (Some(a), Some(b), Some(c), Some(d)) => Some((a, b, c, d))
        case _ => None
    else None
  }

  // ---------------------------------------------------------------------------------------------
  // Round trips

  lemma DigitsHaveNo(s: string)
    requires Plain(s)
    ensures '_' !in s && 't' !in s && '.' !in s
  {
  }

  /** A separator character cuts once when neither side holds it. */
  lemma SplitTwo(a: string, b: string)
    requires '_' !in a && '_' !in b
    ensures Split(a + "_" + b, "_") == [a, b]
  {
    var s := a + "_" + b;
    assert s[|a|] == '_';
    assert MatchesAt(s, "_", |a|);
    forall i: nat | i < |a|
      ensures !MatchesAt(s, "_", i)
    {
      assert s[i..i + 1] == [a[i]] && a[i] in a;
    }
    SplitFirst(s, "_", 0, |a|);
    assert s[..|a|] == a && s[|a| + 1..] == b;
    forall i: nat
      ensures !MatchesAt(b, "_", i)
    {
      if i + 1 <= |b| {
        assert b[i..i + 1] == [b[i]] && b[i] in b;
      }
    }
    SplitNone(b, "_", 0);
  }

  /** The long separator cuts once when its `t` occurs nowhere else. */
  lemma SplitRange(a: string, b: string)
    requires 't' !in a && 't' !in b
    ensures Split(a + "_to_" + b, "_to_") == [a, b]
  {
    var s, pat := a + "_to_" + b, "_to_";
    assert s[|a|..|a| + 4] == pat;
    forall i: nat | i != |a|
      ensures !MatchesAt(s, pat, i)
    {
      if i + 4 <= |s| {
        assert s[i..i + 4][1] == s[i + 1];
        if i + 1 < |a| {
          assert s[i + 1] == a[i + 1] && a[i + 1] in a;
        } else if i + 1 >= |a| + 4 {
          assert s[i + 1] == b[i + 1 - |a| - 4] && b[i + 1 - |a| - 4] in b;
        } else {
          assert s[i + 1] == pat[i + 1 - |a|];
        }
      }
    }
    SplitFirst(s, pat, 0, |a|);
    assert s[..|a|] == a && s[|a| + 4..] == b;
    forall i: nat
      ensures !MatchesAt(b, pat, i)
    {
      if i + 4 <= |b| {
        assert b[i..i + 4][1] == b[i + 1] && b[i + 1] in b;
      }
    }
    SplitNone(b, pat, 0);
  }

  lemma FieldsOf(a: string, b: string, c: string, d: string)
    requires Plain(a) && Plain(b) && Plain(c) && Plain(d)
    ensures ReorgFields(a + "_" + b + "_to_" + c + "_" + d) == Some((a, b, c, d))
  {
    DigitsHaveNo(a);
    DigitsHaveNo(b);
    DigitsHaveNo(c);
    DigitsHaveNo(d);
    var olds, news := a + "_" + b, c + "_" + d;
    assert a + "_" + b + "_to_" + c + "_" + d == olds + "_to_" + news;
    SplitRange(olds, news);
    SplitTwo(a, b);
    SplitTwo(c, d);
  }

  lemma StripReorg(range: string)
    ensures var name := "reorg_" + range + ".bincode";
            && "reorg_" <= name && EndsWith(name, ".bincode")
            && EndsWith(name[6..], ".bincode") && name[6..][..|name[6..]| - 8] == range
  {
    var name := "reorg_" + range + ".bincode";
    assert name[6..] == range + ".bincode";
    assert name[|name| - 8..] == ".bincode";
    assert (range + ".bincode")[|range|..] == ".bincode";
  }

  lemma NameParses(range: string, a: string, b: string, c: string, d: string)
    requires ReorgFields(range) == Some((a, b, c, d))
    requires ParseU64(a).Some? && ParseU64(b).Some? && ParseU64(c).Some? && ParseU64(d).Some?
    ensures ParseReorgName("reorg_" + range + ".bincode")
            == Some((ParseU64(a).value, ParseU64(b).value, ParseU64(c).value, ParseU64(d).value))
  {
    StripReorg(range);
  }

  lemma PrintedRange(a: nat, b: nat, c: nat, d: nat)
    ensures ReorgFields(ReorgRange(a, b, c, d)) == Some((Decimal(a), Decimal(b), Decimal(c), Decimal(d)))
  {
    DecimalReadsBack(a);
    DecimalReadsBack(b);
    DecimalReadsBack(c);
    DecimalReadsBack(d);
    FieldsOf(Decimal(a), Decimal(b), Decimal(c), Decimal(d));
  }

  /** The name printed for any reorg of u64 bounds parses back to exactly those bounds. */
  lemma {:induction false} ReorgNamesRoundTrip(a: nat, b: nat, c: nat, d: nat)
    requires a <= U64_MAX && b <= U64_MAX && c <= U64_MAX && d <= U64_MAX
    ensures ParseReorgName(ReorgName(a, b, c, d)) == Some((a, b, c, d))
  {
    PrintThenParse(a);
    PrintThenParse(b);
    PrintThenParse(c);
    PrintThenParse(d);
    PrintedRange(a, b, c, d);
    NameParses(ReorgRange(a, b, c, d), Decimal(a), Decimal(b), Decimal(c), Decimal(d));
  }

  lemma SplitHead(n: string, rest: string)
    requires '_' !in n
    ensures Split(n + ("_" + rest), "_")[0] == n
  {
    var s := n + ("_" + rest);
    assert s[|n|] == '_' && s[|n|..|n| + 1] == "_";
    forall i: nat | i < |n|
      ensures !MatchesAt(s, "_", i)
    {
      assert s[i..i + 1] == [n[i]] && n[i] in n;
    }
    SplitFirst(s, "_", 0, |n|);
    assert s[..|n|] == n;
  }

  lemma CommitNameShape(n: string)
    ensures var name := "commit_" + n + "_" + n + ".bincode";
            "commit_" <= name && EndsWith(name, ".bincode") && name[7..] == n + ("_" + (n + ".bincode"))
  {
    var name := "commit_" + n + "_" + n + ".bincode";
    assert name == "commit_" + (n + ("_" + (n + ".bincode")));
    assert name[|name| - 8..] == ".bincode";
  }

  /** The block printed into a commit name is recovered from it. */
  lemma CommitNamesRoundTrip(block: nat)
    requires block <= U64_MAX
    ensures ParseCommitName(CommitName(block)) == Some(block)
  {
    var n := Decimal(block);
    PrintThenParse(block);
    DecimalReadsBack(block);
    DigitsHaveNo(n);
    CommitNameShape(n);
    SplitHead(n, n + ".bincode");
  }

  /** Two reorgs, or two commits, never share a name. */
  lemma NamesAreInjective(a: nat, b: nat, c: nat, d: nat, a': nat, b': nat, c': nat, d': nat)
    requires a <= U64_MAX && b <= U64_MAX && c <= U64_MAX && d <= U64_MAX
    requires a' <= U64_MAX && b' <= U64_MAX && c' <= U64_MAX && d' <= U64_MAX
    ensures ReorgName(a, b, c, d) == ReorgName(a', b', c', d') ==> (a, b, c, d) == (a', b', c', d')
    ensures CommitName(a) == CommitName(a') ==> a == a'
  {
    ReorgNamesRoundTrip(a, b, c, d);
    ReorgNamesRoundTrip(a', b', c', d');
    CommitNamesRoundTrip(a);
    CommitNamesRoundTrip(a');
  }

  /** The fields of a name that `list_reorgs` accepts. */
  function FieldsOfName(name: string): Option<(string, string, string, string)> {
    if "reorg_" <= name && |name| >= 14 then ReorgFields(name[6..|name| - 8]) else None
  }

  lemma FieldsJoin(range: string)
    requires ReorgFields(range).Some?
    ensures var f := ReorgFields(range).value; range == f.0 + "_" + f.1 + "_to_" + f.2 + "_" + f.3
  {
    var parts := Split(range, "_to_");
    SplitJoins(range, "_to_", 0);
    SplitJoins(parts[0], "_", 0);
    SplitJoins(parts[1], "_", 0);
    var f := ReorgFields(range).value;
    assert (f.0 + "_" + f.1) + "_to_" + (f.2 + "_" + f.3) == f.0 + "_" + f.1 + "_to_" + f.2 + "_" + f.3;
  }

  /** A name with fields is its prefix, its range and its suffix. */
  lemma NameShape(name: string)
    requires "reorg_" <= name && EndsWith(name, ".bincode") && EndsWith(name[6..], ".bincode")
    ensures |name| >= 14 && name[6..][..|name[6..]| - 8] == name[6..|name| - 8]
    ensures name == "reorg_" + name[6..|name| - 8] + ".bincode"
  {
    assert name == name[..6] + name[6..|name| - 8] + name[|name| - 8..];
  }

  lemma AcceptedNameShape(name: string)
    requires ParseReorgName(name).Some?
    ensures FieldsOfName(name).Some?
    ensures var q, f := ParseReorgName(name).value, FieldsOfName(name).value;
            && name == "reorg_" + (f.0 + "_" + f.1 + "_to_" + f.2 + "_" + f.3) + ".bincode"
            && ParseU64(f.0) == Some(q.0) && ParseU64(f.1) == Some(q.1)
            && ParseU64(f.2) == Some(q.2) && ParseU64(f.3) == Some(q.3)
  {
    EmptyRangeHasNoFields();
    NameShape(name);
    FieldsJoin(name[6..|name| - 8]);
  }

  lemma EmptyRangeHasNoFields()
    ensures ReorgFields("").None?
  {
    assert SplitFrom("", "_to_", 0) == [""];
  }

  lemma ParsedFieldPrintsBack(s: string)
    requires ParseU64(s).Some?
    ensures Decimal(ParseU64(s).value) == s <==> Canonical(s)
  {
    DecimalIsCanonical(ParseU64(s).value);
    if Canonical(s) {
      assert s[0] in s;
      CanonicalPrints(s);
    }
  }

  /** Parsing accepts more than is printed (a plus sign, leading zeros): a listed reorg is loaded back from
      the very file it was listed from exactly when its four fields are canonical decimals. */
  lemma ListedReorgLoadsIffCanonical(name: string)
    requires ParseReorgName(name).Some?
    ensures FieldsOfName(name).Some?
    ensures var q, f := ParseReorgName(name).value, FieldsOfName(name).value;
            ReorgName(q.0, q.1, q.2, q.3) == name
            <==> Canonical(f.0) && Canonical(f.1) && Canonical(f.2) && Canonical(f.3)
  {
    AcceptedNameShape(name);
    var q, f := ParseReorgName(name).value, FieldsOfName(name).value;
    ParsedFieldPrintsBack(f.0);
    ParsedFieldPrintsBack(f.1);
    ParsedFieldPrintsBack(f.2);
    ParsedFieldPrintsBack(f.3);
    if ReorgName(q.0, q.1, q.2, q.3) == name {
      PrintedFields(q.0, q.1, q.2, q.3);
    }
  }

  lemma PrintedFields(a: nat, b: nat, c: nat, d: nat)
    ensures FieldsOfName(ReorgName(a, b, c, d)) == Some((Decimal(a), Decimal(b), Decimal(c), Decimal(d)))
  {
    PrintedRange(a, b, c, d);
    var name, range := ReorgName(a, b, c, d), ReorgRange(a, b, c, d);
    assert name[6..|name| - 8] == range;
  }

  lemma SmallFields()
    ensures ParseU64("01") == Some(1) && ParseU64("2") == Some(2) && ParseU64("3") == Some(3)
    ensures ParseU64("4") == Some(4) && ParseU64("5") == Some(5)
  {
    assert "01"[..1] == "0" && "0"[..0] == "" && "2"[..0] == "" && "3"[..0] == "" && "4"[..0] == "" && "5"[..0] == "";
  }

  /** A file that is listed as a reorg and not loaded back: its first bound is printed with a leading zero. */
  lemma ListedReorgNotLoaded()
    ensures ParseReorgName("reorg_01_2_to_3_4.bincode") == Some((1, 2, 3, 4))
    ensures ReorgName(1, 2, 3, 4) != "reorg_01_2_to_3_4.bincode"
  {
    var range := "01" + "_" + "2" + "_to_" + "3" + "_" + "4";
    var name := "reorg_" + range + ".bincode";
    assert name == "reorg_01_2_to_3_4.bincode";
    SmallFields();
    FieldsOf("01", "2", "3", "4");
    NameParses(range, "01", "2", "3", "4");
    assert name[6..|name| - 8] == range;
    ListedReorgLoadsIffCanonical(name);
  }

  /** The fields between the prefix and the suffix of a commit name. */
  function CommitFields(name: string): seq<string> {
    if "commit_" <= name && |name| >= 15 then Split(name[7..|name| - 8], "_") else []
  }

  lemma CommitNameMiddle(name: string)
    requires "commit_" <= name && EndsWith(name, ".bincode")
    ensures |name| >= 15 && name == "commit_" + name[7..|name| - 8] + ".bincode"
  {
    assert name[|name| - 8..][0] == '.';
    assert name == name[..7] + name[7..|name| - 8] + name[|name| - 8..];
  }

  /** The first field of a commit name is the same with and without the suffix, when it is a number. */
  lemma FirstField(n: string, m: string)
    requires AllDigits(n) && AllDigits(m)
    ensures Split(n + "_" + m, "_") == [n, m]
    ensures Split(n + "_" + m + ".bincode", "_")[0] == n
  {
    DigitsHaveNo(n);
    DigitsHaveNo(m);
    SplitTwo(n, m);
    assert n + "_" + m + ".bincode" == n + ("_" + (m + ".bincode"));
    SplitHead(n, m + ".bincode");
  }

  lemma PrintedCommitFields(b: nat)
    ensures CommitFields(CommitName(b)) == [Decimal(b), Decimal(b)]
  {
    var n, name := Decimal(b), CommitName(b);
    DecimalReadsBack(b);
    FirstField(n, n);
    assert name[7..|name| - 8] == n + "_" + n;
  }

  /** A name that holds one number twice is read as that number. */
  lemma TwiceIsRead(name: string)
    requires "commit_" <= name && EndsWith(name, ".bincode") && |CommitFields(name)| == 2
    requires CommitFields(name)[0] == CommitFields(name)[1] && Canonical(CommitFields(name)[0])
    ensures var n := CommitFields(name)[0];
            name == "commit_" + n + "_" + n + ".bincode" && ParseCommitName(name) == ParseU64(n)
  {
    CommitNameMiddle(name);
    var middle, n := name[7..|name| - 8], CommitFields(name)[0];
    SplitJoins(middle, "_", 0);
    assert middle == n + "_" + n;
    FirstField(n, n);
    assert name[7..] == n + "_" + n + ".bincode";
  }

  /** A listed commit is loaded back from the very file it was listed from exactly when the name holds one
      canonical decimal twice. */
  lemma ListedCommitLoadsIffTwice(name: string)
    requires ParseCommitName(name).Some?
    ensures CommitName(ParseCommitName(name).value) == name
            <==> |CommitFields(name)| == 2 && CommitFields(name)[0] == CommitFields(name)[1]
                 && Canonical(CommitFields(name)[0])
  {
    var b := ParseCommitName(name).value;
    PrintedCommitFields(b);
    DecimalIsCanonical(b);
    if |CommitFields(name)| == 2 && CommitFields(name)[0] == CommitFields(name)[1] && Canonical(CommitFields(name)[0]) {
      TwiceIsRead(name);
      ParsedFieldPrintsBack(CommitFields(name)[0]);
    }
  }

  /** A commit file that lists block 5 and is never opened for it. */
  lemma ListedCommitNotLoaded()
    ensures ParseCommitName("commit_5_7.bincode") == Some(5)
    ensures CommitName(5) != "commit_5_7.bincode"
  {
    var name := "commit_5_7.bincode";
    SmallFields();
    FirstField("5", "7");
    assert name[7..] == "5" + "_" + "7" + ".bincode" && name[7..|name| - 8] == "5" + "_" + "7";
    assert "commit_" <= name && name[|name| - 8..] == ".bincode";
    ListedCommitLoadsIffTwice(name);
  }

  // ---------------------------------------------------------------------------------------------
  // Which names are listed

  /** What comes before the first separator. */
  lemma {:induction false} SplitHeadShape(s: string, from: nat)
    ensures var head := SplitFrom(s, "_", from)[0];
            s == head || (|head| < |s| && s == head + "_" + s[|head| + 1..])
    decreases |s| - from
  {
    if from >= |s| {
    } else {
      if MatchesAt(s, "_", from) {
        assert s == s[..from] + s[from..from + 1] + s[from + 1..];
      } else {
        SplitHeadShape(s, from + 1);
      }
    }
  }

  lemma SuffixIsNotPlain(name: string)
    requires "commit_" <= name && EndsWith(name, ".bincode")
    ensures !Plain(name[7..])
  {
    CommitNameMiddle(name);
    var dot := name[7..][|name| - 15];
    assert dot == ".bincode"[0] && dot in name[7..];
  }

  ghost predicate CommitForm(name: string, f: string, rest: string) {
    name == "commit_" + f + "_" + rest && EndsWith(name, ".bincode")
  }

  lemma CommitFormOf(name: string, f: string, rest: string)
    requires "commit_" <= name && EndsWith(name, ".bincode") && name[7..] == f + "_" + rest
    ensures CommitForm(name, f, rest)
  {
    assert name == "commit_" + name[7..];
    assert "commit_" + (f + "_" + rest) == "commit_" + f + "_" + rest;
  }

  lemma PlainHead(tail: string) returns (rest: string)
    requires Plain(Split(tail, "_")[0]) && !Plain(tail)
    ensures tail == Split(tail, "_")[0] + "_" + rest
  {
    SplitHeadShape(tail, 0);
    rest := tail[|Split(tail, "_")[0]| + 1..];
  }

  lemma ListedCommitForm(name: string, b: nat) returns (f: string, rest: string)
    requires ParseCommitName(name) == Some(b)
    ensures b <= U64_MAX && Spells(f, b) && CommitForm(name, f, rest)
  {
    f := Split(name[7..], "_")[0];
    ReadsWhatIsSpelt(f, b);
    SpellingIsPlain(f, b);
    SuffixIsNotPlain(name);
    rest := PlainHead(name[7..]);
    CommitFormOf(name, f, rest);
  }

  lemma CommitFormIsListed(name: string, b: nat, f: string, rest: string)
    requires b <= U64_MAX && Spells(f, b) && CommitForm(name, f, rest)
    ensures ParseCommitName(name) == Some(b)
  {
    ReadsWhatIsSpelt(f, b);
    SpellingIsPlain(f, b);
    DigitsHaveNo(f);
    SplitHead(f, rest);
    assert name == "commit_" + (f + ("_" + rest));
    assert name[7..] == f + ("_" + rest);
  }

  /** A file is listed as a commit of a block exactly when its name spells the block up to the next underscore;
      what follows, up to the suffix, is ignored. */
  lemma CommitNamesListed(name: string, b: nat)
    ensures ParseCommitName(name) == Some(b)
            <==> b <= U64_MAX && exists f, rest :: Spells(f, b) && CommitForm(name, f, rest)
  {
    if ParseCommitName(name) == Some(b) {
      var f, rest := ListedCommitForm(name, b);
    } else if b <= U64_MAX && exists f, rest :: Spells(f, b) && CommitForm(name, f, rest) {
      var f, rest :| Spells(f, b) && CommitForm(name, f, rest);
      CommitFormIsListed(name, b, f, rest);
    }
  }

  ghost predicate ReorgForm(name: string, f: (string, string, string, string)) {
    name == "reorg_" + (f.0 + "_" + f.1 + "_to_" + f.2 + "_" + f.3) + ".bincode"
  }

  ghost predicate SpellsAll(f: (string, string, string, string), q: (nat, nat, nat, nat)) {
    Spells(f.0, q.0) && Spells(f.1, q.1) && Spells(f.2, q.2) && Spells(f.3, q.3)
  }

  /** A file is listed as a reorg exactly when its name spells the four bounds in their places. */
  lemma ReorgNamesListed(name: string, q: (nat, nat, nat, nat))
    ensures ParseReorgName(name) == Some(q)
            <==> && q.0 <= U64_MAX && q.1 <= U64_MAX && q.2 <= U64_MAX && q.3 <= U64_MAX
                 && exists f :: SpellsAll(f, q) && ReorgForm(name, f)
  {
    if ParseReorgName(name) == Some(q) {
      AcceptedNameShape(name);
      var f := FieldsOfName(name).value;
      FieldsAreSpelt(f, q);
      assert SpellsAll(f, q) && ReorgForm(name, f);
    }
    if q.0 <= U64_MAX && q.1 <= U64_MAX && q.2 <= U64_MAX && q.3 <= U64_MAX
       && exists f :: SpellsAll(f, q) && ReorgForm(name, f)
    {
      var f :| SpellsAll(f, q) && ReorgForm(name, f);
      FieldsAreSpelt(f, q);
      SpellingIsPlain(f.0, q.0);
      SpellingIsPlain(f.1, q.1);
      SpellingIsPlain(f.2, q.2);
      SpellingIsPlain(f.3, q.3);
      FieldsOf(f.0, f.1, f.2, f.3);
      NameParses(f.0 + "_" + f.1 + "_to_" + f.2 + "_" + f.3, f.0, f.1, f.2, f.3);
    }
  }

  lemma FieldsAreSpelt(f: (string, string, string, string), q: (nat, nat, nat, nat))
    ensures SpellsAll(f, q) && q.0 <= U64_MAX && q.1 <= U64_MAX && q.2 <= U64_MAX && q.3 <= U64_MAX
            <==> && ParseU64(f.0) == Some(q.0) && ParseU64(f.1) == Some(q.1)
                 && ParseU64(f.2) == Some(q.2) && ParseU64(f.3) == Some(q.3)
  {
    ReadsWhatIsSpelt(f.0, q.0);
    ReadsWhatIsSpelt(f.1, q.1);
    ReadsWhatIsSpelt(f.2, q.2);
    ReadsWhatIsSpelt(f.3, q.3);
  }

  // ---------------------------------------------------------------------------------------------
  // Listings

  ghost predicate TotalOrder<T(!new)>(le: (T, T) -> bool) {
    && (forall x, y :: le(x, y) || le(y, x))
    && (forall x, y, z :: le(x, y) && le(y, z) ==> le(x, z))
  }

  ghost predicate SortedBy<T>(q: seq<T>, le: (T, T) -> bool) {
    forall i, j :: 0 <= i < j < |q| ==> le(q[i], q[j])
  }

  function Insert<T>(q: seq<T>, x: T, le: (T, T) -> bool): seq<T>
    decreases |q|
  {
    if q == [] || le(q[|q| - 1], x) then q + [x]
    else Insert(q[..|q| - 1], x, le) + [q[|q| - 1]]
  }

  lemma {:induction false} InsertPermutes<T>(q: seq<T>, x: T, le: (T, T) -> bool)
    ensures multiset(Insert(q, x, le)) == multiset(q) + multiset{x}
    decreases |q|
  {
    if q == [] || le(q[|q| - 1], x) {
    } else {
      InsertPermutes(q[..|q| - 1], x, le);
      assert q == q[..|q| - 1] + [q[|q| - 1]];
    }
  }

  lemma {:induction false} InsertKeepsOrder<T(!new)>(q: seq<T>, x: T, le: (T, T) -> bool)
    requires TotalOrder(le) && SortedBy(q, le)
    ensures SortedBy(Insert(q, x, le), le)
    decreases |q|
  {
    if q != [] && !le(q[|q| - 1], x) {
      var front, last := q[..|q| - 1], q[|q| - 1];
      InsertKeepsOrder(front, x, le);
      InsertPermutes(front, x, le);
      forall y | y in Insert(front, x, le)
        ensures le(y, last)
      {
        assert y in multiset(Insert(front, x, le));
        assert y == x || y in front;
      }
    } else if q != [] {
      forall i | 0 <= i < |q|
        ensures le(q[i], x)
      {
        assert i == |q| - 1 || le(q[i], q[|q| - 1]);
      }
    }
  }

  method Sort<T(!new)>(q: seq<T>, le: (T, T) -> bool) returns (sorted: seq<T>)
    requires TotalOrder(le)
    ensures SortedBy(sorted, le) && multiset(sorted) == multiset(q)
  {
    sorted := [];
    for i := 0 to |q|
      invariant SortedBy(sorted, le) && multiset(sorted) == multiset(q[..i])
    {
      InsertKeepsOrder(sorted, q[i], le);
      InsertPermutes(sorted, q[i], le);
      sorted := Insert(sorted, q[i], le);
      assert q[..i + 1] == q[..i] + [q[i]];
    }
    assert q[..|q|] == q;
  }

  /** The names of a directory that parse, as what they parse to, in directory order. */
  function Parsed<T>(names: seq<string>, parse: string -> Option<T>): seq<T>
    decreases |names|
  {
    if names == [] then []
    else
      var front := Parsed(names[..|names| - 1], parse);
      match parse(names[|names| - 1])
      case Some(v) => front + [v]
      case None => front
  }

  /** How many of the names parse to `v`. */
  function NamesFor<T(==)>(names: seq<string>, parse: string -> Option<T>, v: T): set<nat> {
    set i: nat | i < |names| && parse(names[i]) == Some(v)
  }

  lemma OneNameMore<T>(names: seq<string>, last: string, parse: string -> Option<T>, v: T)
    ensures NamesFor(names + [last], parse, v)
            == NamesFor(names, parse, v) + if parse(last) == Some(v) then {|names|} else {}
  {
    forall i: nat
      ensures i in NamesFor(names + [last], parse, v)
              <==> i in NamesFor(names, parse, v) || (i == |names| && parse(last) == Some(v))
    {
      if i < |names| {
        assert (names + [last])[i] == names[i];
      } else if i == |names| {
        assert (names + [last])[i] == last;
      }
    }
  }

  lemma OneParsedMore<T>(names: seq<string>, last: string, parse: string -> Option<T>)
    ensures Parsed(names + [last], parse)
            == Parsed(names, parse) + match parse(last) case Some(v) => [v] case None => []
  {
    assert (names + [last])[..|names|] == names;
  }

  /** Each value is there once for every name that parses to it. */
  lemma {:induction false} ParsedCounts<T>(names: seq<string>, parse: string -> Option<T>, v: T)
    ensures multiset(Parsed(names, parse))[v] == |NamesFor(names, parse, v)|
    decreases |names|
  {
    if names == [] {
    } else {
      var front, last := names[..|names| - 1], names[|names| - 1];
      assert names == front + [last];
      ParsedCounts(front, parse, v);
      OneNameMore(front, last, parse, v);
      OneParsedMore(front, last, parse);
    }
  }

  /** The loop of both listings, over the names of a directory. */
  method Collect<T>(names: seq<string>, parse: string -> Option<T>) returns (found: seq<T>)
    ensures found == Parsed(names, parse)
  {
    found := [];
    for i := 0 to |names|
      invariant found == Parsed(names[..i], parse)
    {
      assert names[..i + 1][..i] == names[..i];
      var parsed := parse(names[i]);
      if parsed.Some? {
        found := found + [parsed.value];
      }
    }
    assert names[..|names|] == names;
  }

  predicate QuadLe(x: (nat, nat, nat, nat), y: (nat, nat, nat, nat)) {
    if x.0 != y.0 then x.0 < y.0
    else if x.1 != y.1 then x.1 < y.1
    else if x.2 != y.2 then x.2 < y.2
    else x.3 <= y.3
  }

  predicate BlockLe(x: nat, y: nat) { x <= y }

  method ListCommitBlocks(names: seq<string>) returns (blocks: seq<nat>)
    ensures forall i, j :: 0 <= i < j < |blocks| ==> blocks[i] <= blocks[j]
    ensures forall b :: multiset(blocks)[b] == |NamesFor(names, ParseCommitName, b)|
  {
    var found := Collect(names, ParseCommitName);
    blocks := Sort(found, BlockLe);
    forall i, j | 0 <= i < j < |blocks|
      ensures blocks[i] <= blocks[j]
    {
      assert BlockLe(blocks[i], blocks[j]);
    }
    forall b
      ensures multiset(blocks)[b] == |NamesFor(names, ParseCommitName, b)|
    {
      ParsedCounts(names, ParseCommitName, b);
    }
  }

  method ListReorgs(names: seq<string>) returns (reorgs: seq<(nat, nat, nat, nat)>)
    ensures forall i, j :: 0 <= i < j < |reorgs| ==>
              var x, y := reorgs[i], reorgs[j];
              && x.0 <= y.0
              && (x.0 == y.0 ==> x.1 <= y.1)
              && (x.0 == y.0 && x.1 == y.1 ==> x.2 <= y.2)
              && (x.0 == y.0 && x.1 == y.1 && x.2 == y.2 ==> x.3 <= y.3)
    ensures forall q :: multiset(reorgs)[q] == |NamesFor(names, ParseReorgName, q)|
  {
    var found := Collect(names, ParseReorgName);
    reorgs := Sort(found, QuadLe);
    forall i, j | 0 <= i < j < |reorgs|
      ensures QuadLe(reorgs[i], reorgs[j])
    {
    }
    forall q
      ensures multiset(reorgs)[q] == |NamesFor(names, ParseReorgName, q)|
    {
      ParsedCounts(names, ParseReorgName, q);
    }
  }
}
