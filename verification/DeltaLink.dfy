/** The text form of the IMAP cursor: `uv=<UIDVALIDITY>;uid=<last UID>`. */
module DeltaLink {
  import opened Text

  const UINT64_LIMIT := 0x1_0000_0000_0000_0000

  datatype DeltaState = DeltaState(uidValidity: nat, lastUid: nat)

  function Digit(d: nat): char
    requires d < 10
  {
    '0' + d as char
  }

  predicate IsDigit(c: char) {
    '0' <= c <= '9'
  }

  function DigitValue(c: char): nat
    requires IsDigit(c)
  {
    (c - '0') as nat
  }

  /** `%d`. */
  function Decimal(n: nat): string {
    if n < 10 then [Digit(n)] else Decimal(n / 10) + [Digit(n % 10)]
  }

  function Value(s: string): nat
    requires forall c | c in s :: IsDigit(c)
  {
    if s == "" then 0 else Value(s[..|s| - 1]) * 10 + DigitValue(s[|s| - 1])
  }

  /** `strconv.ParseUint(s, 10, 64)`. */
  function ParseUint(s: string): Option<nat> {
    if s == "" || exists c | c in s :: !IsDigit(c) then None
    else if Value(s) >= UINT64_LIMIT then None
    else Some(Value(s))
  }

  predicate HasPrefix(s: string, prefix: string) {
    |prefix| <= |s| && s[..|prefix|] == prefix
  }

  /** The first position at or after `i` at which `sep` begins. */
  function IndexFrom(s: string, sep: string, i: nat): (k: Option<nat>)
    requires i <= |s|
    ensures k.Some? ==>
      i <= k.value && OccursAt(s, sep, k.value) && forall j: nat | i <= j < k.value :: !OccursAt(s, sep, j)
    ensures k.None? ==> forall j: nat | i <= j :: !OccursAt(s, sep, j)
    decreases |s| - i
  {
    if i + |sep| > |s| then None
    else if s[i..i + |sep|] == sep then Some(i)
    else if i == |s| then None
    else IndexFrom(s, sep, i + 1)
  }

  /** `strings.Split`, for a separator that is not empty. */
  function Split(s: string, sep: string): seq<string>
    requires sep != ""
    decreases |s|
  {
    var k := IndexFrom(s, sep, 0);
    if k.None? then [s] else [s[..k.value]] + Split(s[k.value + |sep|..], sep)
  }

  const PREFIX := "uv="
  const SEPARATOR := ";uid="

  /** `buildDeltaLink`. */
  function Build(state: DeltaState): string {
    PREFIX + Decimal(state.uidValidity) + SEPARATOR + Decimal(state.lastUid)
  }

  /** `parseDeltaLink`; a blank link is the beginning, and a malformed one an error. */
  function Parse(link: string): Option<DeltaState> {
    var value := TrimSpace(link);
    if value == "" then Some(DeltaState(0, 0))
    else if !HasPrefix(value, PREFIX) then None
    else
      var parts := Split(value, SEPARATOR);
      if |parts| != 2 then None
      else
        var first := if HasPrefix(parts[0], PREFIX) then parts[0][|PREFIX|..] else parts[0];
        var uidValidity, lastUid := ParseUint(first), ParseUint(parts[1]);
        if uidValidity.None? || lastUid.None? then None
        else Some(DeltaState(uidValidity.value, lastUid.value))
  }

  lemma {:induction false} DecimalIsNumeral(n: nat)
    ensures Decimal(n) != "" && (forall c | c in Decimal(n) :: IsDigit(c)) && Value(Decimal(n)) == n
  {
    if n >= 10 {
      DecimalIsNumeral(n / 10);
      var d := Decimal(n);
      assert d[..|d| - 1] == Decimal(n / 10);
    } else {
      assert Decimal(n)[..0] == "";
    }
  }

  lemma TrimLeavesInk(s: string)
    requires s != "" && !IsSpace(s[0]) && !IsSpace(s[|s| - 1])
    ensures TrimSpace(s) == s
  {
    assert SkipSpace(s, 0) == 0;
    assert DropSpace(s, 0, |s|) == |s|;
  }

  /** The separator is found where it stands when nothing before it begins like it. */
  lemma IndexAtSeparator(s: string, sep: string, p: nat, i: nat)
    requires sep != "" && i <= p && p + |sep| <= |s| && s[p..p + |sep|] == sep
    requires forall j | i <= j < p :: s[j] != sep[0]
    ensures IndexFrom(s, sep, i) == Some(p)
  {
    forall j: nat | i <= j < p ensures !OccursAt(s, sep, j) {
      if j + |sep| <= |s| {
        assert s[j..j + |sep|][0] == s[j];
      }
    }
    assert OccursAt(s, sep, p);
  }

  lemma NoSeparator(s: string, sep: string)
    requires sep != "" && forall c | c in s :: c != sep[0]
    ensures IndexFrom(s, sep, 0) == None && Split(s, sep) == [s]
  {
    forall j: nat ensures !OccursAt(s, sep, j) {
      if j + |sep| <= |s| {
        assert s[j..j + |sep|][0] == s[j] && s[j] in s;
      }
    }
  }

  predicate Numeral(s: string) {
    s != "" && forall c | c in s :: IsDigit(c)
  }

  /** `s` is a link that spells the cursor `state`, perhaps with leading zeros. */
  ghost predicate Spells(s: string, a: string, b: string, state: DeltaState) {
    && s == "uv=" + a + ";uid=" + b && Numeral(a) && Numeral(b)
    && Value(a) == state.uidValidity < UINT64_LIMIT && Value(b) == state.lastUid < UINT64_LIMIT
  }

  /** A link of two numerals splits into exactly two parts. */
  lemma SplitsInTwo(a: string, b: string)
    requires Numeral(a) && Numeral(b)
    ensures Split(PREFIX + a + SEPARATOR + b, SEPARATOR) == [PREFIX + a, b]
  {
    hide Split, IndexFrom;
    var s, p := PREFIX + a + SEPARATOR + b, |PREFIX| + |a|;
    assert s[p..p + |SEPARATOR|] == SEPARATOR;
    assert s[..p] == PREFIX + a && s[p + |SEPARATOR|..] == b;
    forall j | 0 <= j < p ensures s[j] != SEPARATOR[0] {
      assert s[j] == (PREFIX + a)[j];
      if j >= |PREFIX| {
        assert s[j] in a;
      }
    }
    IndexAtSeparator(s, SEPARATOR, p, 0);
    NoSeparator(b, SEPARATOR);
    SplitTwice(s, p);
  }

  lemma SpelledIsRead(link: string, a: string, b: string, state: DeltaState)
    requires Spells(TrimSpace(link), a, b, state)
    ensures Parse(link) == Some(state)
  {
    hide IsSpace, Value, Split, TrimSpace;
    SplitsInTwo(a, b);
    assert HasPrefix(PREFIX + a, PREFIX) && (PREFIX + a)[|PREFIX|..] == a;
  }

  lemma ReadIsSpelled(link: string, state: DeltaState) returns (a: string, b: string)
    requires Parse(link) == Some(state) && TrimSpace(link) != ""
    ensures Spells(TrimSpace(link), a, b, state)
  {
    hide IsSpace, Value, TrimSpace, IndexFrom;
    var s := TrimSpace(link);
    var p := IndexFrom(s, SEPARATOR, 0).value;
    assert s[p] == s[p..p + |SEPARATOR|][0] == SEPARATOR[0];
    assert forall j | 0 <= j < |PREFIX| :: s[j] == s[..|PREFIX|][j];
    var rest := s[p + |SEPARATOR|..];
    assert Split(rest, SEPARATOR) == [rest];
    a, b := s[|PREFIX|..p], rest;
    assert s[..p] == PREFIX + a;
  }

  /** Exactly these links are read, and each as the cursor it spells: a blank one as the beginning,
      and `uv=<numeral>;uid=<numeral>` within 64 bits, between any white space; all else is an error. */
  lemma WhatParseAccepts(link: string, state: DeltaState)
    ensures Parse(link) == Some(state) <==>
      || (TrimSpace(link) == "" && state == DeltaState(0, 0))
      || exists a, b :: Spells(TrimSpace(link), a, b, state)
  {
    hide IsSpace, Value, TrimSpace, IndexFrom, Spells;
    if Parse(link) == Some(state) && TrimSpace(link) != "" {
      var a, b := ReadIsSpelled(link, state);
    }
    if exists a, b :: Spells(TrimSpace(link), a, b, state) {
      var a, b :| Spells(TrimSpace(link), a, b, state);
      SpelledIsRead(link, a, b, state);
    }
  }

  /** Reading a written cursor gives the cursor back, for all 64-bit values. */
  lemma ParseInvertsBuild(state: DeltaState)
    requires state.uidValidity < UINT64_LIMIT && state.lastUid < UINT64_LIMIT
    ensures Parse(Build(state)) == Some(state)
  {
    hide IsSpace, Decimal, Value, Split, TrimSpace, IndexFrom;
    DecimalIsNumeral(state.uidValidity);
    DecimalIsNumeral(state.lastUid);
    BuildHasInk(state);
    TrimLeavesInk(Build(state));
    SpelledIsRead(Build(state), Decimal(state.uidValidity), Decimal(state.lastUid), state);
  }

  lemma SplitTwice(s: string, p: nat)
    requires IndexFrom(s, SEPARATOR, 0) == Some(p)
    requires Split(s[p + |SEPARATOR|..], SEPARATOR) == [s[p + |SEPARATOR|..]]
    ensures Split(s, SEPARATOR) == [s[..p], s[p + |SEPARATOR|..]]
  {
  }

  lemma BuildHasInk(state: DeltaState)
    ensures var s := Build(state); s != "" && !IsSpace(s[0]) && !IsSpace(s[|s| - 1])
  {
    hide Value;
    var b := Decimal(state.lastUid);
    DecimalIsNumeral(state.lastUid);
    assert b[|b| - 1] in b;
  }

  /** The links of record: the two numbers in the usual decimal digits, without leading zeros. */
  lemma WhatBuildWrites(state: DeltaState)
    ensures exists a, b ::
      && Build(state) == "uv=" + a + ";uid=" + b && Numeral(a) && Numeral(b)
      && Value(a) == state.uidValidity && Value(b) == state.lastUid
      && (|a| > 1 ==> a[0] != '0') && (|b| > 1 ==> b[0] != '0')
  {
    hide Value;
    var a, b := Decimal(state.uidValidity), Decimal(state.lastUid);
    DecimalIsNumeral(state.uidValidity);
    DecimalIsNumeral(state.lastUid);
    NoLeadingZero(state.uidValidity);
    NoLeadingZero(state.lastUid);
    assert Build(state) == "uv=" + a + ";uid=" + b && Numeral(a) && Numeral(b);
  }

  lemma {:induction false} NoLeadingZero(n: nat)
    ensures Decimal(n) != "" && (n > 0 ==> Decimal(n)[0] != '0') && (n == 0 ==> Decimal(n) == "0")
  {
    if n >= 10 {
      NoLeadingZero(n / 10);
    }
  }

  /** A numeral is read as usual: each further digit counts one, the ones before it ten times as much. */
  lemma NumeralsMean(s: string, c: char)
    requires (forall d | d in s :: IsDigit(d)) && '0' <= c <= '9'
    ensures IsDigit(c) && Value("") == 0 && Value(s + [c]) == 10 * Value(s) + (c as int - '0' as int)
  {
    assert (s + [c])[..|s|] == s;
  }

  /** Different cursors have different links. */
  lemma BuildIsInjective(a: DeltaState, b: DeltaState)
    requires a.uidValidity < UINT64_LIMIT && a.lastUid < UINT64_LIMIT
    requires b.uidValidity < UINT64_LIMIT && b.lastUid < UINT64_LIMIT
    requires Build(a) == Build(b)
    ensures a == b
  {
    ParseInvertsBuild(a);
    ParseInvertsBuild(b);
  }
}
