/** The diagnostic helpers of the library: the placeholder counter behind
    `countStringResourceArgs`, its two `Context` wrappers, and `getResourceKey`. */
module Utils {
  import opened Wrappers
  import opened Platform

  /** The conversions the counter recognises: string, decimal integer and floating point. */
  predicate IsConversion(c: char) {
    c == 's' || c == 'd' || c == 'f'
  }

  /** `\d` of the platform's regular expressions, which are ICU's: a character of the Unicode
      general category Nd (decimal digit), as of Unicode 15.0. Outside ASCII these are the
      blocks of ten consecutive code points, zero to nine, that start at `DigitBlockZero`,
      and the fifty mathematical digits U+1D7CE to U+1D7FF. */
  predicate IsRegexDigit(c: char) {
    var v := c as int;
    if v < 0x80 then '0' <= c <= '9'
    else (0x1D7CE <= v <= 0x1D7FF) || InDigitBlock(v, 0)
  }

  /** The number of non-ASCII blocks of ten Nd characters. */
  const DigitBlockCount: nat := 62

  /** The code point of the digit zero of the `k`-th non-ASCII block of ten Nd characters. */
  function DigitBlockZero(k: nat): int
    requires k < DigitBlockCount
  {
    match k
    case 0 => 0x0660 case 1 => 0x06F0 case 2 => 0x07C0 case 3 => 0x0966 case 4 => 0x09E6
    case 5 => 0x0A66 case 6 => 0x0AE6 case 7 => 0x0B66 case 8 => 0x0BE6 case 9 => 0x0C66
    case 10 => 0x0CE6 case 11 => 0x0D66 case 12 => 0x0DE6 case 13 => 0x0E50 case 14 => 0x0ED0
    case 15 => 0x0F20 case 16 => 0x1040 case 17 => 0x1090 case 18 => 0x17E0 case 19 => 0x1810
    case 20 => 0x1946 case 21 => 0x19D0 case 22 => 0x1A80 case 23 => 0x1A90 case 24 => 0x1B50
    case 25 => 0x1BB0 case 26 => 0x1C40 case 27 => 0x1C50 case 28 => 0xA620 case 29 => 0xA8D0
    case 30 => 0xA900 case 31 => 0xA9D0 case 32 => 0xA9F0 case 33 => 0xAA50 case 34 => 0xABF0
    case 35 => 0xFF10 case 36 => 0x104A0 case 37 => 0x10D30 case 38 => 0x11066
    case 39 => 0x110F0 case 40 => 0x11136 case 41 => 0x111D0 case 42 => 0x112F0
    case 43 => 0x11450 case 44 => 0x114D0 case 45 => 0x11650 case 46 => 0x116C0
    case 47 => 0x11730 case 48 => 0x118E0 case 49 => 0x11950 case 50 => 0x11C50
    case 51 => 0x11D50 case 52 => 0x11DA0 case 53 => 0x11F50 case 54 => 0x16A60
    case 55 => 0x16AC0 case 56 => 0x16B50 case 57 => 0x1E140 case 58 => 0x1E2F0
    case 59 => 0x1E4F0 case 60 => 0x1E950 case 61 => 0x1FBF0
  }

  /** `v` lies in one of the blocks from the `k`-th on. */
  predicate InDigitBlock(v: int, k: nat)
    decreases DigitBlockCount - k
  {
    k < DigitBlockCount && (DigitBlockZero(k) <= v < DigitBlockZero(k) + 10 || InDigitBlock(v, k + 1))
  }

  lemma {:induction false} InDigitBlockAt(v: int, k: nat, j: nat)
    requires k <= j < DigitBlockCount
    requires DigitBlockZero(j) <= v < DigitBlockZero(j) + 10
    ensures InDigitBlock(v, k)
    decreases j - k
  {
    if k < j {
      InDigitBlockAt(v, k + 1, j);
    }
  }

  /** Membership of a whole word in the language of the pattern `%(\d+\$)?[sdf]`. */
  ghost predicate IsPlaceholder(w: string) {
    && |w| >= 2
    && w[0] == '%'
    && IsConversion(w[|w| - 1])
    && (|w| == 2 || (|w| >= 4 && w[|w| - 2] == '$' && forall j :: 1 <= j < |w| - 2 ==> IsRegexDigit(w[j])))
  }

  /** The end of the run of digits that starts at index `j`. */
  function DigitRunEnd(s: string, j: nat): (k: nat)
    requires j <= |s|
    ensures j <= k <= |s|
    decreases |s| - j
  {
    if j < |s| && IsRegexDigit(s[j]) then DigitRunEnd(s, j + 1) else j
  }

  /** The run found is all digits and cannot be extended. */
  lemma {:induction false} DigitRunIsMaximal(s: string, j: nat)
    requires j <= |s|
    ensures forall m :: j <= m < DigitRunEnd(s, j) ==> IsRegexDigit(s[m])
    ensures DigitRunEnd(s, j) == |s| || !IsRegexDigit(s[DigitRunEnd(s, j)])
    decreases |s| - j
  {
    if j < |s| && IsRegexDigit(s[j]) {
      DigitRunIsMaximal(s, j + 1);
    }
  }

  /** The length of the placeholder the pattern matches at index `i`, if it matches there.
      The optional positional group is greedy, and backing off from it can never succeed
      (a digit is not a conversion), so at most one length is possible. */
  function MatchAt(s: string, i: nat): (r: Option<nat>)
    ensures r.Some? ==> i < |s| && s[i] == '%' && 2 <= r.value && i + r.value <= |s|
  {
    if i + 1 < |s| && s[i] == '%' then
      if IsConversion(s[i + 1]) then Some(2)
      else
        var k := DigitRunEnd(s, i + 1);
        if i + 1 < k && k + 1 < |s| && s[k] == '$' && IsConversion(s[k + 1]) then Some(k + 2 - i)
        else None
    else None
  }

  function MatchLength(s: string, i: nat): nat {
    MatchAt(s, i).GetOr(0)
  }

  /** A digit run is determined by where it starts. */
  lemma DigitRunEndUnique(s: string, j: nat, m: nat)
    requires j <= m < |s|
    requires forall x :: j <= x < m ==> IsRegexDigit(s[x])
    requires !IsRegexDigit(s[m])
    ensures DigitRunEnd(s, j) == m
  {
    DigitRunIsMaximal(s, j);
  }

  /** The scanner's match at `i` is exactly a word of the pattern's language starting at `i`. */
  lemma MatchAtIsPlaceholder(s: string, i: nat, n: nat)
    requires i <= |s|
    ensures MatchAt(s, i) == Some(n) <==> (i + n <= |s| && IsPlaceholder(s[i..i + n]))
  {
    if MatchAt(s, i) == Some(n) {
      var w := s[i..i + n];
      if n != 2 {
        DigitRunIsMaximal(s, i + 1);
        var k := DigitRunEnd(s, i + 1);
        assert k == i + n - 2;
        assert forall j :: 1 <= j < |w| - 2 ==> w[j] == s[i + j];
      }
    }
    if i + n <= |s| && IsPlaceholder(s[i..i + n]) {
      var w := s[i..i + n];
      assert s[i] == w[0] && s[i + 1] == w[1];
      if n > 2 {
        assert forall x :: i + 1 <= x < i + n - 2 ==> s[x] == w[x - i];
        assert s[i + n - 2] == w[n - 2] && s[i + n - 1] == w[n - 1];
        DigitRunEndUnique(s, i + 1, i + n - 2);
      }
    }
  }

  /** Number of `%` characters at index `i` or later. */
  function PercentsFrom(s: string, i: nat): nat
    decreases |s| - i
  {
    if i >= |s| then 0 else (if s[i] == '%' then 1 else 0) + PercentsFrom(s, i + 1)
  }

  lemma {:induction false} PercentsMonotone(s: string, i: nat, j: nat)
    requires i <= j
    ensures PercentsFrom(s, j) <= PercentsFrom(s, i)
    decreases j - i
  {
    if i < j {
      PercentsMonotone(s, i + 1, j);
    }
  }

  /** The scan of `Regex.findAll` from index `i`: on a match, resume after it; otherwise move
      on by one character. Every match starts with its own `%` and is at least two long. */
  function CountFrom(s: string, i: nat): (n: nat)
    requires i <= |s|
    ensures 2 * n <= |s| - i
    decreases |s| - i
  {
    if i == |s| then 0
    else
      match MatchAt(s, i)
      case Some(len) => 1 + CountFrom(s, i + len)
      case None => CountFrom(s, i + 1)
  }

  lemma {:induction false} CountFromAtMostPercents(s: string, i: nat)
    requires i <= |s|
    ensures CountFrom(s, i) <= PercentsFrom(s, i)
    decreases |s| - i
  {
    if i < |s| {
      CountFromStep(s, i);
      match MatchAt(s, i)
      case Some(len) =>
        CountFromAtMostPercents(s, i + len);
        PercentsMonotone(s, i + 1, i + len);
      case None =>
        CountFromAtMostPercents(s, i + 1);
    }
  }

  /** One step of the scan, unfolded. */
  lemma CountFromStep(s: string, i: nat)
    requires i < |s|
    ensures MatchAt(s, i).Some? ==> CountFrom(s, i) == 1 + CountFrom(s, i + MatchAt(s, i).value)
    ensures MatchAt(s, i).None? ==> CountFrom(s, i) == CountFrom(s, i + 1)
  {
  }

  /** `countStringResourceArgs`: the number of matches `findAll` reports for the pattern. */
  function CountStringResourceArgs(s: string): (n: nat)
    ensures n <= PercentsFrom(s, 0)
    ensures n <= |s| / 2
  {
    CountFromAtMostPercents(s, 0);
    CountFrom(s, 0)
  }

  // ---------------------------------------------------------------------------------------
  // Declarative reading of `findAll`: the matches it reports are the leftmost, non-overlapping
  // ones. Every index where the pattern matches lies inside one of the reported matches.

  /** Index `q` lies inside the match that starts at `p`. */
  ghost predicate InMatch(s: string, p: nat, q: nat) {
    MatchAt(s, p).Some? && p <= q < p + MatchLength(s, p)
  }

  ghost predicate Covered(s: string, starts: seq<nat>, q: nat) {
    exists k :: 0 <= k < |starts| && InMatch(s, starts[k], q)
  }

  /** The pattern matches at index `q` (kept apart from `MatchAt` so that the covering
      condition below is only instantiated where it is asked about). */
  ghost predicate IsMatchStart(s: string, q: nat) {
    MatchAt(s, q).Some?
  }

  ghost predicate LeftmostMatches(s: string, starts: seq<nat>) {
    && (forall k :: 0 <= k < |starts| ==> MatchAt(s, starts[k]).Some?)
    && (forall j, k :: 0 <= j < k < |starts| ==> starts[j] + MatchLength(s, starts[j]) <= starts[k])
    && (forall q :: 0 <= q < |s| && IsMatchStart(s, q) ==> Covered(s, starts, q))
  }

  /** What the scan knows after reading up to `pos`: the reported matches are matches, end by
      `pos`, do not overlap, and cover every index before `pos` where the pattern matches. */
  ghost predicate ScannedUpTo(s: string, starts: seq<nat>, pos: nat) {
    && (forall k :: 0 <= k < |starts| ==> MatchAt(s, starts[k]).Some? && starts[k] + MatchLength(s, starts[k]) <= pos)
    && (forall j, k :: 0 <= j < k < |starts| ==> starts[j] + MatchLength(s, starts[j]) <= starts[k])
    && (forall q :: 0 <= q < pos && IsMatchStart(s, q) ==> Covered(s, starts, q))
  }

  /** Reporting the match at `pos` keeps the scan's knowledge up to its end. */
  lemma ReportMatch(s: string, starts: seq<nat>, pos: nat, len: nat)
    requires ScannedUpTo(s, starts, pos)
    requires MatchAt(s, pos) == Some(len)
    ensures ScannedUpTo(s, starts + [pos], pos + len)
  {
    var next := starts + [pos];
    forall q | 0 <= q < pos + len && IsMatchStart(s, q)
      ensures Covered(s, next, q)
    {
      if q < pos {
        var k :| 0 <= k < |starts| && InMatch(s, starts[k], q);
        assert next[k] == starts[k];
      } else {
        assert InMatch(s, next[|starts|], q);
      }
    }
    forall j, k | 0 <= j < k < |next|
      ensures next[j] + MatchLength(s, next[j]) <= next[k]
    {
      if k < |starts| {
        assert next[j] == starts[j] && next[k] == starts[k];
      }
    }
  }

  /** Passing over an index where nothing matches keeps the scan's knowledge. */
  lemma SkipIndex(s: string, starts: seq<nat>, pos: nat)
    requires ScannedUpTo(s, starts, pos)
    requires MatchAt(s, pos).None?
    ensures ScannedUpTo(s, starts, pos + 1)
  {
    assert !IsMatchStart(s, pos);
  }

  /** `findAll` as a loop: collects the start index of every match it reports. */
  method FindAll(s: string) returns (starts: seq<nat>)
    ensures LeftmostMatches(s, starts)
    ensures |starts| == CountStringResourceArgs(s)
  {
    starts := [];
    var pos := 0;
    while pos < |s|
      invariant pos <= |s|
      invariant ScannedUpTo(s, starts, pos)
      invariant |starts| + CountFrom(s, pos) == CountFrom(s, 0)
      decreases |s| - pos
    {
      var m := MatchAt(s, pos);
      if m.Some? {
        ReportMatch(s, starts, pos, m.value);
        starts := starts + [pos];
        pos := pos + m.value;
      } else {
        SkipIndex(s, starts, pos);
        pos := pos + 1;
      }
    }
  }

  /** Under the declarative reading, the next match at or after the end of the previous one
      is the next reported start. */
  lemma NextStartIsMatch(s: string, starts: seq<nat>, pos: nat, k: nat)
    requires LeftmostMatches(s, starts)
    requires pos < |s| && k <= |starts|
    requires k < |starts| ==> pos <= starts[k]
    requires 0 < k ==> starts[k - 1] + MatchLength(s, starts[k - 1]) <= pos
    requires MatchAt(s, pos).Some?
    ensures k < |starts| && starts[k] == pos
  {
    assert IsMatchStart(s, pos);
    var j :| 0 <= j < |starts| && InMatch(s, starts[j], pos);
    var sj := starts[j];
    assert sj <= pos < sj + MatchLength(s, sj);
    if 0 < k {
      assert MatchLength(s, starts[k - 1]) >= 2;
    }
    if k < |starts| {
      assert MatchLength(s, starts[k]) >= 2;
    }
  }

  /** One step of the scan, read against a leftmost match sequence: a match at `pos` is the
      next reported start, and an index without a match lies before it. */
  lemma LeftmostStep(s: string, starts: seq<nat>, pos: nat, k: nat)
    requires LeftmostMatches(s, starts)
    requires pos < |s| && k <= |starts|
    requires k < |starts| ==> pos <= starts[k]
    requires 0 < k ==> starts[k - 1] + MatchLength(s, starts[k - 1]) <= pos
    ensures MatchAt(s, pos).Some? ==>
      k < |starts| && starts[k] == pos && (k + 1 < |starts| ==> pos + MatchLength(s, pos) <= starts[k + 1])
    ensures MatchAt(s, pos).None? ==> (k < |starts| ==> pos + 1 <= starts[k])
  {
    if MatchAt(s, pos).Some? {
      NextStartIsMatch(s, starts, pos, k);
    } else if k < |starts| {
      assert MatchAt(s, starts[k]).Some?;
    }
  }

  lemma StartsInRange(s: string, starts: seq<nat>)
    requires LeftmostMatches(s, starts)
    ensures forall k :: 0 <= k < |starts| ==> starts[k] < |s|
  {
    forall k | 0 <= k < |starts|
      ensures starts[k] < |s|
    {
      assert MatchAt(s, starts[k]).Some?;
    }
  }

  lemma {:induction false} CountFromLeftmost(s: string, starts: seq<nat>, pos: nat, k: nat)
    requires LeftmostMatches(s, starts)
    requires pos <= |s| && k <= |starts|
    requires k < |starts| ==> pos <= starts[k]
    requires 0 < k ==> starts[k - 1] + MatchLength(s, starts[k - 1]) <= pos
    ensures CountFrom(s, pos) == |starts| - k
    decreases |s| - pos, 1
  {
    StartsInRange(s, starts);
    if pos < |s| {
      LeftmostStep(s, starts, pos, k);
      if MatchAt(s, pos).Some? {
        CountAfterMatch(s, starts, pos, k);
      } else {
        CountFromStep(s, pos);
        CountFromLeftmost(s, starts, pos + 1, k);
      }
    }
  }

  lemma {:induction false} CountAfterMatch(s: string, starts: seq<nat>, pos: nat, k: nat)
    requires LeftmostMatches(s, starts)
    requires k < |starts| && starts[k] == pos
    requires MatchAt(s, pos).Some?
    ensures CountFrom(s, pos) == |starts| - k
    decreases |s| - pos, 0
  {
    var len := MatchAt(s, pos).value;
    if k + 1 < |starts| {
      assert pos + len <= starts[k + 1];
    }
    CountFromStep(s, pos);
    CountFromLeftmost(s, starts, pos + len, k + 1);
  }

  /** Any sequence of leftmost, non-overlapping matches has as many elements as the counter
      reports: the count depends only on the declarative reading. */
  lemma CountIsLeftmostMatchCount(s: string, starts: seq<nat>)
    requires LeftmostMatches(s, starts)
    ensures CountStringResourceArgs(s) == |starts|
  {
    CountFromLeftmost(s, starts, 0, 0);
  }

  // ---------------------------------------------------------------------------------------
  // Consequences about particular shapes of template.

  lemma {:induction false} DigitRunEndShift(a: string, b: string, j: nat)
    requires j <= |b|
    ensures DigitRunEnd(a + b, |a| + j) == |a| + DigitRunEnd(b, j)
    decreases |b| - j
  {
    if j < |b| {
      assert (a + b)[|a| + j] == b[j];
      DigitRunEndShift(a, b, j + 1);
    }
  }

  /** Matching looks only forward, so a prefix does not change a match after it. */
  lemma MatchAtShift(a: string, b: string, i: nat)
    requires i <= |b|
    ensures MatchAt(a + b, |a| + i) == MatchAt(b, i)
  {
    var s := a + b;
    assert forall x :: |a| + i <= x < |s| ==> s[x] == b[x - |a|];
    if i + 1 < |b| {
      DigitRunEndShift(a, b, i + 1);
    }
  }

  /** The scan looks only forward, so a prefix that is passed over does not change it. */
  lemma {:induction false} CountFromShift(a: string, b: string, i: nat)
    requires i <= |b|
    ensures CountFrom(a + b, |a| + i) == CountFrom(b, i)
    decreases |b| - i
  {
    if i < |b| {
      MatchAtShift(a, b, i);
      CountFromStep(a + b, |a| + i);
      CountFromStep(b, i);
      if MatchAt(b, i).Some? {
        CountFromShift(a, b, i + MatchAt(b, i).value);
      } else {
        CountFromShift(a, b, i + 1);
      }
    }
  }

  /** Every placeholder, simple (`%s`) or positional (`%2$d`), counts exactly once. */
  lemma PlaceholderPrefix(w: string, s: string)
    requires IsPlaceholder(w)
    ensures CountStringResourceArgs(w + s) == 1 + CountStringResourceArgs(s)
  {
    MatchAtIsPlaceholder(w + s, 0, |w|);
    assert (w + s)[0..|w|] == w;
    CountFromShift(w, s, 0);
  }

  /** A character other than `%` contributes nothing. */
  lemma PlainPrefix(c: char, s: string)
    requires c != '%'
    ensures CountStringResourceArgs([c] + s) == CountStringResourceArgs(s)
  {
    CountFromShift([c], s, 0);
  }

  /** A `%` followed by something that cannot continue a placeholder starts no match; the
      scan moves on to the next character. */
  lemma NonConversionPrefix(c: char, s: string)
    requires !IsConversion(c) && !IsRegexDigit(c)
    ensures CountStringResourceArgs(['%', c] + s) == CountStringResourceArgs([c] + s)
  {
    var t := ['%', c] + s;
    assert t[1] == c;
    assert MatchAt(t, 0).None? by {
      assert DigitRunEnd(t, 1) == 1;
    }
    assert t == ['%'] + ([c] + s);
    CountFromShift(['%'], [c] + s, 0);
  }

  lemma {:induction false} NoPercentsFrom(s: string, i: nat)
    requires forall j :: i <= j < |s| ==> s[j] != '%'
    ensures PercentsFrom(s, i) == 0
    decreases |s| - i
  {
    if i < |s| {
      NoPercentsFrom(s, i + 1);
    }
  }

  lemma NoPercentNoPlaceholders(s: string)
    requires '%' !in s
    ensures CountStringResourceArgs(s) == 0
  {
    NoPercentsFrom(s, 0);
  }

  lemma SimplePlaceholdersCountOnce()
    ensures CountStringResourceArgs("%s") == 1
    ensures CountStringResourceArgs("%d") == 1
    ensures CountStringResourceArgs("%f") == 1
  {
  }

  lemma PositionalPlaceholdersCountOnce()
    ensures CountStringResourceArgs("%1$s") == 1
    ensures CountStringResourceArgs("%2$d") == 1
    ensures CountStringResourceArgs("%12$f") == 1
  {
  }

  /** `\d` is not only ASCII: an Arabic-Indic or a fullwidth digit also names a position. */
  lemma NonAsciiPositionsCountOnce()
    ensures CountStringResourceArgs("%\U{0661}$s") == 1
    ensures CountStringResourceArgs("%\U{FF12}\U{FF10}$d") == 1
    ensures CountStringResourceArgs("%\U{1D7D9}$f") == 1
  {
    InDigitBlockAt(0x0661, 0, 0);
    InDigitBlockAt(0xFF12, 0, 35);
    InDigitBlockAt(0xFF10, 0, 35);
  }

  lemma OtherConversionsCountZero()
    ensures CountStringResourceArgs("%x") == 0
    ensures CountStringResourceArgs("%c") == 0
    ensures CountStringResourceArgs("%$s") == 0
  {
  }

  /** An escaped percent sign does not hide the conversion letter after it: the scan gives up
      on the first `%` and finds `%s` at the second. */
  lemma EscapedPercentStillCounts()
    ensures CountStringResourceArgs("%%s") == 1
  {
  }

  // ---------------------------------------------------------------------------------------
  // The `Context` extensions.

  /** `countStringResourceArguments`: the counter applied to the unformatted template. */
  function CountStringResourceArguments(P: Provider, id: int): (n: nat)
    ensures n <= PercentsFrom(P.template(id), 0)
    ensures n <= |P.template(id)| / 2
  {
    CountStringResourceArgs(P.template(id))
  }

  /** `countQuantityStringResourceArguments`: the counter applied to the unformatted plural
      template selected by `quantity`. */
  function CountQuantityStringResourceArguments(P: Provider, id: int, quantity: int): (n: nat)
    ensures n <= PercentsFrom(P.quantityTemplate(id, quantity), 0)
    ensures n <= |P.quantityTemplate(id, quantity)| / 2
  {
    CountStringResourceArgs(P.quantityTemplate(id, quantity))
  }

  /** `getResourceKey`: the entry name, or `None` when the lookup throws `NotFoundException`;
      the lookup failure never escapes. */
  function GetResourceKey(P: Provider, id: int): (r: Option<string>)
    ensures r.Some? <==> P.getResourceEntryName(id).Entry?
    ensures r.Some? ==> r.value == P.getResourceEntryName(id).name
  {
    match P.getResourceEntryName(id)
    case Entry(name) => Some(name)
    case NotFound => None
  }
}
