/** What resolution promises, stated over all trees and all providers. */
module TextResourceProperties {
  import opened Wrappers
  import opened Decimal
  import opened Platform
  import opened Utils
  import opened TextResources

  ghost predicate AllResolve(ts: seq<TextResource>, P: Provider) {
    forall i :: 0 <= i < |ts| ==> Resolve(ts[i], P).Success?
  }

  /** The strings the children resolve to, in order. */
  ghost function ResolvedValues(ts: seq<TextResource>, P: Provider): seq<string>
    requires AllResolve(ts, P)
  {
    seq(|ts|, i requires 0 <= i < |ts| => Resolve(ts[i], P).value)
  }

  /** Child `k` is the first child that fails to resolve. */
  ghost predicate FirstFailure(ts: seq<TextResource>, P: Provider, k: nat) {
    && k < |ts|
    && Resolve(ts[k], P).Failure?
    && forall j :: 0 <= j < k ==> Resolve(ts[j], P).Success?
  }

  // ---------------------------------------------------------------------------------------
  // Children are resolved left to right

  /** The children's list resolves exactly when every child does, to one string per child. */
  lemma {:induction false} ResolveAllSucceeds(ts: seq<TextResource>, P: Provider)
    ensures ResolveAll(ts, P).Success? <==> AllResolve(ts, P)
    ensures ResolveAll(ts, P).Success? ==> ResolveAll(ts, P).value == ResolvedValues(ts, P)
    decreases |ts|
  {
    if |ts| > 0 {
      ResolveAllSucceeds(ts[1..], P);
      assert forall i :: 1 <= i < |ts| ==> ts[i] == ts[1..][i - 1];
      if AllResolve(ts, P) {
        assert AllResolve(ts[1..], P);
      }
    }
  }

  /** The first child that fails decides the failure; later children play no part. */
  lemma {:induction false} ResolveAllFirstFailure(ts: seq<TextResource>, P: Provider, k: nat)
    requires FirstFailure(ts, P, k)
    ensures ResolveAll(ts, P) == Failure(Resolve(ts[k], P).error)
    decreases |ts|
  {
    if k > 0 {
      assert Resolve(ts[0], P).Success?;
      assert FirstFailure(ts[1..], P, k - 1) by {
        assert forall j :: 0 <= j < k - 1 ==> ts[1..][j] == ts[j + 1];
      }
      ResolveAllFirstFailure(ts[1..], P, k - 1);
    }
  }

  // ---------------------------------------------------------------------------------------
  // RawString, Combined and `+`

  lemma RawStringResolvesToItself(s: string, P: Provider)
    ensures Resolve(RawString(s), P) == Success(s)
    ensures Resolve(TextResourceOf(s), P) == Success(s)
  {
  }

  /** `Join` puts the separator only between neighbours. */
  lemma {:induction false} JoinLength(sep: string, ss: seq<string>)
    requires |ss| >= 1
    ensures |Join(sep, ss)| == TotalLength(ss) + (|ss| - 1) * |sep|
    decreases |ss|
  {
    if |ss| > 1 {
      JoinLength(sep, ss[1..]);
    }
  }

  function TotalLength(ss: seq<string>): nat {
    if |ss| == 0 then 0 else |ss[0]| + TotalLength(ss[1..])
  }

  /** The joined text starts with the first string and ends with the last one. */
  lemma {:induction false} JoinEnds(sep: string, ss: seq<string>)
    requires |ss| >= 1
    ensures |ss[0]| <= |Join(sep, ss)| && Join(sep, ss)[..|ss[0]|] == ss[0]
    ensures |ss[|ss| - 1]| <= |Join(sep, ss)|
    ensures Join(sep, ss)[|Join(sep, ss)| - |ss[|ss| - 1]|..] == ss[|ss| - 1]
    decreases |ss|
  {
    if |ss| > 1 {
      JoinEnds(sep, ss[1..]);
      var rest := Join(sep, ss[1..]);
      var last := ss[|ss| - 1];
      assert ss[1..][|ss[1..]| - 1] == last;
      assert Join(sep, ss) == (ss[0] + sep) + rest;
    }
  }

  /** With the default (empty) separator, `Combined` is plain concatenation. */
  lemma {:induction false} JoinWithoutSeparator(ss: seq<string>)
    ensures Join("", ss) == Concat(ss)
    decreases |ss|
  {
    if |ss| > 1 {
      JoinWithoutSeparator(ss[1..]);
    }
  }

  function Concat(ss: seq<string>): string {
    if |ss| == 0 then "" else ss[0] + Concat(ss[1..])
  }

  lemma CombinedResolvesToJoin(sep: string, rs: seq<TextResource>, P: Provider)
    requires AllResolve(rs, P)
    ensures Resolve(Combined(sep, rs), P) == Success(Join(sep, ResolvedValues(rs, P)))
  {
    ResolveAllSucceeds(rs, P);
  }

  lemma CombinedFailsAtFirstFailure(sep: string, rs: seq<TextResource>, P: Provider, k: nat)
    requires FirstFailure(rs, P, k)
    ensures Resolve(Combined(sep, rs), P) == Failure(Resolve(rs[k], P).error)
  {
    ResolveAllFirstFailure(rs, P, k);
  }

  lemma CombinedOfNothingIsEmpty(sep: string, P: Provider)
    ensures Resolve(Combined(sep, []), P) == Success("")
  {
  }

  lemma CombinedOfThree(sep: string, x: TextResource, y: TextResource, z: TextResource, P: Provider)
    requires Resolve(x, P).Success? && Resolve(y, P).Success? && Resolve(z, P).Success?
    ensures Resolve(Combined(sep, [x, y, z]), P)
         == Success(Resolve(x, P).value + sep + Resolve(y, P).value + sep + Resolve(z, P).value)
  {
    var rs := [x, y, z];
    assert AllResolve(rs, P);
    CombinedResolvesToJoin(sep, rs, P);
    var ss := ResolvedValues(rs, P);
    assert ss[1..][1..] == [ss[2]];
    assert Join(sep, ss[1..]) == ss[1] + sep + ss[2];
    assert Join(sep, ss) == ss[0] + sep + (ss[1] + sep + ss[2]);
    assert ss[0] == Resolve(x, P).value && ss[1] == Resolve(y, P).value && ss[2] == Resolve(z, P).value;
    assert ss[0] + sep + (ss[1] + sep + ss[2]) == ss[0] + sep + ss[1] + sep + ss[2];
  }

  lemma CombinedOfIsConcatenation(rs: seq<TextResource>, P: Provider)
    requires AllResolve(rs, P)
    ensures Resolve(CombinedOf(rs), P) == Success(Concat(ResolvedValues(rs, P)))
  {
    CombinedResolvesToJoin("", rs, P);
    JoinWithoutSeparator(ResolvedValues(rs, P));
  }

  /** `a + b` joins the two texts with one space. */
  lemma PlusResolves(a: TextResource, b: TextResource, P: Provider)
    requires Resolve(a, P).Success? && Resolve(b, P).Success?
    ensures Resolve(Plus(a, b), P) == Success(Resolve(a, P).value + " " + Resolve(b, P).value)
  {
    assert AllResolve([a, b], P);
    CombinedResolvesToJoin(" ", [a, b], P);
  }

  lemma PlusFails(a: TextResource, b: TextResource, P: Provider)
    ensures Resolve(a, P).Failure? ==> Resolve(Plus(a, b), P) == Failure(Resolve(a, P).error)
    ensures Resolve(a, P).Success? && Resolve(b, P).Failure? ==>
              Resolve(Plus(a, b), P) == Failure(Resolve(b, P).error)
  {
    if Resolve(a, P).Failure? {
      CombinedFailsAtFirstFailure(" ", [a, b], P, 0);
    } else if Resolve(b, P).Failure? {
      CombinedFailsAtFirstFailure(" ", [a, b], P, 1);
    }
  }

  // ---------------------------------------------------------------------------------------
  // Empty, orEmpty and the case transforms

  lemma OrEmptyResolves(t: TextResource, P: Provider)
    ensures Resolve(Empty, P) == Success("")
    ensures Resolve(OrEmpty(None), P) == Success("")
    ensures OrEmpty(Some(t)) == t
  {
  }

  lemma CaseTransformsResolve(t: TextResource, P: Provider)
    ensures Resolve(LowercaseOf(t), P)
         == (if Resolve(t, P).Success? then Success(P.lowercase(Resolve(t, P).value)) else Resolve(t, P))
    ensures Resolve(UppercaseOf(t), P)
         == (if Resolve(t, P).Success? then Success(P.uppercase(Resolve(t, P).value)) else Resolve(t, P))
    ensures LowercaseOf(t).inner == t && UppercaseOf(t).inner == t
  {
  }

  // ---------------------------------------------------------------------------------------
  // Resource and Quantity

  /** A reference definition of what a diagnostic names the resource by, read directly off
      the entry-name lookup rather than through `getResourceKey` and `KeyOf`: the entry name
      when the lookup finds one, else the numeric id. */
  function ExpectedKey(P: Provider, id: int): ResourceKey {
    match P.getResourceEntryName(id)
    case Entry(name) => EntryName(name)
    case NotFound => NumericId(id)
  }

  /** The platform receives exactly one string per argument, the i-th being what the i-th
      argument resolves to; its outcome decides the result, and a missing argument is
      reported with the template's placeholder count, the number of arguments given, the
      resource's name and the template. */
  lemma ResourcePassesResolvedArguments(id: int, args: seq<TextResource>, ss: seq<string>, P: Provider)
    requires |ss| == |args|
    requires forall i :: 0 <= i < |args| ==> Resolve(args[i], P) == Success(ss[i])
    ensures P.getString(id, ss).Formatted? ==>
              Resolve(Resource(id, args), P) == Success(P.getString(id, ss).text)
    ensures P.getString(id, ss).FormatFailure? ==>
              Resolve(Resource(id, args), P) == Failure(PlatformFailure(P.getString(id, ss).code))
    ensures P.getString(id, ss).MissingFormatArgument? ==>
              Resolve(Resource(id, args), P) == Failure(MissingArguments(MissingFormatArgumentException,
                Diagnostic(CountStringResourceArgs(P.template(id)), |args|, ExpectedKey(P, id), P.template(id))))
  {
    ResolveAllSucceeds(args, P);
    assert ResolvedValues(args, P) == ss;
  }

  /** As for `Resource`, but through the quantity-selected template, and the missing-argument
      error is an `IllegalArgumentException`. */
  lemma QuantityPassesResolvedArguments(id: int, quantity: int, args: seq<TextResource>, ss: seq<string>,
                                        P: Provider)
    requires |ss| == |args|
    requires forall i :: 0 <= i < |args| ==> Resolve(args[i], P) == Success(ss[i])
    ensures P.getQuantityString(id, quantity, ss).Formatted? ==>
              Resolve(Quantity(id, quantity, args), P) == Success(P.getQuantityString(id, quantity, ss).text)
    ensures P.getQuantityString(id, quantity, ss).FormatFailure? ==>
              Resolve(Quantity(id, quantity, args), P)
              == Failure(PlatformFailure(P.getQuantityString(id, quantity, ss).code))
    ensures P.getQuantityString(id, quantity, ss).MissingFormatArgument? ==>
              Resolve(Quantity(id, quantity, args), P) == Failure(MissingArguments(IllegalArgumentException,
                Diagnostic(CountStringResourceArgs(P.quantityTemplate(id, quantity)), |args|, ExpectedKey(P, id),
                  P.quantityTemplate(id, quantity))))
  {
    ResolveAllSucceeds(args, P);
    assert ResolvedValues(args, P) == ss;
  }

  /** An argument that fails stops resolution before the platform is asked to format. Its
      error passes through, except a `MissingFormatArgumentException` (raised by a nested
      `Resource`), which the enclosing `try` catches and replaces by its own diagnostic. */
  lemma ResourceArgumentFails(id: int, args: seq<TextResource>, k: nat, P: Provider)
    requires FirstFailure(args, P, k)
    ensures var e := Resolve(args[k], P).error;
      Resolve(Resource(id, args), P)
      == Failure(if e.IsMissingFormatArgument() then StringResourceMissing(P, id, |args|) else e)
  {
    ResolveAllFirstFailure(args, P, k);
  }

  lemma QuantityArgumentFails(id: int, quantity: int, args: seq<TextResource>, k: nat, P: Provider)
    requires FirstFailure(args, P, k)
    ensures var e := Resolve(args[k], P).error;
      Resolve(Quantity(id, quantity, args), P)
      == Failure(if e.IsMissingFormatArgument() then QuantityResourceMissing(P, id, quantity, |args|) else e)
  {
    ResolveAllFirstFailure(args, P, k);
  }

  /** The single-argument constructor hands the platform a one-element list. */
  lemma ResourceWithPassesOneArgument(id: int, arg: TextResource, P: Provider)
    requires Resolve(arg, P).Success?
    ensures P.getString(id, [Resolve(arg, P).value]).Formatted? ==>
              Resolve(ResourceWith(id, arg), P) == Success(P.getString(id, [Resolve(arg, P).value]).text)
    ensures ResourceWith(id, arg) == TextResourceFormat(id, [arg])
  {
    ResourcePassesResolvedArguments(id, [arg], [Resolve(arg, P).value], P);
  }

  /** The `textResource*` helpers build the variant of the list form, arguments in order. */
  lemma SugarBuildsListForm(id: int, quantity: int, args: seq<TextResource>, text: string, n: NumberValue)
    ensures TextResourceOf(text) == RawString(text)
    ensures TextResourceFormat(id, args) == Resource(id, args)
    ensures TextResourceQuantity(id, quantity, args) == Quantity(id, quantity, args)
    ensures TextResourceNumber(n) == Number(n)
  {
  }

  /** A template `"Hello, %s!"` given no argument: the diagnostic expects one and got none. */
  lemma MissingArgumentExample(P: Provider)
    requires P.template(7) == "Hello, %s!"
    requires P.getString(7, []) == MissingFormatArgument
    requires P.getResourceEntryName(7) == Entry("greeting")
    ensures Resolve(Resource(7, []), P)
         == Failure(MissingArguments(MissingFormatArgumentException,
              Diagnostic(1, 0, EntryName("greeting"), "Hello, %s!")))
  {
  }

  // ---------------------------------------------------------------------------------------
  // Number

  lemma NumberResolves(n: NumberValue, P: Provider)
    ensures n.Integral? ==> Resolve(Number(n), P) == Success(IntToString(n.whole))
    ensures n.Floating? ==> Resolve(Number(n), P) == Success(P.floatToString(n.value))
  {
  }

  lemma NumberExample(P: Provider)
    ensures Resolve(Number(Integral(42)), P) == Success("42")
    ensures Resolve(Number(Integral(-7)), P) == Success("-7")
  {
    assert DigitChar(2) == '2' && DigitChar(4) == '4' && DigitChar(7) == '7';
    assert NatToString(42) == NatToString(4) + [DigitChar(2)] == "42";
    assert IntToString(-7) == "-" + NatToString(7) == "-7";
    assert Resolve(Number(Integral(42)), P) == Success(IntToString(42));
    assert Resolve(Number(Integral(-7)), P) == Success(IntToString(-7));
  }

  // ---------------------------------------------------------------------------------------
  // Trees that need no resource lookups cannot fail

  /** No `Resource` or `Quantity` node anywhere in the tree. */
  predicate NoLookups(t: TextResource) {
    match t
    case RawString(_) => true
    case Resource(_, _) => false
    case Quantity(_, _, _) => false
    case Combined(_, rs) => forall i :: 0 <= i < |rs| ==> NoLookups(rs[i])
    case Lowercase(inner) => NoLookups(inner)
    case Uppercase(inner) => NoLookups(inner)
    case Number(_) => true
  }

  lemma {:induction false} NoLookupsNeverFails(t: TextResource, P: Provider)
    requires NoLookups(t)
    ensures Resolve(t, P).Success?
    decreases t, 1
  {
    match t
    case RawString(_) =>
    case Combined(_, rs) =>
      NoLookupsNeverFailAll(rs, P);
      ResolveAllSucceeds(rs, P);
    case Lowercase(inner) =>
      NoLookupsNeverFails(inner, P);
    case Uppercase(inner) =>
      NoLookupsNeverFails(inner, P);
    case Number(_) =>
  }

  lemma {:induction false} NoLookupsNeverFailAll(rs: seq<TextResource>, P: Provider)
    requires forall i :: 0 <= i < |rs| ==> NoLookups(rs[i])
    ensures AllResolve(rs, P)
    decreases rs, 0
  {
    forall i | 0 <= i < |rs|
      ensures Resolve(rs[i], P).Success?
    {
      NoLookupsNeverFails(rs[i], P);
    }
  }

  // ---------------------------------------------------------------------------------------
  // The diagnostic message can be read back

  /** The constructor text opens with the heading of its kind and closes with the template. */
  lemma ConstructorTextFrame(kind: ExceptionKind, d: Diagnostic)
    ensures var m := ConstructorText(kind, d);
      && |Heading(kind)| <= |m| && m[..|Heading(kind)|] == Heading(kind)
      && |d.content| <= |m| && m[|m| - |d.content|..] == d.content
  {
  }

  /** `m` holds the decimal text of `n` at index `at`, and the character after it is not a
      digit: the count can be read back from there. */
  predicate WritesCountAt(m: string, at: nat, n: nat) {
    var end := at + |NatToString(n)|;
    end < |m| && m[at..end] == NatToString(n) && !IsDigit(m[end])
  }

  /** What is written at an index is one count only. */
  lemma WrittenCountIsUnique(m: string, at: nat, n1: nat, n2: nat)
    requires WritesCountAt(m, at, n1) && WritesCountAt(m, at, n2)
    ensures n1 == n2
  {
    NatToStringRoundTrip(n1);
    NatToStringRoundTrip(n2);
  }

  lemma {:induction false} WritesCount(pre: string, n: nat, rest: string)
    requires |rest| > 0 && !IsDigit(rest[0])
    ensures WritesCountAt(pre + NatToString(n) + rest, |pre|, n)
  {
    var m := pre + NatToString(n) + rest;
    assert m[|pre| + |NatToString(n)|] == rest[0];
    assert m[|pre|..|pre| + |NatToString(n)|] == NatToString(n);
  }

  /** Two counts written one after the other, each followed by a non-digit. */
  lemma {:induction false} WritesTwoCounts(pre: string, x: nat, mid: string, y: nat, post: string)
    requires |mid| > 0 && !IsDigit(mid[0])
    requires |post| > 0 && !IsDigit(post[0])
    ensures var m := pre + NatToString(x) + mid + NatToString(y) + post;
      WritesCountAt(m, |pre|, x) && WritesCountAt(m, |pre| + |NatToString(x)| + |mid|, y)
  {
    var m := pre + NatToString(x) + mid + NatToString(y) + post;
    assert m == pre + NatToString(x) + (mid + NatToString(y) + post);
    WritesCount(pre, x, mid + NatToString(y) + post);
    WritesCount(pre + NatToString(x) + mid, y, post);
  }

  /** Where the constructor text writes the expected count. */
  function ExpectedCountAt(kind: ExceptionKind): nat {
    |Heading(kind)| + |"Expected count: "|
  }

  /** Where the constructor text writes the actual count. */
  function ActualCountAt(kind: ExceptionKind, d: Diagnostic): nat {
    ExpectedCountAt(kind) + |NatToString(d.expected)| + |". Actual count: "|
  }

  /** The expected and the actual count are written, in decimal, where the constructor text
      places them, so both can be read back. */
  lemma {:induction false} ConstructorTextReportsCounts(kind: ExceptionKind, d: Diagnostic)
    ensures WritesCountAt(ConstructorText(kind, d), ExpectedCountAt(kind), d.expected)
    ensures WritesCountAt(ConstructorText(kind, d), ActualCountAt(kind, d), d.actual)
  {
    WritesTwoCounts(Heading(kind) + "Expected count: ", d.expected, ". Actual count: ", d.actual,
      Identification(kind, d));
  }

  /** Equal constructor texts of one kind report equal counts. */
  lemma ConstructorTextDeterminesCounts(kind: ExceptionKind, d1: Diagnostic, d2: Diagnostic)
    requires ConstructorText(kind, d1) == ConstructorText(kind, d2)
    ensures d1.expected == d2.expected && d1.actual == d2.actual
  {
    var m := ConstructorText(kind, d1);
    ConstructorTextReportsCounts(kind, d1);
    ConstructorTextReportsCounts(kind, d2);
    WrittenCountIsUnique(m, ExpectedCountAt(kind), d1.expected, d2.expected);
    WrittenCountIsUnique(m, ActualCountAt(kind, d1), d1.actual, d2.actual);
  }

  /** `getMessage()` loses nothing: equal messages of one kind wrap equal constructor texts. */
  lemma ExceptionMessageUnwraps(kind: ExceptionKind, d1: Diagnostic, d2: Diagnostic)
    requires ExceptionMessage(kind, d1) == ExceptionMessage(kind, d2)
    ensures ConstructorText(kind, d1) == ConstructorText(kind, d2)
  {
    var m := ExceptionMessage(kind, d1);
    if kind == MissingFormatArgumentException {
      assert ConstructorText(kind, d1) == m[|SpecifierPrefix|..|m| - 1];
    }
  }

  /** Equal messages of one kind report equal expected and actual counts. */
  lemma ExceptionMessageDeterminesCounts(kind: ExceptionKind, d1: Diagnostic, d2: Diagnostic)
    requires ExceptionMessage(kind, d1) == ExceptionMessage(kind, d2)
    ensures d1.expected == d2.expected && d1.actual == d2.actual
  {
    ExceptionMessageUnwraps(kind, d1, d2);
    ConstructorTextDeterminesCounts(kind, d1, d2);
  }

  /** The two kinds of diagnostic never share a message: the heading names the kind. */
  lemma ConstructorTextNamesKind(k1: ExceptionKind, d1: Diagnostic, k2: ExceptionKind, d2: Diagnostic)
    requires k1 != k2
    ensures ConstructorText(k1, d1) != ConstructorText(k2, d2)
  {
    ConstructorTextFrame(k1, d1);
    ConstructorTextFrame(k2, d2);
    var m1, m2 := ConstructorText(k1, d1), ConstructorText(k2, d2);
    assert m1[22] == m1[..|Heading(k1)|][22] == Heading(k1)[22];
    assert m2[22] == m2[..|Heading(k2)|][22] == Heading(k2)[22];
  }
}
