/** The `TextResource` tree: text that is described now and computed later, against a
    resource provider, by one total recursive resolution. */
module TextResources {
  import opened Wrappers
  import opened Decimal
  import opened Platform
  import opened Utils

  /** The primitive numbers a `Number` node may hold: integral ones (`Int`, `Long`, ...) and
      floating-point ones (`Float`, `Double`). */
  datatype NumberValue = Integral(whole: int) | Floating(value: FloatingPoint)

  datatype TextResource =
    | RawString(text: string)
    | Resource(id: int, formatArgs: seq<TextResource>)
    | Quantity(id: int, quantity: int, formatArgs: seq<TextResource>)
    | Combined(separator: string, resources: seq<TextResource>)
    | Lowercase(inner: TextResource)
    | Uppercase(inner: TextResource)
    | Number(number: NumberValue)

  /** How a resource is named in a diagnostic: by its entry name, or by the raw id when the
      name cannot be found. */
  datatype ResourceKey = EntryName(name: string) | NumericId(numeric: int)

  /** The details a missing-argument diagnostic reports. */
  datatype Diagnostic = Diagnostic(expected: nat, actual: nat, key: ResourceKey, content: string)

  /** `Resource` re-raises a `MissingFormatArgumentException`; `Quantity` raises an
      `IllegalArgumentException` instead. */
  datatype ExceptionKind = MissingFormatArgumentException | IllegalArgumentException

  datatype ResolveError =
    | MissingArguments(kind: ExceptionKind, diagnostic: Diagnostic)
    // any other exception a platform call throws, passed on untouched
    | PlatformFailure(code: int)
  {
    /** Whether a `catch (e: MissingFormatArgumentException)` clause catches this error. */
    predicate IsMissingFormatArgument() {
      MissingArguments? && kind == MissingFormatArgumentException
    }
  }

  // ---------------------------------------------------------------------------------------
  // Resolution

  /** The name `getResourceKey` finds, or else the id itself (`getResourceKey(id) ?: id`). */
  function KeyOf(P: Provider, id: int): (k: ResourceKey)
    ensures k.EntryName? <==> P.getResourceEntryName(id).Entry?
    ensures k.EntryName? ==> k.name == P.getResourceEntryName(id).name
    ensures k.NumericId? ==> k.numeric == id
  {
    match GetResourceKey(P, id)
    case Some(name) => EntryName(name)
    case None => NumericId(id)
  }

  /** The error a `Resource` node raises when its template lacks arguments. */
  function StringResourceMissing(P: Provider, id: int, actual: nat): ResolveError {
    MissingArguments(MissingFormatArgumentException,
      Diagnostic(CountStringResourceArguments(P, id), actual, KeyOf(P, id), P.template(id)))
  }

  /** The error a `Quantity` node raises when its template lacks arguments. */
  function QuantityResourceMissing(P: Provider, id: int, quantity: int, actual: nat): ResolveError {
    MissingArguments(IllegalArgumentException,
      Diagnostic(CountQuantityStringResourceArguments(P, id, quantity), actual, KeyOf(P, id),
        P.quantityTemplate(id, quantity)))
  }

  /** The `try { format(resolved arguments) } catch (MissingFormatArgumentException)` shared by
      `Resource` and `Quantity`. The arguments are resolved inside the `try`, so a
      `MissingFormatArgumentException` from an argument is caught here as well and replaced by
      `enriched`; every other failure passes through. */
  function TryFormat(args: Result<seq<string>, ResolveError>, format: seq<string> -> FormatOutcome,
                     enriched: ResolveError): Result<string, ResolveError>
  {
    match args
    case Failure(e) => if e.IsMissingFormatArgument() then Failure(enriched) else Failure(e)
    case Success(strings) =>
      match format(strings)
      case Formatted(text) => Success(text)
      case MissingFormatArgument => Failure(enriched)
      case FormatFailure(code) => Failure(PlatformFailure(code))
  }

  /** `number.toString()`: integers in decimal, with a minus sign exactly when negative. */
  function NumberToString(n: NumberValue, P: Provider): (s: string)
    ensures n.Integral? ==> |s| >= 1 && (s[0] == '-' <==> n.whole < 0)
  {
    match n
    case Integral(i) => IntToString(i)
    case Floating(x) => P.floatToString(x)
  }

  /** `resolve(context)`: total over the closed set of variants. */
  function Resolve(t: TextResource, P: Provider): Result<string, ResolveError>
    decreases t
  {
    match t
    case RawString(text) => Success(text)
    case Resource(id, args) =>
      TryFormat(ResolveAll(args, P), (strings: seq<string>) => P.getString(id, strings),
        StringResourceMissing(P, id, |args|))
    case Quantity(id, quantity, args) =>
      TryFormat(ResolveAll(args, P), (strings: seq<string>) => P.getQuantityString(id, quantity, strings),
        QuantityResourceMissing(P, id, quantity, |args|))
    case Combined(separator, resources) =>
      var strings :- ResolveAll(resources, P);
      Success(Join(separator, strings))
    case Lowercase(inner) =>
      var s :- Resolve(inner, P);
      Success(P.lowercase(s))
    case Uppercase(inner) =>
      var s :- Resolve(inner, P);
      Success(P.uppercase(s))
    case Number(n) => Success(NumberToString(n, P))
  }

  /** Resolves a list of children left to right, stopping at the first failure (the
      `map { it.resolve(context) }` of the source). */
  function ResolveAll(ts: seq<TextResource>, P: Provider): (r: Result<seq<string>, ResolveError>)
    ensures r.Success? ==> |r.value| == |ts|
    decreases ts
  {
    if |ts| == 0 then Success([])
    else
      var head :- Resolve(ts[0], P);
      var rest :- ResolveAll(ts[1..], P);
      Success([head] + rest)
  }

  /** `joinToString(separator)`: the strings with `sep` between neighbours, none before the
      first or after the last. */
  function Join(sep: string, ss: seq<string>): string {
    if |ss| == 0 then ""
    else if |ss| == 1 then ss[0]
    else ss[0] + sep + Join(sep, ss[1..])
  }

  // ---------------------------------------------------------------------------------------
  // Smart constructors, operators and extension functions

  /** `Empty` of the companion object. */
  const Empty: TextResource := RawString("")

  /** The `+` operator. */
  function Plus(a: TextResource, b: TextResource): TextResource {
    Combined(" ", [a, b])
  }

  /** `Combined` with its default separator. */
  function CombinedOf(resources: seq<TextResource>): TextResource {
    Combined("", resources)
  }

  /** The single-argument secondary constructor of `Resource`. */
  function ResourceWith(id: int, formatArg: TextResource): TextResource {
    Resource(id, [formatArg])
  }

  /** `textResource(text)`. */
  function TextResourceOf(text: string): TextResource {
    RawString(text)
  }

  /** `textResource(id, vararg formatArgs)`. */
  function TextResourceFormat(id: int, formatArgs: seq<TextResource>): TextResource {
    Resource(id, formatArgs)
  }

  /** `textResource(id, quantity, vararg formatArgs)`, and the vararg secondary constructor
      of `Quantity`. */
  function TextResourceQuantity(id: int, quantity: int, formatArgs: seq<TextResource>): TextResource {
    Quantity(id, quantity, formatArgs)
  }

  /** `textResourceNumber(number)`. */
  function TextResourceNumber(n: NumberValue): TextResource {
    Number(n)
  }

  /** `orEmpty()` on a nullable `TextResource`. */
  function OrEmpty(t: Option<TextResource>): TextResource {
    t.GetOr(Empty)
  }

  /** The `lowercase()` extension. */
  function LowercaseOf(t: TextResource): TextResource {
    Lowercase(t)
  }

  /** The `uppercase()` extension. */
  function UppercaseOf(t: TextResource): TextResource {
    Uppercase(t)
  }

  // ---------------------------------------------------------------------------------------
  // The text of the diagnostic exceptions

  function KeyText(k: ResourceKey): string {
    match k
    case EntryName(name) => name
    case NumericId(id) => IntToString(id)
  }

  function Heading(kind: ExceptionKind): string {
    match kind
    case MissingFormatArgumentException => "Missing arguments for string resource. "
    case IllegalArgumentException => "Missing arguments for quantity string resource. "
  }

  /** The text handed to the constructor of the exception raised for a missing argument. */
  function ConstructorText(kind: ExceptionKind, d: Diagnostic): string {
    Heading(kind) + "Expected count: " + NatToString(d.expected)
    + ". Actual count: " + NatToString(d.actual) + Identification(kind, d)
  }

  /** The closing part of the constructor text, after the counts: how the resource is named,
      and its template. */
  function Identification(kind: ExceptionKind, d: Diagnostic): (m: string)
    ensures |m| > 0 && m[0] == '.'
    ensures |d.content| <= |m| && m[|m| - |d.content|..] == d.content
  {
    var idLabel := if kind == MissingFormatArgumentException then "String" else "Quantity string";
    ". " + idLabel + " ID: " + KeyText(d.key) + ". " + idLabel + " content: " + d.content
  }

  /** `getMessage()` of the exception raised. `MissingFormatArgumentException` takes the
      missing format specifier as its constructor argument and reports it as
      `Format specifier '<argument>'`; `IllegalArgumentException` reports its argument as is. */
  function ExceptionMessage(kind: ExceptionKind, d: Diagnostic): (m: string)
    ensures kind == IllegalArgumentException ==> m == ConstructorText(kind, d)
    ensures kind == MissingFormatArgumentException ==>
      && |m| == |SpecifierPrefix| + |ConstructorText(kind, d)| + 1
      && m[..|SpecifierPrefix|] == SpecifierPrefix
      && m[|SpecifierPrefix|..|m| - 1] == ConstructorText(kind, d)
      && m[|m| - 1] == '\''
  {
    match kind
    case MissingFormatArgumentException => SpecifierPrefix + ConstructorText(kind, d) + "'"
    case IllegalArgumentException => ConstructorText(kind, d)
  }

  const SpecifierPrefix: string := "Format specifier '"
}
