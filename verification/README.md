# TextResource: a Dafny model

This project models the `ui-resource` library's `TextResource` — a closed tree of text
descriptions (literal text, formatted string resources, quantity (plural) string resources,
joins, case transforms, numbers) resolved later, in one recursive pass, against the host
platform's resource table — together with the diagnostic helpers in `Utils.kt`: the
placeholder counter behind `countStringResourceArgs`, its two `Context` wrappers and
`getResourceKey`.

Modules:

- `Wrappers` — `Option` (a Kotlin nullable) and `Result` (return or throw).
- `Decimal` — decimal text of integers, as `toString()` renders an `Int`/`Long`, with the
  inverse reading and a round-trip proof.
- `Platform` — the Android `Context`/`Resources` calls as the fields of a `Provider` value
  that the resolver takes as a parameter: formatting a string or quantity string (which may
  throw `MissingFormatArgumentException` or some other exception), the unformatted templates
  and the entry-name lookup (which may throw `NotFoundException`). The same record carries
  three Kotlin standard-library functions the model leaves uninterpreted: `String.lowercase()`
  and `String.uppercase()` (Unicode case mapping of the invariant locale, independent of the
  context) and `toString()` of a `Float` or `Double`, whose values are kept exactly as IEEE 754
  bit patterns.
- `Utils` — `Utils.kt`: a scanner for the pattern `%(\d+\$)?[sdf]` and its count, a
  declarative reading of `Regex.findAll` (leftmost, non-overlapping matches) with a loop that
  produces it, and the `Context` wrappers.
- `TextResources` — `TextResource.kt`: the seven variants, `Resolve`, the `+` operator,
  `Empty`, `orEmpty`, `lowercase`/`uppercase`, the `textResource*` helpers and the
  diagnostic messages.
- `TextResourceProperties` — lemmas about resolution over all trees and all providers.

Behaviour worth knowing, as the code has it:

- The arguments of a `Resource` or `Quantity` node are resolved inside its `try` block
  (TextResource.kt:88-91 and 105-112). A `MissingFormatArgumentException` raised by a nested
  `Resource` argument is therefore caught by the enclosing node and replaced by the enclosing
  node's own diagnostic (its template, its argument count). A nested `Quantity` failure is an
  `IllegalArgumentException` and passes through untouched, as does any other exception. See
  `ResourceArgumentFails` and `QuantityArgumentFails`.
- A missing argument in a `Resource` is re-raised as `MissingFormatArgumentException`, in a
  `Quantity` as `IllegalArgumentException`; the model keeps the two kinds apart.
- There are seven variants; `Lowercase` and `Uppercase` are separate.
- The pattern's `\d` is ICU's on Android: any Unicode decimal digit (general category Nd),
  not only `0`-`9`. `%١$s` (an Arabic-Indic one) counts as a placeholder. The model's digit
  class is the Nd set of Unicode 15.0.
- The exception a `Resource` raises is a `MissingFormatArgumentException` built from the
  diagnostic text; that class takes a format specifier as its argument, and its message is
  `Format specifier '<text>'`. The `Quantity` diagnostic's message is the text itself.
- The counter is a left-to-right scan: `%%s` counts one placeholder, because after failing at
  the first `%` the scan finds `%s` at the second.
- Resolution is a function of the tree and the provider, so resolving the same tree twice
  against the same provider gives the same result.

## Model

| member | source | states |
|---|---|---|
| Decimal.NatToString | ui-resource/src/main/java/com/miz/uiresource/TextResource.kt:139-141 | the decimal text of a whole number is non-empty, all ASCII digits, and has no leading zero |
| Decimal.IntToString | ui-resource/src/main/java/com/miz/uiresource/TextResource.kt:139-141 | an integer's text starts with a minus sign exactly when the integer is negative |
| Decimal.NatToStringRoundTrip | ui-resource/src/main/java/com/miz/uiresource/TextResource.kt:139-141 | reading the digits of a whole number's text back gives the number |
| Decimal.IntToStringRoundTrip | ui-resource/src/main/java/com/miz/uiresource/TextResource.kt:139-141 | an integer's text has the shape sign-then-digits and parses back to the integer |
| Decimal.IntToStringInjective | ui-resource/src/main/java/com/miz/uiresource/TextResource.kt:139-141 | distinct integers render to distinct texts |
| Utils.DigitRunIsMaximal | ui-resource/src/main/java/com/miz/uiresource/Utils.kt:35 | the greedy `\d+` run: every character before its end is a Unicode decimal digit and the character at the end, if any, is not |
| Utils.MatchAt | ui-resource/src/main/java/com/miz/uiresource/Utils.kt:35 | a match starts with `%`, is at least two characters long and lies inside the string |
| Utils.MatchAtIsPlaceholder | ui-resource/src/main/java/com/miz/uiresource/Utils.kt:35 | the scanner matches `n` characters at `i` if and only if those characters form a word of `%(\d+\$)?[sdf]` |
| Utils.CountFrom | ui-resource/src/main/java/com/miz/uiresource/Utils.kt:33-38 | the matches found from index `i` on number at most half the remaining length, since each is at least two characters long |
| Utils.CountFromAtMostPercents | ui-resource/src/main/java/com/miz/uiresource/Utils.kt:33-38 | the matches found from index `i` on number at most the `%` signs remaining, each match starting at its own `%` |
| Utils.CountStringResourceArgs | ui-resource/src/main/java/com/miz/uiresource/Utils.kt:33-38 | the count is at most the number of `%` signs and at most half the template's length |
| Utils.FindAll | ui-resource/src/main/java/com/miz/uiresource/Utils.kt:35-36 | the loop collects leftmost, non-overlapping matches covering every index where the pattern matches, and as many of them as the count |
| Utils.NextStartIsMatch | ui-resource/src/main/java/com/miz/uiresource/Utils.kt:35-36 | under the leftmost reading, a match found after the previous reported match is the next reported one |
| Utils.LeftmostStep | ui-resource/src/main/java/com/miz/uiresource/Utils.kt:35-36 | one scan step read against any leftmost match sequence: a match at the scan position is the next reported start and does not overlap the one after; a position without a match lies before the next start |
| Utils.CountFromLeftmost | ui-resource/src/main/java/com/miz/uiresource/Utils.kt:35-36 | from any position between reported matches, the scan counts exactly the reported matches still ahead |
| Utils.CountIsLeftmostMatchCount | ui-resource/src/main/java/com/miz/uiresource/Utils.kt:35-36 | any sequence of leftmost, non-overlapping matches has exactly as many elements as the count |
| Utils.MatchAtShift | ui-resource/src/main/java/com/miz/uiresource/Utils.kt:35 | matching looks only forward: a prefix does not change whether or how far the pattern matches after it |
| Utils.CountFromShift | ui-resource/src/main/java/com/miz/uiresource/Utils.kt:35-36 | the scan only looks ahead: scanning the tail of `a + b` equals scanning `b` |
| Utils.PlaceholderPrefix | ui-resource/src/main/java/com/miz/uiresource/Utils.kt:30-35 | a leading simple or positional placeholder adds exactly one to the count of what follows |
| Utils.PlainPrefix | ui-resource/src/main/java/com/miz/uiresource/Utils.kt:35 | a leading character other than `%` adds nothing |
| Utils.NonConversionPrefix | ui-resource/src/main/java/com/miz/uiresource/Utils.kt:35 | `%` followed by a character that is neither a digit nor `s`/`d`/`f` starts no match; the scan resumes at that character |
| Utils.NoPercentNoPlaceholders | ui-resource/src/main/java/com/miz/uiresource/Utils.kt:35 | a template without `%` needs no arguments |
| Utils.SimplePlaceholdersCountOnce | ui-resource/src/main/java/com/miz/uiresource/Utils.kt:30-35 | `%s`, `%d` and `%f` each count once |
| Utils.PositionalPlaceholdersCountOnce | ui-resource/src/main/java/com/miz/uiresource/Utils.kt:30-35 | `%1$s`, `%2$d` and `%12$f` each count once |
| Utils.NonAsciiPositionsCountOnce | ui-resource/src/main/java/com/miz/uiresource/Utils.kt:35 | positions written in Arabic-Indic, fullwidth or mathematical digits count once, as ICU's `\d` matches them |
| Utils.OtherConversionsCountZero | ui-resource/src/main/java/com/miz/uiresource/Utils.kt:35 | `%x`, `%c` and `%$s` count nothing |
| Utils.EscapedPercentStillCounts | ui-resource/src/main/java/com/miz/uiresource/Utils.kt:35-36 | the escaped form `%%s` still counts one placeholder |
| Utils.CountStringResourceArguments | ui-resource/src/main/java/com/miz/uiresource/Utils.kt:15-17 | the expected count of a string resource is bounded by the `%` signs and half the length of its unformatted template |
| Utils.CountQuantityStringResourceArguments | ui-resource/src/main/java/com/miz/uiresource/Utils.kt:25-27 | the same bound for the unformatted template the quantity selects |
| Utils.GetResourceKey | ui-resource/src/main/java/com/miz/uiresource/Utils.kt:44-50 | never fails: the entry name when the lookup finds one, no value exactly when it throws `NotFoundException` |
| TextResources.KeyOf | ui-resource/src/main/java/com/miz/uiresource/TextResource.kt:94 | a diagnostic names the resource by its entry name when there is one, otherwise by its numeric id |
| TextResources.Resolve | ui-resource/src/main/java/com/miz/uiresource/TextResource.kt:83-143 | `resolve(context)` over the seven variants; its own contract is empty, and its behaviour per variant is stated by `ResolveAllSucceeds`, `CombinedResolvesToJoin`, `CaseTransformsResolve`, `NumberResolves`, `ResourcePassesResolvedArguments`, `ResourceArgumentFails` and their `Quantity` counterparts, and `NoLookupsNeverFails` |
| TextResources.TryFormat | ui-resource/src/main/java/com/miz/uiresource/TextResource.kt:88-122 | the `try`/`catch (MissingFormatArgumentException)` around argument resolution and formatting; no contract of its own, stated by `ResourcePassesResolvedArguments`, `QuantityPassesResolvedArguments`, `ResourceArgumentFails` and `QuantityArgumentFails` |
| TextResources.ResolveAll | ui-resource/src/main/java/com/miz/uiresource/TextResource.kt:109-111 | the `formatArgs.map { it.resolve(context) }` (also line 90): on success one string per argument; `ResolveAllSucceeds` and `ResolveAllFirstFailure` pin which strings and which error |
| TextResources.Join | ui-resource/src/main/java/com/miz/uiresource/TextResource.kt:126-128 | `joinToString(separator)`; no contract of its own, stated by `JoinLength`, `JoinEnds` and `JoinWithoutSeparator` |
| TextResources.Plus | ui-resource/src/main/java/com/miz/uiresource/TextResource.kt:145-150 | the `+` operator builds a space-separated `Combined`; no contract of its own, stated by `PlusResolves` and `PlusFails` |
| TextResources.OrEmpty | ui-resource/src/main/java/com/miz/uiresource/TextResource.kt:181 | `orEmpty()`; no contract of its own, stated by `OrEmptyResolves` |
| TextResources.NumberToString | ui-resource/src/main/java/com/miz/uiresource/TextResource.kt:139-141 | `number.toString()`: an integral number's text starts with a minus sign exactly when it is negative; `NumberResolves` and `IntToStringRoundTrip` pin the rest |
| TextResources.ConstructorText | ui-resource/src/main/java/com/miz/uiresource/TextResource.kt:95-120 | the text handed to the exception's constructor; no contract of its own, stated by `ConstructorTextFrame`, `ConstructorTextReportsCounts`, `ConstructorTextDeterminesCounts` and `ConstructorTextNamesKind` |
| TextResources.ExceptionMessage | ui-resource/src/main/java/com/miz/uiresource/TextResource.kt:95-121 | the `getMessage()` of the raised exception: for `IllegalArgumentException` the constructor text itself, for `MissingFormatArgumentException` that text wrapped as `Format specifier '…'` |
| TextResourceProperties.ResolveAllSucceeds | ui-resource/src/main/java/com/miz/uiresource/TextResource.kt:89-91 | a list of arguments resolves exactly when every argument does, to one string per argument, in order |
| TextResourceProperties.ResolveAllFirstFailure | ui-resource/src/main/java/com/miz/uiresource/TextResource.kt:109-111 | resolution stops at the first failing argument, whose error is the list's |
| TextResourceProperties.RawStringResolvesToItself | ui-resource/src/main/java/com/miz/uiresource/TextResource.kt:85 | literal text always resolves, to itself |
| TextResourceProperties.JoinLength | ui-resource/src/main/java/com/miz/uiresource/TextResource.kt:125-129 | a join of `n` strings holds their characters and `n - 1` separators |
| TextResourceProperties.JoinEnds | ui-resource/src/main/java/com/miz/uiresource/TextResource.kt:125-129 | a join begins with the first string and ends with the last: no separator before or after |
| TextResourceProperties.JoinWithoutSeparator | ui-resource/src/main/java/com/miz/uiresource/TextResource.kt:61 | with the default empty separator a join is plain concatenation |
| TextResourceProperties.CombinedResolvesToJoin | ui-resource/src/main/java/com/miz/uiresource/TextResource.kt:125-129 | when every child resolves, `Combined` resolves to the children's texts joined by its separator |
| TextResourceProperties.CombinedFailsAtFirstFailure | ui-resource/src/main/java/com/miz/uiresource/TextResource.kt:125-129 | otherwise it fails with the first failing child's error |
| TextResourceProperties.CombinedOfNothingIsEmpty | ui-resource/src/main/java/com/miz/uiresource/TextResource.kt:125-129 | `Combined` with no children resolves to the empty string |
| TextResourceProperties.CombinedOfThree | ui-resource/src/main/java/com/miz/uiresource/TextResource.kt:125-129 | three children resolve to `x + sep + y + sep + z` |
| TextResourceProperties.CombinedOfIsConcatenation | ui-resource/src/main/java/com/miz/uiresource/TextResource.kt:60-63 | `Combined` with its default separator concatenates its children's texts |
| TextResourceProperties.PlusResolves | ui-resource/src/main/java/com/miz/uiresource/TextResource.kt:145-150 | `a + b` resolves to `a`'s text, one space, `b`'s text |
| TextResourceProperties.PlusFails | ui-resource/src/main/java/com/miz/uiresource/TextResource.kt:145-150 | `a + b` fails with `a`'s error, or with `b`'s error when only `b` fails |
| TextResourceProperties.OrEmptyResolves | ui-resource/src/main/java/com/miz/uiresource/TextResource.kt:181 | `Empty` and `null.orEmpty()` resolve to the empty string; `orEmpty` returns a present value unchanged |
| TextResourceProperties.CaseTransformsResolve | ui-resource/src/main/java/com/miz/uiresource/TextResource.kt:131-137 | `lowercase()`/`uppercase()` only wrap; they resolve to the case-mapped text of the child, or fail as the child does |
| TextResourceProperties.ResourcePassesResolvedArguments | ui-resource/src/main/java/com/miz/uiresource/TextResource.kt:87-101 | the platform receives one string per argument, the i-th being the i-th argument's text; its outcome is the result, and a missing argument is reported with the template's placeholder count, the argument count, the entry name or id, and the template |
| TextResourceProperties.QuantityPassesResolvedArguments | ui-resource/src/main/java/com/miz/uiresource/TextResource.kt:104-122 | as for `Resource` through the quantity-selected template, with the error raised as `IllegalArgumentException` |
| TextResourceProperties.ResourceArgumentFails | ui-resource/src/main/java/com/miz/uiresource/TextResource.kt:88-101 | a failing argument stops resolution; a nested `MissingFormatArgumentException` is replaced by this resource's diagnostic, other errors pass through |
| TextResourceProperties.QuantityArgumentFails | ui-resource/src/main/java/com/miz/uiresource/TextResource.kt:105-122 | the same for `Quantity`, whose replacement is an `IllegalArgumentException` |
| TextResourceProperties.ResourceWithPassesOneArgument | ui-resource/src/main/java/com/miz/uiresource/TextResource.kt:28-35 | the single-argument constructor builds the one-element list form and hands the platform that one string |
| TextResourceProperties.SugarBuildsListForm | ui-resource/src/main/java/com/miz/uiresource/TextResource.kt:164-177 | the `textResource*` helpers build the corresponding variant with the arguments in order |
| TextResourceProperties.MissingArgumentExample | ui-resource/src/main/java/com/miz/uiresource/TextResource.kt:92-100 | `"Hello, %s!"` given no argument reports expected 1, actual 0, the entry name and the template |
| TextResourceProperties.NumberResolves | ui-resource/src/main/java/com/miz/uiresource/TextResource.kt:139-141 | an integral number resolves to its decimal text, a floating-point one to the rendering of its exact width and IEEE 754 bit pattern |
| TextResourceProperties.NumberExample | ui-resource/src/main/java/com/miz/uiresource/TextResource.kt:139-141 | `42` resolves to `"42"` and `-7` to `"-7"` |
| TextResourceProperties.ConstructorTextFrame | ui-resource/src/main/java/com/miz/uiresource/TextResource.kt:95-121 | the text handed to the exception's constructor opens with the heading of its kind and ends with the template |
| TextResourceProperties.ExceptionMessageUnwraps | ui-resource/src/main/java/com/miz/uiresource/TextResource.kt:95-121 | `getMessage()` loses nothing: two messages of one kind are equal only when their constructor texts are |
| TextResourceProperties.ExceptionMessageDeterminesCounts | ui-resource/src/main/java/com/miz/uiresource/TextResource.kt:95-121 | two messages of one kind that are equal report the same expected and actual counts |
| TextResourceProperties.WrittenCountIsUnique | ui-resource/src/main/java/com/miz/uiresource/TextResource.kt:97-98 | a count written in decimal and followed by a non-digit can be read back: one place holds one count only |
| TextResourceProperties.ConstructorTextReportsCounts | ui-resource/src/main/java/com/miz/uiresource/TextResource.kt:96-98 | the constructor text writes the expected and the actual count in decimal, each followed by a non-digit, right after their labels |
| TextResourceProperties.ConstructorTextDeterminesCounts | ui-resource/src/main/java/com/miz/uiresource/TextResource.kt:96-98 | two diagnostics of one kind with the same text report the same expected and actual counts |
| TextResourceProperties.ConstructorTextNamesKind | ui-resource/src/main/java/com/miz/uiresource/TextResource.kt:95-121 | a `Resource` diagnostic and a `Quantity` diagnostic never have the same text |
| TextResourceProperties.NoLookupsNeverFails | ui-resource/src/main/java/com/miz/uiresource/TextResource.kt:83-143 | a tree without `Resource` or `Quantity` nodes always resolves |

## Left out

- Android `Context`/`Resources` calls are not modelled: printf-style formatting, plural-category selection, template lookup and entry-name lookup are fields of the `Provider` parameter, with only the failure modes the library reacts to.
- A `NotFoundException` from the template lookups made inside the `catch` handlers (TextResource.kt:93, 99, 114, 120) is not modelled: the template functions are total.
- Exceptions other than `NotFoundException` thrown by `getResourceEntryName` are not modelled.
- `String.lowercase()`/`String.uppercase()` (Unicode case mapping of the invariant locale) are not modelled: they are uninterpreted functions carried by the `Provider` value.
- TextResourceProperties.NumberResolves: the JVM `Float.toString()`/`Double.toString()` algorithm (shortest round-tripping digits, `NaN`, `Infinity`, `-0.0`, exponent form) is not modelled; a floating value is its exact width and IEEE 754 bit pattern, so NaN, the infinities, the signed zeros and a `Float` versus its `Double` widening stay distinct, but their text is an uninterpreted function. Integral numbers are rendered concretely and their width is irrelevant to the rendering.
- `kotlin.Number` subclasses other than the primitive integral and floating-point types (`BigDecimal`, atomic counters, user classes) are not modelled.
- Utils.DigitRunIsMaximal: the digit class `IsRegexDigit` follows the Nd set of Unicode 15.0; Android releases ship ICU versions of other Unicode versions, whose Nd set may differ.
- Strings are sequences of Unicode scalar values: a Kotlin `String` with an unpaired surrogate cannot be expressed, and a supplementary-plane character counts as one element rather than two UTF-16 units.
- The `@Composable` `resolve()` overload (TextResource.kt:187-190) is a UI-framework binding.
- `Parcelable`/`Serializable` plumbing and the annotations are platform serialization; the datatypes have structural equality.
- `printStackTrace` in `getResourceKey` (Utils.kt:48) is logging.
- `UiResource.kt` is an abstract base class with no logic.
- TextResourceProperties.ConstructorTextFrame: the name or id field of the diagnostic text is not stated separately; the frame, the two counts and the kind are.
