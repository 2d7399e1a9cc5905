/** The host platform (an Android `Context` and its `Resources`) as seen by the resolver.
    Every platform call the library makes becomes a total function field; the resolver
    receives the provider as an explicit parameter on every call. The same record carries
    the few standard-library string functions the model does not define. */
module Platform {

  /** What `getString(id, args)` / `getQuantityString(id, quantity, args)` do: return the
      formatted text, throw `MissingFormatArgumentException` because the template needs more
      arguments than were given, or throw some other exception (identified by `code`). */
  datatype FormatOutcome =
    | Formatted(text: string)
    | MissingFormatArgument
    | FormatFailure(code: int)

  /** What `resources.getResourceEntryName(id)` does: return the entry name, or throw
      `Resources.NotFoundException`. */
  datatype EntryLookup = Entry(name: string) | NotFound

  /** A floating-point `kotlin.Number`, kept exactly: the width (`Float` or `Double`) and the
      IEEE 754 bit pattern. NaN, the infinities and the two signed zeros are distinct values,
      and so are a `Float` and the `Double` it widens to. */
  datatype FloatingPoint = FloatBits(bits32: bv32) | DoubleBits(bits64: bv64)

  datatype Provider = Provider(
    getString: (int, seq<string>) -> FormatOutcome,
    getQuantityString: (int, int, seq<string>) -> FormatOutcome,
    // `getString(id)` and `getQuantityString(id, quantity)` without arguments: the unformatted template
    template: int -> string,
    quantityTemplate: (int, int) -> string,
    getResourceEntryName: int -> EntryLookup,
    // not platform calls but Kotlin standard-library functions the model leaves
    // uninterpreted: `String.lowercase()` / `String.uppercase()`, the Unicode case mapping of
    // the invariant locale, and `Float.toString()` / `Double.toString()`
    lowercase: string -> string,
    uppercase: string -> string,
    floatToString: FloatingPoint -> string
  )
}
