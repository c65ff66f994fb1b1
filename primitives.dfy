/** Values the queue shares with the .NET runtime: nullable strings, Guids,
    DateTimeOffset and TimeSpan tick counts, whitespace, case-insensitive
    comparison, and the outcome of a call that may throw. */
module Primitives {

  datatype Option<+T> = None | Some(value: T)

  /** Outcome of a .NET call that either returns a value or throws. */
  datatype Result<+T> = Ok(value: T) | Threw(exception: Exception)

  datatype Exception =
    | ArgumentOutOfRange   // String.Substring, DateTimeOffset.Subtract
    | Overflow             // TimeSpan negation of TimeSpan.MinValue
    | Format               // String.Format with a missing argument

  /** A Guid. The model only compares Guids, so a natural number will do;
      Guid.Empty is 0. */
  type Guid = nat

  const EmptyGuid: Guid := 0

  /** Guid.Empty written in the "P" format. */
  const EmptyGuidP: string := "(00000000-0000-0000-0000-000000000000)"

  /** A DateTimeOffset as its UTC tick count; default(DateTimeOffset) is
      DateTimeOffset.MinValue, tick 0. */
  const MinTicks: int := 0
  const MaxTicks: int := 3155378975999999999

  type Instant = t: int | MinTicks <= t <= MaxTicks

  /** A TimeSpan as its signed 64-bit tick count. */
  const MinSpan: int := -0x8000_0000_0000_0000
  const MaxSpan: int := 0x7FFF_FFFF_FFFF_FFFF

  type Span = t: int | MinSpan <= t <= MaxSpan

  /** A .NET string reference, which may be null. */
  type NString = Option<string>

  /** Char.IsWhiteSpace: the Unicode White_Space characters. */
  predicate IsWhiteSpace(c: char) {
    || '\U{0009}' <= c <= '\U{000D}'
    || c == '\U{0020}' || c == '\U{0085}' || c == '\U{00A0}' || c == '\U{1680}'
    || '\U{2000}' <= c <= '\U{200A}'
    || c == '\U{2028}' || c == '\U{2029}' || c == '\U{202F}' || c == '\U{205F}' || c == '\U{3000}'
  }

  /** String.IsNullOrWhiteSpace. */
  predicate IsNullOrWhiteSpace(s: NString) {
    s.None? || forall i :: 0 <= i < |s.value| ==> IsWhiteSpace(s.value[i])
  }

  /** The case mapping behind the runtime's case-insensitive comparisons.
      It depends on culture tables the model does not contain, so it is a
      parameter. */
  type CaseFold = char -> char

  /** String.Equals(a, b, ...IgnoreCase) for non-null strings. */
  predicate EqualsIgnoreCase(fold: CaseFold, a: string, b: string) {
    |a| == |b| && forall i :: 0 <= i < |a| ==> fold(a[i]) == fold(b[i])
  }

  /** The LINQ filter `filter.Equals(row.Column, ...IgnoreCase)`: a null
      column never matches. */
  predicate MatchesIgnoringCase(fold: CaseFold, filter: string, column: NString) {
    column.Some? && EqualsIgnoreCase(fold, filter, column.value)
  }
}
