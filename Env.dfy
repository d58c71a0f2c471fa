/**
 * The rule every numeric configuration knob of the service follows: the
 * environment variable is read with `Number.parseInt(raw, 10)` and used only
 * when it is a finite number greater than zero, otherwise a built-in default
 * applies. The parsed value is an input here: `None` stands for an unset or
 * empty variable and for text that does not parse (`NaN`).
 */
module Env {
  import opened Wrappers

  /** The parsed value when it is positive, otherwise `fallback`. */
  function PositiveOr(parsed: Option<int>, fallback: int): (r: int)
    ensures parsed.Some? && parsed.value > 0 ==> r == parsed.value
    ensures (parsed.None? || parsed.value <= 0) ==> r == fallback
    ensures fallback > 0 ==> r > 0
  {
    if parsed.Some? && parsed.value > 0 then parsed.value else fallback
  }

  /** A string variable read as `process.env.X || fallback`: unset and empty both fall back. */
  function NonEmptyOr(raw: Option<string>, fallback: string): (r: string)
    ensures raw.Some? && raw.value != "" ==> r == raw.value
    ensures (raw.None? || raw.value == "") ==> r == fallback
  {
    if raw.Some? && raw.value != "" then raw.value else fallback
  }
}
