/** What several components share: options, integer widths and fixed-size string fields. */
module Common {

  datatype Option<+T> = None | Some(value: T)

  const U32 := 0x1_0000_0000
  const U64 := 0x1_0000_0000_0000_0000

  /** A string as it fits a field that holds at most `max` characters. */
  function Truncated(s: string, max: nat): string {
    if |s| <= max then s else s[..max]
  }
}
