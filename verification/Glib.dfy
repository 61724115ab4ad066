/** Character classes and digits that more than one reader or writer uses. */
module Glib {
  import opened Wrappers

  /** `g_ascii_isspace`: unlike `isspace`, no vertical tab. */
  predicate IsSpace(c: char) { c == ' ' || c == '\t' || c == '\n' || c == '\r' || c as int == 12 }

  /** `g_ascii_xdigit_value`, with a missing value for other characters. */
  function XDigit(c: char): (d: Option<nat>)
    ensures d.Some? ==> d.value < 16
  {
    if '0' <= c <= '9' then Some((c - '0') as nat)
    else if 'a' <= c <= 'f' then Some((c - 'a') as nat + 10)
    else if 'A' <= c <= 'F' then Some((c - 'A') as nat + 10)
    else None
  }

  /** A digit of `%x`. */
  function HexDigit(d: nat): char
    requires d < 16
  {
    if d < 10 then '0' + d as char else 'a' + (d - 10) as char
  }

  lemma HexDigitReads(d: nat)
    requires d < 16
    ensures XDigit(HexDigit(d)) == Some(d)
  {
  }
}
