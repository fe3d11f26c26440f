/** Go's `url.QueryEscape`, which the data source applies to the asset name
    before putting it into the search query, and its inverse `url.QueryUnescape`.
    Letters, digits and `-`, `_`, `.`, `~` stay as they are, a space becomes `+`,
    and every other byte becomes `%` followed by two upper-case hex digits. */
module QueryEscape {
  import opened Common

  const PERCENT: byte := 37
  const PLUS: byte := 43
  const SPACE: byte := 32

  predicate IsAlphanumeric(c: byte)
  {
    65 <= c <= 90 || 97 <= c <= 122 || 48 <= c <= 57
  }

  /** Bytes a query component carries unescaped. */
  predicate Unreserved(c: byte)
  {
    IsAlphanumeric(c) || c == 45 || c == 95 || c == 46 || c == 126
  }

  predicate IsUpperHex(c: byte)
  {
    48 <= c <= 57 || 65 <= c <= 70
  }

  predicate IsHex(c: byte)
  {
    48 <= c <= 57 || 65 <= c <= 70 || 97 <= c <= 102
  }

  function HexDigit(v: nat): (c: byte)
    requires v < 16
    ensures IsUpperHex(c)
  {
    if v < 10 then (48 + v) as byte else (55 + v) as byte
  }

  function HexValue(c: byte): (v: nat)
    requires IsHex(c)
    ensures v < 16
  {
    if c <= 57 then c as int - 48 else if c <= 70 then c as int - 55 else c as int - 87
  }

  /** What a query component may hold once escaped. */
  predicate IsEscapedByte(c: byte)
  {
    Unreserved(c) || c == PLUS || c == PERCENT || IsUpperHex(c)
  }

  function EscapeByte(c: byte): (r: GoString)
    ensures forall i :: 0 <= i < |r| ==> IsEscapedByte(r[i])
  {
    if Unreserved(c) then [c]
    else if c == SPACE then [PLUS]
    else [PERCENT, HexDigit(c as int / 16), HexDigit(c as int % 16)]
  }

  /** `url.QueryEscape`: the output uses only unreserved bytes, `+`, `%` and
      upper-case hex digits, so it never holds the `&`, `=` or `#` that would end
      or split the query field. */
  function Escape(s: GoString): (r: GoString)
    ensures forall i :: 0 <= i < |r| ==> IsEscapedByte(r[i])
    ensures |s| <= |r| <= 3 * |s|
  {
    if s == [] then [] else EscapeByte(s[0]) + Escape(s[1..])
  }

  /** `url.QueryUnescape`: `%XY` to the byte with hex value XY, `+` to a space,
      anything else to itself; a `%` without two hex digits is an error. */
  function Unescape(s: GoString): Option<GoString>
    decreases |s|
  {
    if s == [] then Some([])
    else if s[0] == PERCENT then
      if |s| >= 3 && IsHex(s[1]) && IsHex(s[2]) then
        match Unescape(s[3..])
        case None => None
        case Some(rest) => Some([(HexValue(s[1]) * 16 + HexValue(s[2])) as byte] + rest)
      else None
    else
      match Unescape(s[1..])
      case None => None
      case Some(rest) => Some([if s[0] == PLUS then SPACE else s[0]] + rest)
  }

  lemma UnescapeByte(c: byte, t: GoString)
    ensures Unescape(EscapeByte(c) + t) ==
      match Unescape(t) case None => None case Some(rest) => Some([c] + rest)
  {
    var e := EscapeByte(c);
    assert (e + t)[|e|..] == t;
    if !Unreserved(c) && c != SPACE {
      var hi, lo := c as int / 16, c as int % 16;
      assert HexValue(HexDigit(hi)) == hi && HexValue(HexDigit(lo)) == lo;
      assert (hi * 16 + lo) as byte == c;
    }
  }

  /** Unescaping recovers the escaped bytes exactly. */
  lemma {:induction false} UnescapeEscape(s: GoString)
    ensures Unescape(Escape(s)) == Some(s)
  {
    if s != [] {
      UnescapeByte(s[0], Escape(s[1..]));
      UnescapeEscape(s[1..]);
      assert s == [s[0]] + s[1..];
    }
  }

  /** Escaping is injective, so different asset names give different queries. */
  lemma EscapeInjective(s: GoString, t: GoString)
    requires Escape(s) == Escape(t)
    ensures s == t
  {
    UnescapeEscape(s);
    UnescapeEscape(t);
  }
}
