/** Shared vocabulary: bytes, Go strings as byte sequences, optional values and
    results, and the few string helpers of Go's standard library the data source
    relies on (`strings.HasPrefix`, `strings.Replace(s, old, "", 1)` and `%d`). */
module Common {

  newtype byte = x: int | 0 <= x < 256

  /** A Go `string` (and a `[]byte`): an immutable sequence of bytes. */
  type GoString = seq<byte>

  datatype Option<+T> = None | Some(value: T)

  datatype Result<+T, +E> = Success(value: T) | Failure(error: E)

  predicate IsAscii(s: string)
  {
    forall i :: 0 <= i < |s| ==> s[i] as int < 128
  }

  /** The bytes of an ASCII literal, as a Go string literal holds them. */
  function Str(s: string): (r: GoString)
    requires IsAscii(s)
    ensures |r| == |s|
    ensures forall i :: 0 <= i < |s| ==> r[i] as int == s[i] as int
  {
    seq(|s|, i requires 0 <= i < |s| => (s[i] as int) as byte)
  }

  /** `strings.HasPrefix(s, p)`. */
  predicate HasPrefix(s: GoString, p: GoString)
  {
    |p| <= |s| && s[..|p|] == p
  }

  predicate OccursAt(s: GoString, p: GoString, j: nat)
  {
    j + |p| <= |s| && s[j..j + |p|] == p
  }

  /** The index of the first occurrence of `p` in `s` (`strings.Index`). */
  function IndexOf(s: GoString, p: GoString): (r: Option<nat>)
    ensures r.Some? ==> OccursAt(s, p, r.value)
    ensures r.Some? ==> forall j: nat :: j < r.value ==> !OccursAt(s, p, j)
    ensures r.None? ==> forall j: nat :: !OccursAt(s, p, j)
    decreases |s|
  {
    if |p| > |s| then None
    else if s[..|p|] == p then Some(0)
    else
      assert !OccursAt(s, p, 0) by { assert s[0..|p|] == s[..|p|]; }
      var rest := IndexOf(s[1..], p);
      ShiftOccurrence(s, p);
      match rest
      case None => None
      case Some(i) => Some(i + 1)
  }

  lemma ShiftOccurrence(s: GoString, p: GoString)
    requires |s| > 0
    ensures forall j: nat :: 1 <= j ==> (OccursAt(s, p, j) <==> OccursAt(s[1..], p, j - 1))
  {
    forall j: nat | 1 <= j ensures OccursAt(s, p, j) <==> OccursAt(s[1..], p, j - 1) {
      if j + |p| <= |s| {
        assert s[1..][j - 1..j - 1 + |p|] == s[j..j + |p|];
      }
    }
  }

  /** `strings.Replace(s, p, "", 1)`: `s` without the first occurrence of `p`,
      or `s` itself when `p` does not occur. */
  function RemoveFirst(s: GoString, p: GoString): (r: GoString)
    ensures IndexOf(s, p).None? ==> r == s
    ensures IndexOf(s, p).Some? ==> |r| == |s| - |p|
  {
    match IndexOf(s, p)
    case None => s
    case Some(i) => s[..i] + s[i + |p|..]
  }

  /** When `s` starts with `p`, removing the first occurrence of `p` removes
      exactly the prefix. */
  lemma RemoveFirstOfPrefix(s: GoString, p: GoString)
    requires HasPrefix(s, p)
    ensures RemoveFirst(s, p) == s[|p|..]
  {
    assert OccursAt(s, p, 0);
    assert IndexOf(s, p) == Some(0);
  }

  predicate IsDigit(c: byte)
  {
    48 <= c <= 57
  }

  /** `fmt.Sprintf("%d", n)` for a non-negative `n`. */
  function Decimal(n: nat): (r: GoString)
    ensures |r| >= 1
    ensures forall i :: 0 <= i < |r| ==> IsDigit(r[i])
    ensures |r| > 1 ==> r[0] != 48
  {
    if n < 10 then [(48 + n) as byte] else Decimal(n / 10) + [(48 + n % 10) as byte]
  }

  /** The number a string of decimal digits denotes (`strconv.Atoi` on digits). */
  function DecimalValue(s: GoString): nat
    requires forall i :: 0 <= i < |s| ==> IsDigit(s[i])
  {
    if s == [] then 0
    else
      assert IsDigit(s[|s| - 1]);
      DecimalValue(s[..|s| - 1]) * 10 + (s[|s| - 1] as int - 48)
  }

  /** `%d` output reads back as the number printed. */
  lemma {:induction false} DecimalRoundTrip(n: nat)
    ensures DecimalValue(Decimal(n)) == n
  {
    if n >= 10 {
      var r := Decimal(n);
      assert r[..|r| - 1] == Decimal(n / 10);
      DecimalRoundTrip(n / 10);
    }
  }

  /** Printing is injective: different sizes give different `asset_size` strings. */
  lemma DecimalInjective(m: nat, n: nat)
    requires Decimal(m) == Decimal(n)
    ensures m == n
  {
    DecimalRoundTrip(m);
    DecimalRoundTrip(n);
  }
}
