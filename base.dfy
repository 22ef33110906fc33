/** Shared vocabulary of the bot's stores: optional values, results with the
    source's error strings, identities, an explicit clock, and the two
    sequence and number helpers the display code relies on. */
module Base {

  /** A platform identity (user, moderator, guild, channel); opaque text. */
  type UserId = string

  /** A point on the explicit clock, in milliseconds. The source keeps ISO
      strings built from `new Date()`; only their order and differences matter. */
  type Timestamp = int

  datatype Option<+T> = None | Some(value: T)

  /** `{ success: true, ... }` or `{ success: false, error }` as the managers return them. */
  datatype Result<+T> = Ok(value: T) | Err(error: string)

  function Max(a: int, b: int): (m: int)
    ensures m >= a && m >= b
    ensures m == a || m == b
  {
    if a >= b then a else b
  }

  function Min(a: int, b: int): (m: int)
    ensures m <= a && m <= b
    ensures m == a || m == b
  {
    if a <= b then a else b
  }

  /** JavaScript's `s.slice(-n)` for n > 0: the last n elements, or all of them. */
  function LastN<T>(s: seq<T>, n: nat): (r: seq<T>)
    requires n > 0
    ensures |r| == Min(n, |s|)
    ensures r == s[|s| - |r|..]
  {
    if |s| <= n then s else s[|s| - n..]
  }

  /** Taking the last m of the last n is taking the last m, when m <= n. */
  lemma LastNOfLastN<T>(s: seq<T>, n: nat, m: nat)
    requires 0 < m <= n
    ensures LastN(LastN(s, n), m) == LastN(s, m)
  {
    var t := LastN(s, n);
    assert t == s[|s| - |t|..];
    var r := LastN(t, m);
    assert r == t[|t| - |r|..];
    assert |r| == |LastN(s, m)|;
    assert r == s[|s| - |r|..];
  }

  function DigitChar(d: nat): (c: char)
    requires d < 10
    ensures '0' <= c <= '9'
  {
    "0123456789"[d]
  }

  /** Decimal text of a natural number, as a template literal prints it. */
  function NatToString(n: nat): (s: string)
    ensures |s| > 0
    ensures forall i :: 0 <= i < |s| ==> '0' <= s[i] <= '9'
    decreases n
  {
    if n < 10 then [DigitChar(n)] else NatToString(n / 10) + [DigitChar(n % 10)]
  }

  /** Decimal text of an integer, with a leading '-' when it is negative. */
  function IntToString(i: int): (s: string)
    ensures |s| > 0
    ensures i >= 0 ==> s == NatToString(i)
    ensures i < 0 ==> s[0] == '-'
  {
    if i < 0 then "-" + NatToString(-i) else NatToString(i)
  }
}
