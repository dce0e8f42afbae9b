/** PHP value semantics shared by the three session save handlers:
    the ctype_xdigit id check, string truthiness, bin2hex of random bytes,
    and the string|false result of read(). */
module PhpValues {

  newtype byte = x: int | 0 <= x < 256

  /** The output of random_bytes(16): the 128 bits a new session id is made from. */
  type Bytes16 = b: seq<byte> | |b| == 16 witness seq(16, _ => 0 as byte)

  predicate IsHexDigit(c: char) {
    '0' <= c <= '9' || 'a' <= c <= 'f' || 'A' <= c <= 'F'
  }

  predicate IsLowerHexDigit(c: char) {
    '0' <= c <= '9' || 'a' <= c <= 'f'
  }

  /** PHP's ctype_xdigit on a string: non-empty, and every character is a hexadecimal digit. */
  predicate CtypeXdigit(s: string) {
    |s| > 0 && forall i :: 0 <= i < |s| ==> IsHexDigit(s[i])
  }

  /** PHP's conversion of a string to bool: only "" and "0" are false. */
  predicate Truthy(s: string) {
    s != "" && s != "0"
  }

  /** `ini_get("max_execution_time") ?: 30`: an unset or zero limit means 30 seconds. */
  function EffectiveMaxTime(maxExecutionTime: int): int {
    if maxExecutionTime == 0 then 30 else maxExecutionTime
  }

  /** Iterations of `for ($i = 0; $i < $seconds * $perSecond; $i++)`: none when the product is not positive. */
  function PollCount(seconds: int, perSecond: nat): nat {
    if seconds * perSecond > 0 then seconds * perSecond else 0
  }

  /** The lower-case hexadecimal digit bin2hex writes for a nibble. */
  function NibbleChar(n: int): (c: char)
    requires 0 <= n < 16
    ensures IsLowerHexDigit(c)
  {
    if n < 10 then ('0' as int + n) as char else ('a' as int + n - 10) as char
  }

  lemma NibbleCharInjective(m: int, n: int)
    requires 0 <= m < 16 && 0 <= n < 16
    requires NibbleChar(m) == NibbleChar(n)
    ensures m == n
  {
    assert NibbleChar(m) as int == NibbleChar(n) as int;
  }

  /** bin2hex: two lower-case hex digits per byte, high nibble first. */
  function Bin2Hex(bytes: seq<byte>): (hex: string)
    ensures |hex| == 2 * |bytes|
    ensures forall i :: 0 <= i < |hex| ==> IsLowerHexDigit(hex[i])
  {
    if bytes == [] then ""
    else [NibbleChar(bytes[0] as int / 16), NibbleChar(bytes[0] as int % 16)] + Bin2Hex(bytes[1..])
  }

  /** A freshly drawn id is 32 lower-case hex characters, so every handler's ctype_xdigit guard accepts it. */
  lemma Bin2HexIsSessionId(bytes: Bytes16)
    ensures |Bin2Hex(bytes)| == 32
    ensures CtypeXdigit(Bin2Hex(bytes)) && Truthy(Bin2Hex(bytes))
  {
    assert |Bin2Hex(bytes)| == 32;
  }

  /** bin2hex keeps all 128 bits: different draws give different ids. */
  lemma {:induction false} Bin2HexInjective(a: seq<byte>, b: seq<byte>)
    requires Bin2Hex(a) == Bin2Hex(b)
    ensures a == b
  {
    if a != [] {
      var ha, hb := Bin2Hex(a), Bin2Hex(b);
      assert |b| == |a|;
      assert ha[0] == hb[0] && ha[1] == hb[1];
      NibbleCharInjective(a[0] as int / 16, b[0] as int / 16);
      NibbleCharInjective(a[0] as int % 16, b[0] as int % 16);
      assert a[0] == b[0];
      assert Bin2Hex(a[1..]) == ha[2..] == hb[2..] == Bin2Hex(b[1..]);
      Bin2HexInjective(a[1..], b[1..]);
      assert a == [a[0]] + a[1..];
      assert b == [b[0]] + b[1..];
    }
  }

  /** What read() hands back: the session data, or PHP false when the lock could not be acquired. */
  datatype ReadResult = Content(data: string) | ReadFailed

  /** PHP's coercion of a value returned from a function declared `: string` outside strict_types
      mode: a string is kept and false becomes "". */
  function CoerceToString(r: ReadResult): string
  {
    match r
    case Content(data) => data
    case ReadFailed => ""
  }

  /** Once coerced, a lock timeout reads exactly like a session that holds no data. */
  lemma TimeoutCoercesToEmpty()
    ensures CoerceToString(ReadFailed) == CoerceToString(Content(""))
    ensures ReadFailed != Content("")
  {
  }
}
