/**
 The text under which the chat server files a client's address: the ip, a colon
 and the port in decimal.
*/
module AddressKeys {

  const IP_MAX: nat := 15

  const KEY_MAX: nat := 21

  // `ntohs` on a little-endian machine.
  function SwapBytes(port: nat): (r: nat)
    requires port < 0x1_0000
    ensures r < 0x1_0000
  {
    (port % 256) * 256 + port / 256
  }

  predicate IsDigit(c: char) {
    '0' <= c <= '9'
  }

  function Digit(d: nat): (c: char)
    requires d < 10
    ensures IsDigit(c)
  {
    (d + '0' as int) as char
  }

  // What `%u` prints.
  function Decimal(n: nat): (s: string)
    ensures |s| > 0 && forall i :: 0 <= i < |s| ==> IsDigit(s[i])
  {
    if n < 10 then [Digit(n)] else Decimal(n / 10) + [Digit(n % 10)]
  }

  // What `atoi` reads.
  function Number(s: string): nat
    requires forall i :: 0 <= i < |s| ==> IsDigit(s[i])
    decreases |s|
  {
    if s == "" then 0
    else
      assert IsDigit(s[|s| - 1]);
      10 * Number(s[..|s| - 1]) + (s[|s| - 1] as int - '0' as int)
  }

  // `strncpy` stops after fifteen characters.
  function Key(ip: string, port: nat): string
    requires port < 0x1_0000
  {
    (if |ip| <= IP_MAX then ip else ip[..IP_MAX]) + ":" + Decimal(SwapBytes(port))
  }

  predicate IsAddress(ip: string, port: nat) {
    |ip| <= IP_MAX && ':' !in ip && port < 0x1_0000
  }

  lemma {:induction false} NumberOfDecimal(n: nat)
    ensures Number(Decimal(n)) == n
    decreases n
  {
    if n < 10 {
      assert Decimal(n)[..0] == "";
    } else {
      NumberOfDecimal(n / 10);
      var s := Decimal(n);
      assert s[..|s| - 1] == Decimal(n / 10);
    }
  }

  lemma {:induction false} DecimalLength(n: nat, k: nat)
    requires k > 0 && n < Power(k)
    ensures |Decimal(n)| <= k
    decreases k
  {
    if n >= 10 {
      DecimalLength(n / 10, k - 1);
    }
  }

  function Power(k: nat): nat {
    if k == 0 then 1 else 10 * Power(k - 1)
  }

  /** The two bytes change places. */
  lemma SwapBytesMeans(hi: nat, lo: nat)
    requires hi < 256 && lo < 256
    ensures SwapBytes(256 * hi + lo) == 256 * lo + hi
  {
  }

  /** A number is printed most significant digit first and without leading zeros. */
  lemma {:induction false} NoLeadingZero(n: nat)
    requires n > 0
    ensures Decimal(n)[0] != '0'
    decreases n
  {
    if n >= 10 {
      NoLeadingZero(n / 10);
    }
  }

  lemma SwapTwice(port: nat)
    requires port < 0x1_0000
    ensures SwapBytes(SwapBytes(port)) == port
  {
    var lo, hi := port % 256, port / 256;
    assert SwapBytes(port) == lo * 256 + hi && hi < 256;
    assert (lo * 256 + hi) % 256 == hi && (lo * 256 + hi) / 256 == lo;
  }

  /** Every key fits its buffer of twenty-one characters and a terminator, so
      setting the last byte to the terminator cuts nothing off. */
  lemma KeyFits(ip: string, port: nat)
    requires port < 0x1_0000
    ensures |Key(ip, port)| <= KEY_MAX
  {
    assert Power(5) == 100000;
    DecimalLength(SwapBytes(port), 5);
  }

  method ExtractIp(key: string, ghost ip: string, ghost port: nat) returns (r: string)
    requires IsAddress(ip, port) && key == Key(ip, port)
    ensures r == ip
  {
    r := "";
    var i := 0;
    assert key[|ip|] == ':';
    while key[i] != ':'
      invariant 0 <= i <= |ip| && r == ip[..i]
      decreases |ip| - i
    {
      assert key[i] == ip[i];
      r := r + [key[i]];
      i := i + 1;
    }
    ColonAt(ip, port);
  }

  /** Gives back the number that was printed, which is the port with its bytes swapped. */
  method ExtractPort(key: string, ghost ip: string, ghost port: nat) returns (r: nat)
    requires IsAddress(ip, port) && key == Key(ip, port)
    ensures r == SwapBytes(port)
  {
    var i, buf := 0, "";
    assert key[|ip|] == ':';
    while key[i] != ':'
      invariant 0 <= i <= |ip|
      decreases |ip| - i
    {
      assert key[i] == ip[i];
      i := i + 1;
    }
    ColonAt(ip, port);
    i := i + 1;
    ghost var digits := Decimal(SwapBytes(port));
    assert key[|ip| + 1..] == digits;
    while i < |key|
      invariant |ip| + 1 <= i <= |key| && buf == digits[..i - |ip| - 1]
    {
      assert key[i] == digits[i - |ip| - 1];
      buf := buf + [key[i]];
      i := i + 1;
    }
    assert buf == digits;
    NumberOfDecimal(SwapBytes(port));
    r := Number(buf) % 0x1_0000;
  }

  lemma ColonAt(ip: string, port: nat)
    requires IsAddress(ip, port)
    ensures |ip| < |Key(ip, port)| && Key(ip, port)[|ip|] == ':'
    ensures forall i :: 0 <= i < |ip| ==> Key(ip, port)[i] == ip[i] && ip[i] != ':'
    ensures Key(ip, port)[..|ip|] == ip && Key(ip, port)[|ip| + 1..] == Decimal(SwapBytes(port))
  {
  }

  /** Two clients share a key only if they have the same ip and port. */
  lemma KeyInjective(ip: string, port: nat, ip': string, port': nat)
    requires IsAddress(ip, port) && IsAddress(ip', port') && Key(ip, port) == Key(ip', port')
    ensures ip == ip' && port == port'
  {
    ColonAt(ip, port);
    ColonAt(ip', port');
    assert |ip| == |ip'|;
    NumberOfDecimal(SwapBytes(port));
    NumberOfDecimal(SwapBytes(port'));
    SwapTwice(port);
    SwapTwice(port');
  }
}
