/** How the receive step prints the sender's address: the four octets of the
    `IPAddress`, each as a `%d` decimal, joined by dots, written by `snprintf`
    into a 16-character buffer. A parser is the formatting's partner: reading
    the text back gives the same address, so two senders never print alike. */
module DottedQuad {
  import opened Types

  /** The four octets `remote_addr[0]` .. `remote_addr[3]`. */
  datatype IPv4 = IPv4(a: byte, b: byte, c: byte, d: byte)

  /** Size of the `remote_ip_str` buffer, terminating NUL included. */
  const IP_STR_SIZE := 16

  predicate IsDigit(ch: char) {
    '0' <= ch <= '9'
  }

  predicate AllDigits(s: string) {
    forall i :: 0 <= i < |s| ==> IsDigit(s[i])
  }

  function DigitChar(d: nat): (ch: char)
    requires d < 10
    ensures IsDigit(ch) && ch as int - '0' as int == d
  {
    ('0' as int + d) as char
  }

  /** `%d` of a non-negative value: its decimal digits, most significant
      first, with no leading zero. */
  function Decimal(n: nat): (s: string)
    ensures 1 <= |s| && AllDigits(s)
  {
    if n < 10 then [DigitChar(n)] else Decimal(n / 10) + [DigitChar(n % 10)]
  }

  /** The value a string of decimal digits denotes. */
  function DecimalValue(s: string): nat
    requires AllDigits(s)
  {
    if s == [] then 0
    else DecimalValue(s[..|s| - 1]) * 10 + (s[|s| - 1] as int - '0' as int)
  }

  lemma {:induction false} DecimalRoundTrip(n: nat)
    ensures DecimalValue(Decimal(n)) == n
  {
    if n >= 10 {
      DecimalRoundTrip(n / 10);
      var s := Decimal(n);
      assert s[..|s| - 1] == Decimal(n / 10);
    }
  }

  lemma {:induction false} DecimalLength(n: nat)
    ensures n < 10 ==> |Decimal(n)| == 1
    ensures n < 100 ==> |Decimal(n)| <= 2
    ensures n < 1000 ==> |Decimal(n)| <= 3
  {
    if n >= 10 {
      DecimalLength(n / 10);
    }
  }

  /** `field` and `rest` with a dot between them. */
  function Dot(field: string, rest: string): string {
    field + "." + rest
  }

  /** `"%d.%d.%d.%d"` of the four octets: at most 15 characters, so it
      always fits the 16-character buffer with its NUL. */
  function Format(ip: IPv4): (s: string)
    ensures 7 <= |s| < IP_STR_SIZE
  {
    DecimalLength(ip.a);
    DecimalLength(ip.b);
    DecimalLength(ip.c);
    DecimalLength(ip.d);
    Dot(Decimal(ip.a), Dot(Decimal(ip.b), Dot(Decimal(ip.c), Decimal(ip.d))))
  }

  /** What `snprintf` leaves in a buffer of `size` characters, up to the
      NUL it always writes: at most `size - 1` characters of the output. */
  function Snprintf(size: nat, out: string): (s: string)
    requires size > 0
    ensures |s| <= size - 1 && s <= out
    ensures |out| < size ==> s == out
    ensures |out| >= size ==> s == out[..size - 1]
  {
    if |out| < size then out else out[..size - 1]
  }

  /** The sender's address as the receive step holds it in `remote_ip_str`:
      `snprintf` never truncates it. */
  function RemoteIpString(ip: IPv4): (s: string)
    ensures s == Format(ip)
  {
    Snprintf(IP_STR_SIZE, Format(ip))
  }

  /** Index of the first dot in `s`, or `|s|` when there is none. */
  function DotIndex(s: string): (k: nat)
    ensures k <= |s|
    ensures k < |s| ==> s[k] == '.'
    ensures forall j :: 0 <= j < k ==> s[j] != '.'
  {
    if s == [] then 0 else if s[0] == '.' then 0 else 1 + DotIndex(s[1..])
  }

  /** The dot-separated fields of `s`. */
  function Split(s: string): (fields: seq<string>)
    decreases |s|
    ensures |fields| >= 1
  {
    var k := DotIndex(s);
    if k == |s| then [s] else [s[..k]] + Split(s[k + 1..])
  }

  predicate IsOctetField(f: string) {
    1 <= |f| <= 3 && AllDigits(f) && DecimalValue(f) < 0x100
  }

  /** Reads a dotted quad back into its four octets. */
  function Parse(s: string): Option<IPv4> {
    var f := Split(s);
    if |f| == 4 && IsOctetField(f[0]) && IsOctetField(f[1]) && IsOctetField(f[2]) && IsOctetField(f[3])
    then Some(IPv4(DecimalValue(f[0]), DecimalValue(f[1]), DecimalValue(f[2]), DecimalValue(f[3])))
    else None
  }

  lemma SplitNoDot(x: string)
    requires '.' !in x
    ensures Split(x) == [x]
  {
  }

  lemma SplitAtDot(x: string, rest: string)
    requires '.' !in x
    ensures Split(Dot(x, rest)) == [x] + Split(rest)
  {
    var s := Dot(x, rest);
    var k := DotIndex(s);
    assert s[|x|] == '.';
    assert forall j :: 0 <= j < |x| ==> s[j] == x[j];
    assert k == |x|;
    assert s[..k] == x;
    assert s[k + 1..] == rest;
  }

  lemma OctetField(n: byte)
    ensures IsOctetField(Decimal(n))
    ensures DecimalValue(Decimal(n)) == n
  {
    DecimalLength(n);
    DecimalRoundTrip(n);
  }

  lemma DecimalHasNoDot(n: nat)
    ensures '.' !in Decimal(n)
  {
    var s := Decimal(n);
    assert forall i :: 0 <= i < |s| ==> s[i] != '.';
  }

  lemma SplitFormat(ip: IPv4)
    ensures Split(Format(ip)) == [Decimal(ip.a), Decimal(ip.b), Decimal(ip.c), Decimal(ip.d)]
  {
    var da, db, dc, dd := Decimal(ip.a), Decimal(ip.b), Decimal(ip.c), Decimal(ip.d);
    DecimalHasNoDot(ip.a);
    DecimalHasNoDot(ip.b);
    DecimalHasNoDot(ip.c);
    DecimalHasNoDot(ip.d);
    SplitNoDot(dd);
    SplitAtDot(dc, dd);
    SplitAtDot(db, Dot(dc, dd));
    SplitAtDot(da, Dot(db, Dot(dc, dd)));
  }

  /** Parsing the printed address gives the address back. */
  lemma ParseFormat(ip: IPv4)
    ensures Parse(Format(ip)) == Some(ip)
  {
    SplitFormat(ip);
    OctetField(ip.a);
    OctetField(ip.b);
    OctetField(ip.c);
    OctetField(ip.d);
  }

  /** Two addresses that print alike are the same address, so comparing
      printed strings compares addresses. */
  lemma FormatInjective(x: IPv4, y: IPv4)
    requires Format(x) == Format(y)
    ensures x == y
  {
    ParseFormat(x);
    ParseFormat(y);
  }

  lemma FormatExample()
    ensures Format(IPv4(10, 0, 0, 5)) == "10.0.0.5"
    ensures Format(IPv4(255, 255, 255, 255)) == "255.255.255.255"
  {
    assert Decimal(10) == "10";
    assert Decimal(255) == Decimal(25) + "5" == "255";
  }
}
