/** Basic value types shared by the UDP server model: octets, 16-bit ports,
    an optional value, and the reinterpretation of a byte buffer as text. */
module Types {

  /** One octet, as in `uint8_t`. */
  type byte = x: int | 0 <= x < 0x100

  /** A port number, as in `uint16_t`. */
  type uint16 = x: int | 0 <= x < 0x1_0000

  datatype Option<+T> = None | Some(value: T)

  /** The text a C++ `std::string` holds when built from `(char*)buf, len`:
      one character per octet, in order. */
  function ToText(bytes: seq<byte>): (s: string)
    ensures |s| == |bytes|
    ensures forall i :: 0 <= i < |bytes| ==> s[i] as int == bytes[i]
  {
    if bytes == [] then "" else [bytes[0] as char] + ToText(bytes[1..])
  }

  /** Two byte strings read as the same text only if they are the same bytes. */
  lemma ToTextInjective(a: seq<byte>, b: seq<byte>)
    requires ToText(a) == ToText(b)
    ensures a == b
  {
  }
}
