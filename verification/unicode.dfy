/** Characters and their bytes in UTF-8 (section 3 of RFC 3629). */
module Unicode {
  type byte = n: nat | n < 256

  function Utf8(c: char): (bytes: seq<byte>)
    ensures bytes != []
  {
    var n := c as int;
    if n < 0x80 then [n]
    else if n < 0x800 then [0xC0 + n / 0x40, 0x80 + n % 0x40]
    else if n < 0x1_0000 then [0xE0 + n / 0x1000, 0x80 + n / 0x40 % 0x40, 0x80 + n % 0x40]
    else [0xF0 + n / 0x4_0000, 0x80 + n / 0x1000 % 0x40, 0x80 + n / 0x40 % 0x40, 0x80 + n % 0x40]
  }

  function Utf8All(s: string): seq<byte> {
    if s == "" then [] else Utf8(s[0]) + Utf8All(s[1..])
  }

  /** What a byte adds to its marker bits. */
  ghost function Above(b: byte, marker: int): int {
    b as int - marker
  }

  ghost predicate Continues(b: byte) {
    0x80 <= b <= 0xBF
  }

  /** The bytes carry the code point, in as few of them as it takes. */
  lemma Utf8Reads(c: char)
    ensures var n, b := c as int, Utf8(c);
      if n <= 0x7F then b == [n]
      else if n <= 0x7FF then
        |b| == 2 && 0xC0 <= b[0] <= 0xDF && Continues(b[1]) && n == Above(b[0], 0xC0) * 0x40 + Above(b[1], 0x80)
      else if n <= 0xFFFF then
        && |b| == 3 && 0xE0 <= b[0] <= 0xEF && Continues(b[1]) && Continues(b[2])
        && n == Above(b[0], 0xE0) * 0x1000 + Above(b[1], 0x80) * 0x40 + Above(b[2], 0x80)
      else
        && |b| == 4 && 0xF0 <= b[0] <= 0xF4 && Continues(b[1]) && Continues(b[2]) && Continues(b[3])
        && n == Above(b[0], 0xF0) * 0x4_0000 + Above(b[1], 0x80) * 0x1000 + Above(b[2], 0x80) * 0x40 + Above(b[3], 0x80)
  {
    var n := c as int;
    assert n / 0x1000 == (n / 0x4_0000) * 0x40 + n / 0x1000 % 0x40;
    assert n / 0x40 == (n / 0x1000) * 0x40 + n / 0x40 % 0x40;
  }
}
