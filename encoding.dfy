/**
 * Two text encodings: UTF-8, and the Windows-1254 (Turkish) code page read
 * one byte per character. `Misread(Utf8(s))` is what becomes of text `s`
 * when its UTF-8 bytes are decoded as Windows-1254, the seven bytes the code
 * page leaves undefined being dropped.
 */
module Encoding {
  import opened Wrappers

  newtype byte = b: int | 0 <= b < 256

  /** The UTF-8 encoding of one code point. */
  function Utf8Char(c: char): (bs: seq<byte>)
    ensures 1 <= |bs| <= 4
  {
    var n := c as int;
    if n < 0x80 then [n as byte]
    else if n < 0x800 then [(0xC0 + n / 64) as byte, (0x80 + n % 64) as byte]
    else if n < 0x10000 then [(0xE0 + n / 4096) as byte, (0x80 + (n / 64) % 64) as byte, (0x80 + n % 64) as byte]
    else [(0xF0 + n / 0x40000) as byte, (0x80 + (n / 4096) % 64) as byte, (0x80 + (n / 64) % 64) as byte, (0x80 + n % 64) as byte]
  }

  /** The UTF-8 encoding of a string. */
  function Utf8(s: string): seq<byte>
  {
    if s == [] then [] else Utf8Char(s[0]) + Utf8(s[1..])
  }

  /** Windows-1254 for the bytes 0x80 to 0x9F; `None` for the seven it leaves undefined. */
  function Cp1254Control(b: byte): Option<char>
  {
    match b
    case 0x80 => Some('\U{20AC}')
    case 0x82 => Some('\U{201A}')
    case 0x83 => Some('\U{192}')
    case 0x84 => Some('\U{201E}')
    case 0x85 => Some('\U{2026}')
    case 0x86 => Some('\U{2020}')
    case 0x87 => Some('\U{2021}')
    case 0x88 => Some('\U{2C6}')
    case 0x89 => Some('\U{2030}')
    case 0x8A => Some('\U{160}')
    case 0x8B => Some('\U{2039}')
    case 0x8C => Some('\U{152}')
    case 0x91 => Some('\U{2018}')
    case 0x92 => Some('\U{2019}')
    case 0x93 => Some('\U{201C}')
    case 0x94 => Some('\U{201D}')
    case 0x95 => Some('\U{2022}')
    case 0x96 => Some('\U{2013}')
    case 0x97 => Some('\U{2014}')
    case 0x98 => Some('\U{2DC}')
    case 0x99 => Some('\U{2122}')
    case 0x9A => Some('\U{161}')
    case 0x9B => Some('\U{203A}')
    case 0x9C => Some('\U{153}')
    case 0x9F => Some('\U{178}')
    case _ => None
  }

  /**
   * One byte read as Windows-1254: ASCII below 0x80, the table above for
   * 0x80 to 0x9F, and Latin-1 from 0xA0 on except for the six Turkish letters.
   */
  function Cp1254(b: byte): Option<char>
  {
    if b < 0x80 then Some(b as char)
    else if b < 0xA0 then Cp1254Control(b)
    else if b == 0xD0 then Some('\U{11E}')
    else if b == 0xDD then Some('\U{130}')
    else if b == 0xDE then Some('\U{15E}')
    else if b == 0xF0 then Some('\U{11F}')
    else if b == 0xFD then Some('\U{131}')
    else if b == 0xFE then Some('\U{15F}')
    else Some(b as char)
  }

  /** Bytes decoded as Windows-1254, dropping the undefined ones. */
  function Misread(bs: seq<byte>): string
  {
    if bs == [] then [] else
      (match Cp1254(bs[0]) case Some(c) => [c] case None => []) + Misread(bs[1..])
  }

  lemma {:induction false} Utf8Concat(a: string, b: string)
    ensures Utf8(a + b) == Utf8(a) + Utf8(b)
  {
    if a == [] {
      assert a + b == b;
    } else {
      assert (a + b)[0] == a[0] && (a + b)[1..] == a[1..] + b;
      Utf8Concat(a[1..], b);
    }
  }

  lemma {:induction false} MisreadConcat(a: seq<byte>, b: seq<byte>)
    ensures Misread(a + b) == Misread(a) + Misread(b)
  {
    if a == [] {
      assert a + b == b;
    } else {
      assert (a + b)[0] == a[0] && (a + b)[1..] == a[1..] + b;
      MisreadConcat(a[1..], b);
    }
  }

  /** Three strings joined, misread, are the three misread and joined. */
  lemma MisreadJoin(a: string, b: string, c: string)
    ensures Misread(Utf8(a + b + c)) == Misread(Utf8(a)) + Misread(Utf8(b)) + Misread(Utf8(c))
  {
    Utf8Concat(a + b, c);
    Utf8Concat(a, b);
    MisreadConcat(Utf8(a) + Utf8(b), Utf8(c));
    MisreadConcat(Utf8(a), Utf8(b));
  }

  predicate IsAscii(s: string) { forall i :: 0 <= i < |s| ==> s[i] as int < 0x80 }

  /** ASCII text survives the misreading unchanged. */
  lemma {:induction false} AsciiSurvives(s: string)
    requires IsAscii(s)
    ensures Misread(Utf8(s)) == s
  {
    if s != [] {
      assert Utf8Char(s[0]) == [s[0] as int as byte];
      assert IsAscii(s[1..]) by {
        forall i | 0 <= i < |s[1..]| ensures s[1..][i] as int < 0x80 { assert s[1..][i] == s[i + 1]; }
      }
      AsciiSurvives(s[1..]);
      assert Utf8(s) == [s[0] as int as byte] + Utf8(s[1..]);
      assert Utf8(s)[1..] == Utf8(s[1..]);
    }
  }

  /** A single character misread. */
  lemma MisreadChar(c: char)
    ensures Misread(Utf8([c])) == Misread(Utf8Char(c))
  {
    assert [c][0] == c && [c][1..] == [];
    assert Utf8([c]) == Utf8Char(c) + Utf8([]);
    assert Utf8Char(c) + [] == Utf8Char(c);
  }

  /**
   * A lower-case Latin-1 letter such as 'é' (U+00E9) is the two bytes C3 and
   * c - 0x40 in UTF-8, which read back as 'Ã' followed by a Latin-1 symbol.
   */
  lemma LatinLetterMisread(c: char)
    requires 0xE0 <= c as int < 0x100
    ensures Misread(Utf8([c])) == ['\U{C3}', (c as int - 0x40) as char]
  {
    MisreadChar(c);
    var bs := Utf8Char(c);
    assert bs == [0xC3, (c as int - 0x40) as byte];
    assert Cp1254(bs[0]) == Some('\U{C3}');
    assert Cp1254(bs[1]) == Some((c as int - 0x40) as char);
    assert bs[1..][1..] == [];
    assert Misread(bs[1..]) == [(c as int - 0x40) as char] + Misread([]);
  }

  /** A word of ASCII letters around one such Latin-1 letter: only that letter is garbled. */
  lemma LatinWordMisread(a: string, c: char, b: string)
    requires IsAscii(a) && IsAscii(b) && 0xE0 <= c as int < 0x100
    ensures Misread(Utf8(a + [c] + b)) == a + ['\U{C3}', (c as int - 0x40) as char] + b
  {
    MisreadJoin(a, [c], b);
    AsciiSurvives(a);
    AsciiSurvives(b);
    LatinLetterMisread(c);
  }
}
