/** Partition names on their way to sfdisk and back: escaping by bytes, and decoding. */
module NameEncoding {
  import opened Wrappers

  // ----- UTF-8, section 3 of RFC 3629 -----

  function Utf8(c: char): seq<byte> {
    var n := c as int;
    if n < 0x80 then [n]
    else if n < 0x800 then [0xC0 + n / 64, 0x80 + n % 64]
    else if n < 0x10000 then [0xE0 + n / 4096, 0x80 + n / 64 % 64, 0x80 + n % 64]
    else [0xF0 + n / 262144, 0x80 + n / 4096 % 64, 0x80 + n / 64 % 64, 0x80 + n % 64]
  }

  function Utf8All(s: string): seq<byte> {
    if s == "" then [] else Utf8(s[0]) + Utf8All(s[1..])
  }

  /** How many bytes a first byte announces. */
  function Announced(b: int): nat {
    if b < 0x80 then 1 else if b < 0xE0 then 2 else if b < 0xF0 then 3 else 4
  }

  /** The code point of the first character. */
  function FirstPoint(bs: seq<int>): int {
    if bs == [] || |bs| < Announced(bs[0]) then 0
    else if Announced(bs[0]) == 1 then bs[0]
    else if Announced(bs[0]) == 2 then (bs[0] - 0xC0) * 64 + (bs[1] - 0x80)
    else if Announced(bs[0]) == 3 then (bs[0] - 0xE0) * 4096 + (bs[1] - 0x80) * 64 + (bs[2] - 0x80)
    else (bs[0] - 0xF0) * 262144 + (bs[1] - 0x80) * 4096 + (bs[2] - 0x80) * 64 + (bs[3] - 0x80)
  }

  lemma ThreeDigits(n: nat)
    ensures n == n / 4096 * 4096 + n / 64 % 64 * 64 + n % 64
  {
    var m := n / 64;
    assert n == m * 64 + n % 64 && m == m / 64 * 64 + m % 64;
    assert m / 64 == n / 4096;
  }

  lemma FourDigits(n: nat)
    ensures n == n / 262144 * 262144 + n / 4096 % 64 * 4096 + n / 64 % 64 * 64 + n % 64
  {
    ThreeDigits(n);
    var m := n / 4096;
    assert m == m / 64 * 64 + m % 64;
    assert m / 64 == n / 262144;
  }

  lemma FirstCharacter(c: char, rest: seq<byte>)
    ensures FirstPoint(Utf8(c) + rest) == c as int && Announced(Utf8(c)[0]) == |Utf8(c)|
  {
    var n := c as int;
    if 0x800 <= n < 0x10000 {
      ThreeDigits(n);
    } else if 0x10000 <= n {
      FourDigits(n);
    }
  }

  /** Different strings have different bytes. */
  lemma {:induction false} Utf8Injective(s: string, t: string)
    requires Utf8All(s) == Utf8All(t)
    ensures s == t
  {
    if s != "" && t != "" {
      FirstCharacter(s[0], Utf8All(s[1..]));
      FirstCharacter(t[0], Utf8All(t[1..]));
      assert s[0] == t[0];
      var n := |Utf8(s[0])|;
      assert Utf8All(s)[n..] == Utf8All(s[1..]) && Utf8All(t)[n..] == Utf8All(t[1..]);
      Utf8Injective(s[1..], t[1..]);
      assert s == [s[0]] + s[1..] && t == [t[0]] + t[1..];
    }
  }

  // ----- Escaping -----

  predicate IsAlnum(b: int) { 0x30 <= b <= 0x39 || 0x41 <= b <= 0x5A || 0x61 <= b <= 0x7A }

  function HexDigit(n: nat): char
    requires n < 16
  {
    if n < 10 then (0x30 + n) as char else (0x61 + n - 10) as char
  }

  function EscapeByte(b: byte): string {
    if IsAlnum(b) then [b as char] else ['\\', 'x', HexDigit(b / 16), HexDigit(b % 16)]
  }

  function Escape(bs: seq<byte>): string {
    if bs == [] then "" else EscapeByte(bs[0]) + Escape(bs[1..])
  }

  lemma {:induction false} EscapeSnoc(bs: seq<byte>, b: byte)
    ensures Escape(bs + [b]) == Escape(bs) + EscapeByte(b)
  {
    if bs == [] {
      assert bs + [b] == [b];
    } else {
      EscapeSnoc(bs[1..], b);
      assert (bs + [b])[1..] == bs[1..] + [b];
    }
  }

  method ToUtf8HexNotation(name: string) returns (result: string)
    ensures result == Escape(Utf8All(name))
  {
    var bytes := Utf8All(name);
    result := "";
    for i := 0 to |bytes|
      invariant result == Escape(bytes[..i])
    {
      EscapeSnoc(bytes[..i], bytes[i]);
      assert bytes[..i + 1] == bytes[..i] + [bytes[i]];
      result := result + EscapeByte(bytes[i]);
    }
    assert bytes[..|bytes|] == bytes;
  }

  // ----- Decoding -----

  function HexValue(c: char): Option<nat> {
    if '0' <= c <= '9' then Some(c as int - 0x30)
    else if 'a' <= c <= 'f' then Some(c as int - 0x61 + 10)
    else if 'A' <= c <= 'F' then Some(c as int - 0x41 + 10)
    else None
  }

  /** Digits above nine may be written in either case. */
  lemma EitherCase(n: nat)
    requires n < 16
    ensures HexValue("0123456789abcdef"[n]) == Some(n) == HexValue("0123456789ABCDEF"[n])
  {
  }

  /** The code points of the decoded string. A backslash must start a \x escape with two digits;
      the other escapes are not part of this model. */
  function Decode(s: string): Option<seq<int>>
    decreases |s|
  {
    if s == "" then Some([])
    else if s[0] != '\\' then
      (match Decode(s[1..]) case None => None case Some(r) => Some([s[0] as int] + r))
    else if |s| >= 4 && s[1] == 'x' && HexValue(s[2]).Some? && HexValue(s[3]).Some? then
      (match Decode(s[4..]) case None => None
       case Some(r) => Some([16 * HexValue(s[2]).value + HexValue(s[3]).value] + r))
    else None
  }

  lemma DecodesByte(b: byte, rest: string)
    ensures Decode(EscapeByte(b) + rest) == match Decode(rest) case None => None case Some(r) => Some([b as int] + r)
  {
    var s := EscapeByte(b) + rest;
    assert s[|EscapeByte(b)|..] == rest;
    if !IsAlnum(b) {
      assert HexValue(HexDigit(b / 16)) == Some(b / 16) && HexValue(HexDigit(b % 16)) == Some(b % 16);
    }
  }

  lemma {:induction false} EscapedBytesDecode(bs: seq<byte>)
    ensures Decode(Escape(bs)) == Some(bs)
  {
    if bs != [] {
      EscapedBytesDecode(bs[1..]);
      DecodesByte(bs[0], Escape(bs[1..]));
      assert bs == [bs[0]] + bs[1..];
    }
  }

  /** Decoding an escaped name gives its UTF-8 bytes as code points. */
  lemma EscapeDecodes(name: string)
    ensures Decode(Escape(Utf8All(name))) == Some(Utf8All(name))
  {
    EscapedBytesDecode(Utf8All(name));
  }

  function Points(name: string): seq<int> { seq(|name|, i requires 0 <= i < |name| => name[i] as int) }

  lemma {:induction false} Utf8Longer(name: string)
    ensures |Utf8All(name)| >= |name|
  {
    if name != "" {
      Utf8Longer(name[1..]);
    }
  }

  predicate IsAscii(name: string) { forall i :: 0 <= i < |name| ==> name[i] as int < 0x80 }

  /** The UTF-8 bytes are the code points exactly for ASCII strings. */
  lemma {:induction false} AsciiPoints(name: string)
    ensures Utf8All(name) == Points(name) <==> IsAscii(name)
  {
    if name != "" {
      var c := name[0];
      AsciiPoints(name[1..]);
      Utf8Longer(name[1..]);
      assert IsAscii(name) <==> c as int < 0x80 && IsAscii(name[1..]) by {
        assert forall i :: 0 < i < |name| ==> name[i] == name[1..][i - 1];
      }
      assert Points(name)[1..] == Points(name[1..]);
      if c as int < 0x80 {
        assert Utf8All(name)[1..] == Utf8All(name[1..]);
      } else {
        assert |Utf8All(name)| > |name| == |Points(name)|;
      }
    }
  }

  /** Decoding gives the name back exactly when the name is ASCII. */
  lemma RoundTripExactlyAscii(name: string)
    ensures Decode(Escape(Utf8All(name))) == Some(Points(name)) <==> IsAscii(name)
  {
    EscapeDecodes(name);
    AsciiPoints(name);
  }

  /** Such a name: an e with an acute accent comes back as two characters. */
  lemma AccentComesBackAsTwo()
    ensures Escape(Utf8All("\U{00E9}")) == "\\xc3\\xa9"
    ensures Decode(Escape(Utf8All("\U{00E9}"))) == Some([0xC3, 0xA9]) != Some(Points("\U{00E9}"))
  {
    var name := "\U{00E9}";
    assert name[1..] == "";
    assert Utf8All(name) == [0xC3, 0xA9];
    assert Escape([0xC3, 0xA9]) == EscapeByte(0xC3) + EscapeByte(0xA9) by {
      assert [0xC3 as byte, 0xA9][1..] == [0xA9];
      assert [0xA9 as byte][1..] == [];
    }
    EscapeDecodes(name);
  }

  /** Different names are escaped differently. */
  lemma EscapeInjective(a: string, b: string)
    requires Escape(Utf8All(a)) == Escape(Utf8All(b))
    ensures a == b
  {
    EscapeDecodes(a);
    EscapeDecodes(b);
    Utf8Injective(a, b);
  }

  predicate PlainChar(c: char) { '0' <= c <= '9' || 'A' <= c <= 'Z' || 'a' <= c <= 'z' }

  const HEX_DIGITS := "0123456789abcdef"

  /** Letters and digits stay as they are; any other byte becomes a backslash, an x, and two lower-case digits. */
  lemma ByteEscaped(b: byte)
    ensures PlainChar(b as char) ==> EscapeByte(b) == [b as char]
    ensures !PlainChar(b as char) ==> EscapeByte(b) == "\\x" + [HEX_DIGITS[b / 16], HEX_DIGITS[b % 16]]
  {
  }

  lemma {:induction false} EscapeLonger(bs: seq<byte>)
    ensures |Escape(bs)| >= |bs|
  {
    if bs != [] {
      EscapeLonger(bs[1..]);
    }
  }

  /** A name stays as it is exactly when it holds letters and digits only. */
  lemma {:induction false} EscapeKeepsExactly(name: string)
    ensures Escape(Utf8All(name)) == name <==> forall c :: c in name ==> PlainChar(c)
  {
    if name != "" {
      var c, rest := name[0], name[1..];
      var first, bytes := Utf8(c), Utf8All(rest);
      EscapeKeepsExactly(rest);
      assert name == [c] + rest;
      if PlainChar(c) {
        assert (first + bytes)[1..] == bytes;
        assert Escape(first + bytes) == [c] + Escape(bytes);
      } else {
        EscapeLonger((first + bytes)[1..]);
        Utf8Longer(rest);
        assert |Escape(first + bytes)| > |name|;
      }
    }
  }

  /** Escaped names hold nothing but ASCII letters, digits and backslashes. */
  lemma {:induction false} EscapeAlphabet(bs: seq<byte>)
    ensures forall c :: c in Escape(bs) ==> IsAlnum(c as int) || c == '\\'
  {
    if bs != [] {
      EscapeAlphabet(bs[1..]);
    }
  }
}
