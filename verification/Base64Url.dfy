/** Unpadded base64url: the alphabet of section 5 of RFC 4648 with padding omitted as in section 3.2. */
module Base64Url {
  import opened Text

  function Symbol(n: nat): (c: char)
    requires n < 64
    ensures c != ':'
  {
    if n < 26 then ('A' as int + n) as char
    else if n < 52 then ('a' as int + (n - 26)) as char
    else if n < 62 then ('0' as int + (n - 52)) as char
    else if n == 62 then '-' else '_'
  }

  function Index(c: char): (n: nat)
    ensures n < 64
  {
    if 'A' <= c <= 'Z' then c as int - 'A' as int
    else if 'a' <= c <= 'z' then c as int - 'a' as int + 26
    else if '0' <= c <= '9' then c as int - '0' as int + 52
    else if c == '-' then 62 else 63
  }

  lemma IndexOfSymbol(n: nat)
    requires n < 64
    ensures Index(Symbol(n)) == n
  {}

  function Encode(s: Name): string {
    if |s| == 0 then ""
    else if |s| == 1 then
      var x := s[0] as int;
      [Symbol(x / 4), Symbol(x % 4 * 16)]
    else if |s| == 2 then
      var x, y := s[0] as int, s[1] as int;
      [Symbol(x / 4), Symbol(x % 4 * 16 + y / 16), Symbol(y % 16 * 4)]
    else
      Block(s[0] as int, s[1] as int, s[2] as int) + Encode(s[3..])
  }

  function Block(x: nat, y: nat, z: nat): string
    requires x < 256 && y < 256 && z < 256
  {
    [Symbol(x / 4), Symbol(x % 4 * 16 + y / 16), Symbol(y % 16 * 4 + z / 64), Symbol(z % 64)]
  }

  function Byte(n: nat): (b: byte)
    requires n < 256
    ensures b as int == n
  {
    n as char
  }

  function Decode(t: string): Name {
    if |t| < 2 then []
    else
      var x := Index(t[0]) * 4 + Index(t[1]) / 16;
      if |t| == 2 then [Byte(x)]
      else
        var y := Index(t[1]) % 16 * 16 + Index(t[2]) / 4;
        if |t| == 3 then [Byte(x), Byte(y)]
        else
          var z := Index(t[2]) % 4 * 64 + Index(t[3]);
          [Byte(x), Byte(y), Byte(z)] + Decode(t[4..])
  }

  lemma Rejoin(x: nat, y: nat, z: nat)
    requires x < 256 && y < 256 && z < 256
    ensures x / 4 * 4 + (x % 4 * 16 + y / 16) / 16 == x
    ensures (x % 4 * 16 + y / 16) % 16 * 16 + (y % 16 * 4 + z / 64) / 4 == y
    ensures (y % 16 * 4 + z / 64) % 4 * 64 + z % 64 == z
  {}

  lemma DecodeBlock(x: byte, y: byte, z: byte, rest: string)
    ensures Decode(Block(x as int, y as int, z as int) + rest) == [x, y, z] + Decode(rest)
  {
    hide Symbol, Index;
    var t := Block(x as int, y as int, z as int) + rest;
    assert t[4..] == rest;
    Rejoin(x as int, y as int, z as int);
    IndexOfSymbol(x as int / 4);
    IndexOfSymbol(x as int % 4 * 16 + y as int / 16);
    IndexOfSymbol(y as int % 16 * 4 + z as int / 64);
    IndexOfSymbol(z as int % 64);
  }

  lemma DecodeTail(x: byte, y: byte)
    ensures Decode([Symbol(x as int / 4), Symbol(x as int % 4 * 16)]) == [x]
    ensures Decode([Symbol(x as int / 4), Symbol(x as int % 4 * 16 + y as int / 16), Symbol(y as int % 16 * 4)]) == [x, y]
  {
    hide Symbol, Index;
    Rejoin(x as int, y as int, 0);
    Rejoin(x as int, 0, 0);
    IndexOfSymbol(x as int / 4);
    IndexOfSymbol(x as int % 4 * 16);
    IndexOfSymbol(x as int % 4 * 16 + y as int / 16);
    IndexOfSymbol(y as int % 16 * 4);
  }

  /** Decoding undoes encoding, so no two names share an encoding. */
  lemma {:induction false} DecodeEncode(s: Name)
    ensures Decode(Encode(s)) == s
  {
    hide Symbol, Index, Decode;
    if |s| == 0 {
      DecodeEmpty();
    } else if |s| == 1 {
      DecodeTail(s[0], s[0]);
    } else if |s| == 2 {
      DecodeTail(s[0], s[1]);
    } else {
      DecodeBlock(s[0], s[1], s[2], Encode(s[3..]));
      DecodeEncode(s[3..]);
      assert s == [s[0], s[1], s[2]] + s[3..];
    }
  }

  lemma DecodeEmpty()
    ensures Decode("") == []
  {}

  lemma EncodeInjective(a: Name, b: Name)
    requires Encode(a) == Encode(b)
    ensures a == b
  {
    DecodeEncode(a);
    DecodeEncode(b);
  }

  lemma {:induction false} EncodeHasNoColon(s: Name)
    ensures ':' !in Encode(s)
  {
    if |s| > 2 {
      EncodeHasNoColon(s[3..]);
    }
  }

  /** The vectors of section 10 of RFC 4648, unpadded. */
  lemma VectorsAsPublished()
    ensures Encode("") == "" && Encode("f") == "Zg" && Encode("fo") == "Zm8" && Encode("foo") == "Zm9v"
    ensures Encode("foobar") == "Zm9vYmFy"
  {
    assert "foobar"[3..] == "bar" && "bar"[3..] == "";
    assert Encode("bar") == "YmFy";
  }

  /** Two names, and two that need the characters of the URL-safe alphabet. */
  lemma NamesAsEncoded()
    ensures Encode("b") == "Yg" && Encode("a/b") == "YS9i" && Encode(">>>") == "Pj4-" && Encode("???") == "Pz8_"
  {
    assert "a/b"[3..] == "" && ">>>"[3..] == "" && "???"[3..] == "";
  }
}
