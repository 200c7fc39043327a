/** base64url without padding (section 5 of RFC 4648), strict on decoding. */
module Base64Url {
  import opened Wrappers

  type Byte = x: int | 0 <= x < 256
  type Sextet = x: int | 0 <= x < 64

  function ToChar(d: Sextet): char {
    if d < 26 then ('A' as int + d) as char
    else if d < 52 then ('a' as int + d - 26) as char
    else if d < 62 then ('0' as int + d - 52) as char
    else if d == 62 then '-'
    else '_'
  }

  function FromChar(c: char): Option<Sextet> {
    if 'A' <= c <= 'Z' then Some(c as int - 'A' as int)
    else if 'a' <= c <= 'z' then Some(c as int - 'a' as int + 26)
    else if '0' <= c <= '9' then Some(c as int - '0' as int + 52)
    else if c == '-' then Some(62)
    else if c == '_' then Some(63)
    else None
  }

  /** Table 2 of RFC 4648. */
  lemma AlphabetIsTheTable(d: Sextet)
    ensures ToChar(d) == if d < 26 then "ABCDEFGHIJKLMNOPQRSTUVWXYZ"[d]
                         else if d < 52 then "abcdefghijklmnopqrstuvwxyz"[d - 26]
                         else "0123456789-_"[d - 52]
  {
    if d < 26 {
      hide ToChar;
      UpperCase(d);
    } else if d < 52 {
      hide ToChar;
      LowerCase(d);
    }
  }

  lemma UpperCase(d: Sextet)
    requires d < 26
    ensures ToChar(d) == "ABCDEFGHIJKLMNOPQRSTUVWXYZ"[d]
  {
    if d < 13 {
      assert ToChar(d) == "ABCDEFGHIJKLM"[d];
    } else {
      assert ToChar(d) == "NOPQRSTUVWXYZ"[d - 13];
    }
  }

  lemma LowerCase(d: Sextet)
    requires 26 <= d < 52
    ensures ToChar(d) == "abcdefghijklmnopqrstuvwxyz"[d - 26]
  {
    if d < 39 {
      assert ToChar(d) == "abcdefghijklm"[d - 26];
    } else {
      assert ToChar(d) == "nopqrstuvwxyz"[d - 39];
    }
  }

  lemma AlphabetIsInverse(d: Sextet)
    ensures FromChar(ToChar(d)) == Some(d)
    ensures ToChar(d) != '.' && ToChar(d) != '~'
  {
  }

  function Encode(b: seq<Byte>): string {
    if |b| == 0 then ""
    else if |b| == 1 then [ToChar(b[0] / 4), ToChar(b[0] % 4 * 16)]
    else if |b| == 2 then
      [ToChar(b[0] / 4), ToChar(b[0] % 4 * 16 + b[1] / 16), ToChar(b[1] % 16 * 4)]
    else
      [ToChar(b[0] / 4), ToChar(b[0] % 4 * 16 + b[1] / 16), ToChar(b[1] % 16 * 4 + b[2] / 64), ToChar(b[2] % 64)]
      + Encode(b[3..])
  }

  /** A length of 1 modulo 4, a foreign character and stray low bits are refused. */
  function Decode(s: string): Option<seq<Byte>> {
    if |s| == 0 then Some([])
    else if |s| == 1 then None
    else
      match (FromChar(s[0]), FromChar(s[1]))
      case (Some(p), Some(q)) =>
        if |s| == 2 then if q % 16 == 0 then Some([p * 4 + q / 16]) else None
        else (match FromChar(s[2])
              case None => None
              case Some(r) =>
                if |s| == 3 then if r % 4 == 0 then Some([p * 4 + q / 16, q % 16 * 16 + r / 4]) else None
                else (match (FromChar(s[3]), Decode(s[4..]))
                      case (Some(t), Some(rest)) => Some([p * 4 + q / 16, q % 16 * 16 + r / 4, r % 4 * 64 + t] + rest)
                      case _ => None))
      case _ => None
  }

  predicate Clean(s: string) {
    '.' !in s && '~' !in s
  }

  lemma ThreeBytesFourSextets(a: Byte, b: Byte, c: Byte)
    ensures var p, q, r, t := a / 4, a % 4 * 16 + b / 16, b % 16 * 4 + c / 64, c % 64;
            0 <= p < 64 && 0 <= q < 64 && 0 <= r < 64 && 0 <= t < 64
            && p * 4 + q / 16 == a && q % 16 * 16 + r / 4 == b && r % 4 * 64 + t == c
  {
  }

  lemma DecodeFour(s: string, p: Sextet, q: Sextet, r: Sextet, t: Sextet)
    requires |s| >= 4 && Decode(s[4..]).Some?
    requires FromChar(s[0]) == Some(p) && FromChar(s[1]) == Some(q)
    requires FromChar(s[2]) == Some(r) && FromChar(s[3]) == Some(t)
    ensures Decode(s) == Some([p * 4 + q / 16, q % 16 * 16 + r / 4, r % 4 * 64 + t] + Decode(s[4..]).value)
  {
  }

  lemma DecodeQuartet(p: Sextet, q: Sextet, r: Sextet, t: Sextet, rest: string)
    requires Decode(rest).Some?
    ensures Decode([ToChar(p), ToChar(q), ToChar(r), ToChar(t)] + rest) ==
            Some([p * 4 + q / 16, q % 16 * 16 + r / 4, r % 4 * 64 + t] + Decode(rest).value)
  {
    hide *;
    AlphabetIsInverse(p);
    AlphabetIsInverse(q);
    AlphabetIsInverse(r);
    AlphabetIsInverse(t);
    var s := [ToChar(p), ToChar(q), ToChar(r), ToChar(t)] + rest;
    assert s[4..] == rest;
    DecodeFour(s, p, q, r, t);
  }

  lemma DecodeThree(s: string, p: Sextet, q: Sextet, r: Sextet)
    requires |s| == 3 && r % 4 == 0
    requires FromChar(s[0]) == Some(p) && FromChar(s[1]) == Some(q) && FromChar(s[2]) == Some(r)
    ensures Decode(s) == Some([p * 4 + q / 16, q % 16 * 16 + r / 4])
  {
    hide FromChar;
  }

  lemma DecodeTriple(p: Sextet, q: Sextet, r: Sextet)
    requires r % 4 == 0
    ensures Decode([ToChar(p), ToChar(q), ToChar(r)]) == Some([p * 4 + q / 16, q % 16 * 16 + r / 4])
  {
    hide *;
    AlphabetIsInverse(p);
    AlphabetIsInverse(q);
    AlphabetIsInverse(r);
    DecodeThree([ToChar(p), ToChar(q), ToChar(r)], p, q, r);
  }

  lemma TwoBytesThreeSextets(a: Byte, b: Byte)
    ensures var p, q, r := a / 4, a % 4 * 16 + b / 16, b % 16 * 4;
            0 <= p < 64 && 0 <= q < 64 && 0 <= r < 64 && r % 4 == 0
            && p * 4 + q / 16 == a && q % 16 * 16 + r / 4 == b
  {
  }

  lemma OneByteDecodes(a: Byte)
    ensures Decode(Encode([a])) == Some([a])
  {
  }

  lemma TwoBytesDecode(a: Byte, b: Byte)
    ensures Decode(Encode([a, b])) == Some([a, b])
  {
    TwoBytesThreeSextets(a, b);
    var p: Sextet, q: Sextet, r: Sextet := a / 4, a % 4 * 16 + b / 16, b % 16 * 4;
    assert Encode([a, b]) == [ToChar(p), ToChar(q), ToChar(r)];
    hide *;
    DecodeTriple(p, q, r);
  }

  lemma {:induction false} EncodeIsClean(b: seq<Byte>)
    ensures Clean(Encode(b))
  {
    hide FromChar;
    if |b| >= 3 {
      EncodeIsClean(b[3..]);
    }
  }

  lemma EncodeTriple(a: Byte, b: Byte, c: Byte, rest: seq<Byte>)
    ensures Encode([a, b, c] + rest) ==
            [ToChar(a / 4), ToChar(a % 4 * 16 + b / 16), ToChar(b % 16 * 4 + c / 64), ToChar(c % 64)] + Encode(rest)
  {
  }

  lemma TripleDecodes(a: Byte, b: Byte, c: Byte, rest: seq<Byte>)
    requires Decode(Encode(rest)) == Some(rest)
    ensures Decode(Encode([a, b, c] + rest)) == Some([a, b, c] + rest)
  {
    hide *;
    EncodeTriple(a, b, c, rest);
    ThreeBytesFourSextets(a, b, c);
    DecodeQuartet(a / 4, a % 4 * 16 + b / 16, b % 16 * 4 + c / 64, c % 64, Encode(rest));
  }

  lemma NothingDecodes()
    ensures Decode(Encode([])) == Some([])
  {
  }

  lemma {:induction false} DecodesBack(b: seq<Byte>)
    ensures Decode(Encode(b)) == Some(b)
  {
    hide *;
    if |b| == 0 {
      NothingDecodes();
      assert b == [];
    } else if |b| == 1 {
      OneByteDecodes(b[0]);
      assert b == [b[0]];
    } else if |b| == 2 {
      TwoBytesDecode(b[0], b[1]);
      assert b == [b[0], b[1]];
    } else {
      var first, rest := b[..3], b[3..];
      DecodesBack(rest);
      TripleDecodes(first[0], first[1], first[2], rest);
      assert first == [first[0], first[1], first[2]];
      assert b == first + rest;
    }
  }

  /** What was encoded decodes to itself, and neither '.' nor '~' occurs in between. */
  lemma DecodeUndoesEncode(b: seq<Byte>)
    ensures Decode(Encode(b)) == Some(b)
    ensures Clean(Encode(b))
  {
    hide *;
    EncodeIsClean(b);
    DecodesBack(b);
  }

  lemma EncodeIsInjective(a: seq<Byte>, b: seq<Byte>)
    requires Encode(a) == Encode(b)
    ensures a == b
  {
    DecodeUndoesEncode(a);
    DecodeUndoesEncode(b);
  }

  /** Three bytes read as one number to the base 256 are four characters' values read as
      one to the base 64, first first. */
  lemma GroupIsOneNumber(a: Byte, b: Byte, c: Byte)
    ensures var s := Encode([a, b, c]);
            && |s| == 4 && (forall k :: 0 <= k < 4 ==> FromChar(s[k]).Some?)
            && FromChar(s[0]).value * 262144 + FromChar(s[1]).value * 4096 + FromChar(s[2]).value * 64
               + FromChar(s[3]).value == a * 65536 + b * 256 + c
  {
    var p: Sextet, q: Sextet, r: Sextet, t: Sextet := a / 4, a % 4 * 16 + b / 16, b % 16 * 4 + c / 64, c % 64;
    ThreeBytesFourSextets(a, b, c);
    AlphabetIsInverse(p);
    AlphabetIsInverse(q);
    AlphabetIsInverse(r);
    AlphabetIsInverse(t);
    EncodeTriple(a, b, c, []);
    NothingEncodes();
    assert [a, b, c] + [] == [a, b, c];
    assert Encode([a, b, c]) == [ToChar(p), ToChar(q), ToChar(r), ToChar(t)];
    hide *;
  }

  lemma NothingEncodes()
    ensures Encode([]) == ""
  {
  }
}
