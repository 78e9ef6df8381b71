/** Base64 as section 4 of RFC 4648 defines it, and the decoder that keeps its bits in a 32-bit integer. */
module Base64 {
  import opened Decimal
  import opened Options

  predicate IsLetter(c: char) { 'A' <= c <= 'Z' || 'a' <= c <= 'z' || IsDigit(c) || c == '+' || c == '/' }

  /** Its place in the alphabet: capitals, small letters, digits, plus and slash. */
  function Index(c: char): (i: nat)
    requires IsLetter(c)
    ensures i < 64
  {
    if 'A' <= c <= 'Z' then c as int - 'A' as int
    else if 'a' <= c <= 'z' then c as int - 'a' as int + 26
    else if IsDigit(c) then c as int - '0' as int + 52
    else if c == '+' then 62 else 63
  }

  function Letter(i: nat): (c: char)
    requires i < 64
    ensures IsLetter(c) && Index(c) == i
  {
    if i < 26 then 'A' + i as char
    else if i < 52 then 'a' + (i - 26) as char
    else if i < 62 then '0' + (i - 52) as char
    else if i == 62 then '+' else '/'
  }

  predicate Letters(s: string) { forall i | 0 <= i < |s| :: IsLetter(s[i]) }

  function Indices(s: string): seq<nat>
    requires Letters(s)
    ensures |Indices(s)| == |s| && forall i | 0 <= i < |s| :: Indices(s)[i] == Index(s[i])
  {
    seq(|s|, i requires 0 <= i < |s| => Index(s[i]))
  }

  predicate Sextets(ix: seq<nat>) { forall i | 0 <= i < |ix| :: ix[i] < 64 }

  /** Four sextets are three bytes; left over, two are one byte and three are two. */
  function Bytes(ix: seq<nat>): string
    requires Sextets(ix)
  {
    if |ix| <= 1 then ""
    else if |ix| == 2 then [Byte0(ix)]
    else if |ix| == 3 then [Byte0(ix), Byte1(ix)]
    else [Byte0(ix), Byte1(ix), Byte2(ix)] + Bytes(ix[4..])
  }

  function Byte0(ix: seq<nat>): char
    requires Sextets(ix) && |ix| >= 2
  {
    (ix[0] * 4 + ix[1] / 16) as char
  }

  function Byte1(ix: seq<nat>): char
    requires Sextets(ix) && |ix| >= 3
  {
    (ix[1] % 16 * 16 + ix[2] / 4) as char
  }

  function Byte2(ix: seq<nat>): char
    requires Sextets(ix) && |ix| >= 4
  {
    (ix[2] % 4 * 64 + ix[3]) as char
  }

  /** What one more sextet completes. */
  function Completed(n: nat, last: nat, x: nat): string
    requires last < 64 && x < 64
  {
    if n % 4 == 0 then ""
    else if n % 4 == 1 then [(last * 4 + x / 16) as char]
    else if n % 4 == 2 then [(last % 16 * 16 + x / 4) as char]
    else [(last % 4 * 64 + x) as char]
  }

  function Last(ix: seq<nat>): nat { if ix == [] then 0 else ix[|ix| - 1] }

  lemma {:induction false} BytesMore(ix: seq<nat>, x: nat)
    requires Sextets(ix) && x < 64
    ensures Bytes(ix + [x]) == Bytes(ix) + Completed(|ix|, Last(ix), x)
  {
    if |ix| < 4 {
      FewBytesMore(ix, x);
    } else {
      hide Completed, Byte0, Byte1, Byte2;
      var more := ix + [x];
      BytesMore(ix[4..], x);
      assert more[4..] == ix[4..] + [x];
      FirstGroup(ix, more);
      CompletedGroups(ix, x);
    }
  }

  lemma CompletedGroups(ix: seq<nat>, x: nat)
    requires Sextets(ix) && x < 64 && |ix| >= 4
    ensures Completed(|ix|, Last(ix), x) == Completed(|ix| - 4, Last(ix[4..]), x)
  {
    assert (|ix| - 4) % 4 == |ix| % 4;
  }

  lemma FirstGroup(ix: seq<nat>, more: seq<nat>)
    requires Sextets(ix) && Sextets(more) && |ix| >= 4 && ix <= more
    ensures Byte0(ix) == Byte0(more) && Byte1(ix) == Byte1(more) && Byte2(ix) == Byte2(more)
  {}

  lemma {:induction false} FewBytesMore(ix: seq<nat>, x: nat)
    requires Sextets(ix) && x < 64 && |ix| < 4
    ensures Bytes(ix + [x]) == Bytes(ix) + Completed(|ix|, Last(ix), x)
  {
    hide Bytes, Completed;
    if |ix| <= 1 {
      OneByteMore(ix, x);
    } else if |ix| == 2 {
      TwoBytesMore(ix, x);
    } else {
      ThreeBytesMore(ix, x);
    }
  }

  lemma {:induction false} OneByteMore(ix: seq<nat>, x: nat)
    requires Sextets(ix) && x < 64 && |ix| <= 1
    ensures Bytes(ix + [x]) == Bytes(ix) + Completed(|ix|, Last(ix), x)
  {
    hide Bytes, Byte0;
    var more := ix + [x];
    BytesOfTwo(more);
    BytesOfTwo(ix);
  }

  lemma {:induction false} BytesOfTwo(ix: seq<nat>)
    requires Sextets(ix) && |ix| <= 2
    ensures Bytes(ix) == if |ix| == 2 then [(ix[0] * 4 + ix[1] / 16) as char] else ""
  {}

  lemma {:induction false} TwoBytesMore(ix: seq<nat>, x: nat)
    requires Sextets(ix) && x < 64 && |ix| == 2
    ensures Bytes(ix + [x]) == Bytes(ix) + Completed(2, ix[1], x)
  {
    hide Byte0;
    SameByte0(ix, ix + [x]);
    assert Byte1(ix + [x]) == (ix[1] % 16 * 16 + x / 4) as char;
  }

  lemma SameByte0(ix: seq<nat>, more: seq<nat>)
    requires Sextets(ix) && Sextets(more) && |ix| >= 2 && ix <= more
    ensures Byte0(ix) == Byte0(more)
  {}

  lemma {:induction false} ThreeBytesMore(ix: seq<nat>, x: nat)
    requires Sextets(ix) && x < 64 && |ix| == 3
    ensures Bytes(ix + [x]) == Bytes(ix) + Completed(3, ix[2], x)
  {
    hide Byte0, Byte1;
    var more := ix + [x];
    ThreeSame(ix, more);
    assert Byte2(more) == (ix[2] % 4 * 64 + x) as char;
    assert more[4..] == [];
    assert Bytes(more) == [Byte0(more), Byte1(more), Byte2(more)] + Bytes([]);
  }

  lemma ThreeSame(ix: seq<nat>, more: seq<nat>)
    requires Sextets(ix) && Sextets(more) && |ix| >= 3 && ix <= more
    ensures Byte0(ix) == Byte0(more) && Byte1(ix) == Byte1(more)
  {}

  // --- the decoder --------------------------------------------------------------------------

  /** The 32-bit two's complement value an integer wraps to. */
  function ToInt32(n: int): int { (n + 0x8000_0000) % 0x1_0000_0000 - 0x8000_0000 }

  function Shift(bits: nat): (d: nat)
    requires bits == 0 || bits == 2 || bits == 4
    ensures d > 0
  {
    if bits == 0 then 1 else if bits == 2 then 4 else 16
  }

  function BitsAfter(n: nat): nat { if n % 4 == 0 then 0 else if n % 4 == 1 then 6 else if n % 4 == 2 then 4 else 2 }

  function DropPad(s: string): string
  {
    if s != "" && s[|s| - 1] == '=' then DropPad(s[..|s| - 1]) else s
  }

  /** The bytes encoded, or nothing if a character is foreign. */
  function Decode(input: string): Option<string> {
    var clean := DropPad(input);
    if Letters(clean) then Some(Bytes(Indices(clean))) else None
  }

  /**
   `decodeBase64Ascii`: `|` adds because the shift left six zero bits, `>>` is floor division and `& 0xff` the
   remainder by 256.
   */
  method DecodeBase64Ascii(input: string) returns (r: Option<string>)
    ensures r == Decode(input)
  {
    hide DropPad, Bytes, IsLetter, ToInt32, Index, Shift, Completed;
    var clean := DropPad(input);
    var bits: nat, value: int, out: string := 0, 0, "";
    NoBytes();
    for i := 0 to |clean|
      invariant Letters(clean[..i]) && bits == BitsAfter(i)
      invariant out == Bytes(Indices(clean[..i]))
      invariant i > 0 ==> value % 64 == Index(clean[i - 1])
    {
      if !IsLetter(clean[i]) {
        return None;
      }
      var index := Index(clean[i]);
      OneLetterMore(clean, i);
      TakenOut(value, i, index);
      value := ToInt32(value * 64) + index;
      bits := bits + 6;
      if bits >= 8 {
        bits := bits - 8;
        out := out + [((value / Shift(bits)) % 256) as char];
      }
    }
    assert clean[..|clean|] == clean;
    r := Some(out);
  }

  lemma NoBytes()
    ensures Bytes(Indices("")) == ""
  {}

  lemma OneLetterMore(clean: string, i: nat)
    requires i < |clean| && Letters(clean[..i]) && IsLetter(clean[i])
    ensures Letters(clean[..i + 1])
    ensures Bytes(Indices(clean[..i + 1]))
         == Bytes(Indices(clean[..i])) + Completed(i, if i == 0 then 0 else Index(clean[i - 1]), Index(clean[i]))
  {
    hide Bytes, Index, IsLetter, Completed;
    assert forall k | 0 <= k < i + 1 :: clean[..i + 1][k] == if k < i then clean[..i][k] else clean[i];
    assert Indices(clean[..i + 1]) == Indices(clean[..i]) + [Index(clean[i])];
    BytesMore(Indices(clean[..i]), Index(clean[i]));
    assert i > 0 ==> clean[..i][i - 1] == clean[i - 1];
  }

  /** One turn of the loop takes out the byte that the new sextet completes, if it completes one. */
  lemma TakenOut(value: int, n: nat, x: nat)
    requires x < 64
    ensures var v, bits := ToInt32(value * 64) + x, BitsAfter(n) + 6;
            && v % 64 == x && (bits >= 8 ==> BitsAfter(n + 1) == bits - 8) && (bits < 8 ==> BitsAfter(n + 1) == bits)
            && Completed(n, if n == 0 then 0 else value % 64, x)
            == if bits >= 8 then [(v / Shift(bits - 8) % 256) as char] else ""
  {
    hide ToInt32;
    Wrapped(value, x);
  }

  /** The top bits lost to the wrap are never read again: only the last two sextets are. */
  lemma Wrapped(value: int, x: nat)
    requires x < 64
    ensures var v := ToInt32(value * 64) + x;
            && v % 64 == x
            && v / 16 % 256 == value % 64 * 4 + x / 16
            && v / 4 % 256 == value % 64 % 16 * 16 + x / 4
            && v % 256 == value % 64 % 4 * 64 + x
  {
    hide ToInt32;
    var k := WrapsTo(value);
    LowBits(k, value % 64, x);
  }

  lemma WrapsTo(value: int) returns (k: int)
    ensures ToInt32(value * 64) == 4096 * k + 64 * (value % 64)
  {
    var q := (value * 64 + 0x8000_0000) / 0x1_0000_0000;
    assert ToInt32(value * 64) == value * 64 - q * 0x1_0000_0000;
    k := value / 64 - q * 0x10_0000;
  }

  lemma LowBits(k: int, r: nat, x: nat)
    requires r < 64 && x < 64
    ensures var v := 4096 * k + 64 * r + x;
            && v % 64 == x && v / 16 % 256 == r * 4 + x / 16
            && v / 4 % 256 == r % 16 * 16 + x / 4 && v % 256 == r % 4 * 64 + x
  {
    LowSix(k, r, x);
    FirstByte(k, r, x);
    SecondByte(k, r, x);
    ThirdByte(k, r, x);
  }

  lemma LowSix(k: int, r: nat, x: nat)
    requires x < 64
    ensures (4096 * k + 64 * r + x) % 64 == x
  {
    assert 4096 * k + 64 * r + x == 64 * (64 * k + r) + x;
  }

  lemma FirstByte(k: int, r: nat, x: nat)
    requires r < 64 && x < 64
    ensures (4096 * k + 64 * r + x) / 16 % 256 == r * 4 + x / 16
  {
    Divide16(256 * k + 4 * r, x);
    Mod256(k, r * 4 + x / 16);
  }

  lemma SecondByte(k: int, r: nat, x: nat)
    requires r < 64 && x < 64
    ensures (4096 * k + 64 * r + x) / 4 % 256 == r % 16 * 16 + x / 4
  {
    Divide4(1024 * k + 16 * r, x);
    Mod256(4 * k + r / 16, r % 16 * 16 + x / 4);
  }

  lemma ThirdByte(k: int, r: nat, x: nat)
    requires r < 64 && x < 64
    ensures (4096 * k + 64 * r + x) % 256 == r % 4 * 64 + x
  {
    Mod256(16 * k + r / 4, r % 4 * 64 + x);
  }

  lemma Divide16(a: int, x: nat)
    ensures (16 * a + x) / 16 == a + x / 16
  {}

  lemma Divide4(a: int, x: nat)
    ensures (4 * a + x) / 4 == a + x / 4
  {}

  lemma Mod256(a: int, b: nat)
    requires b < 256
    ensures (256 * a + b) % 256 == b
  {}

  // --- the encoder --------------------------------------------------------------------------

  predicate IsBytes(s: string) { forall i | 0 <= i < |s| :: s[i] as int < 256 }

  function ToSextets(s: string): (ix: seq<nat>)
    requires IsBytes(s)
    ensures Sextets(ix)
  {
    if s == "" then []
    else
      var a := s[0] as int;
      if |s| == 1 then [a / 4, a % 4 * 16]
      else
        var b := s[1] as int;
        if |s| == 2 then [a / 4, a % 4 * 16 + b / 16, b % 16 * 4]
        else
          var c := s[2] as int;
          [a / 4, a % 4 * 16 + b / 16, b % 16 * 4 + c / 64, c % 64] + ToSextets(s[3..])
  }

  function Spell(ix: seq<nat>): (s: string)
    requires Sextets(ix)
    ensures |s| == |ix| && Letters(s) && Indices(s) == ix
  {
    seq(|ix|, i requires 0 <= i < |ix| => Letter(ix[i]))
  }

  function Pad(n: nat): string { if n % 3 == 0 then "" else if n % 3 == 1 then "==" else "=" }

  function Encode(s: string): string
    requires IsBytes(s)
  {
    Spell(ToSextets(s)) + Pad(|s|)
  }

  lemma {:induction false} BytesOfSextets(s: string)
    requires IsBytes(s)
    ensures Bytes(ToSextets(s)) == s
  {
    if |s| >= 3 {
      hide Byte0, Byte1, Byte2;
      BytesOfSextets(s[3..]);
      assert ToSextets(s)[4..] == ToSextets(s[3..]);
      GroupOfThree(s);
      assert s == [s[0], s[1], s[2]] + s[3..];
    } else {
      FewBytes(s);
    }
  }

  lemma {:induction false} GroupOfThree(s: string)
    requires IsBytes(s) && |s| >= 3
    ensures var ix := ToSextets(s); |ix| >= 4 && Byte0(ix) == s[0] && Byte1(ix) == s[1] && Byte2(ix) == s[2]
  {
    var a, b, c := s[0] as int, s[1] as int, s[2] as int;
    var ix := ToSextets(s);
    assert ix[0] == a / 4 && ix[1] == a % 4 * 16 + b / 16 && ix[2] == b % 16 * 4 + c / 64 && ix[3] == c % 64;
    Regroup(a, b, c);
  }

  lemma Regroup(a: nat, b: nat, c: nat)
    requires a < 256 && b < 256 && c < 256
    ensures a / 4 * 4 + (a % 4 * 16 + b / 16) / 16 == a
    ensures (a % 4 * 16 + b / 16) % 16 * 16 + (b % 16 * 4 + c / 64) / 4 == b
    ensures (b % 16 * 4 + c / 64) % 4 * 64 + c % 64 == c
  {}

  lemma {:induction false} FewBytes(s: string)
    requires IsBytes(s) && |s| < 3
    ensures Bytes(ToSextets(s)) == s
  {
    if |s| == 2 {
      TwoOfTwo(s);
    } else if |s| == 1 {
      OneOfOne(s);
    }
  }

  lemma {:induction false} OneOfOne(s: string)
    requires IsBytes(s) && |s| == 1
    ensures Bytes(ToSextets(s)) == s
  {
    var a, ix := s[0] as int, ToSextets(s);
    assert ix == [a / 4, a % 4 * 16];
    Regroup(a, 0, 0);
    assert Byte0(ix) == s[0];
    hide Byte0, ToSextets;
    assert Bytes(ix) == [Byte0(ix)];
  }

  lemma {:induction false} TwoOfTwo(s: string)
    requires IsBytes(s) && |s| == 2
    ensures Bytes(ToSextets(s)) == s
  {
    var a, b, ix := s[0] as int, s[1] as int, ToSextets(s);
    assert ix == [a / 4, a % 4 * 16 + b / 16, b % 16 * 4];
    Regroup(a, b, 0);
    assert Byte0(ix) == s[0] && Byte1(ix) == s[1];
    hide Byte0, Byte1, ToSextets;
    assert Bytes(ix) == [Byte0(ix), Byte1(ix)];
  }

  lemma {:induction false} DropPadOf(s: string, pad: string)
    requires Letters(s) && forall i | 0 <= i < |pad| :: pad[i] == '='
    ensures DropPad(s + pad) == s
  {
    if pad == "" {
      assert s + pad == s;
      assert s != "" ==> IsLetter(s[|s| - 1]);
    } else {
      DropPadOf(s, pad[..|pad| - 1]);
      assert (s + pad)[..|s + pad| - 1] == s + pad[..|pad| - 1];
    }
  }

  /** A group of bytes and its sextets are one number, cut after eight and after six bits; short groups end in zeros. */
  lemma {:induction false} SameBits(s: string)
    requires IsBytes(s) && s != ""
    ensures var ix := ToSextets(s);
            if |s| == 1 then |ix| == 2 && s[0] as int * 16 == ix[0] * 64 + ix[1]
            else if |s| == 2 then
              |ix| == 3 && (s[0] as int * 256 + s[1] as int) * 4 == (ix[0] * 64 + ix[1]) * 64 + ix[2]
            else
              && |ix| >= 4 && ix[4..] == ToSextets(s[3..])
              && (s[0] as int * 256 + s[1] as int) * 256 + s[2] as int
                 == ((ix[0] * 64 + ix[1]) * 64 + ix[2]) * 64 + ix[3]
  {
    hide IsLetter, Index;
  }

  /** Decoding undoes encoding on every byte string, with or without the padding. */
  lemma {:induction false} DecodeEncode(s: string, pad: string)
    requires IsBytes(s) && forall i | 0 <= i < |pad| :: pad[i] == '='
    ensures Decode(Spell(ToSextets(s)) + pad) == Some(s)
    ensures Decode(Encode(s)) == Some(s)
  {
    hide Bytes, ToSextets, DropPad;
    DropPadOf(Spell(ToSextets(s)), pad);
    DropPadOf(Spell(ToSextets(s)), Pad(|s|));
    BytesOfSextets(s);
  }
}
