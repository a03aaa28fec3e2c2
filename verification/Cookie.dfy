/** The dashboard's signed session cookies: base64url without padding under a keyed tag. */
module Cookie {
  import opened Json
  import opened Text
  import opened Wrappers

  // ---- Base64 with the URL-safe alphabet (sections 4 and 5 of RFC 4648) ----

  newtype Sextet = v: int | 0 <= v < 64

  predicate IsUrlChar(c: char) {
    'A' <= c <= 'Z' || 'a' <= c <= 'z' || '0' <= c <= '9' || c == '-' || c == '_'
  }

  function Digit(v: Sextet): (c: char)
    ensures IsUrlChar(c)
  {
    var n := v as int;
    if n < 26 then ('A' as int + n) as char
    else if n < 52 then ('a' as int + n - 26) as char
    else if n < 62 then ('0' as int + n - 52) as char
    else if n == 62 then '-' else '_'
  }

  /** The decoder maps the URL-safe characters to the standard ones, and so reads both. */
  function Value(c: char): Option<Sextet> {
    if 'A' <= c <= 'Z' then Some((c as int - 'A' as int) as Sextet)
    else if 'a' <= c <= 'z' then Some((c as int - 'a' as int + 26) as Sextet)
    else if '0' <= c <= '9' then Some((c as int - '0' as int + 52) as Sextet)
    else if c == '-' || c == '+' then Some(62)
    else if c == '_' || c == '/' then Some(63)
    else None
  }

  function First(a: Byte): Sextet {
    (a as int / 4) as Sextet
  }

  function Second(a: Byte, b: Byte): Sextet {
    (a as int % 4 * 16 + b as int / 16) as Sextet
  }

  function Third(b: Byte, c: Byte): Sextet {
    (b as int % 16 * 4 + c as int / 64) as Sextet
  }

  function Fourth(c: Byte): Sextet {
    (c as int % 64) as Sextet
  }

  /** Three bytes make four digits; one or two bytes at the end make two or three. */
  function Sextets(raw: Bytes): seq<Sextet> {
    if raw == [] then []
    else if |raw| == 1 then [First(raw[0]), Second(raw[0], 0)]
    else if |raw| == 2 then [First(raw[0]), Second(raw[0], raw[1]), Third(raw[1], 0)]
    else [First(raw[0]), Second(raw[0], raw[1]), Third(raw[1], raw[2]), Fourth(raw[2])] + Sextets(raw[3..])
  }

  function Digits(v: seq<Sextet>): string {
    seq(|v|, i requires 0 <= i < |v| => Digit(v[i]))
  }

  function Pads(n: nat): string {
    if n == 0 then [] else Pads(n - 1) + ['=']
  }

  /** One pad for each byte missing from the last group of three. */
  function Encode(raw: Bytes): string {
    Digits(Sextets(raw)) + Pads(-|raw| % 3)
  }

  predicate IsPad(c: char) {
    c == '='
  }

  /** How many values the bits left over at a position of a quadruple can take. */
  function LeftBound(pos: nat): nat {
    if pos == 0 then 1 else if pos == 1 then 64 else if pos == 2 then 16 else 4
  }

  function Push(b: nat, r: Option<Bytes>): Option<Bytes>
    requires b < 256
  {
    match r
    case None => None
    case Some(bytes) => Some([b as Byte] + bytes)
  }

  /**
   * The lenient decoder of `binascii`: characters outside the alphabet are skipped, padding that
   * completes a quadruple ends the input, and the input may otherwise only end between quadruples.
   */
  function Decode(s: string, pos: nat, left: nat, pads: nat): Option<Bytes>
    requires pos < 4 && left < LeftBound(pos)
    decreases |s|, 0
  {
    if s == [] then
      if pos == 0 then Some([]) else None
    else if s[0] == '=' then
      if pos < 2 then Decode(s[1..], pos, left, pads)
      else if pos + pads + 1 >= 4 then Some([])
      else Decode(s[1..], pos, left, pads + 1)
    else match Value(s[0])
      case None => Decode(s[1..], pos, left, pads)
      case Some(v) => DecodeDigit(v, s[1..], pos, left)
  }

  function DecodeDigit(v: Sextet, rest: string, pos: nat, left: nat): Option<Bytes>
    requires pos < 4 && left < LeftBound(pos)
    decreases |rest|, 1
  {
    var n := v as int;
    if pos == 0 then Decode(rest, 1, n, 0)
    else if pos == 1 then Push(left * 4 + n / 16, Decode(rest, 2, n % 16, 0))
    else if pos == 2 then Push(left * 16 + n / 4, Decode(rest, 3, n % 4, 0))
    else Push(left * 64 + n, Decode(rest, 0, 0, 0))
  }

  /** `_b64`. */
  function B64(raw: Bytes): string {
    TrimRight(IsPad, Encode(raw))
  }

  /** `_unb64`; None is a `ValueError`. */
  function Unb64(s: string): Option<Bytes> {
    if !IsAscii(s) then None else Decode(s + Pads(-|s| % 4), 0, 0, 0)
  }

  // ---- Decoding undoes encoding ----

  lemma DecodeNext(v: Sextet, rest: string, pos: nat, left: nat)
    requires pos < 4 && left < LeftBound(pos)
    ensures Decode([Digit(v)] + rest, pos, left, 0) == DecodeDigit(v, rest, pos, left)
  {
    assert Value(Digit(v)) == Some(v);
    assert ([Digit(v)] + rest)[1..] == rest;
  }

  lemma DecodeTwo(x: Sextet, y: Sextet, rest: string)
    ensures Decode([Digit(x)] + ([Digit(y)] + rest), 0, 0, 0)
            == Push(x as int * 4 + y as int / 16, Decode(rest, 2, y as int % 16, 0))
  {
    DecodeNext(x, [Digit(y)] + rest, 0, 0);
    DecodeNext(y, rest, 1, x as int);
  }

  lemma DecodeThree(x: Sextet, y: Sextet, z: Sextet, rest: string)
    ensures Decode([Digit(x)] + ([Digit(y)] + ([Digit(z)] + rest)), 0, 0, 0)
            == Push(x as int * 4 + y as int / 16,
                    Push(y as int % 16 * 16 + z as int / 4, Decode(rest, 3, z as int % 4, 0)))
  {
    DecodeTwo(x, y, [Digit(z)] + rest);
    DecodeNext(z, rest, 2, y as int % 16);
  }

  lemma DecodeFour(x: Sextet, y: Sextet, z: Sextet, w: Sextet, rest: string)
    ensures Decode([Digit(x)] + ([Digit(y)] + ([Digit(z)] + ([Digit(w)] + rest))), 0, 0, 0)
            == Push(x as int * 4 + y as int / 16,
                    Push(y as int % 16 * 16 + z as int / 4, Push(z as int % 4 * 64 + w as int, Decode(rest, 0, 0, 0))))
  {
    DecodeThree(x, y, z, [Digit(w)] + rest);
    DecodeNext(w, rest, 3, z as int % 4);
  }

  /** The bits of three bytes are all kept. */
  lemma Bits(a: Byte, b: Byte, c: Byte)
    ensures First(a) as int * 4 + Second(a, b) as int / 16 == a as int
    ensures Second(a, b) as int % 16 * 16 + Third(b, c) as int / 4 == b as int
    ensures Third(b, c) as int % 4 * 64 + Fourth(c) as int == c as int
  {
  }

  lemma PaddingEnds(left: nat)
    ensures left < 16 ==> Decode("==", 2, left, 0) == Some([])
    ensures left < 4 ==> Decode("=", 3, left, 0) == Some([])
  {
    assert "=="[1..] == "=";
  }

  lemma SplitDigits(v: seq<Sextet>, rest: string)
    requires v != []
    ensures Digits(v) + rest == [Digit(v[0])] + (Digits(v[1..]) + rest)
  {
  }

  lemma {:induction false} DecodeGroup(a: Byte, b: Byte, c: Byte, tail: seq<Sextet>, rest: string)
    ensures Decode(Digits([First(a), Second(a, b), Third(b, c), Fourth(c)] + tail) + rest, 0, 0, 0)
            == Push(a as nat, Push(b as nat, Push(c as nat, Decode(Digits(tail) + rest, 0, 0, 0))))
  {
    Bits(a, b, c);
    var x, y, z, w := First(a), Second(a, b), Third(b, c), Fourth(c);
    DecodeFour(x, y, z, w, Digits(tail) + rest);
    SplitFour(x, y, z, w, tail, rest);
  }

  lemma {:induction false} SplitFour(x: Sextet, y: Sextet, z: Sextet, w: Sextet, tail: seq<Sextet>, rest: string)
    ensures Digits([x, y, z, w] + tail) + rest
            == [Digit(x)] + ([Digit(y)] + ([Digit(z)] + ([Digit(w)] + (Digits(tail) + rest))))
  {
    var v := [x, y, z, w] + tail;
    SplitDigits(v, rest);
    SplitDigits(v[1..], rest);
    SplitDigits(v[2..], rest);
    SplitDigits(v[3..], rest);
    assert v[1..][1..] == v[2..] && v[2..][1..] == v[3..] && v[3..][1..] == tail;
  }

  lemma {:induction false} DecodeOne(a: Byte)
    ensures Decode(Digits([First(a), Second(a, 0)]) + "==", 0, 0, 0) == Some([a])
  {
    Bits(a, 0, 0);
    PaddingEnds(Second(a, 0) as int % 16);
    DecodeTwo(First(a), Second(a, 0), "==");
    assert [a] + [] == [a];
    assert Digits([First(a), Second(a, 0)]) + "==" == [Digit(First(a))] + ([Digit(Second(a, 0))] + "==");
  }

  lemma {:induction false} DecodePair(a: Byte, b: Byte)
    ensures Decode(Digits([First(a), Second(a, b), Third(b, 0)]) + "=", 0, 0, 0) == Some([a, b])
  {
    Bits(a, b, 0);
    PaddingEnds(Third(b, 0) as int % 4);
    DecodeThree(First(a), Second(a, b), Third(b, 0), "=");
    assert Digits([First(a), Second(a, b), Third(b, 0)]) + "="
        == [Digit(First(a))] + ([Digit(Second(a, b))] + ([Digit(Third(b, 0))] + "="));
    assert [a] + ([b] + []) == [a, b];
  }

  lemma PadStep(n: int)
    ensures -(n - 3) % 3 == -n % 3
  {
  }

  lemma {:induction false} DecodeUndoesEncode(raw: Bytes)
    ensures Decode(Encode(raw), 0, 0, 0) == Some(raw)
  {
    assert Pads(1) == "=" && Pads(2) == "==";
    if |raw| == 1 {
      DecodeOne(raw[0]);
      assert raw == [raw[0]];
    } else if |raw| == 2 {
      DecodePair(raw[0], raw[1]);
      assert raw == [raw[0], raw[1]];
    } else if raw != [] {
      PadStep(|raw|);
      DecodeGroup(raw[0], raw[1], raw[2], Sextets(raw[3..]), Pads(-|raw[3..]| % 3));
      DecodeUndoesEncode(raw[3..]);
      PushThree(raw);
    }
  }

  lemma PushThree(raw: Bytes)
    requires |raw| >= 3
    ensures Push(raw[0] as nat, Push(raw[1] as nat, Push(raw[2] as nat, Some(raw[3..])))) == Some(raw)
  {
    assert raw == [raw[0]] + ([raw[1]] + ([raw[2]] + raw[3..]));
  }

  // ---- What the digits are ----

  /** Three bytes, big end first, are the number their four digits write in base 64; the last group is filled up. */
  lemma {:induction false} GroupExactly(raw: Bytes)
    ensures Sextets([]) == []
    ensures var v := Sextets(raw);
            && (|raw| == 1 ==> |v| == 2 && v[0] as int * 64 + v[1] as int == raw[0] as int * 16)
            && (|raw| == 2 ==>
                  |v| == 3 && v[0] as int * 4096 + v[1] as int * 64 + v[2] as int
                              == raw[0] as int * 1024 + raw[1] as int * 4)
            && (|raw| >= 3 ==>
                  && |v| >= 4 && v[4..] == Sextets(raw[3..])
                  && v[0] as int * 262144 + v[1] as int * 4096 + v[2] as int * 64 + v[3] as int
                     == raw[0] as int * 65536 + raw[1] as int * 256 + raw[2] as int)
  {
    if |raw| == 1 {
      Bits(raw[0], 0, 0);
    } else if |raw| == 2 {
      Bits(raw[0], raw[1], 0);
    } else if |raw| >= 3 {
      Bits(raw[0], raw[1], raw[2]);
      assert Sextets(raw)[4..] == Sextets(raw[3..]);
    }
  }

  /** The alphabet of table 2 of RFC 4648, in both directions; "+" and "/" of table 1 are read as well. */
  lemma AlphabetExactly(v: Sextet, c: char)
    ensures Digit(0) == 'A' && Digit(26) == 'a' && Digit(52) == '0' && Digit(62) == '-' && Digit(63) == '_'
    ensures v < 61 && v != 25 && v != 51 ==> Digit(v + 1) as int == Digit(v) as int + 1
    ensures Value(Digit(v)) == Some(v) && Value('+') == Some(62) && Value('/') == Some(63)
    ensures Value(c).None? <==>
              && !('A' <= c <= 'Z') && !('a' <= c <= 'z') && !('0' <= c <= '9')
              && c != '-' && c != '_' && c != '+' && c != '/'
  {
  }

  // ---- What the lenient decoder overlooks ----

  /** A character outside both alphabets changes nothing, wherever it stands. */
  lemma {:induction false} JunkOverlooked(before: string, junk: char, after: string, pos: nat, left: nat, pads: nat)
    requires Value(junk).None? && junk != '=' && pos < 4 && left < LeftBound(pos)
    ensures Decode(before + ([junk] + after), pos, left, pads) == Decode(before + after, pos, left, pads)
  {
    if before == [] {
      assert before + ([junk] + after) == [junk] + after && before + after == after;
    } else {
      var c := before[0];
      assert (before + ([junk] + after))[1..] == before[1..] + ([junk] + after);
      assert (before + after)[1..] == before[1..] + after;
      if c == '=' {
        JunkOverlooked(before[1..], junk, after, pos, left, if pos < 2 then pads else pads + 1);
      } else if Value(c).None? {
        JunkOverlooked(before[1..], junk, after, pos, left, pads);
      } else {
        var n := Value(c).value as int;
        var left' := if pos == 0 then n else if pos == 1 then n % 16 else if pos == 2 then n % 4 else 0;
        JunkOverlooked(before[1..], junk, after, (pos + 1) % 4, left', 0);
      }
    }
  }

  // ---- The padding put back is the padding taken off ----

  predicate UrlSafe(s: string) {
    forall i :: 0 <= i < |s| ==> IsUrlChar(s[i])
  }

  /** Digits and pads together fill quadruples. */
  lemma {:induction false} QuadruplesFull(raw: Bytes)
    ensures -|Sextets(raw)| % 4 == -|raw| % 3
  {
    if |raw| >= 3 {
      QuadruplesFull(raw[3..]);
      PadStep(|raw|);
      QuadrupleMore(|Sextets(raw[3..])|);
    }
  }

  lemma QuadrupleMore(n: int)
    ensures -(n + 4) % 4 == -n % 4
  {
  }

  lemma {:induction false} TrimPads(s: string, n: nat)
    requires s == [] || s[|s| - 1] != '='
    ensures TrimRight(IsPad, s + Pads(n)) == s
  {
    if n == 0 {
      assert s + Pads(0) == s;
    } else {
      Regroup(s, Pads(n - 1), ['=']);
      var t := s + Pads(n);
      assert t[..|t| - 1] == s + Pads(n - 1);
      TrimPads(s, n - 1);
    }
  }

  /** Stripping the padding loses nothing: its length follows from that of the rest. */
  lemma {:induction false} PaddingRestored(raw: Bytes)
    ensures UrlSafe(B64(raw))
    ensures B64(raw) + Pads(-|B64(raw)| % 4) == Encode(raw)
  {
    TrimPads(Digits(Sextets(raw)), -|raw| % 3);
    QuadruplesFull(raw);
  }

  /** No separator and no padding in an encoded text. */
  lemma {:induction false} B64Plain(raw: Bytes)
    ensures IsAscii(B64(raw)) && '.' !in B64(raw) && '=' !in B64(raw)
  {
    PaddingRestored(raw);
  }

  /** Every byte string survives. */
  lemma {:induction false} Unb64UndoesB64(raw: Bytes)
    ensures Unb64(B64(raw)) == Some(raw)
  {
    B64Plain(raw);
    PaddingRestored(raw);
    DecodeUndoesEncode(raw);
  }

  lemma B64Injective(a: Bytes, b: Bytes)
    requires B64(a) == B64(b)
    ensures a == b
  {
    Unb64UndoesB64(a);
    Unb64UndoesB64(b);
  }

  // ---- Which texts are the encoding of what they decode to ----

  /**
   * The alphabet's own spelling, a length that some number of bytes encodes to, and nothing in the low bits the last
   * digit has no use for.
   */
  predicate Canonical(s: string) {
    && UrlSafe(s)
    && |s| % 4 != 1
    && (|s| % 4 == 2 ==> DigitValue(s[|s| - 1]) as int % 16 == 0)
    && (|s| % 4 == 3 ==> DigitValue(s[|s| - 1]) as int % 4 == 0)
  }

  function DigitValue(c: char): (v: Sextet)
    requires IsUrlChar(c)
    ensures Value(c) == Some(v) && Digit(v) == c
  {
    Value(c).value
  }

  function FirstByte(x: Sextet, y: Sextet): Byte {
    (x as int * 4 + y as int / 16) as Byte
  }

  function MiddleByte(y: Sextet, z: Sextet): Byte {
    (y as int % 16 * 16 + z as int / 4) as Byte
  }

  function LastByte(z: Sextet, w: Sextet): Byte {
    (z as int % 4 * 64 + w as int) as Byte
  }

  /** The bytes four digits stand for, and at the end two or three. */
  function Pack(v: seq<Sextet>): Bytes {
    if |v| < 2 then []
    else if |v| == 2 then [FirstByte(v[0], v[1])]
    else if |v| == 3 then [FirstByte(v[0], v[1]), MiddleByte(v[1], v[2])]
    else [FirstByte(v[0], v[1]), MiddleByte(v[1], v[2]), LastByte(v[2], v[3])] + Pack(v[4..])
  }

  /** Canonical digits, before they are spelled. */
  predicate Tidy(v: seq<Sextet>) {
    && |v| % 4 != 1
    && (|v| % 4 == 2 ==> v[|v| - 1] as int % 16 == 0)
    && (|v| % 4 == 3 ==> v[|v| - 1] as int % 4 == 0)
  }

  lemma SextetBits(x: Sextet, y: Sextet, z: Sextet, w: Sextet)
    ensures First(FirstByte(x, y)) == x
    ensures Second(FirstByte(x, y), MiddleByte(y, z)) == y
    ensures Third(MiddleByte(y, z), LastByte(z, w)) == z
    ensures Fourth(LastByte(z, w)) == w
    ensures y as int % 16 == 0 ==> Second(FirstByte(x, y), 0) == y
    ensures z as int % 4 == 0 ==> Third(MiddleByte(y, z), 0) == z
  {
  }

  lemma TidyTail(v: seq<Sextet>)
    requires |v| >= 4
    ensures Tidy(v) <==> Tidy(v[4..])
  {
    assert |v[4..]| % 4 == |v| % 4;
  }

  lemma {:induction false} SextetsOfPack(v: seq<Sextet>)
    requires Tidy(v)
    ensures Sextets(Pack(v)) == v
  {
    if |v| == 2 {
      SextetBits(v[0], v[1], 0, 0);
    } else if |v| == 3 {
      SextetBits(v[0], v[1], v[2], 0);
    } else if |v| >= 4 {
      TidyTail(v);
      SextetsOfPack(v[4..]);
      SextetsOfPackFour(v[0], v[1], v[2], v[3], Pack(v[4..]));
      assert v == [v[0], v[1], v[2], v[3]] + v[4..];
    }
  }

  lemma SextetsOfThree(a: Byte, b: Byte, c: Byte, rest: Bytes)
    ensures Sextets([a, b, c] + rest) == [First(a), Second(a, b), Third(b, c), Fourth(c)] + Sextets(rest)
  {
    assert ([a, b, c] + rest)[3..] == rest;
  }

  lemma {:induction false} SextetsOfPackFour(x: Sextet, y: Sextet, z: Sextet, w: Sextet, rest: Bytes)
    ensures Sextets([FirstByte(x, y), MiddleByte(y, z), LastByte(z, w)] + rest) == [x, y, z, w] + Sextets(rest)
  {
    var a, b, c := FirstByte(x, y), MiddleByte(y, z), LastByte(z, w);
    calc {
      Sextets([a, b, c] + rest);
    == { SextetsOfThree(a, b, c, rest); }
      [First(a), Second(a, b), Third(b, c), Fourth(c)] + Sextets(rest);
    == { SextetBits(x, y, z, w); }
      [x, y, z, w] + Sextets(rest);
    }
  }

  lemma FirstBits(a: Byte, b: Byte)
    ensures Second(a, 0) as int % 16 == 0 && Third(b, 0) as int % 4 == 0
  {
  }

  lemma {:induction false} SextetsTidy(raw: Bytes)
    ensures Tidy(Sextets(raw))
  {
    if 0 < |raw| < 3 {
      FirstBits(raw[0], raw[|raw| - 1]);
    } else if |raw| >= 3 {
      SextetsTidy(raw[3..]);
      TidyTail(Sextets(raw));
      assert Sextets(raw)[4..] == Sextets(raw[3..]);
    }
  }

  /** The digits a text spells. */
  function Read(s: string): (v: seq<Sextet>)
    requires UrlSafe(s)
    ensures |v| == |s| && forall i :: 0 <= i < |s| ==> v[i] == DigitValue(s[i])
  {
    seq(|s|, i requires 0 <= i < |s| => DigitValue(s[i]))
  }

  lemma {:induction false} B64IsDigits(raw: Bytes)
    ensures B64(raw) == Digits(Sextets(raw))
  {
    TrimPads(Digits(Sextets(raw)), -|raw| % 3);
  }

  lemma {:induction false} B64Canonical(raw: Bytes)
    ensures Canonical(B64(raw))
  {
    B64IsDigits(raw);
    SextetsTidy(raw);
    var s, v := B64(raw), Sextets(raw);
    if s != [] {
      assert s[|s| - 1] == Digit(v[|v| - 1]) && Value(s[|s| - 1]) == Some(v[|v| - 1]);
    }
  }

  /**
   * A text is the encoding of the bytes it decodes to exactly when it is canonical. All others are decoded too, or
   * rejected: spelled with the standard alphabet, with characters to skip, text after padding, or loose low bits.
   */
  lemma {:induction false} CanonicalExactly(s: string)
    ensures Unb64(s).Some? && B64(Unb64(s).value) == s <==> Canonical(s)
  {
    if Unb64(s).Some? && B64(Unb64(s).value) == s {
      B64Canonical(Unb64(s).value);
    }
    if Canonical(s) {
      var raw := Pack(Read(s));
      assert Digits(Read(s)) == s;
      SextetsOfPack(Read(s));
      B64IsDigits(raw);
      Unb64UndoesB64(raw);
    }
  }

  /** Two texts for the same bytes that differ in loose low bits, at most one of them canonical. */
  lemma {:induction false} LooseBits(x: Sextet, y: Sextet, y': Sextet)
    requires y as int / 16 == y' as int / 16
    ensures Unb64([Digit(x), Digit(y)]) == Unb64([Digit(x), Digit(y')])
  {
    TwoDigits(x, y);
    TwoDigits(x, y');
  }

  lemma TwoDigits(x: Sextet, y: Sextet)
    ensures Unb64([Digit(x), Digit(y)]) == Push(x as int * 4 + y as int / 16, Some([]))
  {
    assert Pads(1) == "=" && Pads(2) == "==";
    DecodeTwo(x, y, "==");
    PaddingEnds(y as int % 16);
    assert [Digit(x), Digit(y)] + "==" == [Digit(x)] + ([Digit(y)] + "==");
  }

  // ---- Signing ----

  type Payload = seq<(string, Json)>

  /** `mac`: the tag of a body; `decode`: bytes to text; `number`: the value of a literal. */
  datatype Library = Library(mac: (Bytes, string) -> Bytes, decode: Bytes -> Option<string>, number: string -> real)

  function BodyOf(payload: Payload): string
    requires WellFormed(Obj(payload))
  {
    DumpsAscii(payload);
    B64(AsciiBytes(Dumps(Obj(payload), "")))
  }

  lemma DumpsAscii(payload: Payload)
    requires WellFormed(Obj(payload))
    ensures Plain(Dumps(Obj(payload), "")) && IsAscii(Dumps(Obj(payload), ""))
  {
    PrintPlain(Obj(payload), "", "");
    var t := Dumps(Obj(payload), "");
    assert forall i :: 0 <= i < |t| ==> t[i] in t;
  }

  function Token(lib: Library, key: Bytes, body: string): string {
    body + (['.'] + B64(lib.mac(key, body)))
  }

  function Sign(lib: Library, key: Bytes, payload: Payload): string
    requires WellFormed(Obj(payload))
  {
    Token(lib, key, BodyOf(payload))
  }

  /** `Raised`: an exception `unsign` does not catch. */
  datatype Unsigned = Accepted(payload: Payload) | Rejected | Raised

  /** `token.partition(".")` at the first separator. */
  function Before(token: string): string {
    if token == [] || token[0] == '.' then [] else [token[0]] + Before(token[1..])
  }

  function After(token: string): string {
    if token == [] then [] else if token[0] == '.' then token[1..] else After(token[1..])
  }

  /** The expiry a payload compares as, when comparing it with a clock reading is defined. */
  function Expiry(lib: Library, payload: Payload): Option<real> {
    match Field(payload, "exp")
    case None => Some(0.0)
    case Some(Num(literal)) => Some(lib.number(literal))
    case Some(Bool(b)) => Some(if b then 1.0 else 0.0)
    case Some(_) => None
  }

  function CheckExpiry(lib: Library, payload: Payload, now: real): Unsigned {
    match Expiry(lib, payload)
    case None => Raised
    case Some(exp) => if exp < now then Rejected else Accepted(payload)
  }

  function ReadPayload(lib: Library, body: string): Option<Json> {
    match Unb64(body)
    case None => None
    case Some(raw) =>
      match lib.decode(raw)
      case None => None
      case Some(text) => Parse(text)
  }

  function OpenBody(lib: Library, body: string, now: real): Unsigned {
    match ReadPayload(lib, body)
    case None => Rejected
    case Some(Obj(payload)) => CheckExpiry(lib, payload, now)
    case Some(_) => Raised
  }

  function Unsign(lib: Library, key: Bytes, token: Option<string>, now: real): Unsigned {
    if token.None? || '.' !in token.value then Rejected else
    var body, sig := Before(token.value), After(token.value);
    if !IsAscii(sig) then Raised
    else if sig != B64(lib.mac(key, body)) then Rejected
    else OpenBody(lib, body, now)
  }

  /** Text of printable ASCII characters is decoded to itself, as UTF-8 does. */
  ghost predicate DecodesPlain(lib: Library) {
    forall s :: Plain(s) && IsAscii(s) ==> lib.decode(AsciiBytes(s)) == Some(s)
  }

  // ---- What a cookie guarantees ----

  lemma {:induction false} PartitionAtDot(body: string, sig: string)
    requires '.' !in body
    ensures Before(body + (['.'] + sig)) == body && After(body + (['.'] + sig)) == sig
  {
    var token := body + (['.'] + sig);
    if body == [] {
      assert token == ['.'] + sig;
    } else {
      assert token[1..] == body[1..] + (['.'] + sig);
      PartitionAtDot(body[1..], sig);
      assert body == [body[0]] + body[1..];
    }
  }

  lemma {:induction false} PartitionRejoins(token: string)
    requires '.' in token
    ensures token == Before(token) + (['.'] + After(token)) && '.' !in Before(token)
  {
    if token[0] == '.' {
      assert token == [] + (['.'] + token[1..]);
    } else {
      PartitionRejoins(token[1..]);
      assert token == [token[0]] + token[1..];
    }
  }

  lemma {:induction false} OpenToken(lib: Library, key: Bytes, signer: Bytes, body: string, now: real)
    requires '.' !in body
    ensures Unsign(lib, key, Some(Token(lib, signer, body)), now)
            == if lib.mac(key, body) == lib.mac(signer, body) then OpenBody(lib, body, now) else Rejected
  {
    var sig := B64(lib.mac(signer, body));
    PartitionAtDot(body, sig);
    B64Plain(lib.mac(signer, body));
    assert '.' in (['.'] + sig);
    if sig == B64(lib.mac(key, body)) {
      B64Injective(lib.mac(key, body), lib.mac(signer, body));
    }
  }

  lemma {:induction false} BodyReads(lib: Library, payload: Payload)
    requires WellFormed(Obj(payload)) && DecodesPlain(lib)
    ensures '.' !in BodyOf(payload) && ReadPayload(lib, BodyOf(payload)) == Some(Obj(payload))
  {
    DumpsAscii(payload);
    var text := Dumps(Obj(payload), "");
    B64Plain(AsciiBytes(text));
    Unb64UndoesB64(AsciiBytes(text));
    assert lib.decode(AsciiBytes(text)) == Some(text);
    ParseUndoesDumps(Obj(payload), "");
  }

  /** The expiry is the last member of that name, read as a number or a truth value; zero without one. */
  lemma {:induction false} ExpiryExactly(lib: Library, payload: Payload) returns (k: int)
    ensures -1 <= k < |payload| && (k >= 0 ==> payload[k].0 == "exp")
    ensures forall i :: k < i < |payload| ==> payload[i].0 != "exp"
    ensures k < 0 ==> Expiry(lib, payload) == Some(0.0)
    ensures k >= 0 ==>
              match payload[k].1
              case Num(literal) => Expiry(lib, payload) == Some(lib.number(literal))
              case Bool(b) => Expiry(lib, payload) == Some(if b then 1.0 else 0.0)
              case _ => Expiry(lib, payload) == None
  {
    k := LastNamed(payload, "exp");
  }

  lemma {:induction false} LastNamed(members: Payload, name: string) returns (k: int)
    ensures -1 <= k < |members| && (k >= 0 ==> members[k].0 == name)
    ensures forall i :: k < i < |members| ==> members[i].0 != name
    ensures Field(members, name) == if k >= 0 then Some(members[k].1) else None
  {
    if members == [] || members[|members| - 1].0 == name {
      k := |members| - 1;
    } else {
      k := LastNamed(members[..|members| - 1], name);
    }
  }

  /** A signed token: the printed payload and its tag, both in base64url, around its only separator. */
  lemma {:induction false} SignExactly(lib: Library, key: Bytes, payload: Payload) returns (body: string, sig: string)
    requires WellFormed(Obj(payload))
    ensures Sign(lib, key, payload) == body + ("." + sig) && '.' !in body && '.' !in sig
    ensures IsAscii(Dumps(Obj(payload), "")) && Unb64(body) == Some(AsciiBytes(Dumps(Obj(payload), "")))
    ensures Unb64(sig) == Some(lib.mac(key, body)) && Canonical(body) && Canonical(sig)
  {
    DumpsAscii(payload);
    body := BodyOf(payload);
    sig := B64(lib.mac(key, body));
    B64Plain(AsciiBytes(Dumps(Obj(payload), "")));
    Unb64UndoesB64(AsciiBytes(Dumps(Obj(payload), "")));
    B64Canonical(AsciiBytes(Dumps(Obj(payload), "")));
    B64Plain(lib.mac(key, body));
    Unb64UndoesB64(lib.mac(key, body));
    B64Canonical(lib.mac(key, body));
  }

  /** The JSON value a body holds. */
  ghost predicate Holds(lib: Library, body: string, value: Json) {
    exists raw, text :: Unb64(body) == Some(raw) && lib.decode(raw) == Some(text) && Parse(text) == Some(value)
  }

  /**
   * Every token, split at its first separator. It is accepted exactly with its body's own tag, an object in the body
   * and an expiry not before now; it raises exactly for a tag outside ASCII, or with the right tag for a body that is
   * no object or an expiry that is no number.
   */
  lemma {:induction false} UnsignExactly(lib: Library, key: Bytes, body: string, sig: string, now: real)
    requires '.' !in body
    ensures var r := Unsign(lib, key, Some(body + ("." + sig)), now);
            var tagged := IsAscii(sig) && sig == B64(lib.mac(key, body));
            && (forall p :: r == Accepted(p) <==>
                  tagged && Holds(lib, body, Obj(p)) && Expiry(lib, p).Some? && Expiry(lib, p).value >= now)
            && (r == Raised <==>
                  || !IsAscii(sig)
                  || (tagged && exists v :: Holds(lib, body, v) && (v.Obj? ==> Expiry(lib, v.members).None?)))
    ensures '.' !in sig ==> Unsign(lib, key, Some(sig), now) == Rejected
    ensures Unsign(lib, key, None, now) == Rejected
  {
    PartitionAtDot(body, sig);
    assert (body + ("." + sig))[|body|] == '.';
    var v := ReadPayload(lib, body);
    forall value
      ensures Holds(lib, body, value) <==> v == Some(value)
    {
    }
  }

  /**
   * A signed payload comes back unchanged under the same key exactly while its expiry, zero when it
   * has none, is a number not before now. Under another key it does so only if the tags coincide.
   */
  lemma {:induction false} SignedPayloadReturns(lib: Library, signer: Bytes, key: Bytes, payload: Payload, now: real)
    requires WellFormed(Obj(payload)) && DecodesPlain(lib)
    ensures var r := Unsign(lib, key, Some(Sign(lib, signer, payload)), now);
            && (r.Accepted? ==> r.payload == payload)
            && (r.Accepted? <==>
                 && lib.mac(key, BodyOf(payload)) == lib.mac(signer, BodyOf(payload))
                 && Expiry(lib, payload).Some? && Expiry(lib, payload).value >= now)
            && (r.Raised? <==>
                 && lib.mac(key, BodyOf(payload)) == lib.mac(signer, BodyOf(payload))
                 && Expiry(lib, payload).None?)
  {
    BodyReads(lib, payload);
    OpenToken(lib, key, signer, BodyOf(payload), now);
  }

  /** Only a text that carries its own body's tag is ever opened, so two opened tokens with one body are one. */
  lemma {:induction false} OnlyTagged(lib: Library, key: Bytes, token: string, now: real)
    requires Unsign(lib, key, Some(token), now).Accepted?
    ensures token == Token(lib, key, Before(token)) && '.' !in Before(token)
  {
    PartitionRejoins(token);
  }

  /** A cookie whose body was taken from a signed one is that cookie, character by character, or is not accepted. */
  lemma {:induction false} NoSecondSpelling(lib: Library, key: Bytes, payload: Payload, token: string, now: real)
    requires WellFormed(Obj(payload)) && token != Sign(lib, key, payload)
    ensures Before(token) == BodyOf(payload) ==> !Unsign(lib, key, Some(token), now).Accepted?
    ensures Unsign(lib, key, Some(token), now).Accepted? ==>
              Before(token) != BodyOf(payload) && After(token) == B64(lib.mac(key, Before(token)))
  {
    if Unsign(lib, key, Some(token), now).Accepted? {
      OnlyTagged(lib, key, token, now);
    }
  }
}
