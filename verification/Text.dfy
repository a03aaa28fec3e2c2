/** The character classes and trims of Python strings, JavaScript strings and byte strings. */
module Text {

  newtype Byte = b: int | 0 <= b < 256

  type Bytes = seq<Byte>

  /** `str.isspace`, which `str.split`, `str.strip` and `\s` share. */
  predicate IsSpace(c: char) {
    || '\t' <= c <= '\r' || '\U{1c}' <= c <= ' ' || c == '\U{85}' || c == '\U{a0}' || c == '\U{1680}'
    || '\U{2000}' <= c <= '\U{200a}' || c == '\U{2028}' || c == '\U{2029}' || c == '\U{202f}'
    || c == '\U{205f}' || c == '\U{3000}'
  }

  /** What `String.prototype.trim` removes. */
  predicate IsJsSpace(c: char) {
    || '\t' <= c <= '\r' || c == ' ' || c == '\U{a0}' || c == '\U{1680}'
    || '\U{2000}' <= c <= '\U{200a}' || c == '\U{2028}' || c == '\U{2029}' || c == '\U{202f}'
    || c == '\U{205f}' || c == '\U{3000}' || c == '\U{feff}'
  }

  function TrimLeft(space: char -> bool, s: string): (r: string)
    ensures |r| <= |s|
  {
    if s != [] && space(s[0]) then TrimLeft(space, s[1..]) else s
  }

  function TrimRight(space: char -> bool, s: string): (r: string)
    ensures |r| <= |s|
  {
    if s != [] && space(s[|s| - 1]) then TrimRight(space, s[..|s| - 1]) else s
  }

  function Trim(space: char -> bool, s: string): string {
    TrimRight(space, TrimLeft(space, s))
  }

  function Strip(s: string): string {
    Trim(IsSpace, s)
  }

  /** No white space at either end. */
  predicate Tight(s: string) {
    s != [] ==> !IsSpace(s[0]) && !IsSpace(s[|s| - 1])
  }

  lemma {:induction false} StripExactly(s: string)
    ensures |Strip(s)| <= |s| && (Strip(s) == s <==> Tight(s))
  {
    if s != [] && IsSpace(s[0]) {
      assert |TrimLeft(IsSpace, s[1..])| < |s|;
    }
  }

  ghost predicate AllSpace(s: string) {
    forall i :: 0 <= i < |s| ==> IsSpace(s[i])
  }

  lemma {:induction false} TrimLeftRest(s: string) returns (before: string)
    ensures s == before + TrimLeft(IsSpace, s) && AllSpace(before)
    ensures var t := TrimLeft(IsSpace, s); t != [] ==> !IsSpace(t[0])
  {
    if s != [] && IsSpace(s[0]) {
      var rest := TrimLeftRest(s[1..]);
      before := [s[0]] + rest;
      assert s == [s[0]] + s[1..];
    } else {
      before := [];
    }
  }

  lemma {:induction false} TrimRightRest(s: string) returns (after: string)
    ensures s == TrimRight(IsSpace, s) + after && AllSpace(after)
    ensures var t := TrimRight(IsSpace, s); t != [] ==> t[0] == s[0] && !IsSpace(t[|t| - 1])
  {
    if s != [] && IsSpace(s[|s| - 1]) {
      var front := s[..|s| - 1];
      var rest := TrimRightRest(front);
      after := rest + [s[|s| - 1]];
      assert s == front + [s[|s| - 1]];
    } else {
      after := [];
    }
  }

  /** What is stripped is white space, and what is left has none at its ends. */
  lemma {:induction false} StripKeepsMiddle(s: string) returns (before: string, after: string)
    ensures s == before + (Strip(s) + after) && AllSpace(before) && AllSpace(after) && Tight(Strip(s))
  {
    before := TrimLeftRest(s);
    after := TrimRightRest(TrimLeft(IsSpace, s));
  }

  /** `" ".join(ws)`. */
  function Join(ws: seq<string>): string {
    if ws == [] then [] else if |ws| == 1 then ws[0] else ws[0] + ([' '] + Join(ws[1..]))
  }

  /** `sub in s`. */
  predicate Contains(s: string, sub: string) {
    sub <= s || (s != [] && Contains(s[1..], sub))
  }

  /** `sub` stands somewhere in `s`. */
  lemma {:induction false} ContainsExactly(s: string, sub: string)
    ensures Contains(s, sub) <==> exists i :: 0 <= i <= |s| && sub <= s[i..]
  {
    assert s[0..] == s;
    if s == [] || sub <= s {
    } else {
      ContainsExactly(s[1..], sub);
      if i :| 0 <= i <= |s[1..]| && sub <= s[1..][i..] {
        assert s[1..][i..] == s[i + 1..];
      }
      if i :| 0 < i <= |s| && sub <= s[i..] {
        assert s[1..][i - 1..] == s[i..];
      }
    }
  }

  /** `any(x in s for x in signals)`. */
  predicate ContainsAny(s: string, signals: seq<string>) {
    exists i :: 0 <= i < |signals| && Contains(s, signals[i])
  }

  /** `s[:n]`. */
  function Take<T>(s: seq<T>, n: nat): seq<T> {
    if n <= |s| then s[..n] else s
  }

  /** `s[n:]`. */
  function Skip<T>(s: seq<T>, n: nat): seq<T> {
    if n <= |s| then s[n..] else []
  }

  /** `"".join(parts)`. */
  function Concat<T>(parts: seq<seq<T>>): seq<T> {
    if parts == [] then [] else parts[0] + Concat(parts[1..])
  }

  lemma Regroup<T>(a: seq<T>, b: seq<T>, c: seq<T>)
    ensures (a + b) + c == a + (b + c)
  {
  }

  function LowerByte(b: Byte): Byte {
    if 65 <= b <= 90 then b + 32 else b
  }

  function LowerBytes(s: Bytes): Bytes {
    seq(|s|, i requires 0 <= i < |s| => LowerByte(s[i]))
  }

  function Latin1(s: Bytes): string {
    seq(|s|, i requires 0 <= i < |s| => s[i] as int as char)
  }

  predicate IsAscii(s: string) {
    forall i :: 0 <= i < |s| ==> s[i] < '\U{80}'
  }

  function AsciiBytes(s: string): Bytes
    requires IsAscii(s)
  {
    seq(|s|, i requires 0 <= i < |s| => s[i] as int as Byte)
  }
}
