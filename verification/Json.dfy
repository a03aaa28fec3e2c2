/** JSON values, the text `json.dumps` prints for them, and a reader for the grammar of RFC 8259. */
module Json {
  import opened Wrappers

  /** Numbers keep their literal text; objects keep their members in order. */
  datatype Json =
    | Null
    | Bool(b: bool)
    | Num(literal: string)
    | Str(s: string)
    | Arr(items: seq<Json>)
    | Obj(members: seq<(string, Json)>)

  // ---- Numbers (section 6) ----

  predicate IsDigit(c: char) {
    '0' <= c <= '9'
  }

  predicate IsNumberChar(c: char) {
    IsDigit(c) || c == '+' || c == '-' || c == '.' || c == 'e' || c == 'E'
  }

  predicate IsDigits(s: string) {
    s != [] && forall i :: 0 <= i < |s| ==> IsDigit(s[i])
  }

  /** The longest prefix of characters satisfying `p`. */
  function Span(p: char -> bool, s: string): (n: nat)
    ensures n <= |s| && (forall i :: 0 <= i < n ==> p(s[i])) && (n < |s| ==> !p(s[n]))
  {
    if s != [] && p(s[0]) then 1 + Span(p, s[1..]) else 0
  }

  predicate IsExponent(s: string) {
    s == [] ||
    ((s[0] == 'e' || s[0] == 'E') && |s| > 1 && IsDigits(if s[1] == '+' || s[1] == '-' then s[2..] else s[1..]))
  }

  predicate IsFraction(s: string) {
    if s != [] && s[0] == '.' then
      var n := Span(IsDigit, s[1..]);
      n > 0 && IsExponent(s[n + 1..])
    else IsExponent(s)
  }

  predicate IsNumber(s: string) {
    var t := if s != [] && s[0] == '-' then s[1..] else s;
    var n := Span(IsDigit, t);
    n > 0 && (t[0] == '0' ==> n == 1) && IsFraction(t[n..]) && forall i :: 0 <= i < |s| ==> IsNumberChar(s[i])
  }

  // ---- Strings (section 7) ----

  function HexDigit(n: nat): char
    requires n < 16
  {
    if n < 10 then ('0' as int + n) as char else ('a' as int + n - 10) as char
  }

  function HexValue(c: char): Option<nat> {
    if '0' <= c <= '9' then Some((c as int - '0' as int) as nat)
    else if 'a' <= c <= 'f' then Some((c as int - 'a' as int + 10) as nat)
    else if 'A' <= c <= 'F' then Some((c as int - 'A' as int + 10) as nat)
    else None
  }

  function Hex4(n: nat): string
    requires n < 0x10000
  {
    [HexDigit(n / 16 / 16 / 16), HexDigit(n / 16 / 16 % 16), HexDigit(n / 16 % 16), HexDigit(n % 16)]
  }

  function Unhex4(s: string): (r: Option<nat>)
    ensures r.Some? ==> |s| >= 4 && r.value < 0x10000
  {
    if |s| < 4 then None else
    var a, b, c, d := HexValue(s[0]), HexValue(s[1]), HexValue(s[2]), HexValue(s[3]);
    if a.None? || b.None? || c.None? || d.None? then None
    else if a.value >= 16 || b.value >= 16 || c.value >= 16 || d.value >= 16 then None
    else Some(a.value * 4096 + b.value * 256 + c.value * 16 + d.value)
  }

  /** The letter that escapes `c` after a backslash, where `json.dumps` uses one. */
  function ShortEscape(c: char): Option<char> {
    if c == '"' || c == '\\' then Some(c)
    else if c == '\n' then Some('n')
    else if c == '\r' then Some('r')
    else if c == '\t' then Some('t')
    else if c == 8 as char then Some('b')
    else if c == 12 as char then Some('f')
    else None
  }

  /** What a backslash and that letter stand for. */
  function ShortMeaning(e: char): Option<char> {
    if e == '"' || e == '\\' || e == '/' then Some(e)
    else if e == 'n' then Some('\n')
    else if e == 'r' then Some('\r')
    else if e == 't' then Some('\t')
    else if e == 'b' then Some(8 as char)
    else if e == 'f' then Some(12 as char)
    else None
  }

  function UnicodeEscape(n: nat): string
    requires n < 0x10000
  {
    ['\\', 'u'] + Hex4(n)
  }

  /** The surrogate pair of U+10000 plus `high * 1024 + low`. */
  function PairEscape(high: nat, low: nat): string
    requires high < 1024 && low < 1024
  {
    UnicodeEscape(0xd800 + high) + UnicodeEscape(0xdc00 + low)
  }

  /** `ensure_ascii` escaping: everything outside the printable ASCII range is escaped, above U+FFFF as a pair. */
  function EscapeChar(c: char): string {
    var n := c as int;
    match ShortEscape(c)
    case Some(e) => ['\\', e]
    case None =>
      if ' ' <= c <= '~' then [c]
      else if n < 0x10000 then UnicodeEscape(n)
      else PairEscape((n - 0x10000) / 1024, (n - 0x10000) % 1024)
  }

  /** `t` closes with the character `rest` closes with. */
  ghost predicate SameEnd(t: string, rest: string) {
    rest != [] ==> t != [] && t[|t| - 1] == rest[|rest| - 1]
  }

  /** The escaped body of `s`, followed by `rest`. */
  function Escape(s: string, rest: string): (t: string)
    ensures SameEnd(t, rest)
  {
    if s == [] then rest else EscapeChar(s[0]) + Escape(s[1..], rest)
  }

  /** The text after `\u`. */
  function ReadUnicode(s: string): (r: Option<(char, string)>)
    ensures r.Some? ==> |r.value.1| < |s|
  {
    match Unhex4(s)
    case None => None
    case Some(n) =>
      if n < 0xd800 || n >= 0xe000 then Some((n as char, s[4..]))
      else if n >= 0xdc00 || |s| < 6 || s[4] != '\\' || s[5] != 'u' then None
      else match Unhex4(s[6..])
        case None => None
        case Some(m) =>
          if 0xdc00 <= m < 0xe000
          then Some(((0x10000 + (n - 0xd800) * 1024 + (m - 0xdc00)) as char, s[10..])) else None
  }

  /** One character of a string body and what follows it. */
  function ReadChar(s: string): (r: Option<(char, string)>)
    requires s != []
    ensures r.Some? ==> |r.value.1| < |s|
  {
    if s[0] != '\\' then if s[0] < ' ' then None else Some((s[0], s[1..]))
    else if |s| < 2 then None
    else match ShortMeaning(s[1])
      case Some(c) => Some((c, s[2..]))
      case None => if s[1] == 'u' then ReadUnicode(s[2..]) else None
  }

  /** A string body up to its closing quote. */
  function ReadString(s: string): (r: Option<(string, string)>)
    ensures r.Some? ==> |r.value.1| < |s|
    decreases |s|
  {
    if s == [] then None
    else if s[0] == '"' then Some(([], s[1..]))
    else match ReadChar(s)
      case None => None
      case Some((c, rest)) =>
        match ReadString(rest)
        case None => None
        case Some((t, rest')) => Some(([c] + t, rest'))
  }

  // ---- Printing ----

  /** `json.dumps` with separators `"," + gap` and `":" + gap`. */
  function Dumps(j: Json, gap: string): string {
    Print(j, gap, [])
  }

  /** The printed value followed by `rest`. */
  function Print(j: Json, gap: string, rest: string): (t: string)
    ensures SameEnd(t, rest)
    decreases j, 0
  {
    match j
    case Null => "null" + rest
    case Bool(b) => (if b then "true" else "false") + rest
    case Num(literal) => literal + rest
    case Str(s) => ['"'] + Escape(s, ['"'] + rest)
    case Arr(items) => ['['] + PrintItems(items, gap, rest)
    case Obj(members) => ['{'] + PrintMembers(members, gap, rest)
  }

  function PrintItems(items: seq<Json>, gap: string, rest: string): (t: string)
    ensures SameEnd(t, [']'] + rest)
    decreases items, 0
  {
    if items == [] then [']'] + rest
    else if |items| == 1 then Print(items[0], gap, [']'] + rest)
    else Print(items[0], gap, [','] + (gap + PrintItems(items[1..], gap, rest)))
  }

  function PrintMember(m: (string, Json), gap: string, rest: string): (t: string)
    ensures SameEnd(t, rest)
    decreases m, 1
  {
    ['"'] + Escape(m.0, ['"'] + ([':'] + (gap + Print(m.1, gap, rest))))
  }

  function PrintMembers(members: seq<(string, Json)>, gap: string, rest: string): (t: string)
    ensures SameEnd(t, ['}'] + rest)
    decreases members, 0
  {
    if members == [] then ['}'] + rest
    else if |members| == 1 then PrintMember(members[0], gap, ['}'] + rest)
    else PrintMember(members[0], gap, [','] + (gap + PrintMembers(members[1..], gap, rest)))
  }

  // ---- Reading ----

  predicate IsWs(c: char) {
    c == ' ' || c == '\t' || c == '\n' || c == '\r'
  }

  function SkipWs(s: string): (r: string)
    ensures |r| <= |s|
  {
    if s != [] && IsWs(s[0]) then SkipWs(s[1..]) else s
  }

  /** A word or a number. */
  function ReadAtom(t: string): (r: Option<(Json, string)>)
    ensures r.Some? ==> |r.value.1| < |t|
  {
    if "null" <= t then Some((Null, t[4..]))
    else if "true" <= t then Some((Bool(true), t[4..]))
    else if "false" <= t then Some((Bool(false), t[5..]))
    else
      var n := Span(IsNumberChar, t);
      if IsNumber(t[..n]) then Some((Num(t[..n]), t[n..])) else None
  }

  function ReadValue(s: string): (r: Option<(Json, string)>)
    ensures r.Some? ==> |r.value.1| < |s|
    decreases |s|, 0
  {
    var t := SkipWs(s);
    if t == [] then None
    else if t[0] == '"' then
      match ReadString(t[1..])
      case None => None
      case Some((str, rest)) => Some((Str(str), rest))
    else if t[0] == '[' then ReadArray(t[1..])
    else if t[0] == '{' then ReadObject(t[1..])
    else ReadAtom(t)
  }

  /** What follows an opening bracket. */
  function ReadArray(s: string): (r: Option<(Json, string)>)
    ensures r.Some? ==> |r.value.1| < |s|
    decreases |s|, 2
  {
    var u := SkipWs(s);
    if u != [] && u[0] == ']' then Some((Arr([]), u[1..])) else
    match ReadItems(u)
    case None => None
    case Some((items, rest)) => Some((Arr(items), rest))
  }

  /** What follows an opening brace. */
  function ReadObject(s: string): (r: Option<(Json, string)>)
    ensures r.Some? ==> |r.value.1| < |s|
    decreases |s|, 3
  {
    var u := SkipWs(s);
    if u != [] && u[0] == '}' then Some((Obj([]), u[1..])) else
    match ReadMembers(u)
    case None => None
    case Some((members, rest)) => Some((Obj(members), rest))
  }

  function ReadItems(s: string): (r: Option<(seq<Json>, string)>)
    ensures r.Some? ==> |r.value.1| < |s|
    decreases |s|, 1
  {
    match ReadValue(s)
    case None => None
    case Some((item, rest)) =>
      var t := SkipWs(rest);
      if t != [] && t[0] == ']' then Some(([item], t[1..]))
      else if t != [] && t[0] == ',' then
        match ReadItems(t[1..])
        case None => None
        case Some((items, rest')) => Some(([item] + items, rest'))
      else None
  }

  function ReadMember(s: string): (r: Option<((string, Json), string)>)
    ensures r.Some? ==> |r.value.1| < |s|
    decreases |s|, 1
  {
    var t := SkipWs(s);
    if t == [] || t[0] != '"' then None else
    match ReadString(t[1..])
    case None => None
    case Some((key, rest)) =>
      var u := SkipWs(rest);
      if u == [] || u[0] != ':' then None else
      match ReadValue(u[1..])
      case None => None
      case Some((value, rest')) => Some(((key, value), rest'))
  }

  function ReadMembers(s: string): (r: Option<(seq<(string, Json)>, string)>)
    ensures r.Some? ==> |r.value.1| < |s|
    decreases |s|, 2
  {
    match ReadMember(s)
    case None => None
    case Some((member, rest)) =>
      var t := SkipWs(rest);
      if t != [] && t[0] == '}' then Some(([member], t[1..]))
      else if t != [] && t[0] == ',' then
        match ReadMembers(t[1..])
        case None => None
        case Some((members, rest')) => Some(([member] + members, rest'))
      else None
  }

  /** `JSON.parse` and `json.loads`: one value and nothing after it. */
  function Parse(s: string): Option<Json> {
    match ReadValue(s)
    case None => None
    case Some((j, rest)) => if SkipWs(rest) == [] then Some(j) else None
  }

  /** The last member of that name, as both readers resolve duplicates. */
  function Field(members: seq<(string, Json)>, key: string): Option<Json> {
    if members == [] then None
    else if members[|members| - 1].0 == key then Some(members[|members| - 1].1)
    else Field(members[..|members| - 1], key)
  }

  // ---- Reading undoes printing ----

  /** Every number literal is one. */
  predicate WellFormed(j: Json)
    decreases j
  {
    match j
    case Num(literal) => IsNumber(literal)
    case Arr(items) => forall i :: 0 <= i < |items| ==> WellFormed(items[i])
    case Obj(members) => forall i :: 0 <= i < |members| ==> WellFormed(members[i].1)
    case _ => true
  }

  /** Text that cannot lengthen a number literal before it. */
  predicate Ends(rest: string) {
    rest == [] || !IsNumberChar(rest[0])
  }

  lemma HexRoundTrip(n: nat, rest: string)
    requires n < 0x10000
    ensures Unhex4(Hex4(n) + rest) == Some(n)
  {
    var q1, q2, q3 := n / 16, n / 16 / 16, n / 16 / 16 / 16;
    var t := Hex4(n) + rest;
    assert HexValue(t[0]) == Some(q3) && HexValue(t[1]) == Some(q2 % 16);
    assert HexValue(t[2]) == Some(q1 % 16) && HexValue(t[3]) == Some(n % 16);
    assert n == q1 * 16 + n % 16 && q1 == q2 * 16 + q1 % 16 && q2 == q3 * 16 + q2 % 16;
  }

  lemma ReadEscapedUnicode(n: nat, rest: string)
    requires n < 0xd800 || 0xe000 <= n < 0x10000
    ensures ReadChar(UnicodeEscape(n) + rest) == Some((n as char, rest))
  {
    var t := UnicodeEscape(n) + rest;
    assert t[2..] == Hex4(n) + rest && t[2..][4..] == rest;
    HexRoundTrip(n, rest);
  }

  lemma {:induction false} ReadSurrogates(hi: nat, lo: nat, rest: string)
    requires 0xd800 <= hi < 0xdc00 <= lo < 0xe000
    ensures ReadUnicode(Hex4(hi) + (['\\', 'u'] + (Hex4(lo) + rest)))
            == Some(((0x10000 + (hi - 0xd800) * 1024 + (lo - 0xdc00)) as char, rest))
  {
    var second := Hex4(lo) + rest;
    var u := Hex4(hi) + (['\\', 'u'] + second);
    HexRoundTrip(hi, ['\\', 'u'] + second);
    HexRoundTrip(lo, rest);
    assert u[6..] == second && u[10..] == rest;
  }

  lemma {:induction false} ReadEscapedPair(high: nat, low: nat, rest: string)
    requires high < 1024 && low < 1024
    ensures ReadChar(PairEscape(high, low) + rest) == Some(((0x10000 + high * 1024 + low) as char, rest))
  {
    var hi, lo := 0xd800 + high, 0xdc00 + low;
    var t := PairEscape(high, low) + rest;
    assert t[2..] == Hex4(hi) + (['\\', 'u'] + (Hex4(lo) + rest));
    ReadSurrogates(hi, lo, rest);
  }

  lemma ReadShort(c: char, rest: string)
    requires ShortEscape(c).Some?
    ensures ReadChar(['\\', ShortEscape(c).value] + rest) == Some((c, rest))
  {
    assert (['\\', ShortEscape(c).value] + rest)[2..] == rest;
  }

  lemma ReadPlain(c: char, rest: string)
    requires c >= ' ' && c != '\\'
    ensures ReadChar([c] + rest) == Some((c, rest))
  {
    assert ([c] + rest)[1..] == rest;
  }

  lemma {:induction false} CharRoundTrip(c: char, rest: string)
    ensures ReadChar(EscapeChar(c) + rest) == Some((c, rest))
    ensures (EscapeChar(c) + rest)[0] != '"'
  {
    if ShortEscape(c).Some? {
      ReadShort(c, rest);
    } else if ' ' <= c <= '~' {
      ReadPlain(c, rest);
    } else if c as int < 0x10000 {
      ReadEscapedUnicode(c as int, rest);
    } else {
      var n := c as int - 0x10000;
      ReadEscapedPair(n / 1024, n % 1024, rest);
      assert n == n / 1024 * 1024 + n % 1024;
    }
  }

  lemma ReadNextChar(c: char, s: string, text: string, tail: string, rest: string)
    requires text != [] && text[0] != '"' && ReadChar(text) == Some((c, tail)) && ReadString(tail) == Some((s, rest))
    ensures ReadString(text) == Some(([c] + s, rest))
  {
  }

  lemma {:induction false} StringRoundTrip(s: string, rest: string)
    ensures ReadString(Escape(s, ['"'] + rest)) == Some((s, rest))
    decreases |s|
  {
    if s == [] {
      assert (['"'] + rest)[1..] == rest;
    } else {
      var tail := Escape(s[1..], ['"'] + rest);
      CharRoundTrip(s[0], tail);
      StringRoundTrip(s[1..], rest);
      ReadNextChar(s[0], s[1..], EscapeChar(s[0]) + tail, tail, rest);
      assert s == [s[0]] + s[1..];
    }
  }

  lemma {:induction false} SpanExact(p: char -> bool, s: string, rest: string)
    requires forall i :: 0 <= i < |s| ==> p(s[i])
    requires rest == [] || !p(rest[0])
    ensures Span(p, s + rest) == |s|
  {
    if s == [] {
      assert s + rest == rest;
    } else {
      assert (s + rest)[1..] == s[1..] + rest;
      SpanExact(p, s[1..], rest);
    }
  }

  lemma AtomStart(t: string, word: string)
    requires t != [] && word != [] && t[0] != word[0]
    ensures !(word <= t)
  {
  }

  lemma NumberRoundTrip(literal: string, rest: string)
    requires IsNumber(literal) && Ends(rest)
    ensures ReadAtom(literal + rest) == Some((Num(literal), rest))
  {
    var t := literal + rest;
    SpanExact(IsNumberChar, literal, rest);
    assert t[0] == literal[0] && IsNumberChar(t[0]);
    assert t[..|literal|] == literal && t[|literal|..] == rest;
    AtomStart(t, "null");
    AtomStart(t, "true");
    AtomStart(t, "false");
  }

  ghost predicate IsGap(gap: string) {
    forall i :: 0 <= i < |gap| ==> gap[i] == ' ' || gap[i] == '\t' || gap[i] == '\n' || gap[i] == '\r'
  }

  lemma {:induction false} SkipGap(gap: string, s: string)
    requires IsGap(gap)
    ensures SkipWs(gap + s) == SkipWs(s)
  {
    if gap == [] {
      assert gap + s == s;
    } else {
      assert (gap + s)[1..] == gap[1..] + s;
      SkipGap(gap[1..], s);
    }
  }

  /** A printed value opens with a character that is neither white space nor a closing bracket. */
  lemma PrintOpens(j: Json, gap: string, rest: string)
    requires WellFormed(j)
    ensures var t := Print(j, gap, rest); t != [] && SkipWs(t) == t && t[0] != ']'
  {
    var t := Print(j, gap, rest);
    if j.Num? {
      assert t[0] == j.literal[0] && IsNumberChar(t[0]);
    }
  }

  lemma {:induction false} ReadAfterGap(gap: string, s: string)
    requires IsGap(gap)
    ensures ReadValue(gap + s) == ReadValue(s)
    ensures ReadItems(gap + s) == ReadItems(s)
    ensures ReadMember(gap + s) == ReadMember(s)
    ensures ReadMembers(gap + s) == ReadMembers(s)
  {
    SkipGap(gap, s);
  }

  lemma WordRoundTrip(j: Json, gap: string, rest: string)
    requires j.Null? || j.Bool?
    ensures ReadAtom(Print(j, gap, rest)) == Some((j, rest))
  {
    var word := if j.Null? then "null" else if j.b then "true" else "false";
    var t := word + rest;
    assert t[0] == word[0] && t[..|word|] == word && t[|word|..] == rest;
    if j != Null { AtomStart(t, "null"); }
    if j != Bool(true) { AtomStart(t, "true"); }
  }

  /** A text that opens like an atom is read as one. */
  lemma ReadAsAtom(t: string)
    requires t != [] && t[0] != '"' && t[0] != '[' && t[0] != '{' && !IsWs(t[0])
    ensures ReadValue(t) == ReadAtom(t)
  {
    assert SkipWs(t) == t;
  }

  lemma StrRoundTrip(s: string, rest: string)
    ensures ReadValue(['"'] + Escape(s, ['"'] + rest)) == Some((Str(s), rest))
  {
    var u := Escape(s, ['"'] + rest);
    assert (['"'] + u)[1..] == u;
    StringRoundTrip(s, rest);
  }

  lemma {:induction false} AtomRoundTrip(j: Json, gap: string, rest: string)
    requires (j.Null? || j.Bool? || j.Num?) && WellFormed(j) && Ends(rest)
    ensures ReadValue(Print(j, gap, rest)) == Some((j, rest))
  {
    if j.Num? {
      NumberRoundTrip(j.literal, rest);
      assert IsNumberChar(j.literal[0]) && (j.literal + rest)[0] == j.literal[0];
    } else {
      WordRoundTrip(j, gap, rest);
    }
    ReadAsAtom(Print(j, gap, rest));
  }

  lemma {:induction false} ValueRoundTrip(j: Json, gap: string, rest: string)
    requires WellFormed(j) && IsGap(gap) && Ends(rest)
    ensures ReadValue(Print(j, gap, rest)) == Some((j, rest))
    decreases j, 0
  {
    match j {
      case Str(s) => StrRoundTrip(s, rest);
      case Arr(items) => ArrRoundTrip(items, gap, rest);
      case Obj(members) => ObjRoundTrip(members, gap, rest);
      case _ => AtomRoundTrip(j, gap, rest);
    }
  }

  lemma {:induction false} ArrRoundTrip(items: seq<Json>, gap: string, rest: string)
    requires (forall i :: 0 <= i < |items| ==> WellFormed(items[i])) && IsGap(gap)
    ensures ReadValue(['['] + PrintItems(items, gap, rest)) == Some((Arr(items), rest))
    decreases items, 1
  {
    var u := PrintItems(items, gap, rest);
    assert (['['] + u)[1..] == u;
    if items == [] {
      assert u[1..] == rest;
    } else {
      PrintOpens(
        items[0], gap, if |items| == 1 then [']'] + rest else [','] + (gap + PrintItems(items[1..], gap, rest)));
      ItemsRoundTrip(items, gap, rest);
    }
  }

  lemma MemberOpens(m: (string, Json), gap: string, rest: string)
    ensures var t := PrintMember(m, gap, rest); t != [] && t[0] == '"' && SkipWs(t) == t
  {
  }

  lemma MembersOpen(members: seq<(string, Json)>, gap: string, rest: string)
    requires members != []
    ensures var t := PrintMembers(members, gap, rest); t != [] && t[0] == '"' && SkipWs(t) == t
  {
    if |members| == 1 {
      MemberOpens(members[0], gap, ['}'] + rest);
    } else {
      MemberOpens(members[0], gap, [','] + (gap + PrintMembers(members[1..], gap, rest)));
    }
  }

  lemma ReadOpenedObject(u: string)
    ensures ReadValue(['{'] + u) == ReadObject(u)
  {
    var t := ['{'] + u;
    assert SkipWs(t) == t && t[1..] == u;
  }

  lemma {:induction false} ObjRoundTrip(members: seq<(string, Json)>, gap: string, rest: string)
    requires (forall i :: 0 <= i < |members| ==> WellFormed(members[i].1)) && IsGap(gap)
    ensures ReadValue(['{'] + PrintMembers(members, gap, rest)) == Some((Obj(members), rest))
    decreases members, 1
  {
    var u := PrintMembers(members, gap, rest);
    ReadOpenedObject(u);
    if members == [] {
      assert u[1..] == rest;
    } else {
      MembersOpen(members, gap, rest);
      MembersRoundTrip(members, gap, rest);
    }
  }

  lemma ReadLastItem(item: Json, text: string, rest: string)
    requires ReadValue(text) == Some((item, [']'] + rest))
    ensures ReadItems(text) == Some(([item], rest))
  {
    assert ([']'] + rest)[1..] == rest;
  }

  lemma ReadNextItem(item: Json, items: seq<Json>, text: string, more: string, rest: string)
    requires ReadValue(text) == Some((item, [','] + more)) && ReadItems(more) == Some((items, rest))
    ensures ReadItems(text) == Some(([item] + items, rest))
  {
    assert ([','] + more)[1..] == more;
  }

  lemma {:induction false} FirstItemRoundTrip(item: Json, items: seq<Json>, gap: string, more: string, rest: string)
    requires WellFormed(item) && IsGap(gap) && ReadItems(more) == Some((items, rest))
    ensures ReadItems(Print(item, gap, [','] + (gap + more))) == Some(([item] + items, rest))
    decreases item, 1
  {
    ReadAfterGap(gap, more);
    ValueRoundTrip(item, gap, [','] + (gap + more));
    ReadNextItem(item, items, Print(item, gap, [','] + (gap + more)), gap + more, rest);
  }

  lemma {:induction false} ItemsRoundTrip(items: seq<Json>, gap: string, rest: string)
    requires items != [] && (forall i :: 0 <= i < |items| ==> WellFormed(items[i])) && IsGap(gap)
    ensures ReadItems(PrintItems(items, gap, rest)) == Some((items, rest))
    decreases items, 0
  {
    if |items| == 1 {
      ValueRoundTrip(items[0], gap, [']'] + rest);
      ReadLastItem(items[0], Print(items[0], gap, [']'] + rest), rest);
      assert items == [items[0]];
    } else {
      ItemsRoundTrip(items[1..], gap, rest);
      FirstItemRoundTrip(items[0], items[1..], gap, PrintItems(items[1..], gap, rest), rest);
      assert items == [items[0]] + items[1..];
    }
  }

  lemma ReadKeyValue(key: string, value: Json, text: string, more: string, rest: string)
    requires ReadString(text) == Some((key, [':'] + more)) && ReadValue(more) == Some((value, rest))
    ensures ReadMember(['"'] + text) == Some(((key, value), rest))
  {
    var t := ['"'] + text;
    assert SkipWs(t) == t && t[1..] == text;
    assert SkipWs([':'] + more) == [':'] + more && ([':'] + more)[1..] == more;
  }

  lemma {:induction false} MemberRoundTrip(m: (string, Json), gap: string, rest: string)
    requires WellFormed(m.1) && IsGap(gap) && Ends(rest)
    ensures ReadMember(PrintMember(m, gap, rest)) == Some((m, rest))
    decreases m, 1
  {
    var value := Print(m.1, gap, rest);
    StringRoundTrip(m.0, [':'] + (gap + value));
    ValueRoundTrip(m.1, gap, rest);
    ReadAfterGap(gap, value);
    ReadKeyValue(m.0, m.1, Escape(m.0, ['"'] + ([':'] + (gap + value))), gap + value, rest);
  }

  lemma ReadLastMember(m: (string, Json), text: string, rest: string)
    requires ReadMember(text) == Some((m, ['}'] + rest))
    ensures ReadMembers(text) == Some(([m], rest))
  {
    assert (['}'] + rest)[1..] == rest;
  }

  lemma ReadNextMember(m: (string, Json), ms: seq<(string, Json)>, text: string, more: string, rest: string)
    requires ReadMember(text) == Some((m, [','] + more)) && ReadMembers(more) == Some((ms, rest))
    ensures ReadMembers(text) == Some(([m] + ms, rest))
  {
    assert ([','] + more)[1..] == more;
  }

  lemma {:induction false} FirstMemberRoundTrip(
    m: (string, Json), ms: seq<(string, Json)>, gap: string, more: string, rest: string)
    requires WellFormed(m.1) && IsGap(gap) && ReadMembers(more) == Some((ms, rest))
    ensures ReadMembers(PrintMember(m, gap, [','] + (gap + more))) == Some(([m] + ms, rest))
    decreases m, 2
  {
    ReadAfterGap(gap, more);
    MemberRoundTrip(m, gap, [','] + (gap + more));
    ReadNextMember(m, ms, PrintMember(m, gap, [','] + (gap + more)), gap + more, rest);
  }

  lemma {:induction false} MembersRoundTrip(members: seq<(string, Json)>, gap: string, rest: string)
    requires members != [] && (forall i :: 0 <= i < |members| ==> WellFormed(members[i].1)) && IsGap(gap)
    ensures ReadMembers(PrintMembers(members, gap, rest)) == Some((members, rest))
    decreases members, 0
  {
    if |members| == 1 {
      MemberRoundTrip(members[0], gap, ['}'] + rest);
      ReadLastMember(members[0], PrintMember(members[0], gap, ['}'] + rest), rest);
      assert members == [members[0]];
    } else {
      MembersRoundTrip(members[1..], gap, rest);
      FirstMemberRoundTrip(members[0], members[1..], gap, PrintMembers(members[1..], gap, rest), rest);
      assert members == [members[0]] + members[1..];
    }
  }

  /** Reading what `json.dumps` printed gives the value back, whatever white space its separators carry. */
  lemma {:induction false} ParseUndoesDumps(j: Json, gap: string)
    requires WellFormed(j) && IsGap(gap)
    ensures Parse(Dumps(j, gap)) == Some(j)
  {
    ValueRoundTrip(j, gap, []);
  }

  // ---- Printed text is plain ----

  /** Printable ASCII only: no control character, so no line break. */
  ghost predicate Plain(s: string) {
    forall c :: c in s ==> ' ' <= c <= '~'
  }

  lemma UnicodePlain(n: nat)
    requires n < 0x10000
    ensures Plain(UnicodeEscape(n))
  {
  }

  lemma CharPlain(c: char)
    ensures Plain(EscapeChar(c))
  {
    var n := c as int;
    if ShortEscape(c).Some? || ' ' <= c <= '~' {
    } else if n >= 0x10000 {
      var high, low := (n - 0x10000) / 1024, (n - 0x10000) % 1024;
      UnicodePlain(0xd800 + high);
      UnicodePlain(0xdc00 + low);
    } else {
      UnicodePlain(n);
    }
  }

  lemma {:induction false} EscapePlain(s: string, rest: string)
    requires Plain(rest)
    ensures Plain(Escape(s, rest))
  {
    if s == [] {
    } else {
      CharPlain(s[0]);
      EscapePlain(s[1..], rest);
    }
  }

  lemma {:induction false} PrintPlain(j: Json, gap: string, rest: string)
    requires WellFormed(j) && Plain(gap) && Plain(rest)
    ensures Plain(Print(j, gap, rest))
    decreases j, 0
  {
    match j {
      case Str(s) => EscapePlain(s, ['"'] + rest);
      case Arr(items) => ItemsPlain(items, gap, rest);
      case Obj(members) => MembersPlain(members, gap, rest);
      case _ =>
    }
  }

  lemma {:induction false} ItemsPlain(items: seq<Json>, gap: string, rest: string)
    requires (forall i :: 0 <= i < |items| ==> WellFormed(items[i])) && Plain(gap) && Plain(rest)
    ensures Plain(PrintItems(items, gap, rest))
    decreases items, 0
  {
    if |items| == 1 {
      PrintPlain(items[0], gap, [']'] + rest);
    } else if items != [] {
      ItemsPlain(items[1..], gap, rest);
      PrintPlain(items[0], gap, [','] + (gap + PrintItems(items[1..], gap, rest)));
    }
  }

  lemma {:induction false} MemberPlain(m: (string, Json), gap: string, rest: string)
    requires WellFormed(m.1) && Plain(gap) && Plain(rest)
    ensures Plain(PrintMember(m, gap, rest))
    decreases m, 1
  {
    PrintPlain(m.1, gap, rest);
    EscapePlain(m.0, ['"'] + ([':'] + (gap + Print(m.1, gap, rest))));
  }

  lemma {:induction false} MembersPlain(members: seq<(string, Json)>, gap: string, rest: string)
    requires (forall i :: 0 <= i < |members| ==> WellFormed(members[i].1)) && Plain(gap) && Plain(rest)
    ensures Plain(PrintMembers(members, gap, rest))
    decreases members, 0
  {
    if |members| == 1 {
      MemberPlain(members[0], gap, ['}'] + rest);
    } else if members != [] {
      MembersPlain(members[1..], gap, rest);
      MemberPlain(members[0], gap, [','] + (gap + PrintMembers(members[1..], gap, rest)));
    }
  }

  /** A printed object opens and closes with its braces. */
  lemma ObjectBraces(members: seq<(string, Json)>, gap: string)
    ensures var t := Dumps(Obj(members), gap); |t| >= 2 && t[0] == '{' && t[|t| - 1] == '}'
  {
    assert SameEnd(PrintMembers(members, gap, []), ['}'] + []);
  }

  // ---- What is printed ----

  lemma {:induction false} EscapeAppends(s: string, a: string, b: string)
    ensures Escape(s, a + b) == Escape(s, a) + b
  {
    if s == [] {
    } else {
      EscapeAppends(s[1..], a, b);
      Assoc(EscapeChar(s[0]), Escape(s[1..], a), b);
    }
  }

  lemma Assoc(a: string, b: string, c: string)
    ensures (a + b) + c == a + (b + c)
  {
  }

  /** What follows a value is printed after it. */
  lemma {:induction false} PrintAppends(j: Json, gap: string, a: string, b: string)
    ensures Print(j, gap, a + b) == Print(j, gap, a) + b
    decreases j, 0
  {
    match j {
      case Str(s) =>
        Assoc(['"'], a, b);
        EscapeAppends(s, ['"'] + a, b);
        Assoc(['"'], Escape(s, ['"'] + a), b);
      case Arr(items) =>
        ItemsAppend(items, gap, a, b);
        Assoc(['['], PrintItems(items, gap, a), b);
      case Obj(members) =>
        MembersAppend(members, gap, a, b);
        Assoc(['{'], PrintMembers(members, gap, a), b);
      case Null => Assoc("null", a, b);
      case Bool(t) => Assoc(if t then "true" else "false", a, b);
      case Num(literal) => Assoc(literal, a, b);
    }
  }

  lemma {:induction false} ItemsAppend(items: seq<Json>, gap: string, a: string, b: string)
    ensures PrintItems(items, gap, a + b) == PrintItems(items, gap, a) + b
    decreases items, 0
  {
    if items == [] {
      Assoc([']'], a, b);
    } else if |items| == 1 {
      Assoc([']'], a, b);
      PrintAppends(items[0], gap, [']'] + a, b);
    } else {
      var more := PrintItems(items[1..], gap, a);
      ItemsAppend(items[1..], gap, a, b);
      Assoc(gap, more, b);
      Assoc([','], gap + more, b);
      PrintAppends(items[0], gap, [','] + (gap + more), b);
    }
  }

  lemma {:induction false} MemberAppends(m: (string, Json), gap: string, a: string, b: string)
    ensures PrintMember(m, gap, a + b) == PrintMember(m, gap, a) + b
    decreases m, 1
  {
    var value := Print(m.1, gap, a);
    PrintAppends(m.1, gap, a, b);
    Assoc(gap, value, b);
    Assoc([':'], gap + value, b);
    Assoc(['"'], [':'] + (gap + value), b);
    EscapeAppends(m.0, ['"'] + ([':'] + (gap + value)), b);
    Assoc(['"'], Escape(m.0, ['"'] + ([':'] + (gap + value))), b);
  }

  lemma {:induction false} MembersAppend(members: seq<(string, Json)>, gap: string, a: string, b: string)
    ensures PrintMembers(members, gap, a + b) == PrintMembers(members, gap, a) + b
    decreases members, 0
  {
    if members == [] {
      Assoc(['}'], a, b);
    } else if |members| == 1 {
      Assoc(['}'], a, b);
      MemberAppends(members[0], gap, ['}'] + a, b);
    } else {
      var more := PrintMembers(members[1..], gap, a);
      MembersAppend(members[1..], gap, a, b);
      Assoc(gap, more, b);
      Assoc([','], gap + more, b);
      MemberAppends(members[0], gap, [','] + (gap + more), b);
    }
  }

  lemma {:induction false} DumpsWords(b: bool, literal: string, gap: string)
    ensures Dumps(Null, gap) == "null" && Dumps(Bool(true), gap) == "true" && Dumps(Bool(false), gap) == "false"
    ensures Dumps(Num(literal), gap) == literal && Dumps(Arr([]), gap) == "[]" && Dumps(Obj([]), gap) == "{}"
  {
    assert literal + [] == literal;
  }

  lemma {:induction false} PrintThen(j: Json, gap: string, rest: string)
    ensures Print(j, gap, rest) == Dumps(j, gap) + rest
  {
    PrintAppends(j, gap, [], rest);
    assert [] + rest == rest;
  }

  /** White space around a printed value is overlooked. */
  lemma {:induction false} ParseSkipsSpace(j: Json, gap: string, before: string, after: string)
    requires WellFormed(j) && IsGap(gap) && IsGap(before) && IsGap(after)
    ensures Parse(before + (Dumps(j, gap) + after)) == Some(j)
  {
    ReadAfterGap(before, Dumps(j, gap) + after);
    PrintThen(j, gap, after);
    ValueRoundTrip(j, gap, after);
    SkipGap(after, []);
    assert after + [] == after;
  }

  /** What a backslash and a letter stand for; hexadecimal digits are read in either case. */
  lemma EscapesRead(c: char)
    ensures ShortMeaning('"') == Some('"') && ShortMeaning('\\') == Some('\\') && ShortMeaning('/') == Some('/')
    ensures ShortMeaning('n') == Some('\n') && ShortMeaning('r') == Some('\r') && ShortMeaning('t') == Some('\t')
    ensures ShortMeaning('b') == Some(8 as char) && ShortMeaning('f') == Some(12 as char)
    ensures c !in {'"', '\\', '/', 'n', 'r', 't', 'b', 'f'} ==> ShortMeaning(c) == None
    ensures 'A' <= c <= 'F' ==> HexValue(c) == HexValue((c as int + 32) as char) == Some(c as int - 55)
    ensures 'a' <= c <= 'f' ==> HexValue(c) == Some(c as int - 87)
    ensures '0' <= c <= '9' ==> HexValue(c) == Some(c as int - 48)
  {
  }

  lemma {:induction false} PairThen(name: string, value: Json, gap: string, rest: string)
    ensures PrintMember((name, value), gap, rest) == Pair(name, value, gap) + rest
  {
    PairPrinted(name, value, gap);
    MemberAppends((name, value), gap, [], rest);
    assert [] + rest == rest;
  }

  lemma {:induction false} DumpsOne(first: Json, name: string, gap: string)
    ensures Dumps(Arr([first]), gap) == ['['] + (Dumps(first, gap) + [']'])
    ensures Dumps(Obj([(name, first)]), gap) == ['{'] + (Pair(name, first, gap) + ['}'])
  {
    var m := (name, first);
    assert [']'] + [] == [']'] && ['}'] + [] == ['}'];
    calc {
      Dumps(Arr([first]), gap);
      ['['] + PrintItems([first], gap, []);
      ['['] + Print(first, gap, [']'] + []);
    == { PrintThen(first, gap, [']']); }
      ['['] + (Dumps(first, gap) + [']']);
    }
    calc {
      Dumps(Obj([m]), gap);
      ['{'] + PrintMembers([m], gap, []);
      ['{'] + PrintMember(m, gap, ['}'] + []);
    == { PairThen(name, first, gap, ['}']); }
      ['{'] + (Pair(name, first, gap) + ['}']);
    }
  }

  /** Items between brackets, with a comma and the gap between neighbours. */
  lemma {:induction false} DumpsArray(first: Json, others: seq<Json>, gap: string)
    requires others != []
    ensures Dumps(Arr([first] + others), gap)
            == ['['] + (Dumps(first, gap) + ([','] + (gap + Dumps(Arr(others), gap)[1..])))
  {
    var more := PrintItems(others, gap, []);
    calc {
      Dumps(Arr([first] + others), gap);
      ['['] + PrintItems([first] + others, gap, []);
    == { assert ([first] + others)[1..] == others; }
      ['['] + Print(first, gap, [','] + (gap + more));
    == { PrintThen(first, gap, [','] + (gap + more)); }
      ['['] + (Dumps(first, gap) + ([','] + (gap + more)));
    }
    assert Dumps(Arr(others), gap) == ['['] + more;
  }

  /** Members between braces: the quoted name, a colon, the gap and the value. */
  lemma {:induction false} DumpsObject(name: string, value: Json, others: seq<(string, Json)>, gap: string)
    requires others != []
    ensures Dumps(Obj([(name, value)] + others), gap)
            == ['{'] + (Pair(name, value, gap) + ([','] + (gap + Dumps(Obj(others), gap)[1..])))
  {
    var m, more := (name, value), PrintMembers(others, gap, []);
    calc {
      Dumps(Obj([m] + others), gap);
      ['{'] + PrintMembers([m] + others, gap, []);
    == { assert ([m] + others)[1..] == others; }
      ['{'] + PrintMember(m, gap, [','] + (gap + more));
    == { PairThen(name, value, gap, [','] + (gap + more)); }
      ['{'] + (Pair(name, value, gap) + ([','] + (gap + more)));
    }
    assert Dumps(Obj(others), gap) == ['{'] + more;
  }

  function Pair(name: string, value: Json, gap: string): string {
    Dumps(Str(name), gap) + ([':'] + (gap + Dumps(value, gap)))
  }

  lemma {:induction false} PairPrinted(name: string, value: Json, gap: string)
    ensures PrintMember((name, value), gap, []) == Pair(name, value, gap)
  {
    var v := Dumps(value, gap);
    Assoc(['"'], [], [':'] + (gap + v));
    PrintAppends(Str(name), gap, [], [':'] + (gap + v));
    assert [] + ([':'] + (gap + v)) == [':'] + (gap + v);
  }

  /** Escaped characters between quotes. */
  lemma {:induction false} DumpsString(c: char, s: string, gap: string)
    ensures Dumps(Str([]), gap) == ['"', '"']
    ensures Dumps(Str([c] + s), gap) == ['"'] + (EscapeChar(c) + Dumps(Str(s), gap)[1..])
  {
    assert ([c] + s)[1..] == s;
  }

  /** Printable ASCII stands for itself but for the quote and the backslash; five controls have a letter. */
  lemma {:induction false} EscapeExactly(c: char)
    ensures EscapeChar('"') == ['\\', '"'] && EscapeChar('\\') == ['\\', '\\'] && EscapeChar('\n') == ['\\', 'n']
    ensures EscapeChar('\r') == ['\\', 'r'] && EscapeChar('\t') == ['\\', 't']
    ensures EscapeChar(8 as char) == ['\\', 'b'] && EscapeChar(12 as char) == ['\\', 'f']
    ensures ' ' <= c <= '~' && c != '"' && c != '\\' ==> EscapeChar(c) == [c]
  {
  }

  /** Every other character below U+10000 is spelled by its number in four lower-case hexadecimal digits. */
  lemma {:induction false} UnicodeExactly(c: char)
    requires (c < ' ' && c !in {8 as char, '\t', '\n', 12 as char, '\r'}) || '~' < c < '\U{10000}'
    ensures var t := EscapeChar(c);
            |t| == 6 && t[0] == '\\' && t[1] == 'u' && Unhex4(t[2..]) == Some(c as int) && LowerHex(t[2..])
  {
    assert EscapeChar(c)[2..] == Hex4(c as int) + [];
    HexRoundTrip(c as int, []);
  }

  predicate LowerHex(s: string) {
    forall i :: 0 <= i < |s| ==> '0' <= s[i] <= '9' || 'a' <= s[i] <= 'f'
  }
}
