/** The document chunker: heading sections, then overlapping word windows. */
module Chunker {
  import opened Wrappers
  import opened Text

  const OVERLAP := 100

  // ---- Words ----

  /** `s.split()`: the maximal runs of characters that are no white space. */
  function Words(s: string): (ws: seq<string>)
    ensures s != [] && !IsSpace(s[0]) ==> ws != []
  {
    if s == [] then []
    else if IsSpace(s[0]) then Words(s[1..])
    else if |s| == 1 || IsSpace(s[1]) then [[s[0]]] + Words(s[1..])
    else Lengthen(s[0], Words(s[1..]))
  }

  predicate IsWord(w: string) {
    w != [] && forall i :: 0 <= i < |w| ==> !IsSpace(w[i])
  }

  ghost predicate AreWords(ws: seq<string>) {
    forall i :: 0 <= i < |ws| ==> IsWord(ws[i])
  }

  lemma {:induction false} WordsAreWords(s: string)
    ensures AreWords(Words(s))
  {
    if s == [] {
    } else {
      WordsAreWords(s[1..]);
    }
  }

  /** Putting a character in front of words that open with one of theirs lengthens the first word. */
  function Lengthen(c: char, ws: seq<string>): seq<string>
    requires ws != []
  {
    [[c] + ws[0]] + ws[1..]
  }

  lemma LengthenAppend(c: char, ws: seq<string>, more: seq<string>)
    requires ws != []
    ensures Lengthen(c, ws + more) == Lengthen(c, ws) + more
  {
    assert (ws + more)[1..] == ws[1..] + more;
  }

  /** Words do not join up across white space. */
  lemma {:induction false} WordsAppend(a: string, b: string)
    requires a == [] || b == [] || IsSpace(a[|a| - 1]) || IsSpace(b[0])
    ensures Words(a + b) == Words(a) + Words(b)
    decreases |a|
  {
    if a == [] {
      assert a + b == b;
    } else if b == [] {
      assert a + b == a;
    } else {
      var t := a[1..];
      assert (a + b)[1..] == t + b;
      WordsAppend(t, b);
      if IsSpace(a[0]) {
      } else if t == [] {
        assert (a + b)[1] == b[0];
      } else {
        assert (a + b)[1] == t[0];
        if !IsSpace(t[0]) {
          LengthenAppend(a[0], Words(t), Words(b));
        } else {
          Regroup([[a[0]]], Words(t), Words(b));
        }
      }
    }
  }

  lemma {:induction false} WordsOfWord(w: string)
    requires IsWord(w)
    ensures Words(w) == [w]
    decreases |w|
  {
    if |w| > 1 {
      WordsOfWord(w[1..]);
      assert w == [w[0]] + w[1..];
    } else {
      assert w == [w[0]] && w[1..] == [];
    }
  }

  lemma {:induction false} WordsOfJoin(ws: seq<string>)
    requires AreWords(ws)
    ensures Words(Join(ws)) == ws
    decreases |ws|
  {
    if ws == [] {
    } else {
      WordsOfWord(ws[0]);
      if |ws| > 1 {
        var tail := [' '] + Join(ws[1..]);
        WordsAppend(ws[0], tail);
        assert tail[1..] == Join(ws[1..]);
        WordsOfJoin(ws[1..]);
        assert ws == [ws[0]] + ws[1..];
      } else {
        assert ws == [ws[0]];
      }
    }
  }

  lemma {:induction false} WordsOfTrimRight(s: string)
    ensures Words(TrimRight(IsSpace, s)) == Words(s)
    decreases |s|
  {
    if s != [] && IsSpace(s[|s| - 1]) {
      var body, last := s[..|s| - 1], [s[|s| - 1]];
      assert s == body + last;
      WordsAppend(body, last);
      assert last[1..] == [];
      WordsOfTrimRight(body);
    }
  }

  lemma {:induction false} WordsOfTrimLeft(s: string)
    ensures Words(TrimLeft(IsSpace, s)) == Words(s)
    ensures var t := TrimLeft(IsSpace, s); t != [] ==> !IsSpace(t[0])
    decreases |s|
  {
    if s != [] && IsSpace(s[0]) {
      WordsOfTrimLeft(s[1..]);
    }
  }

  lemma {:induction false} TrimRightKeepsFirst(s: string)
    requires s != [] && !IsSpace(s[0])
    ensures var t := TrimRight(IsSpace, s); t != [] && t[0] == s[0]
    decreases |s|
  {
    if IsSpace(s[|s| - 1]) {
      TrimRightKeepsFirst(s[..|s| - 1]);
    }
  }

  /** Stripping loses no word, and leaves nothing exactly when there is none. */
  lemma {:induction false} WordsOfStrip(s: string)
    ensures Words(Strip(s)) == Words(s) && (Strip(s) == [] <==> Words(s) == [])
  {
    var t := TrimLeft(IsSpace, s);
    WordsOfTrimLeft(s);
    WordsOfTrimRight(t);
    if t != [] {
      TrimRightKeepsFirst(t);
    }
  }

  // ---- Sections ----

  predicate HashesThenSpace(text: string, p: nat, k: nat) {
    p + k < |text| && (forall i :: p <= i < p + k ==> text[i] == '#') && IsSpace(text[p + k])
  }

  /** `#{1,3}\s` matches at `p`. */
  predicate IsHeading(text: string, p: nat) {
    HashesThenSpace(text, p, 1) || HashesThenSpace(text, p, 2) || HashesThenSpace(text, p, 3)
  }

  /** Where the text is split: at a heading that opens a line. */
  predicate IsBoundary(text: string, p: nat) {
    p < |text| && (p == 0 || text[p - 1] == '\n') && IsHeading(text, p)
  }

  function SectionsFrom(text: string, start: nat, p: nat): (sections: seq<string>)
    requires start <= p <= |text|
    ensures sections != []
    decreases |text| - p
  {
    if p == |text| then [text[start..]]
    else if IsBoundary(text, p) then [text[start..p]] + SectionsFrom(text, p, p + 1)
    else SectionsFrom(text, start, p + 1)
  }

  /** `re.split` before headings; a heading at the very start leaves an empty first section. */
  function Sections(text: string): seq<string> {
    SectionsFrom(text, 0, 0)
  }

  lemma {:induction false} SectionsFromConcat(text: string, start: nat, p: nat)
    requires start <= p <= |text|
    ensures Concat(SectionsFrom(text, start, p)) == text[start..]
    decreases |text| - p
  {
    if p == |text| {
      assert SectionsFrom(text, start, p)[1..] == [];
    } else if IsBoundary(text, p) {
      SectionsFromConcat(text, p, p + 1);
      assert text[start..] == text[start..p] + text[p..];
    } else {
      SectionsFromConcat(text, start, p + 1);
    }
  }

  lemma WordsAtBoundary(text: string, start: nat, p: nat)
    requires start <= p && IsBoundary(text, p)
    ensures Words(text[start..]) == Words(text[start..p]) + Words(text[p..])
  {
    var first, rest := text[start..p], text[p..];
    assert text[start..] == first + rest;
    if first != [] {
      assert first[|first| - 1] == '\n';
    }
    WordsAppend(first, rest);
  }

  lemma {:induction false} SectionsFromWords(text: string, start: nat, p: nat)
    requires start <= p <= |text|
    ensures WordsOfAll(SectionsFrom(text, start, p)) == Words(text[start..])
    decreases |text| - p
  {
    if p == |text| {
      assert SectionsFrom(text, start, p)[1..] == [];
    } else if IsBoundary(text, p) {
      SectionsFromWords(text, p, p + 1);
      WordsAtBoundary(text, start, p);
      WordsOfCons(text[start..p], SectionsFrom(text, p, p + 1));
    } else {
      SectionsFromWords(text, start, p + 1);
    }
  }

  lemma WordsOfCons(first: string, rest: seq<string>)
    ensures WordsOfAll([first] + rest) == Words(first) + WordsOfAll(rest)
  {
    assert ([first] + rest)[1..] == rest;
  }

  function WordsOfAll(sections: seq<string>): seq<string> {
    if sections == [] then [] else Words(sections[0]) + WordsOfAll(sections[1..])
  }

  /** The sections are the text, cut without cutting a word. */
  lemma {:induction false} SectionsRebuild(text: string)
    ensures Concat(Sections(text)) == text && WordsOfAll(Sections(text)) == Words(text)
  {
    SectionsFromConcat(text, 0, 0);
    SectionsFromWords(text, 0, 0);
    assert text[0..] == text;
  }

  /** Some proper prefix of the sections is `text[start..q]`. */
  ghost predicate CutAt(sections: seq<string>, start: nat, q: nat) {
    exists i :: 1 <= i < |sections| && start + |Concat(sections[..i])| == q
  }

  lemma {:induction false} CutsFrom(text: string, start: nat, p: nat, q: nat)
    requires start <= p <= |text|
    ensures CutAt(SectionsFrom(text, start, p), start, q) <==> p <= q && IsBoundary(text, q)
    decreases |text| - p
  {
    var sections := SectionsFrom(text, start, p);
    if p < |text| && IsBoundary(text, p) {
      var first, rest := text[start..p], SectionsFrom(text, p, p + 1);
      CutsFrom(text, p, p + 1, q);
      CutsOfCons(first, rest, start, q);
    } else if p < |text| {
      CutsFrom(text, start, p + 1, q);
    }
  }

  lemma {:induction false} CutsOfCons(first: string, rest: seq<string>, start: nat, q: nat)
    requires rest != []
    ensures CutAt([first] + rest, start, q) <==> q == start + |first| || CutAt(rest, start + |first|, q)
  {
    var all := [first] + rest;
    forall i | 1 <= i < |all|
      ensures |Concat(all[..i])| == |first| + |Concat(rest[..i - 1])|
    {
      assert all[..i][1..] == rest[..i - 1];
    }
    if CutAt(rest, start + |first|, q) {
      var i :| 1 <= i < |rest| && start + |first| + |Concat(rest[..i])| == q;
      assert start + |Concat(all[..i + 1])| == q;
    }
    if q == start + |first| {
      assert start + |Concat(all[..1])| == q;
    }
  }

  /** One to three hashes and white space at the start of a line. */
  ghost predicate HeadingAt(text: string, q: nat) {
    && q < |text| && (q == 0 || text[q - 1] == '\n')
    && exists k :: 1 <= k <= 3 && q + k < |text| && text[q..q + k] == "###"[..k] && IsSpace(text[q + k])
  }

  lemma HashesAre(text: string, p: nat, k: nat)
    requires 1 <= k <= 3
    ensures HashesThenSpace(text, p, k)
            <==> p + k < |text| && text[p..p + k] == "###"[..k] && IsSpace(text[p + k])
  {
    if p + k < |text| && text[p..p + k] == "###"[..k] {
      forall i | p <= i < p + k
        ensures text[i] == '#'
      {
        assert text[i] == text[p..p + k][i - p] == "###"[..k][i - p];
      }
    }
  }

  /** The text is cut exactly where a heading opens a line. */
  lemma {:induction false} CutsAreHeadings(text: string, q: nat)
    ensures CutAt(Sections(text), 0, q) <==> HeadingAt(text, q)
  {
    CutsFrom(text, 0, 0, q);
    HashesAre(text, q, 1);
    HashesAre(text, q, 2);
    HashesAre(text, q, 3);
  }

  // ---- Chunks ----

  datatype Error = ZeroStep

  /** `words[i:j]`. */
  function Slice<T>(s: seq<T>, i: nat, j: nat): seq<T>
    requires i <= |s| && i <= j
  {
    s[i..if j <= |s| then j else |s|]
  }

  /** The windows from word `i` on. */
  function Windows(words: seq<string>, max: int, i: nat): (chunks: seq<string>)
    requires max > OVERLAP
    decreases |words| - i
  {
    if i >= |words| then [] else [Join(Slice(words, i, i + max))] + Windows(words, max, i + (max - OVERLAP))
  }

  function SectionChunks(section: string, max: int): Result<seq<string>, Error> {
    var words := Words(section);
    if |words| <= max then Ok(if Strip(section) != [] then [Strip(section)] else [])
    else if max == OVERLAP then Err(ZeroStep)
    else if max < OVERLAP then Ok([])
    else Ok(Windows(words, max, 0))
  }

  function Prepend(chunks: seq<string>, r: Result<seq<string>, Error>): Result<seq<string>, Error> {
    match r
    case Err(e) => Err(e)
    case Ok(rest) => Ok(chunks + rest)
  }

  function ChunkAll(sections: seq<string>, max: int): Result<seq<string>, Error> {
    if sections == [] then Ok([]) else
    match SectionChunks(sections[0], max)
    case Err(e) => Err(e)
    case Ok(chunks) => Prepend(chunks, ChunkAll(sections[1..], max))
  }

  lemma PrependTwice(a: seq<string>, b: seq<string>, r: Result<seq<string>, Error>)
    ensures Prepend(a, Prepend(b, r)) == Prepend(a + b, r)
    ensures Prepend([], r) == r
  {
    if r.Ok? {
      Regroup(a, b, r.value);
      assert [] + r.value == r.value;
    }
  }

  /** `range` over window starts: the chunks of one long section, in order. */
  method SlideWindows(words: seq<string>, max: int) returns (r: Result<seq<string>, Error>)
    requires |words| > max
    ensures r == if max == OVERLAP then Err(ZeroStep) else if max < OVERLAP then Ok([]) else Ok(Windows(words, max, 0))
  {
    var step := max - OVERLAP;
    if step == 0 {
      return Err(ZeroStep);
    }
    if step < 0 {
      return Ok([]);
    }
    var chunks := [];
    var i := 0;
    while i < |words|
      invariant 0 <= i
      invariant chunks + Windows(words, max, i) == Windows(words, max, 0)
    {
      Regroup(chunks, [Join(Slice(words, i, i + max))], Windows(words, max, i + step));
      chunks := chunks + [Join(Slice(words, i, i + max))];
      i := i + step;
    }
    assert chunks + [] == chunks;
    return Ok(chunks);
  }

  method ChunkDocument(text: string, max: int) returns (r: Result<seq<string>, Error>)
    ensures r == ChunkAll(Sections(text), max)
    ensures r.Ok? ==> ListOf(Sections(text), r.value, max)
    ensures r.Err? <==> max == 100 && exists s :: s in Sections(text) && |Words(s)| > 100
  {
    var sections := Sections(text);
    ThrowsExactly(sections, max);
    var chunks := [];
    PrependTwice([], [], ChunkAll(sections, max));
    assert sections[0..] == sections;
    for k := 0 to |sections|
      invariant ChunkAll(sections, max) == Prepend(chunks, ChunkAll(sections[k..], max))
    {
      var section := sections[k];
      assert sections[k..][0] == section && sections[k..][1..] == sections[k + 1..];
      var words := Words(section);
      var more := [];
      if |words| <= max {
        if Strip(section) != [] {
          more := [Strip(section)];
        }
      } else {
        var windows := SlideWindows(words, max);
        if windows.Err? {
          return Err(ZeroStep);
        }
        more := windows.value;
      }
      assert SectionChunks(section, max) == Ok(more);
      PrependTwice(chunks, more, ChunkAll(sections[k + 1..], max));
      chunks := chunks + more;
    }
    assert sections[|sections|..] == [] && chunks + [] == chunks;
    ListExactly(sections, max, chunks);
    return Ok(chunks);
  }

  // ---- What the list holds, section by section ----

  /** `c` is the section without the white space around it. */
  ghost predicate Trimmed(section: string, c: string) {
    && c != [] && !IsSpace(c[0]) && !IsSpace(c[|c| - 1])
    && exists before, after :: section == before + (c + after) && AllSpace(before) && AllSpace(after)
  }

  /** `c` is these words, with one blank between neighbours and no other white space. */
  ghost predicate Spaced(c: string, ws: seq<string>) {
    Words(c) == ws && forall i :: 0 <= i < |c| && IsSpace(c[i]) ==> LoneBlank(c, i)
  }

  predicate LoneBlank(c: string, i: nat)
    requires i < |c|
  {
    c[i] == ' ' && 0 < i < |c| - 1 && !IsSpace(c[i - 1]) && !IsSpace(c[i + 1])
  }

  /** The `k`-th chunk of a long section. */
  ghost predicate WindowAt(section: string, c: string, k: nat, max: int) {
    var n, start := |Words(section)|, k * (max - 100);
    && 0 <= start < n && max > 0
    && Spaced(c, Words(section)[start..if start + max <= n then start + max else n])
  }

  /** One trimmed chunk for a section that fits, nothing for one without words, and windows for a long one. */
  ghost predicate PieceOf(section: string, piece: seq<string>, max: int) {
    var n := |Words(section)|;
    if n == 0 then piece == []
    else if n <= max then |piece| == 1 && Trimmed(section, piece[0])
    else if max <= 100 then piece == []
    else
      && (|piece| - 1) * (max - 100) < n <= |piece| * (max - 100)
      && forall k :: 0 <= k < |piece| ==> WindowAt(section, piece[k], k, max)
  }

  /** The list is those pieces, in order. */
  ghost predicate ListOf(sections: seq<string>, chunks: seq<string>, max: int) {
    if sections == [] then chunks == []
    else exists m ::
      0 <= m <= |chunks| && PieceOf(sections[0], chunks[..m], max) && ListOf(sections[1..], chunks[m..], max)
  }

  lemma {:induction false} JoinOpens(ws: seq<string>)
    requires ws != [] && AreWords(ws)
    ensures var c := Join(ws); c != [] && !IsSpace(c[0]) && !IsSpace(c[|c| - 1])
  {
    if |ws| == 1 {
    } else {
      JoinOpens(ws[1..]);
    }
  }

  lemma LoneBlankAfter(w: string, c: string, i: nat)
    requires IsWord(w) && c != [] && !IsSpace(c[0])
    requires |w| <= i < |w + ([' '] + c)|
    requires i > |w| ==> LoneBlank(c, i - |w| - 1)
    ensures LoneBlank(w + ([' '] + c), i)
  {
    var t := w + ([' '] + c);
    if i == |w| {
      assert t[i - 1] == w[i - 1] && t[i + 1] == c[0];
    } else {
      var k := i - |w| - 1;
      assert t[i] == c[k] && t[i - 1] == c[k - 1] && t[i + 1] == c[k + 1];
    }
  }

  lemma {:induction false} JoinSpaced(ws: seq<string>)
    requires ws != [] && AreWords(ws)
    ensures Spaced(Join(ws), ws)
  {
    WordsOfJoin(ws);
    if |ws| == 1 {
      assert IsWord(ws[0]);
    } else {
      JoinSpaced(ws[1..]);
      JoinOpens(ws[1..]);
      var w, c := ws[0], Join(ws[1..]);
      forall i | 0 <= i < |w|
        ensures !IsSpace(Join(ws)[i])
      {
        assert Join(ws)[i] == w[i];
      }
      forall i | 0 <= i < |Join(ws)| && IsSpace(Join(ws)[i])
        ensures LoneBlank(Join(ws), i)
      {
        if i > |w| {
          assert Join(ws)[i] == c[i - |w| - 1];
        }
        LoneBlankAfter(w, c, i);
      }
    }
  }

  lemma {:induction false} StripTrimmed(section: string)
    requires Words(section) != []
    ensures Trimmed(section, Strip(section))
  {
    WordsOfStrip(section);
    var before, after := StripKeepsMiddle(section);
  }

  lemma {:induction false} WindowExactly(section: string, max: int, k: nat)
    requires max > OVERLAP && |Words(section)| > max && k < |Windows(Words(section), max, 0)|
    ensures WindowAt(section, Windows(Words(section), max, 0)[k], k, max)
  {
    var words := Words(section);
    WordsAreWords(section);
    WindowsFrom(words, max, 0, k);
    StartIsProduct(max, k);
    var start := WindowStart(max, k);
    SliceOfWords(words, start, start + max);
    JoinSpaced(Slice(words, start, start + max));
  }

  lemma {:induction false} PieceExactly(section: string, max: int, piece: seq<string>)
    requires SectionChunks(section, max) == Ok(piece)
    ensures PieceOf(section, piece, max)
  {
    WordsOfStrip(section);
    var n := |Words(section)|;
    if n == 0 {
    } else if n <= max {
      StripTrimmed(section);
    } else if max > OVERLAP {
      WindowsSpan(Words(section), max);
      forall k | 0 <= k < |piece|
        ensures WindowAt(section, piece[k], k, max)
      {
        WindowExactly(section, max, k);
      }
    }
  }

  /** Every list the chunker returns is that list. */
  lemma {:induction false} ListExactly(sections: seq<string>, max: int, chunks: seq<string>)
    requires ChunkAll(sections, max) == Ok(chunks)
    ensures ListOf(sections, chunks, max)
    decreases |sections|
  {
    if sections == [] {
    } else {
      var first, rest := FirstChunks(sections, max, chunks);
      ListExactly(sections[1..], max, rest);
      PieceExactly(sections[0], max, first);
      assert chunks[..|first|] == first && chunks[|first|..] == rest;
    }
  }

  /** It throws exactly for a long section at the overlap. */
  lemma {:induction false} ThrowsExactly(sections: seq<string>, max: int)
    ensures ChunkAll(sections, max).Err? <==> max == 100 && exists s :: s in sections && |Words(s)| > 100
    decreases |sections|
  {
    if sections == [] {
    } else {
      var first, rest := sections[0], sections[1..];
      ThrowsExactly(rest, max);
      assert SectionChunks(first, max).Err? <==> max == 100 && |Words(first)| > 100;
      assert sections == [first] + rest;
      if |Words(first)| > 100 {
        assert first in sections;
      }
    }
  }

  // ---- Losslessness ----

  /** The first `max - OVERLAP` words of every window. */
  function WindowHeads(chunks: seq<string>, max: int): seq<string>
    requires max > OVERLAP
  {
    if chunks == [] then [] else Take(Words(chunks[0]), max - OVERLAP) + WindowHeads(chunks[1..], max)
  }

  /** How many windows of that step start within `n` words. */
  function WindowCount(n: int, step: int): nat
    requires step > 0
    decreases if n > 0 then n else 0
  {
    if n <= 0 then 0 else 1 + WindowCount(n - step, step)
  }

  /** How many chunks of the list belong to a section. */
  function CountOf(section: string, max: int): nat {
    var n := |Words(section)|;
    if n <= max then if n == 0 then 0 else 1
    else if max > OVERLAP then WindowCount(n, max - OVERLAP)
    else 0
  }

  /** What a section's chunks give back: all words of a whole section, the heads of windows. */
  function Recovered(section: string, chunks: seq<string>, max: int): seq<string> {
    if |Words(section)| <= max then WordsOfAll(chunks)
    else if max > OVERLAP then WindowHeads(chunks, max)
    else []
  }

  /** Reading a chunk list section by section. */
  function Recover(sections: seq<string>, chunks: seq<string>, max: int): seq<string> {
    if sections == [] then [] else
    var n := CountOf(sections[0], max);
    Recovered(sections[0], Take(chunks, n), max) + Recover(sections[1..], Skip(chunks, n), max)
  }

  lemma SliceOfWords(words: seq<string>, i: nat, j: nat)
    requires AreWords(words) && i < |words| && i < j
    ensures AreWords(Slice(words, i, j)) && 1 <= |Slice(words, i, j)| <= j - i
  {
  }

  lemma TakeOfSlice<T>(s: seq<T>, i: nat, n: nat, m: nat)
    requires i <= |s| && n <= m
    ensures Take(Slice(s, i, i + m), n) == Slice(s, i, i + n)
  {
  }

  lemma WindowsNext(words: seq<string>, max: int, i: nat, j: nat)
    requires max > OVERLAP && i < |words| && j == i + (max - OVERLAP)
    ensures Windows(words, max, i) == [Join(Slice(words, i, i + max))] + Windows(words, max, j)
  {
  }

  lemma {:induction false} HeadOfJoin(window: seq<string>, rest: seq<string>, max: int)
    requires max > OVERLAP && AreWords(window)
    ensures WindowHeads([Join(window)] + rest, max) == Take(window, max - OVERLAP) + WindowHeads(rest, max)
  {
    WordsOfJoin(window);
    assert ([Join(window)] + rest)[1..] == rest;
  }

  lemma {:induction false} HeadsStep(words: seq<string>, max: int, i: nat, j: nat)
    requires max > OVERLAP && AreWords(words) && i < |words| && j == i + (max - OVERLAP)
    ensures WindowHeads(Windows(words, max, i), max) == Slice(words, i, j) + WindowHeads(Windows(words, max, j), max)
  {
    var window, rest := Slice(words, i, i + max), Windows(words, max, j);
    calc {
      WindowHeads(Windows(words, max, i), max);
    == { WindowsNext(words, max, i, j); }
      WindowHeads([Join(window)] + rest, max);
    == { SliceOfWords(words, i, i + max); HeadOfJoin(window, rest, max); }
      Take(window, max - OVERLAP) + WindowHeads(rest, max);
    == { TakeOfSlice(words, i, max - OVERLAP, max); }
      Slice(words, i, j) + WindowHeads(rest, max);
    }
  }

  lemma {:induction false} HeadsRebuild(words: seq<string>, max: int, i: nat)
    requires max > OVERLAP && AreWords(words)
    ensures WindowHeads(Windows(words, max, i), max) == Skip(words, i)
    decreases |words| - i
  {
    if i < |words| {
      var j := i + (max - OVERLAP);
      HeadsStep(words, max, i, j);
      HeadsRebuild(words, max, j);
      SliceThenRest(words, i, j);
    }
  }

  lemma SliceThenRest<T>(s: seq<T>, i: nat, j: nat)
    requires i < |s| && i <= j
    ensures Skip(s, i) == Slice(s, i, j) + Skip(s, j)
  {
  }

  /** A section survives: it fits, or windows of a positive step cover it, or it has no words. */
  predicate Survives(section: string, max: int) {
    max > OVERLAP || |Words(section)| <= max || Words(section) == []
  }

  lemma {:induction false} WindowsCounted(words: seq<string>, max: int, i: nat)
    requires max > OVERLAP
    ensures |Windows(words, max, i)| == WindowCount(|words| - i, max - OVERLAP)
    decreases |words| - i
  {
    if i < |words| {
      var step := max - OVERLAP;
      var j := i + step;
      WindowsNext(words, max, i, j);
      WindowsCounted(words, max, j);
      assert |words| - j == |words| - i - step;
    }
  }

  lemma {:induction false} SectionRecovered(section: string, max: int, chunks: seq<string>)
    requires SectionChunks(section, max) == Ok(chunks)
    ensures |chunks| == CountOf(section, max)
    ensures Recovered(section, chunks, max) == Words(section) <==> Survives(section, max)
    ensures |Recovered(section, chunks, max)| <= |Words(section)|
  {
    var words := Words(section);
    WordsAreWords(section);
    if |words| <= max {
      WordsOfStrip(section);
      var s := Strip(section);
      assert WordsOfAll([s]) == Words(s) by { assert [s][1..] == []; }
    } else if max > OVERLAP {
      HeadsRebuild(words, max, 0);
      WindowsCounted(words, max, 0);
    }
  }

  /** The chunks of the first section come first in the list. */
  lemma FirstChunks(sections: seq<string>, max: int, chunks: seq<string>)
    returns (first: seq<string>, rest: seq<string>)
    requires sections != [] && ChunkAll(sections, max) == Ok(chunks)
    ensures SectionChunks(sections[0], max) == Ok(first) && ChunkAll(sections[1..], max) == Ok(rest)
    ensures chunks == first + rest && Take(chunks, |first|) == first && Skip(chunks, |first|) == rest
  {
    first, rest := SectionChunks(sections[0], max).value, ChunkAll(sections[1..], max).value;
  }

  lemma SameParts<T>(a: seq<T>, b: seq<T>, x: seq<T>, y: seq<T>)
    requires |a| <= |x| && |b| <= |y|
    ensures a + b == x + y <==> a == x && b == y
  {
    if a + b == x + y {
      assert |a| == |x|;
      assert a == (a + b)[..|a|] && x == (x + y)[..|x|];
      assert b == (a + b)[|a|..] && y == (x + y)[|x|..];
    }
  }

  ghost predicate AllSurvive(sections: seq<string>, max: int) {
    forall s :: s in sections ==> Survives(s, max)
  }

  lemma AllSurviveCons(sections: seq<string>, max: int)
    requires sections != []
    ensures AllSurvive(sections, max) <==> Survives(sections[0], max) && AllSurvive(sections[1..], max)
  {
    assert sections == [sections[0]] + sections[1..];
  }

  lemma {:induction false} AllRecovered(sections: seq<string>, max: int, chunks: seq<string>)
    requires ChunkAll(sections, max) == Ok(chunks)
    ensures Recover(sections, chunks, max) == WordsOfAll(sections) <==> AllSurvive(sections, max)
    ensures |Recover(sections, chunks, max)| <= |WordsOfAll(sections)|
    decreases |sections|
  {
    if sections == [] {
    } else {
      var first, rest := FirstChunks(sections, max, chunks);
      SectionRecovered(sections[0], max, first);
      AllRecovered(sections[1..], max, rest);
      AllSurviveCons(sections, max);
      SameParts(
        Recovered(sections[0], first, max), Recover(sections[1..], rest, max),
        Words(sections[0]), WordsOfAll(sections[1..]));
    }
  }

  lemma {:induction false} ErrorLoses(sections: seq<string>, max: int)
    requires ChunkAll(sections, max).Err?
    ensures !AllSurvive(sections, max)
    decreases |sections|
  {
    AllSurviveCons(sections, max);
    if SectionChunks(sections[0], max).Ok? {
      ErrorLoses(sections[1..], max);
    }
  }

  /**
   * Chunking succeeds and the chunk list, read section by section, gives back every word of the text in order, exactly
   * when every section either fits into `max` words or has none, or `max` exceeds the overlap. At the overlap the
   * window step is zero and the chunker throws; below it a long section silently yields nothing.
   */
  lemma {:induction false} LosslessExactly(text: string, max: int)
    ensures var r := ChunkAll(Sections(text), max);
            r.Ok? && Recover(Sections(text), r.value, max) == Words(text) <==> AllSurvive(Sections(text), max)
  {
    var r := ChunkAll(Sections(text), max);
    SectionsRebuild(text);
    if r.Ok? {
      AllRecovered(Sections(text), max, r.value);
    } else {
      ErrorLoses(Sections(text), max);
    }
  }

  // ---- Long texts at and below the overlap ----

  /** A text of `n` equal words under no heading. */
  function EqualWords(n: nat): string {
    Join(seq(n, _ => "w"))
  }

  lemma {:induction false} JoinAvoids(ws: seq<string>, c: char)
    requires c != ' ' && forall i :: 0 <= i < |ws| ==> c !in ws[i]
    ensures c !in Join(ws)
  {
    if |ws| > 1 {
      JoinAvoids(ws[1..], c);
    }
  }

  lemma {:induction false} NoHeading(text: string, start: nat, p: nat)
    requires start <= p <= |text| && '#' !in text
    ensures SectionsFrom(text, start, p) == [text[start..]]
    decreases |text| - p
  {
    if p < |text| {
      assert text[p] in text && !IsBoundary(text, p);
      NoHeading(text, start, p + 1);
    }
  }

  /** For instance 101 words: at 100 the chunker throws, at 99 and below it returns an empty list. */
  lemma {:induction false} LongTextLost(n: nat, max: int)
    requires n > max
    ensures |Words(EqualWords(n))| == n
    ensures max == OVERLAP ==> ChunkAll(Sections(EqualWords(n)), max) == Err(ZeroStep)
    ensures max < OVERLAP ==> ChunkAll(Sections(EqualWords(n)), max) == Ok([])
  {
    var ws: seq<string> := seq(n, _ => "w");
    var text: string := EqualWords(n);
    WordsOfJoin(ws);
    JoinAvoids(ws, '#');
    NoHeading(text, 0, 0);
    assert text[0..] == text && Sections(text) == [text];
    assert Sections(text)[1..] == [] && ChunkAll(Sections(text)[1..], max) == Ok([]);
    PrependTwice([], [], Ok([]));
  }

  // ---- Window coverage ----

  function WindowStart(max: int, k: nat): nat
    requires max > OVERLAP
  {
    if k == 0 then 0 else (max - OVERLAP) + WindowStart(max, k - 1)
  }

  lemma {:induction false} WindowsFrom(words: seq<string>, max: int, i: nat, k: nat)
    requires max > OVERLAP && k < |Windows(words, max, i)|
    ensures var start := i + WindowStart(max, k);
            start < |words| && Windows(words, max, i)[k] == Join(Slice(words, start, start + max))
    decreases k
  {
    if k == 0 {
    } else {
      WindowsFrom(words, max, i + (max - OVERLAP), k - 1);
    }
  }

  lemma {:induction false} WindowsReachEnd(words: seq<string>, max: int, i: nat)
    requires max > OVERLAP
    ensures i + WindowStart(max, |Windows(words, max, i)|) >= |words|
    decreases |words| - i
  {
    if i < |words| {
      WindowsReachEnd(words, max, i + (max - OVERLAP));
    }
  }

  lemma {:induction false} JoinedWindow(words: seq<string>, start: nat, end: nat)
    requires AreWords(words) && start < |words| && start < end
    ensures Words(Join(Slice(words, start, end))) == Slice(words, start, end)
    ensures 1 <= |Slice(words, start, end)| <= end - start
  {
    SliceOfWords(words, start, end);
    WordsOfJoin(Slice(words, start, end));
  }

  lemma {:induction false} WindowWords(words: seq<string>, max: int, k: nat)
    requires max > OVERLAP && AreWords(words) && k < |Windows(words, max, 0)|
    ensures var start, chunk := WindowStart(max, k), Windows(words, max, 0)[k];
            && start < |words|
            && Words(chunk) == Slice(words, start, start + max)
            && 1 <= |Words(chunk)| <= max
  {
    WindowsFrom(words, max, 0, k);
    JoinedWindow(words, WindowStart(max, k), WindowStart(max, k) + max);
  }

  lemma {:induction false} WindowsSpan(words: seq<string>, max: int)
    requires max > OVERLAP && words != []
    ensures var n := |Windows(words, max, 0)|;
            n > 0 && (n - 1) * (max - OVERLAP) < |words| <= n * (max - OVERLAP)
  {
    var n := |Windows(words, max, 0)|;
    WindowsFrom(words, max, 0, n - 1);
    WindowsReachEnd(words, max, 0);
    StartIsProduct(max, n - 1);
    StartIsProduct(max, n);
  }

  /**
   * A long section of `n` words gives `ceil(n / (max - 100))` chunks, the `k`-th being the words from
   * `k * (max - 100)` on, at least one and at most `max` of them.
   */
  lemma {:induction false} WindowShape(section: string, max: int, k: nat)
    requires max > OVERLAP && |Words(section)| > max
    requires k < |Windows(Words(section), max, 0)|
    ensures var words, start := Words(section), k * (max - OVERLAP);
            var chunks := Windows(words, max, 0);
            && SectionChunks(section, max) == Ok(chunks)
            && (|chunks| - 1) * (max - OVERLAP) < |words| <= |chunks| * (max - OVERLAP)
            && 0 <= start < |words|
            && Words(chunks[k]) == Slice(words, start, start + max)
            && 1 <= |Words(chunks[k])| <= max
  {
    var words := Words(section);
    WordsAreWords(section);
    WindowWords(words, max, k);
    WindowsSpan(words, max);
    StartIsProduct(max, k);
  }

  lemma {:induction false} StartIsProduct(max: int, k: nat)
    requires max > OVERLAP
    ensures WindowStart(max, k) == k * (max - OVERLAP)
  {
    if k == 0 {
    } else {
      StartIsProduct(max, k - 1);
      assert k * (max - OVERLAP) == (max - OVERLAP) + (k - 1) * (max - OVERLAP);
    }
  }

  /** Words `a` to `a + len` of a section of `n` words lie inside one of its windows. */
  ghost predicate InOneWindow(n: nat, max: int, a: nat, len: nat)
    requires max > OVERLAP
  {
    exists k: nat :: WindowStart(max, k) < n && WindowStart(max, k) <= a && a + len <= WindowStart(max, k) + max
  }

  /** The last window that starts at or before word `a`. */
  lemma {:induction false} LastStart(max: int, a: nat) returns (k: nat)
    requires max > OVERLAP
    ensures WindowStart(max, k) <= a < WindowStart(max, k) + (max - OVERLAP)
    decreases a
  {
    if a < max - OVERLAP {
      k := 0;
    } else {
      k := LastStart(max, a - (max - OVERLAP));
      k := k + 1;
    }
  }

  /** In text: any run of at most 101 consecutive words of a long section stands together in one of its chunks. */
  lemma {:induction false} RunInsideChunk(section: string, max: int, a: nat, len: nat) returns (k: nat, o: nat)
    requires max > OVERLAP && |Words(section)| > max
    requires 0 < len <= OVERLAP + 1 && a + len <= |Words(section)|
    ensures var chunks := Windows(Words(section), max, 0);
            && k < |chunks| && o + len <= |Words(chunks[k])|
            && Words(chunks[k])[o..o + len] == Words(section)[a..a + len]
  {
    var words := Words(section);
    k := LastStart(max, a);
    o := a - WindowStart(max, k);
    WindowsReachEnd(words, max, 0);
    StartsGrow(max, |Windows(words, max, 0)|, k);
    WordsAreWords(section);
    WindowWords(words, max, k);
    SubSlice(words, WindowStart(max, k), WindowStart(max, k) + max, a, len);
  }

  lemma SubSlice<T>(s: seq<T>, i: nat, j: nat, a: nat, len: nat)
    requires i <= |s| && i <= j && i <= a && a + len <= |s| && a + len <= j
    ensures a - i + len <= |Slice(s, i, j)| && Slice(s, i, j)[a - i..a - i + len] == s[a..a + len]
  {
    var x, y := Slice(s, i, j)[a - i..a - i + len], s[a..a + len];
    forall t | 0 <= t < len
      ensures x[t] == y[t]
    {
    }
  }

  lemma {:induction false} StartsGrow(max: int, c: nat, k: nat)
    requires max > OVERLAP
    ensures c <= k ==> WindowStart(max, c) <= WindowStart(max, k)
  {
    if c < k {
      StartsGrow(max, c, k - 1);
    }
  }

  /** Every run of `len` consecutive words of a windowed section lies inside one window. */
  ghost predicate RunsCovered(max: int, len: nat)
    requires max > OVERLAP
  {
    forall n: nat, a: nat {:trigger InOneWindow(n, max, a, len)} ::
      n > max && a + len <= n ==> InOneWindow(n, max, a, len)
  }

  /** The overlap covers every run of at most 101 words, and no longer length, whatever `max` above the overlap is. */
  lemma {:induction false} OverlapExactly(max: int, len: nat)
    requires max > OVERLAP && len > 0
    ensures RunsCovered(max, len) <==> len <= OVERLAP + 1
  {
    if len <= OVERLAP + 1 {
      forall n: nat, a: nat | n > max && a + len <= n
        ensures InOneWindow(n, max, a, len)
      {
        var k := LastStart(max, a);
      }
    } else {
      var n, a := max + len, max - OVERLAP - 1;
      forall k: nat
        ensures !(WindowStart(max, k) <= a && a + len <= WindowStart(max, k) + max)
      {
      }
      assert !InOneWindow(n, max, a, len);
    }
  }

  // ---- Every chunk of a document ----

  lemma {:induction false} SectionSizes(section: string, max: int, chunks: seq<string>, c: string)
    requires SectionChunks(section, max) == Ok(chunks) && c in chunks
    ensures 1 <= |Words(c)| <= max
  {
    var words := Words(section);
    WordsAreWords(section);
    if |words| <= max {
      WordsOfStrip(section);
    } else {
      var k :| 0 <= k < |chunks| && chunks[k] == c;
      WindowWords(words, max, k);
    }
  }

  /** Every chunk of the list has at least one word and at most `max`, whatever `max` is. */
  lemma {:induction false} ChunkSizes(sections: seq<string>, max: int, chunks: seq<string>, c: string)
    requires ChunkAll(sections, max) == Ok(chunks) && c in chunks
    ensures 1 <= |Words(c)| <= max
    decreases |sections|
  {
    var first, rest := FirstChunks(sections, max, chunks);
    if c in first {
      SectionSizes(sections[0], max, first, c);
    } else {
      ChunkSizes(sections[1..], max, rest, c);
    }
  }

  lemma {:induction false} SectionListed(sections: seq<string>, max: int, chunks: seq<string>, section: string)
    requires ChunkAll(sections, max) == Ok(chunks) && section in sections
    ensures SectionChunks(section, max).Ok? && forall c :: c in SectionChunks(section, max).value ==> c in chunks
    decreases |sections|
  {
    var first, rest := FirstChunks(sections, max, chunks);
    if section != sections[0] {
      assert section in sections[1..];
      SectionListed(sections[1..], max, rest, section);
    }
  }

  /** Any run of at most 101 consecutive words of any section that survives stands together in a chunk of the list. */
  lemma {:induction false} RunInsideList(
    text: string, max: int, chunks: seq<string>, section: string, a: nat, len: nat)
    returns (c: string, o: nat)
    requires ChunkAll(Sections(text), max) == Ok(chunks) && section in Sections(text) && Survives(section, max)
    requires 0 < len <= OVERLAP + 1 && a + len <= |Words(section)|
    ensures c in chunks && o + len <= |Words(c)| && Words(c)[o..o + len] == Words(section)[a..a + len]
  {
    SectionListed(Sections(text), max, chunks, section);
    if |Words(section)| <= max {
      WordsOfStrip(section);
      c, o := Strip(section), a;
      assert c in SectionChunks(section, max).value;
    } else {
      var k;
      k, o := RunInsideChunk(section, max, a, len);
      c := Windows(Words(section), max, 0)[k];
      assert c in SectionChunks(section, max).value;
    }
  }
}
