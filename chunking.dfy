/** scripts/chunk_documents.py: the text cleaner applied to every extracted
    document, the word-window chunker with overlap, and the metadata attached
    to each chunk before the chunks are saved. */
module Chunking {
  import opened Strings
  import opened Arith

  const EmDash: char := '—'
  const EnDash: char := '–'

  /** The characters `[.,;:!?]` of the punctuation rule. */
  predicate IsPunct(c: char) {
    c == '.' || c == ',' || c == ';' || c == ':' || c == '!' || c == '?'
  }

  predicate NoDoubleSpace(s: string) {
    forall i :: 0 <= i < |s| - 1 ==> !(s[i] == ' ' && s[i + 1] == ' ')
  }

  predicate NoSpaceBeforePunct(s: string) {
    forall i :: 0 <= i < |s| - 1 ==> !(IsSpace(s[i]) && IsPunct(s[i + 1]))
  }

  predicate NoLongDash(s: string) {
    EmDash !in s && EnDash !in s
  }

  /** A slice keeps each of the three local properties. */
  lemma SliceKeeps(s: string, a: nat, b: nat)
    requires a <= b <= |s|
    ensures NoDoubleSpace(s) ==> NoDoubleSpace(s[a..b])
    ensures NoSpaceBeforePunct(s) ==> NoSpaceBeforePunct(s[a..b])
    ensures NoLongDash(s) ==> NoLongDash(s[a..b])
  {
    var t := s[a..b];
    assert forall i :: 0 <= i < |t| ==> t[i] == s[a + i];
    assert forall c :: c in t ==> c in s;
  }

  /** Two texts without double spaces concatenate to one, unless both meet at a space. */
  lemma ConcatNoDoubleSpace(x: string, y: string)
    requires NoDoubleSpace(x) && NoDoubleSpace(y)
    requires x != [] && y != [] ==> !(x[|x| - 1] == ' ' && y[0] == ' ')
    ensures NoDoubleSpace(x + y)
  {
    var r := x + y;
    assert forall i :: 0 <= i < |x| ==> r[i] == x[i];
    assert forall i :: |x| <= i < |r| ==> r[i] == y[i - |x|];
  }

  /** Likewise for whitespace before punctuation. */
  lemma ConcatNoSpaceBeforePunct(x: string, y: string)
    requires NoSpaceBeforePunct(x) && NoSpaceBeforePunct(y)
    requires x != [] && y != [] ==> !(IsSpace(x[|x| - 1]) && IsPunct(y[0]))
    ensures NoSpaceBeforePunct(x + y)
  {
    var r := x + y;
    assert forall i :: 0 <= i < |x| ==> r[i] == x[i];
    assert forall i :: |x| <= i < |r| ==> r[i] == y[i - |x|];
  }

  // ---------------------------------------------------------------------------
  // clean_text, step by step

  /** `re.sub(r' +', ' ', text)`: every run of spaces becomes one space. */
  function CollapseSpaces(s: string): (r: string)
    ensures |r| <= |s|
    ensures |s| > 0 ==> |r| > 0 && r[0] == s[0]
    ensures NoDoubleSpace(r)
  {
    if |s| <= 1 then s
    else if s[0] == ' ' && s[1] == ' ' then CollapseSpaces(s[1..])
    else [s[0]] + CollapseSpaces(s[1..])
  }

  /** Length of the run of newlines at the start of `s`. */
  function NewlineRun(s: string): (k: nat)
    ensures k <= |s|
    ensures forall i :: 0 <= i < k ==> s[i] == '\n'
  {
    if s != [] && s[0] == '\n' then 1 + NewlineRun(s[1..]) else 0
  }

  /** `re.sub(r'\n{3,}', '\n\n', text)`: every run of three or more newlines becomes two. */
  function CollapseNewlines(s: string): (r: string)
    ensures |r| <= |s|
    ensures |s| > 0 ==> |r| > 0 && r[0] == s[0]
    ensures NoDoubleSpace(s) ==> NoDoubleSpace(r)
    decreases |s|
  {
    if s == [] then []
    else
      var k := NewlineRun(s);
      if k >= 3 then
        SliceKeeps(s, k, |s|);
        "\n\n" + CollapseNewlines(s[k..])
      else
        SliceKeeps(s, 1, |s|);
        [s[0]] + CollapseNewlines(s[1..])
  }

  function StripEach(lines: seq<string>): (r: seq<string>)
    ensures |r| == |lines|
    ensures forall i :: 0 <= i < |lines| ==> r[i] == Strip(lines[i])
  {
    seq(|lines|, i requires 0 <= i < |lines| => Strip(lines[i]))
  }

  /** `'\n'.join(line.strip() for line in text.split('\n'))`. */
  function StripLines(s: string): string {
    Join(StripEach(SplitOn(s, '\n')), "\n")
  }

  /** `text.replace('—', '-').replace('–', '-')`. */
  function ReplaceChar(s: string, from: char, to: char): (r: string)
    ensures |r| == |s|
    ensures forall i :: 0 <= i < |s| ==> r[i] == if s[i] == from then to else s[i]
  {
    seq(|s|, i requires 0 <= i < |s| => if s[i] == from then to else s[i])
  }

  function ReplaceDashes(s: string): (r: string)
    ensures |r| == |s|
    ensures NoLongDash(r)
    ensures NoDoubleSpace(s) ==> NoDoubleSpace(r)
  {
    var r := ReplaceChar(ReplaceChar(s, EmDash, '-'), EnDash, '-');
    assert forall i :: 0 <= i < |r| ==> r[i] != EmDash && r[i] != EnDash;
    assert forall i :: 0 <= i < |r| ==> (r[i] == ' ' <==> s[i] == ' ');
    r
  }

  /** Length of the run of whitespace at the start of `s`. */
  function SpaceRun(s: string): (k: nat)
    ensures k <= |s|
    ensures forall i :: 0 <= i < k ==> IsSpace(s[i])
    ensures k < |s| ==> !IsSpace(s[k])
  {
    if s != [] && IsSpace(s[0]) then 1 + SpaceRun(s[1..]) else 0
  }

  /** `re.sub(r'\s+([.,;:!?])', r'\1', text)`: a run of whitespace is deleted when a
      punctuation mark follows it; the scan resumes at that mark. */
  function DropSpaceBeforePunct(s: string): (r: string)
    ensures |r| <= |s|
    ensures |s| > 0 && !IsSpace(s[0]) ==> |r| > 0 && r[0] == s[0]
    decreases |s|
  {
    if s == [] then []
    else if !IsSpace(s[0]) then [s[0]] + DropSpaceBeforePunct(s[1..])
    else
      var k := SpaceRun(s);
      if k < |s| && IsPunct(s[k]) then DropSpaceBeforePunct(s[k..])
      else s[..k] + DropSpaceBeforePunct(s[k..])
  }

  /** After the substitution no whitespace is left in front of a punctuation mark. */
  lemma {:induction false} DropSpaceBeforePunctDone(s: string)
    ensures NoSpaceBeforePunct(DropSpaceBeforePunct(s))
    decreases |s|
  {
    if s == [] {
    } else if !IsSpace(s[0]) {
      DropSpaceBeforePunctDone(s[1..]);
      ConcatNoSpaceBeforePunct([s[0]], DropSpaceBeforePunct(s[1..]));
    } else {
      var k := SpaceRun(s);
      DropSpaceBeforePunctDone(s[k..]);
      if !(k < |s| && IsPunct(s[k])) {
        var t := DropSpaceBeforePunct(s[k..]);
        assert forall i :: 0 <= i < k ==> s[..k][i] == s[i];
        ConcatNoSpaceBeforePunct(s[..k], t);
      }
    }
  }

  /** The substitution only deletes characters. */
  lemma {:induction false} DropSpaceBeforePunctChars(s: string)
    ensures forall c :: c in DropSpaceBeforePunct(s) ==> c in s
    decreases |s|
  {
    if s == [] {
    } else if !IsSpace(s[0]) {
      DropSpaceBeforePunctChars(s[1..]);
      assert forall c :: c in s[1..] ==> c in s;
    } else {
      var k := SpaceRun(s);
      DropSpaceBeforePunctChars(s[k..]);
      assert forall c :: c in s[k..] ==> c in s;
      assert forall c :: c in s[..k] ==> c in s;
    }
  }

  /** The substitution creates no double space. */
  lemma {:induction false} DropSpaceBeforePunctSpaces(s: string)
    requires NoDoubleSpace(s)
    ensures NoDoubleSpace(DropSpaceBeforePunct(s))
    decreases |s|
  {
    if s == [] {
    } else if !IsSpace(s[0]) {
      SliceKeeps(s, 1, |s|);
      DropSpaceBeforePunctSpaces(s[1..]);
      ConcatNoDoubleSpace([s[0]], DropSpaceBeforePunct(s[1..]));
    } else {
      var k := SpaceRun(s);
      SliceKeeps(s, k, |s|);
      DropSpaceBeforePunctSpaces(s[k..]);
      if !(k < |s| && IsPunct(s[k])) {
        SliceKeeps(s, 0, k);
        ConcatNoDoubleSpace(s[..k], DropSpaceBeforePunct(s[k..]));
      }
    }
  }

  /** The five substitutions of `clean_text`, in source order. */
  function Substitute(text: string): string {
    DropSpaceBeforePunct(ReplaceDashes(StripLines(CollapseNewlines(CollapseSpaces(text)))))
  }

  /** `clean_text`: the substitutions, then `strip()`. */
  function CleanText(text: string): string {
    Strip(Substitute(text))
  }

  // ---------------------------------------------------------------------------
  // Facts behind the clean_text guarantees

  lemma {:induction false} StripEachShorter(parts: seq<string>, sep: string)
    ensures |Join(StripEach(parts), sep)| <= |Join(parts, sep)|
  {
    if |parts| > 1 {
      assert StripEach(parts)[1..] == StripEach(parts[1..]);
      StripEachShorter(parts[1..], sep);
    }
  }

  /** Every part of a newline-joined text without double spaces has none either. */
  lemma {:induction false} PartsOfJoinNoDoubleSpace(parts: seq<string>)
    requires NoDoubleSpace(Join(parts, "\n"))
    ensures forall i :: 0 <= i < |parts| ==> NoDoubleSpace(parts[i])
  {
    if |parts| > 1 {
      var j := Join(parts, "\n");
      var rest := Join(parts[1..], "\n");
      assert j == parts[0] + "\n" + rest;
      SliceKeeps(j, 0, |parts[0]|);
      assert j[..|parts[0]|] == parts[0];
      SliceKeeps(j, |parts[0]| + 1, |j|);
      assert j[|parts[0]| + 1..] == rest;
      PartsOfJoinNoDoubleSpace(parts[1..]);
      assert forall i :: 1 <= i < |parts| ==> parts[i] == parts[1..][i - 1];
    }
  }

  /** Joining parts without double spaces by newlines creates none. */
  lemma {:induction false} JoinNewlineNoDoubleSpace(parts: seq<string>)
    requires forall i :: 0 <= i < |parts| ==> NoDoubleSpace(parts[i])
    ensures NoDoubleSpace(Join(parts, "\n"))
  {
    if |parts| > 1 {
      var rest := Join(parts[1..], "\n");
      JoinNewlineNoDoubleSpace(parts[1..]);
      var j := parts[0] + "\n" + rest;
      assert forall i :: 0 <= i < |parts[0]| ==> j[i] == parts[0][i];
      assert j[|parts[0]|] == '\n';
      assert forall i :: |parts[0]| < i < |j| ==> j[i] == rest[i - |parts[0]| - 1];
    }
  }

  lemma StripLinesKeeps(s: string)
    ensures |StripLines(s)| <= |s|
    ensures NoDoubleSpace(s) ==> NoDoubleSpace(StripLines(s))
  {
    var lines := SplitOn(s, '\n');
    JoinSplitOn(s, '\n');
    StripEachShorter(lines, "\n");
    if NoDoubleSpace(s) {
      PartsOfJoinNoDoubleSpace(lines);
      forall i | 0 <= i < |lines|
        ensures NoDoubleSpace(StripEach(lines)[i])
      {
        SliceKeeps(lines[i], StripOffset(lines[i]), StripOffset(lines[i]) + |Strip(lines[i])|);
      }
      JoinNewlineNoDoubleSpace(StripEach(lines));
    }
  }

  /** What `clean_text` guarantees of its output: it is no longer than its input,
      has no whitespace at either end, no em or en dash, no two spaces in a row and
      no whitespace just before `. , ; : ! ?`. */
  lemma CleanTextGuarantees(text: string)
    ensures |CleanText(text)| <= |text|
    ensures var r := CleanText(text); r == [] || (!IsSpace(r[0]) && !IsSpace(r[|r| - 1]))
    ensures NoLongDash(CleanText(text))
    ensures NoDoubleSpace(CleanText(text))
    ensures NoSpaceBeforePunct(CleanText(text))
  {
    CleanTextShape(text);
    CleanTextDashes(text);
    CleanTextSpacing(text);
  }

  lemma CleanTextShape(text: string)
    ensures |CleanText(text)| <= |text|
    ensures var r := CleanText(text); r == [] || (!IsSpace(r[0]) && !IsSpace(r[|r| - 1]))
  {
    SubstituteGuarantees(text);
  }

  lemma CleanTextDashes(text: string)
    ensures NoLongDash(CleanText(text))
  {
    SubstituteGuarantees(text);
    StripKeeps(Substitute(text));
  }

  lemma CleanTextSpacing(text: string)
    ensures NoDoubleSpace(CleanText(text))
    ensures NoSpaceBeforePunct(CleanText(text))
  {
    SubstituteGuarantees(text);
    StripKeeps(Substitute(text));
  }

  /** `strip()` returns a slice, so it keeps the three local properties. */
  lemma StripKeeps(e: string)
    ensures NoDoubleSpace(e) ==> NoDoubleSpace(Strip(e))
    ensures NoSpaceBeforePunct(e) ==> NoSpaceBeforePunct(Strip(e))
    ensures NoLongDash(e) ==> NoLongDash(Strip(e))
  {
    var r := Strip(e);
    var o := StripOffset(e);
    SliceKeeps(e, o, o + |r|);
  }

  lemma SubstituteGuarantees(text: string)
    ensures |Substitute(text)| <= |text|
    ensures NoLongDash(Substitute(text))
    ensures NoDoubleSpace(Substitute(text))
    ensures NoSpaceBeforePunct(Substitute(text))
  {
    var d := ReplaceDashes(StripLines(CollapseNewlines(CollapseSpaces(text))));
    DashesGuarantees(text);
    DropSpaceBeforePunctDone(d);
    DropSpaceBeforePunctChars(d);
    DropSpaceBeforePunctSpaces(d);
    assert EmDash !in d && EnDash !in d;
  }

  lemma DashesGuarantees(text: string)
    ensures var d := ReplaceDashes(StripLines(CollapseNewlines(CollapseSpaces(text))));
      |d| <= |text| && NoDoubleSpace(d) && NoLongDash(d)
  {
    StripLinesKeeps(CollapseNewlines(CollapseSpaces(text)));
  }

  // ---------------------------------------------------------------------------
  // chunk_text

  /** `words[start:start + size]`, with Python's clamping of slice bounds. */
  function Window(words: seq<string>, start: nat, size: nat): seq<string> {
    words[Min(start, |words|)..Min(start + size, |words|)]
  }

  /** Chunk `k`: the window that starts `k` steps in, joined by single spaces. */
  function ChunkAt(words: seq<string>, k: nat, size: nat, step: nat): string {
    Join(Window(words, k * step, size), " ")
  }

  /** The chunks of the loop: one per start `0, step, 2 * step, ...` below `|words|`. */
  function Chunks(words: seq<string>, size: nat, step: nat): seq<string>
    requires step > 0
  {
    seq(CeilDiv(|words|, step), k requires 0 <= k < CeilDiv(|words|, step) => ChunkAt(words, k, size, step))
  }

  /** What `chunk_text(text, size, overlap)` returns: the text itself when it has at
      most `size` words, otherwise the word windows advancing by `size - overlap`. */
  function ChunkTextSpec(text: string, size: nat, overlap: int): seq<string>
    requires |Words(text)| <= size || overlap < size
  {
    if |Words(text)| <= size then [text] else Chunks(Words(text), size, size - overlap)
  }

  /** `chunk_text`. The loop only terminates when it advances, so a text of more
      than `chunkSize` words needs `overlap < chunkSize`. */
  method ChunkText(text: string, chunkSize: nat, overlap: int) returns (chunks: seq<string>)
    requires |Words(text)| <= chunkSize || overlap < chunkSize
    ensures chunks == ChunkTextSpec(text, chunkSize, overlap)
  {
    var words := Words(text);
    if |words| <= chunkSize {
      return [text];
    }
    chunks := [];
    var start := 0;
    var step: nat := chunkSize - overlap;
    while start < |words|
      invariant start == |chunks| * step
      invariant |chunks| == 0 || (|chunks| - 1) * step < |words|
      invariant forall k :: 0 <= k < |chunks| ==> chunks[k] == ChunkAt(words, k, chunkSize, step)
      decreases |words| - start
    {
      var end := start + chunkSize;
      var chunkWords := words[start..Min(end, |words|)];
      var chunk := Join(chunkWords, " ");
      assert chunk == ChunkAt(words, |chunks|, chunkSize, step);
      chunks := chunks + [chunk];
      start := start + step;
    }
    CeilDivSteps(|chunks|, |words|, step);
  }

  /** A text of at most `size` words comes back as the only chunk, not re-joined; a
      whitespace-only text (the empty text included) is such a text. A longer text
      gives one chunk per start `0, step, 2 * step, ...` below its word count. */
  lemma ChunkTextCases(text: string, size: nat, overlap: int)
    requires |Words(text)| <= size || overlap < size
    ensures AllSpace(text) ==> ChunkTextSpec(text, size, overlap) == [text]
    ensures |Words(text)| <= size ==> ChunkTextSpec(text, size, overlap) == [text]
    ensures |Words(text)| > size ==>
      |ChunkTextSpec(text, size, overlap)| == CeilDiv(|Words(text)|, size - overlap)
  {
  }

  /** Chunk `k` of a long text starts at word `k * step`, inside the text, and its
      words are exactly the window (the join does not merge or split words); so with
      `size >= 1` it has between 1 and `size` words. */
  lemma ChunkWords(words: seq<string>, size: nat, step: nat, k: nat)
    requires step > 0
    requires forall i :: 0 <= i < |words| ==> IsWord(words[i])
    requires k < CeilDiv(|words|, step)
    ensures k * step < |words|
    ensures Words(Chunks(words, size, step)[k]) == words[k * step..Min(k * step + size, |words|)]
    ensures size >= 1 ==> 1 <= |Words(Chunks(words, size, step)[k])| <= size
  {
    CeilDivBound(k, |words|, step);
    var w := Window(words, k * step, size);
    assert forall i :: 0 <= i < |w| ==> w[i] == words[k * step + i];
    WordsOfJoin(w);
  }

  /** `k < CeilDiv(n, step)` means that start `k * step` is below `n`. */
  lemma CeilDivBound(k: nat, n: nat, step: nat)
    requires step > 0 && k < CeilDiv(n, step)
    ensures k * step < n
  {
    var q, r := (n + step - 1) / step, (n + step - 1) % step;
    assert n + step - 1 == q * step + r && r < step;
    MulSucc(k, step);
    if k * step >= n {
      MulLessEq(k + 1, q, step);
      assert false;
    }
  }

  lemma MulLessEq(a: nat, b: nat, step: nat)
    requires a <= b
    ensures a * step <= b * step
  {
  }

  /** Consecutive chunks overlap: when chunk `k` is full, its words after the first
      `step` are the first `size - step` (the overlap) words of chunk `k + 1`. */
  lemma ConsecutiveChunksOverlap(words: seq<string>, size: nat, step: nat, k: nat)
    requires 0 < step <= size
    requires forall i :: 0 <= i < |words| ==> IsWord(words[i])
    requires k + 1 < CeilDiv(|words|, step)
    requires k * step + size <= |words|
    ensures |Words(Chunks(words, size, step)[k])| == size
    ensures |Words(Chunks(words, size, step)[k + 1])| >= size - step
    ensures Words(Chunks(words, size, step)[k])[step..] == Words(Chunks(words, size, step)[k + 1])[..size - step]
  {
    ChunkWords(words, size, step, k);
    ChunkWords(words, size, step, k + 1);
    MulSucc(k, step);
    var a := k * step;
    assert (k + 1) * step == a + step;
    SlidingWindows(words, a, step, size);
  }

  lemma SlidingWindows(words: seq<string>, a: nat, step: nat, size: nat)
    requires step <= size && a + size <= |words|
    ensures words[a..a + size][step..] == words[a + step..Min(a + step + size, |words|)][..size - step]
  {
    var m := Min(a + step + size, |words|);
    assert a + size <= m;
    assert words[a..a + size][step..] == words[a + step..a + size];
    assert words[a + step..m][..size - step] == words[a + step..a + size];
  }

  /** Every word lies in some chunk when chunks overlap or touch (`step <= size`):
      word `j` is word `j - k * step` of chunk `k = j / step`. */
  lemma EveryWordCovered(words: seq<string>, size: nat, step: nat, j: nat)
    requires 0 < step <= size
    requires forall i :: 0 <= i < |words| ==> IsWord(words[i])
    requires j < |words|
    ensures j / step < CeilDiv(|words|, step)
    ensures (j / step) * step <= j < (j / step) * step + size
    ensures j - (j / step) * step < |Words(Chunks(words, size, step)[j / step])|
    ensures Words(Chunks(words, size, step)[j / step])[j - (j / step) * step] == words[j]
  {
    var k := j / step;
    DivBelowCeil(j, |words|, step);
    ChunkWords(words, size, step, k);
    var a := k * step;
    assert a <= j < a + step;
    var w := words[a..Min(a + size, |words|)];
    assert w[j - a] == words[j];
  }

  /** The example of the docstring, `chunk_size=4, overlap=2` on eight words such as
      "A B C D E F G H": the loop runs while `start < 8`, so besides the three chunks
      the docstring lists there is a fourth, the last two words ("G H"), lying wholly
      inside the third. */
  lemma DocstringExample(ws: seq<string>)
    requires |ws| == 8 && forall i :: 0 <= i < 8 ==> IsWord(ws[i])
    ensures |ChunkTextSpec(Join(ws, " "), 4, 2)| == 4
    ensures ChunkTextSpec(Join(ws, " "), 4, 2) ==
      [Join(ws[0..4], " "), Join(ws[2..6], " "), Join(ws[4..8], " "), ws[6] + " " + ws[7]]
  {
    WordsOfJoin(ws);
    assert CeilDiv(8, 2) == 4;
    var cs := Chunks(ws, 4, 2);
    assert cs[0] == Join(ws[0..4], " ");
    assert cs[1] == Join(ws[2..6], " ");
    assert cs[2] == Join(ws[4..8], " ");
    assert cs[3] == Join(ws[6..8], " ");
    assert ws[6..8][1..] == [ws[7]];
  }

  // ---------------------------------------------------------------------------
  // The chunk objects built by process_documents

  datatype ChunkMeta = ChunkMeta(
    source: string, category: string, docPath: string,
    chunkId: string, chunkIndex: nat, totalChunks: nat,
    chunkChars: nat, chunkWords: nat)

  datatype Chunk = Chunk(text: string, metadata: ChunkMeta)

  /** `f"{doc_idx}_{chunk_idx}"`. */
  function ChunkId(docIdx: nat, chunkIdx: nat): string {
    NatToString(docIdx) + "_" + NatToString(chunkIdx)
  }

  /** Chunk ids are unique across the whole run: different (document, chunk) pairs
      give different ids. */
  lemma ChunkIdsDistinct(d1: nat, c1: nat, d2: nat, c2: nat)
    requires d1 != d2 || c1 != c2
    ensures ChunkId(d1, c1) != ChunkId(d2, c2)
  {
    if ChunkId(d1, c1) == ChunkId(d2, c2) {
      PairTextInjective(d1, c1, d2, c2, '_');
    }
  }

  /** The inner loop of `process_documents`: one chunk object per chunk of document
      `docIdx`, in order, carrying the document's metadata and the chunk's position,
      id, length and word count. */
  method AttachMetadata(docIdx: nat, source: string, category: string, docPath: string, chunks: seq<string>)
    returns (records: seq<Chunk>)
    ensures |records| == |chunks|
    ensures forall i :: 0 <= i < |chunks| ==>
      records[i] == Chunk(chunks[i], ChunkMeta(source, category, docPath, ChunkId(docIdx, i),
                                               i, |chunks|, |chunks[i]|, |Words(chunks[i])|))
  {
    records := [];
    for chunkIdx := 0 to |chunks|
      invariant |records| == chunkIdx
      invariant forall i :: 0 <= i < chunkIdx ==>
        records[i] == Chunk(chunks[i], ChunkMeta(source, category, docPath, ChunkId(docIdx, i),
                                                 i, |chunks|, |chunks[i]|, |Words(chunks[i])|))
    {
      var chunkContext := chunks[chunkIdx];
      var meta := ChunkMeta(source, category, docPath, ChunkId(docIdx, chunkIdx),
                            chunkIdx, |chunks|, |chunkContext|, |Words(chunkContext)|);
      records := records + [Chunk(chunkContext, meta)];
    }
  }

  const ChunkSize: nat := 500
  const Overlap: nat := 100

  /** One document in `process_documents`: clean the text, chunk it with 500-word
      windows overlapping by 100 words, and attach the metadata. */
  method ChunkDocument(docIdx: nat, source: string, category: string, docPath: string, text: string)
    returns (records: seq<Chunk>)
    ensures var cs := ChunkTextSpec(CleanText(text), ChunkSize, Overlap);
      |records| == |cs| &&
      forall i :: 0 <= i < |cs| ==>
        records[i] == Chunk(cs[i], ChunkMeta(source, category, docPath, ChunkId(docIdx, i),
                                             i, |cs|, |cs[i]|, |Words(cs[i])|))
  {
    var cleaned := CleanText(text);
    var chunks := ChunkText(cleaned, ChunkSize, Overlap);
    records := AttachMetadata(docIdx, source, category, docPath, chunks);
  }

  /** The chunk objects of a document split into more than `size` words record word
      counts between 1 and `size`, and one id per chunk. */
  lemma AttachedChunksOfLongText(docIdx: nat, text: string, size: nat, overlap: int, records: seq<Chunk>, i: nat, j: nat)
    requires size >= 1 && overlap < size && |Words(text)| > size
    requires var cs := ChunkTextSpec(text, size, overlap);
      |records| == |cs| &&
      forall m :: 0 <= m < |cs| ==> records[m].metadata.chunkId == ChunkId(docIdx, m) &&
                                    records[m].metadata.chunkWords == |Words(cs[m])|
    requires i < j < |records|
    ensures 1 <= records[i].metadata.chunkWords <= size
    ensures records[i].metadata.chunkId != records[j].metadata.chunkId
  {
    ChunkWords(Words(text), size, size - overlap, i);
    ChunkIdsDistinct(docIdx, i, docIdx, j);
  }
}
