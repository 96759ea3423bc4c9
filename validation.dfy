/** scripts/validate_data.py: the checks run on the chunks file before indexing.
    The chunks file is given as its parsed contents (None when it is missing); a
    chunk is a JSON object whose keys may be absent. Evaluation follows the script
    statement by statement, so a missing key raises `KeyError` at the first place
    the script reads it, and what the script prints is gathered in a `Report`. */
module Validation {
  import opened Wrappers
  import opened Strings
  import Chunking

  /** The `metadata` object of a chunk, reduced to the four keys the script reads. */
  datatype RawMeta = RawMeta(source: Option<string>, category: Option<string>,
                             chunkId: Option<string>, chunkWords: Option<int>)

  /** One element of the chunks file: the keys `text` and `metadata`, each maybe absent. */
  datatype RawChunk = RawChunk(text: Option<string>, metadata: Option<RawMeta>)

  /** The exceptions the script can raise; none is caught. */
  datatype Exception = KeyError(key: string) | ZeroDivisionError

  const ChecksLimit: nat := 10
  const ExamplesLimit: nat := 2
  const SourcePreview: nat := 50
  const TextPreview: nat := 100

  // ---------------------------------------------------------------------------
  // Validation 1: empty chunks

  predicate HasText(c: RawChunk) {
    c.text.Some?
  }

  /** `[c for c in chunks if not c['text'].strip()]`. */
  function EmptyChunks(chunks: seq<RawChunk>): (r: Result<seq<RawChunk>, Exception>)
    ensures r.Failure? <==> exists i :: 0 <= i < |chunks| && !HasText(chunks[i])
    ensures r.Failure? ==> r.error == KeyError("text")
    ensures r.Success? ==> |r.value| <= |chunks|
    ensures r.Success? ==> r.value == BlankChunks(chunks)
  {
    if chunks == [] then Success([])
    else if !HasText(chunks[0]) then Failure(KeyError("text"))
    else
      var rest := EmptyChunks(chunks[1..]);
      assert chunks == [chunks[0]] + chunks[1..];
      assert rest.Failure? ==> exists i :: 1 <= i < |chunks| && !HasText(chunks[i]);
      if rest.Failure? then rest
      else if Strip(chunks[0].text.value) == [] then Success([chunks[0]] + rest.value)
      else rest
  }

  /** The chunks whose text is blank, in order: the comprehension's filter, for chunks
      that have a text. */
  function BlankChunks(chunks: seq<RawChunk>): seq<RawChunk> {
    if chunks == [] then []
    else (if HasText(chunks[0]) && AllSpace(chunks[0].text.value) then [chunks[0]] else []) + BlankChunks(chunks[1..])
  }

  /** The blank chunks are exactly the chunks that have a text and whose text is blank. */
  lemma {:induction false} BlankChunksMembers(chunks: seq<RawChunk>)
    ensures forall c :: c in BlankChunks(chunks) <==> c in chunks && HasText(c) && AllSpace(c.text.value)
  {
    if chunks != [] {
      BlankChunksMembers(chunks[1..]);
      assert chunks == [chunks[0]] + chunks[1..];
    }
  }

  /** The blank chunks of a concatenation are those of each part, in order, and a
      single chunk is one exactly when its text is blank. */
  lemma {:induction false} BlankChunksAppend(a: seq<RawChunk>, b: seq<RawChunk>)
    ensures BlankChunks(a + b) == BlankChunks(a) + BlankChunks(b)
  {
    if a == [] {
      assert a + b == b;
    } else {
      assert (a + b)[0] == a[0];
      assert (a + b)[1..] == a[1..] + b;
      BlankChunksAppend(a[1..], b);
    }
  }

  lemma BlankChunksOne(c: RawChunk)
    ensures BlankChunks([c]) == if HasText(c) && AllSpace(c.text.value) then [c] else []
  {
    assert [c][1..] == [];
  }

  // ---------------------------------------------------------------------------
  // Validation 2: complete metadata, on the first ten chunks

  /** `all(field in chunk['metadata'] for field in required_meta)`. */
  predicate CompleteMeta(m: RawMeta) {
    m.source.Some? && m.category.Some? && m.chunkId.Some? && m.chunkWords.Some?
  }

  /** What one iteration of the check adds to `issues`: one when `text` or
      `metadata` is absent, then `chunk['metadata']` raises when `metadata` is
      absent, and one more when a required metadata key is absent. */
  function ChunkIssues(c: RawChunk): Result<nat, Exception> {
    if c.metadata.None? then Failure(KeyError("metadata"))
    else Success((if HasText(c) then 0 else 1) + (if CompleteMeta(c.metadata.value) then 0 else 1))
  }

  /** The value of `issues` after checking `checked`, or the exception raised. */
  function IssuesOf(checked: seq<RawChunk>): Result<nat, Exception> {
    if checked == [] then Success(0)
    else
      var before := IssuesOf(checked[..|checked| - 1]);
      if before.Failure? then before
      else
        var step := ChunkIssues(checked[|checked| - 1]);
        if step.Failure? then step else Success(before.value + step.value)
  }

  /** The loop over `chunks[:10]` counting problems. */
  method CheckMetadata(chunks: seq<RawChunk>) returns (r: Result<nat, Exception>)
    ensures r == IssuesOf(chunks[..Min(ChecksLimit, |chunks|)])
  {
    var checked := Take(chunks, ChecksLimit);
    var issues := 0;
    for i := 0 to |checked|
      invariant IssuesOf(checked[..i]) == Success(issues)
    {
      PrefixStep(checked, i);
      var chunk := checked[i];
      if !(chunk.text.Some? && chunk.metadata.Some?) {
        issues := issues + 1;
      }
      if chunk.metadata.None? {
        IssuesFailureStays(checked, i + 1);
        return Failure(KeyError("metadata"));
      }
      if !CompleteMeta(chunk.metadata.value) {
        issues := issues + 1;
      }
    }
    FullSlice(checked);
    r := Success(issues);
  }

  /** Once the check has raised, the later chunks change nothing. */
  lemma {:induction false} IssuesFailureStays(s: seq<RawChunk>, k: nat)
    requires k <= |s| && IssuesOf(s[..k]).Failure?
    ensures IssuesOf(s) == IssuesOf(s[..k])
    decreases |s| - k
  {
    if k == |s| {
      FullSlice(s);
    } else {
      assert s[..k + 1][..k] == s[..k];
      IssuesFailureStays(s, k + 1);
    }
  }

  /** Each checked chunk adds at most two problems. */
  lemma {:induction false} IssuesBound(checked: seq<RawChunk>)
    ensures IssuesOf(checked).Success? ==> IssuesOf(checked).value <= 2 * |checked|
  {
    if checked != [] {
      IssuesBound(checked[..|checked| - 1]);
    }
  }

  /** The check raises exactly when a checked chunk has no `metadata`. */
  lemma {:induction false} IssuesFailure(checked: seq<RawChunk>)
    ensures IssuesOf(checked).Failure? <==> exists i :: 0 <= i < |checked| && checked[i].metadata.None?
    ensures IssuesOf(checked).Failure? ==> IssuesOf(checked).error == KeyError("metadata")
  {
    if checked != [] {
      var init := checked[..|checked| - 1];
      IssuesFailure(init);
      assert forall i :: 0 <= i < |init| ==> init[i] == checked[i];
    }
  }

  /** Number of chunks whose metadata lacks a required key. */
  function Incomplete(checked: seq<RawChunk>): (k: nat)
    requires forall i :: 0 <= i < |checked| ==> checked[i].metadata.Some?
    ensures k <= |checked|
  {
    if checked == [] then 0
    else Incomplete(checked[..|checked| - 1]) + (if CompleteMeta(checked[|checked| - 1].metadata.value) then 0 else 1)
  }

  /** When every chunk has a text (which the empty-chunk check has already forced),
      the first test never fires: `issues` counts the chunks with incomplete
      metadata, so it is at most the number of chunks checked. */
  lemma {:induction false} IssuesWithTexts(checked: seq<RawChunk>)
    requires forall i :: 0 <= i < |checked| ==> HasText(checked[i]) && checked[i].metadata.Some?
    ensures IssuesOf(checked) == Success(Incomplete(checked))
  {
    if checked != [] {
      var init := checked[..|checked| - 1];
      assert forall i :: 0 <= i < |init| ==> init[i] == checked[i];
      IssuesWithTexts(init);
    }
  }

  // ---------------------------------------------------------------------------
  // Reading c['metadata'][key] over every chunk

  datatype MetaKey = SourceKey | CategoryKey | ChunkWordsKey

  function KeyName(k: MetaKey): string {
    match k
    case SourceKey => "source"
    case CategoryKey => "category"
    case ChunkWordsKey => "chunk_words"
  }

  /** `c['metadata'][key]` raises on this chunk. */
  predicate Missing(c: RawChunk, key: MetaKey) {
    c.metadata.None? ||
    match key
    case SourceKey => c.metadata.value.source.None?
    case CategoryKey => c.metadata.value.category.None?
    case ChunkWordsKey => c.metadata.value.chunkWords.None?
  }

  /** The `KeyError` that `c['metadata'][key]` raises. */
  function MissingError(c: RawChunk, key: MetaKey): Exception {
    if c.metadata.None? then KeyError("metadata") else KeyError(KeyName(key))
  }

  /** The first chunk on which `c['metadata'][key]` raises. */
  function FirstMissing(chunks: seq<RawChunk>, key: MetaKey): (r: Option<nat>)
    ensures r.None? <==> forall i :: 0 <= i < |chunks| ==> !Missing(chunks[i], key)
    ensures r.Some? ==> r.value < |chunks| && Missing(chunks[r.value], key)
    ensures r.Some? ==> forall j :: 0 <= j < r.value ==> !Missing(chunks[j], key)
  {
    if chunks == [] then None
    else if Missing(chunks[0], key) then Some(0)
    else
      var rest := FirstMissing(chunks[1..], key);
      assert forall i :: 1 <= i < |chunks| ==> chunks[i] == chunks[1..][i - 1];
      if rest.None? then None else Some(rest.value + 1)
  }

  /** `[c['metadata']['category'] for c in chunks]`. */
  function Categories(chunks: seq<RawChunk>): (r: Result<seq<string>, Exception>)
    ensures r.Success? <==> FirstMissing(chunks, CategoryKey).None?
    ensures r.Failure? ==> r.error == MissingError(chunks[FirstMissing(chunks, CategoryKey).value], CategoryKey)
    ensures r.Success? ==> |r.value| == |chunks|
    ensures r.Success? ==> forall i :: 0 <= i < |chunks| ==> r.value[i] == chunks[i].metadata.value.category.value
  {
    if chunks == [] then Success([])
    else if Missing(chunks[0], CategoryKey) then Failure(MissingError(chunks[0], CategoryKey))
    else
      var rest := Categories(chunks[1..]);
      if rest.Failure? then rest
      else Success([chunks[0].metadata.value.category.value] + rest.value)
  }

  /** `[c['metadata']['chunk_words'] for c in chunks]`. */
  function ChunkSizes(chunks: seq<RawChunk>): (r: Result<seq<int>, Exception>)
    ensures r.Success? <==> FirstMissing(chunks, ChunkWordsKey).None?
    ensures r.Failure? ==> r.error == MissingError(chunks[FirstMissing(chunks, ChunkWordsKey).value], ChunkWordsKey)
    ensures r.Success? ==> |r.value| == |chunks|
    ensures r.Success? ==> forall i :: 0 <= i < |chunks| ==> r.value[i] == chunks[i].metadata.value.chunkWords.value
  {
    if chunks == [] then Success([])
    else if Missing(chunks[0], ChunkWordsKey) then Failure(MissingError(chunks[0], ChunkWordsKey))
    else
      var rest := ChunkSizes(chunks[1..]);
      if rest.Failure? then rest
      else Success([chunks[0].metadata.value.chunkWords.value] + rest.value)
  }

  // ---------------------------------------------------------------------------
  // Validation 3: Counter(categories)

  /** A `Counter`, as its items in insertion order. */
  type Tally = seq<(string, nat)>

  /** Position of `key` in the counter, if it is there. */
  function KeyIndex(t: Tally, key: string): (r: Option<nat>)
    ensures r.Some? ==> r.value < |t| && t[r.value].0 == key
    ensures r.None? ==> forall i :: 0 <= i < |t| ==> t[i].0 != key
  {
    if t == [] then None
    else if t[|t| - 1].0 == key then Some(|t| - 1)
    else KeyIndex(t[..|t| - 1], key)
  }

  /** Counting one more occurrence of `key`: its count goes up by one, or it is
      appended with count 1. */
  function Bump(t: Tally, key: string): Tally {
    match KeyIndex(t, key)
    case Some(i) => t[i := (key, t[i].1 + 1)]
    case None => t + [(key, 1)]
  }

  /** `Counter(categories)`. */
  function CounterOf(cats: seq<string>): Tally {
    if cats == [] then [] else Bump(CounterOf(cats[..|cats| - 1]), cats[|cats| - 1])
  }

  /** Sum of the counts. */
  function Total(t: Tally): nat {
    if t == [] then 0 else Total(t[..|t| - 1]) + t[|t| - 1].1
  }

  /** `t` counts `cats`: one entry per distinct value, holding its number of occurrences. */
  predicate Counts(t: Tally, cats: seq<string>) {
    && (forall i, j :: 0 <= i < j < |t| ==> t[i].0 != t[j].0)
    && (forall i :: 0 <= i < |t| ==> t[i].1 == multiset(cats)[t[i].0])
    && (forall c :: c in cats ==> exists i :: 0 <= i < |t| && t[i].0 == c)
  }

  lemma {:induction false} TotalUpdate(t: Tally, i: nat, key: string, c: nat)
    requires i < |t|
    ensures Total(t[i := (key, c)]) + t[i].1 == Total(t) + c
  {
    var u := t[i := (key, c)];
    if i < |t| - 1 {
      assert u[..|u| - 1] == t[..|t| - 1][i := (key, c)];
      TotalUpdate(t[..|t| - 1], i, key, c);
    } else {
      assert u[..|u| - 1] == t[..|t| - 1];
    }
  }

  /** Counting a value already in the counter. */
  lemma BumpFound(t: Tally, cats: seq<string>, key: string, i: nat)
    requires Counts(t, cats) && i < |t| && t[i].0 == key
    ensures Counts(t[i := (key, t[i].1 + 1)], cats + [key])
  {
    var u := t[i := (key, t[i].1 + 1)];
    var m := multiset(cats + [key]);
    assert m == multiset(cats) + multiset{key};
    forall j | 0 <= j < |u|
      ensures u[j].1 == m[u[j].0]
    {
      if j != i {
        assert u[j] == t[j];
      }
    }
    forall c | c in cats + [key]
      ensures exists j :: 0 <= j < |u| && u[j].0 == c
    {
      if c == key {
        assert u[i].0 == c;
      } else {
        assert c in cats;
        var j :| 0 <= j < |t| && t[j].0 == c;
        assert u[j].0 == c;
      }
    }
  }

  /** Counting a value not yet in the counter. */
  lemma BumpNew(t: Tally, cats: seq<string>, key: string)
    requires Counts(t, cats) && forall i :: 0 <= i < |t| ==> t[i].0 != key
    ensures Counts(t + [(key, 1)], cats + [key])
  {
    var u := t + [(key, 1)];
    var m := multiset(cats + [key]);
    assert m == multiset(cats) + multiset{key};
    assert key !in cats;
    forall j | 0 <= j < |u|
      ensures u[j].1 == m[u[j].0]
    {
      if j < |t| {
        assert u[j] == t[j];
      }
    }
    forall c | c in cats + [key]
      ensures exists j :: 0 <= j < |u| && u[j].0 == c
    {
      if c == key {
        assert u[|t|].0 == c;
      } else {
        assert c in cats;
        var j :| 0 <= j < |t| && t[j].0 == c;
        assert u[j].0 == c;
      }
    }
  }

  lemma BumpCounts(t: Tally, cats: seq<string>, key: string)
    requires Counts(t, cats)
    ensures Counts(Bump(t, key), cats + [key])
  {
    match KeyIndex(t, key)
    case Some(i) =>
      BumpFound(t, cats, key, i);
    case None =>
      BumpNew(t, cats, key);
  }

  /** Counting one more occurrence adds one to the total. */
  lemma BumpTotal(t: Tally, key: string)
    ensures Total(Bump(t, key)) == Total(t) + 1
  {
    match KeyIndex(t, key)
    case Some(i) =>
      TotalUpdate(t, i, key, t[i].1 + 1);
    case None =>
      var u := t + [(key, 1)];
      assert u[..|u| - 1] == t;
  }

  /** `Counter(categories)` has one entry per distinct category, holding its number
      of chunks, and its counts add up to the number of chunks. */
  lemma {:induction false} CounterCounts(cats: seq<string>)
    ensures Counts(CounterOf(cats), cats)
    ensures Total(CounterOf(cats)) == |cats|
  {
    if cats != [] {
      var init := cats[..|cats| - 1];
      CounterCounts(init);
      BumpCounts(CounterOf(init), init, cats[|cats| - 1]);
      BumpTotal(CounterOf(init), cats[|cats| - 1]);
      assert init + [cats[|cats| - 1]] == cats;
    }
  }

  // ---------------------------------------------------------------------------
  // Validation 4: chunk sizes

  /** `min(chunk_sizes)`. */
  function MinOf(xs: seq<int>): (m: int)
    requires xs != []
    ensures m in xs && forall x :: x in xs ==> m <= x
  {
    if |xs| == 1 then xs[0]
    else
      var rest := MinOf(xs[1..]);
      assert xs == [xs[0]] + xs[1..];
      if xs[0] <= rest then xs[0] else rest
  }

  /** `max(chunk_sizes)`. */
  function MaxOf(xs: seq<int>): (m: int)
    requires xs != []
    ensures m in xs && forall x :: x in xs ==> x <= m
  {
    if |xs| == 1 then xs[0]
    else
      var rest := MaxOf(xs[1..]);
      assert xs == [xs[0]] + xs[1..];
      if xs[0] >= rest then xs[0] else rest
  }

  // ---------------------------------------------------------------------------
  // Validation 5: the first two chunks as examples

  /** One printed example: `source[:50]`, `chunk_words`, `text[:100]`. */
  datatype Example = Example(source: string, words: int, preview: string)

  /** The examples, read in the order the script reads them; the first key absent
      raises. */
  function Examples(shown: seq<RawChunk>): (r: Result<seq<Example>, Exception>)
    ensures r.Success? ==> |r.value| == |shown|
    ensures r.Success? ==> forall i :: 0 <= i < |shown| ==>
      && HasText(shown[i]) && !Missing(shown[i], SourceKey) && !Missing(shown[i], ChunkWordsKey)
      && r.value[i] == Example(Take(shown[i].metadata.value.source.value, SourcePreview),
                               shown[i].metadata.value.chunkWords.value,
                               Take(shown[i].text.value, TextPreview))
  {
    if shown == [] then Success([])
    else
      var c := shown[0];
      if Missing(c, SourceKey) then Failure(MissingError(c, SourceKey))
      else if Missing(c, ChunkWordsKey) then Failure(KeyError("chunk_words"))
      else if !HasText(c) then Failure(KeyError("text"))
      else
        var rest := Examples(shown[1..]);
        if rest.Failure? then rest
        else
          Success([Example(Take(c.metadata.value.source.value, SourcePreview),
                           c.metadata.value.chunkWords.value,
                           Take(c.text.value, TextPreview))] + rest.value)
  }

  /** A chunk on which printing its example raises: its `source`, `chunk_words` or
      `text` is absent. */
  predicate ExampleFails(c: RawChunk) {
    Missing(c, SourceKey) || Missing(c, ChunkWordsKey) || !HasText(c)
  }

  /** The exception printing the example of such a chunk raises: the first of the
      three reads that fails. */
  function ExampleError(c: RawChunk): Exception {
    if Missing(c, SourceKey) then MissingError(c, SourceKey)
    else if Missing(c, ChunkWordsKey) then MissingError(c, ChunkWordsKey)
    else KeyError("text")
  }

  /** Chunk `i` is the first among `shown` whose example raises. */
  predicate FirstFailingExample(shown: seq<RawChunk>, i: int) {
    0 <= i < |shown| && ExampleFails(shown[i]) && forall j :: 0 <= j < i ==> !ExampleFails(shown[j])
  }

  /** The examples raise exactly when some shown chunk lacks a key they read, and
      then with the exception of the first such chunk. */
  lemma {:induction false} ExamplesFailure(shown: seq<RawChunk>)
    ensures Examples(shown).Failure? <==> exists i :: 0 <= i < |shown| && ExampleFails(shown[i])
    ensures Examples(shown).Failure? ==>
      exists i :: FirstFailingExample(shown, i) && Examples(shown).error == ExampleError(shown[i])
  {
    if shown != [] {
      var c, rest := shown[0], shown[1..];
      ExamplesFailure(rest);
      assert forall i :: 1 <= i < |shown| ==> shown[i] == rest[i - 1];
      if ExampleFails(c) {
        assert FirstFailingExample(shown, 0);
      } else if Examples(rest).Failure? {
        var k :| FirstFailingExample(rest, k) && Examples(rest).error == ExampleError(rest[k]);
        assert FirstFailingExample(shown, k + 1);
      } else {
        assert forall i :: 0 <= i < |shown| ==> !ExampleFails(shown[i]);
      }
    }
  }

  // ---------------------------------------------------------------------------
  // validate_data

  /** What the script prints: the number of chunks, of empty chunks and of
      problems, the category counter, the smallest and largest word counts, and
      the example chunks. */
  datatype Report = Report(total: nat, emptyChunks: nat, issues: nat, distribution: Tally,
                           minWords: int, maxWords: int, examples: seq<Example>)

  /** The script returns a boolean (with a report when it got that far) or raises. */
  datatype Validation = Returned(ok: bool, report: Option<Report>) | Raised(error: Exception)

  /** The whole script over the two files: whether `extracted_documents.json`
      exists, and the contents of `chunked_documents.json` if it exists. */
  function ValidationOf(extractedExists: bool, chunksFile: Option<seq<RawChunk>>): Validation {
    if !extractedExists || chunksFile.None? then Returned(false, None)
    else
      var chunks := chunksFile.value;
      var empty := EmptyChunks(chunks);
      if empty.Failure? then Raised(empty.error)
      else
        var issues := IssuesOf(chunks[..Min(ChecksLimit, |chunks|)]);
        if issues.Failure? then Raised(issues.error)
        else
          var cats := Categories(chunks);
          if cats.Failure? then Raised(cats.error)
          else
            var sizes := ChunkSizes(chunks);
            if sizes.Failure? then Raised(sizes.error)
            else if sizes.value == [] then Raised(ZeroDivisionError)
            else
              var examples := Examples(Take(chunks, ExamplesLimit));
              if examples.Failure? then Raised(examples.error)
              else
                Returned(true, Some(Report(|chunks|, |empty.value|, issues.value, CounterOf(cats.value),
                                           MinOf(sizes.value), MaxOf(sizes.value), examples.value)))
  }

  /** `validate_data()`, step by step; the metadata loop is `CheckMetadata`. */
  method ValidateData(extractedExists: bool, chunksFile: Option<seq<RawChunk>>) returns (r: Validation)
    ensures r == ValidationOf(extractedExists, chunksFile)
  {
    if !extractedExists {
      return Returned(false, None);
    }
    if chunksFile.None? {
      return Returned(false, None);
    }
    var chunks := chunksFile.value;
    var empty := EmptyChunks(chunks);
    if empty.Failure? {
      return Raised(empty.error);
    }
    var issues := CheckMetadata(chunks);
    if issues.Failure? {
      return Raised(issues.error);
    }
    var categories := Categories(chunks);
    if categories.Failure? {
      return Raised(categories.error);
    }
    var catCounts := CounterOf(categories.value);
    var chunkSizes := ChunkSizes(chunks);
    if chunkSizes.Failure? {
      return Raised(chunkSizes.error);
    }
    if |chunkSizes.value| == 0 {
      return Raised(ZeroDivisionError);
    }
    var minSize := MinOf(chunkSizes.value);
    var maxSize := MaxOf(chunkSizes.value);
    var examples := Examples(Take(chunks, ExamplesLimit));
    if examples.Failure? {
      return Raised(examples.error);
    }
    r := Returned(true, Some(Report(|chunks|, |empty.value|, issues.value, catCounts, minSize, maxSize, examples.value)));
  }

  /** The script returns False exactly when a file is missing, and otherwise either
      raises or returns True with its report, whatever problems it found. */
  lemma ValidationOutcome(extractedExists: bool, chunksFile: Option<seq<RawChunk>>)
    ensures var v := ValidationOf(extractedExists, chunksFile);
      && (v == Returned(false, None) <==> !extractedExists || chunksFile.None?)
      && (v.Returned? && v.ok ==> v.report.Some?)
      && (extractedExists && chunksFile.Some? ==> v.Raised? || v.ok)
  {
  }

  /** A report is consistent: at most two problems per checked chunk, category
      counts that add up to the number of chunks, min <= max over all word counts,
      and one example per chunk among the first two. */
  lemma ValidationReport(chunks: seq<RawChunk>)
    requires ValidationOf(true, Some(chunks)).Returned?
    ensures var rep := ValidationOf(true, Some(chunks)).report.value;
      && rep.total == |chunks| >= 1
      && rep.emptyChunks == |BlankChunks(chunks)|
      && rep.issues <= 2 * Min(ChecksLimit, |chunks|)
      && Total(rep.distribution) == |chunks|
      && Counts(rep.distribution, Categories(chunks).value)
      && rep.minWords <= rep.maxWords
      && (forall i :: 0 <= i < |chunks| ==> rep.minWords <= chunks[i].metadata.value.chunkWords.value <= rep.maxWords)
      && |rep.examples| == Min(ExamplesLimit, |chunks|)
  {
    ReturnedStages(chunks);
    ReturnedReport(chunks);
    var checked := chunks[..Min(ChecksLimit, |chunks|)];
    IssuesBound(checked);
    var cats := Categories(chunks).value;
    CounterCounts(cats);
    var sizes := ChunkSizes(chunks).value;
    assert forall i :: 0 <= i < |chunks| ==> sizes[i] in sizes;
  }

  /** A run that returns has passed every stage. */
  lemma ReturnedStages(chunks: seq<RawChunk>)
    requires ValidationOf(true, Some(chunks)).Returned?
    ensures EmptyChunks(chunks).Success? && IssuesOf(chunks[..Min(ChecksLimit, |chunks|)]).Success?
    ensures Categories(chunks).Success? && ChunkSizes(chunks).Success? && chunks != []
    ensures Examples(Take(chunks, ExamplesLimit)).Success?
  {
  }

  /** When every stage passes, the script returns True with the report of the stages. */
  lemma ReturnedReport(chunks: seq<RawChunk>)
    requires EmptyChunks(chunks).Success? && IssuesOf(chunks[..Min(ChecksLimit, |chunks|)]).Success?
    requires Categories(chunks).Success? && ChunkSizes(chunks).Success? && chunks != []
    requires Examples(Take(chunks, ExamplesLimit)).Success?
    ensures ValidationOf(true, Some(chunks)) ==
      Returned(true, Some(Report(|chunks|, |EmptyChunks(chunks).value|, IssuesOf(chunks[..Min(ChecksLimit, |chunks|)]).value,
                                 CounterOf(Categories(chunks).value), MinOf(ChunkSizes(chunks).value),
                                 MaxOf(ChunkSizes(chunks).value), Examples(Take(chunks, ExamplesLimit)).value)))
  {
  }

  /** An empty chunks file passes every check until the average chunk size,
      which divides by zero. */
  lemma EmptyChunksFileRaises()
    ensures ValidationOf(true, Some([])) == Raised(ZeroDivisionError)
  {
  }

  /** The chunk objects that chunk_documents.py writes, read back. */
  function RawOf(c: Chunking.Chunk): RawChunk {
    RawChunk(Some(c.text), Some(RawMeta(Some(c.metadata.source), Some(c.metadata.category),
                                        Some(c.metadata.chunkId), Some(c.metadata.chunkWords as int))))
  }

  /** Any non-empty output of the chunking step passes: the script returns True,
      counts every chunk and finds no metadata problem. */
  lemma ChunkerOutputValidates(records: seq<Chunking.Chunk>)
    requires records != []
    ensures var v := ValidationOf(true, Some(seq(|records|, i requires 0 <= i < |records| => RawOf(records[i]))));
      && v.Returned? && v.ok && v.report.Some?
      && v.report.value.total == |records| && v.report.value.issues == 0
  {
    var chunks := seq(|records|, i requires 0 <= i < |records| => RawOf(records[i]));
    assert forall i :: 0 <= i < |chunks| ==> Complete(chunks[i]);
    CompleteChunksValidate(chunks);
  }

  /** A chunk with its text and all four metadata keys. */
  predicate Complete(c: RawChunk) {
    HasText(c) && c.metadata.Some? && CompleteMeta(c.metadata.value)
  }

  /** A non-empty file of complete chunks passes with no problem found. */
  lemma CompleteChunksValidate(chunks: seq<RawChunk>)
    requires chunks != [] && forall i :: 0 <= i < |chunks| ==> Complete(chunks[i])
    ensures var v := ValidationOf(true, Some(chunks));
      && v.Returned? && v.ok && v.report.Some?
      && v.report.value.total == |chunks| && v.report.value.issues == 0
  {
    EmptyChunksKeep(chunks);
    CompleteIssues(chunks);
    CompleteReads(chunks);
    ReturnedReport(chunks);
  }

  lemma CompleteIssues(chunks: seq<RawChunk>)
    requires forall i :: 0 <= i < |chunks| ==> Complete(chunks[i])
    ensures IssuesOf(chunks[..Min(ChecksLimit, |chunks|)]) == Success(0)
  {
    var checked := chunks[..Min(ChecksLimit, |chunks|)];
    assert forall i :: 0 <= i < |checked| ==> Complete(checked[i]);
    IssuesWithTexts(checked);
    NoneIncomplete(checked);
  }

  lemma CompleteReads(chunks: seq<RawChunk>)
    requires forall i :: 0 <= i < |chunks| ==> Complete(chunks[i])
    ensures Categories(chunks).Success? && ChunkSizes(chunks).Success?
    ensures Examples(Take(chunks, ExamplesLimit)).Success?
  {
    NoneMissing(chunks, CategoryKey);
    NoneMissing(chunks, ChunkWordsKey);
    var shown := Take(chunks, ExamplesLimit);
    assert forall i :: 0 <= i < |shown| ==> Complete(shown[i]);
    ExamplesOfComplete(shown);
  }

  lemma NoneMissing(chunks: seq<RawChunk>, key: MetaKey)
    requires forall i :: 0 <= i < |chunks| ==> Complete(chunks[i])
    ensures FirstMissing(chunks, key).None?
  {
    assert forall i :: 0 <= i < |chunks| ==> !Missing(chunks[i], key);
  }

  lemma EmptyChunksKeep(chunks: seq<RawChunk>)
    requires forall i :: 0 <= i < |chunks| ==> HasText(chunks[i])
    ensures EmptyChunks(chunks).Success?
  {
  }

  lemma {:induction false} NoneIncomplete(checked: seq<RawChunk>)
    requires forall i :: 0 <= i < |checked| ==> checked[i].metadata.Some? && CompleteMeta(checked[i].metadata.value)
    ensures Incomplete(checked) == 0
  {
    if checked != [] {
      var init := checked[..|checked| - 1];
      assert forall i :: 0 <= i < |init| ==> init[i] == checked[i];
      NoneIncomplete(init);
    }
  }

  lemma {:induction false} ExamplesOfComplete(shown: seq<RawChunk>)
    requires forall i :: 0 <= i < |shown| ==> Complete(shown[i])
    ensures Examples(shown).Success?
  {
    if shown != [] {
      ExamplesOfComplete(shown[1..]);
    }
  }
}
