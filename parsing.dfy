/** scripts/parse_documents.py: choosing an extractor by file suffix, assembling a
    document's text and metadata from its pages or paragraphs, and walking the
    category folders. What PdfReader and python-docx would read from a file is
    given as input: its page texts and its paragraph texts, or the message of the
    exception the library raises. */
module Parsing {
  import opened Wrappers
  import opened Strings

  /** What the two libraries read from one file. */
  datatype FileContent = FileContent(pages: Result<seq<string>, string>, paragraphs: Result<seq<string>, string>)

  /** The three values of the `format` metadata entry: "pdf", "docx" and "doc". */
  datatype Format = Pdf | Docx | Doc

  datatype DocMeta = DocMeta(
    source: string, path: string, format: Format, numPages: nat,
    numParagraphs: Option<nat>, numChars: nat, extractionDate: nat,
    warning: Option<string>, category: Option<string>, relativePath: Option<string>)

  datatype Document = Document(text: string, metadata: DocMeta)

  const Extensions: seq<string> := [".pdf", ".docx", ".doc"]
  const ParagraphSeparator: string := "\n\n"
  const WordsPerPage: nat := 500
  const DocWarning: string := "Format .doc ancien - Qualité extraction incertaine"

  /** The category folders under data/raw, in the order they are visited. */
  const CategoryFolders: seq<string> := ["emploi_temps", "reglements", "procedures", "notes", "faqs"]

  // ---------------------------------------------------------------------------
  // Paths

  /** Position just after the last '/', or 0. */
  function NameStart(path: string): (k: nat)
    ensures k <= |path|
    ensures forall i :: k <= i < |path| ==> path[i] != '/'
    ensures k > 0 ==> path[k - 1] == '/'
  {
    if path == [] then 0
    else if path[|path| - 1] == '/' then |path|
    else NameStart(path[..|path| - 1])
  }

  /** `Path(path).name`: the last component. */
  function Name(path: string): string {
    path[NameStart(path)..]
  }

  /** The name is the part of the path after its last '/'. */
  lemma NameIsLastComponent(path: string)
    ensures '/' !in Name(path)
    ensures |Name(path)| <= |path| && Name(path) == path[|path| - |Name(path)|..]
  {
  }

  /** Index of the last '.' in `s`, if any. */
  function LastDot(s: string): (r: Option<nat>)
    ensures r.Some? ==> r.value < |s| && s[r.value] == '.' && forall i :: r.value < i < |s| ==> s[i] != '.'
    ensures r.None? ==> '.' !in s
  {
    if s == [] then None
    else if s[|s| - 1] == '.' then Some(|s| - 1)
    else LastDot(s[..|s| - 1])
  }

  /** `Path(path).suffix`: from the last dot of the name, when that dot is neither the
      first nor the last character of the name; otherwise empty. */
  function Suffix(path: string): string {
    var name := Name(path);
    var dot := LastDot(name);
    if dot.Some? && 0 < dot.value < |name| - 1 then
      name[dot.value..]
    else []
  }

  /** A suffix is empty or a dot followed by at least one character and no other dot,
      and it ends a name that does not start with it. */
  lemma SuffixShape(path: string)
    ensures var suffix := Suffix(path);
      suffix == [] || (suffix[0] == '.' && |suffix| >= 2 && '.' !in suffix[1..])
    ensures var suffix := Suffix(path); var name := Name(path);
      suffix != [] ==> |suffix| < |name| && name[|name| - |suffix|..] == suffix
  {
  }

  /** `file_path.suffix.lower()`. ASCII lower-casing decides the comparison with the
      three extensions exactly. */
  function Extension(path: string): string {
    LowerAscii(Suffix(path))
  }

  /** The extension each extractor handles. */
  const ExtensionTable: seq<(string, Format)> := [(".pdf", Pdf), (".docx", Docx), (".doc", Doc)]

  /** The format the table pairs with `ext`, if any. */
  function Lookup(ext: string, table: seq<(string, Format)>): (f: Option<Format>)
    ensures f.Some? ==> exists i :: 0 <= i < |table| && table[i] == (ext, f.value)
    ensures f.None? ==> forall i :: 0 <= i < |table| ==> table[i].0 != ext
  {
    if table == [] then None
    else if table[0].0 == ext then Some(table[0].1)
    else
      var r := Lookup(ext, table[1..]);
      assert forall i :: 0 <= i < |table| - 1 ==> table[1..][i] == table[i + 1];
      r
  }

  /** The extractor the lower-cased suffix selects, if any. */
  function FormatOf(path: string): Option<Format> {
    Lookup(Extension(path), ExtensionTable)
  }

  /** The table selects the extractor for exactly the three extensions. */
  lemma FormatOfExtension(path: string)
    ensures FormatOf(path) == Some(Pdf) <==> Extension(path) == ".pdf"
    ensures FormatOf(path) == Some(Docx) <==> Extension(path) == ".docx"
    ensures FormatOf(path) == Some(Doc) <==> Extension(path) == ".doc"
    ensures FormatOf(path).Some? <==> Extension(path) in Extensions
  {
    var t := ExtensionTable;
    assert t[0] == (".pdf", Pdf) && t[1] == (".docx", Docx) && t[2] == (".doc", Doc);
  }

  /** The filter of `extract_all_documents`: the suffix is one of the three. */
  predicate IsDocumentFile(path: string) {
    FormatOf(path).Some?
  }

  // ---------------------------------------------------------------------------
  // Text assembly

  /** The page texts kept by the PDF extractor: those with something besides whitespace
      (`if text.strip()`), unstripped, in order. */
  function NonBlankPages(pages: seq<string>): (kept: seq<string>)
    ensures |kept| <= |pages|
    ensures forall i :: 0 <= i < |kept| ==> !AllSpace(kept[i]) && kept[i] in pages
    ensures forall p :: p in pages && !AllSpace(p) ==> p in kept
  {
    if pages == [] then []
    else
      var init := NonBlankPages(pages[..|pages| - 1]);
      assert forall p :: p in pages[..|pages| - 1] ==> p in pages;
      assert forall p :: p in pages ==> p in pages[..|pages| - 1] || p == pages[|pages| - 1];
      if AllSpace(pages[|pages| - 1]) then init else init + [pages[|pages| - 1]]
  }

  /** A page keeps its place in the kept pages: the pages of a concatenation are the
      pages of each part, in order, and a single page is kept exactly when it is not
      blank. */
  lemma {:induction false} NonBlankPagesAppend(a: seq<string>, b: seq<string>)
    ensures NonBlankPages(a + b) == NonBlankPages(a) + NonBlankPages(b)
    decreases |b|
  {
    if b == [] {
      assert a + b == a;
    } else {
      var init := b[..|b| - 1];
      assert (a + b)[..|a + b| - 1] == a + init;
      assert (a + b)[|a + b| - 1] == b[|b| - 1];
      NonBlankPagesAppend(a, init);
    }
  }

  lemma NonBlankPagesOne(page: string)
    ensures NonBlankPages([page]) == if AllSpace(page) then [] else [page]
  {
    assert [page][..0] == [];
  }

  /** A paragraph as the Word extractors keep it: not empty, and neither starting nor
      ending with whitespace. */
  predicate Stripped(t: string) {
    t != [] && !IsSpace(t[0]) && !IsSpace(t[|t| - 1])
  }

  /** The paragraphs kept by the Word extractors: each stripped, the empty ones dropped,
      in order. */
  function StrippedParagraphs(paras: seq<string>): (kept: seq<string>)
    ensures |kept| <= |paras|
  {
    if paras == [] then []
    else
      var init := StrippedParagraphs(paras[..|paras| - 1]);
      var last := Strip(paras[|paras| - 1]);
      if last == [] then init else init + [last]
  }

  /** Every kept paragraph is stripped. */
  lemma {:induction false} StrippedParagraphsStripped(paras: seq<string>)
    ensures forall i :: 0 <= i < |StrippedParagraphs(paras)| ==> Stripped(StrippedParagraphs(paras)[i])
  {
    if paras != [] {
      StrippedParagraphsStripped(paras[..|paras| - 1]);
    }
  }

  /** No paragraph is kept exactly when every paragraph is blank. */
  lemma {:induction false} StrippedParagraphsEmpty(paras: seq<string>)
    ensures StrippedParagraphs(paras) == [] <==> forall i :: 0 <= i < |paras| ==> AllSpace(paras[i])
  {
    if paras != [] {
      var front, last := paras[..|paras| - 1], paras[|paras| - 1];
      StrippedParagraphsEmpty(front);
      assert Strip(last) == [] <==> AllSpace(last);
      assert StrippedParagraphs(paras) == if Strip(last) == [] then StrippedParagraphs(front)
        else StrippedParagraphs(front) + [Strip(last)];
      assert forall i :: 0 <= i < |front| ==> front[i] == paras[i];
    }
  }

  /** The kept paragraphs of a concatenation are those of each part, in order. */
  lemma {:induction false} StrippedParagraphsAppend(a: seq<string>, b: seq<string>)
    ensures StrippedParagraphs(a + b) == StrippedParagraphs(a) + StrippedParagraphs(b)
    decreases |b|
  {
    if b == [] {
      assert a + b == a;
    } else {
      var init, l := b[..|b| - 1], Strip(b[|b| - 1]);
      assert (a + b)[..|a + b| - 1] == a + init;
      assert (a + b)[|a + b| - 1] == b[|b| - 1];
      StrippedParagraphsAppend(a, init);
      var x, y := StrippedParagraphs(a), StrippedParagraphs(init);
      assert StrippedParagraphs(b) == if l == [] then y else y + [l];
      assert StrippedParagraphs(a + b) == if l == [] then x + y else (x + y) + [l];
    }
  }

  /** A single paragraph is kept, stripped, exactly when it is not blank. */
  lemma StrippedParagraphsOne(para: string)
    ensures StrippedParagraphs([para]) == if Strip(para) == [] then [] else [Strip(para)]
  {
    assert [para][..0] == [];
  }

  /** `t` is one of `paras`, stripped. */
  predicate StrippedFrom(t: string, paras: seq<string>) {
    exists j :: 0 <= j < |paras| && t == Strip(paras[j])
  }

  /** Each kept paragraph is a paragraph read, stripped. */
  lemma {:induction false} StrippedParagraphsFrom(paras: seq<string>)
    ensures forall i :: 0 <= i < |StrippedParagraphs(paras)| ==> StrippedFrom(StrippedParagraphs(paras)[i], paras)
  {
    if paras != [] {
      var front := paras[..|paras| - 1];
      StrippedParagraphsFrom(front);
      var init := StrippedParagraphs(front);
      var kept := StrippedParagraphs(paras);
      var n := |paras| - 1;
      forall i | 0 <= i < |kept|
        ensures StrippedFrom(kept[i], paras)
      {
        if i < |init| {
          assert StrippedFrom(init[i], front);
          var j :| 0 <= j < |front| && init[i] == Strip(front[j]);
          assert front[j] == paras[j];
          assert kept[i] == init[i];
        } else {
          assert kept == init + [Strip(paras[n])];
          assert kept[i] == Strip(paras[n]);
        }
      }
    }
  }

  /** Every paragraph that is not blank is kept, stripped, right after the paragraphs
      kept before it. */
  lemma StrippedParagraphsAt(paras: seq<string>, j: nat)
    requires j < |paras| && Strip(paras[j]) != []
    ensures var k := |StrippedParagraphs(paras[..j])|;
      k < |StrippedParagraphs(paras)| && StrippedParagraphs(paras)[k] == Strip(paras[j])
  {
    assert paras == paras[..j] + [paras[j]] + paras[j + 1..];
    StrippedParagraphsAppend(paras[..j] + [paras[j]], paras[j + 1..]);
    StrippedParagraphsAppend(paras[..j], [paras[j]]);
    StrippedParagraphsOne(paras[j]);
  }

  /** `max(1, word_count // 500)`. */
  function ApproxPages(text: string): (n: nat)
    ensures n >= 1
    ensures n == 1 || n * WordsPerPage <= |Words(text)| < (n + 1) * WordsPerPage
  {
    Max(1, |Words(text)| / WordsPerPage)
  }

  /** A join of non-empty parts is empty only when there are no parts. */
  lemma {:induction false} JoinEmpty(parts: seq<string>, sep: string)
    requires forall i :: 0 <= i < |parts| ==> parts[i] != []
    ensures Join(parts, sep) == [] <==> parts == []
  {
    if |parts| > 1 {
      assert Join(parts, sep) == parts[0] + sep + Join(parts[1..], sep);
    }
  }

  /** A join of parts that each start and end with a non-space is blank only when there
      are no parts. */
  lemma JoinedParagraphsBlank(parts: seq<string>)
    requires forall i :: 0 <= i < |parts| ==> parts[i] != [] && !IsSpace(parts[i][0])
    ensures AllSpace(Join(parts, ParagraphSeparator)) <==> parts == []
  {
    if parts != [] {
      if |parts| > 1 {
        assert Join(parts, ParagraphSeparator) == parts[0] + ParagraphSeparator + Join(parts[1..], ParagraphSeparator);
      }
      assert Join(parts, ParagraphSeparator)[0] == parts[0][0];
    }
  }

  /** The document `extract_text_from_pdf` returns for readable pages. */
  function PdfDocument(path: string, pages: seq<string>, now: nat): (d: Document)
    ensures d.metadata.numPages == |pages| && d.metadata.numChars == |d.text|
    ensures d.metadata.format == Pdf
  {
    var text := Join(NonBlankPages(pages), ParagraphSeparator);
    Document(text, DocMeta(Name(path), path, Pdf, |pages|, None, |text|, now, None, None, None))
  }

  /** The document the Word extractors build from readable paragraphs. */
  function WordDocument(path: string, format: Format, paras: seq<string>, warning: Option<string>, now: nat): (d: Document)
    ensures d.metadata.numParagraphs == Some(|StrippedParagraphs(paras)|)
    ensures d.metadata.numChars == |d.text| && d.metadata.numPages >= 1
    ensures d.metadata.format == format
  {
    var kept := StrippedParagraphs(paras);
    var text := Join(kept, ParagraphSeparator);
    Document(text, DocMeta(Name(path), path, format, ApproxPages(text), Some(|kept|), |text|, now, warning, None, None))
  }

  /** `extract_text_from_pdf`: the joined non-blank pages; None when reading fails. */
  method ExtractTextFromPdf(path: string, pages: Result<seq<string>, string>, now: nat) returns (r: Option<Document>)
    ensures pages.Failure? ==> r.None?
    ensures pages.Success? ==> r == Some(PdfDocument(path, pages.value, now))
  {
    if pages.Failure? {
      return None;
    }
    var textParts: seq<string> := [];
    for i := 0 to |pages.value|
      invariant textParts == NonBlankPages(pages.value[..i])
    {
      assert pages.value[..i + 1][..i] == pages.value[..i];
      var text := pages.value[i];
      if !AllSpace(text) {
        textParts := textParts + [text];
      }
    }
    assert pages.value[..|pages.value|] == pages.value;
    var fullText := Join(textParts, ParagraphSeparator);
    return Some(Document(fullText, DocMeta(Name(path), path, Pdf, |pages.value|, None, |fullText|, now, None, None, None)));
  }

  /** The paragraph loop shared by the two Word extractors. */
  method CollectParagraphs(paras: seq<string>) returns (kept: seq<string>)
    ensures kept == StrippedParagraphs(paras)
  {
    kept := [];
    for i := 0 to |paras|
      invariant kept == StrippedParagraphs(paras[..i])
    {
      assert paras[..i + 1][..i] == paras[..i];
      var text := Strip(paras[i]);
      if text != [] {
        kept := kept + [text];
      }
    }
    assert paras[..|paras|] == paras;
  }

  /** `extract_text_from_docx`: the joined stripped paragraphs; None when reading fails. */
  method ExtractTextFromDocx(path: string, paras: Result<seq<string>, string>, now: nat) returns (r: Option<Document>)
    ensures paras.Failure? ==> r.None?
    ensures paras.Success? ==> r == Some(WordDocument(path, Docx, paras.value, None, now))
  {
    if paras.Failure? {
      return None;
    }
    var paragraphs := CollectParagraphs(paras.value);
    var fullText := Join(paragraphs, ParagraphSeparator);
    var approxPages := Max(1, |Words(fullText)| / WordsPerPage);
    return Some(Document(fullText, DocMeta(Name(path), path, Docx, approxPages, Some(|paragraphs|), |fullText|, now, None, None, None)));
  }

  /** `extract_text_from_doc`: as for .docx, with a warning, and None also when no
      paragraph has text. */
  method ExtractTextFromDoc(path: string, paras: Result<seq<string>, string>, now: nat) returns (r: Option<Document>)
    ensures paras.Failure? ==> r.None?
    ensures paras.Success? ==>
      r == if StrippedParagraphs(paras.value) == [] then None
           else Some(WordDocument(path, Doc, paras.value, Some(DocWarning), now))
  {
    if paras.Failure? {
      return None;
    }
    var paragraphs := CollectParagraphs(paras.value);
    var fullText := Join(paragraphs, ParagraphSeparator);
    StrippedParagraphsStripped(paras.value);
    JoinedParagraphsBlank(paragraphs);
    if AllSpace(fullText) {
      return None;
    }
    var approxPages := Max(1, |Words(fullText)| / WordsPerPage);
    return Some(Document(fullText, DocMeta(Name(path), path, Doc, approxPages, Some(|paragraphs|), |fullText|, now, Some(DocWarning), None, None)));
  }

  /** What `extract_text_from_file` returns for a file. */
  function Extracted(path: string, content: FileContent, now: nat): Option<Document> {
    match FormatOf(path)
    case None => None
    case Some(Pdf) =>
      if content.pages.Failure? then None else Some(PdfDocument(path, content.pages.value, now))
    case Some(Docx) =>
      if content.paragraphs.Failure? then None else Some(WordDocument(path, Docx, content.paragraphs.value, None, now))
    case Some(Doc) =>
      if content.paragraphs.Failure? || StrippedParagraphs(content.paragraphs.value) == [] then None
      else Some(WordDocument(path, Doc, content.paragraphs.value, Some(DocWarning), now))
  }

  /** A file yields a document only for the three extensions, and the document's format
      is the one its extension names. */
  lemma ExtractedFormat(path: string, content: FileContent, now: nat)
    ensures Extracted(path, content, now).Some? ==> FormatOf(path) == Some(Extracted(path, content, now).value.metadata.format)
  {
  }

  /** `extract_text_from_file`: dispatch on the lower-cased suffix. */
  method ExtractTextFromFile(path: string, content: FileContent, now: nat) returns (r: Option<Document>)
    ensures r == Extracted(path, content, now)
  {
    var extension := Extension(path);
    if extension == ".pdf" {
      r := ExtractTextFromPdf(path, content.pages, now);
    } else if extension == ".docx" {
      r := ExtractTextFromDocx(path, content.paragraphs, now);
    } else if extension == ".doc" {
      r := ExtractTextFromDoc(path, content.paragraphs, now);
    } else {
      r := None;
    }
  }

  // ---------------------------------------------------------------------------
  // extract_all_documents

  /** An entry `rglob("*")` yields under a category folder. */
  datatype FileEntry = FileEntry(path: string, relativePath: string, isFile: bool, content: FileContent)

  datatype Stats = Stats(pdf: nat, docx: nat, doc: nat, failed: nat)

  /** The files kept by the filter: regular files with one of the three extensions. */
  function DocumentFiles(entries: seq<FileEntry>): (files: seq<FileEntry>)
    ensures |files| <= |entries|
    ensures forall i :: 0 <= i < |files| ==> files[i].isFile && IsDocumentFile(files[i].path)
  {
    if entries == [] then []
    else
      var init := DocumentFiles(entries[..|entries| - 1]);
      var e := entries[|entries| - 1];
      if e.isFile && IsDocumentFile(e.path) then init + [e] else init
  }

  /** Every kept entry is one of the entries. */
  lemma {:induction false} DocumentFilesFrom(entries: seq<FileEntry>)
    ensures forall f :: f in DocumentFiles(entries) ==> f in entries
  {
    if entries != [] {
      var front := entries[..|entries| - 1];
      DocumentFilesFrom(front);
      assert forall f :: f in front ==> f in entries;
    }
  }

  /** Every regular file with one of the three extensions is kept. */
  lemma {:induction false} DocumentFilesKeep(entries: seq<FileEntry>)
    ensures forall e :: e in entries && e.isFile && IsDocumentFile(e.path) ==> e in DocumentFiles(entries)
  {
    if entries != [] {
      var front := entries[..|entries| - 1];
      DocumentFilesKeep(front);
      assert forall e :: e in entries ==> e in front || e == entries[|entries| - 1];
    }
  }

  function Tag(d: Document, category: string, relativePath: string): Document {
    d.(metadata := d.metadata.(category := Some(category), relativePath := Some(relativePath)))
  }

  /** The documents of one folder: each file's extraction, tagged, failures dropped. */
  function FolderDocuments(category: string, files: seq<FileEntry>, now: nat): seq<Document> {
    if files == [] then []
    else
      var init := FolderDocuments(category, files[..|files| - 1], now);
      var f := files[|files| - 1];
      var r := Extracted(f.path, f.content, now);
      if r.Some? then init + [Tag(r.value, category, f.relativePath)] else init
  }

  /** The files of the visited folders, in visiting order. */
  function FilesOf(categories: seq<string>, tree: map<string, seq<FileEntry>>): seq<FileEntry> {
    if categories == [] then []
    else
      var c := categories[|categories| - 1];
      FilesOf(categories[..|categories| - 1], tree) + (if c in tree then DocumentFiles(tree[c]) else [])
  }

  /** The documents of the visited folders, in visiting order. */
  function AllDocuments(categories: seq<string>, tree: map<string, seq<FileEntry>>, now: nat): seq<Document> {
    if categories == [] then []
    else
      var c := categories[|categories| - 1];
      AllDocuments(categories[..|categories| - 1], tree, now)
      + (if c in tree then FolderDocuments(c, DocumentFiles(tree[c]), now) else [])
  }

  function CountFormat(docs: seq<Document>, format: Format): nat {
    if docs == [] then 0
    else CountFormat(docs[..|docs| - 1], format) + (if docs[|docs| - 1].metadata.format == format then 1 else 0)
  }

  /** A folder gives at most one document per file, and each carries the folder's
      category. */
  lemma {:induction false} FolderDocumentsShape(category: string, files: seq<FileEntry>, now: nat)
    ensures var docs := FolderDocuments(category, files, now);
      |docs| <= |files| && forall i :: 0 <= i < |docs| ==> docs[i].metadata.category == Some(category)
  {
    if files != [] {
      var init := files[..|files| - 1];
      FolderDocumentsShape(category, init, now);
      var f := files[|files| - 1];
      FolderLast(category, files, now, Extracted(f.path, f.content, now));
    }
  }

  lemma FolderLast(category: string, files: seq<FileEntry>, now: nat, r: Option<Document>)
    requires files != [] && r == Extracted(files[|files| - 1].path, files[|files| - 1].content, now)
    ensures var prev := FolderDocuments(category, files[..|files| - 1], now);
      FolderDocuments(category, files, now) == if r.Some? then prev + [Tag(r.value, category, files[|files| - 1].relativePath)] else prev
  {
  }

  lemma CountFormatAppend(a: seq<Document>, b: seq<Document>, format: Format)
    ensures CountFormat(a + b, format) == CountFormat(a, format) + CountFormat(b, format)
    decreases |b|
  {
    if b == [] {
      assert a + b == a;
    } else {
      assert (a + b)[..|a + b| - 1] == a + b[..|b| - 1];
      assert (a + b)[|a + b| - 1] == b[|b| - 1];
      CountFormatAppend(a, b[..|b| - 1], format);
    }
  }

  /** Every document has one of the three formats. */
  lemma {:induction false} CountFormatTotal(docs: seq<Document>)
    ensures CountFormat(docs, Pdf) + CountFormat(docs, Docx) + CountFormat(docs, Doc) == |docs|
  {
    if docs != [] {
      CountFormatTotal(docs[..|docs| - 1]);
    }
  }

  /** `stats[format_type] += 1`. */
  function Counted(stats: Stats, format: Format): Stats {
    match format
    case Pdf => stats.(pdf := stats.pdf + 1)
    case Docx => stats.(docx := stats.docx + 1)
    case Doc => stats.(doc := stats.doc + 1)
  }

  /** Counting a kept document keeps each counter equal to the number of documents of
      its format. */
  lemma TallyKept(stats: Stats, docs: seq<Document>, d: Document)
    requires stats.pdf == CountFormat(docs, Pdf) && stats.docx == CountFormat(docs, Docx) && stats.doc == CountFormat(docs, Doc)
    ensures var s := Counted(stats, d.metadata.format);
      s.pdf == CountFormat(docs + [d], Pdf) && s.docx == CountFormat(docs + [d], Docx) && s.doc == CountFormat(docs + [d], Doc)
    ensures var s := Counted(stats, d.metadata.format);
      s.pdf + s.docx + s.doc == stats.pdf + stats.docx + stats.doc + 1 && s.failed == stats.failed
  {
    CountFormatAppend(docs, [d], Pdf);
    CountFormatAppend(docs, [d], Docx);
    CountFormatAppend(docs, [d], Doc);
  }

  /** Every document carries one of `categories` as its category. */
  predicate TaggedWith(docs: seq<Document>, categories: seq<string>) {
    forall i :: 0 <= i < |docs| ==> docs[i].metadata.category.Some? && docs[i].metadata.category.value in categories
  }

  lemma TaggedAppend(docs: seq<Document>, d: Document, categories: seq<string>)
    requires TaggedWith(docs, categories)
    requires d.metadata.category.Some? && d.metadata.category.value in categories
    ensures TaggedWith(docs + [d], categories)
  {
  }

  lemma FolderStepKept(category: string, files: seq<FileEntry>, j: nat, now: nat, d: Document)
    requires j < |files| && Extracted(files[j].path, files[j].content, now) == Some(d)
    ensures FolderDocuments(category, files[..j + 1], now)
         == FolderDocuments(category, files[..j], now) + [Tag(d, category, files[j].relativePath)]
  {
    PrefixStep(files, j);
  }

  lemma FolderStepFailed(category: string, files: seq<FileEntry>, j: nat, now: nat)
    requires j < |files| && Extracted(files[j].path, files[j].content, now).None?
    ensures FolderDocuments(category, files[..j + 1], now) == FolderDocuments(category, files[..j], now)
  {
    PrefixStep(files, j);
  }

  lemma TaggedFolder(docs: seq<Document>, category: string, files: seq<FileEntry>, now: nat, categories: seq<string>)
    requires TaggedWith(docs, categories) && category in categories
    ensures TaggedWith(docs + FolderDocuments(category, files, now), categories)
  {
    FolderDocumentsShape(category, files, now);
  }

  lemma TaggedWiden(docs: seq<Document>, categories: seq<string>, k: nat)
    requires k < |categories| && TaggedWith(docs, categories[..k])
    ensures TaggedWith(docs, categories[..k + 1])
  {
    assert forall c :: c in categories[..k] ==> c in categories[..k + 1];
  }

  /** The loop of `extract_all_documents` over one folder's document files: the
      folder's documents are appended in order and each file is counted once, under
      its format when extracted and under `failed` otherwise. */
  method ExtractFolder(category: string, documentFiles: seq<FileEntry>, now: nat, before: seq<Document>, counts: Stats)
    returns (allDocuments: seq<Document>, stats: Stats)
    requires counts.pdf == CountFormat(before, Pdf) && counts.docx == CountFormat(before, Docx) && counts.doc == CountFormat(before, Doc)
    ensures allDocuments == before + FolderDocuments(category, documentFiles, now)
    ensures stats.pdf == CountFormat(allDocuments, Pdf) && stats.docx == CountFormat(allDocuments, Docx) && stats.doc == CountFormat(allDocuments, Doc)
    ensures stats.failed + |allDocuments| == counts.failed + |before| + |documentFiles|
  {
    allDocuments := before;
    stats := counts;
    ghost var folderDocs: seq<Document> := [];
    for j := 0 to |documentFiles|
      invariant folderDocs == FolderDocuments(category, documentFiles[..j], now)
      invariant allDocuments == before + folderDocs
      invariant stats.pdf == CountFormat(allDocuments, Pdf)
      invariant stats.docx == CountFormat(allDocuments, Docx)
      invariant stats.doc == CountFormat(allDocuments, Doc)
      invariant stats.failed + |allDocuments| == counts.failed + |before| + j
    {
      var file := documentFiles[j];
      var result := ExtractTextFromFile(file.path, file.content, now);
      if result.Some? {
        FolderStepKept(category, documentFiles, j, now, result.value);
        var tagged := Tag(result.value, category, file.relativePath);
        TallyKept(stats, allDocuments, tagged);
        AppendOne(before, folderDocs, tagged);
        folderDocs := folderDocs + [tagged];
        allDocuments := allDocuments + [tagged];
        stats := Counted(stats, tagged.metadata.format);
      } else {
        FolderStepFailed(category, documentFiles, j, now);
        stats := stats.(failed := stats.failed + 1);
      }
    }
    FullSlice(documentFiles);
  }

  lemma AppendOne<T>(a: seq<T>, b: seq<T>, x: T)
    ensures a + b + [x] == a + (b + [x])
  {
  }

  /** The folder loop of `extract_all_documents` over the folders `categories`.
      Folders are visited in order, missing ones skipped; every
      document file of a visited folder is counted once, under its format when it is
      extracted and under `failed` otherwise; every kept document carries its folder's
      category. `stats` are the counters the run reports. */
  method ExtractCategories(categories: seq<string>, tree: map<string, seq<FileEntry>>, now: nat)
    returns (allDocuments: seq<Document>, stats: Stats)
    ensures allDocuments == AllDocuments(categories, tree, now)
    ensures stats.pdf == CountFormat(allDocuments, Pdf)
    ensures stats.docx == CountFormat(allDocuments, Docx)
    ensures stats.doc == CountFormat(allDocuments, Doc)
    ensures stats.pdf + stats.docx + stats.doc == |allDocuments|
    ensures stats.pdf + stats.docx + stats.doc + stats.failed == |FilesOf(categories, tree)|
    ensures TaggedWith(allDocuments, categories)
  {
    allDocuments := [];
    stats := Stats(0, 0, 0, 0);
    for k := 0 to |categories|
      invariant allDocuments == AllDocuments(categories[..k], tree, now)
      invariant stats.pdf == CountFormat(allDocuments, Pdf)
      invariant stats.docx == CountFormat(allDocuments, Docx)
      invariant stats.doc == CountFormat(allDocuments, Doc)
      invariant stats.pdf + stats.docx + stats.doc == |allDocuments|
      invariant stats.pdf + stats.docx + stats.doc + stats.failed == |FilesOf(categories[..k], tree)|
      invariant TaggedWith(allDocuments, categories[..k])
    {
      var category := categories[k];
      PrefixStep(categories, k);
      TaggedWiden(allDocuments, categories, k);
      if category !in tree {
        continue;
      }
      var documentFiles := DocumentFiles(tree[category]);
      TaggedFolder(allDocuments, category, documentFiles, now, categories[..k + 1]);
      allDocuments, stats := ExtractFolder(category, documentFiles, now, allDocuments, stats);
      CountFormatTotal(allDocuments);
    }
    FullSlice(categories);
  }

  /** `extract_all_documents`: the five category folders of data/raw, in their fixed
      order. `tree` maps each existing folder to the entries `rglob("*")` yields. */
  method ExtractAllDocuments(tree: map<string, seq<FileEntry>>, now: nat) returns (allDocuments: seq<Document>, stats: Stats)
    ensures allDocuments == AllDocuments(CategoryFolders, tree, now)
    ensures stats.pdf == CountFormat(allDocuments, Pdf)
    ensures stats.docx == CountFormat(allDocuments, Docx)
    ensures stats.doc == CountFormat(allDocuments, Doc)
    ensures stats.pdf + stats.docx + stats.doc + stats.failed == |FilesOf(CategoryFolders, tree)|
    ensures TaggedWith(allDocuments, CategoryFolders)
  {
    allDocuments, stats := ExtractCategories(CategoryFolders, tree, now);
  }
}
