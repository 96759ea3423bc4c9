/** backend/app/services/rag_service.py: retrieval result formatting, the prompt
    built from the retrieved chunks, the answer fallback, and the `ask` pipeline.
    The embedding model, the vector index and the chat-completion endpoint are
    function parameters. */
module Rag {
  import opened Wrappers
  import opened Strings
  import Chunking

  type Embedding = seq<real>

  /** `collection.query(...)` for one query: the `[0]` rows of documents, metadatas
      and distances. */
  datatype QueryResult = QueryResult(documents: seq<string>, metadatas: seq<Chunking.ChunkMeta>, distances: seq<real>)

  /** One formatted retrieval hit: `{'text', 'metadata', 'score'}`. */
  datatype RetrievedDoc = RetrievedDoc(text: string, metadata: Chunking.ChunkMeta, score: real)

  /** One entry of `ask`'s `sources`. */
  datatype SourceView = SourceView(source: string, category: string, score: real, excerpt: string)

  datatype AskResult = AskResult(question: string, answer: string, sources: seq<SourceView>,
                                 nDocumentsUsed: nat, model: string)

  datatype ChatMessage = ChatMessage(role: string, content: string)

  datatype ChatRequest = ChatRequest(messages: seq<ChatMessage>, model: string, maxTokens: int, temperature: real)

  /** What `chat_completion` gives back: the `message.content` of each choice
      (None when the content is null), or the message of the exception it raised. */
  datatype Completion = Completed(choices: seq<Option<string>>) | Raised(message: string)

  const LlmModel: string := "mistralai/Mistral-7B-Instruct-v0.2"
  const DefaultMaxTokens: int := 500
  const DefaultTemperature: real := 0.7
  const ErrorPrefix: string := "Erreur lors de la génération : "
  const IndexErrorMessage: string := "list index out of range"
  const NoneStripMessage: string := "'NoneType' object has no attribute 'strip'"
  const ExcerptLength: nat := 200

  function Abs(x: real): real {
    if x < 0.0 then -x else x
  }

  // ---------------------------------------------------------------------------
  // retrieve_documents

  /** `1 / (1 + abs(distance))`: a score in (0, 1], equal to 1 only at distance 0. */
  function Score(distance: real): (s: real)
    ensures 0.0 < s <= 1.0
    ensures s == 1.0 <==> distance == 0.0
  {
    1.0 / (1.0 + Abs(distance))
  }

  /** The score strictly decreases as the distance grows in absolute value. */
  lemma ScoreDecreasing(d1: real, d2: real)
    requires Abs(d1) < Abs(d2)
    ensures Score(d2) < Score(d1)
  {
    var a, b := 1.0 + Abs(d1), 1.0 + Abs(d2);
    var x, y := 1.0 / a, 1.0 / b;
    assert x * a == 1.0 && y * b == 1.0;
    assert 0.0 < y;
    assert y * a < y * b;
    if x <= y {
      MulRightMono(x, y, a);
      assert false;
    }
  }

  lemma MulRightMono(x: real, y: real, a: real)
    requires x <= y && 0.0 < a
    ensures x * a <= y * a
  {
  }

  /** The hits of a query result: `zip` of the three rows (as long as the shortest),
      in the index's order. */
  function Hits(res: QueryResult): (docs: seq<RetrievedDoc>)
    ensures |docs| == Min(|res.documents|, Min(|res.metadatas|, |res.distances|))
    ensures forall i :: 0 <= i < |docs| ==>
      docs[i] == RetrievedDoc(res.documents[i], res.metadatas[i], Score(res.distances[i]))
  {
    var n := Min(|res.documents|, Min(|res.metadatas|, |res.distances|));
    seq(n, i requires 0 <= i < n => RetrievedDoc(res.documents[i], res.metadatas[i], Score(res.distances[i])))
  }

  /** What `retrieve_documents` gives: the hits of the search for the query's
      embedding, or the message of the exception the embedding model or the index
      raised, which `retrieve_documents` does not catch. */
  function Retrieved(query: string, nResults: int, encode: string -> Result<Embedding, string>,
                     search: (Embedding, int) -> Result<QueryResult, string>): Result<seq<RetrievedDoc>, string> {
    match encode(query)
    case Failure(e) => Failure(e)
    case Success(v) =>
      match search(v, nResults)
      case Failure(e) => Failure(e)
      case Success(res) => Success(Hits(res))
  }

  /** `retrieve_documents`. The category filter is accepted and not passed to the
      query, so the result never depends on it. A failing embedding or query
      propagates. */
  method RetrieveDocuments(query: string, nResults: int, categoryFilter: Option<string>,
                           encode: string -> Result<Embedding, string>,
                           search: (Embedding, int) -> Result<QueryResult, string>)
    returns (documents: Result<seq<RetrievedDoc>, string>)
    ensures encode(query).Failure? ==> documents == Failure(encode(query).error)
    ensures encode(query).Success? && search(encode(query).value, nResults).Failure? ==>
      documents == Failure(search(encode(query).value, nResults).error)
    ensures encode(query).Success? && search(encode(query).value, nResults).Success? ==>
      documents == Success(Hits(search(encode(query).value, nResults).value))
    ensures documents == Retrieved(query, nResults, encode, search)
  {
    var queryEmbedding := encode(query);
    if queryEmbedding.Failure? {
      return Failure(queryEmbedding.error);
    }
    var queried := search(queryEmbedding.value, nResults);
    if queried.Failure? {
      return Failure(queried.error);
    }
    var results := queried.value;
    var n := Min(|results.documents|, Min(|results.metadatas|, |results.distances|));
    var hits: seq<RetrievedDoc> := [];
    for i := 0 to n
      invariant |hits| == i
      invariant forall k :: 0 <= k < i ==>
        hits[k] == RetrievedDoc(results.documents[k], results.metadatas[k], Score(results.distances[k]))
    {
      hits := hits + [RetrievedDoc(results.documents[i], results.metadatas[i], Score(results.distances[i]))];
    }
    assert hits == Hits(results);
    documents := Success(hits);
  }

  /** The documents and scores of a lookup, or its failure, do not depend on the
      category filter. */
  method RetrieveIgnoresFilter(query: string, nResults: int, f1: Option<string>, f2: Option<string>,
                               encode: string -> Result<Embedding, string>,
                               search: (Embedding, int) -> Result<QueryResult, string>)
    returns (docs1: Result<seq<RetrievedDoc>, string>, docs2: Result<seq<RetrievedDoc>, string>)
    ensures docs1 == docs2
  {
    docs1 := RetrieveDocuments(query, nResults, f1, encode, search);
    docs2 := RetrieveDocuments(query, nResults, f2, encode, search);
  }

  // ---------------------------------------------------------------------------
  // generate_prompt

  /** `"-" * 60`. */
  const Separator: string := "------------------------------------------------------------"

  /** The context block of document number `i` (counting from 1). */
  function Block(i: nat, doc: RetrievedDoc): (b: string)
    ensures StartsWith(b, "\n[Document " + NatToString(i) + "]\n")
  {
    "\n[Document " + NatToString(i) + "]\n"
    + "Source: " + doc.metadata.source + "\n"
    + "Catégorie: " + doc.metadata.category + "\n"
    + "Contenu: " + doc.text + "\n"
    + Separator + "\n"
  }

  /** The context: the blocks of the documents, numbered from 1, in order. */
  function Context(docs: seq<RetrievedDoc>): string {
    if docs == [] then "" else Context(docs[..|docs| - 1]) + Block(|docs|, docs[|docs| - 1])
  }

  const PromptHead: string := "Tu es un assistant virtuel pour les étudiants de l'Université Mohammed V de Rabat (UM5).\n        Ton rôle :\n        - Répondre aux questions sur les emplois du temps, règlements, procédures et FAQ\n        - Utiliser UNIQUEMENT les informations fournies dans le contexte\n        - Citer les sources de tes informations\n        - Être précis, bienveillant et professionnel\n        Contexte disponible :\n        "
  const QuestionLabel: string := "\n        Question de l'étudiant : "
  const PromptTail: string := "\n        Instructions pour ta réponse :\n        1. Réponds en te basant UNIQUEMENT sur le contexte ci-dessus\n        2. Si l'information n'est pas dans le contexte, dis \"Je n'ai pas cette information dans ma base de connaissances\"\n        3. Cite la source (nom du document) pour chaque information\n        4. Sois concis mais complet\n        5. Utilise un ton professionnel mais accessible\n        6. Si les questions sont poses en Francais, tu Dois repondre en Francais et non en Anglais.\n        7. Tu ne reponds en anglais que si on te pose des question en anglais sinon reponds en Francais\n        Réponse :"

  /** The fixed wording of the prompt around the context and the question. */
  datatype PromptTemplate = PromptTemplate(head: string, questionLabel: string, tail: string)

  /** The wording `generate_prompt` uses. The operations below take the template as a
      parameter, so that their proofs do not unfold these long literals. */
  const Prompt: PromptTemplate := PromptTemplate(PromptHead, QuestionLabel, PromptTail)

  /** The f-string of `generate_prompt`. */
  function PromptText(t: PromptTemplate, query: string, context: string): string {
    t.head + context + t.questionLabel + query + t.tail
  }

  /** `generate_prompt`: the context is accumulated block by block. */
  method GeneratePrompt(t: PromptTemplate, query: string, documents: seq<RetrievedDoc>) returns (prompt: string)
    ensures prompt == PromptText(t, query, Context(documents))
  {
    var context := "";
    for i := 0 to |documents|
      invariant context == Context(documents[..i])
    {
      assert documents[..i + 1][..i] == documents[..i];
      context := context + Block(i + 1, documents[i]);
    }
    assert documents[..|documents|] == documents;
    prompt := PromptText(t, query, context);
  }

  /** The context is empty exactly when there are no documents: every block starts
      with its header. */
  lemma EmptyContext(docs: seq<RetrievedDoc>)
    ensures Context(docs) == "" <==> docs == []
  {
    if docs != [] {
      var b := Block(|docs|, docs[|docs| - 1]);
      var header := "\n[Document " + NatToString(|docs|) + "]\n";
      assert b[..|header|] == header;
      assert b[0] == header[0];
      assert Context(docs) == Context(docs[..|docs| - 1]) + b;
      assert Context(docs)[|Context(docs[..|docs| - 1])|] == b[0];
    }
  }

  /** The context of the first `k` documents is a prefix of the whole context. */
  lemma {:induction false} ContextPrefix(docs: seq<RetrievedDoc>, k: nat)
    requires k <= |docs|
    ensures |Context(docs[..k])| <= |Context(docs)|
    ensures Context(docs)[..|Context(docs[..k])|] == Context(docs[..k])
    decreases |docs|
  {
    if k < |docs| {
      var init := docs[..|docs| - 1];
      assert init[..k] == docs[..k];
      ContextPrefix(init, k);
      assert Context(docs) == Context(init) + Block(|docs|, docs[|docs| - 1]);
    } else {
      assert docs[..k] == docs;
    }
  }

  /** Document `k` (0-based) has its block, numbered `k + 1`, right after the blocks
      of the documents before it: the blocks appear in document order. */
  lemma BlockInOrder(docs: seq<RetrievedDoc>, k: nat)
    requires k < |docs|
    ensures var start := |Context(docs[..k])|;
      start + |Block(k + 1, docs[k])| <= |Context(docs)| &&
      Context(docs)[start..start + |Block(k + 1, docs[k])|] == Block(k + 1, docs[k])
  {
    ContextPrefix(docs, k + 1);
    var pre := docs[..k + 1];
    assert pre[..k] == docs[..k];
    assert Context(pre) == Context(docs[..k]) + Block(k + 1, docs[k]);
  }

  /** The prompt holds the whole context and then, after the question label, the query
      verbatim. */
  lemma PromptContains(t: PromptTemplate, query: string, context: string)
    ensures var p := PromptText(t, query, context);
      var c0 := |t.head|;
      var q0 := c0 + |context| + |t.questionLabel|;
      q0 + |query| <= |p| &&
      p[c0..c0 + |context|] == context &&
      p[q0..q0 + |query|] == query
  {
    FivePieces(t.head, context, t.questionLabel, query, t.tail);
  }

  lemma FivePieces(h: string, c: string, l: string, q: string, t: string)
    ensures var p := h + c + l + q + t;
      |h| + |c| + |l| + |q| <= |p| &&
      p[|h|..|h| + |c|] == c &&
      p[|h| + |c| + |l|..|h| + |c| + |l| + |q|] == q
  {
    var p := h + c + l + q + t;
    assert p == (h + c) + (l + q + t);
    assert p[|h|..|h| + |c|] == c;
    assert p == (h + c + l) + q + t;
  }

  // ---------------------------------------------------------------------------
  // generate_answer

  /** The answer for a completion: the first choice's content, stripped. Any exception
      (raised by the call, an empty choice list, or a null content) becomes the error
      text instead of propagating. */
  function AnswerOf(c: Completion): (answer: string)
    ensures c.Raised? ==> answer == ErrorPrefix + c.message
    ensures c.Completed? && c.choices == [] ==> answer == ErrorPrefix + IndexErrorMessage
    ensures c.Completed? && c.choices != [] && c.choices[0].None? ==> answer == ErrorPrefix + NoneStripMessage
    ensures c.Completed? && c.choices != [] && c.choices[0].Some? ==>
      answer == Strip(c.choices[0].value) &&
      (answer == [] || (!IsSpace(answer[0]) && !IsSpace(answer[|answer| - 1])))
  {
    match c
    case Raised(message) => ErrorPrefix + message
    case Completed(choices) =>
      if choices == [] then ErrorPrefix + IndexErrorMessage
      else if choices[0].None? then ErrorPrefix + NoneStripMessage
      else Strip(choices[0].value)
  }

  /** The request `generate_answer` sends: one user message holding the prompt. */
  function AnswerRequest(prompt: string, maxTokens: int, temperature: real): (r: ChatRequest)
    ensures r.messages == [ChatMessage("user", prompt)] && r.model == LlmModel
  {
    ChatRequest([ChatMessage("user", prompt)], LlmModel, maxTokens, temperature)
  }

  /** `generate_answer`, with the endpoint as a parameter. */
  function GenerateAnswer(prompt: string, maxTokens: int, temperature: real, complete: ChatRequest -> Completion): string {
    AnswerOf(complete(AnswerRequest(prompt, maxTokens, temperature)))
  }

  /** The fallback hides the failure from the caller: a completion whose text is the
      error text cannot be told apart from a raised exception. */
  lemma FailureIndistinguishable(message: string)
    requires message != [] && !IsSpace(message[|message| - 1])
    ensures AnswerOf(Completed([Some(ErrorPrefix + message)])) == AnswerOf(Raised(message))
  {
    var t := ErrorPrefix + message;
    assert !IsSpace(t[0]) && t[|t| - 1] == message[|message| - 1];
    StripUnchanged(t);
  }

  /** A text that neither starts nor ends with whitespace is left alone by `strip`. */
  lemma StripUnchanged(t: string)
    requires t != [] && !IsSpace(t[0]) && !IsSpace(t[|t| - 1])
    ensures Strip(t) == t
  {
    assert StripLeft(t) == t;
    assert StripRight(t) == t;
  }

  // ---------------------------------------------------------------------------
  // ask

  /** `doc['text'][:200] + "..."`: the ellipsis is appended whatever the length. */
  function Excerpt(text: string): (e: string)
    ensures |e| == Min(|text|, ExcerptLength) + 3
    ensures e == text[..|e| - 3] + "..."
  {
    Take(text, ExcerptLength) + "..."
  }

  /** The `sources` of `ask`: one view per document, in order, copying source,
      category and score. */
  function SourceViews(docs: seq<RetrievedDoc>): (vs: seq<SourceView>)
    ensures |vs| == |docs|
    ensures forall i :: 0 <= i < |docs| ==>
      vs[i] == SourceView(docs[i].metadata.source, docs[i].metadata.category, docs[i].score, Excerpt(docs[i].text))
  {
    seq(|docs|, i requires 0 <= i < |docs| =>
      SourceView(docs[i].metadata.source, docs[i].metadata.category, docs[i].score, Excerpt(docs[i].text)))
  }

  /** `ask`: retrieval, prompt, answer and sources. The prompt is built with the
      template `t` (`Prompt` in the service) from the question as given, the question
      comes back unchanged and `n_documents_used` is the number of documents. Nothing
      in `ask` catches a failure of the retrieval, so it propagates. */
  method Ask(t: PromptTemplate, question: string, nResults: int, categoryFilter: Option<string>,
             encode: string -> Result<Embedding, string>, search: (Embedding, int) -> Result<QueryResult, string>,
             complete: ChatRequest -> Completion)
    returns (result: Result<AskResult, string>)
    ensures var r := Retrieved(question, nResults, encode, search);
      r.Failure? ==> result == Failure(r.error)
    ensures var r := Retrieved(question, nResults, encode, search);
      r.Success? ==>
        var docs := r.value;
        && result.Success?
        && result.value.question == question
        && result.value.answer == GenerateAnswer(PromptText(t, question, Context(docs)), DefaultMaxTokens, DefaultTemperature, complete)
        && result.value.sources == SourceViews(docs)
        && result.value.nDocumentsUsed == |docs| == |result.value.sources|
        && result.value.model == LlmModel
  {
    var retrieved := RetrieveDocuments(question, nResults, categoryFilter, encode, search);
    if retrieved.Failure? {
      return Failure(retrieved.error);
    }
    var documents := retrieved.value;
    var prompt := GeneratePrompt(t, question, documents);
    var answer := GenerateAnswer(prompt, DefaultMaxTokens, DefaultTemperature, complete);
    var sources := SourceViews(documents);
    result := Success(AskResult(question, answer, sources, |documents|, LlmModel));
  }
}
