/** backend/app/models/schemas.py: the request and response models of the API,
    with their field bounds and defaults. A payload gives each field as absent,
    JSON `null`, or a value of the declared type; parsing collects one error per
    offending field, in declaration order, or builds the model with its defaults. */
module Schemas {
  import opened Wrappers

  datatype Field<+T> = Absent | Null | Given(value: T)

  datatype FieldError = FieldError(field: string, kind: string)

  /** A required field: it must be given. */
  function RequiredErrors<T>(name: string, f: Field<T>, typeKind: string): (es: seq<FieldError>)
    ensures es == [] <==> f.Given?
  {
    match f
    case Absent => [FieldError(name, "missing")]
    case Null => [FieldError(name, typeKind)]
    case Given(_) => []
  }

  /** A field with a default that is not `Optional`: absent is allowed, `null` is not. */
  function NotNullErrors<T>(name: string, f: Field<T>, typeKind: string): (es: seq<FieldError>)
    ensures es == [] <==> !f.Null?
  {
    if f.Null? then [FieldError(name, typeKind)] else []
  }

  /** `min_length` / `max_length` on a string field that is given. */
  function LengthErrors(name: string, f: Field<string>, min: nat, max: nat): (es: seq<FieldError>)
    ensures es == [] <==> (f.Given? ==> min <= |f.value| <= max)
  {
    if f.Given? && |f.value| < min then [FieldError(name, "string_too_short")]
    else if f.Given? && |f.value| > max then [FieldError(name, "string_too_long")]
    else []
  }

  /** `ge` / `le` on an integer field that is given. */
  function RangeErrors(name: string, f: Field<int>, lo: int, hi: int): (es: seq<FieldError>)
    ensures es == [] <==> (f.Given? ==> lo <= f.value <= hi)
  {
    if f.Given? && f.value < lo then [FieldError(name, "greater_than_equal")]
    else if f.Given? && f.value > hi then [FieldError(name, "less_than_equal")]
    else []
  }

  function OptionOf<T>(f: Field<T>): Option<T> {
    if f.Given? then Some(f.value) else None
  }

  function FieldOf<T>(o: Option<T>): Field<T> {
    if o.Some? then Given(o.value) else Null
  }

  // ---------------------------------------------------------------------------
  // QuestionRequest

  datatype QuestionPayload = QuestionPayload(
    question: Field<string>, sessionId: Field<string>, nResults: Field<int>,
    useHistory: Field<bool>, categoryFilter: Field<string>)

  datatype QuestionRequest = QuestionRequest(
    question: string, sessionId: Option<string>, nResults: int,
    useHistory: bool, categoryFilter: Option<string>)

  const QuestionMinLength: nat := 3
  const QuestionMaxLength: nat := 500
  const DefaultNResults: int := 3
  const MinNResults: int := 1
  const MaxNResults: int := 10

  /** The bounds a question request must meet. */
  predicate ValidQuestionPayload(p: QuestionPayload) {
    && p.question.Given? && QuestionMinLength <= |p.question.value| <= QuestionMaxLength
    && !p.nResults.Null? && (p.nResults.Given? ==> MinNResults <= p.nResults.value <= MaxNResults)
    && !p.useHistory.Null?
  }

  predicate ValidQuestionRequest(r: QuestionRequest) {
    && QuestionMinLength <= |r.question| <= QuestionMaxLength
    && MinNResults <= r.nResults <= MaxNResults
  }

  function QuestionErrors(p: QuestionPayload): seq<FieldError> {
    RequiredErrors("question", p.question, "string_type")
    + LengthErrors("question", p.question, QuestionMinLength, QuestionMaxLength)
    + NotNullErrors("n_results", p.nResults, "int_type")
    + RangeErrors("n_results", p.nResults, MinNResults, MaxNResults)
    + NotNullErrors("use_history", p.useHistory, "bool_type")
  }

  /** Validation of `QuestionRequest`: it succeeds exactly on payloads within bounds,
      and then fills `session_id` and `category_filter` with None, `n_results` with 3 and
      `use_history` with true when they are absent. */
  function ParseQuestionRequest(p: QuestionPayload): (r: Result<QuestionRequest, seq<FieldError>>)
    ensures r.Success? <==> ValidQuestionPayload(p)
    ensures r.Success? ==> ValidQuestionRequest(r.value) && r.value.question == p.question.value
    ensures r.Success? ==> r.value.nResults == (if p.nResults.Given? then p.nResults.value else DefaultNResults)
    ensures r.Success? ==> r.value.useHistory == (if p.useHistory.Given? then p.useHistory.value else true)
    ensures r.Success? ==> r.value.sessionId == OptionOf(p.sessionId) && r.value.categoryFilter == OptionOf(p.categoryFilter)
    ensures r.Failure? ==> r.error != []
  {
    var errors := QuestionErrors(p);
    if errors != [] then Failure(errors)
    else
      Success(QuestionRequest(
        p.question.value,
        OptionOf(p.sessionId),
        if p.nResults.Given? then p.nResults.value else DefaultNResults,
        if p.useHistory.Given? then p.useHistory.value else true,
        OptionOf(p.categoryFilter)))
  }

  function QuestionPayloadOf(r: QuestionRequest): QuestionPayload {
    QuestionPayload(Given(r.question), FieldOf(r.sessionId), Given(r.nResults),
                    Given(r.useHistory), FieldOf(r.categoryFilter))
  }

  /** Serialising a valid request and validating it again gives the same request. */
  lemma QuestionRequestRoundTrip(r: QuestionRequest)
    requires ValidQuestionRequest(r)
    ensures ParseQuestionRequest(QuestionPayloadOf(r)) == Success(r)
  {
    var p := QuestionPayloadOf(r);
    assert OptionOf(p.sessionId) == r.sessionId;
    assert OptionOf(p.categoryFilter) == r.categoryFilter;
  }

  /** A payload that gives only a valid question gets every default. */
  lemma QuestionRequestDefaults(q: string)
    requires QuestionMinLength <= |q| <= QuestionMaxLength
    ensures ParseQuestionRequest(QuestionPayload(Given(q), Absent, Absent, Absent, Absent))
         == Success(QuestionRequest(q, None, 3, true, None))
  {
  }

  // ---------------------------------------------------------------------------
  // FeedbackRequest

  datatype FeedbackPayload = FeedbackPayload(questionId: Field<string>, rating: Field<int>, comment: Field<string>)

  datatype FeedbackRequest = FeedbackRequest(questionId: string, rating: int, comment: Option<string>)

  const CommentMaxLength: nat := 500

  predicate ValidFeedbackPayload(p: FeedbackPayload) {
    && p.questionId.Given?
    && p.rating.Given? && (p.rating.value == -1 || p.rating.value == 0 || p.rating.value == 1)
    && (p.comment.Given? ==> |p.comment.value| <= CommentMaxLength)
  }

  function FeedbackErrors(p: FeedbackPayload): seq<FieldError> {
    RequiredErrors("question_id", p.questionId, "string_type")
    + RequiredErrors("rating", p.rating, "int_type")
    + RangeErrors("rating", p.rating, -1, 1)
    + LengthErrors("comment", p.comment, 0, CommentMaxLength)
  }

  /** Validation of `FeedbackRequest`: the rating must be -1, 0 or 1, and the comment
      absent, null or at most 500 characters long. */
  function ParseFeedbackRequest(p: FeedbackPayload): (r: Result<FeedbackRequest, seq<FieldError>>)
    ensures r.Success? <==> ValidFeedbackPayload(p)
    ensures r.Success? ==> r.value.questionId == p.questionId.value && r.value.rating == p.rating.value
    ensures r.Success? ==> r.value.comment == OptionOf(p.comment)
    ensures r.Failure? ==> r.error != []
  {
    var errors := FeedbackErrors(p);
    if errors != [] then Failure(errors)
    else Success(FeedbackRequest(p.questionId.value, p.rating.value, OptionOf(p.comment)))
  }

  /** Serialising a feedback with an allowed rating and comment and validating it again
      gives the same feedback. */
  lemma FeedbackRequestRoundTrip(r: FeedbackRequest)
    requires -1 <= r.rating <= 1
    requires r.comment.Some? ==> |r.comment.value| <= CommentMaxLength
    ensures ParseFeedbackRequest(FeedbackPayload(Given(r.questionId), Given(r.rating), FieldOf(r.comment))) == Success(r)
  {
    assert OptionOf(FieldOf(r.comment)) == r.comment;
  }

  // ---------------------------------------------------------------------------
  // Source and QuestionResponse

  datatype SourcePayload = SourcePayload(source: Field<string>, category: Field<string>, score: Field<real>, excerpt: Field<string>)

  /** A cited source; `excerpt` is None unless given. */
  datatype Source = Source(source: string, category: string, score: real, excerpt: Option<string>)

  function SourceErrors(p: SourcePayload): seq<FieldError> {
    RequiredErrors("source", p.source, "string_type")
    + RequiredErrors("category", p.category, "string_type")
    + RequiredErrors("score", p.score, "float_type")
  }

  /** Validation of `Source`: source, category and score are required; the excerpt
      defaults to None. */
  function ParseSource(p: SourcePayload): (r: Result<Source, seq<FieldError>>)
    ensures r.Success? <==> p.source.Given? && p.category.Given? && p.score.Given?
    ensures r.Success? ==> r.value == Source(p.source.value, p.category.value, p.score.value, OptionOf(p.excerpt))
    ensures r.Failure? ==> r.error != []
  {
    var errors := SourceErrors(p);
    if errors != [] then Failure(errors)
    else Success(Source(p.source.value, p.category.value, p.score.value, OptionOf(p.excerpt)))
  }

  /** The values `QuestionResponse.metadata` holds; a timestamp is a clock tick. */
  datatype MetaValue = Text(text: string) | Count(count: int) | Flag(flag: bool) | Stamp(tick: nat)

  datatype ResponsePayload = ResponsePayload(
    questionId: Field<string>, question: Field<string>, answer: Field<string>,
    sources: Field<seq<Source>>, sessionId: Field<string>, reformulatedQuery: Field<string>,
    metadata: Field<map<string, MetaValue>>)

  datatype QuestionResponse = QuestionResponse(
    questionId: string, question: string, answer: string, sources: seq<Source>,
    sessionId: Option<string>, reformulatedQuery: Option<string>,
    metadata: map<string, MetaValue>)

  function ResponseErrors(p: ResponsePayload): seq<FieldError> {
    RequiredErrors("question_id", p.questionId, "string_type")
    + RequiredErrors("question", p.question, "string_type")
    + RequiredErrors("answer", p.answer, "string_type")
    + RequiredErrors("sources", p.sources, "list_type")
    + NotNullErrors("metadata", p.metadata, "dict_type")
  }

  /** Validation of `QuestionResponse`: the four leading fields are required;
      `session_id` and `reformulated_query` default to None and `metadata` to `{}`. */
  function ParseQuestionResponse(p: ResponsePayload): (r: Result<QuestionResponse, seq<FieldError>>)
    ensures r.Success? <==> p.questionId.Given? && p.question.Given? && p.answer.Given? && p.sources.Given? && !p.metadata.Null?
    ensures r.Success? ==> r.value.questionId == p.questionId.value && r.value.question == p.question.value
    ensures r.Success? ==> r.value.sources == p.sources.value && r.value.answer == p.answer.value
    ensures r.Success? ==> r.value.sessionId == OptionOf(p.sessionId) && r.value.reformulatedQuery == OptionOf(p.reformulatedQuery)
    ensures r.Success? ==> r.value.metadata == (if p.metadata.Given? then p.metadata.value else map[])
    ensures r.Failure? ==> r.error != []
  {
    var errors := ResponseErrors(p);
    if errors != [] then Failure(errors)
    else
      Success(QuestionResponse(
        p.questionId.value, p.question.value, p.answer.value, p.sources.value,
        OptionOf(p.sessionId), OptionOf(p.reformulatedQuery),
        if p.metadata.Given? then p.metadata.value else map[]))
  }

  /** `Source(source=..., category=..., score=...)` as routes.py builds it. */
  function NewSource(source: string, category: string, score: real): (s: Source)
    ensures ParseSource(SourcePayload(Given(source), Given(category), Given(score), Absent)) == Success(s)
  {
    Source(source, category, score, None)
  }
}
