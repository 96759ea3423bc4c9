/** backend/app/api/routes.py: the registry of RAG services per session, the order
    of the conversation-store writes in `ask_question`, the 404 rules of the history
    and conversation endpoints, and the fixed category list. A RAG service instance
    is an opaque token; `rag.ask` is a function parameter giving the dictionary it
    returns or the message of the exception it raises; the uuid4 hex strings a
    request draws and the clock reading are parameters. */
module Routes {
  import opened Wrappers
  import opened Strings
  import Schemas
  import Rag
  import Conversations
  import Parsing

  /** One `RAGService()` instance. */
  type Token = nat

  /** A handler's value, or the `HTTPException` it raises. */
  datatype Response<+T> = Ok(body: T) | HttpError(status: nat, detail: string)

  /** The uuid4 hex strings one `ask_question` request draws, in the roles they play:
      the conversation created for an unknown session, the conversations and message
      ids of the two `add_message` calls, and the question id. */
  datatype Draws = Draws(sessionConv: string, userConv: string, userMsg: string,
                         answerConv: string, answerMsg: string, question: string)

  const InternalError: nat := 500
  const NotFound: nat := 404
  const QuestionPrefix: string := "q_"

  /** Python truthiness of an optional string: None and "" are false. */
  predicate Truthy(s: Option<string>) {
    s.Some? && s.value != ""
  }

  /** `f"Erreur : {str(e)}"`. */
  function ErrorDetail(message: string): string {
    "Erreur : " + message
  }

  /** The `Source(source=..., category=..., score=...)` list built from `result['sources']`:
      one per view, in order, without the excerpt. */
  function FormatSources(views: seq<Rag.SourceView>): (sources: seq<Schemas.Source>)
    ensures |sources| == |views|
    ensures forall i :: 0 <= i < |views| ==>
      Schemas.ParseSource(Schemas.SourcePayload(Schemas.Given(views[i].source), Schemas.Given(views[i].category),
                                                Schemas.Given(views[i].score), Schemas.Absent))
      == Success(sources[i])
    ensures forall i :: 0 <= i < |views| ==> sources[i].excerpt.None?
  {
    seq(|views|, i requires 0 <= i < |views| => Schemas.NewSource(views[i].source, views[i].category, views[i].score))
  }

  /** The response metadata: the clock reading, the number of sources and the greeting
      flag, which the dictionary of `ask` does not carry and so defaults to false. */
  function ResponseMetadata(now: nat, sourceCount: nat): map<string, Schemas.MetaValue> {
    map["timestamp" := Schemas.Stamp(now), "n_documents_used" := Schemas.Count(sourceCount),
        "is_greeting" := Schemas.Flag(false)]
  }

  /** The `QuestionResponse` of a successful request. It is one the response model
      accepts, its id is "q_" and twelve hex digits, it reports as many documents used
      as it cites sources, and it has no reformulated query because the dictionary
      of `ask` has none. */
  function BuildResponse(questionHex: string, result: Rag.AskResult, sessionId: Option<string>, now: nat)
    : (r: Schemas.QuestionResponse)
    ensures Schemas.ParseQuestionResponse(Schemas.ResponsePayload(
              Schemas.Given(r.questionId), Schemas.Given(result.question), Schemas.Given(result.answer),
              Schemas.Given(FormatSources(result.sources)), Schemas.FieldOf(sessionId), Schemas.Absent,
              Schemas.Given(r.metadata))) == Success(r)
    ensures StartsWith(r.questionId, QuestionPrefix) && |r.questionId| == |QuestionPrefix| + Min(|questionHex|, 12)
    ensures r.sessionId == sessionId && r.reformulatedQuery.None?
    ensures "n_documents_used" in r.metadata && r.metadata["n_documents_used"] == Schemas.Count(|r.sources|)
    ensures |r.sources| == |result.sources|
  {
    var sources := FormatSources(result.sources);
    var id := QuestionPrefix + Take(questionHex, 12);
    assert id[..|QuestionPrefix|] == QuestionPrefix;
    assert Schemas.OptionOf(Schemas.FieldOf(sessionId)) == sessionId;
    Schemas.QuestionResponse(id, result.question, result.answer, sources, sessionId, None,
                             ResponseMetadata(now, |sources|))
  }

  function NotFoundSession(sessionId: string): string {
    "Session '" + sessionId + "' introuvable"
  }

  function NotFoundConversation(convId: string): string {
    "Conversation '" + convId + "' introuvable"
  }

  datatype HistoryItem = HistoryItem(question: string, answer: string, timestamp: nat)

  datatype HistoryResponse = HistoryResponse(sessionId: string, history: seq<HistoryItem>, count: nat)

  datatype Category = Category(id: string, name: string, description: string)

  /** The module-level state of routes.py, with the conversation manager it uses. */
  class Api {
    /** `sessions`: the service of each session id. */
    var sessions: map<string, Token>
    /** `rag_service`: the global service, once created. */
    var globalService: Option<Token>
    /** The token the next `RAGService()` gets. */
    var nextToken: Token
    const conversations: Conversations.ConversationManager

    constructor (manager: Conversations.ConversationManager)
      ensures sessions == map[] && globalService == None && nextToken == 0
      ensures conversations == manager
    {
      sessions := map[];
      globalService := None;
      nextToken := 0;
      conversations := manager;
    }

    /** Every service was created, and no two sessions, nor a session and the global
        service, share one. */
    predicate Valid()
      reads this
    {
      && (forall id :: id in sessions ==> sessions[id] < nextToken)
      && (globalService.Some? ==> globalService.value < nextToken)
      && (forall a, b :: a in sessions && b in sessions && a != b ==> sessions[a] != sessions[b])
      && (forall id :: id in sessions ==> globalService != Some(sessions[id]))
    }

    /** The service `get_rag_service(sessionId)` returns: the stored one, or the one it
        is about to create. */
    function ServiceFor(sessionId: Option<string>): Token
      reads this
    {
      if Truthy(sessionId) then
        (if sessionId.value in sessions then sessions[sessionId.value] else nextToken)
      else if globalService.Some? then globalService.value
      else nextToken
    }

    /** `get_rag_service`. A truthy session id gets its own service, created on first
        use, leaving the other sessions and the global service alone; otherwise the
        global service is returned, created on first use. */
    method GetRagService(sessionId: Option<string>) returns (rag: Token)
      modifies this
      ensures rag == old(ServiceFor(sessionId))
      ensures Truthy(sessionId) ==> sessions == old(sessions)[sessionId.value := rag] && globalService == old(globalService)
      ensures !Truthy(sessionId) ==> sessions == old(sessions) && globalService == Some(rag)
      ensures var created := old(if Truthy(sessionId) then sessionId.value !in sessions else globalService.None?);
        && nextToken == old(nextToken) + (if created then 1 else 0)
        && (created ==> rag == old(nextToken))
      ensures old(Valid()) ==> Valid()
    {
      if Truthy(sessionId) {
        if sessionId.value !in sessions {
          sessions := sessions[sessionId.value := nextToken];
          nextToken := nextToken + 1;
        }
        rag := sessions[sessionId.value];
      } else {
        if globalService.None? {
          globalService := Some(nextToken);
          nextToken := nextToken + 1;
        }
        rag := globalService.value;
      }
    }

    /** `ask_question`. With a truthy session id whose conversation is stored, the user
        message is appended before `rag.ask` is called and the assistant message, with
        the formatted sources, after it; a failing `rag.ask` leaves only the user
        message and answers 500. Without a session id the store is not touched. With a
        session id that has no stored conversation, one is created under a fresh id;
        unless one of the fresh ids happens to be the session id, the user message
        cannot be added and the request answers 500 before `rag.ask` is reached. If one
        is, the session's conversation starts empty and both messages are saved to it. */
    method AskQuestion(request: Schemas.QuestionRequest, ask: (Token, string, int, bool) -> Result<Rag.AskResult, string>,
                       draws: Draws, now: nat)
      returns (response: Response<Schemas.QuestionResponse>)
      modifies this, conversations
      ensures var sid := request.sessionId; var rag := old(ServiceFor(sid));
        && (Truthy(sid) ==> sessions == old(sessions)[sid.value := rag] && globalService == old(globalService))
        && (!Truthy(sid) ==> sessions == old(sessions) && globalService == Some(rag))
      ensures var rag := old(ServiceFor(request.sessionId));
        var result := ask(rag, request.question, request.nResults, request.useHistory);
        !Truthy(request.sessionId) ==>
          && conversations.store == old(conversations.store)
          && response == (if result.Failure? then HttpError(InternalError, ErrorDetail(result.error))
                          else Ok(BuildResponse(draws.question, result.value, request.sessionId, now)))
      ensures var sid := request.sessionId; var rag := old(ServiceFor(sid));
        var result := ask(rag, request.question, request.nResults, request.useHistory);
        var userMessage := Conversations.NewMessage(draws.userMsg, "user", request.question, now, None);
        var created := Conversations.ConversationId(draws.sessionConv);
        var orphan := Conversations.ConversationId(draws.userConv);
        var stored := sid.Some? && sid.value in old(conversations.store);
        Truthy(sid) && (stored || created == sid.value || orphan == sid.value) ==>
          var base := if stored then old(conversations.store)
                      else old(conversations.store)[created := Conversations.NewConversation(created, now)];
          var start := if stored then old(conversations.store)[sid.value] else Conversations.NewConversation(sid.value, now);
          var withQuestion := Conversations.AppendMessage(start, userMessage);
          if result.Failure? then
            && response == HttpError(InternalError, ErrorDetail(result.error))
            && conversations.store == base[sid.value := withQuestion]
          else
            var answerMessage := Conversations.NewMessage(draws.answerMsg, "assistant", result.value.answer, now,
                                                          Some(FormatSources(result.value.sources)));
            && response == Ok(BuildResponse(draws.question, result.value, sid, now))
            && conversations.store == base[sid.value := Conversations.AppendMessage(withQuestion, answerMessage)]
      ensures var sid := request.sessionId;
        var created := Conversations.ConversationId(draws.sessionConv);
        var orphan := Conversations.ConversationId(draws.userConv);
        Truthy(sid) && sid.value !in old(conversations.store) && created != sid.value && orphan != sid.value ==>
          && response == HttpError(InternalError, ErrorDetail(Conversations.NoneSubscript))
          && conversations.store == old(conversations.store)[created := Conversations.NewConversation(created, now)]
                                                            [orphan := Conversations.NewConversation(orphan, now)]
      ensures old(Valid()) ==> Valid()
      ensures old(conversations.Valid()) && old(conversations.UpdatedBy(now)) ==>
        conversations.Valid() && conversations.UpdatedBy(now)
    {
      var sid := request.sessionId;
      // `get_rag_service` touches no conversation, so running it before the
      // conversation is created, rather than between the creation and the user
      // message, gives the same state.
      var rag := GetRagService(sid);
      if Truthy(sid) {
        var saved := SaveQuestion(sid.value, request.question, draws, now);
        if saved.Fail? {
          return HttpError(InternalError, ErrorDetail(saved.error));
        }
      }
      var result := ask(rag, request.question, request.nResults, request.useHistory);
      if result.Failure? {
        return HttpError(InternalError, ErrorDetail(result.error));
      }
      var sources := FormatSources(result.value.sources);
      if Truthy(sid) {
        // The user message went through, so the session's conversation is stored and
        // this second `add_message` cannot raise.
        assert sid.value in conversations.store;
        var _ := conversations.AddMessage(sid.value, "assistant", result.value.answer, Some(sources), draws.answerConv, draws.answerMsg, now);
      }
      response := Ok(BuildResponse(draws.question, result.value, sid, now));
    }

    /** The writes of `ask_question` before `rag.ask` for a truthy session id: the
        session's conversation is created when it is missing, then the user message is
        added to it. */
    method SaveQuestion(sid: string, question: string, draws: Draws, now: nat) returns (saved: Outcome<string>)
      modifies conversations
      ensures var userMessage := Conversations.NewMessage(draws.userMsg, "user", question, now, None);
        var created := Conversations.ConversationId(draws.sessionConv);
        var orphan := Conversations.ConversationId(draws.userConv);
        var stored := sid in old(conversations.store);
        if stored || created == sid || orphan == sid then
          var base := if stored then old(conversations.store)
                      else old(conversations.store)[created := Conversations.NewConversation(created, now)];
          var start := if stored then old(conversations.store)[sid] else Conversations.NewConversation(sid, now);
          saved == Pass && conversations.store == base[sid := Conversations.AppendMessage(start, userMessage)]
        else
          && saved == Fail(Conversations.NoneSubscript)
          && conversations.store == old(conversations.store)[created := Conversations.NewConversation(created, now)]
                                                            [orphan := Conversations.NewConversation(orphan, now)]
      ensures old(conversations.Valid()) && old(conversations.UpdatedBy(now)) ==>
        conversations.Valid() && conversations.UpdatedBy(now)
    {
      if conversations.Load(sid).None? {
        var _ := conversations.CreateConversation(draws.sessionConv, now);
      }
      saved := conversations.AddMessage(sid, "user", question, None, draws.userConv, draws.userMsg, now);
    }

    /** `get_history`: 404 for a session id without a service; otherwise the service's
        question/answer pairs, each stamped with the current time, and their count.
        Nothing changes. */
    method GetHistory(sessionId: string, history: Token -> seq<(string, string)>, now: nat)
      returns (r: Response<HistoryResponse>)
      ensures r.HttpError? <==> sessionId !in sessions
      ensures r.HttpError? ==> r == HttpError(NotFound, NotFoundSession(sessionId))
      ensures r.Ok? ==>
        var pairs := history(sessions[sessionId]);
        && r.body.sessionId == sessionId && r.body.count == |r.body.history| == |pairs|
        && forall i :: 0 <= i < |pairs| ==> r.body.history[i] == HistoryItem(pairs[i].0, pairs[i].1, now)
    {
      if sessionId !in sessions {
        return HttpError(NotFound, NotFoundSession(sessionId));
      }
      var rag := sessions[sessionId];
      var pairs := history(rag);
      var items := seq(|pairs|, i requires 0 <= i < |pairs| => HistoryItem(pairs[i].0, pairs[i].1, now));
      r := Ok(HistoryResponse(sessionId, items, |items|));
    }

    /** `clear_history`: 404 for a session id without a service; otherwise that
        session's service, and no other, is told to clear its history. The registry
        does not change. */
    method ClearHistory(sessionId: string) returns (r: Response<string>, cleared: Option<Token>)
      ensures r.HttpError? <==> sessionId !in sessions
      ensures r.HttpError? ==> r == HttpError(NotFound, NotFoundSession(sessionId)) && cleared.None?
      ensures r.Ok? ==>
        && cleared == Some(sessions[sessionId])
        && r.body == "Historique de la session '" + sessionId + "' effacé"
    {
      if sessionId !in sessions {
        return HttpError(NotFound, NotFoundSession(sessionId)), None;
      }
      cleared := Some(sessions[sessionId]);
      r := Ok("Historique de la session '" + sessionId + "' effacé");
    }

    /** `get_conversation`: the stored record, or 404. */
    method GetConversation(convId: string) returns (r: Response<Conversations.Conversation>)
      ensures r.Ok? <==> convId in conversations.store
      ensures r.Ok? ==> r.body == conversations.store[convId]
      ensures r.HttpError? ==> r == HttpError(NotFound, NotFoundConversation(convId))
    {
      var conversation := conversations.Load(convId);
      if conversation.None? {
        return HttpError(NotFound, NotFoundConversation(convId));
      }
      r := Ok(conversation.value);
    }

    /** `delete_conversation`: 404, changing nothing, when no record has that id;
        otherwise the record is deleted and the id's service, if any, is dropped from
        the registry, the other sessions staying as they were. */
    method DeleteConversation(convId: string) returns (r: Response<string>)
      modifies this, conversations
      ensures r.HttpError? <==> convId !in old(conversations.store)
      ensures r.HttpError? ==>
        && r == HttpError(NotFound, NotFoundConversation(convId))
        && conversations.store == old(conversations.store) && sessions == old(sessions)
      ensures r.Ok? ==>
        && r.body == "Conversation '" + convId + "' supprimée"
        && conversations.store == old(conversations.store) - {convId}
        && sessions == old(sessions) - {convId}
      ensures globalService == old(globalService) && nextToken == old(nextToken)
      ensures old(Valid()) ==> Valid()
      ensures old(conversations.Valid()) ==> conversations.Valid()
    {
      var success := conversations.DeleteConversation(convId);
      if !success {
        return HttpError(NotFound, NotFoundConversation(convId));
      }
      if convId in sessions {
        sessions := sessions - {convId};
      }
      r := Ok("Conversation '" + convId + "' supprimée");
    }
  }

  /** Calling `get_rag_service` twice with the same argument gives the same service,
      and the second call creates nothing. */
  method SameServiceTwice(api: Api, sessionId: Option<string>) returns (first: Token, second: Token)
    modifies api
    ensures first == second
    ensures api.nextToken <= old(api.nextToken) + 1
  {
    first := api.GetRagService(sessionId);
    second := api.GetRagService(sessionId);
  }

  /** `get_categories`: the five categories, in the order of the listing. */
  function GetCategories(): (cs: seq<Category>)
    ensures |cs| == 5
    ensures seq(5, i requires 0 <= i < 5 => cs[i].id) == ["emploi_temps", "reglements", "procedures", "faqs", "notes"]
  {
    [Category("emploi_temps", "Emplois du temps", "Calendriers et horaires"),
     Category("reglements", "Règlements", "Règles et chartes"),
     Category("procedures", "Procédures", "Démarches administratives"),
     Category("faqs", "FAQs", "Questions fréquentes"),
     Category("notes", "Notes", "Système de notation")]
  }

  /** The listed category ids are the folders the document parser visits, but listed
      in another order: "faqs" comes before "notes". */
  lemma CategoriesAreFolders()
    ensures var ids := seq(5, i requires 0 <= i < 5 => GetCategories()[i].id);
      multiset(ids) == multiset(Parsing.CategoryFolders) && ids != Parsing.CategoryFolders
  {
    var ids := seq(5, i requires 0 <= i < 5 => GetCategories()[i].id);
    assert ids[3] == "faqs" != "notes" == Parsing.CategoryFolders[3];
    assert ids == [Parsing.CategoryFolders[0], Parsing.CategoryFolders[1], Parsing.CategoryFolders[2],
                   Parsing.CategoryFolders[4], Parsing.CategoryFolders[3]];
  }
}
