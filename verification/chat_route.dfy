/** The query route (`POST /api/chat`): the text of the last message in the
    request body is embedded, the three nearest profile records are fetched
    with their metadata, one context block per record is appended to that
    text, and a two-message streamed completion is requested (the fixed
    system prompt, then the augmented user turn).

    The embedding service, the index query and the completion service are
    parameters returning `None` when the awaited call throws; each request the
    route makes is recorded as a `ChatCall`. Earlier turns of the incoming
    conversation are never forwarded. */
module ChatRoute {
  import opened Text
  import Ingest
  import ResponseStream

  /** One element of the body's `message` array; only `text` is read. */
  datatype IncomingMessage = IncomingMessage(text: string)

  datatype Role = System | User

  datatype ChatMessage = ChatMessage(role: Role, content: string)

  datatype GenerationRequest = GenerationRequest(messages: seq<ChatMessage>, model: string, stream: bool)

  datatype QueryRequest = QueryRequest(topK: nat, includeMetadata: bool, vector: Ingest.Embedding)

  /** A request the route makes to an outside service. */
  datatype ChatCall =
    | EmbedQuery(input: string, model: string)
    | QueryIndex(query: QueryRequest)
    | Complete(generation: GenerationRequest)

  /** Where the route stops when something throws before the stream exists:
      no last message (reading `.text` of `undefined`), or a failed call. */
  datatype Stage = NoLastMessage | EmbeddingFailed | QueryFailed | CompletionFailed

  datatype ChatOutcome =
    | Rejected(stage: Stage)
    | Streamed(completion: ResponseStream.Completion)

  datatype ChatResponse = ChatResponse(calls: seq<ChatCall>, outcome: ChatOutcome)

  /** The fixed system instruction, character for character. */
  const SystemPrompt: string :=
    "\n"
    + "You are an AI assistant specializing in helping students find the best professors for their courses. Your knowledge is based on a comprehensive database of professor reviews and ratings. For each query, you will use RAG (Retrieval-Augmented Generation) to provide information on the most relevant professors.\n"
    + "\n"
    + "Your responsibilities include:\n"
    + "\n"
    + "1. Interpreting student queries about professors, courses, or teaching styles.\n"
    + "2. Presenting the information in a clear, concise, and helpful manner.\n"
    + "3. Providing additional context or explanations when necessary.\n"
    + "4. Answering follow-up questions about the professors or courses.\n"
    + "\n"
    + "Remember to:\n"
    + "- Be objective and balanced in your presentations.\n"
    + "- Respect privacy by not sharing personal information about professors beyond what's publicly available in reviews.\n"
    + "- Encourage students to consider multiple factors when choosing a professor, not just ratings.\n"
    + "- Remind students that experiences can vary and to use the information as a guide, not an absolute truth.\n"
    + "\n"
    + "If a query is unclear or too broad, ask for clarification or to submit a url of a Rate My Professor Link for the most accurate and helpful information.\n"
    + "\n"
    + "Your goal is to help students make informed decisions about their course selections based on professor reviews and ratings."

  const TopK: nat := 3
  const ChatModel := "gpt-4o-mini"

  /** `body.message[body.message.length - 1]`: `undefined` for an empty list. */
  function LastMessage(messages: seq<IncomingMessage>): (r: Option<IncomingMessage>)
    ensures r.None? <==> |messages| == 0
    ensures forall history, m :: messages == history + [m] ==> r == Some(m)
  {
    if |messages| == 0 then None else Some(messages[|messages| - 1])
  }

  // The fixed text around each field of a context block: the template's
  // leading escape and line break, the indentation, the labels, and the two
  // blank lines and trailing indentation after the reviews.
  const ProfessorLabel := "\n\n    Professor: "
  const StarsLabel := "\n    Stars: "
  const FeaturesLabel := "\n    Notable_Features: "
  const ReviewsLabel := "\n    Reviews: "
  const BlockEnd := "\n\n    \n\n\n    "

  /** The template appended per match. The reviews list is interpolated the way
      JavaScript converts an array to a string: its items joined by ",". */
  function MatchBlock(m: Ingest.ProfData): string
  {
    ProfessorLabel + m.name + StarsLabel + m.rating + FeaturesLabel + m.tags
    + ReviewsLabel + Join(m.reviews, ",") + BlockEnd
  }

  function Blocks(matches: seq<Ingest.ProfData>): (bs: seq<string>)
    ensures |bs| == |matches|
  {
    seq(|matches|, i requires 0 <= i < |matches| => MatchBlock(matches[i]))
  }

  /** The context string: one block per match, in match order. */
  function Context(matches: seq<Ingest.ProfData>): string
  {
    Concat(Blocks(matches))
  }

  /** The `forEach` over `results.matches`, appending to `resultString`. */
  method AssembleContext(matches: seq<Ingest.ProfData>) returns (resultString: string)
    ensures resultString == Context(matches)
  {
    resultString := "";
    var i := 0;
    while i < |matches|
      invariant 0 <= i <= |matches|
      invariant resultString == Context(matches[..i])
    {
      assert Blocks(matches[..i + 1]) == Blocks(matches[..i]) + [MatchBlock(matches[i])];
      ConcatAppend(Blocks(matches[..i]), [MatchBlock(matches[i])]);
      resultString := resultString + MatchBlock(matches[i]);
      i := i + 1;
    }
    assert matches[..i] == matches;
  }

  /** The block of match `i` sits between the blocks of the matches before it
      and those after it: exactly one block per match, none dropped or moved. */
  lemma ContextBlockAt(matches: seq<Ingest.ProfData>, i: nat)
    requires i < |matches|
    ensures Context(matches) == Context(matches[..i]) + MatchBlock(matches[i]) + Context(matches[i + 1..])
  {
    var before := Blocks(matches[..i]);
    var after := Blocks(matches[i + 1..]);
    assert Blocks(matches) == before + ([MatchBlock(matches[i])] + after);
    ConcatAppend(before, [MatchBlock(matches[i])] + after);
    ConcatAppend([MatchBlock(matches[i])], after);
  }

  /** Context strings of consecutive match lists concatenate. */
  lemma ContextAppend(a: seq<Ingest.ProfData>, b: seq<Ingest.ProfData>)
    ensures Context(a + b) == Context(a) + Context(b)
  {
    assert Blocks(a + b) == Blocks(a) + Blocks(b);
    ConcatAppend(Blocks(a), Blocks(b));
  }

  /** A block carries the match's name, rating, tags and reviews, each right
      after its own label and followed by the next label. */
  lemma BlockCarriesFields(m: Ingest.ProfData)
    ensures OccursAt(ProfessorLabel + m.name + StarsLabel, MatchBlock(m), 0)
    ensures Infix(StarsLabel + m.rating + FeaturesLabel, MatchBlock(m))
    ensures Infix(FeaturesLabel + m.tags + ReviewsLabel, MatchBlock(m))
    ensures Infix(ReviewsLabel + Join(m.reviews, ",") + BlockEnd, MatchBlock(m))
  {
    NinePieceWindows(ProfessorLabel, m.name, StarsLabel, m.rating, FeaturesLabel, m.tags,
      ReviewsLabel, Join(m.reviews, ","), BlockEnd);
  }

  /** Every retrieved match's block, and so its fields, reaches the context. */
  lemma ContextCarriesEveryMatch(matches: seq<Ingest.ProfData>)
    ensures forall i :: 0 <= i < |matches| ==> Infix(MatchBlock(matches[i]), Context(matches))
  {
    forall i | 0 <= i < |matches|
      ensures Infix(MatchBlock(matches[i]), Context(matches))
    {
      ContextBlockAt(matches, i);
      InfixOfConcat(Context(matches[..i]), MatchBlock(matches[i]), Context(matches[i + 1..]));
    }
  }

  /** `lastMessageContent`: the last message's text followed by the context,
      so every match's labelled block reaches the model (`ContextBlockAt`,
      `ContextCarriesEveryMatch`, `BlockCarriesFields`). */
  function UserContent(lastText: string, matches: seq<Ingest.ProfData>): (c: string)
    ensures c == lastText + Context(matches)
    ensures lastText <= c
  {
    lastText + Context(matches)
  }

  /** Each block adds at least its fixed labels, so the context grows with
      the number of matches. */
  lemma {:induction false} ContextLength(matches: seq<Ingest.ProfData>)
    ensures |Context(matches)| >= |matches| * |ProfessorLabel|
  {
    if |matches| > 0 {
      var init := matches[..|matches| - 1];
      assert matches == init + [matches[|matches| - 1]];
      ContextAppend(init, [matches[|matches| - 1]]);
      ContextLength(init);
      assert Blocks([matches[|matches| - 1]]) == [MatchBlock(matches[|matches| - 1])];
    }
  }

  /** The completion request: exactly the system prompt and one user turn. */
  function BuildRequest(lastText: string, matches: seq<Ingest.ProfData>): (r: GenerationRequest)
    ensures |r.messages| == 2
    ensures r.messages[0] == ChatMessage(System, SystemPrompt)
    ensures r.messages[1] == ChatMessage(User, lastText + Context(matches))
    ensures r.model == ChatModel && r.stream
  {
    GenerationRequest(
      messages := [ChatMessage(System, SystemPrompt), ChatMessage(User, UserContent(lastText, matches))],
      model := ChatModel,
      stream := true)
  }

  /** `POST`: select the last message, embed its text, query the index, ask
      for a streamed completion, and stream it back. */
  function HandleChat(
    messages: seq<IncomingMessage>,
    embed: string -> Option<Ingest.Embedding>,
    query: QueryRequest -> Option<seq<Ingest.ProfData>>,
    complete: GenerationRequest -> Option<ResponseStream.Completion>
  ): (r: ChatResponse)
    ensures r.outcome == Rejected(NoLastMessage) <==> |messages| == 0
    ensures r.outcome == Rejected(EmbeddingFailed) <==>
      |messages| > 0 && embed(messages[|messages| - 1].text).None?
    ensures |messages| == 0 ==> r.calls == []
    ensures |r.calls| <= 3
    ensures forall i :: 0 <= i < |r.calls| ==>
      (i == 0 <==> r.calls[i].EmbedQuery?)
      && (i == 1 <==> r.calls[i].QueryIndex?)
      && (i == 2 <==> r.calls[i].Complete?)
    ensures |messages| > 0 ==> |r.calls| > 0
    ensures |r.calls| > 0 ==> r.calls[0] == EmbedQuery(messages[|messages| - 1].text, Ingest.EmbeddingModel)
    ensures |messages| > 0 ==> (|r.calls| > 1 <==> embed(messages[|messages| - 1].text).Some?)
    ensures |r.calls| > 1 ==> r.calls[1].query.vector == embed(messages[|messages| - 1].text).value
    ensures |r.calls| > 1 ==> r.calls[1].query.topK == TopK && r.calls[1].query.includeMetadata
    ensures |r.calls| > 1 ==> (|r.calls| > 2 <==> query(r.calls[1].query).Some?)
    ensures |r.calls| > 2 ==> (query(r.calls[1].query).Some?
      && r.calls[2].generation == BuildRequest(messages[|messages| - 1].text, query(r.calls[1].query).value))
    ensures r.outcome.Streamed? <==> |r.calls| == 3 && complete(r.calls[2].generation).Some?
    ensures r.outcome.Streamed? ==> r.outcome.completion == complete(r.calls[2].generation).value
    ensures r.outcome == Rejected(QueryFailed) <==> |r.calls| == 2 && query(r.calls[1].query).None?
    ensures r.outcome == Rejected(CompletionFailed) <==> |r.calls| == 3 && complete(r.calls[2].generation).None?
  {
    match LastMessage(messages)
    case None => ChatResponse([], Rejected(NoLastMessage))
    case Some(last) =>
      var embedCall := EmbedQuery(last.text, Ingest.EmbeddingModel);
      match embed(last.text)
      case None => ChatResponse([embedCall], Rejected(EmbeddingFailed))
      case Some(vector) =>
        var q := QueryRequest(topK := TopK, includeMetadata := true, vector := vector);
        match query(q)
        case None => ChatResponse([embedCall, QueryIndex(q)], Rejected(QueryFailed))
        case Some(matches) =>
          var request := BuildRequest(last.text, matches);
          var calls := [embedCall, QueryIndex(q), Complete(request)];
          match complete(request)
          case None => ChatResponse(calls, Rejected(CompletionFailed))
          case Some(completion) => ChatResponse(calls, Streamed(completion))
  }

  /** Earlier turns never reach any service: two conversations that end in the
      same message produce the same requests and the same outcome. */
  lemma HistoryNeverForwarded(
    history1: seq<IncomingMessage>,
    history2: seq<IncomingMessage>,
    last: IncomingMessage,
    embed: string -> Option<Ingest.Embedding>,
    query: QueryRequest -> Option<seq<Ingest.ProfData>>,
    complete: GenerationRequest -> Option<ResponseStream.Completion>)
    ensures HandleChat(history1 + [last], embed, query, complete)
         == HandleChat(history2 + [last], embed, query, complete)
  {
    assert LastMessage(history1 + [last]) == LastMessage(history2 + [last]);
  }
}
