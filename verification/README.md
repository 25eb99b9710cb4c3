# ProfInsight retrieval pipeline: a Dafny model

ProfInsight answers questions about instructors from collected reviews. On
ingestion, a review page is scraped into a profile record: name, rating, a
de-duplicated tag summary and the review list. The tag summary is embedded and
the record is upserted into a vector-index namespace under the professor's
name. On a query, the last chat message is embedded and the three nearest
records are fetched. One context block per record is appended to the message,
and a streamed two-message completion is requested. Only the non-empty deltas
of that completion are streamed back. On the client side, an advanced-search
form builds a natural-language query, and the chat box keeps an append-only
message log.

The project models these four handlers as pure functions over strings and
sequences:

- `text.dfy` (`Text`): optional values, concatenation and `join`, the
  `slice(0, -1)` of JavaScript, and `String.prototype.trim` with the
  ECMAScript white-space set.
- `ingest.dfy` (`Ingest`): the upload route. This covers the `url` check, the
  page script with its tag de-duplication loop, the upserted record, the
  200/404/405 outcomes, and the index namespace the upsert writes to.
- `chat_route.dfy` (`ChatRoute`): the query route. This covers last-message
  selection, the context blocks, the user turn, the two-message completion
  request, and the pre-stream failure points.
- `response_stream.dfy` (`ResponseStream`): the `start` callback of the
  response stream, and what a reader of that stream observes.
- `advanced_search.dfy` (`AdvancedSearch`): the query formatter and the
  submit handler.
- `chatbox.dfy` (`Chatbox`): `GetResponse`, the send transition split at its
  `await`, and the message log under interleaved typing, sends, replies and
  renders.

External services are parameters, not code. Puppeteer, the OpenAI embedding
and chat endpoints, the Pinecone query and the `fetch` of the chat box are
each a function argument that returns `None` (or a failure value) when the
awaited call throws. Each request a handler makes is recorded in a trace
(`Ingest.Effect`, `ChatRoute.ChatCall`, `Chatbox.Outgoing`). The completion
stream is a finite sequence of optional delta contents plus a flag that says
whether iteration throws after the last one.

Behaviour of the code worth knowing:

- The query route forwards only the last message. Earlier turns never reach
  the model.
- Neither route rejects empty text. An empty last message is embedded as is,
  and an empty scraped name becomes an empty id. Ingestion answers 404 only
  when the body has no `url` key.
- Failures before the stream exists are not mapped to a response by the
  route: the exception escapes the handler (`ChatRoute.Stage`).
- After a thrown iteration the callback calls `error` and then `close`. The
  second call cannot reopen the stream, so the reader sees an errored end,
  and `error` discards every chunk the reader has not read yet.
- A submit in the chat box writes back the log as it was last rendered plus
  the user message. A reply that landed after that render is overwritten.

## Model

| member | source | states |
|---|---|---|
| Text.TrimEmptyIff | my-app/src/app/components/chatbox.tsx:54 | `input.trim()` is empty exactly when every character of the input is ECMAScript white space or a line terminator |
| Ingest.DedupMembers | my-app/src/app/api/urlUpload/route.ts:60-68 | the de-duplicated tags are exactly the tags seen on the page, no more and no fewer |
| Ingest.DedupExactlyOnce | my-app/src/app/api/urlUpload/route.ts:60-68 | each distinct tag text occurs exactly once in the de-duplicated list, and an absent one occurs zero times |
| Ingest.DedupDistinct | my-app/src/app/api/urlUpload/route.ts:60-68 | no two positions of the de-duplicated list hold the same tag |
| Ingest.DedupFirstSeenOrder | my-app/src/app/api/urlUpload/route.ts:62-67 | distinct tags appear in the order of their first occurrence on the page; later duplicates do not move them |
| Ingest.TagSummaryShape | my-app/src/app/api/urlUpload/route.ts:59-69 | with no tags the summary is ""; otherwise it is the distinct tags joined by ", " followed by a single trailing "," (only the final space is sliced off) |
| Ingest.BuildTagSummary | my-app/src/app/api/urlUpload/route.ts:59-69 | the loop with its accumulator and seen-set, plus the final slice, computes the de-duplicated tag summary |
| Ingest.ScrapeProfile | my-app/src/app/api/urlUpload/route.ts:40-78 | the page script fails exactly when there is no rating element or no name element; otherwise the record takes the first of each, and its review list has the same length and order as the review elements |
| Ingest.HandleUpload | my-app/src/app/api/urlUpload/route.ts:8-107 | the status is always 200, 404 or 405; 404 exactly when `url` is missing, with nothing scraped, embedded or upserted; with a `url`, 200 exactly when the scrape succeeds, the page has a rating and a name element, and the embedding succeeds, so every other case is 405, and 405 never upserts; 200 answers `{success: true}` after one scrape, one embedding of the record's tag summary, and one upsert whose id is the scraped name, whose values are that embedding and whose metadata is the scraped record |
| Ingest.UploadRecordShape | my-app/src/app/api/urlUpload/route.ts:84-98 | for a page with a rating and a name, the embedding input is the page's tag summary; the request succeeds exactly when that embedding succeeds, and then the record carries the page's name, reviews and tag summary |
| Ingest.EmbeddingIgnoresReviews | my-app/src/app/api/urlUpload/route.ts:84-86 | pages that differ only in their reviews give the same status and the same scrape and embedding requests |
| Ingest.FailedUploadLeavesIndexUnchanged | my-app/src/app/api/urlUpload/route.ts:97-107 | a request that does not answer 200 leaves the index namespace unchanged |
| Ingest.SuccessfulUploadStoresRecord | my-app/src/app/api/urlUpload/route.ts:92-98 | once the upsert a successful request issued has landed, the namespace holds the whole scraped record under the professor's name, added or replaced, and every other entry as it was |
| Ingest.ReingestionOverwrites | my-app/src/app/api/urlUpload/route.ts:92-98 | once the upserts of two successful ingestions under the same name have landed in issue order, the namespace has one entry for that name, equal to the second record |
| ResponseStream.EmittedAppend | my-app/src/app/api/chat/route.ts:91-97 | filtering deltas is compositional, so the fragments keep arrival order |
| ResponseStream.EmittedNonEmpty | my-app/src/app/api/chat/route.ts:92-96 | every emitted fragment is non-empty and is the content of some delta |
| ResponseStream.EmittedKeepsAllText | my-app/src/app/api/chat/route.ts:91-97 | the emitted fragments concatenate to the concatenation of all delta contents; dropping empty or missing contents loses no text |
| ResponseStream.Start | my-app/src/app/api/chat/route.ts:87-104 | exactly the non-empty deltas are enqueued, in order; after a normal completion the stream ends closed and the reader receives all of them; after a thrown iteration it ends errored and the reader keeps only the ones it had already read, a prefix of them; `error` is called exactly when iteration throws; `close` is always the last call |
| ChatRoute.LastMessage | my-app/src/app/api/chat/route.ts:36 | the selected message is absent exactly for an empty list; otherwise it is the final element, whatever precedes it |
| ChatRoute.AssembleContext | my-app/src/app/api/chat/route.ts:52-66 | the `forEach` that appends one block per match builds the context string |
| ChatRoute.ContextBlockAt | my-app/src/app/api/chat/route.ts:55-66 | the block of match i sits between the blocks of the matches before it and after it: one block per match, in match order |
| ChatRoute.ContextAppend | my-app/src/app/api/chat/route.ts:55-66 | the context of two consecutive match lists is the concatenation of their contexts |
| ChatRoute.BlockCarriesFields | my-app/src/app/api/chat/route.ts:58-65 | a block carries the match's name, rating, tags and comma-joined reviews, each right after its own label |
| ChatRoute.ContextCarriesEveryMatch | my-app/src/app/api/chat/route.ts:52-66 | every retrieved match's block occurs in the context string |
| ChatRoute.ContextLength | my-app/src/app/api/chat/route.ts:55-66 | every block starts with the "Professor:" label, so the context is at least one such label long per match |
| ChatRoute.UserContent | my-app/src/app/api/chat/route.ts:68-69 | the user content is the last message's text followed by the context of the matches, so it carries one labelled block per match in match order |
| ChatRoute.BuildRequest | my-app/src/app/api/chat/route.ts:72-82 | the completion request has exactly two messages: the fixed system prompt (the text of lines 6-24), then a user turn holding the last message's text followed by the context of the matches; the model is gpt-4o-mini and streaming is on |
| ChatRoute.HandleChat | my-app/src/app/api/chat/route.ts:26-107 | an empty message list fails before any call; otherwise the calls go in the order embed, query, complete, each made exactly when the previous one succeeded; the last message's text is embedded; the query carries that embedding as its vector and asks for 3 matches with metadata; the completion request is built from that text and the returned matches; the answer is streamed exactly when the completion call succeeds; a rejection names the step that failed: no message, embedding, query or completion |
| ChatRoute.HistoryNeverForwarded | my-app/src/app/api/chat/route.ts:36-82 | two conversations that end in the same message produce the same calls and the same outcome: earlier turns are never forwarded |
| AdvancedSearch.ClausesHead | my-app/src/app/components/advancedSearch.tsx:17-20 | the appended clauses are empty exactly when the four criteria fields are empty, and a non-empty clause list can never continue the base into the fallback sentence |
| AdvancedSearch.FormatQuery | my-app/src/app/components/advancedSearch.tsx:16-24 | the query always starts with "Find professors", and it is "Find professors matching your criteria." exactly when department, rating, course and availability are all empty |
| AdvancedSearch.FormatQueryFollowsCriterionOrder | my-app/src/app/components/advancedSearch.tsx:16-24 | otherwise the query is "Find professors" followed by the clauses of the non-empty fields in the fixed order department, rating, course, availability |
| AdvancedSearch.QueryIgnoresUnusedFields | my-app/src/app/components/advancedSearch.tsx:4-20 | the name, difficulty and tags fields never affect the query |
| AdvancedSearch.HandleSubmit | my-app/src/app/components/advancedSearch.tsx:12-36 | after submit all seven fields are "", and `onSubmit` is called exactly once, with the formatted query |
| Chatbox.GetResponse | my-app/src/app/components/chatbox.tsx:18-35 | a rejected fetch or a body that is not JSON gives `{success: false}` with no body; a parsed body is returned as it is |
| Chatbox.ReplyMessage | my-app/src/app/components/chatbox.tsx:62-76 | the appended message is always from the other side; it carries `body.message.content` exactly when the reply has `success` and a body, and the fixed error text otherwise |
| Chatbox.StaleSubmitOverwrites | my-app/src/app/components/chatbox.tsx:56-75 | for any state whose rendered input is not blank and any reply, a reply that lands and is followed by a submit before the next render leaves exactly the rendered log plus the new user message: the reply is overwritten |
| Chatbox.StaleSubmitDropsReply | my-app/src/app/components/chatbox.tsx:56 | one concrete run from an empty log shows the reply really disappears: the error message is in the log after the reply and gone after the next submit |
| Chatbox.BeginSend | my-app/src/app/components/chatbox.tsx:51-60 | all-white-space input changes nothing and sends nothing; otherwise the untrimmed input is appended as a "user" message, the input is cleared, and `{message: input}` is posted to /api/chat |
| Chatbox.FinishSend | my-app/src/app/components/chatbox.tsx:60-76 | the reply appends exactly one "other" message to the log as it then is, keeping every earlier message and the input |
| Chatbox.HandleSend | my-app/src/app/components/chatbox.tsx:51-78 | an uninterrupted send of non-blank input adds exactly the user message and then one "other" message, and the input ends cleared; that message carries `body.message.content` when the parsed reply has `success` and a body, and the fixed error text otherwise, including after a failed fetch or an unparsable body |
| Chatbox.LogIsAppendOnly | my-app/src/app/components/chatbox.tsx:56-75 | under any interleaving of typing, sends, replies and renders in which every submit sees the latest log, earlier messages are never changed, removed or reordered |

## Left out

- Puppeteer: launching the browser, its options and user agent, navigation, and the CSS selectors. The model takes the text contents the selectors match, in document order, or a failure.
- The request body is taken as a string-keyed map. A body that fails to parse (`req.json()`, outside the `try`), a body that is not an object, and a `url` that is not a string are not modelled.
- Embedding vectors and similarity scores are floating point. Vectors are opaque `seq<real>` values that are passed along and never inspected. Retrieval results are the matches' metadata records.
- ChatRoute.HandleChat: records that the index is asked for 3 matches with metadata. It does not assume that at most 3 come back, because that bound is the index's promise, not the route's.
- Pinecone's ranking, namespaces beyond the one written, and concurrent upserts. The namespace model only has last-write-wins replacement by id.
- The upsert is not awaited, so its failure is invisible to the route. The model records it as issued and never lets it change the status.
- Ingest.SuccessfulUploadStoresRecord: assumes the issued upsert lands. A 200 is sent before the write completes and whether or not the index accepts it, for example with an empty id or a vector of the wrong dimension.
- Ingest.ReingestionOverwrites: assumes both issued upserts land, and in issue order. Unawaited writes from two requests can land in either order.
- `TextEncoder` byte encoding, the async iteration protocol, and stream cancellation. Fragments are strings, and the completion is a finite sequence with an optional failure at its end.
- ResponseStream.Start: when `close` is called on an errored stream, it throws and the `start` promise rejects. The model keeps only the reader's view of this, an errored end. How far the reader has read when `error` comes depends on the consumer (the framework's pipe to the socket); the model takes that count as a parameter.
- The client and the server disagree on the payload. The client posts `{message: <string>}` and parses JSON `body.message.content`. The route reads `message` as an array of objects with `text`, and answers with a raw text stream. Each side is modelled against its own code, and no round trip is stated.
- Chatbox.ReplyMessage: a reply whose `body` is present but has no `message` would throw while building the message. That case is not modelled: the reply carries the content directly. `success` is taken as a boolean, not an arbitrary truthy value.
- Chatbox.LogIsAppendOnly: promised only for runs in which every submit happens after the latest log was rendered. Chatbox.StaleSubmitOverwrites shows that without it a submit overwrites any reply that landed since the last render.
- React rendering (other than which log a submit reads), hooks, scrolling, the modal dialog and its open state, environment variables, client construction, and `console.log`.

