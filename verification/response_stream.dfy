/** The response stream of the query route: the `start` callback of the
    `ReadableStream` drains the streamed completion, enqueues every non-empty
    delta, reports a thrown iteration through `controller.error`, and always
    calls `controller.close` in `finally`.

    The completion is a finite sequence of deltas (`None` when a chunk has no
    first choice, no delta or no content) that either ends normally or throws
    right after its last delta. The reader's view follows the stream state
    machine: chunks enqueued while the stream is readable join its queue,
    `error` moves it to errored, `close` to closed; once the stream is errored
    or closed, further `close` or `enqueue` calls throw and change nothing.
    A reader drains the whole queue of a closed stream, but `error` discards
    the chunks it has not read yet. */
module ResponseStream {
  import opened Text

  datatype Completion = Completion(deltas: seq<Option<string>>, throwsAtEnd: bool)

  datatype ControllerCall = Enqueue(chunk: string) | Error | Close

  datatype StreamState = Readable | Closed | Errored

  /** The stream as its reader sees it: every chunk accepted into its queue,
      in order, and its state. */
  datatype Observed = Observed(enqueued: seq<string>, state: StreamState)

  /** `content` is truthy: present and not the empty string. */
  predicate Truthy(content: Option<string>)
  {
    content.Some? && content.value != ""
  }

  /** The delta contents the callback enqueues, in arrival order. */
  function Emitted(deltas: seq<Option<string>>): seq<string>
  {
    if |deltas| == 0 then []
    else (if Truthy(deltas[0]) then [deltas[0].value] else []) + Emitted(deltas[1..])
  }

  /** The text a delta contributes to the answer (an absent content is none). */
  function ContentOf(content: Option<string>): string
  {
    match content
    case Some(text) => text
    case None => ""
  }

  function Contents(deltas: seq<Option<string>>): seq<string>
  {
    seq(|deltas|, i requires 0 <= i < |deltas| => ContentOf(deltas[i]))
  }

  /** Filtering is compositional: the fragments of a longer completion extend
      those of its prefix. */
  lemma {:induction false} EmittedAppend(a: seq<Option<string>>, b: seq<Option<string>>)
    ensures Emitted(a + b) == Emitted(a) + Emitted(b)
  {
    if |a| == 0 {
      assert a + b == b;
    } else {
      assert (a + b)[1..] == a[1..] + b;
      EmittedAppend(a[1..], b);
    }
  }

  /** Every emitted fragment is non-empty and is the content of some delta. */
  lemma {:induction false} EmittedNonEmpty(deltas: seq<Option<string>>)
    ensures forall k :: 0 <= k < |Emitted(deltas)| ==> Emitted(deltas)[k] != ""
    ensures forall f :: f in Emitted(deltas) ==> Some(f) in deltas
  {
    if |deltas| > 0 {
      EmittedNonEmpty(deltas[1..]);
      forall f | f in Emitted(deltas[1..]) ensures Some(f) in deltas {
        assert Some(f) in deltas[1..];
      }
    }
  }

  /** Dropping the empty and missing contents loses no text: the emitted
      fragments concatenate to the concatenation of all delta contents. */
  lemma {:induction false} EmittedKeepsAllText(deltas: seq<Option<string>>)
    ensures Concat(Emitted(deltas)) == Concat(Contents(deltas))
  {
    if |deltas| > 0 {
      EmittedKeepsAllText(deltas[1..]);
      var head := if Truthy(deltas[0]) then [deltas[0].value] else [];
      ConcatAppend(head, Emitted(deltas[1..]));
      assert Contents(deltas) == [ContentOf(deltas[0])] + Contents(deltas[1..]);
      ConcatAppend([ContentOf(deltas[0])], Contents(deltas[1..]));
    }
  }

  /** One controller call as the reader sees it. */
  function Step(o: Observed, call: ControllerCall): Observed
  {
    if o.state != Readable then o
    else match call
      case Enqueue(chunk) => Observed(o.enqueued + [chunk], Readable)
      case Error => Observed(o.enqueued, Errored)
      case Close => Observed(o.enqueued, Closed)
  }

  /** The chunks a reader ends up with when it had read `read` chunks by the
      time the stream left the readable state: a closed stream is drained to
      the end, while an errored one keeps only what was already read. */
  function Received(o: Observed, read: nat): (r: seq<string>)
    ensures r <= o.enqueued
    ensures o.state == Closed ==> r == o.enqueued
    ensures o.state != Closed && read <= |o.enqueued| ==> |r| == read
  {
    if o.state == Closed || |o.enqueued| <= read then o.enqueued
    else o.enqueued[..read]
  }

  /** The reader's view after a sequence of controller calls. */
  function Observe(calls: seq<ControllerCall>): Observed
  {
    if |calls| == 0 then Observed([], Readable)
    else Step(Observe(calls[..|calls| - 1]), calls[|calls| - 1])
  }

  /** The `start` callback: a loop over the completion, then the `catch` and
      `finally` arms. Exactly the non-empty deltas are enqueued, in arrival
      order. After a normal completion the stream ends closed and its reader
      receives all of them; after a thrown iteration it ends errored and its
      reader keeps only those it had read by then, a prefix of them. `close`
      is the last call either way. */
  method Start(completion: Completion) returns (calls: seq<ControllerCall>)
    ensures |calls| > 0 && calls[|calls| - 1] == Close
    ensures Error in calls <==> completion.throwsAtEnd
    ensures Observe(calls).enqueued == Emitted(completion.deltas)
    ensures Observe(calls).state == if completion.throwsAtEnd then Errored else Closed
    ensures forall read: nat :: Received(Observe(calls), read) <= Emitted(completion.deltas)
    ensures !completion.throwsAtEnd ==>
      forall read: nat :: Received(Observe(calls), read) == Emitted(completion.deltas)
    ensures completion.throwsAtEnd ==>
      forall read: nat :: read <= |Emitted(completion.deltas)| ==>
        Received(Observe(calls), read) == Emitted(completion.deltas)[..read]
  {
    calls := [];
    var deltas := completion.deltas;
    var i := 0;
    while i < |deltas|
      invariant 0 <= i <= |deltas|
      invariant Observe(calls) == Observed(Emitted(deltas[..i]), Readable)
      invariant Error !in calls
    {
      var content := deltas[i];
      EmittedAppend(deltas[..i], [content]);
      assert deltas[..i + 1] == deltas[..i] + [content];
      if Truthy(content) {
        calls := calls + [Enqueue(content.value)];
      }
      i := i + 1;
    }
    assert deltas[..i] == deltas;
    if completion.throwsAtEnd {
      calls := calls + [Error];
    }
    calls := calls + [Close];
  }
}
