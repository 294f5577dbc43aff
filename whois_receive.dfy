/** The receive handler of `receiveWhoisResponse`, as a specification.

    WHOIS responses carry no length and no terminator: the server ends the
    response by closing the connection. Each completion of a receive call
    delivers `(data?, isComplete, error?)`, and the handler either appends the
    data and asks for the next chunk, resumes the query's continuation, or does
    nothing at all. `Step` is one completion; `Run` folds `Step` over the
    completions in arrival order, as long as the handler keeps asking for more. */
module WhoisReceive {

  import opened WhoisTypes

  /** One completion of `connection.receive`. The content context argument is
      ignored by the handler and is not part of the model. */
  datatype ReceiveEvent = ReceiveEvent(content: Option<Bytes>, isComplete: bool, error: Option<NWError>)

  /** The completion carries at least one byte. */
  predicate HasData(ev: ReceiveEvent)
  {
    ev.content.Some? && ev.content.value != []
  }

  /** The bytes the completion contributes: its content if non-empty, else nothing. */
  function Data(ev: ReceiveEvent): Bytes
  {
    if HasData(ev) then ev.content.value else []
  }

  /** A chunk that is not the last one: bytes, and the stream still open. */
  predicate IsMore(ev: ReceiveEvent)
  {
    HasData(ev) && !ev.isComplete
  }

  /** What the handler does with one completion. */
  datatype Reaction =
    | Rearm(buffer: Bytes)                     // buffer updated, next receive requested
    | Resume(buffer: Bytes, outcome: Outcome)  // continuation resumed, connection cancelled
    | Idle                                     // no resume and no further receive

  /** The handler for one completion, given the bytes accumulated so far. */
  function Step(decode: Bytes -> Option<string>, acc: Bytes, ev: ReceiveEvent): (r: Reaction)
    // keeps reading exactly while non-empty chunks arrive on an open stream
    ensures r.Rearm? <==> IsMore(ev)
    // does nothing exactly when there is no data, no error and no end of stream
    ensures r.Idle? <==> !HasData(ev) && ev.error.None? && !ev.isComplete
    // the buffer only grows, by exactly the chunk's bytes, also when the chunk is final
    ensures !r.Idle? ==> r.buffer == acc + Data(ev)
    // a response is returned exactly at the end of a non-empty stream
    ensures r.Resume? && r.outcome.Returned? <==>
              ev.isComplete && (HasData(ev) || (ev.error.None? && acc != []))
    ensures r.Resume? && r.outcome.Returned? ==>
              r.buffer != [] &&
              r.outcome.response == (if decode(r.buffer).Some? then decode(r.buffer).value else "")
    // a receive error is reported exactly when the chunk is empty, whatever was accumulated
    ensures !HasData(ev) && ev.error.Some? ==> r == Resume(acc, Threw(Network(ev.error.value)))
    ensures r.Resume? && r.outcome.Threw? && r.outcome.error.Network? ==> !HasData(ev) && ev.error.Some?
    // an end of stream before any byte is the "closed by remote host" error
    ensures r.Resume? && r.outcome == Threw(ClosedByRemoteHost) <==>
              !HasData(ev) && ev.error.None? && ev.isComplete && acc == []
  {
    if ev.content.Some? && ev.content.value != [] then
      var buffer := acc + ev.content.value;
      if !ev.isComplete then Rearm(buffer)
      else Resume(buffer, Returned(DecodedOrEmpty(decode, buffer)))
    else if ev.error.Some? then
      Resume(acc, Threw(Network(ev.error.value)))
    else if ev.isComplete then
      if acc != [] then Resume(acc, Returned(DecodedOrEmpty(decode, acc)))
      else Resume(acc, Threw(ClosedByRemoteHost))
    else
      Idle
  }

  /** Where a session stands after a sequence of completions. */
  datatype Verdict =
    | Pending(buffer: Bytes)     // a receive is still outstanding
    | Hung(buffer: Bytes)        // nothing outstanding and the continuation never resumed
    | Resolved(outcome: Outcome) // the continuation was resumed

  /** The completions delivered one after the other, starting from buffer `acc`.
      Once the handler stops asking for more, later completions never arrive. */
  function Run(decode: Bytes -> Option<string>, acc: Bytes, evs: seq<ReceiveEvent>): Verdict
    decreases |evs|
  {
    if evs == [] then Pending(acc)
    else
      match Step(decode, acc, evs[0])
      case Rearm(buffer) => Run(decode, buffer, evs[1..])
      case Resume(_, outcome) => Resolved(outcome)
      case Idle => Hung(acc)
  }

  /** All bytes the completions carry, in arrival order. */
  function Received(evs: seq<ReceiveEvent>): Bytes
    decreases |evs|
  {
    if evs == [] then [] else Data(evs[0]) + Received(evs[1..])
  }

  /** While non-empty chunks keep arriving on an open stream, the handler
      accumulates all of them and never resumes: no partial result. */
  lemma {:induction false} RunWhileMore(decode: Bytes -> Option<string>, acc: Bytes, evs: seq<ReceiveEvent>)
    requires forall i :: 0 <= i < |evs| ==> IsMore(evs[i])
    ensures Run(decode, acc, evs) == Pending(acc + Received(evs))
    decreases |evs|
  {
    if evs != [] {
      RunWhileMore(decode, acc + Data(evs[0]), evs[1..]);
      assert acc + Data(evs[0]) + Received(evs[1..]) == acc + Received(evs);
    }
  }

  /** The session's fate is decided by the first completion that is not a
      plain chunk, applied to everything accumulated before it. */
  lemma {:induction false} RunSettles(decode: Bytes -> Option<string>, acc: Bytes, evs: seq<ReceiveEvent>, k: nat)
    requires k < |evs|
    requires forall i :: 0 <= i < k ==> IsMore(evs[i])
    requires !IsMore(evs[k])
    ensures var buffer := acc + Received(evs[..k]);
            var r := Step(decode, buffer, evs[k]);
            Run(decode, acc, evs) == (if r.Idle? then Hung(buffer) else Resolved(r.outcome))
    decreases k
  {
    if k == 0 {
      assert evs[..0] == [];
      assert acc + [] == acc;
    } else {
      RunSettles(decode, acc + Data(evs[0]), evs[1..], k - 1);
      assert evs[1..][..k - 1] == evs[..k][1..];
      assert acc + Data(evs[0]) + Received(evs[1..][..k - 1]) == acc + Received(evs[..k]);
    }
  }

  /** Once the handler has resumed or stalled it asks for nothing more, so
      completions after that point cannot change the verdict. */
  lemma {:induction false} RunIgnoresLaterEvents(decode: Bytes -> Option<string>, acc: Bytes, evs: seq<ReceiveEvent>, later: seq<ReceiveEvent>)
    requires !Run(decode, acc, evs).Pending?
    ensures Run(decode, acc, evs + later) == Run(decode, acc, evs)
    decreases |evs|
  {
    assert (evs + later)[0] == evs[0];
    if Step(decode, acc, evs[0]).Rearm? {
      assert (evs + later)[1..] == evs[1..] + later;
      RunIgnoresLaterEvents(decode, Step(decode, acc, evs[0]).buffer, evs[1..], later);
    }
  }

  /** The accumulated buffer only grows: a session still waiting or stalled holds
      every byte it started from as a prefix. */
  lemma {:induction false} RunKeepsPrefix(decode: Bytes -> Option<string>, acc: Bytes, evs: seq<ReceiveEvent>)
    requires !Run(decode, acc, evs).Resolved?
    ensures acc <= Run(decode, acc, evs).buffer
    decreases |evs|
  {
    if evs != [] && Step(decode, acc, evs[0]).Rearm? {
      var next := Step(decode, acc, evs[0]).buffer;
      RunKeepsPrefix(decode, next, evs[1..]);
      assert acc <= next;
    }
  }

  // ----- A server that replies with some chunks and then closes -----

  /** A chunk delivered on a still open stream. */
  function Chunk(bytes: Bytes): ReceiveEvent
  {
    ReceiveEvent(Some(bytes), false, None)
  }

  /** The close notification arriving on its own. */
  const Close: ReceiveEvent := ReceiveEvent(None, true, None)

  function Chunks(chunks: seq<Bytes>): seq<ReceiveEvent>
    decreases |chunks|
  {
    if chunks == [] then [] else [Chunk(chunks[0])] + Chunks(chunks[1..])
  }

  /** The bytes the server sent, in order. */
  function Flatten(chunks: seq<Bytes>): Bytes
    decreases |chunks|
  {
    if chunks == [] then [] else chunks[0] + Flatten(chunks[1..])
  }

  predicate NonEmptyChunks(chunks: seq<Bytes>)
  {
    forall i :: 0 <= i < |chunks| ==> chunks[i] != []
  }

  lemma {:induction false} ChunksAreMore(chunks: seq<Bytes>)
    requires NonEmptyChunks(chunks)
    ensures |Chunks(chunks)| == |chunks|
    ensures forall i :: 0 <= i < |chunks| ==> Chunks(chunks)[i] == Chunk(chunks[i]) && IsMore(Chunks(chunks)[i])
    ensures Received(Chunks(chunks)) == Flatten(chunks)
    ensures Flatten(chunks) == [] <==> chunks == []
    decreases |chunks|
  {
    if chunks != [] {
      ChunksAreMore(chunks[1..]);
      assert Chunks(chunks)[1..] == Chunks(chunks[1..]);
    }
  }

  lemma {:induction false} FlattenAppend(a: seq<Bytes>, b: seq<Bytes>)
    ensures Flatten(a + b) == Flatten(a) + Flatten(b)
    decreases |a|
  {
    if a == [] {
      assert a + b == b;
    } else {
      assert (a + b)[1..] == a[1..] + b;
      FlattenAppend(a[1..], b);
    }
  }

  /** A server that sends non-empty chunks and then closes gets back exactly
      the decoding of their concatenation, or the empty string when that is not
      valid UTF-8; if it sent nothing the query fails as closed by the remote host. */
  lemma ResponseIsConcatenation(decode: Bytes -> Option<string>, chunks: seq<Bytes>)
    requires NonEmptyChunks(chunks)
    ensures Run(decode, [], Chunks(chunks) + [Close]) ==
              if chunks == [] then Resolved(Threw(ClosedByRemoteHost))
              else Resolved(Returned(DecodedOrEmpty(decode, Flatten(chunks))))
  {
    var evs := Chunks(chunks) + [Close];
    var k := |chunks|;
    ChunksAreMore(chunks);
    assert evs[..k] == Chunks(chunks);
    RunSettles(decode, [], evs, k);
    assert [] + Flatten(chunks) == Flatten(chunks);
  }

  /** A final chunk delivered together with the end of stream is kept, and an
      error reported alongside it is ignored: the result is the same as if the
      chunk had come alone and the close after it. */
  lemma BundledCloseKeepsLastChunk(decode: Bytes -> Option<string>, chunks: seq<Bytes>, last: Bytes, error: Option<NWError>)
    requires NonEmptyChunks(chunks) && last != []
    ensures Run(decode, [], Chunks(chunks) + [ReceiveEvent(Some(last), true, error)]) ==
              Resolved(Returned(DecodedOrEmpty(decode, Flatten(chunks) + last)))
    ensures Run(decode, [], Chunks(chunks) + [ReceiveEvent(Some(last), true, error)]) ==
              Run(decode, [], Chunks(chunks + [last]) + [Close])
  {
    var evs := Chunks(chunks) + [ReceiveEvent(Some(last), true, error)];
    var k := |chunks|;
    ChunksAreMore(chunks);
    assert evs[..k] == Chunks(chunks);
    RunSettles(decode, [], evs, k);
    assert [] + Flatten(chunks) == Flatten(chunks);
    var all := chunks + [last];
    assert NonEmptyChunks(all) by {
      forall i | 0 <= i < |all| ensures all[i] != [] {
        if i < |chunks| { assert all[i] == chunks[i]; }
      }
    }
    ResponseIsConcatenation(decode, all);
    FlattenAppend(chunks, [last]);
    assert Flatten([last]) == last + Flatten([last][1..]);
    assert Flatten([last]) == last;
  }

  /** Chunk boundaries are invisible: the same bytes split differently give the same verdict. */
  lemma ChunkBoundariesInvisible(decode: Bytes -> Option<string>, chunks1: seq<Bytes>, chunks2: seq<Bytes>)
    requires NonEmptyChunks(chunks1) && NonEmptyChunks(chunks2)
    requires Flatten(chunks1) == Flatten(chunks2)
    ensures Run(decode, [], Chunks(chunks1) + [Close]) == Run(decode, [], Chunks(chunks2) + [Close])
  {
    ResponseIsConcatenation(decode, chunks1);
    ResponseIsConcatenation(decode, chunks2);
    ChunksAreMore(chunks1);
    ChunksAreMore(chunks2);
  }

  /** A receive error that comes with no data fails the query with that error,
      discarding whatever had been accumulated. */
  lemma ErrorDiscardsReceivedData(decode: Bytes -> Option<string>, chunks: seq<Bytes>, content: Option<Bytes>, isComplete: bool, e: NWError)
    requires NonEmptyChunks(chunks)
    requires content.None? || content.value == []
    ensures Run(decode, [], Chunks(chunks) + [ReceiveEvent(content, isComplete, Some(e))]) == Resolved(Threw(Network(e)))
  {
    var evs := Chunks(chunks) + [ReceiveEvent(content, isComplete, Some(e))];
    var k := |chunks|;
    ChunksAreMore(chunks);
    assert evs[..k] == Chunks(chunks);
    RunSettles(decode, [], evs, k);
  }

  /** A completion with no data, no error and an open stream leaves the
      session stalled for good: nothing resumes it, whatever follows. */
  lemma EmptyOpenCompletionStalls(decode: Bytes -> Option<string>, chunks: seq<Bytes>, later: seq<ReceiveEvent>)
    requires NonEmptyChunks(chunks)
    ensures Run(decode, [], Chunks(chunks) + [ReceiveEvent(None, false, None)] + later) == Hung(Flatten(chunks))
  {
    var evs := Chunks(chunks) + [ReceiveEvent(None, false, None)];
    var k := |chunks|;
    ChunksAreMore(chunks);
    assert evs[..k] == Chunks(chunks);
    RunSettles(decode, [], evs, k);
    assert [] + Flatten(chunks) == Flatten(chunks);
    RunIgnoresLaterEvents(decode, [], evs, later);
  }
}
