/** The callbacks of `SwiftWhoisNetwork.whoisQuery` as one object: the
    connection-state handler, `sendWhoisQuery` and its send completion, and the
    receive handler of `receiveWhoisResponse`, which appends to the captured
    buffer in place and re-arms itself. The framework that calls them is the
    caller of these methods; the continuation is the log `resumes`. */
module WhoisNetwork {

  import opened WhoisTypes
  import opened WhoisRequest
  import opened WhoisReceive

  /** The states an NWConnection reports to its state handler. */
  datatype ConnectionState =
    | Setup
    | Waiting(reason: NWError)
    | Preparing
    | Ready
    | Failed(error: NWError)
    | Cancelled

  /** Which callback of the session is outstanding. */
  datatype Phase =
    | Connecting  // the state handler waits for `.ready`
    | Sending     // the query was handed to `connection.send`
    | Receiving   // a receive call is outstanding
    | Stalled     // nothing outstanding, and the continuation was never resumed
    | Finished    // nothing outstanding, and the continuation was resumed

  class Session {
    const domain: string
    const encode: string -> Option<Bytes>
    const decode: Bytes -> Option<string>

    var phase: Phase
    var accumulated: Bytes     // `accumulatedData`
    var sent: seq<Bytes>       // every content passed to `connection.send`
    var resumes: seq<Outcome>  // every call of the continuation, in order

    /** The continuation is resumed at most once, and exactly once if and only
        if the session is `Finished` (a `Stalled` session has nothing outstanding
        and was never resumed); the only bytes ever sent are the encoded query line. */
    predicate Valid()
      reads this
    {
      |resumes| <= 1 &&
      (resumes == [] <==> !phase.Finished?) &&
      |sent| <= 1 &&
      (sent != [] ==> encode(QueryLine(domain)) == Some(sent[0])) &&
      (phase.Connecting? ==> sent == [] && accumulated == []) &&
      (phase.Sending? || phase.Receiving? || phase.Stalled? ==> sent != [])
    }

    /** `NWConnection(host:port:using:)` with the state handler installed. */
    constructor (domain: string, encode: string -> Option<Bytes>, decode: Bytes -> Option<string>)
      ensures Valid()
      ensures this.domain == domain && this.encode == encode && this.decode == decode
      ensures phase == Connecting && accumulated == [] && sent == [] && resumes == []
    {
      this.domain := domain;
      this.encode := encode;
      this.decode := decode;
      phase := Connecting;
      accumulated := [];
      sent := [];
      resumes := [];
    }

    /** The connection's state handler: `.ready` sends the query, `.failed`
        resumes the continuation with the error, every other state is ignored.
        The framework reports `.ready` only while the connection is being set up. */
    method HandleState(state: ConnectionState)
      requires state.Ready? ==> phase.Connecting?
      modifies this
      ensures accumulated == old(accumulated)
      ensures state.Ready? ==> SentQuery(old(sent), old(resumes))
      ensures state.Failed? ==>
                sent == old(sent) &&
                resumes == old(resumes) + [Threw(Network(state.error))] &&
                phase == (if old(phase).Connecting? || old(phase).Stalled? then Finished else old(phase))
      ensures !state.Ready? && !state.Failed? ==>
                phase == old(phase) && sent == old(sent) && resumes == old(resumes)
      // a `.failed` that arrives while a send or receive is outstanding, or after
      // the continuation was resumed, is a second resume
      ensures old(Valid()) && (state.Failed? ==> old(phase).Connecting? || old(phase).Stalled?) ==> Valid()
    {
      match state
      case Ready =>
        SendWhoisQuery();
      case Failed(error) =>
        resumes := resumes + [Threw(Network(error))];
        if phase.Connecting? || phase.Stalled? {
          phase := Finished;
        }
      case _ =>
    }

    /** The state after `sendWhoisQuery`, given the log before it. */
    predicate SentQuery(sent0: seq<Bytes>, resumes0: seq<Outcome>)
      reads this
    {
      match encode(QueryLine(domain))
      case None => phase == Finished && sent == sent0 && resumes == resumes0 + [Threw(InvalidStringEncoding)]
      case Some(bytes) => phase == Sending && sent == sent0 + [bytes] && resumes == resumes0
    }

    /** `sendWhoisQuery`: frame the domain as one CR LF terminated line and
        send its UTF-8 encoding; if it cannot be encoded, nothing is sent and the
        query fails with "Invalid String Encoding". */
    method SendWhoisQuery()
      requires phase.Connecting?
      modifies this
      ensures accumulated == old(accumulated)
      ensures SentQuery(old(sent), old(resumes))
      ensures old(Valid()) ==> Valid()
    {
      var query := domain + CRLF;
      var data := encode(query);
      if data.None? {
        resumes := resumes + [Threw(InvalidStringEncoding)];
        phase := Finished;
        return;
      }
      sent := sent + [data.value];
      phase := Sending;
    }

    /** The send completion: a send error fails the query, otherwise the
        response is received. */
    method HandleSendCompletion(sendError: Option<NWError>)
      requires phase.Sending?
      modifies this
      ensures sent == old(sent)
      ensures sendError.Some? ==>
                phase == Finished && accumulated == old(accumulated) &&
                resumes == old(resumes) + [Threw(Network(sendError.value))]
      ensures sendError.None? ==> phase == Receiving && accumulated == [] && resumes == old(resumes)
      ensures old(Valid()) ==> Valid()
    {
      if sendError.Some? {
        resumes := resumes + [Threw(Network(sendError.value))];
        phase := Finished;
      } else {
        ReceiveWhoisResponse();
      }
    }

    /** `receiveWhoisResponse`: a fresh, empty buffer and the first receive call. */
    method ReceiveWhoisResponse()
      requires phase.Sending?
      modifies this
      ensures phase == Receiving && accumulated == []
      ensures sent == old(sent) && resumes == old(resumes)
    {
      accumulated := [];
      phase := Receiving;
    }

    /** The completion handler of one receive call, exactly as `Step` specifies it. */
    method HandleReceive(ev: ReceiveEvent)
      requires phase.Receiving?
      modifies this
      ensures sent == old(sent)
      ensures match Step(decode, old(accumulated), ev)
                case Rearm(buffer) =>
                  phase == Receiving && accumulated == buffer && resumes == old(resumes)
                case Resume(buffer, outcome) =>
                  phase == Finished && accumulated == buffer && resumes == old(resumes) + [outcome]
                case Idle =>
                  phase == Stalled && accumulated == old(accumulated) && resumes == old(resumes)
      ensures old(Valid()) ==> Valid()
    {
      if ev.content.Some? && ev.content.value != [] {
        accumulated := accumulated + ev.content.value;
        if !ev.isComplete {
          phase := Receiving;  // receiveNextChunk()
        } else {
          resumes := resumes + [Returned(DecodedOrEmpty(decode, accumulated))];
          phase := Finished;
        }
      } else if ev.error.Some? {
        resumes := resumes + [Threw(Network(ev.error.value))];
        phase := Finished;
      } else if ev.isComplete {
        if accumulated != [] {
          resumes := resumes + [Returned(DecodedOrEmpty(decode, accumulated))];
        } else {
          resumes := resumes + [Threw(ClosedByRemoteHost)];
        }
        phase := Finished;
      } else {
        phase := Stalled;
      }
    }

    /** The framework delivering receive completions one after the other, for as
        long as a receive call is outstanding. Returns how many were delivered. */
    method Deliver(evs: seq<ReceiveEvent>) returns (delivered: nat)
      requires phase.Receiving? && Valid()
      modifies this
      ensures delivered <= |evs|
      ensures Valid() && sent == old(sent)
      ensures match Run(decode, old(accumulated), evs)
                case Pending(buffer) => phase == Receiving && accumulated == buffer && delivered == |evs|
                case Hung(buffer) => phase == Stalled && accumulated == buffer
                case Resolved(outcome) => phase == Finished && resumes == [outcome]
      // once the handler stops re-arming, no further completion is delivered:
      // the last one delivered is the first that is not a plain chunk
      ensures !Run(decode, old(accumulated), evs).Pending? ==>
                0 < delivered &&
                (forall i :: 0 <= i < delivered - 1 ==> IsMore(evs[i])) &&
                !IsMore(evs[delivered - 1])
    {
      delivered := 0;
      while delivered < |evs| && phase.Receiving?
        invariant delivered <= |evs|
        invariant Valid() && sent == old(sent)
        invariant phase.Receiving? || phase.Stalled? || phase.Finished?
        invariant phase.Receiving? ==>
                    Run(decode, old(accumulated), evs) == Run(decode, accumulated, evs[delivered..])
        invariant phase.Stalled? ==> Run(decode, old(accumulated), evs) == Hung(accumulated)
        invariant phase.Finished? ==> Run(decode, old(accumulated), evs) == Resolved(resumes[0])
        invariant phase.Receiving? ==> forall i :: 0 <= i < delivered ==> IsMore(evs[i])
        invariant !phase.Receiving? ==>
                    0 < delivered &&
                    (forall i :: 0 <= i < delivered - 1 ==> IsMore(evs[i])) &&
                    !IsMore(evs[delivered - 1])
      {
        var ev := evs[delivered];
        assert evs[delivered..][0] == ev && evs[delivered..][1..] == evs[delivered + 1..];
        HandleReceive(ev);
        delivered := delivered + 1;
      }
    }
  }

  /** A whole query against a server that replies with non-empty chunks and then
      closes: exactly the encoded query line is sent, and the continuation is
      resumed once, with the decoding of every byte the server sent. */
  method ServerRepliesThenCloses(domain: string, encode: string -> Option<Bytes>, decode: Bytes -> Option<string>, chunks: seq<Bytes>)
    returns (session: Session)
    requires encode(QueryLine(domain)).Some?
    requires NonEmptyChunks(chunks) && chunks != []
    ensures session.sent == [encode(QueryLine(domain)).value]
    ensures session.resumes == [Returned(DecodedOrEmpty(decode, Flatten(chunks)))]
  {
    session := new Session(domain, encode, decode);
    session.HandleState(Preparing);
    session.HandleState(Ready);
    session.HandleSendCompletion(None);
    ResponseIsConcatenation(decode, chunks);
    var _ := session.Deliver(Chunks(chunks) + [Close]);
  }

  /** A connection that only ever reports `.waiting`, however often and with
      whatever error, is ignored by the state handler: nothing is sent and the
      continuation is never resumed. */
  method WaitingNeverResumes(domain: string, encode: string -> Option<Bytes>, decode: Bytes -> Option<string>, errors: seq<NWError>)
    returns (session: Session)
    ensures session.phase == Connecting && session.sent == [] && session.resumes == []
  {
    session := new Session(domain, encode, decode);
    session.HandleState(Preparing);
    for i := 0 to |errors|
      invariant session.phase == Connecting && session.sent == [] && session.resumes == []
    {
      session.HandleState(Waiting(errors[i]));
    }
  }

  /** A `.failed` state reported while a receive is outstanding resumes the
      continuation, and the receive's own error completion resumes it again. */
  method FailureDuringReceive(domain: string, encode: string -> Option<Bytes>, decode: Bytes -> Option<string>, chunk: Bytes, e: NWError)
    returns (session: Session)
    requires encode(QueryLine(domain)).Some? && chunk != []
    ensures session.resumes == [Threw(Network(e)), Threw(Network(e))]
  {
    session := new Session(domain, encode, decode);
    session.HandleState(Ready);
    session.HandleSendCompletion(None);
    session.HandleReceive(Chunk(chunk));
    session.HandleState(Failed(e));
    session.HandleReceive(ReceiveEvent(None, false, Some(e)));
  }
}
