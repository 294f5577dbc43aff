# SwiftWhois: the WHOIS query session, in Dafny

SwiftWhois performs one WHOIS query (RFC 3912): it opens a TCP connection to a
WHOIS server on port 43, sends the domain as a single line ending in CR LF, and
reads the response until the server closes the connection. WHOIS has no length
prefix and no terminator: closing the connection is the only end-of-response
signal. So the handler that receives chunks is the real logic. For each receive
completion `(data?, isComplete, error?)` it appends the data and asks for more,
resumes the query's continuation with a response or an error, or does nothing.

The model has four modules:

- `WhoisTypes` (`whois_types.dfy`): bytes, the framework's errors, the two
  NSErrors the client raises itself ("Invalid String Encoding" and "Connection
  closed by remote host", both with code -1), and `Outcome`, which is what the
  continuation is resumed with.
- `WhoisRequest` (`whois_request.dfy`): the request framing `domain + "\r\n"`.
  Its partner is `FirstLine`, which reads a request the way a server does: the
  text before the first CR LF.
- `WhoisReceive` (`whois_receive.dfy`): the receive handler as a pure
  specification. `Step` is one completion and `Run` folds `Step` over the
  completions in arrival order. The lemmas cover the whole stream: no partial
  result, bundled end-of-stream data is kept, errors discard the buffer, and
  chunk boundaries do not change the result.
- `WhoisNetwork` (`whois_session.dfy`): the callbacks as a `Session` class.
  - The mutable `accumulated` buffer is a field.
  - The continuation is the log `resumes`.
  - The bytes handed to `connection.send` are the log `sent`.
  - `phase` records which callback is outstanding.
  - Each callback is a method, and `HandleReceive` is proved equal to `Step`.
  - `Deliver` is the framework delivering completions while a receive is
    outstanding. It is proved equal to `Run`.
  - `Valid()` holds when the continuation is resumed at most once, and exactly
    once if and only if the phase is `Finished`. A `Stalled` session has nothing
    outstanding and was never resumed. `Valid()` also requires that only the
    encoded query line was ever sent.

The Foundation UTF-8 encoder and decoder are function parameters
(`string -> Option<Bytes>` and `Bytes -> Option<string>`). The model therefore
holds for every encoder and decoder. A failed decode yields the empty string,
as `String(data:encoding:) ?? ""` does.

Four facts about the code shape the model:

- A receive error is reported only when the completion brings no data. An error
  that arrives together with a non-empty chunk is ignored (line 56), so a socket
  error does not always fail the query.
- The connection is released only on the receive paths (lines 66, 70 and 79)
  and after a normal return (line 30). It is not released on `.failed`, on an
  encoding failure or on a send error.
- There is no timeout. A connection that reports only `.waiting` never resumes
  the query.
- The errors are NSErrors identified by a domain string, not distinct error kinds.

## Model

| member | source | states |
|---|---|---|
| `WhoisRequest.FirstLine` | Sources/SwiftWhois/SwiftWhoisNetwork.swift:36 | A server's reading of a request. It returns a line exactly when the text holds a CR LF. The line is a prefix of the text, followed by CR LF, with no earlier CR LF. |
| `WhoisRequest.QueryLineReadsBack` | Sources/SwiftWhois/SwiftWhoisNetwork.swift:36 | A server reads back exactly the domain that was framed if and only if the domain holds no CR LF. The domain is not validated. |
| `WhoisReceive.Step` | Sources/SwiftWhois/SwiftWhoisNetwork.swift:55-80 | One completion, branch by branch, each stated as an if-and-only-if. The handler re-arms exactly for a non-empty chunk on an open stream. It does nothing exactly when there is no data, no error and no end of stream. The buffer grows by exactly the chunk, including a final chunk. It returns a response exactly at the end of a non-empty stream, and the response is the decoding, or "" when decoding fails. It throws the receive error exactly when the chunk is empty. It throws "closed by remote host" exactly at the end of an empty stream. |
| `WhoisReceive.RunWhileMore` | Sources/SwiftWhois/SwiftWhoisNetwork.swift:56-61 | While non-empty chunks arrive on an open stream, every chunk is appended in order and a receive stays outstanding. No result is produced. |
| `WhoisReceive.RunSettles` | Sources/SwiftWhois/SwiftWhoisNetwork.swift:54-84 | The first completion that is not a plain chunk decides the session. It acts on the concatenation of all earlier chunks. |
| `WhoisReceive.RunIgnoresLaterEvents` | Sources/SwiftWhois/SwiftWhoisNetwork.swift:59-80 | After a resume or a stall no further receive is requested. Later completions cannot change the verdict. |
| `WhoisReceive.RunKeepsPrefix` | Sources/SwiftWhois/SwiftWhoisNetwork.swift:57 | The accumulated buffer only grows. A session that is pending or hung holds its starting buffer as a prefix. |
| `WhoisReceive.ResponseIsConcatenation` | Sources/SwiftWhois/SwiftWhoisNetwork.swift:56-78 | A server sends chunks and then closes. The result is the decoding of their concatenation in arrival order, or "" if that concatenation is not valid UTF-8. With no chunks, the query fails with "Connection closed by remote host". |
| `WhoisReceive.BundledCloseKeepsLastChunk` | Sources/SwiftWhois/SwiftWhoisNetwork.swift:56-65 | A last chunk that arrives together with the end of stream is included, and an error reported beside it is ignored. The result equals delivering the chunk alone and then the close. |
| `WhoisReceive.ChunkBoundariesInvisible` | Sources/SwiftWhois/SwiftWhoisNetwork.swift:57-78 | The same bytes split into different non-empty chunks give the same verdict. |
| `WhoisReceive.ErrorDiscardsReceivedData` | Sources/SwiftWhois/SwiftWhoisNetwork.swift:56-70 | An error that comes with no data fails the query with that error, even after data has been accumulated. |
| `WhoisReceive.EmptyOpenCompletionStalls` | Sources/SwiftWhois/SwiftWhoisNetwork.swift:54-81 | A completion with no data, no error and an open stream neither resumes nor re-arms. The session stays hung whatever follows. |
| `WhoisNetwork.Session.constructor` | Sources/SwiftWhois/SwiftWhoisNetwork.swift:13-17 | A new session is connecting. It has sent nothing, has an empty buffer and has not resumed. |
| `WhoisNetwork.Session.HandleState` | Sources/SwiftWhois/SwiftWhoisNetwork.swift:17-25 | `.ready` sends the query. `.failed` resumes with the framework error. Every other state changes nothing. `Valid()` is kept unless `.failed` arrives while a send or receive is outstanding or after a resume. |
| `WhoisNetwork.Session.SendWhoisQuery` | Sources/SwiftWhois/SwiftWhoisNetwork.swift:35-42 | Exactly the encoding of `domain + "\r\n"` is sent. If encoding fails, nothing is sent and the query fails with "Invalid String Encoding". |
| `WhoisNetwork.Session.HandleSendCompletion` | Sources/SwiftWhois/SwiftWhoisNetwork.swift:42-48 | A send error resumes with that error. Otherwise receiving starts with an empty buffer. |
| `WhoisNetwork.Session.ReceiveWhoisResponse` | Sources/SwiftWhois/SwiftWhoisNetwork.swift:51-54 | Receiving starts with a fresh empty buffer and one outstanding receive. |
| `WhoisNetwork.Session.HandleReceive` | Sources/SwiftWhois/SwiftWhoisNetwork.swift:55-80 | The in-place handler updates the buffer, the phase and the resume log exactly as `Step` says, and keeps `Valid()`. |
| `WhoisNetwork.Session.Deliver` | Sources/SwiftWhois/SwiftWhoisNetwork.swift:54-84 | Completions delivered while a receive is outstanding leave the session as `Run` says: still receiving with the concatenated buffer, hung, or resumed exactly once. Once the handler stops re-arming, nothing more is delivered: the last completion delivered is the first one that is not a plain chunk. |
| `WhoisNetwork.ServerRepliesThenCloses` | Sources/SwiftWhois/SwiftWhoisNetwork.swift:12-85 | A whole query against a server that replies and closes. Exactly the encoded query line is sent. The continuation is resumed once, with the decoding of all bytes the server sent. |
| `WhoisNetwork.WaitingNeverResumes` | Sources/SwiftWhois/SwiftWhoisNetwork.swift:17-25 | A connection that reports only `.preparing` and then `.waiting` with any errors, any number of times, is ignored by `default: break`. Nothing is sent and the continuation is never resumed. |
| `WhoisNetwork.FailureDuringReceive` | Sources/SwiftWhois/SwiftWhoisNetwork.swift:17-70 | `.failed` arrives while a receive is outstanding, and that receive then completes with an error. The continuation is resumed twice. |

## Left out

- `WhoisNetwork.Session.HandleState`: at-most-once resumption is proved only when `.failed` arrives while nothing else is outstanding (connecting or hung). As written, the state handler also resumes on a `.failed` that arrives during a send or receive, or after a resume. `FailureDuringReceive` shows the second resume that follows if the framework then completes the pending receive with an error. Whether the Network framework delivers both is not visible from this code.
- `WhoisNetwork.Session.HandleState`: `.ready` is taken to arrive only while the connection is being set up. A second `.ready` would start a second send and receive loop, which is not modelled.
- `NWConnection`, `NWEndpoint`, `connection.start(queue:)` and the real `send` and `receive` calls are foreign framework I/O. Connection states, send completions and receive completions are inputs to the methods. The port (43, line 13) is not modelled, because nothing in the model depends on it.
- `withCheckedThrowingContinuation` and the async bridge are concurrency machinery. The continuation is the log `resumes`. Returning its value from `whoisQuery` (line 32) is not modelled separately.
- `connection.cancel()` (lines 30, 66, 70 and 79): resource release is not observable in this model. That `.failed`, an encoding failure and a send error never cancel is therefore not captured.
- The UTF-8 encoder and decoder of Foundation are parameters, not definitions.
- `maximumLength: 65536` and `minimumIncompleteLength: 1` of the receive call are not imposed on the inputs. The model accepts chunks of any length, and it keeps the empty, open, error-free completion that the minimum of one byte should rule out.
- The context argument of the receive completion is ignored by the handler and is not modelled.
- Timeouts: the code has none. `.waiting(error)`, `.setup`, `.preparing` and `.cancelled` fall into `default: break` (lines 23-24), so a connection error reported as `.waiting` is ignored and the query is never resumed (`WaitingNeverResumes`). Only `.failed` resumes it. DNS resolution happens inside the framework and is not modelled.
