/** Values shared by the WHOIS client model: bytes, the errors the client can
    throw, and what the query's continuation is resumed with. */
module WhoisTypes {

  newtype uint8 = x: int | 0 <= x < 0x100

  /** A `Data` value of Foundation: a sequence of octets. */
  type Bytes = seq<uint8>

  datatype Option<+T> = None | Some(value: T)

  /** An error reported by the Network framework (connection, send or receive).
      The client never inspects it, it only passes it on. */
  datatype NWError = NWError(code: int)

  /** What `whoisQuery` can throw: a framework error passed through unchanged,
      or an NSError the client raises itself, identified by its domain string. */
  datatype QueryError =
    | Network(cause: NWError)
    | Domain(domain: string, code: int)

  /** Thrown when the query line cannot be encoded as UTF-8. */
  const InvalidStringEncoding: QueryError := Domain("Invalid String Encoding", -1)

  /** Thrown when the server closes the connection before sending any byte. */
  const ClosedByRemoteHost: QueryError := Domain("Connection closed by remote host", -1)

  /** One call of the checked continuation: `resume(returning:)` or `resume(throwing:)`. */
  datatype Outcome =
    | Returned(response: string)
    | Threw(error: QueryError)

  /** The response text for `bytes`: the UTF-8 decoding when it succeeds,
      the empty string when it does not (`String(data:encoding:) ?? ""`). */
  function DecodedOrEmpty(decode: Bytes -> Option<string>, bytes: Bytes): string
  {
    match decode(bytes)
    case Some(text) => text
    case None => ""
  }
}
