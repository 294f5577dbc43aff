/** The request framing of `sendWhoisQuery`: a WHOIS query is one line, the
    domain followed by CR LF (section 2 of RFC 3912). A server reads the query
    up to the first CR LF; `FirstLine` is that reading, the partner of
    `QueryLine`. */
module WhoisRequest {

  import opened WhoisTypes

  const CRLF: string := "\r\n"

  /** The text the client encodes and sends: the domain, unvalidated, then CR LF. */
  function QueryLine(domain: string): string
  {
    domain + CRLF
  }

  /** Does a CR LF pair start at position `i` of `s`? */
  predicate CRLFAt(s: string, i: int)
  {
    0 <= i && i + 1 < |s| && s[i] == '\r' && s[i + 1] == '\n'
  }

  predicate ContainsCRLF(s: string)
  {
    exists i :: 0 <= i < |s| && CRLFAt(s, i)
  }

  /** How a server reads a request: the text before the first CR LF, or None
      when the text holds no complete line. */
  function FirstLine(s: string): (r: Option<string>)
    ensures r.Some? <==> ContainsCRLF(s)
    ensures r.Some? ==> |r.value| + 2 <= |s| && s[..|r.value|] == r.value && CRLFAt(s, |r.value|)
    ensures r.Some? ==> forall i :: 0 <= i < |r.value| ==> !CRLFAt(s, i)
    decreases |s|
  {
    if |s| < 2 then None
    else if s[0] == '\r' && s[1] == '\n' then assert CRLFAt(s, 0); Some("")
    else
      match FirstLine(s[1..])
      case None =>
        assert forall i :: CRLFAt(s, i) ==> i == 0 || CRLFAt(s[1..], i - 1);
        None
      case Some(rest) =>
        assert CRLFAt(s[1..], |rest|) && CRLFAt(s, |rest| + 1);
        assert forall i :: 0 < i <= |rest| ==> CRLFAt(s, i) == CRLFAt(s[1..], i - 1);
        Some([s[0]] + rest)
  }

  /** A server reads back exactly the domain that was sent if and only if the
      domain itself holds no CR LF; the client does not check this, so a domain
      with an embedded CR LF reaches the server as a shorter query. */
  lemma QueryLineReadsBack(domain: string)
    ensures FirstLine(QueryLine(domain)) == Some(domain) <==> !ContainsCRLF(domain)
  {
    var q := QueryLine(domain);
    var n := |domain|;
    assert q[..n] == domain;
    if ContainsCRLF(domain) {
      var i :| 0 <= i < |domain| && CRLFAt(domain, i);
      assert CRLFAt(q, i);
    } else {
      assert CRLFAt(q, n);
      forall i | 0 <= i < n
        ensures !CRLFAt(q, i)
      {
        if i + 1 < n {
          assert !CRLFAt(domain, i);
        } else {
          assert q[i + 1] == '\r';
        }
      }
      var v := FirstLine(q).value;
      assert v == q[..n];
    }
  }
}
