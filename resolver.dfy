/** The record resolver of the analyzer (`queryRecords` in
    internal/dns/analyzer.go): ask the name servers in order for one record
    type, take the answer of the first server that answers at all, and turn
    each answer record into a `DNSRecord`.

    The DNS client is a black box here. What asking a server would give is
    the `Exchange` parameter: for the question (domain, type) and a server,
    either a failure (timeout, transport or protocol error) or the answer
    section of the reply, already parsed. */
module Resolver {
  import opened GoStrings
  import opened Types

  /** The header every answer record carries. */
  datatype Header = Header(name: seq<byte>, rrtype: QueryType, ttl: uint32)

  /** An answer record as the DNS client parses it. Addresses are kept as the
      text the client's formatter produces; `OtherAnswer` is any record type
      the resolver has no case for (a CNAME in an A answer, say). */
  datatype Answer =
    | AnswerA(header: Header, address: seq<byte>)
    | AnswerAAAA(header: Header, address: seq<byte>)
    | AnswerMX(header: Header, preference: uint16, mx: seq<byte>)
    | AnswerTXT(header: Header, txt: seq<seq<byte>>)
    | OtherAnswer(header: Header)

  datatype ExchangeOutcome = ExchangeFailed | Answered(answer: seq<Answer>)

  /** The outcome of asking `server` for the records of type `qtype` of `domain`. */
  type Exchange = (seq<byte>, QueryType, seq<byte>) -> ExchangeOutcome

  const Space: byte := ' ' as int as byte

  /** One answer record as a `DNSRecord`: the header's name, type code and
      TTL; the address for A and AAAA; the host and the preference for MX;
      the text strings joined with single spaces for TXT; an empty value for
      anything else. */
  function Normalize(ans: Answer): (r: DNSRecord)
    ensures r.name == ans.header.name && r.recordType == ans.header.rrtype && r.ttl == ans.header.ttl
    ensures r.priority != 0 ==> ans.AnswerMX?
    ensures ans.AnswerMX? ==> r.priority == ans.preference
  {
    var h := ans.header;
    match ans
    case AnswerA(_, address) => DNSRecord(h.name, h.rrtype, address, h.ttl, 0)
    case AnswerAAAA(_, address) => DNSRecord(h.name, h.rrtype, address, h.ttl, 0)
    case AnswerMX(_, preference, mx) => DNSRecord(h.name, h.rrtype, mx, h.ttl, preference)
    case AnswerTXT(_, txt) => DNSRecord(h.name, h.rrtype, Join(txt, Space), h.ttl, 0)
    case OtherAnswer(_) => DNSRecord(h.name, h.rrtype, [], h.ttl, 0)
  }

  /** Every answer record, normalised, in answer order. */
  function NormalizeAll(answers: seq<Answer>): (rs: seq<DNSRecord>)
    ensures |rs| == |answers|
    ensures forall i | 0 <= i < |answers| :: rs[i] == Normalize(answers[i])
  {
    if answers == [] then []
    else NormalizeAll(answers[..|answers| - 1]) + [Normalize(answers[|answers| - 1])]
  }

  /** The index of the first server that answers, or `|servers|` when all fail. */
  function FirstResponder(domain: seq<byte>, qtype: QueryType, servers: seq<seq<byte>>, exchange: Exchange): (k: nat)
    ensures k <= |servers|
    ensures forall m | 0 <= m < k :: exchange(domain, qtype, servers[m]).ExchangeFailed?
    ensures k < |servers| ==> exchange(domain, qtype, servers[k]).Answered?
  {
    if servers == [] then 0
    else if exchange(domain, qtype, servers[0]).Answered? then 0
    else 1 + FirstResponder(domain, qtype, servers[1..], exchange)
  }

  /** What `queryRecords` sends on its results channel: the normalised
      answer of the first server that answers, or nothing at all. */
  function Resolve(domain: seq<byte>, qtype: QueryType, servers: seq<seq<byte>>, exchange: Exchange): (records: seq<DNSRecord>) {
    var k := FirstResponder(domain, qtype, servers, exchange);
    if k == |servers| then [] else NormalizeAll(exchange(domain, qtype, servers[k]).answer)
  }

  /** `queryRecords`: the server loop with `continue` on error and `break`
      after the first answer, and the inner loop over the answer section. */
  method QueryRecords(domain: seq<byte>, qtype: QueryType, servers: seq<seq<byte>>, exchange: Exchange)
    returns (records: seq<DNSRecord>)
    ensures records == Resolve(domain, qtype, servers, exchange)
  {
    records := [];
    var s := 0;
    while s < |servers|
      invariant 0 <= s <= |servers|
      invariant records == []
      invariant forall m | 0 <= m < s :: exchange(domain, qtype, servers[m]).ExchangeFailed?
    {
      var r := exchange(domain, qtype, servers[s]);
      if r.ExchangeFailed? {
        s := s + 1;
        continue;
      }
      var i := 0;
      while i < |r.answer|
        invariant 0 <= i <= |r.answer|
        invariant records == NormalizeAll(r.answer[..i])
      {
        assert r.answer[..i + 1][..i] == r.answer[..i];
        records := records + [Normalize(r.answer[i])];
        i := i + 1;
      }
      assert r.answer[..i] == r.answer;
      FirstResponderIs(domain, qtype, servers, exchange, s);
      break;
    }
  }

  /** The first responder is the server that answers after only failures. */
  lemma FirstResponderIs(domain: seq<byte>, qtype: QueryType, servers: seq<seq<byte>>, exchange: Exchange, k: nat)
    requires k <= |servers|
    requires forall m | 0 <= m < k :: exchange(domain, qtype, servers[m]).ExchangeFailed?
    requires k < |servers| ==> exchange(domain, qtype, servers[k]).Answered?
    ensures FirstResponder(domain, qtype, servers, exchange) == k
  {
  }

  // ---------------------------------------------------------------------
  // Properties of the fallback.

  /** When every server fails, the result is an empty record list (and no error). */
  lemma AllServersFail(domain: seq<byte>, qtype: QueryType, servers: seq<seq<byte>>, exchange: Exchange)
    requires forall m | 0 <= m < |servers| :: exchange(domain, qtype, servers[m]).ExchangeFailed?
    ensures Resolve(domain, qtype, servers, exchange) == []
  {
    FirstResponderIs(domain, qtype, servers, exchange, |servers|);
  }

  /** The records are exactly the normalised answer of the server that
      answered after all servers before it failed, even when that answer is
      empty and a later server would have had records. */
  lemma FirstAnswerWins(domain: seq<byte>, qtype: QueryType, servers: seq<seq<byte>>, exchange: Exchange, k: nat)
    requires k < |servers|
    requires forall m | 0 <= m < k :: exchange(domain, qtype, servers[m]).ExchangeFailed?
    requires exchange(domain, qtype, servers[k]).Answered?
    ensures Resolve(domain, qtype, servers, exchange) == NormalizeAll(exchange(domain, qtype, servers[k]).answer)
  {
    FirstResponderIs(domain, qtype, servers, exchange, k);
  }

  /** Servers after the first one that answers are never consulted: changing
      what they would say changes nothing. */
  lemma LaterServersIgnored(domain: seq<byte>, qtype: QueryType, servers: seq<seq<byte>>,
                            exchange: Exchange, exchange': Exchange)
    requires var k := FirstResponder(domain, qtype, servers, exchange);
      forall m | 0 <= m <= k && m < |servers| :: exchange(domain, qtype, servers[m]) == exchange'(domain, qtype, servers[m])
    ensures Resolve(domain, qtype, servers, exchange) == Resolve(domain, qtype, servers, exchange')
  {
    var k := FirstResponder(domain, qtype, servers, exchange);
    FirstResponderIs(domain, qtype, servers, exchange', k);
  }

  // ---------------------------------------------------------------------
  // Properties of the normalisation.

  /** The TXT value splits back into the record's strings when none of them
      holds a space. */
  lemma TxtValueRoundTrip(h: Header, txt: seq<seq<byte>>)
    requires |txt| >= 1
    requires forall k, m | 0 <= k < |txt| && 0 <= m < |txt[k]| :: txt[k][m] != Space
    ensures Split(Normalize(AnswerTXT(h, txt)).value, Space) == txt
  {
    SplitJoin(txt, Space);
  }

  /** Every record the resolver returns comes from a header of the chosen
      answer, and only MX records carry a priority. */
  lemma ResolvedRecordsShape(domain: seq<byte>, qtype: QueryType, servers: seq<seq<byte>>, exchange: Exchange, i: nat)
    requires i < |Resolve(domain, qtype, servers, exchange)|
    ensures var k := FirstResponder(domain, qtype, servers, exchange);
      && k < |servers|
      && var ans := exchange(domain, qtype, servers[k]).answer[i];
         && Resolve(domain, qtype, servers, exchange)[i] == Normalize(ans)
         && (Resolve(domain, qtype, servers, exchange)[i].priority != 0 ==> ans.AnswerMX?)
  {
  }
}
