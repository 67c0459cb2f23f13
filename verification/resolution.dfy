/** The resolution policy of `resolveRecords` (plugin/nns/nns.go): which of a
    name's records answers a query, and the answer built from it. */
module Resolution {
  import opened Base
  import opened Text
  import opened Faults
  import opened Contract
  import opened DnsRecords

  /** Query names under this prefix ask for raw dnslink TXT data. */
  const DnsLinkPrefix: string := "_dnslink."
  /** The content gateway every other TXT-backed answer points to. */
  const Gateway: string := "dweb.link"
  const AnswerTtl: uint32 := 3600

  /** The question being answered: `qname` as the client sent it, `name` as the
      host server normalises it for the answer's owner name. */
  datatype Question = Question(qname: string, name: string, qtype: uint16, qclass: uint16)

  /** The record types the selection loop stops at. */
  predicate Answerable(t: byte) {
    t == NnsA || t == NnsCNAME || t == NnsTXT || t == NnsAAAA
  }

  /** What an answerable record resolves to: its data under its own type, except
      that a TXT record is returned as TXT only to a TXT query for a dnslink
      name, and is otherwise a CNAME to the gateway. */
  function Answer(rec: NnsRecord, q: Question): (a: (string, uint16))
    requires Answerable(rec.rtype)
    ensures rec.rtype != NnsTXT ==> a == (rec.data, rec.rtype)
    ensures rec.rtype == NnsTXT ==>
      (a.1 == TypeTXT <==> q.qtype == TypeTXT && HasPrefix(q.qname, DnsLinkPrefix))
    ensures rec.rtype == NnsTXT ==> a == (rec.data, TypeTXT) || a == (Gateway, TypeCNAME)
    ensures Synthesizable(a.1)
  {
    if rec.rtype == NnsA then (rec.data, TypeA)
    else if rec.rtype == NnsCNAME then (rec.data, TypeCNAME)
    else if rec.rtype == NnsTXT then
      if q.qtype == TypeTXT && HasPrefix(q.qname, DnsLinkPrefix) then (rec.data, TypeTXT)
      else (Gateway, TypeCNAME)
    else (rec.data, TypeAAAA)
  }

  /** The position of the first answerable record, if any. */
  function FirstAnswerable(records: seq<NnsRecord>): (k: Option<nat>)
    ensures k.None? <==> forall i :: 0 <= i < |records| ==> !Answerable(records[i].rtype)
    ensures k.Some? ==> k.value < |records| && Answerable(records[k.value].rtype)
    ensures k.Some? ==> forall i :: 0 <= i < k.value ==> !Answerable(records[i].rtype)
  {
    if records == [] then None
    else if Answerable(records[0].rtype) then Some(0)
    else
      match FirstAnswerable(records[1..])
      case None =>
        assert forall i :: 1 <= i < |records| ==> records[i] == records[1..][i - 1];
        None
      case Some(j) =>
        assert forall i :: 1 <= i < j + 1 ==> records[i] == records[1..][i - 1];
        Some(j + 1)
  }

  /** The selection loop: scans the records in order and stops at the first
      answerable one; ("", 0) when there is none. */
  method SelectRecord(allrecord: seq<NnsRecord>, q: Question) returns (resolved: string, reType: uint16)
    ensures FirstAnswerable(allrecord).None? ==> resolved == "" && reType == 0
    ensures FirstAnswerable(allrecord).Some? ==> (resolved, reType) == Answer(allrecord[FirstAnswerable(allrecord).value], q)
  {
    resolved, reType := "", 0;
    for i := 0 to |allrecord|
      invariant forall j :: 0 <= j < i ==> !Answerable(allrecord[j].rtype)
      invariant resolved == "" && reType == 0
    {
      var item := allrecord[i];
      if item.rtype == NnsA {
        resolved, reType := item.data, TypeA;
        break;
      }
      if item.rtype == NnsCNAME {
        resolved, reType := item.data, TypeCNAME;
        break;
      }
      if item.rtype == NnsTXT {
        if q.qtype == TypeTXT {
          if HasPrefix(q.qname, DnsLinkPrefix) {
            resolved, reType := item.data, TypeTXT;
          } else {
            resolved, reType := Gateway, TypeCNAME;
          }
        } else {
          resolved, reType := Gateway, TypeCNAME;
        }
        break;
      }
      if item.rtype == NnsAAAA {
        resolved, reType := item.data, TypeAAAA;
        break;
      }
    }
  }

  /** The header of the answer record. */
  function AnswerHeader(q: Question, reType: uint16): Header {
    Header(q.name, reType, q.qclass, AnswerTtl, 0)
  }

  /** The answer `resolveRecords` builds from a name's records: exactly one
      record, from the first answerable one; with none, `formRec` fails on type 0. */
  function Answers(records: seq<NnsRecord>, q: Question): (r: Result<seq<RR>, Fault>)
    ensures r.Ok? <==> exists i :: 0 <= i < |records| && Answerable(records[i].rtype)
    ensures r.Err? ==> r.error == UnsupportedRecordType(0)
    ensures r.Ok? ==>
      var k := FirstAnswerable(records).value;
      var (resolved, reType) := Answer(records[k], q);
      && |r.value| == 1
      && FormRec(reType, resolved, AnswerHeader(q, reType)) == Ok(r.value[0])
  {
    match FirstAnswerable(records)
    case None => Err(UnsupportedRecordType(0))
    case Some(k) =>
      var (resolved, reType) := Answer(records[k], q);
      match FormRec(reType, resolved, AnswerHeader(q, reType))
      case Ok(rr) => Ok([rr])
      case Err(e) => Err(e)
  }

  /** What the selection loop picks, passed through `formResRecords` with the
      answer header, is `Answers`. */
  lemma SelectionAnswers(records: seq<NnsRecord>, q: Question, resolved: string, reType: uint16, res: Result<seq<RR>, Fault>)
    requires FirstAnswerable(records).None? ==> resolved == "" && reType == 0
    requires FirstAnswerable(records).Some? ==> (resolved, reType) == Answer(records[FirstAnswerable(records).value], q)
    requires res.Err? <==> !Synthesizable(reType)
    requires res.Err? ==> res.error == UnsupportedRecordType(reType)
    requires res.Ok? ==> |res.value| == 1 && FormRec(reType, resolved, AnswerHeader(q, reType)) == Ok(res.value[0])
    ensures res == Answers(records, q)
  {
    if res.Ok? {
      assert res.value == [res.value[0]];
    }
  }

  /** The answer's owner, class and ttl come from the question, and its type
      is the type the selected record resolves to. */
  lemma AnswerHeaderFromQuestion(records: seq<NnsRecord>, q: Question)
    requires Answers(records, q).Ok?
    ensures var rr := Answers(records, q).value[0];
      && rr.hdr.name == q.name && rr.hdr.rrclass == q.qclass && rr.hdr.ttl == AnswerTtl
      && rr.hdr.rrtype == Kind(rr)
  {
  }

  /** The TXT rule end to end: a TXT record answers as TXT data only to a TXT
      query for a dnslink name; otherwise it answers as a CNAME to "dweb.link.". */
  lemma TxtRecordAnswer(records: seq<NnsRecord>, q: Question, k: nat)
    requires k < |records| && records[k].rtype == NnsTXT
    requires forall i :: 0 <= i < k ==> !Answerable(records[i].rtype)
    ensures q.qtype == TypeTXT && HasPrefix(q.qname, DnsLinkPrefix) ==>
      Answers(records, q) == Ok([TXT(AnswerHeader(q, TypeTXT), [records[k].data])])
    ensures !(q.qtype == TypeTXT && HasPrefix(q.qname, DnsLinkPrefix)) ==>
      Answers(records, q) == Ok([CNAME(AnswerHeader(q, TypeCNAME), Gateway + ".")])
  {
    assert FirstAnswerable(records) == Some(k);
  }

  /** A CNAME or A record answers with its own data; the record found first
      wins even when a later record has another type. */
  lemma FirstRecordWins(a: NnsRecord, rest: seq<NnsRecord>, q: Question)
    requires a.rtype == NnsA || a.rtype == NnsCNAME || a.rtype == NnsAAAA
    ensures a.rtype == NnsA ==> Answers([a] + rest, q) == Ok([A(AnswerHeader(q, TypeA).(rdlength := 4), a.data)])
    ensures a.rtype == NnsCNAME ==> Answers([a] + rest, q) == Ok([CNAME(AnswerHeader(q, TypeCNAME), a.data + ".")])
    ensures a.rtype == NnsAAAA ==> Answers([a] + rest, q) == Ok([AAAA(AnswerHeader(q, TypeAAAA), a.data)])
  {
    assert FirstAnswerable([a] + rest) == Some(0);
  }
}
