/** The plugin object (plugin/nns/nns.go): the mapping of DNS names onto NNS
    names, query resolution, and zone transfer. */
module Nns {
  import opened Base
  import opened Text
  import opened Faults
  import opened Contract
  import opened DnsRecords
  import opened Resolution
  import opened Zone

  /** The suffix every query name is stripped of before it is looked up. */
  const OngoingClub: string := ".ongoing.club"

  lemma ToLowerConcat(a: string, b: string)
    ensures ToLower(a + b) == ToLower(a) + ToLower(b)
  {
    assert forall i :: 0 <= i < |a + b| ==> ToLower(a + b)[i] == (ToLower(a) + ToLower(b))[i];
  }

  /** The first three steps of `prepareName`: the root dot dropped, ASCII
      letters lowered, and the ".ongoing.club" suffix dropped. The lowered
      query name is the result followed by what was dropped. */
  function Canonical(name: string): (r: string)
    ensures forall i :: 0 <= i < |r| ==> !IsUpper(r[i])
    ensures HasPrefix(ToLower(name), r)
    ensures ToLower(name)[|r|..] in {"", ".", OngoingClub, OngoingClub + "."}
  {
    var trimmed := TrimSuffix(name, ".");
    var lower := ToLower(trimmed);
    var r := TrimSuffix(lower, OngoingClub);
    var dropped := if HasSuffix(name, ".") then "." else "";
    assert name == trimmed + dropped;
    ToLowerConcat(trimmed, dropped);
    assert ToLower(dropped) == dropped;
    var tail := if HasSuffix(lower, OngoingClub) then OngoingClub else "";
    assert lower == r + tail;
    assert ToLower(name) == r + (tail + dropped);
    assert ToLower(name)[..|r|] == r && ToLower(name)[|r|..] == tail + dropped;
    r
  }

  /** What is left of a canonical name once the DNS domain and one dot are
      taken off its end. */
  function Stem(c: string, dnsDomain: string): (s: string)
    ensures HasPrefix(c, s)
    ensures HasSuffix(c, dnsDomain) ==> c[|s|..] in {dnsDomain, "." + dnsDomain}
    ensures !HasSuffix(c, dnsDomain) ==> c[|s|..] in {"", "."}
    ensures s == "" <==> c in {"", ".", dnsDomain, "." + dnsDomain}
  {
    var t := TrimSuffix(c, dnsDomain);
    var s := TrimSuffix(t, ".");
    var d := if HasSuffix(c, dnsDomain) then dnsDomain else "";
    var e := if HasSuffix(t, ".") then "." else "";
    assert c == t + d && t == s + e;
    assert c == s + (e + d);
    assert c[..|s|] == s && c[|s|..] == e + d;
    s
  }

  /** What `Canonical` drops is exactly what is there: a dot when the name ends
      with one, and before it ".ongoing.club" when the lowered name without
      that dot ends with it. */
  lemma CanonicalTail(name: string)
    ensures var tail := ToLower(name)[|Canonical(name)|..];
      && (HasSuffix(tail, ".") <==> HasSuffix(name, "."))
      && (HasPrefix(tail, OngoingClub) <==> HasSuffix(ToLower(TrimSuffix(name, ".")), OngoingClub))
  {
    var trimmed := TrimSuffix(name, ".");
    var dropped := if HasSuffix(name, ".") then "." else "";
    assert name == trimmed + dropped;
    ToLowerConcat(trimmed, dropped);
    assert ToLower(dropped) == dropped;
    var lower := ToLower(trimmed);
    var tail := if HasSuffix(lower, OngoingClub) then OngoingClub else "";
    assert lower == Canonical(name) + tail;
    assert ToLower(name)[|Canonical(name)|..] == tail + dropped;
    assert HasSuffix(tail + dropped, ".") <==> dropped == "." by {
      assert OngoingClub[|OngoingClub| - 1] != '.';
      assert tail + dropped == [] || (tail + dropped)[|tail + dropped| - 1..] == [(tail + dropped)[|tail + dropped| - 1]];
    }
    assert HasPrefix(tail + dropped, OngoingClub) <==> tail == OngoingClub by {
      assert (OngoingClub + dropped)[..|OngoingClub|] == OngoingClub;
    }
  }

  /** What `Stem` drops is exactly what is there: the DNS domain when the name
      ends with it, and before that one dot when there is one. */
  lemma StemTail(c: string, d: string)
    ensures var s := Stem(c, d);
      && (HasSuffix(c, d) ==> (c[|s|..] == "." + d <==> HasSuffix(TrimSuffix(c, d), ".")))
      && (!HasSuffix(c, d) ==> (c[|s|..] == "." <==> HasSuffix(c, ".")))
  {
    var t := TrimSuffix(c, d);
    var s := Stem(c, d);
    var e := if HasSuffix(t, ".") then "." else "";
    var dd := if HasSuffix(c, d) then d else "";
    assert c == t + dd && t == s + e;
    assert c[|s|..] == e + dd;
  }

  /** Whatever its letter case, the ".ongoing.club" suffix does not end with a dot. */
  lemma SuffixUndotted(s: string, u: string)
    requires ToLower(u) == OngoingClub
    ensures !HasSuffix(s + u, ".")
  {
    assert ToLower(u)[|u| - 1] == 'b';
    assert (s + u)[|s + u| - 1] == u[|u| - 1];
  }

  /** Both suffixes are taken off, the ".ongoing.club" one in any letter case,
      and the root dot also when it follows the suffix. */
  lemma CanonicalStrips(s: string, u: string)
    requires ToLower(u) == OngoingClub
    ensures Canonical(s + u) == ToLower(s)
    ensures Canonical(s + u + ".") == ToLower(s)
    ensures !HasSuffix(ToLower(s), OngoingClub) ==> Canonical(s + ".") == ToLower(s)
  {
    ToLowerConcat(s, u);
    SuffixUndotted(s, u);
    assert (ToLower(s) + OngoingClub)[|ToLower(s)|..] == OngoingClub;
    assert (s + u + ".")[..|s + u|] == s + u;
    assert (s + ".")[..|s|] == s;
  }

  /** The DNS domain and then one dot before it are taken off, and a name
      that does not end with the domain only loses one trailing dot. */
  lemma StemStrips(x: string, d: string)
    ensures Stem(x + "." + d, d) == x
    ensures !HasSuffix(x, ".") ==> Stem(x + d, d) == x
    ensures !HasSuffix(x, d) && !HasSuffix(x, ".") ==> Stem(x, d) == x
  {
    assert (x + "." + d)[..|x + "."|] == x + ".";
    assert (x + ".")[..|x|] == x;
    assert (x + d)[..|x|] == x;
  }

  /** `prepareName`: the NNS name a DNS query name is looked up under, given
      the configured domains. Without an NNS domain it is the canonical name.
      With one, the DNS domain is exchanged for the NNS domain; a name that is
      just the DNS domain maps to the NNS domain itself. */
  function MapName(dnsDomain: string, nnsDomain: string, name: string): (r: string)
    ensures nnsDomain == "" ==> r == Canonical(name)
    ensures nnsDomain != "" ==> HasSuffix(r, nnsDomain)
    ensures nnsDomain != "" ==> (r == nnsDomain <==> Canonical(name) in {"", ".", dnsDomain, "." + dnsDomain})
    ensures nnsDomain != "" && r != nnsDomain ==> r == Stem(Canonical(name), dnsDomain) + "." + nnsDomain
  {
    var c := Canonical(name);
    if nnsDomain == "" then c
    else
      var stem := TrimSuffix(TrimSuffix(c, dnsDomain), ".");
      assert stem == Stem(c, dnsDomain);
      var r := (if stem != "" then stem + "." else "") + nnsDomain;
      assert r[|r| - |nnsDomain|..] == nnsDomain;
      r
  }

  /** The part of a query name looked up in the contract: for TXT queries the
      "_dnslink." label is taken off the mapped name. */
  function LookupName(mapped: string, qtype: uint16): (r: string)
    ensures qtype == TypeTXT && HasPrefix(mapped, DnsLinkPrefix) ==> DnsLinkPrefix + r == mapped
    ensures qtype != TypeTXT || !HasPrefix(mapped, DnsLinkPrefix) ==> r == mapped
  {
    if qtype == TypeTXT then TrimPrefix(mapped, DnsLinkPrefix) else mapped
  }

  /** `resolveRecords` once the query name is mapped, given what the node
      answers to `getAllRecords` for it: the query type must be one the
      contract stores (otherwise the node is never asked), and the first
      answerable record gives the single answer. Every failure names the query
      and the looked-up name. */
  function ResolveOutcome(lookup: string, q: Question, fetched: Result<seq<NnsRecord>, Fault>): (r: Result<seq<RR>, Fault>)
    ensures !Synthesizable(q.qtype) ==> r == Err(CannotResolve(q.qname, q.qtype, lookup, UnsupportedRecordType(q.qtype)))
    ensures Synthesizable(q.qtype) && fetched.Err? ==> r == Err(CannotResolve(q.qname, q.qtype, lookup, fetched.error))
    ensures r.Err? ==> r.error.CannotResolve? && r.error.qname == q.qname && r.error.mapped == lookup
    ensures r.Ok? <==>
      && Synthesizable(q.qtype)
      && fetched.Ok?
      && exists i :: 0 <= i < |fetched.value| && Answerable(fetched.value[i].rtype)
    ensures r.Ok? ==>
      && |r.value| == 1
      && r.value[0].hdr.name == q.name && r.value[0].hdr.rrclass == q.qclass && r.value[0].hdr.ttl == AnswerTtl
  {
    match GetNNSType(q.qtype)
    case Err(e) => Err(CannotResolve(q.qname, q.qtype, lookup, e))
    case Ok(_) =>
      match fetched
      case Err(e) => Err(CannotResolve(q.qname, q.qtype, lookup, e))
      case Ok(records) =>
        match Answers(records, q)
        case Err(e) => Err(CannotResolve(q.qname, q.qtype, lookup, e))
        case Ok(rrs) =>
          AnswerHeaderFromQuestion(records, q);
          Ok(rrs)
  }

  /** The query type only gates the lookup: among the types the contract
      stores, other than TXT, every query type gets the same answer, whose
      type is that of the first answerable record. */
  lemma AnswerIgnoresQueryType(lookup: string, q: Question, qtype: uint16, fetched: Result<seq<NnsRecord>, Fault>)
    requires Synthesizable(q.qtype) && Synthesizable(qtype)
    requires q.qtype != TypeTXT && qtype != TypeTXT
    ensures ResolveOutcome(lookup, q, fetched).Ok? ==> ResolveOutcome(lookup, q.(qtype := qtype), fetched) == ResolveOutcome(lookup, q, fetched)
  {
    var q2 := q.(qtype := qtype);
    if fetched.Ok? {
      var records := fetched.value;
      match FirstAnswerable(records)
      case None =>
      case Some(k) =>
        assert Answer(records[k], q2) == Answer(records[k], q);
    }
  }

  /** `Transfer` once the zone name is mapped: the zone must hold an SOA record
      or the server is not authoritative; otherwise the stream carries the
      transferred zone, or closes empty when the transfer fails. */
  function TransferOutcome(mapped: string, node: Node): (r: Result<seq<seq<RR>>, Fault>)
    ensures r.Err? <==> StringsReply(node, "getRecords", mapped, NnsSOA).Err? || StringsReply(node, "getRecords", mapped, NnsSOA).value == []
    ensures r.Err? ==> r.error == NotAuthoritative
    ensures r.Ok? ==> |r.value| <= 1
    ensures r.Ok? ==> (r.value == [] <==> ZoneOf(AllRecords(node, mapped)).Err?)
  {
    var soa := StringsReply(node, "getRecords", mapped, NnsSOA);
    if soa.Err? || soa.value == [] then Err(NotAuthoritative)
    else
      match ZoneOf(AllRecords(node, mapped))
      case Ok(z) => Ok([z])
      case Err(_) => Ok([])
  }

  /** A transferred zone opens and closes with the same SOA, carries one entry
      per stored record, and every owner name ends with the root dot. */
  lemma TransferredZone(mapped: string, node: Node)
    requires TransferOutcome(mapped, node).Ok? && TransferOutcome(mapped, node).value != []
    ensures var z := TransferOutcome(mapped, node).value[0];
      && AllRecords(node, mapped).Ok?
      && |z| == |AllRecords(node, mapped).value| + 1
      && z[0].SOA? && z[0] == z[|z| - 1]
      && forall i :: 0 <= i < |z| ==> AppendRoot(z[i].hdr.name) == z[i].hdr.name
  {
    ZoneShape(AllRecords(node, mapped).value);
  }

  class NNS {
    /** The NNS domain names are mapped into, without edge dots; empty when no
        mapping is configured. */
    var nnsDomain: string
    /** The DNS domain stripped from query names when mapping, without edge dots. */
    var dnsDomain: string

    predicate Valid()
      reads this
    {
      NoEdgeDots(nnsDomain) && NoEdgeDots(dnsDomain)
    }

    constructor ()
      ensures Valid()
      ensures nnsDomain == "" && dnsDomain == ""
    {
      nnsDomain := "";
      dnsDomain := "";
    }

    /** `setDNSDomain`: stores the domain without its leading and trailing dots. */
    method SetDNSDomain(name: string)
      requires Valid()
      modifies this`dnsDomain
      ensures Valid()
      ensures dnsDomain == TrimDots(name)
      ensures nnsDomain == old(nnsDomain)
    {
      dnsDomain := TrimDots(name);
    }

    /** `setNNSDomain`: stores the domain without its leading and trailing dots. */
    method SetNNSDomain(name: string)
      requires Valid()
      modifies this`nnsDomain
      ensures Valid()
      ensures nnsDomain == TrimDots(name)
      ensures dnsDomain == old(dnsDomain)
    {
      nnsDomain := TrimDots(name);
    }

    /** `prepareName` under the current configuration. Once an NNS domain is
        set, the name looked up never ends with the root dot, since the
        stored domain has no edge dots. */
    function PrepareName(name: string): (r: string)
      reads this
      requires Valid()
      ensures nnsDomain != "" ==> r != [] && r[|r| - 1] != '.'
    {
      MapName(dnsDomain, nnsDomain, name)
    }

    /** `zoneTransfer`: fetches the zone's records, roots their names in
        place while counting the SOA records, demands exactly one, exchanges it
        with the first record, and assembles the zone. */
    method ZoneTransfer(node: Node, name: string) returns (r: Result<seq<RR>, Fault>)
      ensures r == ZoneOf(AllRecords(node, name))
    {
      var all := GetAllRecords(node, name);
      if all.Err? {
        return Err(all.error);
      }
      var v := all.value;
      var records := new NnsRecord[|v|];
      forall i | 0 <= i < |v| {
        records[i] := v[i];
      }
      assert records[..] == v;
      var numSoa, index := RootNames(records);
      assert records[..] == Rooted(v);
      if numSoa != 1 {
        return Err(InvalidSoaCount(numSoa));
      }
      SingleSoa(v);
      if index != 0 {
        records[0], records[index] := records[index], records[0];
      }
      assert records[..] == Swapped(Rooted(v), index);
      r := FormZoneTransfer(records[..]);
    }

    /** `resolveRecords`: maps the query name, looks it up, and answers with
        the first answerable record. */
    method ResolveRecords(q: Question, node: Node) returns (r: Result<seq<RR>, Fault>)
      requires Valid()
      ensures var lookup := LookupName(PrepareName(q.qname), q.qtype);
        r == ResolveOutcome(lookup, q, AllRecords(node, lookup))
    {
      var name := PrepareName(q.qname);
      if q.qtype == TypeTXT {
        name := TrimPrefix(name, DnsLinkPrefix);
      }
      assert name == LookupName(PrepareName(q.qname), q.qtype);
      var nnsType := GetNNSType(q.qtype);
      if nnsType.Err? {
        return Err(CannotResolve(q.qname, q.qtype, name, nnsType.error));
      }
      var allrecord := GetAllRecords(node, name);
      if allrecord.Err? {
        return Err(CannotResolve(q.qname, q.qtype, name, allrecord.error));
      }
      var resolved, reType := SelectRecord(allrecord.value, q);
      var hdr := AnswerHeader(q, reType);
      var res := FormResRecords(hdr, [resolved]);
      SelectionAnswers(allrecord.value, q, resolved, reType, res);
      if res.Err? {
        return Err(CannotResolve(q.qname, q.qtype, name, res.error));
      }
      return Ok(res.value);
    }

    /** `Transfer`: checks that the zone has an SOA record, then transfers it.
        The stream is the returned sequence of messages. */
    method Transfer(node: Node, zone: string) returns (r: Result<seq<seq<RR>>, Fault>)
      requires Valid()
      ensures r == TransferOutcome(PrepareName(zone), node)
    {
      var trimmedZone := PrepareName(zone);
      var records := GetRecords(node, trimmedZone, NnsSOA);
      if records.Err? {
        return Err(NotAuthoritative);
      }
      if |records.value| == 0 {
        return Err(NotAuthoritative);
      }
      var recs := ZoneTransfer(node, trimmedZone);
      if recs.Err? {
        return Ok([]);
      }
      return Ok([recs.value]);
    }
  }

  /** A lower-case name without a trailing dot or the ".ongoing.club" suffix
      is already canonical, and so is it followed by the root dot. */
  lemma CanonicalName(s: string)
    requires Lowercase(s) && (s == [] || s[|s| - 1] != '.') && !HasSuffix(s, OngoingClub)
    ensures Canonical(s) == s && Canonical(s + ".") == s
  {
    LowerIdentity(s);
    assert (s + ".")[..|s|] == s;
  }

  /** A name that is just the DNS domain, with or without the root dot, maps
      to the NNS domain itself. */
  lemma MapDnsDomain(dnsDomain: string, nnsDomain: string)
    requires nnsDomain != ""
    requires Lowercase(dnsDomain) && (dnsDomain == [] || dnsDomain[|dnsDomain| - 1] != '.') && !HasSuffix(dnsDomain, OngoingClub)
    ensures MapName(dnsDomain, nnsDomain, dnsDomain) == nnsDomain
    ensures MapName(dnsDomain, nnsDomain, dnsDomain + ".") == nnsDomain
  {
    CanonicalName(dnsDomain);
  }

  /** A name below the DNS domain maps to the same labels below the NNS
      domain, with or without the root dot. With an empty DNS domain every
      name counts as below it. */
  lemma MapBelowDnsDomain(dnsDomain: string, nnsDomain: string, labels: string)
    requires nnsDomain != "" && labels != [] && labels[|labels| - 1] != '.'
    requires var name := if dnsDomain == "" then labels else labels + "." + dnsDomain;
      && Lowercase(name) && name[|name| - 1] != '.' && !HasSuffix(name, OngoingClub)
    ensures var name := if dnsDomain == "" then labels else labels + "." + dnsDomain;
      && MapName(dnsDomain, nnsDomain, name) == labels + "." + nnsDomain
      && MapName(dnsDomain, nnsDomain, name + ".") == labels + "." + nnsDomain
  {
    var name := if dnsDomain == "" then labels else labels + "." + dnsDomain;
    CanonicalName(name);
    if dnsDomain == "" {
      assert TrimSuffix(name, dnsDomain) == labels;
    } else {
      assert name[..|name| - |dnsDomain|] == labels + ".";
      assert TrimSuffix(name, dnsDomain) == labels + ".";
      assert (labels + ".")[..|labels|] == labels;
    }
  }

  /** `prepareName` removes only one trailing dot, so it is not idempotent:
      "a.." maps to "a.", which maps to "a". */
  lemma MapNameNotIdempotent()
    ensures MapName("", "", "a..") == "a."
    ensures MapName("", "", "a.") == "a"
  {
    LowerIdentity("a.");
    LowerIdentity("a");
  }
}
