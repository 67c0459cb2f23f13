/** Zone transfer (AXFR) assembly: `zoneTransfer` and `formZoneTransfer` in
    plugin/nns/nns.go. */
module Zone {
  import opened Base
  import opened Faults
  import opened Contract
  import opened DnsRecords

  predicate IsSoa(rec: NnsRecord) {
    rec.rtype == NnsSOA
  }

  /** How many SOA records a sequence holds. */
  function SoaCount(rs: seq<NnsRecord>): (c: nat)
    ensures c <= |rs|
    ensures c == 0 <==> forall j :: 0 <= j < |rs| ==> !IsSoa(rs[j])
  {
    if rs == [] then 0
    else SoaCount(rs[..|rs| - 1]) + (if IsSoa(rs[|rs| - 1]) then 1 else 0)
  }

  /** The position of the last SOA record, if any. */
  function LastSoaIndex(rs: seq<NnsRecord>): (k: Option<nat>)
    ensures k.None? <==> forall j :: 0 <= j < |rs| ==> !IsSoa(rs[j])
    ensures k.Some? ==> k.value < |rs| && IsSoa(rs[k.value])
    ensures k.Some? ==> forall j :: k.value < j < |rs| ==> !IsSoa(rs[j])
  {
    if rs == [] then None
    else if IsSoa(rs[|rs| - 1]) then Some(|rs| - 1)
    else LastSoaIndex(rs[..|rs| - 1])
  }

  /** With exactly one SOA record, the last SOA is the only one. */
  lemma {:induction false} SingleSoa(rs: seq<NnsRecord>)
    requires SoaCount(rs) == 1
    ensures LastSoaIndex(rs).Some?
    ensures forall j :: 0 <= j < |rs| && j != LastSoaIndex(rs).value ==> !IsSoa(rs[j])
  {
    var init := rs[..|rs| - 1];
    if IsSoa(rs[|rs| - 1]) {
      assert SoaCount(init) == 0;
      assert forall j :: 0 <= j < |init| ==> init[j] == rs[j];
    } else {
      SingleSoa(init);
      assert forall j :: 0 <= j < |init| ==> init[j] == rs[j];
    }
  }

  /** A record whose name ends with the root dot. */
  function Root(rec: NnsRecord): (r: NnsRecord)
    ensures r.rtype == rec.rtype && r.data == rec.data
    ensures AppendRoot(r.name) == r.name
  {
    AppendRootIdempotent(rec.name);
    rec.(name := AppendRoot(rec.name))
  }

  function Rooted(rs: seq<NnsRecord>): (r: seq<NnsRecord>)
    ensures |r| == |rs| && forall j :: 0 <= j < |rs| ==> r[j] == Root(rs[j])
  {
    seq(|rs|, j requires 0 <= j < |rs| => Root(rs[j]))
  }

  /** The single exchange that moves the record at `k` to the front. */
  function Swapped(rs: seq<NnsRecord>, k: nat): (r: seq<NnsRecord>)
    requires k < |rs|
    ensures |r| == |rs| && r[0] == rs[k] && r[k] == rs[0]
    ensures forall j :: 0 < j < |rs| && j != k ==> r[j] == rs[j]
  {
    if k == 0 then rs else rs[0 := rs[k]][k := rs[0]]
  }

  /** The exchange only reorders: no record is lost or duplicated. */
  lemma {:induction false} SwapPermutes(rs: seq<NnsRecord>, k: nat)
    requires k < |rs|
    ensures multiset(Swapped(rs, k)) == multiset(rs)
  {
    if k != 0 {
      var t := rs[0 := rs[k]];
      assert multiset(t) == multiset(rs) - multiset{rs[0]} + multiset{rs[k]};
      assert multiset(t[k := rs[0]]) == multiset(t) - multiset{rs[k]} + multiset{rs[0]};
    }
  }

  /** Every record after the SOA becomes one record of its own type, owned by
      its own name, class INET, ttl 0. */
  function ZoneEntry(rec: NnsRecord): (r: Result<RR, Fault>)
    ensures r.Ok? <==> Synthesizable(rec.rtype)
    ensures r.Ok? ==>
      && r.value.hdr.name == rec.name && r.value.hdr.rrclass == ClassINET
      && r.value.hdr.ttl == 0 && Kind(r.value) == rec.rtype
  {
    FormRec(rec.rtype as uint16, rec.data, Header(rec.name, rec.rtype as uint16, ClassINET, 0, 0))
  }

  /** The zone around an SOA record: the SOA, one entry per further record,
      the SOA again; the first entry that cannot be built is the error. */
  function Assembled(soa: RR, rest: seq<NnsRecord>): (r: Result<seq<RR>, Fault>)
    ensures r.Ok? <==> forall i :: 0 <= i < |rest| ==> Synthesizable(rest[i].rtype)
    ensures r.Err? ==> exists k :: 0 <= k < |rest| && ZoneEntry(rest[k]) == Err(r.error)
    ensures r.Ok? ==>
      && |r.value| == |rest| + 2
      && r.value[0] == soa && r.value[|rest| + 1] == soa
      && forall i :: 0 <= i < |rest| ==> ZoneEntry(rest[i]) == Ok(r.value[i + 1])
  {
    match Collect(rest, ZoneEntry)
    case Err(e) => Err(e)
    case Ok(entries) => Ok([soa] + entries + [soa])
  }

  /** `formZoneTransfer`: the SOA built from the first record, then one entry
      per further record, then the SOA again. */
  function ZoneAnswer(records: seq<NnsRecord>): (r: Result<seq<RR>, Fault>)
    ensures records == [] ==> r == Err(RecordsEmpty)
  {
    if records == [] then Err(RecordsEmpty)
    else
      match FormSoaRecord(records[0])
      case Err(e) => Err(e)
      case Ok(soa) => Assembled(soa, records[1..])
  }

  /** `zoneTransfer` after the records are fetched: every name gets its root
      dot, exactly one SOA is demanded and swapped to the front, and the zone
      is assembled. */
  function ZoneOf(all: Result<seq<NnsRecord>, Fault>): (r: Result<seq<RR>, Fault>)
    ensures all.Err? ==> r == Err(all.error)
    ensures all.Ok? && SoaCount(all.value) != 1 ==> r == Err(InvalidSoaCount(SoaCount(all.value)))
    ensures all.Ok? ==> r != Err(RecordsEmpty)
  {
    match all
    case Err(e) => Err(e)
    case Ok(v) =>
      var numSoa := SoaCount(v);
      if numSoa != 1 then Err(InvalidSoaCount(numSoa))
      else
        var k := LastSoaIndex(v).value;
        ZoneAnswer(Swapped(Rooted(v), k))
  }

  /** After the exchange, the records behind the front are the rooted records
      other than the one at `k`. */
  lemma {:induction false} OthersAfterSwap(v: seq<NnsRecord>, k: nat)
    requires k < |v|
    ensures var rest := Swapped(Rooted(v), k)[1..];
      (forall i :: 0 <= i < |rest| ==> Synthesizable(rest[i].rtype))
        <==> (forall j :: 0 <= j < |v| && j != k ==> Synthesizable(v[j].rtype))
  {
    var rest := Swapped(Rooted(v), k)[1..];
    assert forall i :: 0 <= i < |rest| ==> rest[i] == Root(v[if i + 1 == k then 0 else i + 1]);
    if forall i :: 0 <= i < |rest| ==> Synthesizable(rest[i].rtype) {
      forall j | 0 <= j < |v| && j != k
        ensures Synthesizable(v[j].rtype)
      {
        var i := if j == 0 then k - 1 else j - 1;
        assert rest[i] == Root(v[j]);
      }
    }
  }

  /** A zone is transferred exactly when the name has one SOA record, that
      record is well formed once rooted, and every other record has a type
      `formRec` can build. */
  lemma {:induction false} ZoneSucceeds(v: seq<NnsRecord>)
    ensures ZoneOf(Ok(v)).Ok? <==>
      && SoaCount(v) == 1
      && ValidSoa(Root(v[LastSoaIndex(v).value]))
      && forall j :: 0 <= j < |v| && !IsSoa(v[j]) ==> Synthesizable(v[j].rtype)
  {
    if SoaCount(v) == 1 {
      SingleSoa(v);
      var k := LastSoaIndex(v).value;
      var ordered := Swapped(Rooted(v), k);
      assert ordered[0] == Root(v[k]);
      SoaRecordParsed(ordered[0]);
      OthersAfterSwap(v, k);
      assert ZoneOf(Ok(v)) == ZoneAnswer(ordered);
      assert (forall j :: 0 <= j < |v| && !IsSoa(v[j]) ==> Synthesizable(v[j].rtype))
         <==> (forall j :: 0 <= j < |v| && j != k ==> Synthesizable(v[j].rtype));
    }
  }

  /** Where each record ends up: the SOA first, then the record the SOA
      displaced at the SOA's old position, and every other record where it
      was. */
  lemma {:induction false} ZoneOrder(v: seq<NnsRecord>)
    requires ZoneOf(Ok(v)).Ok?
    ensures LastSoaIndex(v).Some?
    ensures var z := ZoneOf(Ok(v)).value;
      var k := LastSoaIndex(v).value;
      && |z| == |v| + 1
      && FormSoaRecord(Root(v[k])) == Ok(z[0]) && z[|v|] == z[0]
      && forall i :: 1 <= i < |v| ==> ZoneEntry(Root(v[if i == k then 0 else i])) == Ok(z[i])
  {
    SingleSoa(v);
    var z := ZoneOf(Ok(v)).value;
    var k := LastSoaIndex(v).value;
    var ordered := Swapped(Rooted(v), k);
    assert ZoneOf(Ok(v)) == ZoneAnswer(ordered);
    assert ordered[0] == Root(v[k]);
    var soa := FormSoaRecord(ordered[0]).value;
    var rest := ordered[1..];
    assert Assembled(soa, rest) == Ok(z);
    forall i | 1 <= i < |v|
      ensures ZoneEntry(Root(v[if i == k then 0 else i])) == Ok(z[i])
    {
      assert rest[i - 1] == Root(v[if i == k then 0 else i]);
      assert ZoneEntry(rest[i - 1]) == Ok(z[i]);
    }
  }

  /** The shape of a transferred zone: one entry per record plus the closing
      SOA, the same SOA first and last, and every owner name rooted. */
  lemma {:induction false} ZoneShape(v: seq<NnsRecord>)
    requires ZoneOf(Ok(v)).Ok?
    ensures var z := ZoneOf(Ok(v)).value;
      && |z| == |v| + 1
      && z[0].SOA? && z[0] == z[|v|]
      && forall i :: 0 <= i < |z| ==> AppendRoot(z[i].hdr.name) == z[i].hdr.name
  {
    ZoneOrder(v);
    var z := ZoneOf(Ok(v)).value;
    var k := LastSoaIndex(v).value;
    forall i | 0 <= i < |z|
      ensures AppendRoot(z[i].hdr.name) == z[i].hdr.name
    {
      if 1 <= i < |v| {
        var rec := Root(v[if i == k then 0 else i]);
        assert ZoneEntry(rec) == Ok(z[i]);
        assert z[i].hdr.name == rec.name;
      } else {
        var rec := Root(v[k]);
        assert FormSoaRecord(rec) == Ok(z[0]);
        assert z[i].hdr.name == rec.name;
      }
    }
  }

  /** The SOA is exchanged with the first record rather than moved, so the
      other records do not keep their order: [TXT, A, SOA] is transferred as
      SOA, A, TXT, SOA. */
  lemma {:induction false} SwapReordersOthers(t: NnsRecord, a: NnsRecord, s: NnsRecord)
    requires !IsSoa(t) && !IsSoa(a) && IsSoa(s)
    requires ZoneOf(Ok([t, a, s])).Ok?
    ensures var z := ZoneOf(Ok([t, a, s])).value;
      && |z| == 4
      && FormSoaRecord(Root(s)) == Ok(z[0])
      && ZoneEntry(Root(a)) == Ok(z[1])
      && ZoneEntry(Root(t)) == Ok(z[2])
      && z[3] == z[0]
  {
    var v := [t, a, s];
    assert LastSoaIndex(v) == Some(2);
    ZoneOrder(v);
    ZoneShape(v);
  }


  /** One more record extends the count and the last SOA position. */
  lemma {:induction false} CountStep(v: seq<NnsRecord>, i: nat)
    requires i < |v|
    ensures SoaCount(v[..i + 1]) == SoaCount(v[..i]) + (if IsSoa(v[i]) then 1 else 0)
    ensures LastSoaIndex(v[..i + 1]) == if IsSoa(v[i]) then Some(i) else LastSoaIndex(v[..i])
  {
    assert v[..i + 1][..i] == v[..i];
  }

  /** The loop of `zoneTransfer`: gives every record its root dot in place,
      counting the SOA records and remembering where the last one is. */
  method RootNames(records: array<NnsRecord>) returns (numSoa: nat, index: int)
    modifies records
    ensures records[..] == Rooted(old(records[..]))
    ensures numSoa == SoaCount(old(records[..]))
    ensures LastSoaIndex(old(records[..])).None? ==> index == -1
    ensures LastSoaIndex(old(records[..])).Some? ==> index == LastSoaIndex(old(records[..])).value
  {
    ghost var v := records[..];
    numSoa, index := 0, -1;
    for i := 0 to records.Length
      invariant forall j :: 0 <= j < i ==> records[j] == Root(v[j])
      invariant forall j :: i <= j < |v| ==> records[j] == v[j]
      invariant numSoa == SoaCount(v[..i])
      invariant LastSoaIndex(v[..i]).None? ==> index == -1
      invariant LastSoaIndex(v[..i]).Some? ==> index == LastSoaIndex(v[..i]).value
    {
      CountStep(v, i);
      var record := records[i];
      records[i] := Root(record);
      if record.rtype == NnsSOA {
        numSoa := numSoa + 1;
        index := i;
      }
    }
    assert v[..|v|] == v;
  }

  /** The loop of `formZoneTransfer`: appends the entry built from each
      record to `results`, stopping at the first record that fails. */
  method AppendEntries(results: seq<RR>, rest: seq<NnsRecord>) returns (r: Result<seq<RR>, Fault>)
    ensures var c := Collect(rest, ZoneEntry);
      && (c.Err? ==> r == Err(c.error))
      && (c.Ok? ==> r == Ok(results + c.value))
  {
    var acc := results;
    for i := 0 to |rest|
      invariant |acc| == |results| + i && acc[..|results|] == results
      invariant forall j :: 0 <= j < i ==> ZoneEntry(rest[j]) == Ok(acc[|results| + j])
    {
      var rec := ZoneEntry(rest[i]);
      if rec.Err? {
        CollectStopsAtFirstFailure(rest, ZoneEntry, i);
        return Err(rec.error);
      }
      acc := acc + [rec.value];
    }
    CollectAllSucceed(rest, ZoneEntry, acc[|results|..]);
    assert acc == results + acc[|results|..];
    return Ok(acc);
  }

  /** `formZoneTransfer`. */
  method FormZoneTransfer(records: seq<NnsRecord>) returns (r: Result<seq<RR>, Fault>)
    ensures r == ZoneAnswer(records)
  {
    if |records| == 0 {
      return Err(RecordsEmpty);
    }
    var soaRecord := FormSoaRecord(records[0]);
    if soaRecord.Err? {
      return Err(soaRecord.error);
    }
    var results := AppendEntries([soaRecord.value], records[1..]);
    if results.Err? {
      return results;
    }
    return Ok(results.value + [soaRecord.value]);
  }



}
