/** DNS resource records built from decoded contract data (plugin/nns/nns.go):
    `formRec`, `formResRecords`, `formSoaRecord`, `appendRoot`, `parseUint32`
    and `getNNSType`. */
module DnsRecords {
  import opened Base
  import opened Text
  import opened Faults
  import opened Contract

  /** DNS type codes. */
  const TypeA: uint16 := 1
  const TypeCNAME: uint16 := 5
  const TypeSOA: uint16 := 6
  const TypeTXT: uint16 := 16
  const TypeAAAA: uint16 := 28
  const ClassINET: uint16 := 1

  /** Record types of the name-service contract; they share the DNS codes. */
  const NnsA: byte := 1
  const NnsCNAME: byte := 5
  const NnsSOA: byte := 6
  const NnsTXT: byte := 16
  const NnsAAAA: byte := 28

  datatype Header = Header(name: string, rrtype: uint16, rrclass: uint16, ttl: uint32, rdlength: uint16)

  /** The resource records the plugin answers with. A and AAAA payloads are kept
      as the text the contract stored. */
  datatype RR =
    | TXT(hdr: Header, txt: seq<string>)
    | A(hdr: Header, a: string)
    | AAAA(hdr: Header, aaaa: string)
    | CNAME(hdr: Header, target: string)
    | SOA(hdr: Header, ns: string, mbox: string, serial: uint32, refresh: uint32, retry: uint32, expire: uint32, minttl: uint32)

  /** The DNS type a record value carries. */
  function Kind(rr: RR): uint16 {
    match rr
    case TXT(_, _) => TypeTXT
    case A(_, _) => TypeA
    case AAAA(_, _) => TypeAAAA
    case CNAME(_, _) => TypeCNAME
    case SOA(_, _, _, _, _, _, _, _) => TypeSOA
  }

  /** The types `formRec` can build. */
  predicate Synthesizable(t: int) {
    t == TypeTXT || t == TypeA || t == TypeAAAA || t == TypeCNAME
  }

  /** `getNNSType`: the contract record type asked for by a DNS query type. */
  function GetNNSType(qtype: uint16): (r: Result<byte, Fault>)
    ensures r.Ok? <==> Synthesizable(qtype)
    ensures r.Ok? ==> r.value == qtype
    ensures r.Err? ==> r.error == UnsupportedRecordType(qtype)
  {
    if qtype == TypeTXT then Ok(NnsTXT)
    else if qtype == TypeA then Ok(NnsA)
    else if qtype == TypeAAAA then Ok(NnsAAAA)
    else if qtype == TypeCNAME then Ok(NnsCNAME)
    else Err(UnsupportedRecordType(qtype))
  }

  /** `formRec`: one answer record of the requested type carrying `res`. */
  function FormRec(reqType: uint16, res: string, hdr: Header): (r: Result<RR, Fault>)
    ensures r.Ok? <==> Synthesizable(reqType)
    ensures r.Err? ==> r.error == UnsupportedRecordType(reqType)
    ensures r.Ok? ==> Kind(r.value) == reqType
    ensures r.Ok? && !r.value.A? ==> r.value.hdr == hdr
    ensures r.Ok? && r.value.A? ==> r.value.hdr == hdr.(rdlength := 4) && r.value.a == res
    ensures r.Ok? && r.value.AAAA? ==> r.value.aaaa == res
    ensures r.Ok? && r.value.TXT? ==> r.value.txt == [res]
    ensures r.Ok? && r.value.CNAME? ==> |r.value.target| == |res| + 1 && HasPrefix(r.value.target, res) && HasSuffix(r.value.target, ".")
  {
    if reqType == TypeTXT then Ok(TXT(hdr, [res]))
    else if reqType == TypeA then Ok(A(hdr.(rdlength := 4), res))
    else if reqType == TypeAAAA then Ok(AAAA(hdr, res))
    else if reqType == TypeCNAME then
      assert (res + ".")[..|res|] == res;
      Ok(CNAME(hdr, res + "."))
    else Err(UnsupportedRecordType(reqType))
  }

  /** `formResRecords`: one record per resolved value, in order, all of the
      header's type; the first failure discards everything built so far. */
  method FormResRecords(hdr: Header, resolved: seq<string>) returns (r: Result<seq<RR>, Fault>)
    ensures r.Err? <==> |resolved| > 0 && !Synthesizable(hdr.rrtype)
    ensures r.Err? ==> r.error == UnsupportedRecordType(hdr.rrtype)
    ensures r.Ok? ==> |r.value| == |resolved|
    ensures r.Ok? ==> forall i :: 0 <= i < |resolved| ==> FormRec(hdr.rrtype, resolved[i], hdr) == Ok(r.value[i])
  {
    var records: seq<RR> := [];
    for i := 0 to |resolved|
      invariant |records| == i
      invariant i > 0 ==> Synthesizable(hdr.rrtype)
      invariant forall j :: 0 <= j < i ==> FormRec(hdr.rrtype, resolved[j], hdr) == Ok(records[j])
    {
      var rec := FormRec(hdr.rrtype, resolved[i], hdr);
      if rec.Err? {
        return Err(rec.error);
      }
      records := records + [rec.value];
    }
    return Ok(records);
  }

  /** `appendRoot`: makes a non-empty name end with the root dot. */
  function AppendRoot(data: string): (r: string)
    ensures data == [] ==> r == []
    ensures data != [] ==> HasSuffix(r, ".")
    ensures r == data || r == data + "."
    ensures HasSuffix(data, ".") ==> r == data
  {
    if |data| > 0 && data[|data| - 1] != '.' then data + "." else data
  }

  lemma AppendRootIdempotent(data: string)
    ensures AppendRoot(AppendRoot(data)) == AppendRoot(data)
  {
  }

  /** The loop of `strconv.ParseUint(s, 10, 32)` after its first `i` digits,
      whose value is `acc`: stops at the first non-digit or on overflow. */
  function ParseDigits(s: string, i: nat, acc: nat): (r: Option<uint32>)
    requires i <= |s| && AllDigits(s[..i]) && acc == DecimalValue(s[..i]) && acc <= MaxUint32
    ensures r.Some? <==> AllDigits(s) && DecimalValue(s) <= MaxUint32
    ensures r.Some? ==> r.value == DecimalValue(s)
    decreases |s| - i
  {
    if i == |s| then
      assert s[..i] == s;
      Some(acc)
    else if !IsDigit(s[i]) then
      None
    else
      var n := acc * 10 + DigitValue(s[i]);
      assert s[..i + 1][..i] == s[..i];
      if n > MaxUint32 then
        DecimalPrefixBound(s, i + 1);
        None
      else
        ParseDigits(s, i + 1, n)
  }

  /** A decimal string's value is at least the value of each of its prefixes. */
  lemma {:induction false} DecimalPrefixBound(s: string, k: nat)
    requires k <= |s|
    ensures AllDigits(s) ==> AllDigits(s[..k]) && DecimalValue(s[..k]) <= DecimalValue(s)
  {
    if k < |s| {
      var t := s[..|s| - 1];
      DecimalPrefixBound(t, k);
      assert t[..k] == s[..k];
    } else {
      assert s[..k] == s;
    }
  }

  /** `parseUint32`: succeeds exactly on non-empty all-digit strings whose value
      fits in 32 bits, and then yields that value. */
  function ParseUint32(data: string): (r: Option<uint32>)
    ensures r.Some? <==> data != [] && AllDigits(data) && DecimalValue(data) <= MaxUint32
    ensures r.Some? ==> r.value == DecimalValue(data)
  {
    if data == [] then None else ParseDigits(data, 0, 0)
  }

  lemma ParseFormatted(n: uint32)
    ensures ParseUint32(FormatDecimal(n)) == Some(n)
  {
    DecimalOfFormat(n);
  }

  /** Only the first ten characters of the serial field are read: a timestamp
      with second precision. */
  const SerialDigits: nat := 10

  function SerialText(field: string): (r: string)
    ensures HasPrefix(field, r)
    ensures |r| == if |field| <= SerialDigits then |field| else SerialDigits
  {
    if |field| > SerialDigits then field[..SerialDigits] else field
  }

  /** The seven space-separated fields of an SOA record's data. */
  function SoaFields(rec: NnsRecord): seq<string> {
    Split(rec.data, ' ')
  }

  /** Everything `formSoaRecord` checks, in the order it checks it. */
  predicate ValidSoa(rec: NnsRecord) {
    var f := SoaFields(rec);
    && rec.rtype == NnsSOA
    && |f| == 7
    && AppendRoot(f[0]) == rec.name
    && ParseUint32(SerialText(f[2])).Some?
    && ParseUint32(f[3]).Some?
    && ParseUint32(f[4]).Some?
    && ParseUint32(f[5]).Some?
    && ParseUint32(f[6]).Some?
  }

  /** `formSoaRecord`: the SOA record an SOA-typed contract record describes.
      Its owner and primary name are the record's own name and its ttl is the
      minimum ttl; `SoaRecordParsed` states the rest. */
  function FormSoaRecord(rec: NnsRecord): (r: Result<RR, Fault>)
    ensures rec.rtype != NnsSOA ==> r == Err(InvalidSoaType)
    ensures r.Err? ==> r.error.InvalidSoaType? || r.error.InvalidSoa? || r.error.MismatchedNames? || r.error.InvalidSoaField?
    ensures r.Ok? ==>
      && r.value.SOA?
      && r.value.hdr == Header(rec.name, TypeSOA, ClassINET, r.value.minttl, 0)
      && r.value.ns == rec.name
  {
    if rec.rtype != NnsSOA then Err(InvalidSoaType)
    else
      var split := Split(rec.data, ' ');
      if |split| != 7 then Err(InvalidSoa(rec.data))
      else
        var name := AppendRoot(split[0]);
        if rec.name != name then Err(MismatchedNames(rec.name, name))
        else
          var serial := ParseUint32(SerialText(split[2]));
          if serial.None? then Err(InvalidSoaField(Serial, split[2])) else
          var refresh := ParseUint32(split[3]);
          if refresh.None? then Err(InvalidSoaField(Refresh, split[3])) else
          var retry := ParseUint32(split[4]);
          if retry.None? then Err(InvalidSoaField(Retry, split[4])) else
          var expire := ParseUint32(split[5]);
          if expire.None? then Err(InvalidSoaField(Expire, split[5])) else
          var ttl := ParseUint32(split[6]);
          if ttl.None? then Err(InvalidSoaField(Ttl, split[6])) else
          Ok(SOA(Header(name, TypeSOA, ClassINET, ttl.value, 0), name,
                 ReplaceAll(AppendRoot(split[1]), '@', '.'), serial.value, refresh.value, retry.value, expire.value, ttl.value))
  }

  /** What `formSoaRecord` accepts and what it reads: it succeeds exactly on
      valid SOA records, checks the type, then the field count, then the name;
      the mailbox has every '@' turned into a dot, and the five numbers are
      the parsed fields, the serial cut to ten digits. */
  lemma SoaRecordParsed(rec: NnsRecord)
    ensures FormSoaRecord(rec).Ok? <==> ValidSoa(rec)
    ensures rec.rtype == NnsSOA && |SoaFields(rec)| != 7 ==> FormSoaRecord(rec) == Err(InvalidSoa(rec.data))
    ensures rec.rtype == NnsSOA && |SoaFields(rec)| == 7 && AppendRoot(SoaFields(rec)[0]) != rec.name ==>
      FormSoaRecord(rec) == Err(MismatchedNames(rec.name, AppendRoot(SoaFields(rec)[0])))
    ensures FormSoaRecord(rec).Ok? ==>
      var f := SoaFields(rec);
      var soa := FormSoaRecord(rec).value;
      && soa.mbox == ReplaceAll(AppendRoot(f[1]), '@', '.')
      && Some(soa.serial) == ParseUint32(SerialText(f[2]))
      && Some(soa.refresh) == ParseUint32(f[3])
      && Some(soa.retry) == ParseUint32(f[4])
      && Some(soa.expire) == ParseUint32(f[5])
      && Some(soa.minttl) == ParseUint32(f[6])
  {
  }

  /** The five numbers of an SOA record in the order `formSoaRecord` reads them. */
  const SoaNumbers: seq<SoaField> := [Serial, Refresh, Retry, Expire, Ttl]

  /** The text parsed for the `j`-th number: fields 2 to 6, the serial cut to
      ten characters. */
  function NumberText(f: seq<string>, j: nat): string
    requires |f| == 7 && j < |SoaNumbers|
  {
    if j == 0 then SerialText(f[2]) else f[j + 2]
  }

  /** Once the count and the name are right, the numbers are tried in order and
      the first one that does not parse is the error, naming that field and
      carrying its whole text. */
  lemma SoaFieldErrors(rec: NnsRecord, j: nat)
    requires j < |SoaNumbers|
    requires rec.rtype == NnsSOA && |SoaFields(rec)| == 7 && AppendRoot(SoaFields(rec)[0]) == rec.name
    ensures var f := SoaFields(rec);
      (FormSoaRecord(rec) == Err(InvalidSoaField(SoaNumbers[j], f[j + 2])))
        <==> (ParseUint32(NumberText(f, j)).None? && forall i :: 0 <= i < j ==> ParseUint32(NumberText(f, i)).Some?)
  {
    var f := SoaFields(rec);
    var serial, refresh, retry, expire, ttl :=
      ParseUint32(NumberText(f, 0)), ParseUint32(NumberText(f, 1)), ParseUint32(NumberText(f, 2)),
      ParseUint32(NumberText(f, 3)), ParseUint32(NumberText(f, 4));
    assert FormSoaRecord(rec) ==
      if serial.None? then Err(InvalidSoaField(Serial, f[2]))
      else if refresh.None? then Err(InvalidSoaField(Refresh, f[3]))
      else if retry.None? then Err(InvalidSoaField(Retry, f[4]))
      else if expire.None? then Err(InvalidSoaField(Expire, f[5]))
      else if ttl.None? then Err(InvalidSoaField(Ttl, f[6]))
      else Ok(FormSoaRecord(rec).value);
    var earlier := forall i :: 0 <= i < j ==> ParseUint32(NumberText(f, i)).Some?;
    if j == 0 {
      assert earlier;
    } else if j == 1 {
      assert earlier <==> serial.Some?;
    } else if j == 2 {
      assert earlier <==> serial.Some? && refresh.Some?;
    } else if j == 3 {
      assert earlier <==> serial.Some? && refresh.Some? && retry.Some?;
    } else {
      assert earlier <==> serial.Some? && refresh.Some? && retry.Some? && expire.Some?;
    }
  }

  /** The data string of an SOA record, as the contract stores it. */
  function SoaData(primary: string, mbox: string, serial: uint32, refresh: uint32, retry: uint32, expire: uint32, ttl: uint32): string {
    Join([primary, mbox, FormatDecimal(serial), FormatDecimal(refresh), FormatDecimal(retry),
          FormatDecimal(expire), FormatDecimal(ttl)], ' ')
  }

  /** Parsing the data of a well-formed SOA record recovers every field. */
  lemma SoaRoundTrip(primary: string, mbox: string, serial: uint32, refresh: uint32, retry: uint32, expire: uint32, ttl: uint32)
    requires ' ' !in primary && ' ' !in mbox
    requires AppendRoot(primary) == primary
    ensures FormSoaRecord(NnsRecord(primary, NnsSOA, SoaData(primary, mbox, serial, refresh, retry, expire, ttl)))
         == Ok(SOA(Header(primary, TypeSOA, ClassINET, ttl, 0), primary, ReplaceAll(AppendRoot(mbox), '@', '.'),
                   serial, refresh, retry, expire, ttl))
  {
    var fields := [primary, mbox, FormatDecimal(serial), FormatDecimal(refresh), FormatDecimal(retry),
                   FormatDecimal(expire), FormatDecimal(ttl)];
    forall i | 2 <= i < 7
      ensures ' ' !in fields[i]
    {
      assert AllDigits(fields[i]);
    }
    SplitJoin(fields, ' ');
    FormatDecimalLength(serial, 10);
    ParseFormatted(serial);
    ParseFormatted(refresh);
    ParseFormatted(retry);
    ParseFormatted(expire);
    ParseFormatted(ttl);
    SoaRecordParsed(NnsRecord(primary, NnsSOA, SoaData(primary, mbox, serial, refresh, retry, expire, ttl)));
  }
}
