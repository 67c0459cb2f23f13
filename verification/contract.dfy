/** The calls to the name-service contract and the decoding of their replies
    (plugin/nns/contract.go). The RPC node is a parameter: two total functions
    giving what the node answers to an invocation and to an iterator traversal. */
module Contract {
  import opened Base
  import opened Text
  import opened StackItems
  import opened Faults

  /** One record of a name, as the contract's iterator yields it. */
  datatype NnsRecord = NnsRecord(name: string, rtype: byte, data: string)

  type SessionId = string

  datatype Param = StringParam(text: string) | IntegerParam(number: int)

  /** The node's answer to a test invocation. */
  datatype InvokeReply = InvokeReply(state: string, faultException: string, stack: seq<StackItem>, session: SessionId)

  /** The RPC node. An `Err` from either function is a transport failure. */
  datatype Node = Node(
    invoke: (string, seq<Param>) -> Result<InvokeReply, Fault>,
    traverse: (SessionId, IteratorId, nat) -> Result<seq<StackItem>, Fault>)

  /** How many iterator items one traversal asks for. */
  const BatchSize: nat := 10

  /** The top of the VM result stack is the LAST element of the reply's array. */
  function Top(st: seq<StackItem>): StackItem
    requires |st| > 0
  {
    st[|st| - 1]
  }

  /** `getInvocationError`: a VM that did not halt fails with its fault text
      (checked first); a halted VM with an empty stack fails too. */
  function InvocationError(reply: InvokeReply): (r: Option<Fault>)
    ensures r.None? <==> reply.state == "HALT" && |reply.stack| > 0
    ensures reply.state != "HALT" ==> r == Some(InvocationFailed(reply.faultException))
    ensures reply.state == "HALT" && |reply.stack| == 0 ==> r == Some(EmptyStack)
  {
    if reply.state != "HALT" then Some(InvocationFailed(reply.faultException))
    else if |reply.stack| == 0 then Some(EmptyStack)
    else None
  }

  /** The error chaining every wrapper shares: a transport error comes back
      unchanged, then the fault check; only a reply that passes both is decoded. */
  function Checked(reply: Result<InvokeReply, Fault>): (r: Result<InvokeReply, Fault>)
    ensures reply.Err? ==> r == reply
    ensures reply.Ok? ==> (r.Ok? <==> InvocationError(reply.value).None?)
    ensures reply.Ok? && r.Err? ==> Some(r.error) == InvocationError(reply.value)
    ensures r.Ok? ==> r == reply && |r.value.stack| > 0
  {
    match reply
    case Err(e) => Err(e)
    case Ok(res) =>
      match InvocationError(res)
      case Some(e) => Err(e)
      case None => Ok(res)
  }

  /** Applies `f` to every element in order; the first failure, if any, is the result. */
  function Collect<X, Y>(xs: seq<X>, f: X -> Result<Y, Fault>): (r: Result<seq<Y>, Fault>)
    ensures r.Ok? <==> forall i :: 0 <= i < |xs| ==> f(xs[i]).Ok?
    ensures r.Ok? ==> |r.value| == |xs| && forall i :: 0 <= i < |xs| ==> f(xs[i]) == Ok(r.value[i])
    ensures r.Err? ==> exists k :: 0 <= k < |xs| && f(xs[k]).Err? && (forall i :: 0 <= i < k ==> f(xs[i]).Ok?) && r.error == f(xs[k]).error
  {
    if xs == [] then Ok([])
    else
      match f(xs[0])
      case Err(e) => Err(e)
      case Ok(y) =>
        match Collect(xs[1..], f)
        case Err(e) =>
          assert forall i :: 1 <= i < |xs| ==> xs[1..][i - 1] == xs[i];
          Err(e)
        case Ok(ys) => Ok([y] + ys)
  }

  /** A loop that stops at the first failure computes `Collect`. */
  lemma CollectStopsAtFirstFailure<X, Y>(xs: seq<X>, f: X -> Result<Y, Fault>, k: nat)
    requires k < |xs| && f(xs[k]).Err?
    requires forall i :: 0 <= i < k ==> f(xs[i]).Ok?
    ensures Collect(xs, f) == Err(f(xs[k]).error)
  {
  }

  /** A loop that converts every element computes `Collect`. */
  lemma CollectAllSucceed<X, Y>(xs: seq<X>, f: X -> Result<Y, Fault>, ys: seq<Y>)
    requires |ys| == |xs|
    requires forall i :: 0 <= i < |xs| ==> f(xs[i]) == Ok(ys[i])
    ensures Collect(xs, f) == Ok(ys)
  {
    var r := Collect(xs, f);
    assert r.Ok? && |r.value| == |ys|;
    forall i | 0 <= i < |xs|
      ensures r.value[i] == ys[i]
    {
      assert f(xs[i]) == Ok(r.value[i]);
    }
    assert r.value == ys;
  }

  /** `getString`: the top item as a byte string; Null reads as "". */
  function DecodeString(top: StackItem): (r: Result<string, Fault>)
    ensures top.Null? ==> r == Ok([])
    ensures top.ByteString? ==> r == Ok(ToText(top.bytes))
    ensures top.Integer? ==> r == Ok(ToText(IntToBytes(top.value)))
    ensures r.Err? <==> top.Array? || top.Interop?
  {
    match Convert(top, ByteArrayT)
    case Err(e) => Err(Conversion(e))
    case Ok(ByteString(b)) => Ok(ToText(b))
    case Ok(_) => Ok([])
  }

  /** One element of a string array, as text. */
  function ElementText(item: StackItem): (r: Result<string, Fault>)
    ensures r.Ok? <==> item.ByteString? || item.Integer?
    ensures item.ByteString? ==> r == Ok(ToText(item.bytes))
  {
    match TryBytes(item)
    case Ok(b) => Ok(ToText(b))
    case Err(e) => Err(Conversion(e))
  }

  /** `getArrString`: the top item as an array of strings; Null reads as no strings. */
  function DecodeStrings(top: StackItem): (r: Result<seq<string>, Fault>)
    ensures top.Null? ==> r == Ok([])
    ensures !top.Null? && !top.Array? ==> r.Err?
    ensures top.Array? ==> r == Collect(top.items, ElementText)
  {
    match Convert(top, ArrayT)
    case Err(e) => Err(Conversion(e))
    case Ok(Array(items)) => Collect(items, ElementText)
    case Ok(_) => Ok([])
  }

  /** One traversed iterator item as a record: a list of exactly three entries
      (name bytes, type integer, data bytes) whose type has a one-byte magnitude. */
  function DecodeRecord(item: StackItem): (r: Result<NnsRecord, Fault>)
    ensures !item.Array? ==> r == Err(BadConversion)
    ensures item.Array? && |item.items| != 3 ==> r == Err(InvalidResponseStruct)
    ensures r.Ok? <==>
      && item.Array? && |item.items| == 3
      && TryBytes(item.items[0]).Ok?
      && TryInteger(item.items[1]).Ok? && 1 <= Abs(TryInteger(item.items[1]).value) <= 255
      && TryBytes(item.items[2]).Ok?
    ensures r.Ok? ==>
      && r.value.name == ToText(TryBytes(item.items[0]).value)
      && r.value.rtype == Abs(TryInteger(item.items[1]).value)
      && r.value.data == ToText(TryBytes(item.items[2]).value)
  {
    if !item.Array? then Err(BadConversion)
    else if |item.items| != 3 then Err(InvalidResponseStruct)
    else
      match TryBytes(item.items[0])
      case Err(e) => Err(Conversion(e))
      case Ok(nameBytes) =>
        match TryInteger(item.items[1])
        case Err(e) => Err(Conversion(e))
        case Ok(integer) =>
          var typeBytes := MagnitudeBytes(Abs(integer));
          if |typeBytes| != 1 then Err(InvalidNnsType)
          else
            match TryBytes(item.items[2])
            case Err(e) => Err(Conversion(e))
            case Ok(dataBytes) => Ok(NnsRecord(ToText(nameBytes), typeBytes[0], ToText(dataBytes)))
  }

  /** The items one traversal yields; a failed traversal yields none. */
  function Traversed(t: Result<seq<StackItem>, Fault>): seq<StackItem> {
    if t.Ok? then t.value else []
  }

  /** `getRecordsIterator`: one traversal of the iterator on top of the stack,
      asking for `BatchSize` items, each decoded into a record. */
  function IteratorRecords(node: Node, session: SessionId, top: StackItem): (r: Result<seq<NnsRecord>, Fault>)
    ensures !top.Interop? && !top.Null? ==> r.Err?
    ensures top.Null? || top == Interop(None) ==> r == Err(NilIteratorId)
    ensures top.Interop? && top.iteratorId.Some? ==>
      r == Collect(Traversed(node.traverse(session, top.iteratorId.value, BatchSize)), DecodeRecord)
  {
    match Convert(top, InteropT)
    case Err(e) => Err(Conversion(e))
    case Ok(Interop(Some(id))) => Collect(Traversed(node.traverse(session, id, BatchSize)), DecodeRecord)
    case Ok(_) => Err(NilIteratorId)
  }

  /** A node that honours the requested batch size yields at most ten records per
      name: items after the first batch are never asked for. */
  lemma AtMostOneBatch(node: Node, session: SessionId, top: StackItem)
    requires forall s, id, n :: node.traverse(s, id, n).Ok? ==> |node.traverse(s, id, n).value| <= n
    ensures IteratorRecords(node, session, top).Ok? ==> |IteratorRecords(node, session, top).value| <= BatchSize
  {
  }

  /** A failed traversal is not an error: the name simply has no records. */
  lemma TraversalFailureMeansNoRecords(node: Node, session: SessionId, id: IteratorId)
    requires node.traverse(session, id, BatchSize).Err?
    ensures IteratorRecords(node, session, Interop(Some(id))) == Ok([])
  {
  }

  function NameTypeArgs(name: string, nnsType: byte): seq<Param> {
    [StringParam(name), IntegerParam(nnsType)]
  }

  /** `resolve(name, type)` as the node answers it: transport and VM failures
      come back unchanged, and a Null result resolves to the empty string. */
  function ResolveReply(node: Node, name: string, nnsType: byte): (r: Result<string, Fault>)
    ensures var reply := node.invoke("resolve", NameTypeArgs(name, nnsType));
      && (reply.Err? ==> r == Err(reply.error))
      && (reply.Ok? && InvocationError(reply.value).Some? ==> r == Err(InvocationError(reply.value).value))
      && (reply.Ok? && InvocationError(reply.value).None? ==> r == DecodeString(Top(reply.value.stack)))
      && (reply.Ok? && InvocationError(reply.value).None? && Top(reply.value.stack).Null? ==> r == Ok(""))
  {
    var c := Checked(node.invoke("resolve", NameTypeArgs(name, nnsType)));
    if c.Err? then Err(c.error) else DecodeString(Top(c.value.stack))
  }

  /** `getAllRecords(name)` as the node answers it: transport and VM failures
      come back unchanged; otherwise the records come from the iterator on top
      of the stack, read in the reply's session. */
  function AllRecords(node: Node, name: string): (r: Result<seq<NnsRecord>, Fault>)
    ensures var reply := node.invoke("getAllRecords", [StringParam(name)]);
      && (reply.Err? ==> r == Err(reply.error))
      && (reply.Ok? && InvocationError(reply.value).Some? ==> r == Err(InvocationError(reply.value).value))
      && (reply.Ok? && InvocationError(reply.value).None? ==>
            r == IteratorRecords(node, reply.value.session, Top(reply.value.stack)))
  {
    var c := Checked(node.invoke("getAllRecords", [StringParam(name)]));
    if c.Err? then Err(c.error) else IteratorRecords(node, c.value.session, Top(c.value.stack))
  }

  /** `getRecords(name, type)` or `getRecord(name, type)` as the node answers
      it: transport and VM failures come back unchanged, and a Null result is
      the empty list. */
  function StringsReply(node: Node, fn: string, name: string, nnsType: byte): (r: Result<seq<string>, Fault>)
    ensures var reply := node.invoke(fn, NameTypeArgs(name, nnsType));
      && (reply.Err? ==> r == Err(reply.error))
      && (reply.Ok? && InvocationError(reply.value).Some? ==> r == Err(InvocationError(reply.value).value))
      && (reply.Ok? && InvocationError(reply.value).None? ==> r == DecodeStrings(Top(reply.value.stack)))
      && (reply.Ok? && InvocationError(reply.value).None? && Top(reply.value.stack).Null? ==> r == Ok([]))
  {
    var c := Checked(node.invoke(fn, NameTypeArgs(name, nnsType)));
    if c.Err? then Err(c.error) else DecodeStrings(Top(c.value.stack))
  }

  /** `B2S`: copies the bytes one by one into a string. */
  method B2S(bs: seq<byte>) returns (s: string)
    ensures s == ToText(bs)
  {
    var ba: seq<byte> := [];
    for i := 0 to |bs|
      invariant ba == bs[..i]
    {
      ba := ba + [bs[i]];
    }
    assert ba == bs;
    s := ToText(ba);
  }

  method GetString(st: seq<StackItem>) returns (r: Result<string, Fault>)
    requires |st| > 0
    ensures r == DecodeString(Top(st))
  {
    var index := |st| - 1;
    var arr := Convert(st[index], ByteArrayT);
    if arr.Err? {
      return Err(Conversion(arr.error));
    }
    match arr.value {
      case Null =>
        r := Ok([]);
      case ByteString(dd) =>
        var res := B2S(dd);
        r := Ok(res);
      case _ =>
        assert false;
    }
  }

  method GetArrString(st: seq<StackItem>) returns (r: Result<seq<string>, Fault>)
    requires |st| > 0
    ensures r == DecodeStrings(Top(st))
  {
    var index := |st| - 1;
    var arr := Convert(st[index], ArrayT);
    if arr.Err? {
      return Err(Conversion(arr.error));
    }
    if arr.value.Null? {
      return Ok([]);
    }
    var elems := arr.value.items;
    var res := new string[|elems|];
    for i := 0 to |elems|
      invariant forall j :: 0 <= j < i ==> ElementText(elems[j]) == Ok(res[j])
    {
      var bs := TryBytes(elems[i]);
      if bs.Err? {
        CollectStopsAtFirstFailure(elems, ElementText, i);
        return Err(Conversion(bs.error));
      }
      res[i] := ToText(bs.value);
    }
    CollectAllSucceed(elems, ElementText, res[..]);
    return Ok(res[..]);
  }

  method GetRecordsIterator(node: Node, sessionId: SessionId, st: seq<StackItem>) returns (r: Result<seq<NnsRecord>, Fault>)
    requires |st| > 0
    ensures r == IteratorRecords(node, sessionId, Top(st))
  {
    var index := |st| - 1;
    var tmp := Convert(st[index], InteropT);
    if tmp.Err? {
      return Err(Conversion(tmp.error));
    }
    if !(tmp.value.Interop? && tmp.value.iteratorId.Some?) {
      return Err(NilIteratorId);
    }
    var iteratorId := tmp.value.iteratorId.value;
    var res := Traversed(node.traverse(sessionId, iteratorId, BatchSize));
    var result := new NnsRecord[|res|];
    for i := 0 to |res|
      invariant forall j :: 0 <= j < i ==> DecodeRecord(res[j]) == Ok(result[j])
    {
      var rec := DecodeRecord(res[i]);
      if rec.Err? {
        CollectStopsAtFirstFailure(res, DecodeRecord, i);
        return Err(rec.error);
      }
      result[i] := rec.value;
    }
    CollectAllSucceed(res, DecodeRecord, result[..]);
    return Ok(result[..]);
  }

  method Resolve(node: Node, name: string, nnsType: byte) returns (r: Result<string, Fault>)
    ensures r == ResolveReply(node, name, nnsType)
  {
    var res := node.invoke("resolve", NameTypeArgs(name, nnsType));
    if res.Err? {
      return Err(res.error);
    }
    var fault := InvocationError(res.value);
    if fault.Some? {
      return Err(fault.value);
    }
    r := GetString(res.value.stack);
  }

  method GetAllRecords(node: Node, name: string) returns (r: Result<seq<NnsRecord>, Fault>)
    ensures r == AllRecords(node, name)
  {
    var res := node.invoke("getAllRecords", [StringParam(name)]);
    if res.Err? {
      return Err(res.error);
    }
    var fault := InvocationError(res.value);
    if fault.Some? {
      return Err(fault.value);
    }
    r := GetRecordsIterator(node, res.value.session, res.value.stack);
  }

  method GetRecords(node: Node, name: string, nnsType: byte) returns (r: Result<seq<string>, Fault>)
    ensures r == StringsReply(node, "getRecords", name, nnsType)
  {
    var res := node.invoke("getRecords", NameTypeArgs(name, nnsType));
    if res.Err? {
      return Err(res.error);
    }
    var fault := InvocationError(res.value);
    if fault.Some? {
      return Err(fault.value);
    }
    r := GetArrString(res.value.stack);
  }

  method GetRecord(node: Node, name: string, nnsType: byte) returns (r: Result<seq<string>, Fault>)
    ensures r == StringsReply(node, "getRecord", name, nnsType)
  {
    var res := node.invoke("getRecord", NameTypeArgs(name, nnsType));
    if res.Err? {
      return Err(res.error);
    }
    var fault := InvocationError(res.value);
    if fault.Some? {
      return Err(fault.value);
    }
    r := GetArrString(res.value.stack);
  }
}
