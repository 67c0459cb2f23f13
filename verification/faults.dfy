/** Every way a lookup, a decode, a record synthesis or a zone transfer can fail. */
module Faults {
  import opened StackItems

  /** The numeric fields of an SOA record that are parsed one by one. */
  datatype SoaField = Serial | Refresh | Retry | Expire | Ttl

  datatype Fault =
      /** The node could not be reached or refused the request; opaque here. */
    | Transport(message: string)
      /** "invocation failed: ...": the VM did not end in the HALT state. */
    | InvocationFailed(exception: string)
    | EmptyStack
    | Conversion(conversion: ConversionError)
      /** "bad conversion": an iterator item that is not a list of items. */
    | BadConversion
      /** "invalid response struct": an iterator item without exactly three entries. */
    | InvalidResponseStruct
      /** "invalid nns type": a record type that is not a single byte. */
    | InvalidNnsType
      /** The iterator handle carried no identifier; the source dereferences a nil pointer here. */
    | NilIteratorId
    | UnsupportedRecordType(rrtype: int)
    | RecordsEmpty
    | InvalidSoaCount(count: nat)
    | InvalidSoaType
      /** "invalid soa record": the data does not have exactly seven fields. */
    | InvalidSoa(data: string)
    | MismatchedNames(recordName: string, soaName: string)
    | InvalidSoaField(field: SoaField, text: string)
      /** "cannot resolve '<qname>' (type <qtype>) as '<mapped>': <cause>" */
    | CannotResolve(qname: string, qtype: int, mapped: string, cause: Fault)
      /** The zone is not served here; the host moves on. */
    | NotAuthoritative
}
