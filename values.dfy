/** Values that flow through the controller: what a parsed configuration file and a
    host enumeration hold, as dictionaries from field names to values. */
module Values {

  datatype Option<T> = None | Some(value: T)

  /** A configuration or enumeration value: an integer, a string, a list, or null. */
  datatype Value = VInt(i: int) | VStr(s: string) | VList(items: seq<Value>) | VNone

  /** A device record (a dictionary keyed by field name): a configured descriptor, a
      live enumeration entry, or a matched device. */
  type Record = map<string, Value>

  const ManufacturerKey: string := "manufacturer_string"
  const ProductKey: string := "product_string"
  const VendorIdKey: string := "vendor_id"
  const ProductIdKey: string := "product_id"
  const UsagePageKey: string := "usage_page"
  const UsageKey: string := "usage"
  const PathKey: string := "path"
  const ByteStringsKey: string := "byte_strings"

  /** The fields of a device's log line: both strings, both ids and both usages. Looking
      one up in a record that lacks it raises. */
  predicate Loggable(r: Record) {
    && ManufacturerKey in r && ProductKey in r
    && VendorIdKey in r && ProductIdKey in r
    && UsagePageKey in r && UsageKey in r
  }

  /** The fields every entry of a host enumeration carries: the log fields and the path. */
  predicate IsEnumerated(r: Record) {
    Loggable(r) && PathKey in r
  }

  predicate AllLoggable(rs: seq<Record>) {
    forall i :: 0 <= i < |rs| ==> Loggable(rs[i])
  }

  predicate AllEnumerated(rs: seq<Record>) {
    forall i :: 0 <= i < |rs| ==> IsEnumerated(rs[i])
  }

  /** Concatenation is associative, stated as a lemma so that heavy proofs can use it
      without unfolding sequence equality. */
  lemma AppendAssoc<T>(a: seq<T>, b: seq<T>, c: seq<T>)
    ensures a + (b + c) == (a + b) + c
  {
  }
}
