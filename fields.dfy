/**
 * `kvParse`: splitting the flat argument list `k1, v1, k2, v2, ...` of a print
 * call into its keys and its values. Each argument is taken as the text `%v`
 * gives it.
 */
module Fields {
  import opened Bytes

  datatype ParseError =
    | OddFieldCount(count: nat)  // "expected even number of key-value pairs, got %d"
    | InvalidFields              // errInvalidFields

  /** The arguments at even positions: the keys. */
  function FieldKeys(fields: seq<Bytes>): (keys: seq<Bytes>)
    ensures |keys| == |fields| / 2
    ensures forall k :: 0 <= k < |keys| ==> keys[k] == fields[2 * k]
  {
    seq(|fields| / 2, k requires 0 <= k < |fields| / 2 => fields[2 * k])
  }

  /** The arguments at odd positions: the values. */
  function FieldValues(fields: seq<Bytes>): (values: seq<Bytes>)
    ensures |values| == |fields| / 2
    ensures forall k :: 0 <= k < |values| ==> values[k] == fields[2 * k + 1]
  {
    seq(|fields| / 2, k requires 0 <= k < |fields| / 2 => fields[2 * k + 1])
  }

  /** The flat argument list a caller writes for these pairs. */
  function Interleave(keys: seq<Bytes>, values: seq<Bytes>): (fields: seq<Bytes>)
    requires |keys| == |values|
    ensures |fields| == 2 * |keys|
  {
    if keys == [] then [] else [keys[0], values[0]] + Interleave(keys[1..], values[1..])
  }

  lemma {:induction false} InterleaveAt(keys: seq<Bytes>, values: seq<Bytes>, k: nat)
    requires |keys| == |values| && k < |keys|
    ensures Interleave(keys, values)[2 * k] == keys[k]
    ensures Interleave(keys, values)[2 * k + 1] == values[k]
  {
    if k > 0 {
      InterleaveAt(keys[1..], values[1..], k - 1);
    }
  }

  /** Splitting an even argument list and interleaving the halves gives the list back. */
  lemma InterleaveSplit(fields: seq<Bytes>)
    requires |fields| % 2 == 0
    ensures Interleave(FieldKeys(fields), FieldValues(fields)) == fields
  {
    var keys, values := FieldKeys(fields), FieldValues(fields);
    var r := Interleave(keys, values);
    forall j | 0 <= j < |fields|
      ensures r[j] == fields[j]
    {
      InterleaveAt(keys, values, j / 2);
    }
  }

  /** Splitting the interleaving of equally long keys and values gives both back. */
  lemma SplitInterleave(keys: seq<Bytes>, values: seq<Bytes>)
    requires |keys| == |values|
    ensures FieldKeys(Interleave(keys, values)) == keys
    ensures FieldValues(Interleave(keys, values)) == values
  {
    forall k | 0 <= k < |keys|
      ensures FieldKeys(Interleave(keys, values))[k] == keys[k]
      ensures FieldValues(Interleave(keys, values))[k] == values[k]
    {
      InterleaveAt(keys, values, k);
    }
  }

  /**
   * `kvParse(fields...)`: an odd count is refused with empty keys and values;
   * otherwise the keys and values come out in input order, one of each per pair.
   */
  method KvParse(fields: seq<Bytes>) returns (headers: seq<Bytes>, values: seq<Bytes>, err: Option<ParseError>)
    ensures err.Some? <==> |fields| % 2 != 0
    ensures err.Some? ==> headers == [] && values == [] && err.value == OddFieldCount(|fields|)
    ensures err.None? ==> headers == FieldKeys(fields) && values == FieldValues(fields)
    ensures err.None? ==> |headers| == |values| && Interleave(headers, values) == fields
  {
    if |fields| % 2 != 0 {
      return [], [], Some(OddFieldCount(|fields|));
    }
    headers, values := [], [];
    for i := 0 to |fields|
      invariant |headers| == (i + 1) / 2 && |values| == i / 2
      invariant forall k :: 0 <= k < |headers| ==> headers[k] == fields[2 * k]
      invariant forall k :: 0 <= k < |values| ==> values[k] == fields[2 * k + 1]
    {
      if i % 2 == 0 {
        headers := headers + [fields[i]];
      } else {
        values := values + [fields[i]];
      }
    }
    if |headers| != |values| {
      // errInvalidFields: an even count always yields as many keys as values, so this is never reached
      assert false;
      return [], [], Some(InvalidFields);
    }
    InterleaveSplit(fields);
    return headers, values, None;
  }
}
