/** The request and response payload (`Request::cont`): an ordered sequence of
    typed values.  Pull and push requests carry a whole number of
    (key, datum) pairs: (key, value placeholder) for a pull, (key, gradient)
    for a push; a push response carries one integer. */
module Container {

  datatype Field<K, X> = KeyField(key: K) | DataField(data: X) | IntField(value: int)

  /** The payload is a whole number of (key, datum) pairs.  The handlers test
      for the end of the payload only between pairs, so this is what they
      need of a request. */
  predicate WellFormed<K, X>(payload: seq<Field<K, X>>): (b: bool)
    ensures b <==> Alternating(payload)
    decreases |payload|
  {
    if |payload| < 2 then payload == []
    else
      var rest := payload[2..];
      assert forall i :: 0 <= i < |rest| ==> rest[i] == payload[i + 2];
      payload[0].KeyField? && payload[1].DataField? && WellFormed(rest)
  }

  /** Keys at the even positions, data at the odd ones, and as many data as
      keys. */
  predicate Alternating<K, X>(payload: seq<Field<K, X>>)
  {
    |payload| % 2 == 0
    && forall i :: 0 <= i < |payload| ==>
         if i % 2 == 0 then payload[i].KeyField? else payload[i].DataField?
  }

  /** Reading pairs off the payload until it is exhausted. */
  function Decode<K, X>(payload: seq<Field<K, X>>): (items: seq<(K, X)>)
    requires WellFormed(payload)
    ensures 2 * |items| == |payload|
    decreases |payload|
  {
    if payload == [] then []
    else [(payload[0].key, payload[1].data)] + Decode(payload[2..])
  }

  /** Reading has consumed the first `i` fields of the payload and produced
      `items`; what is left is again a whole number of pairs, and its pairs
      complete `items` to the pairs of the whole payload. */
  ghost predicate ReadSoFar<K, X>(payload: seq<Field<K, X>>, i: nat, items: seq<(K, X)>)
  {
    i <= |payload| && WellFormed(payload) && WellFormed(payload[i..])
    && Decode(payload) == items + Decode(payload[i..])
  }

  lemma ReadStart<K, X>(payload: seq<Field<K, X>>)
    requires WellFormed(payload)
    ensures ReadSoFar(payload, 0, [])
  {
  }

  /** One more pair read at position `i`: a key, then a datum. */
  lemma ReadStep<K, X>(payload: seq<Field<K, X>>, i: nat, items: seq<(K, X)>)
    requires i < |payload| && ReadSoFar(payload, i, items)
    ensures i + 2 <= |payload| && payload[i].KeyField? && payload[i + 1].DataField?
    ensures ReadSoFar(payload, i + 2, items + [(payload[i].key, payload[i + 1].data)])
  {
  }

  /** Once the payload is exhausted, every pair has been read. */
  lemma ReadEnd<K, X>(payload: seq<Field<K, X>>, items: seq<(K, X)>)
    requires ReadSoFar(payload, |payload|, items)
    ensures items == Decode(payload)
  {
  }

  /** The read loop of the pull handler: `cont >> key; cont >> val` until
      `read_finished()`, collecting the pairs. */
  method ReadPairs<K, X>(payload: seq<Field<K, X>>) returns (items: seq<(K, X)>)
    requires WellFormed(payload)
    ensures items == Decode(payload)
  {
    items := [];
    var i := 0;
    ReadStart(payload);
    while i < |payload|
      invariant ReadSoFar(payload, i, items)
      decreases |payload| - i
    {
      ReadStep(payload, i, items);
      items := items + [(payload[i].key, payload[i + 1].data)];
      i := i + 2;
    }
    ReadEnd(payload, items);
  }

  /** Writing pairs to a payload, key first. */
  function Encode<K, X>(items: seq<(K, X)>): (payload: seq<Field<K, X>>)
    ensures WellFormed(payload) && |payload| == 2 * |items|
    decreases |items|
  {
    if items == [] then []
    else
      var rest := Encode(items[1..]);
      var p := [KeyField(items[0].0), DataField(items[0].1)] + rest;
      assert p[2..] == rest;
      p
  }

  /** Decoding what was encoded gives back the pairs. */
  lemma {:induction false} DecodeEncode<K, X>(items: seq<(K, X)>)
    ensures Decode(Encode(items)) == items
    decreases |items|
  {
    if items != [] {
      var p := Encode(items);
      assert p[2..] == Encode(items[1..]);
      DecodeEncode(items[1..]);
    }
  }

  /** Encoding what was decoded gives back the payload. */
  lemma {:induction false} EncodeDecode<K, X>(payload: seq<Field<K, X>>)
    requires WellFormed(payload)
    ensures Encode(Decode(payload)) == payload
    decreases |payload|
  {
    if payload != [] {
      var items := Decode(payload);
      assert items[1..] == Decode(payload[2..]);
      EncodeDecode(payload[2..]);
      assert payload == [payload[0], payload[1]] + payload[2..];
    }
  }

  /** Appending the pairs of two payloads appends the payloads. */
  lemma {:induction false} EncodeConcat<K, X>(a: seq<(K, X)>, b: seq<(K, X)>)
    ensures Encode(a + b) == Encode(a) + Encode(b)
    decreases |a|
  {
    if a != [] {
      assert (a + b)[1..] == a[1..] + b;
      EncodeConcat(a[1..], b);
    } else {
      assert a + b == b;
    }
  }

  /** Decoding two payloads one after the other decodes their concatenation:
      one request may be split into several without changing its pairs. */
  lemma DecodeConcat<K, X>(p: seq<Field<K, X>>, q: seq<Field<K, X>>)
    requires WellFormed(p) && WellFormed(q)
    ensures WellFormed(p + q) && Decode(p + q) == Decode(p) + Decode(q)
  {
    EncodeDecode(p);
    EncodeDecode(q);
    EncodeConcat(Decode(p), Decode(q));
    DecodeEncode(Decode(p) + Decode(q));
  }
}
