/** The two entry points of the codec, for the method metadata the schema builder returns. */
module MethodCodec {
  import opened Wrappers
  import opened Words
  import opened Values
  import opened Primitives
  import opened Schema
  import opened SchemaBuilder
  import opened Decoding
  import opened Encoding
  import opened Conversions
  import opened RoundTrip

  method EncodeValueForMethod(fl: Floats, m: GrpcMethod, value: Value) returns (r: Result<seq<byte>, WireError>)
    ensures r.Ok? <==> EncodableMessage(fl, m.inputFields, value)
    ensures r.Ok? ==> EncodesMessage(fl, m.inputFields, value, r.value)
  {
    var out := new Buffer([]);
    var _ :- EncodeMessage(fl, m.inputFields, value, out);
    assert out.data[0..] == out.data;
    r := Ok(out.data);
  }

  /** The record loop at method level: a field is found through the index into the output list. */
  method DecodeValueForMethod(fl: Floats, m: GrpcMethod, body: seq<byte>) returns (r: Result<Value, WireError>)
    requires IndexesInto(m.outputIndex, m.outputFields)
    ensures r == DecodeMessage(fl, OutputTable(m.outputIndex, m.outputFields), body)
  {
    ghost var table := OutputTable(m.outputIndex, m.outputFields);
    var src := new Buffer(body);
    var out := new ObjectBuilder();
    while |src.data| > 0
      invariant DecodeFrom(fl, table, body, map[]) == DecodeFrom(fl, table, src.data, out.fields)
      decreases |src.data|
    {
      var head :- ReadTag(src);
      var (number, wt) := head;
      if number !in m.outputIndex {
        var _ :- SkipValue(wt, src);
      } else {
        var field := m.outputFields[m.outputIndex[number]];
        if field.shape.MapOf? {
          var _ :- DecodeMapEntryIntoObject(fl, out, field.name, field.shape.keyKind, field.shape.kind, wt, src);
        } else {
          var v :- DecodeFieldValue(fl, field.shape, wt, src);
          var _ :- MergeDecodedField(out, field.name, field.shape, v);
        }
      }
    }
    r := Ok(Object(out.fields));
  }

  /** For a method the builder accepted whose reply type is its request type, what it sends it reads back. */
  method BuildAndEcho(fl: Floats, pool: Pool, n: Str, value: Value)
    returns (built: Result<GrpcMethod, BuildError>, sent: Result<seq<byte>, WireError>, r: Result<Value, WireError>)
    requires Lawful(fl) && ValidPool(pool) && n in pool
    ensures built.Ok? <==> !Defective(pool, n)
    ensures built.Ok? ==> (sent.Ok? <==> EncodableMessage(fl, built.value.inputFields, value))
    ensures built.Ok? && CanonicalMessage(fl, built.value.inputFields, value) ==> sent.Ok?
    ensures built.Ok? && sent.Ok? && |sent.value| < TWO_64 ==>
              && EncodesMessage(fl, built.value.inputFields, value, sent.value)
              && r.Ok? && CanonicalMessage(fl, built.value.inputFields, r.value)
              && MessageArrives(fl, built.value.inputFields, value, r.value)
              && (r == Ok(value) <==> CanonicalMessage(fl, built.value.inputFields, value))
  {
    hide ValidPool, Unfolds, Defective, UnfoldsShape, ValidFields, Explains, CanonicalMessage, MessageArrives, EncodesMessage, DecodeMessage, EncodableMessage, GoodMeta;
    sent, r := Err(NotAMessage), Err(NotAMessage);
    ghost var inMeta, outMeta;
    built, inMeta, outMeta := BuildMethod(pool, n, n);
    if built.Ok? {
      sent := EncodeValueForMethod(fl, built.value, value);
      if CanonicalMessage(fl, inMeta.byName, value) {
        CanonicalEncodes(fl, inMeta.byName, value);
      }
      if sent.Ok? {
        r := DecodeValueForMethod(fl, built.value, sent.value);
        UnfoldsOnce(pool, n, inMeta, outMeta);
        UnfoldingIsGood(pool, n, inMeta);
        if |sent.value| < TWO_64 {
          EncodeDecode(fl, inMeta, value, sent.value);
        }
      }
    }
  }
}
