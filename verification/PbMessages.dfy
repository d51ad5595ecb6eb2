/** The encoder and the decoder together. */
module PbMessages {
  import opened DbFormat
  import opened Pb
  import opened PbEncode
  import PbIStream
  import opened PbMerge

  /** What was encoded into a buffer decodes to the same message. */
  method EncodeThenDecode(l: LType, m: Value, bufSize: nat) returns (r: Option<Value>)
    requires l.Submessage? && SchemaOk(l) && ValueOk(l, m)
    ensures r == if |EncFields(l.fields, m, 0)| <= bufSize then Some(m) else None
  {
    hide SchemaOk, ValueOk, EncFields;
    var ok, bytes := EncodeToBuffer(l, m, bufSize);
    if !ok {
      return None;
    }
    var stream := new PbIStream.IStream(bytes, 0, |bytes|);
    assert bytes[0..|bytes|] == bytes;
    r := PbIStream.Decode(stream, l);
    DecodeRestores(l, m);
  }
}
