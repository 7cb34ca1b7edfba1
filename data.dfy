/** Swift's `Data` as a growable byte buffer, with the `appendString(string:)`
    extension of Sources/APIManager/Extensions/Data.swift. */
module DataBuffer {
  import opened Utf8

  class ByteBuffer {
    var bytes: seq<byte>

    /** `Data()`: an empty buffer. */
    constructor ()
      ensures bytes == []
    {
      bytes := [];
    }

    /** `append(_:)`: the given bytes go on the end. */
    method Append(data: seq<byte>)
      modifies this
      ensures bytes == old(bytes) + data
    {
      bytes := bytes + data;
    }

    /** `appendString(string:)`: the UTF-8 encoding of `s` goes on the end;
        what was there before stays, unchanged, as a prefix. The encoding
        cannot fail for a sequence of scalar values, so the force unwrap of
        the source always succeeds. */
    method AppendString(s: string)
      modifies this
      ensures |bytes| == old(|bytes|) + |Encode(s)|
      ensures bytes[..old(|bytes|)] == old(bytes)
      ensures bytes[old(|bytes|)..] == Encode(s)
      ensures s == "" ==> bytes == old(bytes)
      ensures bytes == old(bytes) + Encode(s)
    {
      var data := Encode(s);
      bytes := bytes + data;
    }
  }
}
