/** Reading a request body of bounded size (src/lib/ios-registration-request.ts:60-84). */
module BodyLimits {
  const MAX_BODY_BYTES: nat := 32 * 1024

  type Bytes = seq<bv8>

  datatype Body = TooLarge | Complete(bytes: Bytes)

  function Joined(chunks: seq<Bytes>): Bytes {
    if chunks == [] then [] else Joined(chunks[..|chunks| - 1]) + chunks[|chunks| - 1]
  }

  /** The first chunk comes first, and every byte of it. */
  lemma {:induction false} JoinedFromFront(chunks: seq<Bytes>)
    requires chunks != []
    ensures Joined(chunks) == chunks[0] + Joined(chunks[1..])
    decreases |chunks|
  {
    var last := |chunks| - 1;
    if last == 0 {
      assert Joined(chunks[..0]) == [] && chunks[1..] == [];
    } else {
      JoinedFromFront(chunks[..last]);
      assert chunks[..last][1..] == chunks[1..][..last - 1];
    }
  }

  lemma {:induction false} PrefixIsShorter(chunks: seq<Bytes>, k: nat)
    requires k <= |chunks|
    ensures |Joined(chunks[..k])| <= |Joined(chunks)|
    decreases |chunks|
  {
    if k < |chunks| {
      var last := |chunks| - 1;
      assert chunks[..last][..k] == chunks[..k];
      PrefixIsShorter(chunks[..last], k);
    } else {
      assert chunks[..k] == chunks;
    }
  }

  /** `bytes.set(chunk, offset)` */
  method SetAt(bytes: array<bv8>, chunk: Bytes, offset: nat)
    requires offset + |chunk| <= bytes.Length
    modifies bytes
    ensures bytes[..] == old(bytes[..offset]) + chunk + old(bytes[offset + |chunk|..])
  {
    forall i | 0 <= i < |chunk| {
      bytes[offset + i] := chunk[i];
    }
  }

  /** The second loop: the chunks one after another in one array. */
  method CopyAll(chunks: seq<Bytes>, length: nat) returns (bytes: array<bv8>)
    requires length == |Joined(chunks)|
    ensures fresh(bytes) && bytes[..] == Joined(chunks)
  {
    bytes := new bv8[length];
    var offset := 0;
    for k := 0 to |chunks|
      invariant offset == |Joined(chunks[..k])| <= bytes.Length == length
      invariant bytes[..offset] == Joined(chunks[..k])
    {
      assert chunks[..k + 1][..k] == chunks[..k];
      PrefixIsShorter(chunks, k + 1);
      SetAt(bytes, chunks[k], offset);
      offset := offset + |chunks[k]|;
    }
    assert chunks[..|chunks|] == chunks;
  }

  /**
   The body comes as a stream of chunks. It is refused exactly when it is longer than the limit, as
   soon as that is known, and otherwise returned whole and in order.
   */
  method ReadLimited(stream: seq<Bytes>) returns (body: Body, taken: nat)
    ensures body.TooLarge? <==> |Joined(stream)| > 32_768
    ensures body.TooLarge? ==>
      0 < taken <= |stream| && |Joined(stream[..taken - 1])| <= 32_768 < |Joined(stream[..taken])|
    ensures body.Complete? ==> taken == |stream| && body.bytes == Joined(stream)
  {
    var chunks, length := [], 0;
    taken := 0;
    while taken < |stream|
      invariant taken <= |stream| && chunks == stream[..taken]
      invariant length == |Joined(chunks)| <= MAX_BODY_BYTES
    {
      assert stream[..taken + 1][..taken] == stream[..taken];
      length := length + |stream[taken]|;
      taken := taken + 1;
      if length > MAX_BODY_BYTES {
        PrefixIsShorter(stream, taken);
        return TooLarge, taken;
      }
      chunks := chunks + [stream[taken - 1]];
    }
    assert stream[..taken] == stream;
    var bytes := CopyAll(chunks, length);
    return Complete(bytes[..]), taken;
  }
}
