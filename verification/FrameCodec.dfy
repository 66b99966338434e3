/** The masked frames of app/temporary: `Message.marshal` and `Receive.unmarshal`. */
module FrameCodec {
  import opened Wrappers

  type Bytes = seq<bv8>

  /** The error of a frame shorter than the opcode; it is reported at offset 2. */
  datatype Error = NoError | SyntaxError(offset: nat)

  function Masked(raw: Bytes, mask: bv8): Bytes {
    if mask == 0 then raw else seq(|raw|, i requires 0 <= i < |raw| => raw[i] ^ mask)
  }

  function High(code: bv16): bv8 {
    (code >> 8) as bv8
  }

  function Low(code: bv16): bv8 {
    (code & 0xff) as bv8
  }

  function Join(high: bv8, low: bv8): bv16 {
    ((high as bv16) << 8) | (low as bv16)
  }

  /** A message's bytes; a nil Data carries nothing, any other is an opaque JSON text. */
  function Payload(data: Option<Bytes>): Bytes {
    if data.Some? then data.value else []
  }

  function Encode(code: bv16, data: Option<Bytes>, mask: bv8): Bytes {
    Masked([High(code), Low(code)] + Payload(data), mask)
  }

  function Decode(raw: Bytes, mask: bv8): Option<(bv16, Bytes)> {
    if |raw| < 2 then None
    else
      var plain := Masked(raw, mask);
      Some((Join(plain[0], plain[1]), plain[2..]))
  }

  lemma {:induction false} MaskTwice(raw: Bytes, mask: bv8)
    ensures |Masked(raw, mask)| == |raw| && Masked(Masked(raw, mask), mask) == raw
  {
    forall i | 0 <= i < |raw| ensures (raw[i] ^ mask) ^ mask == raw[i] {
      XorTwice(raw[i], mask);
    }
  }

  lemma MaskedAt(raw: Bytes, mask: bv8, i: nat)
    requires i < |raw|
    ensures |Masked(raw, mask)| == |raw| && Masked(raw, mask)[i] == raw[i] ^ mask
  {
    XorNothing(raw[i]);
  }

  lemma XorNothing(a: bv8)
    ensures a ^ 0 == a
  {
  }

  /** Every payload byte of a frame is masked, and stays in its place after the two of the opcode. */
  lemma PayloadMasked(code: bv16, body: Bytes, mask: bv8, i: nat)
    requires i < |body|
    ensures |Encode(code, Some(body), mask)| == 2 + |body|
    ensures Encode(code, Some(body), mask)[2 + i] == body[i] ^ mask
  {
    var plain := [High(code), Low(code)] + body;
    MaskedAt(plain, mask, 2 + i);
    assert plain[2 + i] == body[i];
  }

  lemma XorTwice(a: bv8, m: bv8)
    ensures (a ^ m) ^ m == a
  {
  }

  lemma SplitJoin(code: bv16, high: bv8, low: bv8)
    ensures Join(High(code), Low(code)) == code
    ensures High(Join(high, low)) == high && Low(Join(high, low)) == low
  {
  }

  /** The opcode is big-endian. */
  lemma BigEndianHeader(code: bv16, data: Option<Bytes>)
    ensures var raw := Encode(code, data, 0);
      |raw| >= 2 && (raw[0] as bv16) * 256 + (raw[1] as bv16) == code
  {
  }

  /** Decoding an encoded message gives back its opcode and payload, for every mask. */
  lemma DecodeEncode(code: bv16, data: Option<Bytes>, mask: bv8)
    ensures Decode(Encode(code, data, mask), mask) == Some((code, Payload(data)))
  {
    var plain := [High(code), Low(code)] + Payload(data);
    MaskTwice(plain, mask);
    SplitJoin(code, 0, 0);
    assert plain[2..] == Payload(data);
  }

  /** Encoding what was decoded from any frame of at least two bytes gives back the frame. */
  lemma EncodeDecode(raw: Bytes, mask: bv8)
    requires |raw| >= 2
    ensures var r := Decode(raw, mask); r.Some? && Encode(r.value.0, Some(r.value.1), mask) == raw
  {
    var plain := Masked(raw, mask);
    MaskTwice(raw, mask);
    SplitJoin(0, plain[0], plain[1]);
    assert plain == [plain[0], plain[1]] + plain[2..];
  }

  lemma DecodedHigh(raw: Bytes, mask: bv8)
    requires |raw| >= 2
    ensures Decode(raw, mask).Some? && High(Decode(raw, mask).value.0) == Xor(raw[0], mask)
  {
    var plain := Masked(raw, mask);
    SplitJoin(0, plain[0], plain[1]);
    assert Xor(raw[0], 0) == raw[0];
  }

  function Xor(a: bv8, b: bv8): bv8 {
    a ^ b
  }

  /** Any other mask misreads the opcode of every frame. */
  lemma WrongMaskMisreads(raw: Bytes, m1: bv8, m2: bv8)
    requires |raw| >= 2 && m1 != m2
    ensures var r1, r2 := Decode(raw, m1), Decode(raw, m2);
      r1.Some? && r2.Some? && r1.value.0 != r2.value.0
  {
    DecodedHigh(raw, m1);
    DecodedHigh(raw, m2);
    XorInjective(raw[0], m1, m2);
  }

  lemma XorInjective(a: bv8, m1: bv8, m2: bv8)
    ensures Xor(a, m1) == Xor(a, m2) <==> m1 == m2
  {
  }

  method XorAll(raw: array<bv8>, mask: bv8)
    modifies raw
    ensures raw[..] == Masked(old(raw[..]), mask)
  {
    if mask != 0 {
      for i := 0 to raw.Length
        invariant forall j | 0 <= j < i :: raw[j] == old(raw[j]) ^ mask
        invariant forall j | i <= j < raw.Length :: raw[j] == old(raw[j])
      {
        raw[i] := raw[i] ^ mask;
      }
    }
  }

  method Marshal(code: bv16, data: Option<Bytes>, mask: bv8) returns (ret: array<bv8>)
    ensures fresh(ret) && ret[..] == Encode(code, data, mask)
  {
    if data == None {
      ret := new bv8[2];
      ret[0], ret[1] := High(code), Low(code);
      assert ret[..] == [High(code), Low(code)] + [];
    } else {
      var body := data.value;
      ret := new bv8[2 + |body|];
      ret[0], ret[1] := High(code), Low(code);
      for i := 0 to |body|
        invariant ret[0] == High(code) && ret[1] == Low(code)
        invariant forall j | 0 <= j < i :: ret[2 + j] == body[j]
      {
        ret[2 + i] := body[i];
      }
      assert ret[..] == [High(code), Low(code)] + body;
    }
    XorAll(ret, mask);
  }

  class Receive {
    const mask: bv8
    var opcode: bv16
    var data: Bytes

    constructor (mask: bv8)
      ensures this.mask == mask
    {
      this.mask, opcode, data := mask, 0, [];
    }

    /** unmarshal unmasks the caller's buffer in place; a short frame changes nothing. */
    method Unmarshal(raw: array<bv8>) returns (err: Error)
      modifies this, raw
      ensures raw.Length < 2 ==> err == SyntaxError(2) && raw[..] == old(raw[..]) && opcode == old(opcode) && data == old(data)
      ensures raw.Length >= 2 ==>
        && err == NoError && raw[..] == Masked(old(raw[..]), mask)
        && Decode(old(raw[..]), mask) == Some((opcode, data))
    {
      if raw.Length < 2 {
        return SyntaxError(2);
      }
      XorAll(raw, mask);
      opcode := Join(raw[0], raw[1]);
      data := raw[2..];
      assert raw[..][2..] == raw[2..];
      err := NoError;
    }
  }
}
