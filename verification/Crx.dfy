/**
 The CRX3 packer: varints, length-delimited protobuf fields, the signed header, and the
 unpacker that strips it. Hashing and signing are functions given by the caller.
 */
module Crx {
  import opened Wrappers
  import opened Bytes

  /** `encodeVarint`: seven bits per byte; the shift works on the low 32 bits of the value. */
  function Varint(v: nat): (r: seq<byte>)
    ensures |r| >= 1
    decreases v
  {
    var rest := (v % TWO_32) / 128;
    if rest > 0 then [v % 128 + 128] + Varint(rest) else [v % 128]
  }

  /** One turn of the loop: a byte moves from what is still to be written to what has been. */
  lemma VarintStep(done: seq<byte>, v: nat, b: byte, rest: nat, all: seq<byte>)
    requires rest == (v % TWO_32) / 128 && b == (if rest > 0 then v % 128 + 128 else v % 128) && done + Varint(v) == all
    ensures rest > 0 ==> (done + [b]) + Varint(rest) == all
    ensures rest == 0 ==> done + [b] == all
  {
    assert Varint(v) == if rest > 0 then [b] + Varint(rest) else [b];
  }

  method EncodeVarint(value: nat) returns (bytes: seq<byte>)
    ensures bytes == Varint(value)
  {
    bytes := [];
    var remaining: nat := value;
    var more := true;
    while more
      invariant more ==> bytes + Varint(remaining) == Varint(value)
      invariant !more ==> bytes == Varint(value)
      decreases more, remaining
    {
      var b := remaining % 128;
      var rest: nat := (remaining % TWO_32) / 128;
      if rest > 0 { b := b + 128; }
      VarintStep(bytes, remaining, b, rest, Varint(value));
      bytes := bytes + [b];
      more := rest > 0;
      remaining := rest;
    }
  }

  /** The value at the front of `b` and the number of bytes it takes, as protobuf reads them. */
  function ReadVarint(b: seq<byte>): (r: Option<(nat, nat)>)
    ensures r.Some? ==> 1 <= r.value.1 <= |b|
  {
    if b == [] then None
    else if b[0] < 128 then Some((b[0], 1))
    else
      var rest := ReadVarint(b[1..]);
      if rest.None? then None else Some((b[0] - 128 + 128 * rest.value.0, rest.value.1 + 1))
  }

  lemma LowBits(v: nat, w: nat, k: nat)
    requires v == TWO_32 * k + w && w < TWO_32
    ensures w == 128 * (w / 128) + v % 128
    ensures w / 128 < TWO_32
  {
    assert v == 128 * (33554432 * k + w / 128) + w % 128;
  }

  lemma VarintLong(v: nat, q: nat, rest: seq<byte>)
    requires q == (v % TWO_32) / 128 && q > 0
    ensures (Varint(v) + rest)[0] == v % 128 + 128 && (Varint(v) + rest)[1..] == Varint(q) + rest
    ensures |Varint(v)| == 1 + |Varint(q)|
  {
  }

  /** What is read back is the value modulo 2^32. */
  lemma {:induction false} VarintReads(v: nat, rest: seq<byte>)
    ensures ReadVarint(Varint(v) + rest) == Some((v % TWO_32, |Varint(v)|))
    decreases v
  {
    var q := (v % TWO_32) / 128;
    LowBits(v, v % TWO_32, v / TWO_32);
    if q > 0 {
      VarintReads(q, rest);
      VarintLong(v, q, rest);
    }
  }

  /** Varints decode back exactly below 2^32. */
  lemma VarintRoundTrip(v: nat)
    ensures ReadVarint(Varint(v)) == Some((v, |Varint(v)|)) <==> v < TWO_32
  {
    VarintReads(v, []);
    assert Varint(v) + [] == Varint(v);
  }

  // ----- fields -----

  datatype Field = Field(number: nat, payload: seq<byte>)

  /** The number shifted by three with wire type 2, in 32 bits. */
  function Tag(number: nat): nat {
    (number * 8) % TWO_32 + 2
  }

  function Encode(f: Field): seq<byte> {
    Varint(Tag(f.number)) + (Varint(|f.payload|) + f.payload)
  }

  function EncodeAll(fs: seq<Field>): seq<byte> {
    if fs == [] then [] else Encode(fs[0]) + EncodeAll(fs[1..])
  }

  /** The length-delimited field at the front of `b`, and what follows it. */
  function ReadField(b: seq<byte>): (r: Option<(Field, seq<byte>)>)
    ensures r.Some? ==> |r.value.1| < |b|
  {
    var tag := ReadVarint(b);
    if tag.None? || tag.value.0 % 8 != 2 then None else
      var b1 := b[tag.value.1..];
      var len := ReadVarint(b1);
      if len.None? || len.value.1 + len.value.0 > |b1| then None else
        var end := len.value.1 + len.value.0;
        Some((Field(tag.value.0 / 8, b1[len.value.1..end]), b1[end..]))
  }

  /** A message of length-delimited fields. */
  function Parse(b: seq<byte>): Option<seq<Field>>
    decreases |b|
  {
    if b == [] then Some([]) else
      var first := ReadField(b);
      if first.None? then None else
        var rest := Parse(first.value.1);
        if rest.None? then None else Some([first.value.0] + rest.value)
  }

  predicate Fits(f: Field) {
    f.number < 0x2000_0000 && |f.payload| < TWO_32
  }

  /** `r` is what parsing gives when `f` stands before what parses to `rest`. */
  predicate Prepends(r: Option<seq<Field>>, f: Field, rest: Option<seq<Field>>) {
    r == if rest.None? then None else Some([f] + rest.value)
  }

  /** Reading a field, when the two varints at the front are known. */
  lemma FieldStep(b: seq<byte>, b1: seq<byte>, t: nat, k: nat, m: nat, f: Field, rest: seq<byte>)
    requires ReadVarint(b) == Some((t, k)) && t % 8 == 2 && b1 == b[k..]
    requires ReadVarint(b1) == Some((|f.payload|, m)) && m + |f.payload| <= |b1|
    requires f == Field(t / 8, b1[m..m + |f.payload|]) && rest == b1[m + |f.payload|..]
    ensures ReadField(b) == Some((f, rest))
  {
  }

  lemma ParseStepField(b: seq<byte>, f: Field, rest: seq<byte>)
    requires b != [] && ReadField(b) == Some((f, rest))
    ensures Prepends(Parse(b), f, Parse(rest))
  {
  }

  lemma TagParts(number: nat)
    requires number < 0x2000_0000
    ensures Tag(number) < TWO_32 && Tag(number) % 8 == 2 && Tag(number) / 8 == number
  {
  }

  lemma SmallVarint(v: nat, rest: seq<byte>, b: seq<byte>)
    requires v < TWO_32 && b == Varint(v) + rest
    ensures ReadVarint(b) == Some((v, |Varint(v)|))
  {
    VarintReads(v, rest);
  }

  lemma Slices(a: seq<byte>, b: seq<byte>, c: seq<byte>, s: seq<byte>)
    requires s == a + (b + c)
    ensures s[|a|..] == b + c && s[|a|..|a| + |b|] == b && s[|a| + |b|..] == c
  {
  }

  lemma FieldParts(f: Field, rest: seq<byte>, b: seq<byte>, b1: seq<byte>, head: seq<byte>, size: seq<byte>)
    requires Fits(f) && b1 == size + (f.payload + rest) && b == head + (size + (f.payload + rest)) && b != []
    requires ReadVarint(b) == Some((Tag(f.number), |head|)) && ReadVarint(b1) == Some((|f.payload|, |size|))
    ensures ReadField(b) == Some((f, rest))
  {
    TagParts(f.number);
    Slices(head, size, f.payload + rest, b);
    Slices(size, f.payload, rest, b1);
    FieldStep(b, b1, Tag(f.number), |head|, |size|, f, rest);
  }

  lemma ParseOne(f: Field, rest: seq<byte>, b: seq<byte>)
    requires Fits(f) && b == Encode(f) + rest
    ensures Prepends(Parse(b), f, Parse(rest))
  {
    var head, size := Varint(Tag(f.number)), Varint(|f.payload|);
    var b1 := size + (f.payload + rest);
    assert b == head + b1;
    TagParts(f.number);
    SmallVarint(Tag(f.number), b1, b);
    SmallVarint(|f.payload|, f.payload + rest, b1);
    FieldParts(f, rest, b, b1, head, size);
    ParseStepField(b, f, rest);
  }

  /** A sequence of fields parses back to exactly itself. */
  lemma {:induction false} FieldsRoundTrip(fs: seq<Field>)
    requires forall i | 0 <= i < |fs| :: Fits(fs[i])
    ensures Parse(EncodeAll(fs)) == Some(fs)
  {
    if fs != [] {
      FieldsRoundTrip(fs[1..]);
      ParseOne(fs[0], EncodeAll(fs[1..]), EncodeAll(fs));
      assert fs == [fs[0]] + fs[1..];
    }
  }

  // ----- the archive -----

  /** The four bytes of `Cr24`. */
  const CRX_MAGIC: seq<byte> := [67, 114, 50, 52]
  const CRX_VERSION: nat := 3

  /** `CRX3 SignedData` and a zero byte. */
  const SIGNATURE_CONTEXT: seq<byte> := [67, 82, 88, 51, 32, 83, 105, 103, 110, 101, 100, 68, 97, 116, 97, 0]

  function CrxId(publicKey: seq<byte>, hash: seq<byte> -> seq<byte>): seq<byte> {
    var h := hash(publicKey);
    if |h| < 16 then h else h[..16]
  }

  function SignedData(publicKey: seq<byte>, hash: seq<byte> -> seq<byte>): seq<byte> {
    Encode(Field(1, CrxId(publicKey, hash)))
  }

  function Signature(zip: seq<byte>, publicKey: seq<byte>, hash: seq<byte> -> seq<byte>, sign: seq<byte> -> seq<byte>): seq<byte> {
    var signed := SignedData(publicKey, hash);
    sign(SIGNATURE_CONTEXT + Le32(|signed|) + signed + zip)
  }

  function KeyProof(zip: seq<byte>, publicKey: seq<byte>, hash: seq<byte> -> seq<byte>, sign: seq<byte> -> seq<byte>): seq<byte> {
    EncodeAll([Field(1, publicKey), Field(2, Signature(zip, publicKey, hash, sign))])
  }

  function Header(zip: seq<byte>, publicKey: seq<byte>, hash: seq<byte> -> seq<byte>, sign: seq<byte> -> seq<byte>): seq<byte> {
    EncodeAll([Field(2, KeyProof(zip, publicKey, hash, sign)), Field(10000, SignedData(publicKey, hash))])
  }

  function Packed(header: seq<byte>, zip: seq<byte>): seq<byte> {
    CRX_MAGIC + (Le32(CRX_VERSION) + (Le32(|header|) + (header + zip)))
  }

  function CreateCrx(zip: seq<byte>, publicKey: seq<byte>, hash: seq<byte> -> seq<byte>, sign: seq<byte> -> seq<byte>): seq<byte> {
    Packed(Header(zip, publicKey, hash, sign), zip)
  }

  /** Not a CRX: returned as it is. Too short to hold the header length: an error. */
  function ExtractZip(crx: seq<byte>): Option<seq<byte>> {
    if |crx| < 4 || crx[..4] != CRX_MAGIC then Some(crx)
    else if |crx| < 12 then None
    else
      var start := 12 + ReadLe32(crx[8..]);
      Some(if start <= |crx| then crx[start..] else [])
  }

  /** The layout of an archive: what the unpacker sees. */
  lemma Layout(header: seq<byte>, zip: seq<byte>)
    ensures ExtractZip(Packed(header, zip)) == Some((header + zip)[|header| % TWO_32..])
  {
    var crx := Packed(header, zip);
    assert crx[..4] == CRX_MAGIC;
    assert crx[8..] == Le32(|header|) + (header + zip);
    Le32RoundTrip(|header|, header + zip);
    assert crx[12..] == header + zip;
    var h := |header| % TWO_32;
    assert crx[12 + h..] == crx[12..][h..];
  }

  lemma PackedRoundTrip(header: seq<byte>, zip: seq<byte>)
    ensures ExtractZip(Packed(header, zip)) == Some(zip) <==> |header| < TWO_32
  {
    Layout(header, zip);
    if |header| < TWO_32 {
      assert (header + zip)[|header|..] == zip;
    } else {
      assert |(header + zip)[|header| % TWO_32..]| > |zip|;
    }
  }

  /** Unpacking gives back the zip exactly when the header length fits its 32-bit field. */
  lemma CrxRoundTrip(zip: seq<byte>, publicKey: seq<byte>, hash: seq<byte> -> seq<byte>, sign: seq<byte> -> seq<byte>)
    ensures ExtractZip(CreateCrx(zip, publicKey, hash, sign)) == Some(zip) <==> |Header(zip, publicKey, hash, sign)| < TWO_32
  {
    PackedRoundTrip(Header(zip, publicKey, hash, sign), zip);
  }

  lemma OneByte(v: nat)
    requires v < 0x80
    ensures |Varint(v)| == 1
  {
  }

  /** A value one byte longer takes one byte more. */
  lemma OneMore(v: nat, q: nat)
    requires q == (v % TWO_32) / 128
    ensures |Varint(v)| <= 1 + |Varint(q)|
  {
  }

  lemma Quotient(v: nat)
    requires v < TWO_32
    ensures (v % TWO_32) / 128 == v / 128
  {
    assert v % TWO_32 == v;
  }

  lemma TwoBytes(v: nat)
    requires v < 0x4000
    ensures |Varint(v)| <= 2
  {
    Quotient(v);
    OneMore(v, v / 128);
    OneByte(v / 128);
  }

  lemma ThreeBytes(v: nat)
    requires v < 0x20_0000
    ensures |Varint(v)| <= 3
  {
    Quotient(v);
    OneMore(v, v / 128);
    TwoBytes(v / 128);
  }

  lemma FourBytes(v: nat)
    requires v < 0x1000_0000
    ensures |Varint(v)| <= 4
  {
    Quotient(v);
    OneMore(v, v / 128);
    ThreeBytes(v / 128);
  }

  lemma VarintShort(v: nat)
    ensures |Varint(v)| <= 5
  {
    var q := (v % TWO_32) / 128;
    OneMore(v, q);
    FourBytes(q);
  }

  /** With a key and a signature of less than half a gigabyte each, every zip survives. */
  lemma EveryZipSurvives(zip: seq<byte>, publicKey: seq<byte>, hash: seq<byte> -> seq<byte>, sign: seq<byte> -> seq<byte>)
    requires |publicKey| < 0x2000_0000 && |Signature(zip, publicKey, hash, sign)| < 0x2000_0000
    ensures ExtractZip(CreateCrx(zip, publicKey, hash, sign)) == Some(zip)
  {
    var sig := Signature(zip, publicKey, hash, sign);
    EncodeSize(Field(1, publicKey));
    EncodeSize(Field(2, sig));
    EncodeSize(Field(1, CrxId(publicKey, hash)));
    PairSize(Field(1, publicKey), Field(2, sig));
    EncodeSize(Field(2, KeyProof(zip, publicKey, hash, sign)));
    EncodeSize(Field(10000, SignedData(publicKey, hash)));
    PairSize(Field(2, KeyProof(zip, publicKey, hash, sign)), Field(10000, SignedData(publicKey, hash)));
    CrxRoundTrip(zip, publicKey, hash, sign);
  }

  lemma EncodeSize(f: Field)
    ensures |Encode(f)| <= |f.payload| + 10
  {
    VarintShort(Tag(f.number));
    VarintShort(|f.payload|);
  }

  lemma PairSize(f: Field, g: Field)
    ensures |EncodeAll([f, g])| == |Encode(f)| + |Encode(g)|
  {
    assert [f, g][1..] == [g] && [g][1..] == [];
    assert EncodeAll([g]) == Encode(g) + EncodeAll([]);
    assert EncodeAll([f, g]) == Encode(f) + EncodeAll([g]);
  }

  lemma PairParses(f: Field, g: Field)
    requires Fits(f) && Fits(g)
    ensures Parse(EncodeAll([f, g])) == Some([f, g])
  {
    FieldsRoundTrip([f, g]);
  }

  lemma OneParses(f: Field)
    requires Fits(f)
    ensures Parse(Encode(f)) == Some([f])
  {
    assert Encode(f) + [] == Encode(f);
    assert [f] + [] == [f];
    ParseOne(f, [], Encode(f));
  }

  /** The header of an archive parses back to the key, the signature over the zip, and the id of the key. */
  lemma HeaderParses(zip: seq<byte>, publicKey: seq<byte>, hash: seq<byte> -> seq<byte>, sign: seq<byte> -> seq<byte>)
    requires |publicKey| < 0x2000_0000 && |Signature(zip, publicKey, hash, sign)| < 0x2000_0000
    ensures Parse(Header(zip, publicKey, hash, sign)) == Some([Field(2, KeyProof(zip, publicKey, hash, sign)), Field(10000, SignedData(publicKey, hash))])
    ensures Parse(KeyProof(zip, publicKey, hash, sign)) == Some([Field(1, publicKey), Field(2, Signature(zip, publicKey, hash, sign))])
    ensures Parse(SignedData(publicKey, hash)) == Some([Field(1, CrxId(publicKey, hash))])
  {
    PartsFit(Field(1, publicKey), Field(2, Signature(zip, publicKey, hash, sign)), Field(1, CrxId(publicKey, hash)));
    PairParses(Field(1, publicKey), Field(2, Signature(zip, publicKey, hash, sign)));
    PairParses(Field(2, KeyProof(zip, publicKey, hash, sign)), Field(10000, SignedData(publicKey, hash)));
    OneParses(Field(1, CrxId(publicKey, hash)));
  }

  lemma PartsFit(f: Field, g: Field, h: Field)
    requires |f.payload| < 0x2000_0000 && |g.payload| < 0x2000_0000 && |h.payload| <= 16
    ensures |EncodeAll([f, g])| < TWO_32 && |Encode(h)| < TWO_32
  {
    EncodeSize(f);
    EncodeSize(g);
    EncodeSize(h);
    PairSize(f, g);
  }

  // ----- what a browser checks -----

  /** The parts of an archive: the header's key, signature and signed data, and the zip. */
  datatype Opened = Opened(key: seq<byte>, signature: seq<byte>, signedData: seq<byte>, zip: seq<byte>)

  /** The header between the twelve fixed bytes and the zip. */
  function HeaderOf(crx: seq<byte>): Option<seq<byte>> {
    if |crx| < 12 || crx[..4] != CRX_MAGIC || ReadLe32(crx[4..]) != 3 || 12 + ReadLe32(crx[8..]) > |crx| then None
    else Some(crx[12..12 + ReadLe32(crx[8..])])
  }

  /** The two fields of a message, when they are these two. */
  function TwoFields(b: seq<byte>, first: nat, second: nat): Option<(seq<byte>, seq<byte>)> {
    var fs := Parse(b);
    if fs.Some? && |fs.value| == 2 && fs.value[0].number == first && fs.value[1].number == second
    then Some((fs.value[0].payload, fs.value[1].payload)) else None
  }

  function Open(crx: seq<byte>): Option<Opened> {
    var header, zip := HeaderOf(crx), ExtractZip(crx);
    if header.None? || zip.None? then None else
      var top := TwoFields(header.value, 2, 10000);
      if top.None? then None else
        var proof := TwoFields(top.value.0, 1, 2);
        if proof.None? then None else Some(Opened(proof.value.0, proof.value.1, top.value.1, zip.value))
  }

  /** The bytes under the signature: context, length of the signed data, signed data, zip. */
  function Message(o: Opened): seq<byte> {
    [67, 82, 88, 51, 32, 83, 105, 103, 110, 101, 100, 68, 97, 116, 97, 0] + Le32(|o.signedData|) + o.signedData + o.zip
  }

  /** The signed data names the key, and the signature is one of the message under the key. */
  predicate Trusted(crx: seq<byte>, hash: seq<byte> -> seq<byte>, verify: (seq<byte>, seq<byte>, seq<byte>) -> bool) {
    var o := Open(crx);
    && o.Some?
    && Parse(o.value.signedData) == Some([Field(1, CrxId(o.value.key, hash))])
    && verify(o.value.key, Message(o.value), o.value.signature)
  }

  lemma PackedHeader(header: seq<byte>, zip: seq<byte>)
    requires |header| < TWO_32
    ensures HeaderOf(Packed(header, zip)) == Some(header)
  {
    var crx := Packed(header, zip);
    assert crx[..4] == CRX_MAGIC;
    assert crx[4..] == Le32(3) + (Le32(|header|) + (header + zip));
    Le32RoundTrip(3, Le32(|header|) + (header + zip));
    assert crx[8..] == Le32(|header|) + (header + zip);
    Le32RoundTrip(|header|, header + zip);
    assert crx[12..] == header + zip;
    assert crx[12..12 + |header|] == header;
  }

  lemma TwoFieldsParse(b: seq<byte>, f: Field, g: Field)
    requires Parse(b) == Some([f, g])
    ensures TwoFields(b, f.number, g.number) == Some((f.payload, g.payload))
  {
  }

  lemma HeaderFits(zip: seq<byte>, publicKey: seq<byte>, hash: seq<byte> -> seq<byte>, sign: seq<byte> -> seq<byte>)
    requires |publicKey| < 0x2000_0000 && |Signature(zip, publicKey, hash, sign)| < 0x2000_0000
    ensures |Header(zip, publicKey, hash, sign)| < TWO_32
  {
    EveryZipSurvives(zip, publicKey, hash, sign);
    CrxRoundTrip(zip, publicKey, hash, sign);
  }

  /** Opening an archive gives back the key, the signature, the signed data and the zip. */
  lemma OpensAgain(zip: seq<byte>, publicKey: seq<byte>, hash: seq<byte> -> seq<byte>, sign: seq<byte> -> seq<byte>)
    requires |publicKey| < 0x2000_0000 && |Signature(zip, publicKey, hash, sign)| < 0x2000_0000
    ensures Open(CreateCrx(zip, publicKey, hash, sign)) ==
      Some(Opened(publicKey, Signature(zip, publicKey, hash, sign), SignedData(publicKey, hash), zip))
  {
    var sig, header := Signature(zip, publicKey, hash, sign), Header(zip, publicKey, hash, sign);
    HeaderFits(zip, publicKey, hash, sign);
    EveryZipSurvives(zip, publicKey, hash, sign);
    PackedHeader(header, zip);
    HeaderParses(zip, publicKey, hash, sign);
    TwoFieldsParse(header, Field(2, KeyProof(zip, publicKey, hash, sign)), Field(10000, SignedData(publicKey, hash)));
    TwoFieldsParse(KeyProof(zip, publicKey, hash, sign), Field(1, publicKey), Field(2, sig));
  }

  /** When the key accepts what it signs, a browser trusts every archive that is made. */
  lemma ArchiveIsTrusted(zip: seq<byte>, publicKey: seq<byte>, hash: seq<byte> -> seq<byte>, sign: seq<byte> -> seq<byte>,
                         verify: (seq<byte>, seq<byte>, seq<byte>) -> bool)
    requires |publicKey| < 0x2000_0000 && |Signature(zip, publicKey, hash, sign)| < 0x2000_0000
    requires forall m :: verify(publicKey, m, sign(m))
    ensures Trusted(CreateCrx(zip, publicKey, hash, sign), hash, verify)
  {
    OpensAgain(zip, publicKey, hash, sign);
    HeaderParses(zip, publicKey, hash, sign);
    var o := Opened(publicKey, Signature(zip, publicKey, hash, sign), SignedData(publicKey, hash), zip);
    assert verify(publicKey, Message(o), sign(Message(o)));
  }
}
