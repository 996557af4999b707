/** The native messaging host: length-prefixed frames, and the percent-encoding of a query value. */
module NativeHost {
  import opened Wrappers
  import opened Bytes

  const MAX_NATIVE_REQUEST_BYTES: nat := 16 * 1024 * 1024
  const MAX_NATIVE_RESPONSE_BYTES: nat := 1024 * 1024

  /** `write_native_message` on the serialised value: refused above one mebibyte. */
  function WriteMessage(body: seq<byte>): Option<seq<byte>> {
    if |body| > MAX_NATIVE_RESPONSE_BYTES then None else Some(Le32(|body|) + body)
  }

  /** `read_native_message`: the body and what follows it, or an error. */
  function ReadMessage(stream: seq<byte>): Option<(seq<byte>, seq<byte>)> {
    if |stream| < 4 then None else
      var len := ReadLe32(stream);
      if len == 0 || len > MAX_NATIVE_REQUEST_BYTES || 4 + len > |stream| then None
      else Some((stream[4..4 + len], stream[4 + len..]))
  }

  /** A body is written exactly when it has at most a mebibyte, after its length. */
  lemma WrittenExactly(body: seq<byte>)
    ensures WriteMessage(body).Some? <==> |body| <= 1_048_576
    ensures WriteMessage(body).Some? ==> WriteMessage(body).value[4..] == body && ReadLe32(WriteMessage(body).value) == |body|
  {
    if |body| <= 1_048_576 { Le32RoundTrip(|body|, body); }
  }

  /** A message is read exactly when its length is between one byte and sixteen mebibytes and it is all there. */
  lemma ReadExactly(stream: seq<byte>)
    ensures ReadMessage(stream).Some? <==>
      |stream| >= 4 && 1 <= ReadLe32(stream) <= 16_777_216 && |stream| >= 4 + ReadLe32(stream)
    ensures ReadMessage(stream).Some? ==>
      |ReadMessage(stream).value.0| == ReadLe32(stream) && stream[4..] == ReadMessage(stream).value.0 + ReadMessage(stream).value.1
  {
  }

  function WriteAll(bodies: seq<seq<byte>>): Option<seq<byte>> {
    if bodies == [] then Some([]) else
      var first, rest := WriteMessage(bodies[0]), WriteAll(bodies[1..]);
      if first.None? || rest.None? then None else Some(first.value + rest.value)
  }

  /** Frames are read until the stream ends; an error loses the rest. */
  function ReadAll(stream: seq<byte>): Option<seq<seq<byte>>>
    decreases |stream|
  {
    if stream == [] then Some([]) else
      var first := ReadMessage(stream);
      if first.None? then None else
        var rest := ReadAll(first.value.1);
        if rest.None? then None else Some([first.value.0] + rest.value)
  }

  lemma ReadBack(body: seq<byte>, rest: seq<byte>)
    requires |body| <= MAX_NATIVE_RESPONSE_BYTES
    ensures ReadMessage(Le32(|body|) + body + rest) == if body == [] then None else Some((body, rest))
  {
    var s := Le32(|body|) + body + rest;
    assert s == Le32(|body|) + (body + rest);
    Le32RoundTrip(|body|, body + rest);
    assert s[4..4 + |body|] == body && s[4 + |body|..] == rest;
  }

  /** Whatever could be written is read back unchanged, exactly when no body is empty. */
  lemma {:induction false} FramesRoundTrip(bodies: seq<seq<byte>>)
    requires WriteAll(bodies).Some?
    ensures ReadAll(WriteAll(bodies).value) == Some(bodies) <==> forall i | 0 <= i < |bodies| :: bodies[i] != []
  {
    if bodies != [] {
      var rest := WriteAll(bodies[1..]).value;
      FramesRoundTrip(bodies[1..]);
      ReadBack(bodies[0], rest);
      assert bodies == [bodies[0]] + bodies[1..];
      var stream := WriteAll(bodies).value;
      assert stream == Le32(|bodies[0]|) + bodies[0] + rest;
      if bodies[0] != [] {
        var r := ReadAll(rest);
        assert ReadAll(stream) == if r.None? then None else Some([bodies[0]] + r.value);
        if r.Some? && [bodies[0]] + r.value == bodies { assert r.value == bodies[1..]; }
        assert (forall i | 0 <= i < |bodies| :: bodies[i] != []) <==> (forall i | 0 <= i < |bodies| - 1 :: bodies[1..][i] != []) by {
          assert forall i | 0 <= i < |bodies| - 1 :: bodies[1..][i] == bodies[i + 1];
          if forall i | 0 <= i < |bodies| - 1 :: bodies[1..][i] != [] {
            forall i | 0 <= i < |bodies| ensures bodies[i] != [] {
              if i > 0 { assert bodies[i] == bodies[1..][i - 1]; }
            }
          }
        }
      }
    }
  }

  // ----- percent-encoding -----

  /** The bytes of the unreserved characters of section 2.3 of RFC 3986. */
  predicate Unreserved(b: byte) {
    || 65 <= b <= 90 || 97 <= b <= 122 || 48 <= b <= 57
    || b == 45 || b == 95 || b == 46 || b == 126
  }

  const PERCENT: byte := 37

  /** One upper-case hexadecimal digit. */
  function HexDigit(n: nat): byte
    requires n < 16
  {
    if n < 10 then 48 + n else 55 + n
  }

  function HexValue(b: byte): Option<nat> {
    if 48 <= b <= 57 then Some(b - 48)
    else if 65 <= b <= 70 then Some(b - 55)
    else if 97 <= b <= 102 then Some(b - 87)
    else None
  }

  function EncodeByte(b: byte): seq<byte> {
    if Unreserved(b) then [b] else [PERCENT, HexDigit(b / 16), HexDigit(b % 16)]
  }

  function PercentEncode(s: seq<byte>): seq<byte> {
    if s == [] then [] else EncodeByte(s[0]) + PercentEncode(s[1..])
  }

  /** Section 2.1 of RFC 3986: a percent sign and two hexadecimal digits stand for a byte. */
  function PercentDecode(s: seq<byte>): Option<seq<byte>> {
    if s == [] then Some([])
    else if s[0] != PERCENT then
      var rest := PercentDecode(s[1..]);
      if rest.None? then None else Some([s[0]] + rest.value)
    else if |s| < 3 || HexValue(s[1]).None? || HexValue(s[2]).None? then None
    else
      var rest := PercentDecode(s[3..]);
      if rest.None? then None else Some([16 * HexValue(s[1]).value + HexValue(s[2]).value] + rest.value)
  }

  lemma {:induction false} PercentRoundTrip(s: seq<byte>)
    ensures PercentDecode(PercentEncode(s)) == Some(s)
  {
    if s != [] {
      PercentRoundTrip(s[1..]);
      var e, rest := EncodeByte(s[0]), PercentEncode(s[1..]);
      assert s == [s[0]] + s[1..];
      if Unreserved(s[0]) {
        assert (e + rest)[1..] == rest;
      } else {
        assert (e + rest)[3..] == rest;
        assert HexValue(HexDigit(s[0] / 16)) == Some(s[0] / 16) && HexValue(HexDigit(s[0] % 16)) == Some(s[0] % 16);
      }
    }
  }

  /** The encoded value cannot end the query parameter: only unreserved characters and percent signs occur. */
  lemma {:induction false} EncodedIsQuerySafe(s: seq<byte>)
    ensures forall b | b in PercentEncode(s) :: Unreserved(b) || b == PERCENT
  {
    if s != [] { EncodedIsQuerySafe(s[1..]); }
  }

  /** Nothing is encoded that need not be: each unreserved byte stays one byte, every other takes three. */
  lemma {:induction false} EncodedLength(s: seq<byte>)
    ensures |PercentEncode(s)| == |s| + 2 * Reserved(s)
    ensures Reserved(s) == 0 ==> PercentEncode(s) == s
  {
    if s != [] {
      EncodedLength(s[1..]);
      assert s == [s[0]] + s[1..];
    }
  }

  /** How many bytes are not unreserved characters. */
  function Reserved(s: seq<byte>): nat {
    if s == [] then 0 else (if Unreserved(s[0]) then 0 else 1) + Reserved(s[1..])
  }
}
