/**
 The two parsers of an HLS master playlist, on tokenised lines: the resolver reads the lines
 once and remembers the last stream tag; the capture fallback looks ahead from each stream
 tag to the next URI line. Section 4.3.4.2 of RFC 8216 says that the URI line following a
 stream tag belongs to it.
 */
module Hls {
  import opened Wrappers

  datatype Attributes = Attributes(bandwidth: Option<nat>, resolution: Option<(nat, nat)>, codecs: Option<string>, fast: bool)

  /** `fast` stands for a frame rate above 30, which the resolver shows in the label. */
  datatype Line =
    | StreamInf(attrs: Attributes)
    | VideoMedia(uri: string)
    | Uri(text: string)
    | Other

  /** `tag` is the label shown for the quality: the height, and whether `60` is appended. */
  datatype Variant = Variant(uri: string, width: Option<nat>, height: Option<nat>, bandwidth: Option<nat>, codecs: Option<string>, tag: Option<(nat, bool)>)

  function Positive(n: Option<nat>): Option<nat> {
    if n.Some? && n.value > 0 then n else None
  }

  function Width(a: Attributes): Option<nat> {
    if a.resolution.Some? then Some(a.resolution.value.0) else None
  }

  function Height(a: Attributes): Option<nat> {
    if a.resolution.Some? then Some(a.resolution.value.1) else None
  }

  /** The resolver's variant: numbers as written, `60` in the label of a fast stream. */
  function ResolvedVariant(a: Attributes, uri: string): Variant {
    var h := Height(a);
    Variant(uri, Width(a), h, a.bandwidth, a.codecs, if h.Some? && h.value > 0 then Some((h.value, a.fast)) else None)
  }

  /** The fallback's variant: zero counts as missing. */
  function CapturedVariant(a: Attributes, uri: string): Variant {
    var h := Positive(Height(a));
    Variant(uri, Positive(Width(a)), h, Positive(a.bandwidth), a.codecs, if h.Some? then Some((h.value, false)) else None)
  }

  // ----- the resolver -----

  /** A remembered stream tag counts only if it carried a bandwidth or a resolution. */
  predicate Usable(p: Option<Attributes>) {
    p.Some? && (p.value.bandwidth.Some? || p.value.resolution.Some?)
  }

  /** The variants the resolver adds for `lines` when `p` is the stream tag it remembers. */
  function Resolve(lines: seq<Line>, p: Option<Attributes>): seq<Variant> {
    if lines == [] then [] else
      match lines[0]
      case StreamInf(a) => Resolve(lines[1..], Some(a))
      case VideoMedia(u) => [VideoVariant(p, u)] + Resolve(lines[1..], p)
      case Uri(u) => (if Usable(p) then [ResolvedVariant(p.value, u)] else []) + Resolve(lines[1..], None)
      case _ => Resolve(lines[1..], p)
  }

  function VideoVariant(p: Option<Attributes>, uri: string): Variant {
    Variant(uri, None, None, if p.Some? then p.value.bandwidth else None, None, None)
  }

  /** The line loop of the resolver. */
  method ResolveLines(lines: seq<Line>) returns (variants: seq<Variant>)
    ensures variants == Resolve(lines, None)
  {
    variants := [];
    var p: Option<Attributes> := None;
    for i := 0 to |lines|
      invariant variants + Resolve(lines[i..], p) == Resolve(lines, None)
    {
      assert lines[i..][1..] == lines[i + 1..];
      match lines[i]
      case StreamInf(a) => p := Some(a);
      case VideoMedia(u) => variants := variants + [VideoVariant(p, u)];
      case Uri(u) =>
        if Usable(p) { variants := variants + [ResolvedVariant(p.value, u)]; }
        p := None;
      case _ =>
    }
  }

  // ----- the fallback -----

  function FirstUri(lines: seq<Line>): Option<string> {
    if lines == [] then None
    else if lines[0].Uri? then Some(lines[0].text)
    else FirstUri(lines[1..])
  }

  function Capture(lines: seq<Line>): seq<Variant> {
    if lines == [] then [] else
      var next := FirstUri(lines[1..]);
      (if lines[0].StreamInf? && next.Some? then [CapturedVariant(lines[0].attrs, next.value)] else []) + Capture(lines[1..])
  }

  method NextUri(lines: seq<Line>, from: nat) returns (r: Option<string>)
    requires from <= |lines|
    ensures r == FirstUri(lines[from..])
  {
    var i := from;
    while i < |lines| && !lines[i].Uri?
      invariant from <= i <= |lines| && FirstUri(lines[i..]) == FirstUri(lines[from..])
    {
      assert lines[i..][1..] == lines[i + 1..];
      i := i + 1;
    }
    r := if i < |lines| then Some(lines[i].text) else None;
  }

  /** What the fallback adds at line `i`. */
  function Added(lines: seq<Line>, i: nat): seq<Variant>
    requires i < |lines|
  {
    var next := FirstUri(lines[i + 1..]);
    if lines[i].StreamInf? && next.Some? then [CapturedVariant(lines[i].attrs, next.value)] else []
  }

  lemma CaptureStep(lines: seq<Line>, i: nat, sofar: seq<Variant>, all: seq<Variant>)
    requires i < |lines| && sofar + Capture(lines[i..]) == all
    ensures (sofar + Added(lines, i)) + Capture(lines[i + 1..]) == all
  {
    assert lines[i..][1..] == lines[i + 1..];
    Regroup(sofar, Added(lines, i), Capture(lines[i + 1..]));
  }

  lemma Regroup(a: seq<Variant>, b: seq<Variant>, c: seq<Variant>)
    ensures (a + b) + c == a + (b + c)
  {
  }

  method AddedAt(lines: seq<Line>, i: nat) returns (r: seq<Variant>)
    requires i < |lines|
    ensures r == Added(lines, i)
  {
    if !lines[i].StreamInf? { return []; }
    var next := NextUri(lines, i + 1);
    r := if next.Some? then [CapturedVariant(lines[i].attrs, next.value)] else [];
  }

  /** The line loop of the fallback. */
  method CaptureLines(lines: seq<Line>) returns (variants: seq<Variant>)
    ensures variants == Capture(lines)
  {
    variants := [];
    assert lines[0..] == lines;
    for i := 0 to |lines|
      invariant variants + Capture(lines[i..]) == Capture(lines)
    {
      CaptureStep(lines, i, variants, Capture(lines));
      var more := AddedAt(lines, i);
      variants := variants + more;
    }
    assert variants + [] == variants;
  }

  // ----- the stream tags each parser uses -----

  /** A stream tag and the URI line it is given. */
  type Pair = (Attributes, string)

  /** The tags the resolver makes variants of, when `p` is the tag it remembers. */
  function ResolvedPairs(lines: seq<Line>, p: Option<Attributes>): seq<Pair> {
    if lines == [] then [] else
      match lines[0]
      case StreamInf(a) => ResolvedPairs(lines[1..], Some(a))
      case Uri(u) => (if Usable(p) then [(p.value, u)] else []) + ResolvedPairs(lines[1..], None)
      case _ => ResolvedPairs(lines[1..], p)
  }

  /** The tags the fallback makes variants of: those with a URI line after them. */
  function CapturedPairs(lines: seq<Line>): seq<Pair> {
    if lines == [] then [] else
      var next := FirstUri(lines[1..]);
      (if lines[0].StreamInf? && next.Some? then [(lines[0].attrs, next.value)] else []) + CapturedPairs(lines[1..])
  }

  function Resolved(ps: seq<Pair>): seq<Variant> {
    if ps == [] then [] else [ResolvedVariant(ps[0].0, ps[0].1)] + Resolved(ps[1..])
  }

  function Captured(ps: seq<Pair>): seq<Variant> {
    if ps == [] then [] else [CapturedVariant(ps[0].0, ps[0].1)] + Captured(ps[1..])
  }

  predicate NoVideo(lines: seq<Line>) {
    forall i | 0 <= i < |lines| :: !lines[i].VideoMedia?
  }

  lemma {:induction false} ResolvedIs(lines: seq<Line>, p: Option<Attributes>)
    requires NoVideo(lines)
    ensures Resolve(lines, p) == Resolved(ResolvedPairs(lines, p))
  {
    if lines != [] {
      var rest := lines[1..];
      match lines[0]
      case StreamInf(a) => ResolvedIs(rest, Some(a));
      case Uri(u) =>
        ResolvedIs(rest, None);
        if Usable(p) {
          assert ([(p.value, u)] + ResolvedPairs(rest, None))[1..] == ResolvedPairs(rest, None);
        } else {
          assert ResolvedPairs(lines, p) == ResolvedPairs(rest, None);
        }
      case VideoMedia(_) => assert false;
      case Other => ResolvedIs(rest, p);
    }
  }

  lemma {:induction false} CapturedIs(lines: seq<Line>)
    ensures Capture(lines) == Captured(CapturedPairs(lines))
  {
    if lines != [] {
      var rest := lines[1..];
      CapturedIs(rest);
      if lines[0].StreamInf? && FirstUri(rest).Some? {
        var x := (lines[0].attrs, FirstUri(rest).value);
        assert ([x] + CapturedPairs(rest))[1..] == CapturedPairs(rest);
      } else {
        assert CapturedPairs(lines) == CapturedPairs(rest);
      }
    }
  }

  // ----- agreement -----

  predicate Subsequence(a: seq<Pair>, b: seq<Pair>) {
    if a == [] then true
    else if b == [] then false
    else (a[0] == b[0] && Subsequence(a[1..], b[1..])) || Subsequence(a, b[1..])
  }

  lemma SubsequenceSkip(a: seq<Pair>, x: Pair, b: seq<Pair>)
    requires Subsequence(a, b)
    ensures Subsequence(a, [x] + b)
  {
    assert ([x] + b)[1..] == b;
  }

  lemma SubsequenceKeep(x: Pair, a: seq<Pair>, b: seq<Pair>)
    requires Subsequence(a, b)
    ensures Subsequence([x] + a, [x] + b)
  {
    assert ([x] + a)[1..] == a && ([x] + b)[1..] == b;
  }

  function Front(lines: seq<Line>, p: Option<Attributes>): seq<Pair> {
    if p.Some? && FirstUri(lines).Some? then [(p.value, FirstUri(lines).value)] else []
  }

  /** The fallback's tags with, in front, a tag read before `lines`. */
  function Ahead(lines: seq<Line>, p: Option<Attributes>): seq<Pair> {
    Front(lines, p) + CapturedPairs(lines)
  }

  lemma AheadTag(lines: seq<Line>, p: Option<Attributes>)
    requires lines != [] && lines[0].StreamInf?
    ensures Ahead(lines, p) == Front(lines, p) + Ahead(lines[1..], Some(lines[0].attrs))
  {
    assert CapturedPairs(lines) == Ahead(lines[1..], Some(lines[0].attrs));
  }

  lemma AheadUri(lines: seq<Line>, p: Option<Attributes>)
    requires lines != [] && lines[0].Uri?
    ensures Ahead(lines, p) == (if p.Some? then [(p.value, lines[0].text)] else []) + Ahead(lines[1..], None)
  {
    assert CapturedPairs(lines) == [] + CapturedPairs(lines[1..]) == Ahead(lines[1..], None);
    assert FirstUri(lines) == Some(lines[0].text);
  }

  lemma AheadOther(lines: seq<Line>, p: Option<Attributes>)
    requires lines != [] && lines[0].Other?
    ensures Ahead(lines, p) == Ahead(lines[1..], p)
  {
    assert CapturedPairs(lines) == [] + CapturedPairs(lines[1..]) == CapturedPairs(lines[1..]);
    assert FirstUri(lines) == FirstUri(lines[1..]);
  }

  /** How the fallback's list ahead changes with the first line. */
  lemma AheadStep(lines: seq<Line>, p: Option<Attributes>)
    requires NoVideo(lines) && lines != []
    ensures lines[0].StreamInf? ==> Ahead(lines, p) == Front(lines, p) + Ahead(lines[1..], Some(lines[0].attrs))
    ensures lines[0].Uri? ==> Ahead(lines, p) == (if p.Some? then [(p.value, lines[0].text)] else []) + Ahead(lines[1..], None)
    ensures lines[0].Other? ==> Ahead(lines, p) == Ahead(lines[1..], p)
  {
    if lines[0].StreamInf? { AheadTag(lines, p); }
    else if lines[0].Uri? { AheadUri(lines, p); }
    else if lines[0].Other? { AheadOther(lines, p); }
  }

  lemma AheadNone(lines: seq<Line>)
    ensures Ahead(lines, None) == CapturedPairs(lines)
  {
    assert [] + CapturedPairs(lines) == CapturedPairs(lines);
  }

  lemma {:induction false} ResolvedInAhead(lines: seq<Line>, p: Option<Attributes>)
    requires NoVideo(lines)
    ensures Subsequence(ResolvedPairs(lines, p), Ahead(lines, p))
  {
    if lines != [] {
      var rest := lines[1..];
      AheadStep(lines, p);
      match lines[0]
      case StreamInf(a) =>
        ResolvedInAhead(rest, Some(a));
        if p.Some? && FirstUri(lines).Some? {
          SubsequenceSkip(ResolvedPairs(lines, p), (p.value, FirstUri(lines).value), Ahead(rest, Some(a)));
        } else {
          assert Ahead(lines, p) == Ahead(rest, Some(a));
        }
      case Uri(u) =>
        ResolvedInAhead(rest, None);
        if Usable(p) {
          SubsequenceKeep((p.value, u), ResolvedPairs(rest, None), Ahead(rest, None));
        } else if p.Some? {
          assert ResolvedPairs(lines, p) == ResolvedPairs(rest, None);
          SubsequenceSkip(ResolvedPairs(rest, None), (p.value, u), Ahead(rest, None));
        } else {
          assert ResolvedPairs(lines, p) == ResolvedPairs(rest, None) && Ahead(lines, p) == Ahead(rest, None);
        }
      case VideoMedia(_) => assert false;
      case Other => ResolvedInAhead(rest, p);
    }
  }

  /** The resolver makes its variants of a subsequence of the tags the fallback uses, each with the same URI line. */
  lemma ResolverWithinFallback(lines: seq<Line>)
    requires NoVideo(lines)
    ensures Resolve(lines, None) == Resolved(ResolvedPairs(lines, None)) && Capture(lines) == Captured(CapturedPairs(lines))
    ensures Subsequence(ResolvedPairs(lines, None), CapturedPairs(lines))
  {
    ResolvedIs(lines, None);
    CapturedIs(lines);
    ResolvedInAhead(lines, None);
    AheadNone(lines);
  }

  /**
   No stream tag is wasted: each one that has a URI line after it is the last before that
   line and carries a bandwidth or a resolution. `p` is the tag read before `lines`.
   */
  predicate Paired(lines: seq<Line>, p: Option<Attributes>) {
    if lines == [] then true
    else
      match lines[0]
      case StreamInf(a) => (p.Some? ==> FirstUri(lines).None?) && Paired(lines[1..], Some(a))
      case Uri(_) => (p.Some? ==> Usable(p)) && Paired(lines[1..], None)
      case _ => Paired(lines[1..], p)
  }

  /** The tag holds no zero, and is not fast with a height: both parsers make the same variant of it. */
  predicate Plain(a: Attributes) {
    && a.bandwidth != Some(0)
    && (a.resolution.Some? ==> a.resolution.value.0 > 0 && a.resolution.value.1 > 0 && !a.fast)
  }

  lemma PlainExactly(a: Attributes, uri: string)
    ensures ResolvedVariant(a, uri) == CapturedVariant(a, uri) <==> Plain(a)
  {
  }

  predicate AllPlain(ps: seq<Pair>) {
    forall i | 0 <= i < |ps| :: Plain(ps[i].0)
  }

  lemma AllPlainCons(x: Pair, ps: seq<Pair>)
    ensures AllPlain([x] + ps) <==> Plain(x.0) && AllPlain(ps)
  {
    assert forall i | 0 <= i < |ps| :: ([x] + ps)[i + 1] == ps[i];
    if AllPlain([x] + ps) {
      assert Plain(([x] + ps)[0].0);
      forall i | 0 <= i < |ps| ensures Plain(ps[i].0) { assert Plain(([x] + ps)[i + 1].0); }
    }
  }

  lemma ConsDiffers(x: Variant, y: Variant, a: seq<Variant>, b: seq<Variant>)
    ensures [x] + a == [y] + b <==> x == y && a == b
  {
    assert ([x] + a)[0] == x && ([y] + b)[0] == y && ([x] + a)[1..] == a && ([y] + b)[1..] == b;
  }

  lemma {:induction false} Lengths(ps: seq<Pair>)
    ensures |Resolved(ps)| == |ps| == |Captured(ps)|
  {
    if ps != [] { Lengths(ps[1..]); }
  }

  /** The two parsers make the same list of the same tags exactly when all of them are plain. */
  lemma {:induction false} SamePairs(ps: seq<Pair>)
    ensures Resolved(ps) == Captured(ps) <==> AllPlain(ps)
  {
    if ps != [] {
      SamePairs(ps[1..]);
      PlainExactly(ps[0].0, ps[0].1);
      ConsDiffers(ResolvedVariant(ps[0].0, ps[0].1), CapturedVariant(ps[0].0, ps[0].1), Resolved(ps[1..]), Captured(ps[1..]));
      AllPlainCons(ps[0], ps[1..]);
      assert ps == [ps[0]] + ps[1..];
    }
  }

  /** The tags are the same exactly when none is wasted; otherwise the resolver has fewer. */
  lemma {:induction false} PairedExactly(lines: seq<Line>, p: Option<Attributes>)
    requires NoVideo(lines)
    ensures |ResolvedPairs(lines, p)| <= |Ahead(lines, p)|
    ensures Paired(lines, p) ==> ResolvedPairs(lines, p) == Ahead(lines, p)
    ensures !Paired(lines, p) ==> |ResolvedPairs(lines, p)| < |Ahead(lines, p)|
  {
    if lines != [] {
      var rest := lines[1..];
      AheadStep(lines, p);
      match lines[0]
      case StreamInf(a) =>
        PairedExactly(rest, Some(a));
      case Uri(u) =>
        PairedExactly(rest, None);
      case VideoMedia(_) => assert false;
      case Other => PairedExactly(rest, p);
    }
  }

  /**
   The two parsers give the same list exactly when no stream tag is wasted and every tag with
   a URI line after it is plain.
   */
  lemma ParsersAgreeExactly(lines: seq<Line>)
    requires NoVideo(lines)
    ensures Resolve(lines, None) == Capture(lines) <==> Paired(lines, None) && AllPlain(CapturedPairs(lines))
  {
    ResolverWithinFallback(lines);
    PairedExactly(lines, None);
    AheadNone(lines);
    Lengths(ResolvedPairs(lines, None));
    Lengths(CapturedPairs(lines));
    if Paired(lines, None) { SamePairs(CapturedPairs(lines)); }
  }

  /** Every stream tag has a positive bandwidth and no other stream tag stands before its URI line. */
  predicate WellFormed(lines: seq<Line>, p: Option<Attributes>) {
    if lines == [] then true
    else
      match lines[0]
      case StreamInf(a) => p.None? && a.bandwidth.Some? && a.bandwidth.value > 0 && WellFormed(lines[1..], Some(a))
      case Uri(_) => WellFormed(lines[1..], None)
      case _ => WellFormed(lines[1..], p)
  }

  lemma {:induction false} WellFormedIsPaired(lines: seq<Line>, p: Option<Attributes>)
    requires WellFormed(lines, p) && (p.Some? ==> Usable(p))
    ensures Paired(lines, p)
  {
    if lines != [] {
      match lines[0]
      case StreamInf(a) => WellFormedIsPaired(lines[1..], Some(a));
      case Uri(_) => WellFormedIsPaired(lines[1..], None);
      case _ => WellFormedIsPaired(lines[1..], p);
    }
  }

  /** On playlists as RFC 8216 writes them the parsers use the same tags, and the lists are equal exactly when all are plain. */
  lemma WellFormedAgree(lines: seq<Line>)
    requires NoVideo(lines) && WellFormed(lines, None)
    ensures ResolvedPairs(lines, None) == CapturedPairs(lines)
    ensures Resolve(lines, None) == Capture(lines) <==> AllPlain(CapturedPairs(lines))
  {
    WellFormedIsPaired(lines, None);
    ParsersAgreeExactly(lines);
    PairedExactly(lines, None);
    AheadNone(lines);
  }

  /** Two stream tags before one URI line: the fallback gives two variants, the resolver one. */
  lemma SharedUriDiffers(a: Attributes, b: Attributes, u: string)
    requires b.bandwidth.Some?
    ensures var lines := [StreamInf(a), StreamInf(b), Uri(u)];
      |Resolve(lines, None)| == 1 && |Capture(lines)| == 2
  {
    var lines := [StreamInf(a), StreamInf(b), Uri(u)];
    assert lines[1..] == [StreamInf(b), Uri(u)] && lines[1..][1..] == [Uri(u)] && [Uri(u)][1..] == [];
    assert Resolve([Uri(u)], Some(b)) == [ResolvedVariant(b, u)] + Resolve([], None);
    assert FirstUri([Uri(u)]) == Some(u) && FirstUri(lines[1..]) == Some(u);
    assert Capture([Uri(u)]) == [];
    assert Capture(lines[1..]) == [CapturedVariant(b, u)] + Capture([Uri(u)]);
  }
}
