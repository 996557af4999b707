/**
 Which hand-off requests get the same idempotency key, told on the candidates as they come:
 two requests have the same text exactly when their candidates can be matched.
 */
module RequestKey {
  import opened Wrappers
  import opened Sorting
  import opened Bars
  import opened CanonicalText
  import opened Idempotency

  // ----- when two candidates are the same request -----

  /** A missing URL and an empty one are the same. */
  predicate Missing(o: Option<string>) {
    o == None || o == Some("")
  }

  predicate SameUrl(o: Option<string>, p: Option<string>, norm: string -> string) {
    (Missing(o) && Missing(p)) || (!Missing(o) && !Missing(p) && norm(o.value) == norm(p.value))
  }

  /** The first 25 variants with their URLs normalised. */
  function Shown(vs: seq<Variant>, norm: string -> string): (r: seq<Variant>)
    ensures |r| == if |vs| < 25 then |vs| else 25
    ensures forall i | 0 <= i < |r| :: r[i] == vs[i].(url := norm(vs[i].url))
  {
    seq(if |vs| < 25 then |vs| else 25, i requires 0 <= i < |vs| => vs[i].(url := norm(vs[i].url)))
  }

  /** Shown alike, up to the order of variants that the comparison tells apart. */
  ghost predicate SameVariants(o: Option<seq<Variant>>, p: Option<seq<Variant>>, norm: string -> string, leq: (string, string) -> bool) {
    if o.None? || p.None? then o == p else SameTies(Shown(o.value, norm), Shown(p.value, norm), BySortText(leq))
  }

  ghost predicate SameRequest(c: Fingerprint, d: Fingerprint, norm: string -> string, leq: (string, string) -> bool) {
    && norm(c.url) == norm(d.url) && SameUrl(c.finalUrl, d.finalUrl, norm) && SameUrl(c.pageUrl, d.pageUrl, norm)
    && c.mediaType == d.mediaType && c.mimeType == d.mimeType && c.filename == d.filename && c.sizeBytes == d.sizeBytes
    && c.width == d.width && c.height == d.height && c.durationSec == d.durationSec
    && SameVariants(c.variants, d.variants, norm, leq)
  }

  lemma BySortTextTotal(leq: (string, string) -> bool)
    requires Total(leq)
    ensures Total(BySortText(leq))
  {
    var lo := BySortText(leq);
    forall x, y ensures lo(x, y) || lo(y, x) {
      assert leq(SortText(x), SortText(y)) || leq(SortText(y), SortText(x));
    }
    forall x, y, z | lo(x, y) && lo(y, z) ensures lo(x, z) {
      assert leq(SortText(x), SortText(y)) && leq(SortText(y), SortText(z));
    }
  }

  /** The canonical variants are the shown ones, sorted. */
  lemma CanonicalVariants(c: Fingerprint, norm: string -> string, leq: (string, string) -> bool)
    ensures Canonical(c, norm, leq).variants ==
      if c.variants.None? then None else Some(Sort(Shown(c.variants.value, norm), BySortText(leq)))
  {
    if c.variants.Some? {
      var vs := c.variants.value;
      var kept := if |vs| > MAX_VARIANTS then vs[..MAX_VARIANTS] else vs;
      assert NormalVariants(kept, norm) == Shown(vs, norm);
    }
  }

  lemma VariantsExactly(c: Fingerprint, d: Fingerprint, norm: string -> string, leq: (string, string) -> bool)
    requires Total(leq)
    ensures Canonical(c, norm, leq).variants == Canonical(d, norm, leq).variants <==> SameVariants(c.variants, d.variants, norm, leq)
  {
    CanonicalVariants(c, norm, leq);
    CanonicalVariants(d, norm, leq);
    BySortTextTotal(leq);
    if c.variants.Some? && d.variants.Some? {
      SortExactly(Shown(c.variants.value, norm), Shown(d.variants.value, norm), BySortText(leq));
    }
  }

  lemma UrlsExactly(o: Option<string>, p: Option<string>, norm: string -> string)
    ensures NormalUrl(o, norm) == NormalUrl(p, norm) <==> SameUrl(o, p, norm)
  {
  }

  lemma CanonicalExactly(c: Fingerprint, d: Fingerprint, norm: string -> string, leq: (string, string) -> bool)
    requires Total(leq)
    ensures Canonical(c, norm, leq) == Canonical(d, norm, leq) <==> SameRequest(c, d, norm, leq)
  {
    VariantsExactly(c, d, norm, leq);
    UrlsExactly(c.finalUrl, d.finalUrl, norm);
    UrlsExactly(c.pageUrl, d.pageUrl, norm);
  }

  /** Two single candidates have the same text exactly when they are the same request. */
  lemma SingleExactly(c: Fingerprint, d: Fingerprint, norm: string -> string, leq: (string, string) -> bool)
    requires Total(leq)
    ensures IdempotencyText([c], norm, leq) == IdempotencyText([d], norm, leq) <==> SameRequest(c, d, norm, leq)
  {
    var x, y := Canonical(c, norm, leq), Canonical(d, norm, leq);
    assert CanonicalAll([c], norm, leq) == [x] && CanonicalAll([d], norm, leq) == [y];
    BatchTextExact([x], [y], leq);
    OneEach(x, y);
    CanonicalExactly(c, d, norm, leq);
  }

  lemma OneEach(x: Fingerprint, y: Fingerprint)
    ensures multiset([x]) == multiset([y]) <==> x == y
  {
    assert x in multiset([x]);
    assert multiset([x]) == multiset{x} && multiset([y]) == multiset{y};
  }

  // ----- batches -----

  /** Candidate for candidate the same requests. */
  ghost predicate Pairwise(cs: seq<Fingerprint>, es: seq<Fingerprint>, norm: string -> string, leq: (string, string) -> bool) {
    |cs| == |es| && forall i | 0 <= i < |cs| :: SameRequest(cs[i], es[i], norm, leq)
  }

  /** Some arrangement of `ds` pairs with `cs`. */
  ghost predicate Matches(cs: seq<Fingerprint>, ds: seq<Fingerprint>, norm: string -> string, leq: (string, string) -> bool) {
    exists es :: multiset(es) == multiset(ds) && Pairwise(cs, es, norm, leq)
  }

  lemma PairwiseCanonical(cs: seq<Fingerprint>, es: seq<Fingerprint>, norm: string -> string, leq: (string, string) -> bool)
    requires Total(leq)
    ensures Pairwise(cs, es, norm, leq) <==> CanonicalAll(cs, norm, leq) == CanonicalAll(es, norm, leq)
  {
    if |cs| == |es| {
      forall i | 0 <= i < |cs| ensures CanonicalAll(cs, norm, leq)[i] == CanonicalAll(es, norm, leq)[i] <==> SameRequest(cs[i], es[i], norm, leq) {
        CanonicalExactly(cs[i], es[i], norm, leq);
      }
    }
  }

  /** Requests with the same canonical candidates can be arranged to have them in the same places. */
  lemma {:induction false} Arrange(cs: seq<Fingerprint>, ds: seq<Fingerprint>, norm: string -> string, leq: (string, string) -> bool) returns (es: seq<Fingerprint>)
    requires multiset(CanonicalAll(cs, norm, leq)) == multiset(CanonicalAll(ds, norm, leq))
    ensures multiset(es) == multiset(ds) && CanonicalAll(cs, norm, leq) == CanonicalAll(es, norm, leq)
  {
    var f, g := CanonicalAll(cs, norm, leq), CanonicalAll(ds, norm, leq);
    SameLength(f, g);
    if cs == [] {
      es := [];
    } else {
      assert f[0] in multiset(g);
      var i :| 0 <= i < |g| && g[i] == f[0];
      TakeOut(f, g, i);
      CanonicalTail(cs, norm, leq);
      CanonicalRest(ds, i, norm, leq);
      var more := Arrange(cs[1..], ds[..i] + ds[i + 1..], norm, leq);
      es := [ds[i]] + more;
      PutBack(ds, i, more);
      CanonicalCons(ds[i], more, norm, leq);
      assert f == [f[0]] + f[1..];
    }
  }

  lemma CanonicalTail(cs: seq<Fingerprint>, norm: string -> string, leq: (string, string) -> bool)
    requires cs != []
    ensures CanonicalAll(cs[1..], norm, leq) == CanonicalAll(cs, norm, leq)[1..]
  {
  }

  lemma CanonicalRest(ds: seq<Fingerprint>, i: nat, norm: string -> string, leq: (string, string) -> bool)
    requires i < |ds|
    ensures CanonicalAll(ds[..i] + ds[i + 1..], norm, leq) == CanonicalAll(ds, norm, leq)[..i] + CanonicalAll(ds, norm, leq)[i + 1..]
  {
  }

  lemma PutBack(ds: seq<Fingerprint>, i: nat, more: seq<Fingerprint>)
    requires i < |ds| && multiset(more) == multiset(ds[..i] + ds[i + 1..])
    ensures multiset([ds[i]] + more) == multiset(ds)
  {
    ToFront(ds, i);
    assert multiset([ds[i]] + more) == multiset{ds[i]} + multiset(more);
    assert multiset([ds[i]] + (ds[..i] + ds[i + 1..])) == multiset{ds[i]} + multiset(ds[..i] + ds[i + 1..]);
  }

  /**
   Two requests have the same text exactly when their candidates can be matched as the same
   requests, when the comparison calls no two differently written ones of the first equal.
   */
  lemma RequestsMatchExactly(cs: seq<Fingerprint>, ds: seq<Fingerprint>, norm: string -> string, leq: (string, string) -> bool)
    requires Total(leq) && TellsApart(CanonicalAll(cs, norm, leq), leq)
    ensures IdempotencyText(cs, norm, leq) == IdempotencyText(ds, norm, leq) <==> Matches(cs, ds, norm, leq)
  {
    BatchTextExact(CanonicalAll(cs, norm, leq), CanonicalAll(ds, norm, leq), leq);
    if multiset(CanonicalAll(cs, norm, leq)) == multiset(CanonicalAll(ds, norm, leq)) {
      var es := Arrange(cs, ds, norm, leq);
      PairwiseCanonical(cs, es, norm, leq);
    }
    if Matches(cs, ds, norm, leq) {
      var es :| multiset(es) == multiset(ds) && Pairwise(cs, es, norm, leq);
      PairwiseCanonical(cs, es, norm, leq);
      CanonicalCounts(es, ds, norm, leq);
    }
  }

  // ----- which variants tie -----

  predicate PlainVariant(v: Variant) {
    '|' !in v.url && (v.codecs.Some? ==> '|' !in v.codecs.value) && (v.name.Some? ==> '|' !in v.name.value)
  }

  /** A missing number and zero are the same to the sort, as are a missing text and an empty one. */
  predicate SortsAlike(v: Variant, w: Variant) {
    && v.url == w.url
    && (if v.width.Some? then v.width.value else "0") == (if w.width.Some? then w.width.value else "0")
    && (if v.height.Some? then v.height.value else "0") == (if w.height.Some? then w.height.value else "0")
    && (if v.bandwidth.Some? then v.bandwidth.value else "0") == (if w.bandwidth.Some? then w.bandwidth.value else "0")
    && (if v.codecs.Some? then v.codecs.value else "") == (if w.codecs.Some? then w.codecs.value else "")
    && (if v.name.Some? then v.name.value else "") == (if w.name.Some? then w.name.value else "")
  }

  function SortFields(v: Variant): (r: seq<string>)
    ensures |r| == 6
  {
    [v.url, OrNumeral(v.width), OrNumeral(v.height), OrNumeral(v.bandwidth), Or(v.codecs, ""), Or(v.name, "")]
  }

  lemma NumeralPlain(t: Numeral)
    ensures '|' !in t
  {
    assert forall i | 0 <= i < |t| :: NumChar(t[i]);
  }

  lemma FieldsPlain(v: Variant)
    requires PlainVariant(v)
    ensures forall i | 0 <= i < 6 :: '|' !in SortFields(v)[i]
  {
    if v.width.Some? { NumeralPlain(v.width.value); }
    if v.height.Some? { NumeralPlain(v.height.value); }
    if v.bandwidth.Some? { NumeralPlain(v.bandwidth.value); }
  }

  lemma FieldsAlike(v: Variant, w: Variant)
    ensures SortFields(v) == SortFields(w) <==> SortsAlike(v, w)
  {
    var f, g := SortFields(v), SortFields(w);
    if f == g {
      assert f[0] == g[0] && f[1] == g[1] && f[2] == g[2] && f[3] == g[3] && f[4] == g[4] && f[5] == g[5];
    }
  }

  /** A plain variant ties with another exactly when they agree in the six fields, missing ones filled in. */
  lemma VariantsTieExactly(v: Variant, w: Variant, leq: (string, string) -> bool)
    requires Total(leq) && Antisymmetric(leq) && PlainVariant(v)
    ensures Ties(BySortText(leq), v, w) <==> SortsAlike(v, w)
  {
    FieldsPlain(v);
    PlainJoinExactly(SortFields(v), SortFields(w));
    FieldsAlike(v, w);
    assert SortText(v) == Join(SortFields(v)) && SortText(w) == Join(SortFields(w));
    assert leq(SortText(v), SortText(v));
  }
}
