/** The text that is hashed into the idempotency key of a batch of candidates. */
module Idempotency {
  import opened Wrappers
  import opened Sorting
  import opened Bars
  import opened CanonicalText

  datatype Variant = Variant(
    url: string, width: Option<Numeral>, height: Option<Numeral>, bandwidth: Option<Numeral>,
    codecs: Option<string>, name: Option<string>)

  /** The fields of a candidate that its key depends on. */
  datatype Fingerprint = Fingerprint(
    url: string, finalUrl: Option<string>, pageUrl: Option<string>, mediaType: string,
    mimeType: Option<string>, filename: Option<string>, sizeBytes: Option<Numeral>,
    width: Option<Numeral>, height: Option<Numeral>, durationSec: Option<Numeral>,
    variants: Option<seq<Variant>>)

  // ----- canonical candidates -----

  const MAX_VARIANTS: nat := 25

  /** `??`. */
  function Or(o: Option<string>, default: string): string {
    if o.Some? then o.value else default
  }

  function OrNumeral(o: Option<Numeral>): string {
    if o.Some? then o.value else "0"
  }

  /** The text by which variants are sorted. */
  function SortText(v: Variant): string {
    Join([v.url, OrNumeral(v.width), OrNumeral(v.height), OrNumeral(v.bandwidth), Or(v.codecs, ""), Or(v.name, "")])
  }

  /** `leq` is `localeCompare` giving zero or less. */
  function BySortText(leq: (string, string) -> bool): (Variant, Variant) -> bool {
    (a: Variant, b: Variant) => leq(SortText(a), SortText(b))
  }

  function NormalVariants(vs: seq<Variant>, norm: string -> string): seq<Variant> {
    seq(|vs|, i requires 0 <= i < |vs| => vs[i].(url := norm(vs[i].url)))
  }

  /** An empty URL is dropped like a missing one. */
  function NormalUrl(o: Option<string>, norm: string -> string): Option<string> {
    if o.Some? && o.value != "" then Some(norm(o.value)) else None
  }

  function Canonical(c: Fingerprint, norm: string -> string, leq: (string, string) -> bool): Fingerprint {
    c.(url := norm(c.url),
       finalUrl := NormalUrl(c.finalUrl, norm),
       pageUrl := NormalUrl(c.pageUrl, norm),
       variants := if c.variants.None? then None else
         var vs := c.variants.value;
         var kept := if |vs| > MAX_VARIANTS then vs[..MAX_VARIANTS] else vs;
         Some(Sort(NormalVariants(kept, norm), BySortText(leq))))
  }

  // ----- as JSON -----

  function Text(o: Option<string>): Json {
    if o.Some? then Str(o.value) else Undefined
  }

  function Number(o: Option<Numeral>): Json {
    if o.Some? then Num(o.value) else Undefined
  }

  const VARIANT_KEYS: seq<string> := ["url", "width", "height", "bandwidth", "codecs", "label"]

  function VariantValues(v: Variant): (r: seq<Json>)
    ensures |r| == 6
  {
    [Str(v.url), Number(v.width), Number(v.height), Number(v.bandwidth), Text(v.codecs), Text(v.name)]
  }

  /** An object given by its keys and values. */
  function Named(keys: seq<string>, values: seq<Json>): (r: seq<Property>)
    requires |keys| == |values|
    ensures |r| == |keys|
  {
    seq(|keys|, i requires 0 <= i < |keys| => Property(keys[i], values[i]))
  }

  function VariantFields(v: Variant): seq<Property> {
    Named(VARIANT_KEYS, VariantValues(v))
  }

  function VariantList(vs: seq<Variant>): (r: seq<Json>)
    ensures |r| == |vs|
  {
    seq(|vs|, i requires 0 <= i < |vs| => Obj(VariantFields(vs[i])))
  }

  function Variants(o: Option<seq<Variant>>): Json {
    if o.Some? then Arr(VariantList(o.value)) else Undefined
  }

  const CANDIDATE_KEYS: seq<string> :=
    [ "url", "finalUrl", "pageUrl", "mediaType", "mimeType", "filename",
      "sizeBytes", "width", "height", "durationSec", "variants" ]

  function CandidateValues(c: Fingerprint): (r: seq<Json>)
    ensures |r| == 11
  {
    [ Str(c.url), Text(c.finalUrl), Text(c.pageUrl), Str(c.mediaType), Text(c.mimeType), Text(c.filename),
      Number(c.sizeBytes), Number(c.width), Number(c.height), Number(c.durationSec), Variants(c.variants) ]
  }

  function CandidateFields(c: Fingerprint): seq<Property> {
    Named(CANDIDATE_KEYS, CandidateValues(c))
  }

  function CandidateText(c: Fingerprint): string {
    Stringify(Obj(CandidateFields(c)))
  }

  function CandidateList(cs: seq<Fingerprint>): (r: seq<Json>)
    ensures |r| == |cs|
  {
    seq(|cs|, i requires 0 <= i < |cs| => Obj(CandidateFields(cs[i])))
  }

  function CanonicalAll(cs: seq<Fingerprint>, norm: string -> string, leq: (string, string) -> bool): (r: seq<Fingerprint>)
    ensures |r| == |cs|
  {
    seq(|cs|, i requires 0 <= i < |cs| => Canonical(cs[i], norm, leq))
  }

  function ByText(leq: (string, string) -> bool): (Fingerprint, Fingerprint) -> bool {
    (a: Fingerprint, b: Fingerprint) => leq(CandidateText(a), CandidateText(b))
  }

  const PREFIX: string := "nova-extension-idempotency-v2\n"

  /** The text of a batch of canonical candidates. */
  function BatchText(cs: seq<Fingerprint>, leq: (string, string) -> bool): string {
    PREFIX + Stringify(Arr(CandidateList(Sort(cs, ByText(leq)))))
  }

  function IdempotencyText(cs: seq<Fingerprint>, norm: string -> string, leq: (string, string) -> bool): string {
    BatchText(CanonicalAll(cs, norm, leq), leq)
  }

  // ----- the text of a candidate determines it -----

  /** Both undefined, or both defined and the same. */
  ghost predicate Agree(v: Json, w: Json) {
    if v.Undefined? || w.Undefined? then v == w else Same(v, w)
  }

  ghost predicate AllAgree(vs: seq<Json>, ws: seq<Json>)
    requires |vs| == |ws|
  {
    forall i | 0 <= i < |vs| :: Agree(vs[i], ws[i])
  }

  predicate Distinct(keys: seq<string>) {
    forall i, j | 0 <= i < j < |keys| :: keys[i] != keys[j]
  }

  lemma SameGivesAgree(keys: seq<string>, vs: seq<Json>, ws: seq<Json>)
    requires |keys| == |vs| == |ws| && Distinct(keys) && Same(Obj(Named(keys, vs)), Obj(Named(keys, ws)))
    ensures AllAgree(vs, ws)
  {
    var a, b := Named(keys, vs), Named(keys, ws);
    forall i | 0 <= i < |vs| ensures Agree(vs[i], ws[i]) {
      assert a[i] == Property(keys[i], vs[i]) && b[i] == Property(keys[i], ws[i]);
      if !vs[i].Undefined? {
        assert Matched(a[i], b);
      }
      if !ws[i].Undefined? {
        assert HasKey(b[i].key, a);
      }
    }
  }

  lemma AgreeGivesSame(keys: seq<string>, vs: seq<Json>, ws: seq<Json>)
    requires |keys| == |vs| == |ws| && AllAgree(vs, ws)
    ensures Same(Obj(Named(keys, vs)), Obj(Named(keys, ws)))
  {
    var a, b := Named(keys, vs), Named(keys, ws);
    forall i | 0 <= i < |a| && !a[i].value.Undefined? ensures Matched(a[i], b) {
      assert Agree(vs[i], ws[i]);
      assert a[i] == Property(keys[i], vs[i]) && b[i] == Property(keys[i], ws[i]);
    }
    forall j | 0 <= j < |b| && !b[j].value.Undefined? ensures HasKey(b[j].key, a) {
      assert Agree(vs[j], ws[j]);
      assert a[j] == Property(keys[j], vs[j]) && b[j] == Property(keys[j], ws[j]);
    }
  }

  lemma VariantKeysDistinct()
    ensures Distinct(VARIANT_KEYS)
  {
  }

  lemma CandidateKeysDistinct()
    ensures Distinct(CANDIDATE_KEYS)
  {
  }

  lemma TextExact(o: Option<string>, p: Option<string>)
    ensures Agree(Text(o), Text(p)) <==> o == p
  {
  }

  lemma NumberExact(o: Option<Numeral>, p: Option<Numeral>)
    ensures Agree(Number(o), Number(p)) <==> o == p
  {
  }

  lemma VariantValuesExact(v: Variant, w: Variant)
    ensures AllAgree(VariantValues(v), VariantValues(w)) <==> v == w
  {
    var a, b := VariantValues(v), VariantValues(w);
    NumberExact(v.width, w.width);
    NumberExact(v.height, w.height);
    NumberExact(v.bandwidth, w.bandwidth);
    TextExact(v.codecs, w.codecs);
    TextExact(v.name, w.name);
    if AllAgree(a, b) {
      assert Agree(a[0], b[0]) && Agree(a[1], b[1]) && Agree(a[2], b[2]);
      assert Agree(a[3], b[3]) && Agree(a[4], b[4]) && Agree(a[5], b[5]);
    }
  }

  lemma VariantExact(v: Variant, w: Variant)
    ensures Same(Obj(VariantFields(v)), Obj(VariantFields(w))) <==> v == w
  {
    VariantKeysDistinct();
    var a, b := VariantValues(v), VariantValues(w);
    VariantValuesExact(v, w);
    if AllAgree(a, b) {
      AgreeGivesSame(VARIANT_KEYS, a, b);
    }
    if Same(Obj(VariantFields(v)), Obj(VariantFields(w))) {
      SameGivesAgree(VARIANT_KEYS, a, b);
    }
  }

  lemma VariantListExact(a: seq<Variant>, b: seq<Variant>)
    ensures Same(Arr(VariantList(a)), Arr(VariantList(b))) <==> a == b
  {
    var x, y := VariantList(a), VariantList(b);
    if |a| == |b| {
      forall i | 0 <= i < |a| ensures Same(x[i], y[i]) <==> a[i] == b[i] {
        VariantExact(a[i], b[i]);
      }
    }
  }

  lemma VariantsExact(o: Option<seq<Variant>>, p: Option<seq<Variant>>)
    ensures Agree(Variants(o), Variants(p)) <==> o == p
  {
    if o.Some? && p.Some? {
      VariantListExact(o.value, p.value);
    }
  }

  lemma CandidateTexts(c: Fingerprint, d: Fingerprint)
    requires AllAgree(CandidateValues(c), CandidateValues(d))
    ensures c.url == d.url && c.finalUrl == d.finalUrl && c.pageUrl == d.pageUrl
    ensures c.mediaType == d.mediaType && c.mimeType == d.mimeType && c.filename == d.filename
  {
    var a, b := CandidateValues(c), CandidateValues(d);
    assert Agree(a[0], b[0]) && Agree(a[3], b[3]);
    assert Agree(a[1], b[1]) && Agree(a[2], b[2]) && Agree(a[4], b[4]) && Agree(a[5], b[5]);
    TextExact(c.finalUrl, d.finalUrl);
    TextExact(c.pageUrl, d.pageUrl);
    TextExact(c.mimeType, d.mimeType);
    TextExact(c.filename, d.filename);
  }

  lemma CandidateNumbers(c: Fingerprint, d: Fingerprint)
    requires AllAgree(CandidateValues(c), CandidateValues(d))
    ensures c.sizeBytes == d.sizeBytes && c.width == d.width && c.height == d.height
    ensures c.durationSec == d.durationSec && c.variants == d.variants
  {
    var a, b := CandidateValues(c), CandidateValues(d);
    assert Agree(a[6], b[6]) && Agree(a[7], b[7]) && Agree(a[8], b[8]);
    assert Agree(a[9], b[9]) && Agree(a[10], b[10]);
    NumberExact(c.sizeBytes, d.sizeBytes);
    NumberExact(c.width, d.width);
    NumberExact(c.height, d.height);
    NumberExact(c.durationSec, d.durationSec);
    VariantsExact(c.variants, d.variants);
  }

  lemma CandidateValuesAgree(c: Fingerprint)
    ensures AllAgree(CandidateValues(c), CandidateValues(c))
  {
    VariantsExact(c.variants, c.variants);
  }

  lemma CandidateSame(c: Fingerprint, d: Fingerprint)
    ensures Same(Obj(CandidateFields(c)), Obj(CandidateFields(d))) <==> c == d
  {
    CandidateKeysDistinct();
    var a, b := CandidateValues(c), CandidateValues(d);
    if c == d {
      CandidateValuesAgree(c);
      AgreeGivesSame(CANDIDATE_KEYS, a, b);
    }
    if Same(Obj(CandidateFields(c)), Obj(CandidateFields(d))) {
      SameGivesAgree(CANDIDATE_KEYS, a, b);
      CandidateTexts(c, d);
      CandidateNumbers(c, d);
    }
  }

  lemma NamedWellFormed(keys: seq<string>, vs: seq<Json>)
    requires |keys| == |vs| && Distinct(keys) && forall i | 0 <= i < |vs| :: vs[i].Undefined? || WellFormed(vs[i])
    ensures WellFormed(Obj(Named(keys, vs)))
  {
    var a := Named(keys, vs);
    forall i | 0 <= i < |a| ensures a[i].value.Undefined? || WellFormed(a[i].value) {
      assert a[i].value == vs[i];
    }
  }

  lemma VariantsWellFormed(vs: seq<Variant>)
    ensures WellFormed(Arr(VariantList(vs)))
  {
    VariantKeysDistinct();
    forall i | 0 <= i < |vs| ensures WellFormed(VariantList(vs)[i]) {
      NamedWellFormed(VARIANT_KEYS, VariantValues(vs[i]));
    }
  }

  lemma CandidateWellFormed(c: Fingerprint)
    ensures WellFormed(Obj(CandidateFields(c)))
  {
    CandidateKeysDistinct();
    if c.variants.Some? {
      VariantsWellFormed(c.variants.value);
    }
    NamedWellFormed(CANDIDATE_KEYS, CandidateValues(c));
  }

  /** Two candidates are written alike only when they are equal field by field. */
  lemma CandidateTextExact(c: Fingerprint, d: Fingerprint)
    ensures CandidateText(c) == CandidateText(d) <==> c == d
  {
    CandidateWellFormed(c);
    CandidateWellFormed(d);
    StringifyExact(Obj(CandidateFields(c)), Obj(CandidateFields(d)));
    CandidateSame(c, d);
  }

  // ----- the text of a batch -----

  lemma ListWellFormed(cs: seq<Fingerprint>)
    ensures WellFormed(Arr(CandidateList(cs)))
  {
    var js := CandidateList(cs);
    forall i | 0 <= i < |js| ensures WellFormed(js[i]) {
      CandidateWellFormed(cs[i]);
    }
  }

  lemma ListTextExact(cs: seq<Fingerprint>, ds: seq<Fingerprint>)
    requires Stringify(Arr(CandidateList(cs))) == Stringify(Arr(CandidateList(ds)))
    ensures cs == ds
  {
    ListWellFormed(cs);
    ListWellFormed(ds);
    ItemsRead(CandidateList(cs), CandidateList(ds));
    forall i | 0 <= i < |cs| ensures cs[i] == ds[i] {
      TextsAt(CandidateList(cs), i);
      TextsAt(CandidateList(ds), i);
      CandidateTextExact(cs[i], ds[i]);
    }
  }

  lemma ByTextTotal(leq: (string, string) -> bool)
    requires Total(leq)
    ensures Total(ByText(leq))
  {
    var lo := ByText(leq);
    forall x, y ensures lo(x, y) || lo(y, x) {
      assert leq(CandidateText(x), CandidateText(y)) || leq(CandidateText(y), CandidateText(x));
    }
    forall x, y, z | lo(x, y) && lo(y, z) ensures lo(x, z) {
      assert leq(CandidateText(x), CandidateText(y)) && leq(CandidateText(y), CandidateText(z));
    }
  }

  /** The comparison does not call two differently written candidates equal. */
  ghost predicate TellsApart(cs: seq<Fingerprint>, leq: (string, string) -> bool) {
    forall c, d | c in cs && d in cs && leq(CandidateText(c), CandidateText(d)) && leq(CandidateText(d), CandidateText(c)) :: CandidateText(c) == CandidateText(d)
  }

  /** The text identifies the batch as a multiset of canonical candidates. */
  lemma BatchTextExact(cs: seq<Fingerprint>, ds: seq<Fingerprint>, leq: (string, string) -> bool)
    requires Total(leq) && TellsApart(cs, leq)
    ensures BatchText(cs, leq) == BatchText(ds, leq) <==> multiset(cs) == multiset(ds)
  {
    var a, b := Sort(cs, ByText(leq)), Sort(ds, ByText(leq));
    SortCounts(cs, ByText(leq));
    SortCounts(ds, ByText(leq));
    if BatchText(cs, leq) == BatchText(ds, leq) {
      PrefixRead(Stringify(Arr(CandidateList(a))), Stringify(Arr(CandidateList(b))));
      ListTextExact(a, b);
    }
    if multiset(cs) == multiset(ds) {
      ByTextTotal(leq);
      SortSorts(cs, ByText(leq));
      SortSorts(ds, ByText(leq));
      Untied(cs, leq);
      SortedUnique(a, b, ByText(leq));
    }
  }

  lemma PrefixRead(x: string, y: string)
    requires PREFIX + x == PREFIX + y
    ensures x == y
  {
    assert (PREFIX + x)[|PREFIX|..] == x && (PREFIX + y)[|PREFIX|..] == y;
  }

  lemma Untied(cs: seq<Fingerprint>, leq: (string, string) -> bool)
    requires TellsApart(cs, leq)
    ensures NoTies(Sort(cs, ByText(leq)), ByText(leq))
  {
    var s := Sort(cs, ByText(leq));
    SortMembers(cs, ByText(leq));
    forall i, j | 0 <= i < |s| && 0 <= j < |s| && ByText(leq)(s[i], s[j]) && ByText(leq)(s[j], s[i]) ensures s[i] == s[j] {
      assert s[i] in s && s[j] in s;
      CandidateTextExact(s[i], s[j]);
    }
  }

  /** Canonicalisation carries a rearrangement of candidates to one of canonical candidates. */
  lemma {:induction false} CanonicalCounts(cs: seq<Fingerprint>, ds: seq<Fingerprint>, norm: string -> string, leq: (string, string) -> bool)
    requires multiset(cs) == multiset(ds)
    ensures multiset(CanonicalAll(cs, norm, leq)) == multiset(CanonicalAll(ds, norm, leq))
  {
    SameLength(cs, ds);
    if cs != [] {
      assert cs[0] in multiset(ds);
      var i :| 0 <= i < |ds| && ds[i] == cs[0];
      TakeOut(cs, ds, i);
      CanonicalCounts(cs[1..], ds[..i] + ds[i + 1..], norm, leq);
      CanonicalWithout(ds, i, norm, leq);
      CanonicalHead(cs, norm, leq);
    }
  }

  lemma CanonicalHead(cs: seq<Fingerprint>, norm: string -> string, leq: (string, string) -> bool)
    requires cs != []
    ensures multiset(CanonicalAll(cs, norm, leq)) == multiset{Canonical(cs[0], norm, leq)} + multiset(CanonicalAll(cs[1..], norm, leq))
  {
    CanonicalWithout(cs, 0, norm, leq);
    assert cs[..0] + cs[1..] == cs[1..];
  }

  lemma CanonicalWithout(cs: seq<Fingerprint>, i: nat, norm: string -> string, leq: (string, string) -> bool)
    requires i < |cs|
    ensures multiset(CanonicalAll(cs, norm, leq)) ==
      multiset{Canonical(cs[i], norm, leq)} + multiset(CanonicalAll(cs[..i] + cs[i + 1..], norm, leq))
  {
    var f := CanonicalAll(cs, norm, leq);
    assert CanonicalAll(cs[..i] + cs[i + 1..], norm, leq) == f[..i] + f[i + 1..];
    ToFront(f, i);
  }

  /** Every arrangement of the same candidates has the same text. */
  lemma OrderDoesNotMatter(cs: seq<Fingerprint>, ds: seq<Fingerprint>, norm: string -> string, leq: (string, string) -> bool)
    requires Total(leq) && Antisymmetric(leq) && multiset(cs) == multiset(ds)
    ensures IdempotencyText(cs, norm, leq) == IdempotencyText(ds, norm, leq)
  {
    CanonicalCounts(cs, ds, norm, leq);
    BatchTextExact(CanonicalAll(cs, norm, leq), CanonicalAll(ds, norm, leq), leq);
  }

  /** Equal keys before hashing mean the same canonical batch, and conversely. */
  lemma IdempotencyTextExact(cs: seq<Fingerprint>, ds: seq<Fingerprint>, norm: string -> string, leq: (string, string) -> bool)
    requires Total(leq) && Antisymmetric(leq)
    ensures IdempotencyText(cs, norm, leq) == IdempotencyText(ds, norm, leq)
       <==> multiset(CanonicalAll(cs, norm, leq)) == multiset(CanonicalAll(ds, norm, leq))
  {
    BatchTextExact(CanonicalAll(cs, norm, leq), CanonicalAll(ds, norm, leq), leq);
  }

  /** Every arrangement of the candidates has the same text. */
  ghost predicate OrderFree(cs: seq<Fingerprint>, norm: string -> string, leq: (string, string) -> bool) {
    forall ds | multiset(ds) == multiset(cs) :: IdempotencyText(ds, norm, leq) == IdempotencyText(cs, norm, leq)
  }

  /** Two candidates that differ and tie, in front in either order, give different texts. */
  lemma TieShows(c: Fingerprint, d: Fingerprint, rest: seq<Fingerprint>, leq: (string, string) -> bool)
    requires Total(leq) && c != d && Ties(ByText(leq), c, d)
    ensures BatchText([c] + ([d] + rest), leq) != BatchText([d] + ([c] + rest), leq)
  {
    var a, b := [c] + ([d] + rest), [d] + ([c] + rest);
    var lo := ByText(leq);
    ByTextTotal(leq);
    SortExactly(a, b, lo);
    assert lo(c, c) && Ties(lo, d, c);
    assert Tied(a, lo, c)[0] == c && Tied(b, lo, c)[0] == d;
    if BatchText(a, leq) == BatchText(b, leq) {
      PrefixRead(Stringify(Arr(CandidateList(Sort(a, lo)))), Stringify(Arr(CandidateList(Sort(b, lo)))));
      ListTextExact(Sort(a, lo), Sort(b, lo));
    }
  }

  lemma CanonicalCons(c: Fingerprint, cs: seq<Fingerprint>, norm: string -> string, leq: (string, string) -> bool)
    ensures CanonicalAll([c] + cs, norm, leq) == [Canonical(c, norm, leq)] + CanonicalAll(cs, norm, leq)
  {
  }

  /** Two members brought to the front, in either order. */
  lemma TwoInFront(cs: seq<Fingerprint>, i: nat, j: nat) returns (rest: seq<Fingerprint>)
    requires i < |cs| && j < |cs| && i != j
    ensures multiset([cs[i]] + ([cs[j]] + rest)) == multiset(cs)
    ensures multiset([cs[j]] + ([cs[i]] + rest)) == multiset(cs)
  {
    var others := cs[..i] + cs[i + 1..];
    var k := if j < i then j else j - 1;
    assert others[k] == cs[j];
    ToFront(cs, i);
    ToFront(others, k);
    rest := others[..k] + others[k + 1..];
    var x, y := cs[i], cs[j];
    assert multiset([x] + ([y] + rest)) == multiset{x} + (multiset{y} + multiset(rest));
    assert multiset([y] + ([x] + rest)) == multiset{y} + (multiset{x} + multiset(rest));
  }

  /**
   The order of the candidates does not show exactly when the comparison calls no two
   differently written canonical candidates of the batch equal.
   */
  lemma OrderShowsExactly(cs: seq<Fingerprint>, norm: string -> string, leq: (string, string) -> bool)
    requires Total(leq)
    ensures OrderFree(cs, norm, leq) <==> TellsApart(CanonicalAll(cs, norm, leq), leq)
  {
    if TellsApart(CanonicalAll(cs, norm, leq), leq) {
      ApartHidesOrder(cs, norm, leq);
    } else {
      var i, j := TiedPair(CanonicalAll(cs, norm, leq), leq);
      TieBreaksOrder(cs, i, j, norm, leq);
    }
  }

  lemma ApartHidesOrder(cs: seq<Fingerprint>, norm: string -> string, leq: (string, string) -> bool)
    requires Total(leq) && TellsApart(CanonicalAll(cs, norm, leq), leq)
    ensures OrderFree(cs, norm, leq)
  {
    forall ds | multiset(ds) == multiset(cs) ensures IdempotencyText(ds, norm, leq) == IdempotencyText(cs, norm, leq) {
      CanonicalCounts(cs, ds, norm, leq);
      BatchTextExact(CanonicalAll(cs, norm, leq), CanonicalAll(ds, norm, leq), leq);
    }
  }

  lemma TiedPair(all: seq<Fingerprint>, leq: (string, string) -> bool) returns (i: nat, j: nat)
    requires !TellsApart(all, leq)
    ensures i < |all| && j < |all| && Ties(ByText(leq), all[i], all[j]) && all[i] != all[j]
  {
    var c, d :| c in all && d in all && leq(CandidateText(c), CandidateText(d)) && leq(CandidateText(d), CandidateText(c))
      && CandidateText(c) != CandidateText(d);
    i :| 0 <= i < |all| && all[i] == c;
    j :| 0 <= j < |all| && all[j] == d;
  }

  lemma TieBreaksOrder(cs: seq<Fingerprint>, i: nat, j: nat, norm: string -> string, leq: (string, string) -> bool)
    requires Total(leq) && i < |cs| && j < |cs|
    requires var all := CanonicalAll(cs, norm, leq); Ties(ByText(leq), all[i], all[j]) && all[i] != all[j]
    ensures !OrderFree(cs, norm, leq)
  {
    var rest := TwoInFront(cs, i, j);
    var a, b := [cs[i]] + ([cs[j]] + rest), [cs[j]] + ([cs[i]] + rest);
    CanonicalCons(cs[i], [cs[j]] + rest, norm, leq);
    CanonicalCons(cs[j], rest, norm, leq);
    CanonicalCons(cs[j], [cs[i]] + rest, norm, leq);
    CanonicalCons(cs[i], rest, norm, leq);
    TieShows(Canonical(cs[i], norm, leq), Canonical(cs[j], norm, leq), CanonicalAll(rest, norm, leq), leq);
    assert IdempotencyText(a, norm, leq) != IdempotencyText(b, norm, leq);
  }
}
