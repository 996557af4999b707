/** Candidates, their evidence trails, and merging two records of the same resource. */
module Evidence {
  import opened Wrappers
  import opened Sorting

  /** One observation. Weights are numbers in [-100, 100]. */
  datatype Item = Item(source: string, reason: string, weight: real, observedAt: int, details: string) {
    /** Observations with the same source and reason are copies of each other. */
    function Key(): (string, string) { (source, reason) }

    function Size(): real { if weight >= 0.0 then weight else -weight }
  }

  // ----- the merge loop -----

  /** `Map.set` unless a copy of at least the same absolute weight is there already. */
  function Put(m: seq<Item>, x: Item): seq<Item> {
    if m == [] then [x]
    else if m[0].Key() == x.Key() then (if x.Size() > m[0].Size() then [x] + m[1..] else m)
    else [m[0]] + Put(m[1..], x)
  }

  /** The map after the loop, in insertion order. */
  function Collect(items: seq<Item>): seq<Item> {
    if items == [] then [] else Put(Collect(items[..|items|-1]), items[|items|-1])
  }

  predicate Earlier(x: Item, y: Item) {
    x.observedAt <= y.observedAt
  }

  function MergeTrails(a: seq<Item>, b: seq<Item>): seq<Item> {
    Sort(Collect(a + b), Earlier)
  }

  /** The loop of `mergeEvidence` over the two trails. */
  method MergeTrailsLoop(a: seq<Item>, b: seq<Item>) returns (merged: seq<Item>)
    ensures merged == MergeTrails(a, b)
  {
    var combined := a + b;
    var m: seq<Item> := [];
    for i := 0 to |combined|
      invariant m == Collect(combined[..i])
    {
      assert combined[..i + 1][..i] == combined[..i];
      m := Put(m, combined[i]);
    }
    assert combined[..|combined|] == combined;
    merged := Sort(m, Earlier);
  }

  // ----- which copy wins -----

  function Better(x: Option<Item>, y: Option<Item>): Option<Item> {
    if y.Some? && (x.None? || y.value.Size() > x.value.Size()) then y else x
  }

  /** The earliest item of largest absolute weight among those with the key. */
  function Best(items: seq<Item>, key: (string, string)): Option<Item> {
    if items == [] then None else
      var x := items[|items|-1];
      Better(Best(items[..|items|-1], key), if x.Key() == key then Some(x) else None)
  }

  /** The winner of a list after one more item. */
  lemma WinsMore(before: seq<Item>, x: Item, key: (string, string), i: nat)
    requires i < |before| && Wins(before, key, i)
    ensures x.Key() == key && x.Size() > before[i].Size() ==> Wins(before + [x], key, |before|)
    ensures !(x.Key() == key && x.Size() > before[i].Size()) ==> Wins(before + [x], key, i)
  {
    assert forall j | 0 <= j < |before| :: (before + [x])[j] == before[j];
  }

  lemma WinsAlone(before: seq<Item>, x: Item, key: (string, string))
    requires x.Key() == key && forall i | 0 <= i < |before| :: before[i].Key() != key
    ensures Wins(before + [x], key, |before|)
  {
    assert forall j | 0 <= j < |before| :: (before + [x])[j] == before[j];
  }

  /** `best` is the item that wins. */
  ghost predicate IsWinner(best: Option<Item>, items: seq<Item>, key: (string, string)) {
    if best.None? then forall i | 0 <= i < |items| :: items[i].Key() != key
    else exists i :: 0 <= i < |items| && Wins(items, key, i) && best == Some(items[i])
  }

  lemma WinnerMore(best: Option<Item>, before: seq<Item>, x: Item, key: (string, string))
    requires IsWinner(best, before, key)
    ensures IsWinner(Better(best, if x.Key() == key then Some(x) else None), before + [x], key)
  {
    if best.Some? {
      var i :| 0 <= i < |before| && Wins(before, key, i) && best == Some(before[i]);
      WinsMore(before, x, key, i);
      assert (before + [x])[i] == before[i] && (before + [x])[|before|] == x;
    } else if x.Key() == key {
      WinsAlone(before, x, key);
      assert (before + [x])[|before|] == x;
    }
  }

  lemma {:induction false} BestIsEarliestLargest(items: seq<Item>, key: (string, string))
    ensures IsWinner(Best(items, key), items, key)
  {
    if items != [] {
      var before, x := items[..|items| - 1], items[|items| - 1];
      assert items == before + [x];
      BestIsEarliestLargest(before, key);
      WinnerMore(Best(before, key), before, x, key);
    }
  }

  /** No copy is larger, and no earlier copy is as large. */
  predicate Wins(items: seq<Item>, key: (string, string), i: nat)
    requires i < |items|
  {
    && items[i].Key() == key
    && (forall j | 0 <= j < |items| && items[j].Key() == key :: items[j].Size() <= items[i].Size())
    && (forall j | 0 <= j < i && items[j].Key() == key :: items[j].Size() < items[i].Size())
  }

  lemma {:induction false} BestConcat(a: seq<Item>, b: seq<Item>, key: (string, string))
    ensures Best(a + b, key) == Better(Best(a, key), Best(b, key))
  {
    if b == [] {
      assert a + b == a;
    } else {
      var n := |b| - 1;
      assert (a + b)[..|a| + n] == a + b[..n];
      BestConcat(a, b[..n], key);
    }
  }

  predicate DistinctKeys(m: seq<Item>) {
    forall i, j | 0 <= i < j < |m| :: m[i].Key() != m[j].Key()
  }

  /** `m` holds exactly the winners of `items`, one per key. */
  ghost predicate Winners(m: seq<Item>, items: seq<Item>) {
    DistinctKeys(m) && forall x: Item :: x in m <==> Best(items, x.Key()) == Some(x)
  }

  /** What putting `x` into the map does to the items with its key and to the others. */
  predicate Puts(r: seq<Item>, m: seq<Item>, x: Item) {
    && DistinctKeys(r)
    && (forall y | y in r :: y == x || y in m)
    && (forall y | y in m && y.Key() != x.Key() :: y in r)
    && (forall y | y in m && y.Key() == x.Key() :: if x.Size() > y.Size() then x in r && (y == x || y !in r) else y in r && (x == y || x !in r))
    && ((forall y | y in m :: y.Key() != x.Key()) ==> x in r)
  }

  lemma DistinctCons(a: Item, s: seq<Item>)
    ensures DistinctKeys([a] + s) <==> DistinctKeys(s) && forall y | y in s :: y.Key() != a.Key()
  {
    var t := [a] + s;
    if DistinctKeys(t) {
      forall y | y in s ensures y.Key() != a.Key() {
        var i :| 0 <= i < |s| && s[i] == y;
        assert t[0] == a && t[i + 1] == y;
      }
      forall i, j | 0 <= i < j < |s| ensures s[i].Key() != s[j].Key() { assert t[i + 1] == s[i] && t[j + 1] == s[j]; }
    }
    if DistinctKeys(s) && forall y | y in s :: y.Key() != a.Key() {
      forall i, j | 0 <= i < j < |t| ensures t[i].Key() != t[j].Key() {
        assert t[j] == s[j - 1] && s[j - 1] in s;
        assert i > 0 ==> t[i] == s[i - 1];
      }
    }
  }

  lemma PutsHere(a: Item, s: seq<Item>, x: Item)
    requires DistinctKeys([a] + s) && a.Key() == x.Key()
    ensures Puts(if x.Size() > a.Size() then [x] + s else [a] + s, [a] + s, x)
  {
    DistinctCons(a, s);
    DistinctCons(x, s);
  }

  lemma PutsThere(a: Item, s: seq<Item>, r: seq<Item>, x: Item)
    requires DistinctKeys([a] + s) && a.Key() != x.Key() && Puts(r, s, x)
    ensures Puts([a] + r, [a] + s, x)
  {
    DistinctCons(a, s);
    DistinctCons(a, r);
  }

  lemma {:induction false} PutEffect(m: seq<Item>, x: Item)
    requires DistinctKeys(m)
    ensures Puts(Put(m, x), m, x)
  {
    if m != [] {
      var a, s := m[0], m[1..];
      assert m == [a] + s;
      if a.Key() == x.Key() {
        PutsHere(a, s, x);
      } else {
        DistinctCons(a, s);
        PutEffect(s, x);
        PutsThere(a, s, Put(s, x), x);
      }
    }
  }

  lemma {:induction false} CollectIsWinners(items: seq<Item>)
    ensures Winners(Collect(items), items)
  {
    if items != [] {
      var n := |items| - 1;
      var m, x := Collect(items[..n]), items[n];
      CollectIsWinners(items[..n]);
      PutEffect(m, x);
      forall y: Item ensures y in Collect(items) <==> Best(items, y.Key()) == Some(y) {
        if y.Key() == x.Key() {
          var w := Best(items[..n], x.Key());
          if w.Some? {
            BestKey(items[..n], x.Key());
            assert w.value in m;
          } else {
            assert forall z | z in m :: z.Key() != x.Key();
          }
        }
      }
    }
  }

  lemma {:induction false} BestKey(items: seq<Item>, key: (string, string))
    ensures Best(items, key).Some? ==> Best(items, key).value.Key() == key
  {
    if items != [] { BestKey(items[..|items|-1], key); }
  }

  // ----- merging trails is associative -----

  lemma {:induction false} DistinctCounts(m: seq<Item>, x: Item)
    requires DistinctKeys(m)
    ensures multiset(m)[x] == if x in m then 1 else 0
  {
    if m != [] {
      assert m == [m[0]] + m[1..];
      DistinctCounts(m[1..], x);
    }
  }

  /** Two lists of the same winners are arrangements of each other. */
  lemma WinnersSameCounts(m: seq<Item>, n: seq<Item>, items: seq<Item>)
    requires Winners(m, items) && Winners(n, items)
    ensures multiset(m) == multiset(n)
  {
    forall x ensures multiset(m)[x] == multiset(n)[x] {
      DistinctCounts(m, x);
      DistinctCounts(n, x);
    }
  }

  lemma {:induction false} CountsDistinct(m: seq<Item>, n: seq<Item>)
    requires multiset(m) == multiset(n) && DistinctKeys(m)
    ensures DistinctKeys(n)
  {
    if n != [] {
      forall i, j | 0 <= i < j < |n| ensures n[i].Key() != n[j].Key() {
        if n[i].Key() == n[j].Key() {
          assert n[i] in multiset(m) && n[j] in multiset(m);
          if n[i] == n[j] {
            assert n == n[..i] + [n[i]] + n[i+1..j] + [n[j]] + n[j+1..];
            DistinctCounts(m, n[i]);
            assert false;
          } else {
            assert false;
          }
        }
      }
    }
  }

  lemma MergedIsWinners(a: seq<Item>, b: seq<Item>)
    ensures Winners(MergeTrails(a, b), a + b)
  {
    CollectIsWinners(a + b);
    SortCounts(Collect(a + b), Earlier);
    SortMembers(Collect(a + b), Earlier);
    CountsDistinct(Collect(a + b), MergeTrails(a, b));
  }

  /** The winner among winners is the winner among all. */
  lemma BestOfWinners(m: seq<Item>, items: seq<Item>, key: (string, string))
    requires Winners(m, items)
    ensures Best(m, key) == Best(items, key)
  {
    BestIsEarliestLargest(m, key);
    BestKey(m, key);
    BestKey(items, key);
    if Best(m, key).Some? {
      var i :| 0 <= i < |m| && Wins(m, key, i) && Best(m, key) == Some(m[i]);
      assert m[i] in m;
    } else if Best(items, key).Some? {
      assert false;
    }
  }

  /** Merging three trails either way keeps, per source and reason, the earliest of the largest of all three. */
  lemma TrailsAssociative(a: seq<Item>, b: seq<Item>, c: seq<Item>)
    ensures Winners(MergeTrails(MergeTrails(a, b), c), a + b + c)
    ensures Winners(MergeTrails(a, MergeTrails(b, c)), a + b + c)
  {
    var ab, bc := MergeTrails(a, b), MergeTrails(b, c);
    MergedIsWinners(a, b);
    MergedIsWinners(b, c);
    MergedIsWinners(ab, c);
    MergedIsWinners(a, bc);
    forall key ensures Best(ab + c, key) == Best(a + b + c, key) && Best(a + bc, key) == Best(a + b + c, key) {
      BestConcat(ab, c, key);
      BestConcat(a + b, c, key);
      BestOfWinners(ab, a + b, key);
      BestConcat(a, bc, key);
      BestOfWinners(bc, b + c, key);
      BestConcat(a, b, key);
      BestConcat(b, c, key);
    }
  }

  // ----- the score -----

  function Weight(items: seq<Item>): real {
    if items == [] then 0.0 else items[0].weight + Weight(items[1..])
  }

  lemma {:induction false} WeightConcat(a: seq<Item>, b: seq<Item>)
    ensures Weight(a + b) == Weight(a) + Weight(b)
  {
    if a == [] {
      assert a + b == b;
    } else {
      WeightConcat(a[1..], b);
      assert (a + b)[1..] == a[1..] + b;
    }
  }

  /** The total weight does not depend on the order of the trail. */
  lemma {:induction false} WeightCounts(a: seq<Item>, b: seq<Item>)
    requires multiset(a) == multiset(b)
    ensures Weight(a) == Weight(b)
  {
    SameLength(a, b);
    if a != [] {
      assert a[0] in multiset(b);
      var i :| 0 <= i < |b| && b[i] == a[0];
      TakeOut(a, b, i);
      WeightCounts(a[1..], b[..i] + b[i + 1..]);
      WeightWithout(b, i);
    }
  }

  lemma WeightWithout(b: seq<Item>, i: nat)
    requires i < |b|
    ensures Weight(b) == b[i].weight + Weight(b[..i] + b[i + 1..])
  {
    Parts(b, i);
    WeightMiddle(b[..i], b[i], b[i + 1..]);
  }

  lemma Parts(b: seq<Item>, i: nat)
    requires i < |b|
    ensures b[..i] + ([b[i]] + b[i + 1..]) == b
  {
  }

  lemma WeightMiddle(a: seq<Item>, x: Item, c: seq<Item>)
    ensures Weight(a + ([x] + c)) == x.weight + Weight(a + c)
  {
    assert ([x] + c)[1..] == c;
    WeightConcat(a, c);
    WeightConcat(a, [x] + c);
  }

  /** An optional property: not there, there but `undefined`, or there with a value. */
  datatype Field<T> = Absent | Undef | Val(value: T)

  /** `{...a, ...b}` on one property. */
  function Over<T>(a: Field<T>, b: Field<T>): Field<T> {
    if b.Absent? then a else b
  }

  /** `b ?? a`. */
  function Coalesce<T>(a: Field<T>, b: Field<T>): Field<T> {
    if b.Val? then b else if a.Val? then a else Undef
  }

  function Or<T>(f: Field<T>, d: T): T {
    if f.Val? then f.value else d
  }

  /**
   A candidate. The properties that scoring or deduplication look at are fields; `extras`,
   `headers` and `metadata` hold every other property of the three objects by name, with its
   value as text. Variants and subtitles are lists of such texts.
   */
  datatype Candidate = Candidate(
    url: string, finalUrl: Field<string>, pageUrl: Field<string>, source: string, mediaType: string,
    mimeType: Field<string>, extension: Field<string>, filename: Field<string>, sizeBytes: Field<nat>,
    width: Field<nat>, height: Field<nat>, variants: Field<seq<string>>, subtitles: Field<seq<string>>,
    contentType: Field<string>, contentDisposition: Field<string>, downloadAttribute: Field<bool>, assistiveSource: Field<string>,
    extras: map<string, string>, headers: map<string, string>, metadata: map<string, string>,
    evidence: seq<Item>, confidence: real)

  /** Which of the URL patterns match; the patterns themselves are regular expressions. */
  datatype Traits = Traits(quality: bool, noise: bool, interface: bool, asset: bool, dataUrl: bool, blobUrl: bool, thumb: bool)

  function When(c: bool, x: real): real {
    if c then x else 0.0
  }

  predicate Text(f: Field<string>) {
    f.Val? && f.value != ""
  }

  function EffectiveUrl(c: Candidate): string {
    Or(c.finalUrl, c.url)
  }

  /** What the response and the page say about the file. */
  function FileBonuses(c: Candidate): real {
    When(Text(c.contentType) || Text(c.mimeType), 35.0) + When(Text(c.contentDisposition), 30.0)
    + When(c.downloadAttribute == Val(true), 30.0) + When(Or(c.sizeBytes, 0) > 1_048_576, 25.0)
    + When(|Or(c.variants, [])| > 0, 25.0) + When(Text(c.extension), 20.0)
  }

  /** Where it was found and what it is. */
  function KindBonuses(c: Candidate): real {
    When(c.source == "downloads-api", 20.0) + When(c.source == "media-element", 15.0)
    + When(c.source == "hls-manifest" || c.source == "dash-manifest", 15.0)
    + When(c.mediaType in ["video", "audio", "document", "archive", "app", "manifest"], 10.0)
    + When(c.mediaType == "torrent" || c.mediaType == "magnet", 15.0)
  }

  function NameBonuses(c: Candidate, t: Traits): real {
    When(c.assistiveSource == Val("embedded-media"), 12.0) + When(Text(c.filename), 10.0) + When(t.quality, 10.0)
  }

  function Bonuses(c: Candidate, t: Traits): real {
    FileBonuses(c) + KindBonuses(c) + NameBonuses(c, t)
  }

  function Penalties(c: Candidate, t: Traits): real {
    When(t.noise, 80.0) + When(t.interface, 60.0) + When(t.asset, 60.0)
    + When(c.sizeBytes.Val? && c.sizeBytes.value < 20_480, if Text(c.contentDisposition) then 20.0 else 50.0)
    + When(t.dataUrl, 60.0) + When(t.blobUrl && !Text(c.filename), 30.0) + When(t.thumb, 40.0)
  }

  function Merits(c: Candidate, t: Traits): real {
    Bonuses(c, t) - Penalties(c, t)
  }

  /** `Math.round`, then clamped to 0..100. */
  function Clamp(x: real): (r: int)
    ensures 0 <= r <= 100
    ensures 0.0 <= x <= 100.0 ==> x - 0.5 < r as real <= x + 0.5
    ensures (x < 0.0 ==> r == 0) && (x > 100.0 ==> r == 100)
  {
    var n := (x + 0.5).Floor;
    if n < 0 then 0 else if n > 100 then 100 else n
  }

  function Score(c: Candidate, traits: string -> Traits): int {
    var t := traits(EffectiveUrl(c));
    Clamp(Weight(c.evidence) + Merits(c, t))
  }

  /** `y` earns every bonus that `x` earns. */
  predicate EarnsAll(x: Candidate, tx: Traits, y: Candidate, ty: Traits) {
    && (Text(x.contentType) || Text(x.mimeType) ==> Text(y.contentType) || Text(y.mimeType))
    && (Text(x.contentDisposition) ==> Text(y.contentDisposition))
    && (x.downloadAttribute == Val(true) ==> y.downloadAttribute == Val(true))
    && (x.sizeBytes.Val? && x.sizeBytes.value > 1_048_576 ==> y.sizeBytes.Val? && y.sizeBytes.value > 1_048_576)
    && (x.variants.Val? && x.variants.value != [] ==> y.variants.Val? && y.variants.value != [])
    && (Text(x.extension) ==> Text(y.extension)) && (Text(x.filename) ==> Text(y.filename))
    && x.source == y.source && x.mediaType == y.mediaType
    && (x.assistiveSource == Val("embedded-media") ==> y.assistiveSource == Val("embedded-media"))
    && (tx.quality ==> ty.quality)
  }

  /** `y` has no fault that `x` has not; a small file counts less against a candidate that names a download. */
  predicate NoNewFault(x: Candidate, tx: Traits, y: Candidate, ty: Traits) {
    && (ty.noise ==> tx.noise) && (ty.interface ==> tx.interface) && (ty.asset ==> tx.asset)
    && (ty.dataUrl ==> tx.dataUrl) && (ty.thumb ==> tx.thumb)
    && (ty.blobUrl && !Text(y.filename) ==> tx.blobUrl && !Text(x.filename))
    && (y.sizeBytes.Val? && y.sizeBytes.value < 20_480 ==> x.sizeBytes.Val? && x.sizeBytes.value < 20_480)
  }

  lemma BonusesGrow(x: Candidate, tx: Traits, y: Candidate, ty: Traits)
    requires EarnsAll(x, tx, y, ty)
    ensures Bonuses(x, tx) <= Bonuses(y, ty)
  {
    FileBonusesGrow(x, tx, y, ty);
    assert NameBonuses(x, tx) <= NameBonuses(y, ty);
    assert KindBonuses(x) == KindBonuses(y);
  }

  lemma FileBonusesGrow(x: Candidate, tx: Traits, y: Candidate, ty: Traits)
    requires EarnsAll(x, tx, y, ty)
    ensures FileBonuses(x) <= FileBonuses(y)
  {
  }

  lemma PenaltiesShrink(x: Candidate, tx: Traits, y: Candidate, ty: Traits)
    requires NoNewFault(x, tx, y, ty) && (Text(x.contentDisposition) ==> Text(y.contentDisposition))
    ensures Penalties(y, ty) <= Penalties(x, tx)
  {
  }

  /** What each property adds to the score when the candidate did not have it. */
  lemma TypeIsWorth(c: Candidate, t: Traits, x: string)
    requires x != "" && !Text(c.contentType) && !Text(c.mimeType)
    ensures Merits(c.(contentType := Val(x)), t) == Merits(c, t) + 35.0
  {
  }

  lemma MimeTypeIsWorth(c: Candidate, t: Traits, x: string)
    requires x != "" && !Text(c.contentType) && !Text(c.mimeType)
    ensures Merits(c.(mimeType := Val(x)), t) == Merits(c, t) + 35.0
  {
  }

  lemma DispositionIsWorth(c: Candidate, t: Traits, x: string)
    requires x != "" && !Text(c.contentDisposition)
    ensures Merits(c.(contentDisposition := Val(x)), t) ==
      Merits(c, t) + if c.sizeBytes.Val? && c.sizeBytes.value < 20_480 then 60.0 else 30.0
  {
  }

  lemma DownloadIsWorth(c: Candidate, t: Traits)
    requires c.downloadAttribute != Val(true)
    ensures Merits(c.(downloadAttribute := Val(true)), t) == Merits(c, t) + 30.0
  {
  }

  lemma ExtensionIsWorth(c: Candidate, t: Traits, x: string)
    requires x != "" && !Text(c.extension)
    ensures Merits(c.(extension := Val(x)), t) == Merits(c, t) + 20.0
  {
  }

  lemma VariantsAreWorth(c: Candidate, t: Traits, x: string)
    requires Or(c.variants, []) == []
    ensures Merits(c.(variants := Val([x])), t) == Merits(c, t) + 25.0
  {
  }

  lemma FilenameIsWorth(c: Candidate, t: Traits, x: string)
    requires x != "" && !Text(c.filename)
    ensures Merits(c.(filename := Val(x)), t) == Merits(c, t) + if t.blobUrl then 40.0 else 10.0
  {
  }

  lemma SizeIsWorth(c: Candidate, t: Traits, n: nat)
    requires !c.sizeBytes.Val?
    ensures n > 1_048_576 ==> Merits(c.(sizeBytes := Val(n)), t) == Merits(c, t) + 25.0
    ensures 20_480 <= n <= 1_048_576 ==> Merits(c.(sizeBytes := Val(n)), t) == Merits(c, t)
    ensures n < 20_480 ==> Merits(c.(sizeBytes := Val(n)), t) == Merits(c, t) - if Text(c.contentDisposition) then 20.0 else 50.0
  {
  }

  /** What each fault of the URL costs. */
  lemma FaultsCost(c: Candidate, t: Traits)
    ensures !t.noise ==> Merits(c, t.(noise := true)) == Merits(c, t) - 80.0
    ensures !t.interface ==> Merits(c, t.(interface := true)) == Merits(c, t) - 60.0
    ensures !t.asset ==> Merits(c, t.(asset := true)) == Merits(c, t) - 60.0
  {
  }

  lemma UrlKindsCost(c: Candidate, t: Traits)
    ensures !t.dataUrl ==> Merits(c, t.(dataUrl := true)) == Merits(c, t) - 60.0
    ensures !t.blobUrl && !Text(c.filename) ==> Merits(c, t.(blobUrl := true)) == Merits(c, t) - 30.0
    ensures !t.thumb ==> Merits(c, t.(thumb := true)) == Merits(c, t) - 40.0
    ensures !t.quality ==> Merits(c, t.(quality := true)) == Merits(c, t) + 10.0
  {
  }

  /** With the same trail, a candidate that earns more and has no new fault never scores lower. */
  lemma MeritsCount(x: Candidate, y: Candidate, traits: string -> Traits)
    requires x.evidence == y.evidence
    requires EarnsAll(x, traits(EffectiveUrl(x)), y, traits(EffectiveUrl(y))) && NoNewFault(x, traits(EffectiveUrl(x)), y, traits(EffectiveUrl(y)))
    ensures Score(x, traits) <= Score(y, traits)
  {
    BonusesGrow(x, traits(EffectiveUrl(x)), y, traits(EffectiveUrl(y)));
    PenaltiesShrink(x, traits(EffectiveUrl(x)), y, traits(EffectiveUrl(y)));
    ClampGap(Merits(x, traits(EffectiveUrl(x))), Merits(y, traits(EffectiveUrl(y))), Weight(x.evidence));
  }

  /** A heavier trail never scores lower, and never by more than the difference. */
  lemma ScoreFollowsWeight(x: Candidate, y: Candidate, traits: string -> Traits)
    requires Bare(x) == Bare(y) && Weight(x.evidence) <= Weight(y.evidence)
    ensures Score(x, traits) <= Score(y, traits)
    ensures (Score(y, traits) - Score(x, traits)) as real < Weight(y.evidence) - Weight(x.evidence) + 1.0
  {
    var t := traits(EffectiveUrl(x));
    FieldsScoreAlike(x, y, t);
    WeightDecides(x, y, traits, Merits(x, t), Weight(x.evidence), Weight(y.evidence));
  }

  lemma WeightDecides(x: Candidate, y: Candidate, traits: string -> Traits, f: real, a: real, b: real)
    requires Merits(x, traits(EffectiveUrl(x))) == f == Merits(y, traits(EffectiveUrl(y)))
    requires a == Weight(x.evidence) <= b == Weight(y.evidence)
    ensures Score(x, traits) == Clamp(a + f) <= Clamp(b + f) == Score(y, traits)
    ensures (Score(y, traits) - Score(x, traits)) as real < b - a + 1.0
  {
    ClampGap(a, b, f);
  }

  lemma ClampGap(a: real, b: real, f: real)
    requires a <= b
    ensures Clamp(a + f) <= Clamp(b + f) && (Clamp(b + f) - Clamp(a + f)) as real < b - a + 1.0
  {
    var m, n := (a + f + 0.5).Floor, (b + f + 0.5).Floor;
    assert m as real <= a + f + 0.5 < m as real + 1.0 && n as real <= b + f + 0.5 < n as real + 1.0;
  }

  lemma FieldsScoreAlike(x: Candidate, y: Candidate, t: Traits)
    requires Bare(x) == Bare(y)
    ensures Merits(x, t) == Merits(y, t) && EffectiveUrl(x) == EffectiveUrl(y)
  {
    assert Bonuses(x, t) == Bonuses(Bare(x), t) && Bonuses(y, t) == Bonuses(Bare(y), t);
    assert Penalties(x, t) == Penalties(Bare(x), t) && Penalties(y, t) == Penalties(Bare(y), t);
  }

  /** `addEvidence`: an item of a source and reason that is there already is not added. */
  function AddEvidence(c: Candidate, item: Item): Candidate {
    if exists e :: e in c.evidence && e.Key() == item.Key() then c else c.(evidence := c.evidence + [item])
  }

  /** Afterwards the candidate has an item of that source and reason: the one it had, or the new one at the end. */
  lemma AddedIsThere(c: Candidate, item: Item)
    ensures var d := AddEvidence(c, item);
      && (exists e :: e in d.evidence && e.Key() == item.Key())
      && (if exists e :: e in c.evidence && e.Key() == item.Key() then d == c else d == c.(evidence := c.evidence + [item]))
      && AddEvidence(d, item) == d
  {
    var d := AddEvidence(c, item);
    if !exists e :: e in c.evidence && e.Key() == item.Key() {
      assert d.evidence[|c.evidence|] == item;
      assert item in d.evidence && item.Key() == item.Key();
    }
  }

  /** More evidence in favour never lowers the score, evidence against never raises it. */
  lemma EvidenceCountsItsWay(c: Candidate, item: Item, traits: string -> Traits)
    ensures item.weight >= 0.0 ==> Score(AddEvidence(c, item), traits) >= Score(c, traits)
    ensures item.weight <= 0.0 ==> Score(AddEvidence(c, item), traits) <= Score(c, traits)
  {
    var d := AddEvidence(c, item);
    if d != c {
      WeightConcat(c.evidence, [item]);
      assert Weight([item]) == item.weight;
      if item.weight >= 0.0 { ScoreFollowsWeight(c, d, traits); }
      if item.weight <= 0.0 { ScoreFollowsWeight(d, c, traits); }
    }
  }

  function MergeFields(a: Candidate, b: Candidate): Candidate {
    Candidate(
      b.url, Over(a.finalUrl, b.finalUrl), Over(a.pageUrl, b.pageUrl), b.source, b.mediaType,
      Over(a.mimeType, b.mimeType), Over(a.extension, b.extension), Over(a.filename, b.filename), Over(a.sizeBytes, b.sizeBytes),
      Over(a.width, b.width), Over(a.height, b.height), Coalesce(a.variants, b.variants), Coalesce(a.subtitles, b.subtitles),
      Over(a.contentType, b.contentType), Over(a.contentDisposition, b.contentDisposition),
      Over(a.downloadAttribute, b.downloadAttribute), Over(a.assistiveSource, b.assistiveSource),
      a.extras + b.extras, a.headers + b.headers, a.metadata + b.metadata,
      MergeTrails(a.evidence, b.evidence), b.confidence)
  }

  /** `mergeEvidence`: later fields win, the trails are merged, the confidence is derived anew. */
  function Merge(a: Candidate, b: Candidate, traits: string -> Traits): Candidate {
    var base := MergeFields(a, b);
    base.(confidence := Score(base, traits) as real)
  }

  /** A candidate without what is derived or ordered. */
  function Bare(c: Candidate): Candidate {
    c.(evidence := [], confidence := 0.0)
  }

  /** The later record's property, if it has one at all, and otherwise the earlier record's. */
  predicate LaterOf<T(==)>(a: Field<T>, b: Field<T>, m: Field<T>) {
    m == if b.Absent? then a else b
  }

  predicate LaterIn(a: map<string, string>, b: map<string, string>, m: map<string, string>) {
    && (forall k | k in m :: m[k] == if k in b then b[k] else if k in a then a[k] else m[k])
    && m.Keys == a.Keys + b.Keys
  }

  /** In a merge the later record wins, property by property; a list it does not have comes from the earlier one. */
  lemma LaterWins(a: Candidate, b: Candidate, traits: string -> Traits)
    ensures var m := Merge(a, b, traits);
      && m.url == b.url && m.source == b.source && m.mediaType == b.mediaType
      && LaterOf(a.finalUrl, b.finalUrl, m.finalUrl) && LaterOf(a.pageUrl, b.pageUrl, m.pageUrl) && LaterOf(a.mimeType, b.mimeType, m.mimeType)
      && LaterOf(a.extension, b.extension, m.extension) && LaterOf(a.filename, b.filename, m.filename)
      && LaterOf(a.sizeBytes, b.sizeBytes, m.sizeBytes) && LaterOf(a.width, b.width, m.width) && LaterOf(a.height, b.height, m.height)
      && LaterOf(a.contentType, b.contentType, m.contentType) && LaterOf(a.contentDisposition, b.contentDisposition, m.contentDisposition)
      && LaterOf(a.downloadAttribute, b.downloadAttribute, m.downloadAttribute) && LaterOf(a.assistiveSource, b.assistiveSource, m.assistiveSource)
      && (b.variants.Val? ==> m.variants == b.variants) && (!b.variants.Val? && a.variants.Val? ==> m.variants == a.variants)
      && (b.subtitles.Val? ==> m.subtitles == b.subtitles) && (!b.subtitles.Val? && a.subtitles.Val? ==> m.subtitles == a.subtitles)
      && LaterIn(a.extras, b.extras, m.extras) && LaterIn(a.headers, b.headers, m.headers) && LaterIn(a.metadata, b.metadata, m.metadata)
      && m.confidence == Score(m, traits) as real
  {
    var base := MergeFields(a, b);
    SameScore(base, Merge(a, b, traits), traits);
  }

  lemma OverAssociative<T>(a: Field<T>, b: Field<T>, c: Field<T>)
    ensures Over(Over(a, b), c) == Over(a, Over(b, c))
    ensures Coalesce(Coalesce(a, b), c) == Coalesce(a, Coalesce(b, c))
  {
  }

  lemma MapsAssociative(a: map<string, string>, b: map<string, string>, c: map<string, string>)
    ensures (a + b) + c == a + (b + c)
  {
  }

  lemma FieldsAssociative(a: Candidate, b: Candidate, c: Candidate)
    ensures Bare(MergeFields(MergeFields(a, b), c)) == Bare(MergeFields(a, MergeFields(b, c)))
  {
    OverAssociative(a.finalUrl, b.finalUrl, c.finalUrl);
    OverAssociative(a.pageUrl, b.pageUrl, c.pageUrl);
    OverAssociative(a.mimeType, b.mimeType, c.mimeType);
    OverAssociative(a.extension, b.extension, c.extension);
    OverAssociative(a.filename, b.filename, c.filename);
    OverAssociative(a.sizeBytes, b.sizeBytes, c.sizeBytes);
    OverAssociative(a.variants, b.variants, c.variants);
    OverAssociative(a.subtitles, b.subtitles, c.subtitles);
    MapsAssociative(a.extras, b.extras, c.extras);
    MapsAssociative(a.headers, b.headers, c.headers);
    MapsAssociative(a.metadata, b.metadata, c.metadata);
  }

  lemma SameScore(x: Candidate, y: Candidate, traits: string -> Traits)
    requires Bare(x) == Bare(y) && Weight(x.evidence) == Weight(y.evidence)
    ensures Score(x, traits) == Score(y, traits)
  {
    FieldsScoreAlike(x, y, traits(EffectiveUrl(x)));
  }

  /** The derived confidence of a part has no say in a further merge. */
  lemma ConfidenceIsDerived(a: Candidate, b: Candidate, x: real, y: real, traits: string -> Traits)
    ensures Merge(a.(confidence := x), b.(confidence := y), traits) == Merge(a, b, traits)
  {
    var base := MergeFields(a, b);
    var other := MergeFields(a.(confidence := x), b.(confidence := y));
    assert other == base.(confidence := y);
    SameScore(other, base, traits);
  }

  /**
   Merging three records either way: the same fields, the same confidence, and trails that
   hold the same items, namely per source and reason the earliest of largest weight.
   */
  lemma MergeAssociative(a: Candidate, b: Candidate, c: Candidate, traits: string -> Traits)
    ensures var l := Merge(Merge(a, b, traits), c, traits);
      var r := Merge(a, Merge(b, c, traits), traits);
      && l.confidence == r.confidence && l.(evidence := []) == r.(evidence := [])
      && multiset(l.evidence) == multiset(r.evidence)
      && Winners(l.evidence, a.evidence + b.evidence + c.evidence)
  {
    var l0, r0 := MergeFields(MergeFields(a, b), c), MergeFields(a, MergeFields(b, c));
    ConfidenceIsDerived(MergeFields(a, b), c, Merge(a, b, traits).confidence, c.confidence, traits);
    assert c.(confidence := c.confidence) == c;
    ConfidenceIsDerived(a, MergeFields(b, c), a.confidence, Merge(b, c, traits).confidence, traits);
    assert a.(confidence := a.confidence) == a;
    TrailsAssociative(a.evidence, b.evidence, c.evidence);
    WinnersSameCounts(l0.evidence, r0.evidence, a.evidence + b.evidence + c.evidence);
    WeightCounts(l0.evidence, r0.evidence);
    FieldsAssociative(a, b, c);
    SameScore(l0, r0, traits);
  }

  /** The merged trail is in the order of observation. */
  lemma MergedTrailIsChronological(a: seq<Item>, b: seq<Item>)
    ensures var m := MergeTrails(a, b); forall i, j | 0 <= i < j < |m| :: m[i].observedAt <= m[j].observedAt
  {
    SortSorts(Collect(a + b), Earlier);
    var m := MergeTrails(a, b);
    forall i, j | 0 <= i < j < |m| ensures m[i].observedAt <= m[j].observedAt { assert Earlier(m[i], m[j]); }
  }

  /** The text key of an item stands for its source and reason: no source contains a colon. */
  lemma TextKeyIsFaithful(x: Item, y: Item)
    requires ':' !in x.source && ':' !in y.source
    ensures x.source + "::" + x.reason == y.source + "::" + y.reason <==> x.Key() == y.Key()
  {
    var a, b := x.source + "::" + x.reason, y.source + "::" + y.reason;
    if a == b {
      assert a[|x.source|] == ':' && b[|y.source|] == ':';
      if |x.source| < |y.source| {
        assert false;
      } else if |y.source| < |x.source| {
        assert false;
      }
      assert a[..|x.source|] == x.source && b[..|y.source|] == y.source;
      assert a[|x.source| + 2..] == x.reason && b[|y.source| + 2..] == y.reason;
    }
  }
}
