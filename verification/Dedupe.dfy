/** Deduplicating candidates: one per key, merged in the order they come, most confident first. */
module Dedupe {
  import opened Wrappers
  import opened Sets
  import opened Sorting
  import opened Evidence

  /** What makes two records the same resource; a missing field counts as empty. */
  datatype Key = Key(url: string, page: string, file: string, size: Option<nat>, mime: string, media: string, width: Option<nat>, height: Option<nat>)

  function Number(f: Field<nat>): Option<nat> {
    if f.Val? then Some(f.value) else None
  }

  /** `normalizeUrl` is any function on URLs. */
  function KeyOf(c: Candidate, norm: string -> string): Key {
    Key(norm(EffectiveUrl(c)), Or(c.pageUrl, ""), Or(c.filename, ""), Number(c.sizeBytes), Or(c.mimeType, ""), c.mediaType, Number(c.width), Number(c.height))
  }

  /** Merging two records of a key gives a record of that key. */
  lemma MergeKeepsKey(a: Candidate, b: Candidate, traits: string -> Traits, norm: string -> string)
    requires KeyOf(a, norm) == KeyOf(b, norm)
    ensures KeyOf(Merge(a, b, traits), norm) == KeyOf(a, norm)
  {
  }

  // ----- the loop -----

  datatype Slot<K> = Slot(key: K, cand: Candidate)

  /** The insertion-ordered map after one more candidate. */
  function Put<K(==)>(m: seq<Slot<K>>, k: K, c: Candidate, traits: string -> Traits): seq<Slot<K>> {
    if m == [] then [Slot(k, c)]
    else if m[0].key == k then [Slot(k, Merge(m[0].cand, c, traits))] + m[1..]
    else [m[0]] + Put(m[1..], k, c, traits)
  }

  function Group<K(==)>(input: seq<Candidate>, key: Candidate -> K, traits: string -> Traits): seq<Slot<K>> {
    if input == [] then [] else
      var n := |input| - 1;
      Put(Group(input[..n], key, traits), key(input[n]), input[n], traits)
  }

  function Values<K>(m: seq<Slot<K>>): seq<Candidate> {
    if m == [] then [] else [m[0].cand] + Values(m[1..])
  }

  predicate MoreConfident(x: Candidate, y: Candidate) {
    x.confidence >= y.confidence
  }

  function DedupeBy<K(==)>(input: seq<Candidate>, key: Candidate -> K, traits: string -> Traits): seq<Candidate> {
    Sort(Values(Group(input, key, traits)), MoreConfident)
  }

  /** `dedupeCandidates`, for any way of computing the key. */
  method DedupeCandidates<K(==)>(input: seq<Candidate>, key: Candidate -> K, traits: string -> Traits) returns (r: seq<Candidate>)
    ensures r == DedupeBy(input, key, traits)
  {
    var m: seq<Slot<K>> := [];
    for i := 0 to |input|
      invariant m == Group(input[..i], key, traits)
    {
      assert input[..i + 1][..i] == input[..i];
      m := Put(m, key(input[i]), input[i], traits);
    }
    assert input[..|input|] == input;
    r := Sort(Values(m), MoreConfident);
  }

  // ----- the groups -----

  function Keys<K>(m: seq<Slot<K>>): seq<K> {
    seq(|m|, i requires 0 <= i < |m| => m[i].key)
  }

  predicate DistinctSeq<K(==)>(s: seq<K>) {
    forall i, j | 0 <= i < j < |s| :: s[i] != s[j]
  }

  lemma KeysCons<K>(x: Slot<K>, m: seq<Slot<K>>)
    ensures Keys([x] + m) == [x.key] + Keys(m)
  {
  }

  /** A key is appended unless it is there; nothing else moves. */
  lemma {:induction false} PutKeys<K>(m: seq<Slot<K>>, k: K, c: Candidate, traits: string -> Traits)
    ensures Keys(Put(m, k, c, traits)) == if k in Keys(m) then Keys(m) else Keys(m) + [k]
  {
    if m != [] {
      var x, rest := m[0], m[1..];
      assert m == [x] + rest;
      KeysCons(x, rest);
      if x.key == k {
        KeysCons(Slot(k, Merge(x.cand, c, traits)), rest);
        assert ([x.key] + Keys(rest))[0] == k;
      } else {
        PutKeys(rest, k, c, traits);
        KeysCons(x, Put(rest, k, c, traits));
        assert [x.key] + (Keys(rest) + [k]) == ([x.key] + Keys(rest)) + [k];
      }
    }
  }

  /** Some candidate of the input has the key. */
  predicate Occurs<K(==)>(input: seq<Candidate>, key: Candidate -> K, k: K) {
    exists i :: 0 <= i < |input| && key(input[i]) == k
  }

  lemma OccursMore<K>(before: seq<Candidate>, c: Candidate, key: Candidate -> K, k: K)
    ensures Occurs(before + [c], key, k) <==> Occurs(before, key, k) || key(c) == k
  {
    var all := before + [c];
    if i :| 0 <= i < |before| && key(before[i]) == k {
      assert key(all[i]) == k;
    }
    if key(c) == k {
      assert key(all[|before|]) == k;
    }
  }

  lemma {:induction false} GroupKeys<K>(input: seq<Candidate>, key: Candidate -> K, traits: string -> Traits)
    ensures DistinctSeq(Keys(Group(input, key, traits)))
    ensures forall k :: k in Keys(Group(input, key, traits)) <==> Occurs(input, key, k)
  {
    if input != [] {
      var before, c := input[..|input| - 1], input[|input| - 1];
      assert input == before + [c];
      GroupKeys(before, key, traits);
      PutKeys(Group(before, key, traits), key(c), c, traits);
      forall k ensures k in Keys(Group(input, key, traits)) <==> Occurs(input, key, k) {
        OccursMore(before, c, key, k);
      }
    }
  }

  predicate Holds(m: seq<Slot<Key>>, norm: string -> string) {
    forall i | 0 <= i < |m| :: m[i].key == KeyOf(m[i].cand, norm)
  }

  /** With a key that merging keeps, each slot holds a candidate of its key. */
  lemma {:induction false} PutHolds(m: seq<Slot<Key>>, c: Candidate, traits: string -> Traits, norm: string -> string)
    requires Holds(m, norm)
    ensures Holds(Put(m, KeyOf(c, norm), c, traits), norm)
  {
    if m != [] {
      assert m[0].key == KeyOf(m[0].cand, norm);
      if m[0].key == KeyOf(c, norm) {
        MergeKeepsKey(m[0].cand, c, traits, norm);
      } else {
        assert Holds(m[1..], norm);
        PutHolds(m[1..], c, traits, norm);
        var t := Put(m[1..], KeyOf(c, norm), c, traits);
        assert forall i | 1 <= i < |t| + 1 :: ([m[0]] + t)[i] == t[i - 1];
      }
    }
  }

  /** The key of a candidate as a function value. */
  function By(norm: string -> string): Candidate -> Key {
    c => KeyOf(c, norm)
  }

  lemma {:induction false} GroupHolds(input: seq<Candidate>, traits: string -> Traits, norm: string -> string)
    ensures Holds(Group(input, By(norm), traits), norm)
  {
    if input != [] {
      var n := |input| - 1;
      GroupHolds(input[..n], traits, norm);
      PutHolds(Group(input[..n], By(norm), traits), input[n], traits, norm);
    }
  }

  lemma {:induction false} ValuesAt<K>(m: seq<Slot<K>>)
    ensures |Values(m)| == |m| && forall i | 0 <= i < |m| :: Values(m)[i] == m[i].cand
  {
    if m != [] { ValuesAt(m[1..]); }
  }

  // ----- the theorems -----

  predicate DistinctKeys(cs: seq<Candidate>, norm: string -> string) {
    forall i, j | 0 <= i < j < |cs| :: KeyOf(cs[i], norm) != KeyOf(cs[j], norm)
  }

  predicate HasKey(cs: seq<Candidate>, norm: string -> string, k: Key) {
    exists i :: 0 <= i < |cs| && KeyOf(cs[i], norm) == k
  }

  /** Sorting moves candidates but keeps their keys distinct. */
  lemma SortKeepsDistinct(cs: seq<Candidate>, norm: string -> string)
    requires DistinctKeys(cs, norm)
    ensures DistinctKeys(Sort(cs, MoreConfident), norm)
  {
    var s := Sort(cs, MoreConfident);
    SortCounts(cs, MoreConfident);
    forall i, j | 0 <= i < j < |s| ensures KeyOf(s[i], norm) != KeyOf(s[j], norm) {
      if KeyOf(s[i], norm) == KeyOf(s[j], norm) {
        TwiceInSeq(s, i, j);
        OnceInDistinct(cs, s[i], norm);
        SameKeySame(cs, s[i], s[j], norm);
        assert false;
      }
    }
  }

  lemma SameKeySame(cs: seq<Candidate>, x: Candidate, y: Candidate, norm: string -> string)
    requires DistinctKeys(cs, norm) && x in multiset(cs) && y in multiset(cs) && KeyOf(x, norm) == KeyOf(y, norm)
    ensures x == y
  {
    var i :| 0 <= i < |cs| && cs[i] == x;
    var j :| 0 <= j < |cs| && cs[j] == y;
  }

  lemma TwiceInSeq(s: seq<Candidate>, i: nat, j: nat)
    requires i < j < |s|
    ensures s[i] == s[j] ==> multiset(s)[s[i]] >= 2
  {
    assert s == s[..i] + [s[i]] + s[i+1..j] + [s[j]] + s[j+1..];
  }

  lemma {:induction false} OnceInDistinct(cs: seq<Candidate>, x: Candidate, norm: string -> string)
    requires DistinctKeys(cs, norm)
    ensures multiset(cs)[x] <= 1
  {
    if cs != [] {
      assert cs == [cs[0]] + cs[1..];
      OnceInDistinct(cs[1..], x, norm);
      if x == cs[0] { assert x !in cs[1..]; }
    }
  }

  lemma GroupedKeyOccurs(input: seq<Candidate>, traits: string -> Traits, norm: string -> string, i: nat)
    requires i < |Group(input, By(norm), traits)|
    ensures HasKey(input, norm, Group(input, By(norm), traits)[i].key)
  {
    var m := Group(input, By(norm), traits);
    GroupKeys(input, By(norm), traits);
    assert Keys(m)[i] == m[i].key && m[i].key in Keys(m);
    var j :| 0 <= j < |input| && By(norm)(input[j]) == m[i].key;
    assert KeyOf(input[j], norm) == m[i].key;
  }

  lemma OccurringKeyIsGrouped(input: seq<Candidate>, traits: string -> Traits, norm: string -> string, j: nat)
    requires j < |input|
    ensures exists i :: 0 <= i < |Group(input, By(norm), traits)| && Group(input, By(norm), traits)[i].key == KeyOf(input[j], norm)
  {
    var m := Group(input, By(norm), traits);
    GroupKeys(input, By(norm), traits);
    assert By(norm)(input[j]) == KeyOf(input[j], norm);
    assert KeyOf(input[j], norm) in Keys(m);
    var i :| 0 <= i < |Keys(m)| && Keys(m)[i] == KeyOf(input[j], norm);
    assert m[i].key == Keys(m)[i];
  }

  lemma GroupHasKey(input: seq<Candidate>, traits: string -> Traits, norm: string -> string, k: Key)
    ensures HasKey(Values(Group(input, By(norm), traits)), norm, k) <==> HasKey(input, norm, k)
  {
    var m := Group(input, By(norm), traits);
    var v := Values(m);
    GroupHolds(input, traits, norm);
    ValuesAt(m);
    if HasKey(v, norm, k) {
      var i :| 0 <= i < |v| && KeyOf(v[i], norm) == k;
      assert m[i].key == KeyOf(m[i].cand, norm);
      GroupedKeyOccurs(input, traits, norm, i);
    }
    if HasKey(input, norm, k) {
      var j :| 0 <= j < |input| && KeyOf(input[j], norm) == k;
      OccurringKeyIsGrouped(input, traits, norm, j);
      var i :| 0 <= i < |m| && m[i].key == k;
      assert m[i].key == KeyOf(v[i], norm);
    }
  }

  lemma GroupsAreDistinct(input: seq<Candidate>, traits: string -> Traits, norm: string -> string)
    ensures DistinctKeys(Values(Group(input, By(norm), traits)), norm)
  {
    var m := Group(input, By(norm), traits);
    GroupKeys(input, By(norm), traits);
    GroupHolds(input, traits, norm);
    ValuesAt(m);
    forall i, j | 0 <= i < j < |m| ensures KeyOf(m[i].cand, norm) != KeyOf(m[j].cand, norm) {
      assert Keys(m)[i] != Keys(m)[j];
    }
  }

  lemma ByConfidence(s: seq<Candidate>)
    ensures Sorted(s, MoreConfident) <==> forall i, j | 0 <= i < j < |s| :: s[i].confidence >= s[j].confidence
  {
    if Sorted(s, MoreConfident) {
      forall i, j | 0 <= i < j < |s| ensures s[i].confidence >= s[j].confidence { assert MoreConfident(s[i], s[j]); }
    }
  }

  /** One candidate per key, exactly the keys of the input, most confident first. */
  lemma DedupeIsCorrect(input: seq<Candidate>, traits: string -> Traits, norm: string -> string)
    ensures var out := DedupeBy(input, By(norm), traits);
      && DistinctKeys(out, norm) && (forall i, j | 0 <= i < j < |out| :: out[i].confidence >= out[j].confidence)
      && forall k :: HasKey(out, norm, k) <==> HasKey(input, norm, k)
  {
    var v := Values(Group(input, By(norm), traits));
    GroupsAreDistinct(input, traits, norm);
    SortKeepsDistinct(v, norm);
    SortSorts(v, MoreConfident);
    SortMembers(v, MoreConfident);
    ByConfidence(Sort(v, MoreConfident));
    forall k ensures HasKey(Sort(v, MoreConfident), norm, k) <==> HasKey(input, norm, k) {
      SameKeys(v, Sort(v, MoreConfident), norm, k);
      GroupHasKey(input, traits, norm, k);
    }
  }

  lemma SameKeys(a: seq<Candidate>, b: seq<Candidate>, norm: string -> string, k: Key)
    requires forall x :: x in a <==> x in b
    ensures HasKey(a, norm, k) <==> HasKey(b, norm, k)
  {
    if HasKey(a, norm, k) {
      var i :| 0 <= i < |a| && KeyOf(a[i], norm) == k;
      assert a[i] in b;
      var j :| 0 <= j < |b| && b[j] == a[i];
    }
    if HasKey(b, norm, k) {
      var i :| 0 <= i < |b| && KeyOf(b[i], norm) == k;
      assert b[i] in a;
      var j :| 0 <= j < |a| && a[j] == b[i];
    }
  }

  /** Candidates with distinct keys are each a group of their own. */
  lemma {:induction false} GroupDistinct(cs: seq<Candidate>, traits: string -> Traits, norm: string -> string)
    requires DistinctKeys(cs, norm)
    ensures var m := Group(cs, By(norm), traits);
      |m| == |cs| && forall i | 0 <= i < |cs| :: m[i] == Slot(KeyOf(cs[i], norm), cs[i])
  {
    if cs != [] {
      var n := |cs| - 1;
      GroupDistinct(cs[..n], traits, norm);
      PutNew(Group(cs[..n], By(norm), traits), KeyOf(cs[n], norm), cs[n], traits);
    }
  }

  lemma {:induction false} PutNew<K>(m: seq<Slot<K>>, k: K, c: Candidate, traits: string -> Traits)
    requires forall i | 0 <= i < |m| :: m[i].key != k
    ensures Put(m, k, c, traits) == m + [Slot(k, c)]
  {
    if m != [] {
      PutNew(m[1..], k, c, traits);
      assert m == [m[0]] + m[1..];
    }
  }

  /** Deduplicating twice is deduplicating once. */
  lemma DedupeIsIdempotent(input: seq<Candidate>, traits: string -> Traits, norm: string -> string)
    ensures var out := DedupeBy(input, By(norm), traits); DedupeBy(out, By(norm), traits) == out
  {
    var out := DedupeBy(input, By(norm), traits);
    DedupeIsCorrect(input, traits, norm);
    GroupDistinct(out, traits, norm);
    ValuesAt(Group(out, By(norm), traits));
    assert Values(Group(out, By(norm), traits)) == out;
    ByConfidence(out);
    SortFixed(out, MoreConfident);
  }

  // ----- the text key -----

  /** The keys of the input under any text made from them. */
  function Texts(input: seq<Candidate>, norm: string -> string, text: Key -> string): set<string> {
    set c | c in input :: text(KeyOf(c, norm))
  }

  function TupleKeys(input: seq<Candidate>, norm: string -> string): set<Key> {
    set c | c in input :: KeyOf(c, norm)
  }

  function ByText(norm: string -> string, text: Key -> string): Candidate -> string {
    c => text(KeyOf(c, norm))
  }

  predicate Faithful(keys: set<Key>, text: Key -> string) {
    forall k, l | k in keys && l in keys && text(k) == text(l) :: k == l
  }

  lemma {:induction false} DistinctSize<K>(s: seq<K>)
    requires DistinctSeq(s)
    ensures |set x | x in s| == |s|
  {
    if s != [] {
      var n := |s| - 1;
      DistinctSize(s[..n]);
      assert (set x | x in s) == (set x | x in s[..n]) + {s[n]} by { assert s == s[..n] + [s[n]]; }
      assert s[n] !in s[..n];
    } else {
      assert (set x | x in s) == {};
    }
  }

  /** Under any key there is one result per key that occurs. */
  lemma OnePerKey<K>(input: seq<Candidate>, key: Candidate -> K, traits: string -> Traits, keys: set<K>)
    requires forall k :: k in keys <==> Occurs(input, key, k)
    ensures |DedupeBy(input, key, traits)| == |keys|
  {
    var m := Group(input, key, traits);
    GroupKeys(input, key, traits);
    ValuesAt(m);
    SortMembers(Values(m), MoreConfident);
    DistinctSize(Keys(m));
    assert (set x | x in Keys(m)) == keys;
  }

  lemma TextsOccur(input: seq<Candidate>, norm: string -> string, text: Key -> string, t: string)
    ensures t in Texts(input, norm, text) <==> Occurs(input, ByText(norm, text), t)
  {
    if t in Texts(input, norm, text) {
      var c :| c in input && text(KeyOf(c, norm)) == t;
      var i :| 0 <= i < |input| && input[i] == c;
      assert ByText(norm, text)(input[i]) == t;
    }
    if Occurs(input, ByText(norm, text), t) {
      var i :| 0 <= i < |input| && ByText(norm, text)(input[i]) == t;
      assert input[i] in input;
    }
  }

  lemma KeysOccur(input: seq<Candidate>, norm: string -> string, k: Key)
    ensures k in TupleKeys(input, norm) <==> Occurs(input, By(norm), k)
  {
    if k in TupleKeys(input, norm) {
      var c :| c in input && KeyOf(c, norm) == k;
      var i :| 0 <= i < |input| && input[i] == c;
      assert By(norm)(input[i]) == k;
    }
    if Occurs(input, By(norm), k) {
      var i :| 0 <= i < |input| && By(norm)(input[i]) == k;
      assert input[i] in input;
    }
  }

  /** One result per distinct text, and under the tuple key one per resource. */
  lemma Sizes(input: seq<Candidate>, traits: string -> Traits, norm: string -> string, text: Key -> string)
    ensures |DedupeBy(input, ByText(norm, text), traits)| == |Texts(input, norm, text)|
    ensures |DedupeBy(input, By(norm), traits)| == |TupleKeys(input, norm)|
  {
    forall t ensures t in Texts(input, norm, text) <==> Occurs(input, ByText(norm, text), t) { TextsOccur(input, norm, text, t); }
    OnePerKey(input, ByText(norm, text), traits, Texts(input, norm, text));
    forall k ensures k in TupleKeys(input, norm) <==> Occurs(input, By(norm), k) { KeysOccur(input, norm, k); }
    OnePerKey(input, By(norm), traits, TupleKeys(input, norm));
  }

  lemma {:induction false} ImageSizes(keys: set<Key>, text: Key -> string)
    ensures |set k | k in keys :: text(k)| <= |keys|
    ensures |set k | k in keys :: text(k)| == |keys| <==> Faithful(keys, text)
    decreases |keys|
  {
    var image := set k | k in keys :: text(k);
    if keys == {} {
      assert image == {};
    } else {
      var x := Pick(keys);
      var rest := keys - {x};
      var restImage := set k | k in rest :: text(k);
      ImageSizes(rest, text);
      assert image == restImage + {text(x)};
      if text(x) in restImage {
        var y :| y in rest && text(y) == text(x);
        assert !Faithful(keys, text);
      } else {
        assert Faithful(rest, text) ==> Faithful(keys, text);
      }
    }
  }

  lemma TextsOfKeys(input: seq<Candidate>, norm: string -> string, text: Key -> string)
    ensures Texts(input, norm, text) == set k | k in TupleKeys(input, norm) :: text(k)
  {
    var keys := TupleKeys(input, norm);
    var image := set k | k in keys :: text(k);
    forall t ensures t in Texts(input, norm, text) <==> t in image {
      if t in Texts(input, norm, text) {
        var c :| c in input && text(KeyOf(c, norm)) == t;
        assert KeyOf(c, norm) in keys;
      }
      if t in image {
        var k :| k in keys && text(k) == t;
        var c :| c in input && KeyOf(c, norm) == k;
        assert t in Texts(input, norm, text);
      }
    }
  }

  /** The same candidates under a key and under its text. */
  predicate Aligned(m: seq<Slot<string>>, n: seq<Slot<Key>>, text: Key -> string) {
    |m| == |n| && forall i | 0 <= i < |m| :: m[i].cand == n[i].cand && m[i].key == text(n[i].key)
  }

  lemma AlignedCons(x: Slot<string>, y: Slot<Key>, m: seq<Slot<string>>, n: seq<Slot<Key>>, text: Key -> string)
    requires Aligned(m, n, text) && x.cand == y.cand && x.key == text(y.key)
    ensures Aligned([x] + m, [y] + n, text)
  {
  }

  lemma {:induction false} PutAligned(m: seq<Slot<string>>, n: seq<Slot<Key>>, k: Key, c: Candidate, traits: string -> Traits, text: Key -> string)
    requires Aligned(m, n, text) && forall i | 0 <= i < |n| && text(n[i].key) == text(k) :: n[i].key == k
    ensures Aligned(Put(m, text(k), c, traits), Put(n, k, c, traits), text)
  {
    if m != [] {
      assert m[0].cand == n[0].cand && m[0].key == text(n[0].key);
      if m[0].key != text(k) {
        PutAligned(m[1..], n[1..], k, c, traits, text);
        AlignedCons(m[0], n[0], Put(m[1..], text(k), c, traits), Put(n[1..], k, c, traits), text);
      } else {
        AlignedCons(Slot(text(k), Merge(m[0].cand, c, traits)), Slot(k, Merge(n[0].cand, c, traits)), m[1..], n[1..], text);
      }
    }
  }

  lemma GroupedKeysOccur(input: seq<Candidate>, traits: string -> Traits, norm: string -> string, i: nat)
    requires i < |Group(input, By(norm), traits)|
    ensures Group(input, By(norm), traits)[i].key in TupleKeys(input, norm)
  {
    var m := Group(input, By(norm), traits);
    GroupKeys(input, By(norm), traits);
    assert Keys(m)[i] == m[i].key && Keys(m)[i] in Keys(m);
    KeysOccur(input, norm, m[i].key);
  }

  lemma {:induction false} GroupAligned(input: seq<Candidate>, traits: string -> Traits, norm: string -> string, text: Key -> string, keys: set<Key>)
    requires Faithful(keys, text) && forall c | c in input :: KeyOf(c, norm) in keys
    ensures Aligned(Group(input, ByText(norm, text), traits), Group(input, By(norm), traits), text)
  {
    if input != [] {
      var before, c := input[..|input| - 1], input[|input| - 1];
      GroupAligned(before, traits, norm, text, keys);
      var n := Group(before, By(norm), traits);
      forall i | 0 <= i < |n| ensures n[i].key in keys { GroupedKeysOccur(before, traits, norm, i); }
      PutAligned(Group(before, ByText(norm, text), traits), n, KeyOf(c, norm), c, traits, text);
    }
  }

  lemma AlignedValues(m: seq<Slot<string>>, n: seq<Slot<Key>>, text: Key -> string)
    requires Aligned(m, n, text)
    ensures Values(m) == Values(n)
  {
    ValuesAt(m);
    ValuesAt(n);
  }

  /** Deduplicating by a text of the key is deduplicating by the key exactly when the text tells the input's keys apart. */
  lemma TextDedupeExactly(input: seq<Candidate>, traits: string -> Traits, norm: string -> string, text: Key -> string)
    ensures DedupeBy(input, ByText(norm, text), traits) == DedupeBy(input, By(norm), traits) <==> Faithful(TupleKeys(input, norm), text)
  {
    if Faithful(TupleKeys(input, norm), text) {
      GroupAligned(input, traits, norm, text, TupleKeys(input, norm));
      AlignedValues(Group(input, ByText(norm, text), traits), Group(input, By(norm), traits), text);
    }
    Sizes(input, traits, norm, text);
    ImageSizes(TupleKeys(input, norm), text);
    TextsOfKeys(input, norm, text);
  }

  /** Then correctness carries over, and deduplicating twice is deduplicating once. */
  lemma TextDedupeIsCorrect(input: seq<Candidate>, traits: string -> Traits, norm: string -> string, text: Key -> string)
    requires Faithful(TupleKeys(input, norm), text)
    ensures var out := DedupeBy(input, ByText(norm, text), traits);
      && DistinctKeys(out, norm) && (forall k :: HasKey(out, norm, k) <==> HasKey(input, norm, k))
      && (forall i, j | 0 <= i < j < |out| :: out[i].confidence >= out[j].confidence) && DedupeBy(out, ByText(norm, text), traits) == out
  {
    var out := DedupeBy(input, By(norm), traits);
    TextDedupeExactly(input, traits, norm, text);
    DedupeIsCorrect(input, traits, norm);
    DedupeIsIdempotent(input, traits, norm);
    forall k | k in TupleKeys(out, norm) ensures k in TupleKeys(input, norm) {
      var c :| c in out && KeyOf(c, norm) == k;
      var i :| 0 <= i < |out| && out[i] == c;
      assert HasKey(out, norm, k);
      var j :| 0 <= j < |input| && KeyOf(input[j], norm) == k;
      assert input[j] in input;
    }
    TextDedupeExactly(out, traits, norm, text);
  }

  // ----- what deduplicating leaves alone -----

  function KeysBy<K>(cs: seq<Candidate>, key: Candidate -> K): (r: seq<K>)
    ensures |r| == |cs|
  {
    seq(|cs|, i requires 0 <= i < |cs| => key(cs[i]))
  }

  lemma KeysBySnoc<K>(before: seq<Candidate>, c: Candidate, key: Candidate -> K)
    requires DistinctSeq(KeysBy(before + [c], key))
    ensures DistinctSeq(KeysBy(before, key)) && forall i | 0 <= i < |before| :: key(before[i]) != key(c)
  {
    var ks := KeysBy(before + [c], key);
    forall i, j | 0 <= i < j < |before| ensures KeysBy(before, key)[i] != KeysBy(before, key)[j] { assert ks[i] != ks[j]; }
    forall i | 0 <= i < |before| ensures key(before[i]) != key(c) { assert ks[i] != ks[|before|]; }
  }

  lemma {:induction false} GroupAlone<K>(cs: seq<Candidate>, key: Candidate -> K, traits: string -> Traits)
    requires DistinctSeq(KeysBy(cs, key))
    ensures var m := Group(cs, key, traits);
      |m| == |cs| && forall i | 0 <= i < |cs| :: m[i] == Slot(key(cs[i]), cs[i])
  {
    if cs != [] {
      var before, c := cs[..|cs| - 1], cs[|cs| - 1];
      assert cs == before + [c];
      KeysBySnoc(before, c, key);
      GroupAlone(before, key, traits);
      PutNew(Group(before, key, traits), key(c), c, traits);
    }
  }

  /** A list comes back unchanged exactly when its keys are distinct and it is sorted by confidence. */
  lemma FixedExactly<K>(cs: seq<Candidate>, key: Candidate -> K, traits: string -> Traits)
    ensures DedupeBy(cs, key, traits) == cs <==> DistinctSeq(KeysBy(cs, key)) && Sorted(cs, MoreConfident)
  {
    if DistinctSeq(KeysBy(cs, key)) && Sorted(cs, MoreConfident) {
      GroupAlone(cs, key, traits);
      ValuesAt(Group(cs, key, traits));
      assert Values(Group(cs, key, traits)) == cs;
      SortFixed(cs, MoreConfident);
    }
    if DedupeBy(cs, key, traits) == cs {
      SortSorts(Values(Group(cs, key, traits)), MoreConfident);
      KeysAreAll(cs, key, traits);
    }
  }

  /** As many groups as candidates: every key occurs once. */
  lemma KeysAreAll<K>(cs: seq<Candidate>, key: Candidate -> K, traits: string -> Traits)
    requires |DedupeBy(cs, key, traits)| == |cs|
    ensures DistinctSeq(KeysBy(cs, key))
  {
    var ks := KeysBy(cs, key);
    var keys := set k | k in ks;
    forall k ensures k in keys <==> Occurs(cs, key, k) {
      if k in ks {
        var i :| 0 <= i < |ks| && ks[i] == k;
        assert key(cs[i]) == k;
      }
      if Occurs(cs, key, k) {
        var i :| 0 <= i < |cs| && key(cs[i]) == k;
        assert ks[i] == k;
      }
    }
    OnePerKey(cs, key, traits, keys);
    SizeDistinct(ks);
  }

  lemma {:induction false} SizeDistinct<K>(s: seq<K>)
    ensures |set x | x in s| <= |s|
    ensures |set x | x in s| == |s| ==> DistinctSeq(s)
  {
    if s == [] {
      assert (set x | x in s) == {};
    } else {
      var n := |s| - 1;
      SizeDistinct(s[..n]);
      assert (set x | x in s) == (set x | x in s[..n]) + {s[n]} by { assert s == s[..n] + [s[n]]; }
      if s[n] in s[..n] {
        assert (set x | x in s) == (set x | x in s[..n]);
      }
    }
  }

  // ----- what each result is made of -----

  /** The candidates of the key, in the order of the input. */
  function Those<K(==)>(input: seq<Candidate>, key: Candidate -> K, k: K): seq<Candidate> {
    if input == [] then [] else
      Those(input[..|input|-1], key, k) + if key(input[|input|-1]) == k then [input[|input|-1]] else []
  }

  /** One candidate after the other merged into the first. */
  function MergeAll(cs: seq<Candidate>, traits: string -> Traits): Candidate
    requires cs != []
  {
    if |cs| == 1 then cs[0] else Merge(MergeAll(cs[..|cs|-1], traits), cs[|cs|-1], traits)
  }

  function Lookup<K(==)>(m: seq<Slot<K>>, k: K): Option<Candidate> {
    if m == [] then None else if m[0].key == k then Some(m[0].cand) else Lookup(m[1..], k)
  }

  lemma {:induction false} PutLookup<K>(m: seq<Slot<K>>, k: K, c: Candidate, traits: string -> Traits, q: K)
    ensures Lookup(Put(m, k, c, traits), q) ==
      if q == k then Some(if Lookup(m, k).Some? then Merge(Lookup(m, k).value, c, traits) else c) else Lookup(m, q)
  {
    if m != [] {
      if m[0].key == k {
        assert ([Slot(k, Merge(m[0].cand, c, traits))] + m[1..])[1..] == m[1..];
      } else {
        PutLookup(m[1..], k, c, traits, q);
        assert ([m[0]] + Put(m[1..], k, c, traits))[1..] == Put(m[1..], k, c, traits);
      }
    }
  }

  function Merged(cs: seq<Candidate>, traits: string -> Traits): Option<Candidate> {
    if cs == [] then None else Some(MergeAll(cs, traits))
  }

  lemma MergedSnoc(cs: seq<Candidate>, c: Candidate, traits: string -> Traits)
    ensures Merged(cs + [c], traits) == Some(if cs == [] then c else Merge(MergeAll(cs, traits), c, traits))
  {
    assert (cs + [c])[..|cs|] == cs;
  }

  lemma {:induction false} GroupLookup<K>(input: seq<Candidate>, key: Candidate -> K, traits: string -> Traits, q: K)
    ensures Lookup(Group(input, key, traits), q) == Merged(Those(input, key, q), traits)
  {
    if input != [] {
      var before, c := input[..|input| - 1], input[|input| - 1];
      GroupLookup(before, key, traits, q);
      PutLookup(Group(before, key, traits), key(c), c, traits, q);
      if key(c) == q {
        MergedSnoc(Those(before, key, q), c, traits);
      } else {
        assert Those(input, key, q) == Those(before, key, q);
      }
    }
  }

  lemma {:induction false} LookupSlot<K>(m: seq<Slot<K>>, i: nat)
    requires DistinctSeq(Keys(m)) && i < |m|
    ensures Lookup(m, m[i].key) == Some(m[i].cand)
  {
    if i > 0 {
      assert Keys(m)[0] != Keys(m)[i];
      forall a, b | 0 <= a < b < |m| - 1 ensures Keys(m[1..])[a] != Keys(m[1..])[b] { assert Keys(m)[a + 1] != Keys(m)[b + 1]; }
      LookupSlot(m[1..], i - 1);
    }
  }

  lemma GroupSlot<K>(input: seq<Candidate>, key: Candidate -> K, traits: string -> Traits, i: nat)
    requires i < |Group(input, key, traits)|
    ensures var x := Group(input, key, traits)[i]; Occurs(input, key, x.key) && Merged(Those(input, key, x.key), traits) == Some(x.cand)
  {
    var m := Group(input, key, traits);
    GroupKeys(input, key, traits);
    assert Keys(m)[i] == m[i].key && Keys(m)[i] in Keys(m);
    LookupSlot(m, i);
    GroupLookup(input, key, traits, m[i].key);
  }

  /** Some candidate of the input has a key whose candidates, merged in their order, give `x`. */
  ghost predicate MergedFrom<K(!new)>(x: Candidate, input: seq<Candidate>, key: Candidate -> K, traits: string -> Traits) {
    exists k :: Occurs(input, key, k) && Merged(Those(input, key, k), traits) == Some(x)
  }

  /** The results are exactly the merges, in the order of the input, of the candidates of each key. */
  lemma ResultsAreMerges<K(!new)>(input: seq<Candidate>, key: Candidate -> K, traits: string -> Traits, x: Candidate)
    ensures x in DedupeBy(input, key, traits) <==> MergedFrom(x, input, key, traits)
  {
    var m := Group(input, key, traits);
    SortMembers(Values(m), MoreConfident);
    ValuesAt(m);
    if x in Values(m) {
      var i :| 0 <= i < |m| && Values(m)[i] == x;
      GroupSlot(input, key, traits, i);
    }
    if MergedFrom(x, input, key, traits) {
      var k :| Occurs(input, key, k) && Merged(Those(input, key, k), traits) == Some(x);
      GroupKeys(input, key, traits);
      var i :| 0 <= i < |m| && Keys(m)[i] == k;
      GroupSlot(input, key, traits, i);
      assert Values(m)[i] == x;
    }
  }
}
