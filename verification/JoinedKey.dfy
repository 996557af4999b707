/**
 The text that deduplication uses as its key: the fields joined with bars. A field may hold a
 bar itself, so the text tells keys apart exactly as far as the pieces between the bars do.
 */
module JoinedKey {
  import opened Wrappers
  import opened Sorting
  import opened Evidence
  import opened Dedupe
  import opened Bars

  function Digits(n: nat): string {
    if n < 10 then ["0123456789"[n]] else Digits(n / 10) + ["0123456789"[n % 10]]
  }

  function NumberText(n: Option<nat>): string {
    if n.Some? then Digits(n.value) else ""
  }

  lemma {:induction false} DigitsPlain(n: nat)
    ensures Digits(n) != "" && '|' !in Digits(n)
  {
    if n >= 10 { DigitsPlain(n / 10); }
  }

  lemma {:induction false} DigitsInjective(m: nat, n: nat)
    requires Digits(m) == Digits(n)
    ensures m == n
  {
    var a, b := Digits(m), Digits(n);
    if m >= 10 { DigitsPlain(m / 10); }
    if n >= 10 { DigitsPlain(n / 10); }
    assert a[|a| - 1] == b[|b| - 1];
    assert a[..|a| - 1] == b[..|b| - 1];
    if m >= 10 && n >= 10 {
      assert a[..|a| - 1] == Digits(m / 10) && b[..|b| - 1] == Digits(n / 10);
      DigitsInjective(m / 10, n / 10);
    } else if m < 10 && n < 10 {
    } else {
      assert false;
    }
  }

  lemma NumbersPlain(m: Option<nat>, n: Option<nat>)
    ensures '|' !in NumberText(m)
    ensures NumberText(m) == NumberText(n) ==> m == n
  {
    if m.Some? { DigitsPlain(m.value); }
    if n.Some? { DigitsPlain(n.value); }
    if m.Some? && n.Some? && NumberText(m) == NumberText(n) { DigitsInjective(m.value, n.value); }
  }

  /** The eight fields as text, in the order they are joined. */
  function Fields(k: Key): (r: seq<string>)
    ensures |r| == 8
  {
    [k.url, k.page, k.file, NumberText(k.size), k.mime, k.media, NumberText(k.width), NumberText(k.height)]
  }

  function Joined(k: Key): string {
    Join(Fields(k))
  }

  /** Two keys have the same text exactly when their fields fall into the same pieces. */
  lemma JoinedExactly(k: Key, l: Key)
    ensures Joined(k) == Joined(l) <==> Pieces(Fields(k)) == Pieces(Fields(l))
  {
    JoinExactly(Fields(k), Fields(l));
  }

  // ----- keys without bars -----

  /** No field holds the separator. */
  predicate Plain(k: Key) {
    '|' !in k.url && '|' !in k.page && '|' !in k.file && '|' !in k.mime && '|' !in k.media
  }

  lemma PlainFields(k: Key)
    ensures Plain(k) <==> forall i | 0 <= i < 8 :: '|' !in Fields(k)[i]
  {
    NumbersPlain(k.size, None);
    NumbersPlain(k.width, None);
    NumbersPlain(k.height, None);
    if forall i | 0 <= i < 8 :: '|' !in Fields(k)[i] {
      assert '|' !in Fields(k)[0] && '|' !in Fields(k)[1] && '|' !in Fields(k)[2] && '|' !in Fields(k)[4] && '|' !in Fields(k)[5];
    }
  }

  lemma FieldsExact(k: Key, l: Key)
    requires Fields(k) == Fields(l)
    ensures k == l
  {
    var f, g := Fields(k), Fields(l);
    assert f[0] == g[0] && f[1] == g[1] && f[2] == g[2] && f[3] == g[3] && f[4] == g[4] && f[5] == g[5] && f[6] == g[6] && f[7] == g[7];
    NumbersPlain(k.size, l.size);
    NumbersPlain(k.width, l.width);
    NumbersPlain(k.height, l.height);
  }

  /** A key without bars shares its text with no other key, with bars or without. */
  lemma PlainIsUnique(k: Key, l: Key)
    requires Plain(k) && Joined(k) == Joined(l)
    ensures k == l
  {
    JoinedExactly(k, l);
    PlainFields(k);
    FewPieces(Fields(k));
    FewPieces(Fields(l));
    FieldsExact(k, l);
  }

  // ----- keys with bars -----

  lemma {:induction false} FindBar(f: string) returns (x: string, y: string)
    requires '|' in f
    ensures f == x + ("|" + y)
  {
    if f[0] == '|' {
      x, y := "", f[1..];
    } else {
      assert f == [f[0]] + f[1..];
      var u;
      u, y := FindBar(f[1..]);
      x := [f[0]] + u;
    }
  }

  /** Two keys with the same pieces in front and behind, whose two middle fields fall into the same pieces. */
  predicate Alike(f: seq<string>, g: seq<string>, i: nat) {
    && |f| == |g| == 8 && i < 7 && (forall j | 0 <= j < 8 && j != i && j != i + 1 :: f[j] == g[j])
    && Split(f[i]) + Split(f[i + 1]) == Split(g[i]) + Split(g[i + 1])
  }

  lemma {:induction false} PiecesConcat(a: seq<string>, b: seq<string>)
    ensures Pieces(a + b) == Pieces(a) + Pieces(b)
  {
    if a == [] {
      assert a + b == b;
    } else {
      PiecesConcat(a[1..], b);
      assert (a + b)[1..] == a[1..] + b && (a + b)[0] == a[0];
      Regroup(Split(a[0]), Pieces(a[1..]), Pieces(b), Pieces(a), Pieces(a[1..] + b));
    }
  }

  lemma PiecesPair(x: string, y: string)
    ensures Pieces([x, y]) == Split(x) + Split(y)
  {
    assert [x, y][1..] == [y] && [y][1..] == [];
    assert Pieces([y]) == Split(y) + [];
  }

  lemma AlikePieces(f: seq<string>, g: seq<string>, i: nat)
    requires Alike(f, g, i)
    ensures Pieces(f) == Pieces(g)
  {
    assert f[..i] == g[..i] && f[i + 2..] == g[i + 2..];
    assert f == f[..i] + ([f[i], f[i + 1]] + f[i + 2..]);
    assert g == g[..i] + ([g[i], g[i + 1]] + g[i + 2..]);
    PiecesConcat(f[..i], [f[i], f[i + 1]] + f[i + 2..]);
    PiecesConcat(g[..i], [g[i], g[i + 1]] + g[i + 2..]);
    PiecesConcat([f[i], f[i + 1]], f[i + 2..]);
    PiecesConcat([g[i], g[i + 1]], g[i + 2..]);
    PiecesPair(f[i], f[i + 1]);
    PiecesPair(g[i], g[i + 1]);
  }

  /** A bar can be moved over the boundary behind its field, */
  lemma MoveBack(x: string, y: string, z: string)
    ensures Split(x + ("|" + y)) + Split(z) == Split(x) + Split(y + ("|" + z))
  {
    SplitBar(x, y);
    SplitBar(y, z);
    Regroup(Split(x), Split(y), Split(z), Split(x + ("|" + y)), Split(y + ("|" + z)));
  }

  lemma Regroup(a: seq<string>, b: seq<string>, c: seq<string>, ab: seq<string>, bc: seq<string>)
    requires ab == a + b && bc == b + c
    ensures ab + c == a + bc
  {
  }

  /** or over the one before it. */
  lemma MoveForward(z: string, x: string, y: string)
    ensures Split(z) + Split(x + ("|" + y)) == Split(z + ("|" + x)) + Split(y)
  {
    MoveBack(z, x, y);
  }

  lemma AlikeJoined(k: Key, l: Key, i: nat)
    requires Alike(Fields(k), Fields(l), i)
    ensures Joined(k) == Joined(l)
  {
    AlikePieces(Fields(k), Fields(l), i);
    JoinedExactly(k, l);
  }

  lemma Longer(x: string, y: string)
    ensures x != x + ("|" + y) && y != x + ("|" + y)
  {
    assert |x + ("|" + y)| == |x| + 1 + |y|;
  }

  lemma UrlTwin(k: Key) returns (l: Key)
    requires '|' in k.url
    ensures l != k && Joined(k) == Joined(l)
  {
    var x, y := FindBar(k.url);
    MoveBack(x, y, k.page);
    Longer(x, y);
    l := k.(url := x, page := y + ("|" + k.page));
    AlikeJoined(k, l, 0);
  }

  lemma PageTwin(k: Key) returns (l: Key)
    requires '|' in k.page
    ensures l != k && Joined(k) == Joined(l)
  {
    var x, y := FindBar(k.page);
    MoveForward(k.url, x, y);
    Longer(x, y);
    l := k.(url := k.url + ("|" + x), page := y);
    AlikeJoined(k, l, 0);
  }

  lemma FileTwin(k: Key) returns (l: Key)
    requires '|' in k.file
    ensures l != k && Joined(k) == Joined(l)
  {
    var x, y := FindBar(k.file);
    MoveForward(k.page, x, y);
    Longer(x, y);
    l := k.(page := k.page + ("|" + x), file := y);
    AlikeJoined(k, l, 1);
  }

  lemma MimeTwin(k: Key) returns (l: Key)
    requires '|' in k.mime
    ensures l != k && Joined(k) == Joined(l)
  {
    var x, y := FindBar(k.mime);
    MoveBack(x, y, k.media);
    Longer(x, y);
    l := k.(mime := x, media := y + ("|" + k.media));
    AlikeJoined(k, l, 4);
  }

  lemma MediaTwin(k: Key) returns (l: Key)
    requires '|' in k.media
    ensures l != k && Joined(k) == Joined(l)
  {
    var x, y := FindBar(k.media);
    MoveForward(k.mime, x, y);
    Longer(x, y);
    l := k.(mime := k.mime + ("|" + x), media := y);
    AlikeJoined(k, l, 4);
  }

  /** A key with a bar in a field shares its text with a different key. */
  lemma BarredHasTwin(k: Key) returns (l: Key)
    requires !Plain(k)
    ensures l != k && Joined(k) == Joined(l)
  {
    if '|' in k.url { l := UrlTwin(k); }
    else if '|' in k.page { l := PageTwin(k); }
    else if '|' in k.file { l := FileTwin(k); }
    else if '|' in k.mime { l := MimeTwin(k); }
    else { l := MediaTwin(k); }
  }

  /** No other key has the text of `k`. */
  ghost predicate Unmistakable(k: Key) {
    forall l | Joined(l) == Joined(k) :: l == k
  }

  /** A key is told apart from all others by its text exactly when no field holds a bar. */
  lemma UnmistakableExactly(k: Key)
    ensures Unmistakable(k) <==> Plain(k)
  {
    if Plain(k) {
      forall l | Joined(l) == Joined(k) ensures l == k { PlainIsUnique(k, l); }
    } else {
      var l := BarredHasTwin(k);
    }
  }

  // ----- deduplicating by the joined text -----

  /** Different keys of the input fall into different pieces. */
  predicate PiecesDiffer(keys: set<Key>) {
    forall k, l | k in keys && l in keys && Pieces(Fields(k)) == Pieces(Fields(l)) :: k == l
  }

  lemma FaithfulExactly(keys: set<Key>)
    ensures Faithful(keys, Joined) <==> PiecesDiffer(keys)
  {
    forall k, l ensures Joined(k) == Joined(l) <==> Pieces(Fields(k)) == Pieces(Fields(l)) { JoinedExactly(k, l); }
  }

  /** It is enough that of any two different keys one has no bar. */
  lemma MostlyPlainIsFaithful(keys: set<Key>)
    requires forall k, l | k in keys && l in keys && k != l :: Plain(k) || Plain(l)
    ensures PiecesDiffer(keys)
  {
    forall k, l | k in keys && l in keys && Joined(k) == Joined(l) ensures k == l {
      if k != l {
        if Plain(k) { PlainIsUnique(k, l); } else { PlainIsUnique(l, k); }
      }
    }
    FaithfulExactly(keys);
  }

  /**
   `dedupeCandidates` treats its input as resources exactly when the keys of the input fall
   into different pieces; then its result has one candidate per resource and is left alone
   by a second pass.
   */
  lemma JoinedDedupeExactly(input: seq<Candidate>, traits: string -> Traits, norm: string -> string)
    ensures DedupeBy(input, ByText(norm, Joined), traits) == DedupeBy(input, By(norm), traits) <==> PiecesDiffer(TupleKeys(input, norm))
    ensures PiecesDiffer(TupleKeys(input, norm)) ==>
      var out := DedupeBy(input, ByText(norm, Joined), traits); DedupeBy(out, ByText(norm, Joined), traits) == out
  {
    TextDedupeExactly(input, traits, norm, Joined);
    FaithfulExactly(TupleKeys(input, norm));
    if PiecesDiffer(TupleKeys(input, norm)) { TextDedupeIsCorrect(input, traits, norm, Joined); }
  }

  // ----- when it goes wrong -----

  const BARE := Candidate("u", Absent, Absent, "page", "video", Absent, Absent, Absent, Absent, Absent, Absent, Absent, Absent,
                          Absent, Absent, Absent, Absent, map[], map[], map[], [], 0.0)

  /** Three records: a file name that ends in a bar, a page that begins with one, and both. */
  function Barred(): seq<Candidate> {
    [BARE.(filename := Val("x|")), BARE.(pageUrl := Val("|x")), BARE.(pageUrl := Val("|x"), filename := Val("x|"))]
  }

  function Same(url: string): string {
    url
  }

  lemma BarredKeys()
    ensures KeyOf(Barred()[0], Same) == Key("u", "", "x|", None, "", "video", None, None)
    ensures KeyOf(Barred()[1], Same) == Key("u", "|x", "", None, "", "video", None, None)
    ensures KeyOf(Barred()[2], Same) == Key("u", "|x", "x|", None, "", "video", None, None)
  {
  }

  lemma BarredTexts()
    ensures Joined(Key("u", "", "x|", None, "", "video", None, None)) == Joined(Key("u", "|x", "", None, "", "video", None, None))
    ensures Joined(Key("u", "|x", "x|", None, "", "video", None, None)) != Joined(Key("u", "|x", "", None, "", "video", None, None))
  {
  }

  /** Of three candidates the first two share a key. */
  lemma GroupThree(a: Candidate, b: Candidate, c: Candidate, key: Candidate -> string, traits: string -> Traits)
    requires key(a) == key(b) != key(c)
    ensures Group([a, b, c], key, traits) == [Slot(key(a), Merge(a, b, traits)), Slot(key(c), c)]
  {
    GroupTwo(a, b, key, traits);
    GroupSnoc([a, b], c, key, traits);
    assert [a, b] + [c] == [a, b, c];
    PutNew([Slot(key(a), Merge(a, b, traits))], key(c), c, traits);
  }

  lemma GroupTwo(a: Candidate, b: Candidate, key: Candidate -> string, traits: string -> Traits)
    requires key(a) == key(b)
    ensures Group([a, b], key, traits) == [Slot(key(a), Merge(a, b, traits))]
  {
    GroupSnoc([], a, key, traits);
    GroupSnoc([a], b, key, traits);
    assert [] + [a] == [a] && [a] + [b] == [a, b];
    PutHit(key(a), a, b, traits);
  }

  lemma PutHit(k: string, a: Candidate, b: Candidate, traits: string -> Traits)
    ensures Dedupe.Put([Slot(k, a)], k, b, traits) == [Slot(k, Merge(a, b, traits))]
  {
    assert [Slot(k, a)][1..] == [];
  }

  lemma GroupSnoc(before: seq<Candidate>, c: Candidate, key: Candidate -> string, traits: string -> Traits)
    ensures Group(before + [c], key, traits) == Dedupe.Put(Group(before, key, traits), key(c), c, traits)
  {
    assert (before + [c])[..|before|] == before;
  }

  lemma PairValues(x: Slot<string>, y: Slot<string>)
    ensures Values([x, y]) == [x.cand, y.cand]
  {
    ValuesAt([x, y]);
  }

  lemma MergedIsThird(traits: string -> Traits)
    ensures KeyOf(Merge(Barred()[0], Barred()[1], traits), Same) == KeyOf(Barred()[2], Same)
  {
  }

  /**
   The first two records have the same text and are merged into one that has the text of the
   third: the result holds that text twice, and a second pass merges it once more.
   */
  lemma SecondPassMerges(traits: string -> Traits)
    ensures var out := DedupeBy(Barred(), ByText(Same, Joined), traits);
      |out| == 2 && |DedupeBy(out, ByText(Same, Joined), traits)| == 1
  {
    var a, b, c := Barred()[0], Barred()[1], Barred()[2];
    var key := ByText(Same, Joined);
    BarredKeys();
    BarredTexts();
    GroupThree(a, b, c, key, traits);
    var m := Merge(a, b, traits);
    PairValues(Slot(key(a), m), Slot(key(c), c));
    var out := DedupeBy(Barred(), key, traits);
    SortMembers([m, c], MoreConfident);
    MergedIsThird(traits);
    OneText(out, m, c, key, traits);
  }

  lemma OneText(out: seq<Candidate>, m: Candidate, c: Candidate, key: Candidate -> string, traits: string -> Traits)
    requires |out| == 2 && (forall x :: x in out <==> x in [m, c]) && key(m) == key(c)
    ensures |DedupeBy(out, key, traits)| == 1
  {
    forall k ensures k in {key(c)} <==> Occurs(out, key, k) {
      assert out[0] in out;
      assert key(out[0]) == key(c);
      if i :| 0 <= i < |out| && key(out[i]) == k {
        assert out[i] in out;
      }
    }
    OnePerKey(out, key, traits, {key(c)});
  }
}
