/** Texts joined with bars, and the pieces between the bars. */
module Bars {
  /** `join('|')`. */
  function Join(fs: seq<string>): string
    requires fs != []
  {
    if |fs| == 1 then fs[0] else fs[0] + ("|" + Join(fs[1..]))
  }

  function Split(s: string): (r: seq<string>)
    ensures |r| >= 1
  {
    if s == "" then [""]
    else if s[0] == '|' then [""] + Split(s[1..])
    else Glue(s[0], Split(s[1..]))
  }

  /** A character in front of the first piece. */
  function Glue(c: char, r: seq<string>): (g: seq<string>)
    requires r != []
    ensures |g| == |r|
  {
    [[c] + r[0]] + r[1..]
  }

  lemma GlueConcat(c: char, x: seq<string>, y: seq<string>)
    requires x != []
    ensures Glue(c, x + y) == Glue(c, x) + y
  {
    assert (x + y)[0] == x[0] && (x + y)[1..] == x[1..] + y;
  }

  lemma JoinGlue(c: char, r: seq<string>)
    requires r != []
    ensures Join(Glue(c, r)) == [c] + Join(r)
  {
    assert Glue(c, r)[1..] == r[1..];
    if |r| > 1 {
      var t := "|" + Join(r[1..]);
      assert ([c] + r[0]) + t == [c] + (r[0] + t);
    }
  }

  function Pieces(fs: seq<string>): (r: seq<string>)
    ensures |r| >= |fs|
  {
    if fs == [] then [] else Split(fs[0]) + Pieces(fs[1..])
  }

  lemma {:induction false} SplitBar(a: string, b: string)
    ensures Split(a + ("|" + b)) == Split(a) + Split(b)
  {
    var s := a + ("|" + b);
    if a == "" {
      assert s == "|" + b && s[1..] == b;
    } else {
      var t := a[1..] + ("|" + b);
      SplitBar(a[1..], b);
      assert s == [a[0]] + t && s[1..] == t;
      if a[0] == '|' {
        assert [""] + (Split(a[1..]) + Split(b)) == ([""] + Split(a[1..])) + Split(b);
      } else {
        GlueConcat(a[0], Split(a[1..]), Split(b));
      }
    }
  }

  lemma {:induction false} SplitJoin(fs: seq<string>)
    requires fs != []
    ensures Split(Join(fs)) == Pieces(fs)
  {
    if |fs| == 1 {
      assert fs[1..] == [] && Pieces(fs) == Split(fs[0]) + [];
    } else {
      SplitJoin(fs[1..]);
      SplitBar(fs[0], Join(fs[1..]));
    }
  }

  lemma {:induction false} JoinSplit(s: string)
    ensures Join(Split(s)) == s
  {
    if s != "" {
      var rest := Split(s[1..]);
      JoinSplit(s[1..]);
      assert s == [s[0]] + s[1..];
      if s[0] == '|' {
        assert ([""] + rest)[1..] == rest;
      } else {
        JoinGlue(s[0], rest);
      }
    }
  }

  lemma {:induction false} PlainSplit(s: string)
    ensures '|' !in s <==> |Split(s)| == 1
    ensures |Split(s)| == 1 ==> Split(s) == [s]
  {
    if s != "" {
      PlainSplit(s[1..]);
      assert s == [s[0]] + s[1..];
    }
  }

  /** As many pieces as fields: no field holds a bar, and the pieces are the fields. */
  lemma {:induction false} FewPieces(fs: seq<string>)
    ensures |Pieces(fs)| == |fs| <==> forall i | 0 <= i < |fs| :: '|' !in fs[i]
    ensures |Pieces(fs)| == |fs| ==> Pieces(fs) == fs
  {
    if fs != [] {
      FewPieces(fs[1..]);
      PlainSplit(fs[0]);
      assert forall i | 0 < i < |fs| :: fs[i] == fs[1..][i - 1];
      assert fs == [fs[0]] + fs[1..];
      if forall i | 0 <= i < |fs| :: '|' !in fs[i] {
        assert '|' !in fs[0];
        forall i | 0 <= i < |fs[1..]| ensures '|' !in fs[1..][i] { assert fs[1..][i] == fs[i + 1]; }
      }
    }
  }

  /** Two lists of fields have the same text exactly when they fall into the same pieces. */
  lemma JoinExactly(fs: seq<string>, gs: seq<string>)
    requires fs != [] && gs != []
    ensures Join(fs) == Join(gs) <==> Pieces(fs) == Pieces(gs)
  {
    SplitJoin(fs);
    SplitJoin(gs);
    JoinSplit(Join(fs));
    JoinSplit(Join(gs));
  }

  /** Fields without bars are told by their text from any other fields of the same number. */
  lemma PlainJoinExactly(fs: seq<string>, gs: seq<string>)
    requires |fs| == |gs| > 0 && forall i | 0 <= i < |fs| :: '|' !in fs[i]
    ensures Join(fs) == Join(gs) <==> fs == gs
  {
    JoinExactly(fs, gs);
    FewPieces(fs);
    FewPieces(gs);
  }
}
