/** The canonical serialisation of JSON values: keys sorted, undefined properties left out. */
module CanonicalText {
  import opened Wrappers
  import opened Sorting

  predicate NumChar(c: char) {
    '0' <= c <= '9' || c == '+' || c == '-' || c == '.' || c == 'e'
  }

  /** A finite number is given by its text, which JavaScript makes different for different numbers. */
  type Numeral = t: string | t != "" && forall i | 0 <= i < |t| :: NumChar(t[i]) witness "0"

  datatype Json =
    | Null
    | Bool(b: bool)
    | Num(text: Numeral)
    | Str(s: string)
    | Arr(items: seq<Json>)
    | Obj(fields: seq<Property>)
    | Undefined

  datatype Property = Property(key: string, value: Json)

  // ----- strings -----

  function Hex(n: int): char
    requires 0 <= n < 16
  {
    "0123456789abcdef"[n]
  }

  /** How `JSON.stringify` writes one character of a string. */
  function Escape(c: char): (r: string)
    ensures |r| >= 1 && r[0] != '"'
  {
    var n := c as int;
    if c == '"' then "\\\""
    else if c == '\\' then "\\\\"
    else if n == 8 then "\\b"
    else if n == 9 then "\\t"
    else if n == 10 then "\\n"
    else if n == 12 then "\\f"
    else if n == 13 then "\\r"
    else if n < 32 then "\\u00" + [Hex(n / 16), Hex(n % 16)]
    else [c]
  }

  function Escaped(s: string): string {
    if s == "" then "" else Escape(s[0]) + Escaped(s[1..])
  }

  function Quote(s: string): string {
    "\"" + Escaped(s) + "\""
  }

  lemma HexInjective(m: int, n: int)
    requires 0 <= m < 16 && 0 <= n < 16 && Hex(m) == Hex(n)
    ensures m == n
  {
  }

  /** The character escapes are a prefix code. */
  lemma EscapeInjective(c: char, d: char, x: string, y: string)
    requires Escape(c) + x == Escape(d) + y
    ensures c == d && x == y
  {
    var a, b := Escape(c), Escape(d);
    assert (a + x)[0] == a[0] && (b + y)[0] == b[0];
    if a[0] == '\\' {
      assert (a + x)[1] == a[1] && (b + y)[1] == b[1];
      if a[1] == 'u' {
        assert (a + x)[4] == a[4] && (b + y)[4] == b[4] && (a + x)[5] == a[5] && (b + y)[5] == b[5];
        HexInjective(c as int / 16, d as int / 16);
        HexInjective(c as int % 16, d as int % 16);
      }
    }
    assert c == d;
    assert (a + x)[|a|..] == x && (b + y)[|b|..] == y;
  }

  lemma Regroup(a: string, b: string, c: string)
    ensures (a + b) + c == a + (b + c)
  {
  }

  /** The closing quote is not the start of an escape. */
  lemma QuoteEnds(t: string, x: string, z: string)
    requires t != ""
    ensures "\"" + x != Escaped(t) + z
  {
    assert (Escaped(t) + z)[0] == Escape(t[0])[0];
  }

  lemma {:induction false} EscapedInjective(s: string, t: string, x: string, y: string)
    requires Escaped(s) + ("\"" + x) == Escaped(t) + ("\"" + y)
    ensures s == t && x == y
  {
    var p, q := "\"" + x, "\"" + y;
    assert p[1..] == x && q[1..] == y;
    if s == "" && t == "" {
      assert Escaped(s) + p == p && Escaped(t) + q == q;
    } else if s == "" {
      assert Escaped(s) + p == p;
      QuoteEnds(t, x, q);
    } else if t == "" {
      assert Escaped(t) + q == q;
      QuoteEnds(s, y, p);
    } else {
      Regroup(Escape(s[0]), Escaped(s[1..]), p);
      Regroup(Escape(t[0]), Escaped(t[1..]), q);
      EscapeInjective(s[0], t[0], Escaped(s[1..]) + p, Escaped(t[1..]) + q);
      EscapedInjective(s[1..], t[1..], x, y);
      assert s == [s[0]] + s[1..] && t == [t[0]] + t[1..];
    }
  }

  lemma QuoteInjective(s: string, t: string, x: string, y: string)
    requires Quote(s) + x == Quote(t) + y
    ensures s == t && x == y
  {
    var e, f := Escaped(s), Escaped(t);
    assert Quote(s) + x == "\"" + (e + ("\"" + x));
    assert Quote(t) + y == "\"" + (f + ("\"" + y));
    assert ("\"" + (e + ("\"" + x)))[1..] == e + ("\"" + x);
    assert ("\"" + (f + ("\"" + y)))[1..] == f + ("\"" + y);
    EscapedInjective(s, t, x, y);
  }

  // ----- the serialiser -----

  /** The order of `Array.prototype.sort` on keys. */
  predicate Leq(a: string, b: string) {
    if a == "" then true
    else if b == "" then false
    else a[0] < b[0] || (a[0] == b[0] && Leq(a[1..], b[1..]))
  }

  /** A property with its value already written. */
  datatype Entry = Entry(key: string, text: string)

  predicate ByKey(a: Entry, b: Entry) {
    Leq(a.key, b.key)
  }

  function Stringify(v: Json): string
    decreases v
  {
    match v
    case Null => "null"
    case Bool(b) => if b then "true" else "false"
    case Num(t) => t
    case Str(s) => Quote(s)
    case Arr(items) => Bracketed('[', Texts(items), ']')
    case Obj(fields) => Bracketed('{', Written(Sort(Entries(fields), ByKey)), '}')
    case Undefined => ""
  }

  function Texts(items: seq<Json>): (r: seq<string>)
    ensures |r| == |items|
    decreases items
  {
    if items == [] then [] else [Stringify(items[0])] + Texts(items[1..])
  }

  /** The defined properties, in the order of the object. */
  function Entries(fields: seq<Property>): seq<Entry>
    decreases fields
  {
    if fields == [] then [] else
      (if fields[0].value.Undefined? then [] else [Entry(fields[0].key, Stringify(fields[0].value))]) + Entries(fields[1..])
  }

  function Pair(e: Entry): string {
    Quote(e.key) + (":" + e.text)
  }

  function Written(es: seq<Entry>): seq<string> {
    if es == [] then [] else [Pair(es[0])] + Written(es[1..])
  }

  /** `join(',')`. */
  function Comma(parts: seq<string>): string {
    if parts == [] then "" else parts[0] + Tail(parts[1..])
  }

  function Tail(parts: seq<string>): string {
    if parts == [] then "" else "," + (parts[0] + Tail(parts[1..]))
  }

  /** A list between brackets. */
  function Bracketed(open: char, parts: seq<string>, close: char): string {
    [open] + Comma(parts) + [close]
  }

  // ----- which values are equal -----

  predicate DistinctKeys(fields: seq<Property>) {
    forall i, j | 0 <= i < j < |fields| :: fields[i].key != fields[j].key
  }

  /** No undefined outside objects, and each key once. */
  predicate WellFormed(v: Json)
    decreases v
  {
    match v
    case Arr(items) => forall i | 0 <= i < |items| :: WellFormed(items[i])
    case Obj(fields) =>
      && DistinctKeys(fields)
      && (forall i | 0 <= i < |fields| :: fields[i].value.Undefined? || WellFormed(fields[i].value))
    case Undefined => false
    case _ => true
  }

  /** Equal up to the order of keys and undefined properties. */
  ghost predicate Same(v: Json, w: Json)
    decreases v
  {
    match v
    case Arr(a) => w.Arr? && |a| == |w.items| && forall i | 0 <= i < |a| :: Same(a[i], w.items[i])
    case Obj(a) =>
      && w.Obj?
      && (forall i | 0 <= i < |a| && !a[i].value.Undefined? :: Matched(a[i], w.fields))
      && (forall j | 0 <= j < |w.fields| && !w.fields[j].value.Undefined? :: HasKey(w.fields[j].key, a))
    case _ => v == w
  }

  ghost predicate Matched(p: Property, others: seq<Property>)
    decreases p
  {
    exists j :: 0 <= j < |others| && others[j].key == p.key && !others[j].value.Undefined? && Same(p.value, others[j].value)
  }

  ghost predicate HasKey(key: string, fields: seq<Property>) {
    exists i :: 0 <= i < |fields| && fields[i].key == key && !fields[i].value.Undefined?
  }

  // ----- written values form a prefix code -----

  /** What can follow a value: nothing, or the end of an item, an array or an object. */
  predicate Delimited(x: string) {
    x == "" || x[0] == ',' || x[0] == ']' || x[0] == '}'
  }

  /** Where both are followed by a delimiter, the two texts do not start alike unless they are equal. */
  ghost predicate Apart(a: string, b: string) {
    forall x, y | Delimited(x) && Delimited(y) && a + x == b + y :: a == b && x == y
  }

  ghost predicate AllApart(a: seq<string>, b: seq<string>) {
    forall i, j | 0 <= i < |a| && 0 <= j < |b| :: Apart(a[i], b[j])
  }

  lemma HeadsDiffer(a: string, b: string)
    requires a != "" && b != "" && a[0] != b[0]
    ensures Apart(a, b)
  {
    forall x: string, y: string ensures a + x != b + y {
      assert (a + x)[0] == a[0] && (b + y)[0] == b[0];
    }
  }

  lemma SameApart(a: string)
    ensures Apart(a, a)
  {
    forall x, y | Delimited(x) && Delimited(y) && a + x == a + y ensures x == y {
      assert (a + x)[|a|..] == x && (a + y)[|a|..] == y;
    }
  }

  lemma NumeralNotLonger(t: Numeral, u: Numeral, x: string, y: string)
    requires Delimited(x) && |t| < |u|
    ensures t + x != u + y
  {
    if x != "" {
      assert (t + x)[|t|] == x[0] && (u + y)[|t|] == u[|t|];
    }
  }

  lemma NumeralsApart(t: Numeral, u: Numeral)
    ensures Apart(t, u)
  {
    forall x, y | Delimited(x) && Delimited(y) && t + x == u + y ensures t == u && x == y {
      if |t| < |u| {
        NumeralNotLonger(t, u, x, y);
      } else if |u| < |t| {
        NumeralNotLonger(u, t, y, x);
      }
      assert (t + x)[..|t|] == t && (u + y)[..|t|] == u && (t + x)[|t|..] == x && (u + y)[|t|..] == y;
    }
  }

  lemma QuotesApart(s: string, t: string)
    ensures Apart(Quote(s), Quote(t))
  {
    forall x, y | Delimited(x) && Delimited(y) && Quote(s) + x == Quote(t) + y ensures s == t && x == y {
      QuoteInjective(s, t, x, y);
    }
  }

  /** `key:text` pairs are apart when their texts are. */
  lemma EntriesApart(e: Entry, f: Entry)
    requires Apart(e.text, f.text)
    ensures Apart(Pair(e), Pair(f))
  {
    forall x, y | Delimited(x) && Delimited(y) && Pair(e) + x == Pair(f) + y ensures Pair(e) == Pair(f) && x == y {
      PairInjective(e, f, x, y);
    }
  }

  lemma PairInjective(e: Entry, f: Entry, x: string, y: string)
    requires Apart(e.text, f.text) && Delimited(x) && Delimited(y) && Pair(e) + x == Pair(f) + y
    ensures e == f && x == y
  {
    Regroup(Quote(e.key), ":" + e.text, x);
    Regroup(Quote(f.key), ":" + f.text, y);
    Regroup(":", e.text, x);
    Regroup(":", f.text, y);
    QuoteInjective(e.key, f.key, ":" + (e.text + x), ":" + (f.text + y));
    assert (":" + (e.text + x))[1..] == e.text + x && (":" + (f.text + y))[1..] == f.text + y;
  }

  lemma TailDelimited(a: seq<string>, close: char, x: string)
    requires close == ']' || close == '}'
    ensures Delimited(Tail(a) + ([close] + x))
    ensures Tail(a) + ([close] + x) != ""
    ensures (Tail(a) + ([close] + x))[0] == (if a == [] then close else ',')
  {
  }

  /** A closed list of texts that are apart has one reading. */
  lemma {:induction false} TailInjective(a: seq<string>, b: seq<string>, close: char, x: string, y: string)
    requires close == ']' || close == '}'
    requires AllApart(a, b) && Tail(a) + ([close] + x) == Tail(b) + ([close] + y)
    ensures a == b && x == y
  {
    var p, q := [close] + x, [close] + y;
    TailDelimited(a, close, x);
    TailDelimited(b, close, y);
    if a == [] {
      assert Tail(a) + p == p && Tail(b) + q == q;
      assert p[1..] == x && q[1..] == y;
    } else {
      TailDelimited(a[1..], close, x);
      TailDelimited(b[1..], close, y);
      TailSplit(a, p);
      TailSplit(b, q);
      assert Apart(a[0], b[0]);
      assert forall i, j | 0 <= i < |a[1..]| && 0 <= j < |b[1..]| :: a[1..][i] == a[i + 1] && b[1..][j] == b[j + 1];
      TailInjective(a[1..], b[1..], close, x, y);
      assert a == [a[0]] + a[1..] && b == [b[0]] + b[1..];
    }
  }

  lemma TailSplit(a: seq<string>, p: string)
    requires a != []
    ensures (Tail(a) + p)[1..] == a[0] + (Tail(a[1..]) + p)
  {
    var t := Tail(a[1..]);
    assert Tail(a) == "," + (a[0] + t);
    assert (("," + (a[0] + t)) + p)[1..] == (a[0] + t) + p;
    Regroup(a[0], t, p);
  }

  lemma {:induction false} TextsAt(items: seq<Json>, i: nat)
    requires i < |items|
    ensures Texts(items)[i] == Stringify(items[i])
  {
    if i > 0 {
      TextsAt(items[1..], i - 1);
    }
  }

  lemma {:induction false} WrittenAt(es: seq<Entry>)
    ensures |Written(es)| == |es|
    ensures forall i | 0 <= i < |es| :: Written(es)[i] == Pair(es[i])
  {
    if es != [] {
      WrittenAt(es[1..]);
    }
  }

  ghost predicate Lists(fields: seq<Property>, e: Entry) {
    exists i :: 0 <= i < |fields| && Gives(fields[i], e)
  }

  predicate Gives(p: Property, e: Entry) {
    !p.value.Undefined? && e == Entry(p.key, Stringify(p.value))
  }

  /** The entries are exactly the defined properties. */
  lemma {:induction false} EntriesMembers(fields: seq<Property>, e: Entry)
    ensures e in Entries(fields) <==> Lists(fields, e)
  {
    if fields != [] {
      var rest := fields[1..];
      EntriesMembers(rest, e);
      assert fields == [fields[0]] + rest;
      if Lists(rest, e) {
        var i :| 0 <= i < |rest| && Gives(rest[i], e);
        assert Gives(fields[i + 1], e);
      }
      if Gives(fields[0], e) {
        assert Lists(fields, e);
      } else if Lists(fields, e) {
        var i :| 0 <= i < |fields| && Gives(fields[i], e);
        assert Gives(rest[i - 1], e);
      }
    }
  }

  lemma SortedEntriesMembers(fields: seq<Property>, e: Entry)
    ensures e in Sort(Entries(fields), ByKey) <==> Lists(fields, e)
  {
    SortMembers(Entries(fields), ByKey);
    EntriesMembers(fields, e);
  }

  lemma BracketSplit(open: char, parts: seq<string>, close: char, x: string)
    ensures parts == [] ==> (Bracketed(open, parts, close) + x)[1..] == [close] + x
    ensures parts != [] ==> (Bracketed(open, parts, close) + x)[1..] == parts[0] + (Tail(parts[1..]) + ([close] + x))
  {
    var c := Comma(parts);
    assert ([open] + c + [close] + x)[1..] == c + ([close] + x);
    if parts != [] {
      Regroup(parts[0], Tail(parts[1..]), [close] + x);
    }
  }

  /** No written part starts like the end of the list. */
  predicate Openers(parts: seq<string>) {
    forall i | 0 <= i < |parts| :: parts[i] != "" && parts[i][0] != ']' && parts[i][0] != '}'
  }

  lemma OpensDifferently(part: string, rest: string, p: string)
    requires part != "" && p != "" && part[0] != p[0]
    ensures part + rest != p
  {
    assert (part + rest)[0] == part[0];
  }

  lemma BracketedInjective(open: char, a: seq<string>, b: seq<string>, close: char, x: string, y: string)
    requires close == ']' || close == '}'
    requires AllApart(a, b) && Openers(a) && Openers(b)
    requires Bracketed(open, a, close) + x == Bracketed(open, b, close) + y
    ensures a == b && x == y
  {
    BracketSplit(open, a, close, x);
    BracketSplit(open, b, close, y);
    var p, q := [close] + x, [close] + y;
    if a == [] && b == [] {
      assert p[1..] == x && q[1..] == y;
    } else if a == [] {
      OpensDifferently(b[0], Tail(b[1..]) + q, p);
    } else if b == [] {
      OpensDifferently(a[0], Tail(a[1..]) + p, q);
    } else {
      TailDelimited(a[1..], close, x);
      TailDelimited(b[1..], close, y);
      assert Apart(a[0], b[0]);
      assert forall i, j | 0 <= i < |a[1..]| && 0 <= j < |b[1..]| :: a[1..][i] == a[i + 1] && b[1..][j] == b[j + 1];
      TailInjective(a[1..], b[1..], close, x, y);
      assert a == [a[0]] + a[1..] && b == [b[0]] + b[1..];
    }
  }

  lemma BracketedApart(open: char, a: seq<string>, b: seq<string>, close: char)
    requires close == ']' || close == '}'
    requires AllApart(a, b) && Openers(a) && Openers(b)
    ensures Apart(Bracketed(open, a, close), Bracketed(open, b, close))
  {
    forall x, y | Delimited(x) && Delimited(y) && Bracketed(open, a, close) + x == Bracketed(open, b, close) + y
      ensures a == b && x == y
    {
      BracketedInjective(open, a, b, close, x, y);
    }
  }

  /** The kind of a value shows in its first character. */
  function Kind(v: Json): int {
    match v
    case Null => 0
    case Bool(b) => if b then 1 else 2
    case Num(_) => 3
    case Str(_) => 4
    case Arr(_) => 5
    case Obj(_) => 6
    case Undefined => 7
  }

  function First(v: Json): char
    requires !v.Undefined?
  {
    match v
    case Null => 'n'
    case Bool(b) => if b then 't' else 'f'
    case Num(t) => t[0]
    case Str(_) => '"'
    case Arr(_) => '['
    case Obj(_) => '{'
  }

  lemma FirstChar(v: Json)
    requires !v.Undefined?
    ensures Stringify(v) != "" && Stringify(v)[0] == First(v)
  {
  }

  lemma KindsShow(v: Json, w: Json)
    requires !v.Undefined? && !w.Undefined? && Kind(v) != Kind(w)
    ensures First(v) != First(w)
  {
    assert v.Num? ==> NumChar(First(v));
    assert w.Num? ==> NumChar(First(w));
  }

  lemma KindsApart(v: Json, w: Json)
    requires !v.Undefined? && !w.Undefined? && Kind(v) != Kind(w)
    ensures Apart(Stringify(v), Stringify(w))
  {
    FirstChar(v);
    FirstChar(w);
    KindsShow(v, w);
    HeadsDiffer(Stringify(v), Stringify(w));
  }

  lemma TextsOpen(items: seq<Json>)
    requires WellFormed(Arr(items))
    ensures Openers(Texts(items))
  {
    forall i | 0 <= i < |items| ensures Texts(items)[i] != "" && Texts(items)[i][0] != ']' && Texts(items)[i][0] != '}' {
      TextsAt(items, i);
      FirstChar(items[i]);
    }
  }

  lemma WrittenOpen(es: seq<Entry>)
    ensures Openers(Written(es))
  {
    WrittenAt(es);
    forall i | 0 <= i < |es| ensures Pair(es[i])[0] == '"' {
    }
  }

  lemma {:induction false} ValuesApart(v: Json, w: Json)
    requires WellFormed(v) && WellFormed(w)
    ensures Apart(Stringify(v), Stringify(w))
    decreases v
  {
    if Kind(v) != Kind(w) {
      KindsApart(v, w);
    } else if v.Null? || v.Bool? {
      SameApart(Stringify(v));
    } else if v.Num? {
      NumeralsApart(v.text, w.text);
    } else if v.Str? {
      QuotesApart(v.s, w.s);
    } else if v.Arr? {
      ItemsApart(v.items, w.items);
      TextsOpen(v.items);
      TextsOpen(w.items);
      BracketedApart('[', Texts(v.items), Texts(w.items), ']');
    } else {
      var a, b := Sort(Entries(v.fields), ByKey), Sort(Entries(w.fields), ByKey);
      FieldsApart(v.fields, w.fields, a, b);
      WrittenOpen(a);
      WrittenOpen(b);
      BracketedApart('{', Written(a), Written(b), '}');
    }
  }

  lemma {:induction false} ItemsApart(a: seq<Json>, b: seq<Json>)
    requires WellFormed(Arr(a)) && WellFormed(Arr(b))
    ensures AllApart(Texts(a), Texts(b))
    decreases a
  {
    forall i, j | 0 <= i < |a| && 0 <= j < |b| ensures Apart(Texts(a)[i], Texts(b)[j]) {
      TextsAt(a, i);
      TextsAt(b, j);
      ValuesApart(a[i], b[j]);
    }
  }

  lemma {:induction false} FieldsApart(a: seq<Property>, b: seq<Property>, es: seq<Entry>, fs: seq<Entry>)
    requires WellFormed(Obj(a)) && WellFormed(Obj(b))
    requires es == Sort(Entries(a), ByKey) && fs == Sort(Entries(b), ByKey)
    ensures AllApart(Written(es), Written(fs))
    decreases a
  {
    WrittenAt(es);
    WrittenAt(fs);
    forall i, j | 0 <= i < |es| && 0 <= j < |fs| ensures Apart(Written(es)[i], Written(fs)[j]) {
      assert es[i] in es && fs[j] in fs;
      SortedEntriesMembers(a, es[i]);
      SortedEntriesMembers(b, fs[j]);
      var k :| 0 <= k < |a| && Gives(a[k], es[i]);
      var l :| 0 <= l < |b| && Gives(b[l], fs[j]);
      ValuesApart(a[k].value, b[l].value);
      EntriesApart(es[i], fs[j]);
    }
  }

  // ----- equal text is equal value -----

  lemma {:induction false} TextGivesSame(v: Json, w: Json)
    requires WellFormed(v) && WellFormed(w) && Stringify(v) == Stringify(w)
    ensures Same(v, w)
    decreases v
  {
    if Kind(v) != Kind(w) {
      FirstChar(v);
      FirstChar(w);
      KindsShow(v, w);
    } else if v.Str? {
      QuoteInjective(v.s, w.s, "", "");
    } else if v.Arr? {
      ItemsRead(v.items, w.items);
      forall i | 0 <= i < |v.items| ensures Same(v.items[i], w.items[i]) {
        TextsAt(v.items, i);
        TextsAt(w.items, i);
        TextGivesSame(v.items[i], w.items[i]);
      }
    } else if v.Obj? {
      FieldsRead(v.fields, w.fields);
      forall i | 0 <= i < |v.fields| && !v.fields[i].value.Undefined? ensures Matched(v.fields[i], w.fields) {
        var e := Entry(v.fields[i].key, Stringify(v.fields[i].value));
        assert Gives(v.fields[i], e);
        assert Lists(v.fields, e) && Lists(w.fields, e);
        var j :| 0 <= j < |w.fields| && Gives(w.fields[j], e);
        TextGivesSame(v.fields[i].value, w.fields[j].value);
      }
      forall j | 0 <= j < |w.fields| && !w.fields[j].value.Undefined? ensures HasKey(w.fields[j].key, v.fields) {
        var e := Entry(w.fields[j].key, Stringify(w.fields[j].value));
        assert Gives(w.fields[j], e);
        assert Lists(w.fields, e) && Lists(v.fields, e);
        var i :| 0 <= i < |v.fields| && Gives(v.fields[i], e);
      }
    }
  }

  lemma ItemsRead(a: seq<Json>, b: seq<Json>)
    requires WellFormed(Arr(a)) && WellFormed(Arr(b)) && Stringify(Arr(a)) == Stringify(Arr(b))
    ensures Texts(a) == Texts(b)
  {
    ItemsApart(a, b);
    TextsOpen(a);
    TextsOpen(b);
    BracketedInjective('[', Texts(a), Texts(b), ']', "", "");
  }

  lemma {:induction false} WrittenInjective(es: seq<Entry>, fs: seq<Entry>)
    requires Written(es) == Written(fs)
    ensures es == fs
  {
    WrittenAt(es);
    WrittenAt(fs);
    forall i | 0 <= i < |es| ensures es[i] == fs[i] {
      assert Pair(es[i]) == Pair(fs[i]);
      PairReads(es[i], fs[i]);
    }
  }

  lemma PairReads(e: Entry, f: Entry)
    requires Pair(e) == Pair(f)
    ensures e == f
  {
    QuoteInjective(e.key, f.key, ":" + e.text, ":" + f.text);
    assert (":" + e.text)[1..] == e.text && (":" + f.text)[1..] == f.text;
  }

  lemma FieldsRead(a: seq<Property>, b: seq<Property>)
    requires WellFormed(Obj(a)) && WellFormed(Obj(b)) && Stringify(Obj(a)) == Stringify(Obj(b))
    ensures forall e :: Lists(a, e) <==> Lists(b, e)
  {
    var es, fs := Sort(Entries(a), ByKey), Sort(Entries(b), ByKey);
    FieldsApart(a, b, es, fs);
    WrittenOpen(es);
    WrittenOpen(fs);
    BracketedInjective('{', Written(es), Written(fs), '}', "", "");
    WrittenInjective(es, fs);
    forall e ensures Lists(a, e) <==> Lists(b, e) {
      SortedEntriesMembers(a, e);
      SortedEntriesMembers(b, e);
    }
  }

  // ----- equal value is equal text -----

  lemma {:induction false} LeqTotal(a: string, b: string)
    ensures Leq(a, b) || Leq(b, a)
    ensures Leq(a, b) && Leq(b, a) ==> a == b
  {
    if a != "" && b != "" && a[0] == b[0] {
      LeqTotal(a[1..], b[1..]);
      assert a == [a[0]] + a[1..] && b == [b[0]] + b[1..];
    }
  }

  lemma {:induction false} LeqTransitive(a: string, b: string, c: string)
    requires Leq(a, b) && Leq(b, c)
    ensures Leq(a, c)
  {
    if a != "" && b != "" && c != "" && a[0] == b[0] == c[0] {
      LeqTransitive(a[1..], b[1..], c[1..]);
    }
  }

  lemma ByKeyTotal()
    ensures Total(ByKey)
  {
    forall x, y ensures ByKey(x, y) || ByKey(y, x) {
      LeqTotal(x.key, y.key);
    }
    forall x, y, z | ByKey(x, y) && ByKey(y, z) ensures ByKey(x, z) {
      LeqTransitive(x.key, y.key, z.key);
    }
  }

  /** With distinct keys, an entry determines its property, so it occurs once. */
  lemma {:induction false} EntriesOnce(fields: seq<Property>, e: Entry)
    requires DistinctKeys(fields)
    ensures multiset(Entries(fields))[e] == if Lists(fields, e) then 1 else 0
  {
    EntriesMembers(fields, e);
    if fields != [] {
      var rest := fields[1..];
      EntriesOnce(rest, e);
      forall i | 0 <= i < |rest| ensures rest[i].key != fields[0].key {
        assert rest[i] == fields[i + 1];
      }
      EntriesMembers(rest, e);
    }
  }

  /** The text of an object is a function of the properties it lists. */
  lemma FieldsWritten(a: seq<Property>, b: seq<Property>)
    requires DistinctKeys(a) && DistinctKeys(b)
    requires forall e :: Lists(a, e) <==> Lists(b, e)
    ensures Stringify(Obj(a)) == Stringify(Obj(b))
  {
    var es, fs := Entries(a), Entries(b);
    forall e ensures multiset(es)[e] == multiset(fs)[e] {
      EntriesOnce(a, e);
      EntriesOnce(b, e);
    }
    assert multiset(es) == multiset(fs);
    ByKeyTotal();
    SortSorts(es, ByKey);
    SortSorts(fs, ByKey);
    SortCounts(es, ByKey);
    SortCounts(fs, ByKey);
    EntriesUntied(a);
    SortedUnique(Sort(es, ByKey), Sort(fs, ByKey), ByKey);
  }

  lemma EntriesUntied(a: seq<Property>)
    requires DistinctKeys(a)
    ensures NoTies(Sort(Entries(a), ByKey), ByKey)
  {
    var s := Sort(Entries(a), ByKey);
    forall i, j | 0 <= i < |s| && 0 <= j < |s| && ByKey(s[i], s[j]) && ByKey(s[j], s[i]) ensures s[i] == s[j] {
      LeqTotal(s[i].key, s[j].key);
      assert s[i] in s && s[j] in s;
      SortedEntriesMembers(a, s[i]);
      SortedEntriesMembers(a, s[j]);
      var k :| 0 <= k < |a| && Gives(a[k], s[i]);
      var l :| 0 <= l < |a| && Gives(a[l], s[j]);
    }
  }

  lemma TextsEqual(a: seq<Json>, b: seq<Json>)
    requires |a| == |b| && forall i | 0 <= i < |a| :: Stringify(a[i]) == Stringify(b[i])
    ensures Texts(a) == Texts(b)
  {
    forall i | 0 <= i < |a| ensures Texts(a)[i] == Texts(b)[i] {
      TextsAt(a, i);
      TextsAt(b, i);
    }
  }

  lemma {:induction false} SameGivesText(v: Json, w: Json)
    requires WellFormed(v) && WellFormed(w) && Same(v, w)
    ensures Stringify(v) == Stringify(w)
    decreases v
  {
    if v.Arr? {
      forall i | 0 <= i < |v.items| ensures Stringify(v.items[i]) == Stringify(w.items[i]) {
        SameGivesText(v.items[i], w.items[i]);
      }
      TextsEqual(v.items, w.items);
    } else if v.Obj? {
      forall e ensures Lists(v.fields, e) <==> Lists(w.fields, e) {
        FieldsListed(v.fields, w.fields, e);
      }
      FieldsWritten(v.fields, w.fields);
    }
  }

  lemma {:induction false} FieldsListed(a: seq<Property>, b: seq<Property>, e: Entry)
    requires WellFormed(Obj(a)) && WellFormed(Obj(b)) && Same(Obj(a), Obj(b))
    ensures Lists(a, e) <==> Lists(b, e)
    decreases a
  {
    if Lists(a, e) {
      var i :| 0 <= i < |a| && Gives(a[i], e);
      var j := Counterpart(a, b, i);
      assert Gives(b[j], e);
    }
    if Lists(b, e) {
      var j :| 0 <= j < |b| && Gives(b[j], e);
      assert HasKey(b[j].key, a);
      var i :| 0 <= i < |a| && a[i].key == b[j].key && !a[i].value.Undefined?;
      var k := Counterpart(a, b, i);
      assert k == j;
      assert Gives(a[i], e);
    }
  }

  lemma {:induction false} Counterpart(a: seq<Property>, b: seq<Property>, i: nat) returns (j: nat)
    requires WellFormed(Obj(a)) && WellFormed(Obj(b)) && Same(Obj(a), Obj(b)) && i < |a| && !a[i].value.Undefined?
    ensures j < |b| && b[j].key == a[i].key && !b[j].value.Undefined? && Stringify(a[i].value) == Stringify(b[j].value)
    decreases a, 0
  {
    assert Matched(a[i], b);
    j :| 0 <= j < |b| && b[j].key == a[i].key && !b[j].value.Undefined? && Same(a[i].value, b[j].value);
    SameGivesText(a[i].value, b[j].value);
  }

  /** Two values have the same text exactly when they are equal up to key order and undefined properties. */
  lemma StringifyExact(v: Json, w: Json)
    requires WellFormed(v) && WellFormed(w)
    ensures Stringify(v) == Stringify(w) <==> Same(v, w)
  {
    if Same(v, w) {
      SameGivesText(v, w);
    }
    if Stringify(v) == Stringify(w) {
      TextGivesSame(v, w);
    }
  }

  /** The properties are written in the order of their keys. */
  lemma KeysAscend(fields: seq<Property>)
    ensures var es := Sort(Entries(fields), ByKey); forall i, j | 0 <= i < j < |es| :: Leq(es[i].key, es[j].key)
  {
    ByKeyTotal();
    SortSorts(Entries(fields), ByKey);
    var es := Sort(Entries(fields), ByKey);
    forall i, j | 0 <= i < j < |es| ensures Leq(es[i].key, es[j].key) { assert ByKey(es[i], es[j]); }
  }
}
