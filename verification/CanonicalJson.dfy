/** The canonical text of a JSON value, which the definition hash is taken of: objects are written with their
    keys sorted, strings quoted as in section 7 of RFC 8259. */
module CanonicalJson {
  import opened Core

  // ------------------------------------------------------------------ strings

  function HexDigit(n: int): char
    requires 0 <= n < 16
  {
    "0123456789abcdef"[n]
  }

  /** One character inside quotes: control characters, the quote and the backslash are escaped. */
  function Escape(c: char): (r: string)
    ensures r != "" && r[0] != '"'
  {
    if c == '"' then "\\\""
    else if c == '\\' then "\\\\"
    else if c == '\n' then "\\n"
    else if c == '\r' then "\\r"
    else if c == '\t' then "\\t"
    else if c as int == 8 then "\\b"
    else if c as int == 12 then "\\f"
    else if c as int < 32 then "\\u00" + [HexDigit(c as int / 16), HexDigit(c as int % 16)]
    else [c]
  }

  function Escaped(s: string): string {
    if s == "" then "" else Escape(s[0]) + Escaped(s[1..])
  }

  function Quote(s: string): string {
    "\"" + Escaped(s) + "\""
  }

  /** No escape is the beginning of another. */
  lemma EscapeUnique(c: char, d: char, x: string, y: string)
    requires Escape(c) + x == Escape(d) + y
    ensures c == d && x == y
  {
    var t := Escape(c) + x;
    assert t[0] == Escape(c)[0] == Escape(d)[0];
    if t[0] == '\\' {
      assert |Escape(c)| >= 2 && |Escape(d)| >= 2;
      assert t[1] == Escape(c)[1] == Escape(d)[1];
      if t[1] == 'u' {
        assert t[4] == Escape(c)[4] == Escape(d)[4];
        assert t[5] == Escape(c)[5] == Escape(d)[5];
        HexUnique(c as int / 16, d as int / 16);
        HexUnique(c as int % 16, d as int % 16);
      }
    }
    assert c == d;
    assert x == t[|Escape(c)|..] == y;
  }

  lemma HexUnique(m: int, n: int)
    requires 0 <= m < 16 && 0 <= n < 16 && HexDigit(m) == HexDigit(n)
    ensures m == n
  {
  }

  lemma {:induction false} EscapedUnique(s: string, t: string, x: string, y: string)
    requires Escaped(s) + x == Escaped(t) + y
    requires x != "" && y != "" && x[0] == '"' == y[0]
    ensures s == t && x == y
    decreases |s|
  {
    if s != "" && t != "" {
      EscapedStep(s, x);
      EscapedStep(t, y);
      EscapeUnique(s[0], t[0], Escaped(s[1..]) + x, Escaped(t[1..]) + y);
      EscapedUnique(s[1..], t[1..], x, y);
      assert s == [s[0]] + s[1..] && t == [t[0]] + t[1..];
    } else if s != "" {
      assert (Escaped(t) + y)[0] == '"';
      EscapedStep(s, x);
    } else if t != "" {
      assert (Escaped(s) + x)[0] == '"';
      EscapedStep(t, y);
    } else {
      assert Escaped(s) + x == x && Escaped(t) + y == y;
    }
  }

  lemma EscapedStep(s: string, x: string)
    requires s != ""
    ensures Escaped(s) + x == Escape(s[0]) + (Escaped(s[1..]) + x)
    ensures (Escaped(s) + x)[0] != '"'
  {
    assert Escaped(s) + x == Escape(s[0]) + (Escaped(s[1..]) + x);
  }

  lemma QuoteRest(s: string, x: string)
    ensures (Quote(s) + x)[1..] == Escaped(s) + ("\"" + x)
  {
    assert Quote(s) + x == "\"" + (Escaped(s) + ("\"" + x));
  }

  /** A quoted string tells where it ends. */
  lemma QuoteUnique(s: string, t: string, x: string, y: string)
    requires Quote(s) + x == Quote(t) + y
    ensures s == t && x == y
  {
    QuoteRest(s, x);
    QuoteRest(t, y);
    EscapedUnique(s, t, "\"" + x, "\"" + y);
    assert ("\"" + x)[1..] == x && ("\"" + y)[1..] == y;
  }

  // ------------------------------------------------------------------ key order

  /** Order of Unicode scalar values, which is the byte order of their UTF-8 forms. */
  predicate Less(s: string, t: string) {
    if t == "" then false
    else if s == "" then true
    else if s[0] != t[0] then s[0] < t[0]
    else Less(s[1..], t[1..])
  }

  lemma {:induction false} LessTotal(s: string, t: string)
    ensures Less(s, t) || Less(t, s) || s == t
    ensures !(Less(s, t) && Less(t, s)) && (s == t ==> !Less(s, t))
    decreases |s|
  {
    if s != "" && t != "" && s[0] == t[0] {
      LessTotal(s[1..], t[1..]);
      assert s == [s[0]] + s[1..] && t == [t[0]] + t[1..];
    }
  }

  lemma {:induction false} LessTransitive(s: string, t: string, u: string)
    requires Less(s, t) && Less(t, u)
    ensures Less(s, u)
    decreases |s|
  {
    if s != "" && s[0] == t[0] == u[0] {
      LessTransitive(s[1..], t[1..], u[1..]);
    }
  }

  /** A member of an object: its key and the text of its value. */
  type Member = (string, string)

  function Insert(m: Member, ms: seq<Member>): seq<Member> {
    if ms == [] || Less(m.0, ms[0].0) then [m] + ms else [ms[0]] + Insert(m, ms[1..])
  }

  function Sort(ms: seq<Member>): seq<Member> {
    if ms == [] then [] else Insert(ms[0], Sort(ms[1..]))
  }

  predicate Sorted(ms: seq<Member>) {
    forall i, j :: 0 <= i < j < |ms| ==> Less(ms[i].0, ms[j].0)
  }

  predicate DistinctKeys(ms: seq<Member>) {
    forall i, j :: 0 <= i < j < |ms| ==> ms[i].0 != ms[j].0
  }

  lemma {:induction false} InsertKeeps(m: Member, ms: seq<Member>)
    ensures forall x :: x in Insert(m, ms) <==> x == m || x in ms
    ensures Sorted(ms) && (forall i :: 0 <= i < |ms| ==> ms[i].0 != m.0) ==> Sorted(Insert(m, ms))
  {
    if ms == [] || Less(m.0, ms[0].0) {
      assert forall x :: x in [m] + ms <==> x == m || x in ms;
      if Sorted(ms) {
        forall i | 0 < i < |ms| ensures ms != [] && Less(m.0, ms[i].0) {
          LessTransitive(m.0, ms[0].0, ms[i].0);
        }
      }
    } else {
      InsertKeeps(m, ms[1..]);
      var rest := Insert(m, ms[1..]);
      assert ms == [ms[0]] + ms[1..];
      if Sorted(ms) && (forall i :: 0 <= i < |ms| ==> ms[i].0 != m.0) {
        LessTotal(m.0, ms[0].0);
        forall j | 0 <= j < |rest| ensures Less(ms[0].0, rest[j].0) {
          assert rest[j] in rest;
          if rest[j] != m {
            var k :| 0 <= k < |ms[1..]| && ms[1..][k] == rest[j];
            assert ms[k + 1] == rest[j];
          }
        }
      }
    }
  }

  lemma {:induction false} SortKeeps(ms: seq<Member>)
    ensures forall x :: x in Sort(ms) <==> x in ms
    ensures DistinctKeys(ms) ==> Sorted(Sort(ms))
  {
    if ms != [] {
      SortKeeps(ms[1..]);
      InsertKeeps(ms[0], Sort(ms[1..]));
      assert ms == [ms[0]] + ms[1..];
      if DistinctKeys(ms) {
        var rest := Sort(ms[1..]);
        forall i | 0 <= i < |rest| ensures rest[i].0 != ms[0].0 {
          assert rest[i] in ms[1..];
          var k :| 0 <= k < |ms[1..]| && ms[1..][k] == rest[i];
          assert ms[k + 1] == rest[i];
        }
      }
    }
  }

  lemma EmptyTogether(s: seq<Member>, t: seq<Member>)
    requires forall x :: x in s <==> x in t
    ensures s == [] <==> t == []
  {
    if s != [] {
      assert s[0] in t;
    }
    if t != [] {
      assert t[0] in s;
    }
  }

  /** The sorted order of a set of members is unique. */
  lemma {:induction false} SortedUnique(s: seq<Member>, t: seq<Member>)
    requires Sorted(s) && Sorted(t) && forall x :: x in s <==> x in t
    ensures s == t
    decreases |s|
  {
    EmptyTogether(s, t);
    if s != [] {
      assert s[0] in t && t[0] in s;
      var i :| 0 <= i < |t| && t[i] == s[0];
      var j :| 0 <= j < |s| && s[j] == t[0];
      LessTotal(s[0].0, t[0].0);
      assert i == 0;
      forall x ensures x in s[1..] <==> x in t[1..] {
        TailHas(s, x);
        TailHas(t, x);
      }
      SortedUnique(s[1..], t[1..]);
    }
  }

  lemma TailHas(s: seq<Member>, x: Member)
    requires Sorted(s) && s != []
    ensures x in s[1..] <==> x in s && x != s[0]
  {
    LessTotal(s[0].0, s[0].0);
    if x in s && x != s[0] {
      var i :| 0 <= i < |s| && s[i] == x;
      assert s[1..][i - 1] == x;
    }
    if x in s[1..] {
      var i :| 0 <= i < |s| - 1 && s[1..][i] == x;
      assert s[i + 1] == x;
    }
  }

  // ------------------------------------------------------------------ the canonical text

  predicate IsDigit(c: char) {
    '0' <= c <= '9'
  }

  predicate InNumber(c: char) {
    IsDigit(c) || c == '-' || c == '+' || c == '.' || c == 'e' || c == 'E'
  }

  /** Keys of an object are distinct; a number's text is made of number characters and begins as one. */
  predicate WellFormed(j: Json) {
    match j
    case Num(text) => text != "" && (IsDigit(text[0]) || text[0] == '-')
        && forall i :: 0 <= i < |text| ==> InNumber(text[i])
    case Arr(items) => forall i :: 0 <= i < |items| ==> WellFormed(items[i])
    case Obj(entries) =>
      && (forall i, k :: 0 <= i < k < |entries| ==> entries[i].0 != entries[k].0)
      && forall i :: 0 <= i < |entries| ==> WellFormed(entries[i].1)
    case _ => true
  }

  function Joined(parts: seq<string>): string {
    if parts == [] then "" else if |parts| == 1 then parts[0] else parts[0] + "," + Joined(parts[1..])
  }

  function Part(m: Member): string {
    Quote(m.0) + ":" + m.1
  }

  function Parts(ms: seq<Member>): (r: seq<string>)
    ensures |r| == |ms|
  {
    seq(|ms|, i requires 0 <= i < |ms| => Part(ms[i]))
  }

  function Canonical(j: Json): string
    decreases j
  {
    match j
    case Null => "null"
    case Bool(b) => if b then "true" else "false"
    case Num(text) => text
    case Str(s) => Quote(s)
    case Arr(_) => "[" + Joined(Texts(j)) + "]"
    case Obj(_) => "{" + Joined(Parts(Sort(Members(j)))) + "}"
  }

  function Texts(j: Json): (r: seq<string>)
    requires j.Arr?
    decreases j, 0
  {
    seq(|j.items|, i requires 0 <= i < |j.items| => Canonical(j.items[i]))
  }

  function Members(j: Json): (r: seq<Member>)
    requires j.Obj?
    decreases j, 0
  {
    seq(|j.entries|, i requires 0 <= i < |j.entries| => (j.entries[i].0, Canonical(j.entries[i].1)))
  }

  /** Equality of JSON values: objects have the same keys and equal values under each, in whatever order. */
  predicate SameJson(a: Json, b: Json)
    decreases a, 0
  {
    match a
    case Arr(items) => b.Arr? && |b.items| == |items| && forall i :: 0 <= i < |items| ==> SameJson(items[i], b.items[i])
    case Obj(entries) =>
      && b.Obj?
      && (forall k :: 0 <= k < |b.entries| ==> HasKey(entries, b.entries[k].0))
      && forall i :: 0 <= i < |entries| ==> SameUnder(entries[i].0, entries[i].1, b.entries)
    case _ => a == b
  }

  predicate HasKey(entries: seq<(string, Json)>, key: string) {
    exists i :: 0 <= i < |entries| && entries[i].0 == key
  }

  /** The key holds an equal value among the entries. */
  predicate SameUnder(key: string, value: Json, entries: seq<(string, Json)>)
    decreases value, 1
  {
    exists k :: 0 <= k < |entries| && entries[k].0 == key && SameJson(value, entries[k].1)
  }

  // ------------------------------------------------------------------ a text tells where it ends

  predicate Stop(c: char) {
    c == ',' || c == ']' || c == '}'
  }

  /** Two value texts of which neither, cut off by a delimiter, is the beginning of the other. */
  predicate Apart(t: string, u: string) {
    && !(|t| < |u| && t <= u && Stop(u[|t|]))
    && !(|u| < |t| && u <= t && Stop(t[|u|]))
  }

  lemma CutShape(t: string, u: string, x: string, y: string)
    requires t + x == u + y && |t| < |u| && x != ""
    ensures t <= u && u[|t|] == x[0]
  {
    var whole := t + x;
    assert whole[..|t|] == t && whole[..|u|] == u && whole[|t|] == x[0];
  }

  lemma ApartUnique(t: string, u: string, x: string, y: string)
    requires Apart(t, u) && t + x == u + y && x != "" && y != "" && Stop(x[0]) && Stop(y[0])
    ensures t == u && x == y
  {
    if |t| < |u| {
      CutShape(t, u, x, y);
    } else if |u| < |t| {
      CutShape(u, t, y, x);
    } else {
      assert (t + x)[..|t|] == t && (u + y)[..|u|] == u;
      assert (t + x)[|t|..] == x && (u + y)[|u|..] == y;
    }
  }

  /** Texts that begin with no delimiter and are pairwise apart. */
  predicate Separable(ts: seq<string>, us: seq<string>) {
    && (forall i :: 0 <= i < |ts| ==> ts[i] != "" && !Stop(ts[i][0]))
    && (forall i :: 0 <= i < |us| ==> us[i] != "" && !Stop(us[i][0]))
    && forall i, k :: 0 <= i < |ts| && 0 <= k < |us| ==> Apart(ts[i], us[k])
  }

  /** What follows the first of some joined texts before the closing delimiter. */
  function After(ts: seq<string>, x: string): string
    requires ts != []
  {
    if |ts| == 1 then x else "," + (Joined(ts[1..]) + x)
  }

  lemma JoinedFirst(ts: seq<string>, x: string)
    requires ts != []
    ensures Joined(ts) + x == ts[0] + After(ts, x)
  {
    if |ts| > 1 {
      assert ts[0] + "," + Joined(ts[1..]) + x == ts[0] + ("," + (Joined(ts[1..]) + x));
    }
  }

  /** Joined texts begin with a delimiter only if there are none. */
  lemma JoinedBegins(ts: seq<string>, x: string)
    requires (forall i :: 0 <= i < |ts| ==> ts[i] != "" && !Stop(ts[i][0])) && x != "" && Stop(x[0])
    ensures Joined(ts) + x != "" && (Stop((Joined(ts) + x)[0]) <==> ts == [])
  {
    if ts != [] {
      JoinedFirst(ts, x);
      assert (ts[0] + After(ts, x))[0] == ts[0][0];
    }
  }

  /** The first texts are the same, and so is what follows them. */
  lemma FirstUnique(ts: seq<string>, us: seq<string>, x: string, y: string)
    requires Separable(ts, us) && Joined(ts) + x == Joined(us) + y && ts != [] && us != []
    requires x != "" && y != "" && x[0] == y[0] && Stop(x[0]) && x[0] != ','
    ensures ts[0] == us[0] && (|ts| > 1 <==> |us| > 1)
    ensures if |ts| > 1 then Joined(ts[1..]) + x == Joined(us[1..]) + y else x == y
  {
    JoinedFirst(ts, x);
    JoinedFirst(us, y);
    ApartUnique(ts[0], us[0], After(ts, x), After(us, y));
    AfterTells(ts, x);
    AfterTells(us, y);
  }

  lemma AfterTells(ts: seq<string>, x: string)
    requires ts != [] && x != "" && x[0] != ','
    ensures After(ts, x) != "" && (|ts| > 1 <==> After(ts, x)[0] == ',')
    ensures After(ts, x)[if |ts| > 1 then 1 else 0..] == if |ts| > 1 then Joined(ts[1..]) + x else x
  {
  }

  /** Joined texts up to their closing delimiter tell which texts they were. */
  lemma {:induction false} JoinedUnique(ts: seq<string>, us: seq<string>, x: string, y: string)
    requires Separable(ts, us) && Joined(ts) + x == Joined(us) + y
    requires x != "" && y != "" && x[0] == y[0] && Stop(x[0]) && x[0] != ','
    ensures ts == us && x == y
    decreases |ts|
  {
    JoinedBegins(ts, x);
    JoinedBegins(us, y);
    if ts == [] {
      assert Joined(ts) + x == x && Joined(us) + y == y;
    } else {
      FirstUnique(ts, us, x, y);
      if |ts| > 1 {
        JoinedUnique(ts[1..], us[1..], x, y);
      }
      assert ts == [ts[0]] + ts[1..] && us == [us[0]] + us[1..];
    }
  }

  /** The first character of a text says what kind of value it is. */
  predicate Begins(j: Json, c: char) {
    match j
    case Null => c == 'n'
    case Bool(b) => c == (if b then 't' else 'f')
    case Num(_) => IsDigit(c) || c == '-'
    case Str(_) => c == '"'
    case Arr(_) => c == '['
    case Obj(_) => c == '{'
  }

  lemma CanonicalBegins(j: Json)
    requires WellFormed(j)
    ensures Canonical(j) != "" && Begins(j, Canonical(j)[0]) && !Stop(Canonical(j)[0])
  {
  }

  // ------------------------------------------------------------------ the texts of two values

  /** Two texts are apart, and they are equal exactly when the values are. */
  ghost predicate Faithful(a: Json, b: Json) {
    Apart(Canonical(a), Canonical(b)) && (Canonical(a) == Canonical(b) <==> SameJson(a, b))
  }

  /** A text that ends with its own closing delimiter, given what follows its opening one determines it. */
  lemma ClosedApart(t: string, u: string)
    requires forall x, y :: t + x == u + y ==> t == u
    ensures Apart(t, u)
  {
    if |t| < |u| && t <= u {
      PrefixRest(t, u);
    }
    if |u| < |t| && u <= t {
      PrefixRest(u, t);
    }
  }

  lemma PrefixRest(t: string, u: string)
    requires t <= u
    ensures t + u[|t|..] == u + "" && u + "" == t + u[|t|..]
  {
  }

  lemma StringsFaithful(a: Json, b: Json)
    requires a.Str? && b.Str?
    ensures Faithful(a, b)
  {
    forall x, y | Quote(a.s) + x == Quote(b.s) + y ensures Quote(a.s) == Quote(b.s) {
      QuoteUnique(a.s, b.s, x, y);
    }
    ClosedApart(Quote(a.s), Quote(b.s));
    if Quote(a.s) == Quote(b.s) {
      QuoteUnique(a.s, b.s, "", "");
    }
  }

  lemma NumbersFaithful(a: Json, b: Json)
    requires a.Num? && b.Num? && WellFormed(a) && WellFormed(b)
    ensures Faithful(a, b)
  {
  }

  lemma ArraysFaithful(a: Json, b: Json)
    requires a.Arr? && b.Arr? && WellFormed(a) && WellFormed(b)
    requires forall i, k :: 0 <= i < |a.items| && 0 <= k < |b.items| ==> Faithful(a.items[i], b.items[k])
    ensures Faithful(a, b)
  {
    var ts, us := Texts(a), Texts(b);
    forall i | 0 <= i < |ts| ensures ts[i] != "" && !Stop(ts[i][0]) {
      CanonicalBegins(a.items[i]);
    }
    forall i | 0 <= i < |us| ensures us[i] != "" && !Stop(us[i][0]) {
      CanonicalBegins(b.items[i]);
    }
    forall i, k | 0 <= i < |ts| && 0 <= k < |us| ensures Apart(ts[i], us[k]) {
      assert Faithful(a.items[i], b.items[k]);
    }
    forall x, y | Canonical(a) + x == Canonical(b) + y ensures ts == us {
      ClosedUnique("[", ts, us, "]", x, y);
    }
    forall x, y | Canonical(a) + x == Canonical(b) + y ensures Canonical(a) == Canonical(b) {
      assert ts == us;
    }
    ClosedApart(Canonical(a), Canonical(b));
    if Canonical(a) == Canonical(b) {
      assert Canonical(a) + "" == Canonical(b) + "";
      forall i | 0 <= i < |a.items| ensures SameJson(a.items[i], b.items[i]) {
        assert Faithful(a.items[i], b.items[i]);
        assert ts[i] == us[i];
      }
    }
    if SameJson(a, b) {
      forall i | 0 <= i < |ts| ensures ts[i] == us[i] {
        assert Faithful(a.items[i], b.items[i]);
      }
      assert ts == us;
    }
  }

  lemma ClosedUnique(open: string, ts: seq<string>, us: seq<string>, close: string, x: string, y: string)
    requires |open| == 1 && |close| == 1 && Stop(close[0]) && close[0] != ',' && Separable(ts, us)
    requires open + Joined(ts) + close + x == open + Joined(us) + close + y
    ensures ts == us && x == y
  {
    var whole := open + Joined(ts) + close + x;
    assert whole[1..] == Joined(ts) + (close + x);
    assert whole[1..] == Joined(us) + (close + y);
    JoinedUnique(ts, us, close + x, close + y);
    assert (close + x)[1..] == x && (close + y)[1..] == y;
  }

  lemma PartRest(m: Member, x: string)
    ensures Part(m) + x == Quote(m.0) + (":" + (m.1 + x))
  {
  }

  lemma PartUnique(m: Member, n: Member, x: string, y: string)
    requires Part(m) + x == Part(n) + y
    ensures m.0 == n.0 && m.1 + x == n.1 + y
  {
    PartRest(m, x);
    PartRest(n, y);
    QuoteUnique(m.0, n.0, ":" + (m.1 + x), ":" + (n.1 + y));
    assert (":" + (m.1 + x))[1..] == m.1 + x && (":" + (n.1 + y))[1..] == n.1 + y;
  }

  lemma PartsApart(m: Member, n: Member)
    requires Apart(m.1, n.1)
    ensures Apart(Part(m), Part(n)) && (Part(m) == Part(n) ==> m == n)
  {
    PartNotCut(m, n);
    PartNotCut(n, m);
    if Part(m) == Part(n) {
      assert Part(m) + "" == Part(n) + "";
      PartUnique(m, n, "", "");
      assert m.1 + "" == m.1 && n.1 + "" == n.1;
    }
  }

  lemma PartNotCut(m: Member, n: Member)
    requires Apart(m.1, n.1)
    ensures !(|Part(m)| < |Part(n)| && Part(m) <= Part(n) && Stop(Part(n)[|Part(m)|]))
  {
    if |Part(m)| < |Part(n)| && Part(m) <= Part(n) {
      PartCut(m, n);
    }
  }

  /** A part that begins another is cut off where its value's text is. */
  lemma PartCut(m: Member, n: Member)
    requires |Part(m)| < |Part(n)| && Part(m) <= Part(n)
    ensures |m.1| < |n.1| && m.1 <= n.1 && n.1[|m.1|] == Part(n)[|Part(m)|]
  {
    var rest := Part(n)[|Part(m)|..];
    PrefixRest(Part(m), Part(n));
    PartUnique(m, n, rest, "");
    assert n.1 + "" == n.1;
    assert n.1 == m.1 + rest;
  }

  /** Some texts come from the values of an object. */
  lemma SortedMembers(a: Json)
    requires a.Obj? && WellFormed(a)
    ensures var ms := Sort(Members(a));
            Sorted(ms) && forall x :: x in ms <==> x in Members(a)
  {
    SortKeeps(Members(a));
  }

  lemma MembersSeparable(a: Json, b: Json, ms: seq<Member>, ns: seq<Member>)
    requires a.Obj? && b.Obj?
    requires ValuesFaithful(a, b)
    requires (forall x :: x in ms ==> x in Members(a)) && (forall x :: x in ns ==> x in Members(b))
    ensures Separable(Parts(ms), Parts(ns)) && (Parts(ms) == Parts(ns) ==> ms == ns)
  {
    forall i, k | 0 <= i < |ms| && 0 <= k < |ns|
      ensures Apart(Part(ms[i]), Part(ns[k])) && (Part(ms[i]) == Part(ns[k]) ==> ms[i] == ns[k])
    {
      assert ms[i] in ms && ns[k] in ns;
      var i' :| 0 <= i' < |a.entries| && Members(a)[i'] == ms[i];
      var k' :| 0 <= k' < |b.entries| && Members(b)[k'] == ns[k];
      assert Faithful(a.entries[i'].1, b.entries[k'].1);
      PartsApart(ms[i], ns[k]);
    }
    if Parts(ms) == Parts(ns) {
      forall i | 0 <= i < |ms| ensures ms[i] == ns[i] {
        assert Parts(ms)[i] == Parts(ns)[i];
      }
    }
  }

  ghost predicate SameMembers(a: Json, b: Json)
    requires a.Obj? && b.Obj?
  {
    forall x :: x in Members(a) <==> x in Members(b)
  }

  ghost predicate ValuesFaithful(a: Json, b: Json)
    requires a.Obj? && b.Obj?
  {
    forall i, k :: 0 <= i < |a.entries| && 0 <= k < |b.entries| ==> Faithful(a.entries[i].1, b.entries[k].1)
  }

  lemma SameHasMembers(a: Json, b: Json)
    requires a.Obj? && b.Obj? && WellFormed(b) && ValuesFaithful(a, b) && SameJson(a, b)
    ensures SameMembers(a, b)
  {
    forall i | 0 <= i < |a.entries| ensures Members(a)[i] in Members(b) {
      var _ := MemberFound(a, b, i);
    }
    forall k | 0 <= k < |b.entries| ensures Members(b)[k] in Members(a) {
      assert HasKey(a.entries, b.entries[k].0);
      var i :| 0 <= i < |a.entries| && a.entries[i].0 == b.entries[k].0;
      var k' := MemberFound(a, b, i);
      assert k' == k;
    }
  }

  lemma MemberFound(a: Json, b: Json, i: nat) returns (k: nat)
    requires a.Obj? && b.Obj? && ValuesFaithful(a, b) && SameJson(a, b) && i < |a.entries|
    ensures k < |b.entries| && b.entries[k].0 == a.entries[i].0 && Members(b)[k] == Members(a)[i]
  {
    assert SameUnder(a.entries[i].0, a.entries[i].1, b.entries);
    k :| 0 <= k < |b.entries| && b.entries[k].0 == a.entries[i].0 && SameJson(a.entries[i].1, b.entries[k].1);
    assert Faithful(a.entries[i].1, b.entries[k].1);
  }

  lemma MembersAreSame(a: Json, b: Json)
    requires a.Obj? && b.Obj? && ValuesFaithful(a, b) && SameMembers(a, b)
    ensures SameJson(a, b)
  {
    forall i | 0 <= i < |a.entries| ensures SameUnder(a.entries[i].0, a.entries[i].1, b.entries) {
      assert Members(a)[i] in Members(b);
      var k :| 0 <= k < |b.entries| && Members(b)[k] == Members(a)[i];
      assert Faithful(a.entries[i].1, b.entries[k].1);
    }
    forall k | 0 <= k < |b.entries| ensures HasKey(a.entries, b.entries[k].0) {
      assert Members(b)[k] in Members(a);
      var i :| 0 <= i < |a.entries| && Members(a)[i] == Members(b)[k];
    }
  }

  lemma ObjectsFaithful(a: Json, b: Json)
    requires a.Obj? && b.Obj? && WellFormed(a) && WellFormed(b)
    requires ValuesFaithful(a, b)
    ensures Faithful(a, b)
  {
    var ms, ns := Sort(Members(a)), Sort(Members(b));
    SortedMembers(a);
    SortedMembers(b);
    MembersSeparable(a, b, ms, ns);
    forall x, y | Canonical(a) + x == Canonical(b) + y ensures ms == ns {
      ClosedUnique("{", Parts(ms), Parts(ns), "}", x, y);
    }
    forall x, y | Canonical(a) + x == Canonical(b) + y ensures Canonical(a) == Canonical(b) {
      assert ms == ns;
    }
    ClosedApart(Canonical(a), Canonical(b));
    if Canonical(a) == Canonical(b) {
      assert Canonical(a) + "" == Canonical(b) + "";
      assert ms == ns;
      MembersAreSame(a, b);
    }
    if SameJson(a, b) {
      SameHasMembers(a, b);
      SortedUnique(ms, ns);
    }
  }

  lemma KindsFaithful(a: Json, b: Json)
    requires WellFormed(a) && WellFormed(b)
    requires !(a.Num? && b.Num?) && !(a.Str? && b.Str?) && !(a.Arr? && b.Arr?) && !(a.Obj? && b.Obj?)
    ensures Faithful(a, b)
  {
    CanonicalBegins(a);
    CanonicalBegins(b);
  }

  /** Canonical JSON: the texts of two values are equal exactly when the values are equal up to the order of
      object keys; and no text, followed by a delimiter, begins another. */
  lemma {:induction false} CanonicalExact(a: Json, b: Json)
    requires WellFormed(a) && WellFormed(b)
    ensures Canonical(a) == Canonical(b) <==> SameJson(a, b)
    ensures Apart(Canonical(a), Canonical(b))
    decreases a
  {
    if a.Arr? && b.Arr? {
      forall i, k | 0 <= i < |a.items| && 0 <= k < |b.items| ensures Faithful(a.items[i], b.items[k]) {
        CanonicalExact(a.items[i], b.items[k]);
      }
      ArraysFaithful(a, b);
    } else if a.Obj? && b.Obj? {
      forall i, k | 0 <= i < |a.entries| && 0 <= k < |b.entries| ensures Faithful(a.entries[i].1, b.entries[k].1) {
        CanonicalExact(a.entries[i].1, b.entries[k].1);
      }
      ObjectsFaithful(a, b);
    } else if a.Str? && b.Str? {
      StringsFaithful(a, b);
    } else if a.Num? && b.Num? {
      NumbersFaithful(a, b);
    } else {
      KindsFaithful(a, b);
    }
  }
}
