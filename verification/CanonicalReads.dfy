/** That the canonical text is JSON: its strings read back as section 7 of RFC 8259 reads them, and its keys come in the
    order of their first difference. */
module CanonicalReads {
  import opened Core
  import opened CanonicalJson

  function HexValue(c: char): Option<int> {
    if '0' <= c <= '9' then Some(c as int - '0' as int)
    else if 'a' <= c <= 'f' then Some(c as int - 'a' as int + 10)
    else if 'A' <= c <= 'F' then Some(c as int - 'A' as int + 10)
    else None
  }

  /** The character two hexadecimal digits stand for. */
  function FromHex(high: char, low: char): Option<char> {
    match (HexValue(high), HexValue(low))
    case (Some(h), Some(l)) => if h < 8 then Some((16 * h + l) as char) else None
    case (_, _) => None
  }

  /** What the text between the quotes begins with, and how long it is: a plain character, or an escape. Of the escapes
      by number those of the first 128 characters are read. */
  function ReadChar(text: string): Option<(char, nat)> {
    if text == "" || text[0] == '"' || text[0] as int < 32 then None
    else if text[0] != '\\' then Some((text[0], 1))
    else if |text| < 2 then None
    else
      match text[1]
      case '"' => Some(('"', 2))
      case '\\' => Some(('\\', 2))
      case '/' => Some(('/', 2))
      case 'b' => Some((8 as char, 2))
      case 'f' => Some((12 as char, 2))
      case 'n' => Some(('\n', 2))
      case 'r' => Some(('\r', 2))
      case 't' => Some(('\t', 2))
      case 'u' =>
        if |text| >= 6 && text[2] == '0' && text[3] == '0' && FromHex(text[4], text[5]).Some?
        then Some((FromHex(text[4], text[5]).value, 6)) else None
      case _ => None
  }

  /** The string the text between the quotes stands for. */
  function Read(text: string): Option<string>
    decreases |text|
  {
    if text == "" then Some("")
    else
      match ReadChar(text)
      case None => None
      case Some((c, n)) =>
        if n > |text| || n == 0 then None
        else if Read(text[n..]).None? then None
        else Some([c] + Read(text[n..]).value)
  }

  lemma EscapeReads(c: char, rest: string)
    ensures ReadChar(Escape(c) + rest) == Some((c, |Escape(c)|))
  {
    var text := Escape(c) + rest;
    assert text[0] == Escape(c)[0];
    if text[0] == '\\' {
      assert text[1] == Escape(c)[1];
      if text[1] == 'u' {
        assert text[2] == Escape(c)[2] && text[3] == Escape(c)[3];
        assert text[4] == Escape(c)[4] && text[5] == Escape(c)[5];
      }
    }
  }

  /** A quoted string is its text, escaped as JSON escapes it: between the quotes it reads back as itself. */
  lemma {:induction false} StringsReadBack(s: string)
    ensures Quote(s)[0] == '"' && Quote(s)[|Quote(s)| - 1] == '"' && Read(Quote(s)[1..|Quote(s)| - 1]) == Some(s)
  {
    EscapedReads(s);
    assert Quote(s)[1..|Quote(s)| - 1] == Escaped(s);
  }

  lemma {:induction false} EscapedReads(s: string)
    ensures Read(Escaped(s)) == Some(s)
  {
    if s != "" {
      EscapeReads(s[0], Escaped(s[1..]));
      EscapedReads(s[1..]);
      assert Escaped(s)[|Escape(s[0])|..] == Escaped(s[1..]);
      assert s == [s[0]] + s[1..];
    }
  }

  /** A key comes before another if it is the beginning of it, or its character at their first difference is lower. */
  predicate DiffersBelow(s: string, t: string, k: nat) {
    && k <= |s| && k < |t| && s[..k] == t[..k]
    && (k == |s| || s[k] < t[k])
  }

  lemma SameStart(s: string, t: string, k: nat)
    requires DiffersBelow(s, t, k)
    ensures k > 0 ==> s != "" && s[0] == t[0]
  {
    assert k > 0 ==> s[..k][0] == t[..k][0];
  }

  lemma {:induction false} LessExactly(s: string, t: string)
    ensures Less(s, t) <==> exists k :: 0 <= k < |t| && DiffersBelow(s, t, k)
  {
    if t != "" && s == "" {
      assert DiffersBelow(s, t, 0);
    } else if t != "" && s[0] != t[0] {
      if s[0] < t[0] {
        assert DiffersBelow(s, t, 0);
      }
      forall k | 0 <= k < |t| && DiffersBelow(s, t, k) ensures k == 0 {
        SameStart(s, t, k);
      }
    } else if t != "" {
      LessExactly(s[1..], t[1..]);
      if Less(s, t) {
        var k :| 0 <= k < |t[1..]| && DiffersBelow(s[1..], t[1..], k);
        assert s[..k + 1] == [s[0]] + s[1..][..k] && t[..k + 1] == [t[0]] + t[1..][..k];
        assert DiffersBelow(s, t, k + 1);
      }
      forall k | 0 <= k < |t| && DiffersBelow(s, t, k) ensures k > 0 && DiffersBelow(s[1..], t[1..], k - 1) {
        assert s[1..][..k - 1] == s[..k][1..] && t[1..][..k - 1] == t[..k][1..];
      }
    }
  }

  lemma ListSample()
    ensures Canonical(Arr([Num("1"), Null])) == "[1,null]"
  {
    var list := Arr([Num("1"), Null]);
    assert Texts(list) == ["1", "null"];
    assert Joined(Texts(list)[1..]) == "null";
  }

  lemma QuoteSample(c: char)
    ensures Escape(c) == [c] ==> Quote([c]) == "\"" + [c] + "\""
  {
    assert Escaped([c][1..]) == "";
  }

  lemma SortSample(a: (string, string), b: (string, string))
    requires Less(a.0, b.0)
    ensures Sort([b, a]) == [a, b]
  {
    LessTotal(a.0, b.0);
    assert [b, a][1..] == [a] && [a][1..] == [];
    assert Sort([a]) == [a];
    assert Insert(b, []) == [b];
  }

  lemma MemberSample()
    ensures Members(Obj([("b", Arr([Num("1"), Null])), ("a", Str("x"))])) == [("b", "[1,null]"), ("a", "\"x\"")]
  {
    ListSample();
    QuoteSample('x');
    assert Canonical(Str("x")) == "\"x\"";
  }

  lemma PartSample()
    ensures Part(("a", "\"x\"")) == "\"a\":\"x\"" && Part(("b", "[1,null]")) == "\"b\":[1,null]"
  {
    QuoteSample('a');
    QuoteSample('b');
  }

  lemma TwoMembers(j: Json, a: (string, string), b: (string, string))
    requires j.Obj? && Members(j) == [b, a] && Less(a.0, b.0)
    ensures Canonical(j) == "{" + (Part(a) + "," + Part(b)) + "}"
  {
    SortSample(a, b);
    var parts := Parts(Sort(Members(j)));
    assert parts == [Part(a), Part(b)] && parts[1..] == [Part(b)];
    assert Joined(parts[1..]) == Part(b);
    assert Joined(parts) == Part(a) + "," + Part(b);
  }

  /** An object of two members and an array, as the text has them. */
  lemma CanonicalSample(j: Json)
    requires j == Obj([("b", Arr([Num("1"), Null])), ("a", Str("x"))])
    ensures Canonical(j) == "{" + ("\"a\":\"x\"" + "," + "\"b\":[1,null]") + "}"
  {
    MemberSample();
    PartSample();
    TwoMembers(j, ("a", "\"x\""), ("b", "[1,null]"));
  }
}
