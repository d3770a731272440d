/** What canonical text looks like: it is the shortest text of its value, its escapes are
    the two-character ones or `\u00` with two lower-case hexadecimal digits, and its
    numerals are those of the JSON grammar. */
module JsonLayout {
  import Order
  import opened Decimal
  import opened JsonText
  import opened CanonicalJson

  // ----- no text of a value is shorter

  lemma EscapedLength(c: char)
    ensures 1 <= |Escaped(c)| <= 6
    ensures |Escaped(c)| == 1 <==> c >= ' ' && c != '"' && c != '\\'
    ensures c == '"' || c == '\\' || c as int in {8, 9, 10, 12, 13} ==> |Escaped(c)| == 2
  {}

  lemma EscapeIsShortest(t: string)
    ensures ParseEscape(t).Parsed? ==> |Escaped(ParseEscape(t).value)| + |ParseEscape(t).rest| <= 1 + |t|
  {
    if ParseEscape(t).Parsed? { EscapedLength(ParseEscape(t).value); }
    hide Escaped;
  }

  lemma {:induction false} StringIsShortest(t: string)
    ensures ParseString(t).Parsed? ==> |EscapedText(ParseString(t).value)| + 1 + |ParseString(t).rest| <= |t|
    decreases |t|
  {
    hide Escaped, ParseEscape;
    if t != "" && t[0] >= ' ' && t[0] != '"' {
      if t[0] == '\\' {
        EscapeIsShortest(t[1..]);
        if ParseEscape(t[1..]).Parsed? {
          StringIsShortest(ParseEscape(t[1..]).rest);
          PrefixedText(ParseEscape(t[1..]).value, ParseString(ParseEscape(t[1..]).rest));
        }
      } else {
        EscapedLength(t[0]);
        StringIsShortest(t[1..]);
        PrefixedText(t[0], ParseString(t[1..]));
      }
    }
  }

  lemma PrefixedText(c: char, r: Parsed<string>)
    ensures r.Parsed? ==>
            Prefixed(c, r).Parsed? && EscapedText(Prefixed(c, r).value) == Escaped(c) + EscapedText(r.value)
    ensures r.Malformed? ==> Prefixed(c, r).Malformed?
  {
    if r.Parsed? { assert ([c] + r.value)[1..] == r.value; }
  }

  lemma FirstItem(item: Json, items: seq<Json>)
    ensures |PrintItems([item] + items)| == |Print(item)| + (if items == [] then 0 else 1 + |PrintItems(items)|)
  {
    assert ([item] + items)[1..] == items;
  }

  /** The length of the text of one member. */
  function MemberLength(m: Member): nat { |Quoted(m.key)| + 1 + |Print(m.value)| }

  lemma FirstMember(m: Member, members: seq<Member>)
    ensures |PrintMembers([m] + members)| ==
            MemberLength(m) + (if members == [] then 0 else 1 + |PrintMembers(members)|)
  {
    assert ([m] + members)[1..] == members;
  }

  /** Putting a member in its place, or dropping it for a later one, is no longer than
      writing it out. */
  lemma {:induction false} PutIsShortest(key: string, value: Json, later: seq<Member>)
    requires later != []
    ensures PutBefore(key, value, later) != []
    ensures |PrintMembers(PutBefore(key, value, later))| <= MemberLength(Member(key, value)) + 1 + |PrintMembers(later)|
  {
    hide PrintMembers, MemberLength;
    var m := Member(key, value);
    if Order.Less(key, later[0].key) {
      FirstMember(m, later);
    } else if key != later[0].key {
      var tail := later[1..];
      assert later == [later[0]] + tail;
      FirstMember(later[0], tail);
      FirstMember(later[0], PutBefore(key, value, tail));
      if tail == [] {
        FirstMember(m, []);
        assert PutBefore(key, value, tail) == [m] == [m] + [];
      } else {
        PutIsShortest(key, value, tail);
      }
    }
  }

  lemma {:induction false} ValueIsShortest(t: string)
    ensures ParseValue(t).Parsed? ==> |Print(ParseValue(t).value)| + |ParseValue(t).rest| <= |t|
    decreases |t|, 4
  {
    hide ParseString, EscapedText, ParseItems, ParseMembers, PrintItems, PrintMembers, NumeralRun, IsNumeral;
    var u := SkipSpace(t);
    if u != "" {
      if u[0] == '"' { StringIsShortest(u[1..]); }
      if u[0] == '[' { ItemsAreShortest(SkipSpace(u[1..])); NothingPrinted(); }
      if u[0] == '{' { MembersAreShortest(SkipSpace(u[1..])); NothingPrinted(); }
    }
  }

  lemma NothingPrinted()
    ensures PrintItems([]) == "" && PrintMembers([]) == ""
  {}

  lemma {:induction false} ItemsAreShortest(t: string)
    ensures ParseItems(t).Parsed? ==> |PrintItems(ParseItems(t).value)| + 1 + |ParseItems(t).rest| <= |t|
    ensures ParseItems(t).Parsed? ==> ParseItems(t).value != []
    decreases |t|, 5
  {
    hide ParseValue, Print, PrintItems;
    ValueIsShortest(t);
    match ParseValue(t)
    case Malformed =>
    case Parsed(item, after) =>
      var u := SkipSpace(after);
      FirstItem(item, []);
      assert [item] + [] == [item];
      if u != "" && u[0] == ',' {
        ItemsAreShortest(u[1..]);
        if ParseItems(u[1..]).Parsed? { FirstItem(item, ParseItems(u[1..]).value); }
      }
  }

  lemma {:induction false} MembersAreShortest(t: string)
    ensures ParseMembers(t).Parsed? ==> |PrintMembers(ParseMembers(t).value)| + 1 + |ParseMembers(t).rest| <= |t|
    ensures ParseMembers(t).Parsed? ==> ParseMembers(t).value != []
    decreases |t|, 5
  {
    hide ParseValue, Print, PrintMembers, ParseString, EscapedText, PutBefore;
    var k := SkipSpace(t);
    if k != "" && k[0] == '"' && ParseString(k[1..]).Parsed? {
      StringIsShortest(k[1..]);
      var key, c := ParseString(k[1..]).value, SkipSpace(ParseString(k[1..]).rest);
      if c != "" && c[0] == ':' && ParseValue(c[1..]).Parsed? {
        ValueIsShortest(c[1..]);
        var value, u := ParseValue(c[1..]).value, SkipSpace(ParseValue(c[1..]).rest);
        FirstMember(Member(key, value), []);
        assert [Member(key, value)] + [] == [Member(key, value)];
        if u != "" && u[0] == ',' {
          MembersAreShortest(u[1..]);
          if ParseMembers(u[1..]).Parsed? { PutIsShortest(key, value, ParseMembers(u[1..]).value); }
        }
      }
    }
  }

  /** No text that parses to a value is shorter than the one printed for it: no white
      space, and the short escape wherever there is one. */
  lemma PrintIsShortest(j: Json, t: string)
    requires Parse(t) == Parsed(j, "")
    ensures |Print(j)| <= |t|
  {
    ValueIsShortest(t);
    hide ParseValue, Print;
  }

  /** So is canonical text among all texts of its value. */
  lemma CanonicalIsShortest(h: Heap, v: Value, t: string)
    requires Canonical(h, v).Ok? && Parse(t) == Parse(Canonical(h, v).value)
    ensures |Canonical(h, v).value| <= |t|
  {
    CanonicalReadsBack(h, v);
    hide Normalize, Print, Parse;
    PrintIsShortest(Normalize(h, v, {}).value, t);
  }

  // ----- its escapes

  predicate LowerHex(c: char) { '0' <= c <= '9' || 'a' <= c <= 'f' }

  /** Every backslash opens one of the seven two-character escapes or `\u00` and two
      lower-case hexadecimal digits. */
  predicate WellEscaped(t: string) {
    || t == ""
    || (t[0] != '\\' && WellEscaped(t[1..]))
    || (t[0] == '\\' && |t| >= 2 && t[1] in {'"', '\\', 'b', 'f', 'n', 'r', 't'} && WellEscaped(t[2..]))
    || (t[0] == '\\' && |t| >= 6 && t[1] == 'u' && t[2] == '0' && t[3] == '0' && LowerHex(t[4]) && LowerHex(t[5])
        && WellEscaped(t[6..]))
  }

  lemma DropJoins(a: string, b: string, n: nat)
    requires n <= |a|
    ensures (a + b)[n..] == a[n..] + b && forall i :: 0 <= i < n ==> (a + b)[i] == a[i]
  {}

  lemma {:induction false} WellEscapedJoins(a: string, b: string)
    requires WellEscaped(a) && WellEscaped(b)
    ensures WellEscaped(a + b)
    decreases |a|
  {
    if a == "" {
      assert a + b == b;
    } else {
      var n := if a[0] != '\\' then 1 else if a[1] == 'u' then 6 else 2;
      DropJoins(a, b, n);
      WellEscapedJoins(a[n..], b);
    }
  }

  lemma {:induction false} PlainIsWellEscaped(t: string)
    requires forall i :: 0 <= i < |t| ==> t[i] != '\\'
    ensures WellEscaped(t)
  {
    if t != "" { PlainIsWellEscaped(t[1..]); }
  }

  lemma EscapedIsWellEscaped(c: char)
    ensures WellEscaped(Escaped(c))
  {
    var t := Escaped(c);
    if |t| == 6 { assert t[6..] == "" && t[4] == HexDigit(c as int / 16) && t[5] == HexDigit(c as int % 16); }
    if |t| == 2 { assert t[2..] == ""; }
    if |t| == 1 { assert t[1..] == ""; }
  }

  lemma {:induction false} TextIsWellEscaped(s: string)
    ensures WellEscaped(EscapedText(s))
  {
    hide Escaped;
    if s != "" {
      EscapedIsWellEscaped(s[0]);
      TextIsWellEscaped(s[1..]);
      WellEscapedJoins(Escaped(s[0]), EscapedText(s[1..]));
    }
  }

  lemma QuotedIsWellEscaped(s: string)
    ensures WellEscaped(Quoted(s))
  {
    TextIsWellEscaped(s);
    hide EscapedText;
    PlainIsWellEscaped("\"");
    WellEscapedJoins(EscapedText(s), "\"");
    WellEscapedJoins("\"", EscapedText(s) + "\"");
  }

  /** In the text of a normal value no other escape occurs. */
  lemma {:induction false} PrintIsWellEscaped(j: Json)
    requires Normal(j)
    ensures WellEscaped(Print(j))
    decreases j, 1
  {
    match j
    case Num(numeral) =>
      NumeralCharacters(Start, numeral);
      PlainIsWellEscaped(numeral);
    case Str(text) => QuotedIsWellEscaped(text);
    case Arr(items) =>
      ItemsAreWellEscaped(items);
      BracketsJoin("[", PrintItems(items), "]");
    case Obj(members) =>
      MembersAreWellEscaped(members);
      BracketsJoin("{", PrintMembers(members), "}");
    case Null => PlainIsWellEscaped("null");
    case Bool(flag) => PlainIsWellEscaped(if flag then "true" else "false");
  }

  lemma BracketsJoin(open: string, inner: string, close: string)
    requires WellEscaped(inner) && '\\' !in open && '\\' !in close
    ensures WellEscaped(open + (inner + close))
  {
    PlainIsWellEscaped(open);
    PlainIsWellEscaped(close);
    WellEscapedJoins(inner, close);
    WellEscapedJoins(open, inner + close);
  }

  lemma {:induction false} ItemsAreWellEscaped(items: seq<Json>)
    requires forall i :: 0 <= i < |items| ==> Normal(items[i])
    ensures WellEscaped(PrintItems(items))
    decreases items, 0
  {
    hide WellEscaped;
    if items == [] {
      PlainIsWellEscaped("");
    } else {
      PrintIsWellEscaped(items[0]);
      ItemsAreWellEscaped(items[1..]);
      PlainIsWellEscaped("");
      PlainIsWellEscaped(",");
      WellEscapedJoins(",", PrintItems(items[1..]));
      WellEscapedJoins(Print(items[0]), if |items| == 1 then "" else "," + PrintItems(items[1..]));
    }
  }

  lemma {:induction false} MembersAreWellEscaped(members: seq<Member>)
    requires forall i :: 0 <= i < |members| ==> Normal(members[i].value)
    ensures WellEscaped(PrintMembers(members))
    decreases members, 0
  {
    hide WellEscaped, Quoted;
    if members == [] {
      PlainIsWellEscaped("");
    } else {
      var key, value := Quoted(members[0].key), Print(members[0].value);
      var more := if |members| == 1 then "" else "," + PrintMembers(members[1..]);
      QuotedIsWellEscaped(members[0].key);
      PrintIsWellEscaped(members[0].value);
      MembersAreWellEscaped(members[1..]);
      PlainIsWellEscaped("");
      PlainIsWellEscaped(",");
      PlainIsWellEscaped(":");
      WellEscapedJoins(",", PrintMembers(members[1..]));
      WellEscapedJoins(value, more);
      WellEscapedJoins(":", value + more);
      WellEscapedJoins(key, ":" + (value + more));
    }
  }

  // ----- the grammar of numerals (RFC 8259 section 6)

  /** Digits only, and at least one. */
  predicate Digital(s: string) { s != "" && AllDigits(s) }

  /** `[ exp ]` */
  predicate Exponential(s: string) {
    s == "" || ((s[0] == 'e' || s[0] == 'E')
                && (Digital(s[1..]) || (|s| > 1 && (s[1] == '+' || s[1] == '-') && Digital(s[2..]))))
  }

  /** The text is digits up to some place and then what `rest` allows. */
  ghost predicate DigitsThen(s: string, rest: string -> bool) {
    exists k :: SplitsAt(s, rest, k)
  }

  ghost predicate SplitsAt(s: string, rest: string -> bool, k: int) {
    0 <= k <= |s| && AllDigits(s[..k]) && rest(s[k..])
  }

  /** `[ frac ] [ exp ]` */
  ghost predicate Fractional(s: string) {
    Exponential(s) || (|s| > 1 && s[0] == '.' && IsDigit(s[1]) && DigitsThen(s[2..], Exponential))
  }

  /** `int [ frac ] [ exp ]` */
  ghost predicate Unsigned(s: string) {
    s != "" && IsDigit(s[0]) && if s[0] == '0' then Fractional(s[1..]) else DigitsThen(s[1..], t => Fractional(t))
  }

  /** The automaton accepts from this state on. */
  predicate Accepts(state: NumeralState, s: string) { ReadNumeral(state, s) in {Zero, Whole, Fraction, Power} }

  lemma {:induction false} BadStays(s: string)
    ensures ReadNumeral(Bad, s) == Bad
  {
    if s != "" { BadStays(s[1..]); }
  }

  lemma {:induction false} PowerTail(s: string)
    ensures Accepts(Power, s) <==> AllDigits(s)
  {
    if s != "" {
      BadStays(s[1..]);
      PowerTail(s[1..]);
      assert s == [s[0]] + s[1..];
    }
  }

  lemma ExponentTail(s: string)
    ensures Accepts(Exponent, s) <==> Digital(s) || (s != "" && (s[0] == '+' || s[0] == '-') && Digital(s[1..]))
  {
    if s != "" {
      BadStays(s[1..]);
      PowerTail(s[1..]);
      SignTail(s[1..]);
      assert s == [s[0]] + s[1..];
    }
  }

  lemma SignTail(s: string)
    ensures Accepts(ExponentSign, s) <==> Digital(s)
  {
    if s != "" {
      BadStays(s[1..]);
      PowerTail(s[1..]);
      assert s == [s[0]] + s[1..];
    }
  }

  lemma SplitsNext(s: string, rest: string -> bool, k: int)
    requires k > 0
    ensures SplitsAt(s, rest, k) <==> s != "" && IsDigit(s[0]) && SplitsAt(s[1..], rest, k - 1)
  {
    if 0 < k <= |s| {
      var init := s[1..][..k - 1];
      assert s[..k] == [s[0]] + init && s[k..] == s[1..][k - 1..];
      assert AllDigits(s[..k]) <==> IsDigit(s[0]) && AllDigits(init) by {
        assert forall i :: 0 <= i < |init| ==> init[i] == s[..k][i + 1];
      }
    }
  }

  lemma SplitsFirst(s: string, rest: string -> bool)
    ensures SplitsAt(s, rest, 0) <==> rest(s)
  {
    assert s[0..] == s;
  }

  lemma DigitsThenNext(s: string, rest: string -> bool)
    ensures DigitsThen(s, rest) <==> rest(s) || (s != "" && IsDigit(s[0]) && DigitsThen(s[1..], rest))
  {
    hide SplitsAt;
    SplitsFirst(s, rest);
    if k :| SplitsAt(s, rest, k) {
      if k > 0 { SplitsNext(s, rest, k); } else { SplitsStart(s, rest, k); }
    }
    if s != "" && IsDigit(s[0]) && DigitsThen(s[1..], rest) {
      var k :| SplitsAt(s[1..], rest, k);
      SplitsStart(s[1..], rest, k);
      SplitsNext(s, rest, k + 1);
    }
  }

  lemma SplitsStart(s: string, rest: string -> bool, k: int)
    requires SplitsAt(s, rest, k)
    ensures k >= 0
  {}

  lemma {:induction false} FractionTail(s: string)
    ensures Accepts(Fraction, s) <==> DigitsThen(s, Exponential)
  {
    DigitsThenNext(s, Exponential);
    if s != "" {
      hide DigitsThen;
      BadStays(s[1..]);
      ExponentTail(s[1..]);
      FractionTail(s[1..]);
    }
  }

  lemma PointTail(s: string)
    ensures Accepts(Point, s) <==> s != "" && IsDigit(s[0]) && DigitsThen(s[1..], Exponential)
  {
    if s != "" {
      BadStays(s[1..]);
      FractionTail(s[1..]);
    }
  }

  lemma ZeroTail(s: string)
    ensures Accepts(Zero, s) <==> Fractional(s)
  {
    if s != "" {
      BadStays(s[1..]);
      ExponentTail(s[1..]);
      PointTail(s[1..]);
    }
  }

  lemma {:induction false} WholeTail(s: string)
    ensures Accepts(Whole, s) <==> DigitsThen(s, t => Fractional(t))
  {
    DigitsThenNext(s, t => Fractional(t));
    ZeroTail(s);
    if s != "" {
      hide DigitsThen;
      BadStays(s[1..]);
      WholeTail(s[1..]);
    }
  }

  lemma SignedTail(s: string)
    ensures Accepts(Signed, s) <==> Unsigned(s)
  {
    if s != "" {
      BadStays(s[1..]);
      ZeroTail(s[1..]);
      WholeTail(s[1..]);
    }
  }

  /** A numeral is an optional minus, an integer without leading zeros, an optional
      fraction and an optional exponent, each with at least one digit. */
  lemma NumeralExactly(s: string)
    ensures IsNumeral(s) <==> Unsigned(s) || (s != "" && s[0] == '-' && Unsigned(s[1..]))
  {
    SignedTail(s);
    if s != "" {
      BadStays(s[1..]);
      SignedTail(s[1..]);
    }
  }
}
