/** JSON values, the text `JSON.stringify` prints for them, and a parser for the
    text format of RFC 8259. An object is kept as its members in ascending key
    order, which is the one order in which the canonical text lists them; a number
    is kept as the numeral that prints it. */
module JsonText {
  import opened Order
  import opened Decimal

  datatype Json =
    | Null
    | Bool(flag: bool)
    | Num(numeral: string)
    | Str(text: string)
    | Arr(items: seq<Json>)
    | Obj(members: seq<Member>)

  datatype Member = Member(key: string, value: Json)

  function Keys(members: seq<Member>): (keys: seq<string>)
    ensures |keys| == |members|
    ensures forall i :: 0 <= i < |members| ==> keys[i] == members[i].key
  {
    seq(|members|, i requires 0 <= i < |members| => members[i].key)
  }

  /** Values that canonicalisation produces: every numeral is one of RFC 8259
      section 6 and every object lists its keys in ascending order, hence once. */
  predicate Normal(j: Json) {
    match j
    case Num(numeral) => IsNumeral(numeral)
    case Arr(items) => forall i :: 0 <= i < |items| ==> Normal(items[i])
    case Obj(members) => Ascending(Keys(members)) && forall i :: 0 <= i < |members| ==> Normal(members[i].value)
    case _ => true
  }

  // ----- characters and numerals

  predicate IsSpace(c: char) { c == ' ' || c == '\t' || c == '\n' || c == '\r' }

  predicate InNumeral(c: char) { IsDigit(c) || c == '-' || c == '+' || c == '.' || c == 'e' || c == 'E' }

  /** States of the automaton for `-? int frac? exp?` (RFC 8259 section 6). */
  datatype NumeralState = Start | Signed | Zero | Whole | Point | Fraction | Exponent | ExponentSign | Power | Bad

  function NextNumeral(state: NumeralState, c: char): NumeralState {
    match state
    case Start => if c == '-' then Signed else if c == '0' then Zero else if IsDigit(c) then Whole else Bad
    case Signed => if c == '0' then Zero else if IsDigit(c) then Whole else Bad
    case Zero => if c == '.' then Point else if c == 'e' || c == 'E' then Exponent else Bad
    case Whole =>
      if IsDigit(c) then Whole else if c == '.' then Point else if c == 'e' || c == 'E' then Exponent else Bad
    case Point => if IsDigit(c) then Fraction else Bad
    case Fraction => if IsDigit(c) then Fraction else if c == 'e' || c == 'E' then Exponent else Bad
    case Exponent => if IsDigit(c) then Power else if c == '+' || c == '-' then ExponentSign else Bad
    case ExponentSign => if IsDigit(c) then Power else Bad
    case Power => if IsDigit(c) then Power else Bad
    case Bad => Bad
  }

  function ReadNumeral(state: NumeralState, s: string): NumeralState
    decreases s
  {
    if s == "" then state else ReadNumeral(NextNumeral(state, s[0]), s[1..])
  }

  predicate IsNumeral(s: string) {
    ReadNumeral(Start, s) in {Zero, Whole, Fraction, Power}
  }

  /** Length of the longest prefix made of numeral characters. */
  function NumeralRun(t: string): (n: nat)
    ensures n <= |t|
  {
    if t != "" && InNumeral(t[0]) then 1 + NumeralRun(t[1..]) else 0
  }

  // ----- strings (RFC 8259 section 7)

  function HexDigit(n: nat): char
    requires n < 16
  {
    if n < 10 then '0' + n as char else 'a' + (n - 10) as char
  }

  function HexValue(c: char): (v: int)
    ensures v < 16
  {
    if IsDigit(c) then (c - '0') as int
    else if 'a' <= c <= 'f' then (c - 'a') as int + 10
    else if 'A' <= c <= 'F' then (c - 'A') as int + 10
    else -1
  }

  function Escaped(c: char): (text: string)
    ensures text != ""
  {
    if c == '"' then "\\\""
    else if c == '\\' then "\\\\"
    else if c as int == 8 then "\\b"
    else if c as int == 12 then "\\f"
    else if c == '\n' then "\\n"
    else if c == '\r' then "\\r"
    else if c == '\t' then "\\t"
    else if c < ' ' then "\\u00" + [HexDigit(c as int / 16), HexDigit(c as int % 16)]
    else [c]
  }

  function EscapedText(s: string): string {
    if s == "" then "" else Escaped(s[0]) + EscapedText(s[1..])
  }

  function Quoted(s: string): string { "\"" + (EscapedText(s) + "\"") }

  // ----- printing

  function Print(j: Json): string
    decreases j
  {
    match j
    case Null => "null"
    case Bool(flag) => if flag then "true" else "false"
    case Num(numeral) => numeral
    case Str(text) => Quoted(text)
    case Arr(items) => "[" + (PrintItems(items) + "]")
    case Obj(members) => "{" + (PrintMembers(members) + "}")
  }

  function PrintItems(items: seq<Json>): string
    decreases items
  {
    if items == [] then ""
    else Print(items[0]) + (if |items| == 1 then "" else "," + PrintItems(items[1..]))
  }

  function PrintMembers(members: seq<Member>): string
    decreases members
  {
    if members == [] then ""
    else
      Quoted(members[0].key) +
      (":" + (Print(members[0].value) + (if |members| == 1 then "" else "," + PrintMembers(members[1..]))))
  }

  // ----- parsing

  datatype Parsed<T> = Parsed(value: T, rest: string) | Malformed

  function SkipSpace(t: string): (r: string)
    ensures |r| <= |t|
  {
    if t != "" && IsSpace(t[0]) then SkipSpace(t[1..]) else t
  }

  /** The character a backslash escape stands for and the text after it. */
  function ParseEscape(t: string): (r: Parsed<char>)
    ensures r.Parsed? ==> |r.rest| < |t|
  {
    if t == "" then Malformed
    else if t[0] == '"' || t[0] == '\\' || t[0] == '/' then Parsed(t[0], t[1..])
    else if t[0] == 'b' then Parsed(8 as char, t[1..])
    else if t[0] == 'f' then Parsed(12 as char, t[1..])
    else if t[0] == 'n' then Parsed('\n', t[1..])
    else if t[0] == 'r' then Parsed('\r', t[1..])
    else if t[0] == 't' then Parsed('\t', t[1..])
    else if t[0] == 'u' && |t| >= 5 && forall i :: 1 <= i < 5 ==> HexValue(t[i]) >= 0 then
      var code := HexValue(t[1]) * 4096 + HexValue(t[2]) * 256 + HexValue(t[3]) * 16 + HexValue(t[4]);
      if 0 <= code < 0xD800 || 0xE000 <= code < 0x10000 then Parsed(code as char, t[5..]) else Malformed
    else Malformed
  }

  /** The rest of a string literal whose opening quote has been read. */
  function ParseString(t: string): (r: Parsed<string>)
    ensures r.Parsed? ==> |r.rest| < |t|
  {
    if t == "" || t[0] < ' ' then Malformed
    else if t[0] == '"' then Parsed("", t[1..])
    else if t[0] == '\\' then
      match ParseEscape(t[1..])
      case Malformed => Malformed
      case Parsed(c, after) => Prefixed(c, ParseString(after))
    else Prefixed(t[0], ParseString(t[1..]))
  }

  function Prefixed(c: char, r: Parsed<string>): (p: Parsed<string>)
    ensures p.Parsed? ==> r.Parsed? && p.rest == r.rest
  {
    match r
    case Malformed => Malformed
    case Parsed(s, rest) => Parsed([c] + s, rest)
  }

  /** Assigning `key` before the members of `later` were assigned: a key that is
      assigned again keeps the later value. */
  function PutBefore(key: string, value: Json, later: seq<Member>): seq<Member> {
    if later == [] then [Member(key, value)]
    else if Less(key, later[0].key) then [Member(key, value)] + later
    else if key == later[0].key then later
    else [later[0]] + PutBefore(key, value, later[1..])
  }

  function ParseWord(word: string, value: Json, t: string): (r: Parsed<Json>)
    requires word != ""
    ensures r.Parsed? ==> |r.rest| < |t|
  {
    if |word| <= |t| && t[..|word|] == word then Parsed(value, t[|word|..]) else Malformed
  }

  function ParseValue(text: string): (r: Parsed<Json>)
    ensures r.Parsed? ==> |r.rest| < |text|
    decreases |text|, 4
  {
    var t := SkipSpace(text);
    if t == "" then Malformed
    else if t[0] == 'n' then ParseWord("null", Null, t)
    else if t[0] == 't' then ParseWord("true", Bool(true), t)
    else if t[0] == 'f' then ParseWord("false", Bool(false), t)
    else if t[0] == '"' then
      match ParseString(t[1..])
      case Malformed => Malformed
      case Parsed(s, rest) => Parsed(Str(s), rest)
    else if t[0] == '[' then ParseArray(t[1..])
    else if t[0] == '{' then ParseObject(t[1..])
    else ParseNumeral(t)
  }

  function ParseNumeral(t: string): (r: Parsed<Json>)
    ensures r.Parsed? ==> |r.rest| < |t|
  {
    var n := NumeralRun(t);
    if n > 0 && IsNumeral(t[..n]) then Parsed(Num(t[..n]), t[n..]) else Malformed
  }

  /** The rest of an array whose opening bracket has been read. */
  function ParseArray(t: string): (r: Parsed<Json>)
    ensures r.Parsed? ==> |r.rest| < |t|
    decreases |t|, 6
  {
    var u := SkipSpace(t);
    if u != "" && u[0] == ']' then Parsed(Arr([]), u[1..])
    else
      match ParseItems(u)
      case Malformed => Malformed
      case Parsed(items, rest) => Parsed(Arr(items), rest)
  }

  /** The rest of an object whose opening brace has been read. */
  function ParseObject(t: string): (r: Parsed<Json>)
    ensures r.Parsed? ==> |r.rest| < |t|
    decreases |t|, 6
  {
    var u := SkipSpace(t);
    if u != "" && u[0] == '}' then Parsed(Obj([]), u[1..])
    else
      match ParseMembers(u)
      case Malformed => Malformed
      case Parsed(members, rest) => Parsed(Obj(members), rest)
  }

  /** One or more array elements and the closing bracket. */
  function ParseItems(t: string): (r: Parsed<seq<Json>>)
    ensures r.Parsed? ==> |r.rest| < |t|
    decreases |t|, 5
  {
    match ParseValue(t)
    case Malformed => Malformed
    case Parsed(item, after) =>
      var u := SkipSpace(after);
      if u != "" && u[0] == ']' then Parsed([item], u[1..])
      else if u != "" && u[0] == ',' then
        match ParseItems(u[1..])
        case Malformed => Malformed
        case Parsed(items, rest) => Parsed([item] + items, rest)
      else Malformed
  }

  /** One or more object members and the closing brace. */
  function ParseMembers(t: string): (r: Parsed<seq<Member>>)
    ensures r.Parsed? ==> |r.rest| < |t|
    decreases |t|, 5
  {
    var k := SkipSpace(t);
    if k == "" || k[0] != '"' then Malformed
    else
      match ParseString(k[1..])
      case Malformed => Malformed
      case Parsed(key, afterKey) =>
        var c := SkipSpace(afterKey);
        if c == "" || c[0] != ':' then Malformed
        else
          match ParseValue(c[1..])
          case Malformed => Malformed
          case Parsed(value, after) =>
            var u := SkipSpace(after);
            if u != "" && u[0] == '}' then Parsed([Member(key, value)], u[1..])
            else if u != "" && u[0] == ',' then
              match ParseMembers(u[1..])
              case Malformed => Malformed
              case Parsed(members, rest) => Parsed(PutBefore(key, value, members), rest)
            else Malformed
  }

  /** `JSON.parse`: one value and nothing but white space after it. */
  function Parse(text: string): Parsed<Json> {
    match ParseValue(text)
    case Malformed => Malformed
    case Parsed(value, rest) => if SkipSpace(rest) == "" then Parsed(value, "") else Malformed
  }

  // ----- parsing undoes printing

  lemma {:induction false} EscapeParses(c: char, k: string)
    requires c == '"' || c == '\\' || c < ' '
    ensures Escaped(c)[0] == '\\'
    ensures ParseEscape((Escaped(c) + k)[1..]) == Parsed(c, k)
  {
    var t := (Escaped(c) + k)[1..];
    if |Escaped(c)| == 2 {
      assert t == [Escaped(c)[1]] + k;
      assert t[1..] == k;
    } else {
      var n := c as int;
      assert t == ['u', '0', '0', HexDigit(n / 16), HexDigit(n % 16)] + k;
      assert HexValue(HexDigit(n / 16)) == n / 16 && HexValue(HexDigit(n % 16)) == n % 16;
      assert t[5..] == k;
    }
  }

  lemma {:induction false} StringParses(s: string, k: string)
    ensures ParseString(EscapedText(s) + ("\"" + k)) == Parsed(s, k)
  {
    if s == "" {
      assert EscapedText(s) + ("\"" + k) == "\"" + k && ("\"" + k)[1..] == k;
    } else {
      var after := EscapedText(s[1..]) + ("\"" + k);
      StringParses(s[1..], k);
      Regroup(Escaped(s[0]), EscapedText(s[1..]), "\"" + k);
      CharacterParses(s[0], after);
      assert s == [s[0]] + s[1..];
    }
  }

  lemma {:induction false} CharacterParses(c: char, after: string)
    ensures ParseString(Escaped(c) + after) == Prefixed(c, ParseString(after))
  {
    if c == '"' || c == '\\' || c < ' ' {
      EscapeParses(c, after);
    } else {
      assert (Escaped(c) + after)[1..] == after;
    }
  }

  lemma {:induction false} NumeralCharacters(state: NumeralState, s: string)
    requires ReadNumeral(state, s) != Bad
    ensures forall i :: 0 <= i < |s| ==> InNumeral(s[i])
    decreases s
  {
    if s != "" {
      BadStays(s[1..]);
      NumeralCharacters(NextNumeral(state, s[0]), s[1..]);
      assert s == [s[0]] + s[1..];
    }
  }

  lemma {:induction false} BadStays(s: string)
    ensures ReadNumeral(Bad, s) == Bad
  {
    if s != "" { BadStays(s[1..]); }
  }

  /** Text that cannot continue a numeral. */
  predicate Stops(k: string) { k == "" || !InNumeral(k[0]) }

  lemma {:induction false} RunIsNumeral(numeral: string, k: string)
    requires forall i :: 0 <= i < |numeral| ==> InNumeral(numeral[i])
    requires Stops(k)
    ensures NumeralRun(numeral + k) == |numeral|
  {
    if numeral != "" {
      assert (numeral + k)[1..] == numeral[1..] + k;
      RunIsNumeral(numeral[1..], k);
    } else {
      assert numeral + k == k;
    }
  }

  lemma {:induction false} NumeralParses(numeral: string, k: string)
    requires IsNumeral(numeral) && Stops(k)
    ensures ParseValue(numeral + k) == Parsed(Num(numeral), k)
  {
    var t := numeral + k;
    NumeralCharacters(Start, numeral);
    RunIsNumeral(numeral, k);
    NumeralStarts(numeral);
    assert t[..|numeral|] == numeral && t[|numeral|..] == k;
    assert SkipSpace(t) == t && ParseValue(t) == ParseNumeral(t);
  }

  /** Parsing the text of a normal value, followed by any text that cannot extend
      a numeral, gives back the value and the text that follows. */
  lemma {:induction false} PrintParses(j: Json, k: string)
    requires Normal(j) && Stops(k)
    ensures ParseValue(Print(j) + k) == Parsed(j, k)
    ensures Print(j) != "" && !IsSpace(Print(j)[0]) && Print(j)[0] != ']'
    decreases j, 1
  {
    match j
    case Null => WordParses(j, "null", k);
    case Bool(flag) => WordParses(j, if flag then "true" else "false", k);
    case Num(numeral) => NumeralParses(numeral, k); NumeralStarts(numeral);
    case Str(text) => QuotedParses(text, k);
    case Arr(items) => ArrayParses(items, k);
    case Obj(members) => ObjectParses(members, k);
  }

  lemma WordParses(j: Json, word: string, k: string)
    requires (j == Null && word == "null") || (j == Bool(true) && word == "true")
             || (j == Bool(false) && word == "false")
    ensures ParseValue(word + k) == Parsed(j, k)
  {
    assert SkipSpace(word + k) == word + k && (word + k)[..|word|] == word && (word + k)[|word|..] == k;
  }

  lemma QuotedParses(text: string, k: string)
    ensures ParseValue(Quoted(text) + k) == Parsed(Str(text), k)
  {
    var inner := EscapedText(text) + ("\"" + k);
    BracketText("\"", EscapedText(text), "\"", k);
    StringParses(text, k);
    assert ("\"" + inner)[1..] == inner && SkipSpace("\"" + inner) == "\"" + inner;
  }

  lemma {:induction false} ArrayParses(items: seq<Json>, k: string)
    requires Normal(Arr(items))
    ensures ParseValue(Print(Arr(items)) + k) == Parsed(Arr(items), k)
    decreases items, 1
  {
    BracketText("[", PrintItems(items), "]", k);
    if items == [] {
      EmptyArrayParses(k);
    } else {
      var inner := PrintItems(items) + ("]" + k);
      BracketOpens('[', inner);
      ItemsParse(items, k);
      PrintParses(items[0], "]");
      ItemsStart(items, k);
      assert SkipSpace(inner) == inner;
    }
  }

  lemma {:induction false} ObjectParses(members: seq<Member>, k: string)
    requires Normal(Obj(members))
    ensures ParseValue(Print(Obj(members)) + k) == Parsed(Obj(members), k)
    decreases members, 1
  {
    BracketText("{", PrintMembers(members), "}", k);
    if members == [] {
      EmptyObjectParses(k);
    } else {
      var inner := PrintMembers(members) + ("}" + k);
      BracketOpens('{', inner);
      MembersParse(members, k);
      MemberText(members, k);
      assert inner[0] == '"';
      assert SkipSpace(inner) == inner;
    }
  }

  lemma BracketText(open: string, inner: string, close: string, k: string)
    ensures open + (inner + close) + k == open + (inner + (close + k))
  {
    Regroup(open, inner + close, k);
    Regroup(inner, close, k);
  }

  lemma SkipsNothing(c: char, k: string)
    requires !IsSpace(c)
    ensures SkipSpace([c] + k) == [c] + k && ([c] + k)[1..] == k
  {}

  lemma EmptyArrayParses(k: string)
    ensures ParseValue("[" + ("" + ("]" + k))) == Parsed(Arr([]), k)
  {
    BracketOpens('[', "]" + k);
    SkipsNothing(']', k);
    assert "" + ("]" + k) == "]" + k == [']'] + k;
  }

  lemma EmptyObjectParses(k: string)
    ensures ParseValue("{" + ("" + ("}" + k))) == Parsed(Obj([]), k)
  {
    BracketOpens('{', "}" + k);
    SkipsNothing('}', k);
    assert "" + ("}" + k) == "}" + k == ['}'] + k;
  }

  lemma ItemsStart(items: seq<Json>, k: string)
    requires items != [] && Print(items[0]) != "" && !IsSpace(Print(items[0])[0]) && Print(items[0])[0] != ']'
    ensures var t := PrintItems(items) + ("]" + k); t != "" && !IsSpace(t[0]) && t[0] != ']'
  {
    ItemsText(items, k);
  }

  lemma BracketOpens(c: char, inner: string)
    requires c == '[' || c == '{'
    ensures ParseValue([c] + inner) == if c == '[' then ParseArray(inner) else ParseObject(inner)
  {
    SkipsNothing(c, inner);
  }

  lemma {:induction false} NumeralStarts(numeral: string)
    requires IsNumeral(numeral)
    ensures numeral != "" && (numeral[0] == '-' || IsDigit(numeral[0]))
  {
    if numeral != "" { BadStays(numeral[1..]); }
  }

  lemma Regroup(a: string, b: string, c: string)
    ensures a + b + c == a + (b + c)
  {}

  lemma {:induction false} ItemsParse(items: seq<Json>, k: string)
    requires items != [] && forall i :: 0 <= i < |items| ==> Normal(items[i])
    ensures ParseItems(PrintItems(items) + ("]" + k)) == Parsed(items, k)
    decreases items, 0
  {
    var others := PrintItems(items[1..]) + ("]" + k);
    assert items == [items[0]] + items[1..];
    ItemsText(items, k);
    if |items| == 1 {
      assert items == [items[0]];
      PrintParses(items[0], "]" + k);
      LastItemParses(items[0], k);
    } else {
      PrintParses(items[0], "," + others);
      ItemParses(items[0], others);
      ItemsParse(items[1..], k);
    }
  }

  lemma ItemsText(items: seq<Json>, k: string)
    requires items != []
    ensures PrintItems(items) + ("]" + k) ==
            Print(items[0]) + (if |items| == 1 then "]" + k else "," + (PrintItems(items[1..]) + ("]" + k)))
  {
    if |items| == 1 {
      assert PrintItems(items) == Print(items[0]);
    } else {
      Regroup(Print(items[0]), "," + PrintItems(items[1..]), "]" + k);
      Regroup(",", PrintItems(items[1..]), "]" + k);
    }
  }

  /** How an element that is not the last is read, given how its text is. */
  lemma ItemParses(item: Json, others: string)
    requires ParseValue(Print(item) + ("," + others)) == Parsed(item, "," + others)
    ensures ParseItems(Print(item) + ("," + others)) ==
            match ParseItems(others)
            case Malformed => Malformed
            case Parsed(items, rest) => Parsed([item] + items, rest)
  {
    SkipsNothing(',', others);
  }

  lemma LastItemParses(item: Json, k: string)
    requires ParseValue(Print(item) + ("]" + k)) == Parsed(item, "]" + k)
    ensures ParseItems(Print(item) + ("]" + k)) == Parsed([item], k)
  {
    SkipsNothing(']', k);
  }

  lemma {:induction false} MembersParse(members: seq<Member>, k: string)
    requires members != [] && Normal(Obj(members))
    ensures ParseMembers(PrintMembers(members) + ("}" + k)) == Parsed(members, k)
    decreases members, 0
  {
    var key, value, more := members[0].key, members[0].value, AfterFirst(members, k);
    MemberText(members, k);
    StringParses(key, ":" + (Print(value) + more));
    PrintParses(value, more);
    if |members| == 1 {
      LastMemberParses(key, value, k);
      assert members == [members[0]];
    } else {
      TailNormal(members);
      MembersParse(members[1..], k);
      MemberParses(key, value, PrintMembers(members[1..]) + ("}" + k));
      PutFirst(members);
    }
  }

  /** The text of a member followed by `more`. */
  function MemberThen(key: string, value: Json, more: string): string {
    "\"" + (EscapedText(key) + ("\"" + (":" + (Print(value) + more))))
  }

  /** What follows the first member in the text of an object. */
  function AfterFirst(members: seq<Member>, k: string): (more: string)
    requires members != []
    ensures more != ""
  {
    if |members| == 1 then "}" + k else "," + (PrintMembers(members[1..]) + ("}" + k))
  }

  lemma PutFirst(members: seq<Member>)
    requires |members| > 1 && Normal(Obj(members))
    ensures PutBefore(members[0].key, members[0].value, members[1..]) == members
  {
    assert Less(Keys(members)[0], Keys(members)[1]);
    assert members == [members[0]] + members[1..];
  }

  lemma {:induction false} MemberText(members: seq<Member>, k: string)
    requires members != []
    ensures PrintMembers(members) + ("}" + k) == MemberThen(members[0].key, members[0].value, AfterFirst(members, k))
  {
    var e, v, tail := EscapedText(members[0].key), Print(members[0].value), "}" + k;
    var rest := if |members| == 1 then "" else "," + PrintMembers(members[1..]);
    var more := AfterFirst(members, k);
    assert rest + tail == more by {
      if |members| > 1 { Regroup(",", PrintMembers(members[1..]), tail); }
    }
    calc {
      "\"" + (e + "\"") + (":" + (v + rest)) + tail;
      { Regroup("\"" + (e + "\""), ":" + (v + rest), tail); }
      "\"" + (e + "\"") + (":" + (v + rest) + tail);
      { Regroup(":", v + rest, tail); Regroup(v, rest, tail); }
      "\"" + (e + "\"") + (":" + (v + more));
      { Regroup("\"", e + "\"", ":" + (v + more)); Regroup(e, "\"", ":" + (v + more)); }
      "\"" + (e + ("\"" + (":" + (v + more))));
    }
  }

  /** How a member that is not the last is read, given how its key and value are. */
  lemma {:induction false} MemberParses(key: string, value: Json, others: string)
    requires ParseString(EscapedText(key) + ("\"" + (":" + (Print(value) + ("," + others))))) ==
             Parsed(key, ":" + (Print(value) + ("," + others)))
    requires ParseValue(Print(value) + ("," + others)) == Parsed(value, "," + others)
    ensures ParseMembers(MemberThen(key, value, "," + others)) ==
            match ParseMembers(others)
            case Malformed => Malformed
            case Parsed(members, rest) => Parsed(PutBefore(key, value, members), rest)
  {
    KeyRead(key, Print(value) + ("," + others));
    SkipsNothing(',', others);
  }

  lemma {:induction false} LastMemberParses(key: string, value: Json, k: string)
    requires ParseString(EscapedText(key) + ("\"" + (":" + (Print(value) + ("}" + k))))) ==
             Parsed(key, ":" + (Print(value) + ("}" + k)))
    requires ParseValue(Print(value) + ("}" + k)) == Parsed(value, "}" + k)
    ensures ParseMembers(MemberThen(key, value, "}" + k)) == Parsed([Member(key, value)], k)
  {
    KeyRead(key, Print(value) + ("}" + k));
    SkipsNothing('}', k);
  }

  lemma KeyRead(key: string, after: string)
    ensures var t := "\"" + (EscapedText(key) + ("\"" + (":" + after)));
            SkipSpace(t) == t && t[1..] == EscapedText(key) + ("\"" + (":" + after))
    ensures SkipSpace(":" + after) == ":" + after && (":" + after)[1..] == after
  {}

  lemma RoundTrip(j: Json)
    requires Normal(j)
    ensures Parse(Print(j)) == Parsed(j, "")
  {
    PrintParses(j, "");
    assert Print(j) + "" == Print(j);
  }

  /** Canonical text determines the value. */
  lemma PrintInjective(a: Json, b: Json)
    requires Normal(a) && Normal(b) && Print(a) == Print(b)
    ensures a == b
  {
    RoundTrip(a);
    RoundTrip(b);
  }

  // ----- what the text never contains

  lemma {:induction false} EscapedHasNoControl(s: string)
    ensures forall c :: c in EscapedText(s) ==> c >= ' '
  {
    if s != "" { EscapedHasNoControl(s[1..]); }
  }

  /** No control character, in particular no raw line feed, occurs in the text of a
      normal value: one value is one line. */
  lemma {:induction false} PrintHasNoControl(j: Json)
    requires Normal(j)
    ensures forall c :: c in Print(j) ==> c >= ' '
    decreases j, 1
  {
    match j
    case Num(numeral) => NumeralCharacters(Start, numeral);
    case Str(text) => EscapedHasNoControl(text);
    case Arr(items) => ItemsHaveNoControl(items);
    case Obj(members) => MembersHaveNoControl(members);
    case _ =>
  }

  lemma {:induction false} ItemsHaveNoControl(items: seq<Json>)
    requires forall i :: 0 <= i < |items| ==> Normal(items[i])
    ensures forall c :: c in PrintItems(items) ==> c >= ' '
    decreases items, 0
  {
    if items != [] {
      PrintHasNoControl(items[0]);
      ItemsHaveNoControl(items[1..]);
    }
  }

  lemma {:induction false} MembersHaveNoControl(members: seq<Member>)
    requires forall i :: 0 <= i < |members| ==> Normal(members[i].value)
    ensures forall c :: c in PrintMembers(members) ==> c >= ' '
    decreases members, 0
  {
    if members != [] {
      EscapedHasNoControl(members[0].key);
      PrintHasNoControl(members[0].value);
      MembersHaveNoControl(members[1..]);
    }
  }

  // ----- parsing always yields a normal value

  lemma {:induction false} PutBeforeNormal(key: string, value: Json, later: seq<Member>)
    requires Normal(value) && Normal(Obj(later))
    ensures Normal(Obj(PutBefore(key, value, later)))
    ensures forall m :: m in PutBefore(key, value, later) ==> m.key == key || m in later
  {
    if later == [] {
    } else if Less(key, later[0].key) {
      PrependNormal(Member(key, value), later);
    } else if key != later[0].key {
      LessTrichotomy(key, later[0].key);
      TailNormal(later);
      PutBeforeNormal(key, value, later[1..]);
      var tail := PutBefore(key, value, later[1..]);
      if tail[0] in later[1..] {
        var m :| 0 <= m < |later[1..]| && later[1..][m] == tail[0];
        assert Less(Keys(later)[0], Keys(later)[m + 1]);
      }
      PrependNormal(later[0], tail);
    }
  }

  lemma TailNormal(members: seq<Member>)
    requires members != [] && Normal(Obj(members))
    ensures Normal(Obj(members[1..]))
  {
    assert forall i :: 0 <= i < |members| - 1 ==> Keys(members[1..])[i] == Keys(members)[i + 1];
  }

  lemma PrependNormal(m: Member, members: seq<Member>)
    requires Normal(m.value) && members != [] && Normal(Obj(members)) && Less(m.key, members[0].key)
    ensures Normal(Obj([m] + members))
  {
    var all := [m] + members;
    forall i, j | 0 <= i < j < |all| ensures Less(Keys(all)[i], Keys(all)[j]) {
      if i == 0 && j > 1 {
        assert Less(Keys(members)[0], Keys(members)[j - 1]);
        LessTransitive(m.key, members[0].key, members[j - 1].key);
      } else if i > 0 {
        assert Less(Keys(members)[i - 1], Keys(members)[j - 1]);
      }
    }
  }

  /** Whatever the text, in whatever key order and with whatever white space, a
      parsed value is normal. */
  lemma {:induction false} ParsedValueNormal(t: string)
    ensures ParseValue(t).Parsed? ==> Normal(ParseValue(t).value)
    decreases |t|, 4
  {
    var u := SkipSpace(t);
    if u != "" {
      if u[0] == '[' { ParsedItemsNormal(SkipSpace(u[1..])); }
      if u[0] == '{' { ParsedMembersNormal(SkipSpace(u[1..])); }
    }
  }

  lemma {:induction false} ParsedItemsNormal(t: string)
    ensures ParseItems(t).Parsed? ==> Normal(Arr(ParseItems(t).value))
    decreases |t|, 5
  {
    ParsedValueNormal(t);
    match ParseValue(t)
    case Malformed =>
    case Parsed(_, after) =>
      var u := SkipSpace(after);
      if u != "" { ParsedItemsNormal(u[1..]); }
  }

  lemma {:induction false} ParsedMembersNormal(t: string)
    ensures ParseMembers(t).Parsed? ==> Normal(Obj(ParseMembers(t).value))
    decreases |t|, 5
  {
    var k := SkipSpace(t);
    if k != "" && k[0] == '"' && ParseString(k[1..]).Parsed? {
      var key, c := ParseString(k[1..]).value, SkipSpace(ParseString(k[1..]).rest);
      if c != "" && c[0] == ':' && ParseValue(c[1..]).Parsed? {
        ParsedValueNormal(c[1..]);
        var value, u := ParseValue(c[1..]).value, SkipSpace(ParseValue(c[1..]).rest);
        if u != "" && u[0] == ',' && ParseMembers(u[1..]).Parsed? {
          ParsedMembersNormal(u[1..]);
          PutBeforeNormal(key, value, ParseMembers(u[1..]).value);
        }
      }
    }
  }

  /** Any text that parses, in whatever layout, prints to a text of the same value. */
  lemma CanonicalTextIsFixed(t: string)
    requires Parse(t).Parsed?
    ensures Parse(Print(Parse(t).value)) == Parse(t)
  {
    ParsedValueNormal(t);
    RoundTrip(Parse(t).value);
  }
}
