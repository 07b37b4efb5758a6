/**
 * JSON text as RFC 8259 spells it, Go's quoting of strings, and what the search for a closing
 * tag sees of both.
 */
module Json {
  import opened Text
  import opened ToolPrompt

  // --- strings: section 7 of RFC 8259 ---------------------------------------------------

  predicate IsHex(c: char) {
    '0' <= c <= '9' || 'a' <= c <= 'f' || 'A' <= c <= 'F'
  }

  function HexValue(c: char): (v: nat)
    requires IsHex(c)
    ensures v < 16
  {
    if c <= '9' then c as int - '0' as int
    else if c <= 'F' then c as int - 'A' as int + 10
    else c as int - 'a' as int + 10
  }

  /** How many characters the escape or plain character at the front of a string body takes; 0 if neither. */
  function Unit(body: string): (n: nat)
    ensures n <= |body|
  {
    if body == "" then 0
    else if body[0] == '\\' then
      if |body| >= 2 && body[1] in "\"\\/bfnrt" then 2
      else if |body| >= 6 && body[1] == 'u' && forall i :: 2 <= i < 6 ==> IsHex(body[i]) then 6
      else 0
    else if body[0] == '"' || body[0] < ' ' then 0
    else 1
  }

  /** What may stand between the quotes. */
  predicate IsBody(body: string) {
    body == "" || (Unit(body) > 0 && IsBody(body[Unit(body)..]))
  }

  /** The character a unit stands for; a surrogate on its own is the replacement character. */
  function UnitValue(body: string): char
    requires Unit(body) > 0
  {
    if body[0] != '\\' then body[0]
    else if body[1] == 'u' then
      var v := ((HexValue(body[2]) * 16 + HexValue(body[3])) * 16 + HexValue(body[4])) * 16 + HexValue(body[5]);
      if 0xD800 <= v < 0xE000 then '\U{FFFD}' else v as char
    else
      match body[1]
      case 'b' => '\U{8}'
      case 'f' => '\U{C}'
      case 'n' => '\n'
      case 'r' => '\r'
      case 't' => '\t'
      case other => other
  }

  /** The string a body spells. Surrogate pairs are not joined here; no quoted name holds one. */
  function Decode(body: string): string
    requires IsBody(body)
  {
    if body == "" then "" else [UnitValue(body)] + Decode(body[Unit(body)..])
  }

  // --- strconv.Quote -----------------------------------------------------------------------

  /** What of Unicode beyond ASCII is printable is the standard library's table. */
  type Table = char -> bool

  predicate IsPrint(table: Table, c: char) {
    ' ' <= c <= '~' || (c >= '\U{80}' && table(c))
  }

  function HexDigit(v: nat): (c: char)
    requires v < 16
    ensures IsHex(c) && HexValue(c) == v
  {
    if v < 10 then ('0' as int + v) as char else ('a' as int + v - 10) as char
  }

  function Hex(v: nat, digits: nat): (s: string)
    ensures |s| == digits && forall i :: 0 <= i < digits ==> IsHex(s[i])
  {
    if digits == 0 then "" else Hex(v / 16, digits - 1) + [HexDigit(v % 16)]
  }

  function QuoteChar(table: Table, c: char): (s: string)
    ensures s != ""
  {
    if c == '"' || c == '\\' then ['\\', c]
    else if IsPrint(table, c) then [c]
    else if c == '\U{7}' then "\\a"
    else if c == '\U{8}' then "\\b"
    else if c == '\U{C}' then "\\f"
    else if c == '\n' then "\\n"
    else if c == '\r' then "\\r"
    else if c == '\t' then "\\t"
    else if c == '\U{B}' then "\\v"
    else if c < ' ' || c == '\U{7F}' then "\\x" + Hex(c as int, 2)
    else if c < '\U{10000}' then "\\u" + Hex(c as int, 4)
    else "\\U" + Hex(c as int, 8)
  }

  function QuoteBody(table: Table, s: string): string {
    if s == "" then "" else QuoteChar(table, s[0]) + QuoteBody(table, s[1..])
  }

  function Quote(table: Table, s: string): string {
    "\"" + QuoteBody(table, s) + "\""
  }

  /** Quoting and JSON agree on a character: JSON has no escape spelled \a, \v, \x or \U. */
  predicate Agrees(table: Table, c: char) {
    IsPrint(table, c) || c in "\U{8}\U{C}\n\r\t" || '\U{80}' <= c < '\U{10000}'
  }

  predicate AllAgree(table: Table, s: string) {
    forall i :: 0 <= i < |s| ==> Agrees(table, s[i])
  }

  lemma Hex4(v: nat)
    requires v < 0x10000
    ensures var s := Hex(v, 4);
            ((HexValue(s[0]) * 16 + HexValue(s[1])) * 16 + HexValue(s[2])) * 16 + HexValue(s[3]) == v
  {
    var a, b, c := v / 16, v / 16 / 16, v / 16 / 16 / 16;
    assert Hex(c, 1) == Hex(c / 16, 0) + [HexDigit(c % 16)];
    assert Hex(b, 2) == Hex(c, 1) + [HexDigit(b % 16)];
    assert Hex(a, 3) == Hex(b, 2) + [HexDigit(a % 16)];
    assert Hex(v, 4) == Hex(a, 3) + [HexDigit(v % 16)];
  }

  lemma QuotedUnit(table: Table, c: char, rest: string)
    ensures var q := QuoteChar(table, c) + rest;
            if Agrees(table, c) then
              Unit(q) == |QuoteChar(table, c)| && UnitValue(q) == c && q[Unit(q)..] == rest
            else Unit(q) == 0
  {
    var q := QuoteChar(table, c) + rest;
    if Agrees(table, c) {
      if !IsPrint(table, c) && c >= '\U{80}' {
        Hex4(c as int);
        assert q[2..6] == Hex(c as int, 4);
      }
      assert q[|QuoteChar(table, c)|..] == rest;
    } else {
      assert q[0] == '\\' && q[1] == QuoteChar(table, c)[1];
    }
  }

  /** A quoted string is a JSON string exactly when the two agree on every character, and then it spells it. */
  lemma {:induction false} QuoteIsJson(table: Table, s: string)
    ensures IsBody(QuoteBody(table, s)) <==> AllAgree(table, s)
    ensures AllAgree(table, s) ==> Decode(QuoteBody(table, s)) == s
  {
    if s != "" {
      QuotedUnit(table, s[0], QuoteBody(table, s[1..]));
      QuoteIsJson(table, s[1..]);
      assert AllAgree(table, s) <==> Agrees(table, s[0]) && AllAgree(table, s[1..]) by {
        assert forall i :: 1 <= i < |s| ==> s[1..][i - 1] == s[i];
      }
      assert [s[0]] + s[1..] == s;
    }
  }

  // --- values ---------------------------------------------------------------------------------

  /** A JSON value, with the white space it was written with. */
  datatype Value =
    | Word(word: string)
    | Number(negative: bool, whole: string, fraction: string, exponent: string)
    | String(body: string)
    | Array(items: Items)
    | Object(members: Members)

  datatype Items =
    | NoItems(ws: string)
    | Item(before: string, item: Value, after: string, more: Items, last: bool)

  datatype Members =
    | NoMembers(ws: string)
    | Member(before: string, key: string, colon: string, gap: string, value: Value, after: string,
             more: Members, last: bool)

  predicate IsWs(s: string) {
    forall i :: 0 <= i < |s| ==> s[i] in " \t\n\r"
  }

  predicate Digits(s: string) {
    s != "" && forall i :: 0 <= i < |s| ==> '0' <= s[i] <= '9'
  }

  predicate IsFraction(s: string) {
    s == "" || (s[0] == '.' && Digits(s[1..]))
  }

  predicate IsExponent(s: string) {
    s == "" || (s[0] in "eE" && (Digits(s[1..]) || (|s| > 1 && s[1] in "+-" && Digits(s[2..]))))
  }

  predicate Grammatical(v: Value) {
    match v
    case Word(w) => w == "true" || w == "false" || w == "null"
    case Number(_, whole, fraction, exponent) =>
      Digits(whole) && (whole[0] == '0' ==> whole == "0") && IsFraction(fraction) && IsExponent(exponent)
    case String(body) => IsBody(body)
    case Array(items) => ItemsGrammatical(items)
    case Object(members) => MembersGrammatical(members)
  }

  predicate ItemsGrammatical(items: Items) {
    match items
    case NoItems(ws) => IsWs(ws)
    case Item(before, item, after, more, last) =>
      IsWs(before) && IsWs(after) && Grammatical(item) && (last || (more.Item? && ItemsGrammatical(more)))
  }

  predicate MembersGrammatical(members: Members) {
    match members
    case NoMembers(ws) => IsWs(ws)
    case Member(before, key, colon, gap, value, after, more, last) =>
      IsWs(before) && IsBody(key) && IsWs(colon) && IsWs(gap) && Grammatical(value) && IsWs(after) &&
      (last || (more.Member? && MembersGrammatical(more)))
  }

  function Print(v: Value): string {
    match v
    case Word(w) => w
    case Number(negative, whole, fraction, exponent) =>
      (if negative then "-" else "") + whole + fraction + exponent
    case String(body) => "\"" + body + "\""
    case Array(items) => "[" + PrintItems(items) + "]"
    case Object(members) => "{" + PrintMembers(members) + "}"
  }

  function PrintItems(items: Items): string {
    match items
    case NoItems(ws) => ws
    case Item(before, item, after, more, last) =>
      before + Print(item) + after + if last then "" else "," + PrintItems(more)
  }

  function PrintMembers(members: Members): string {
    match members
    case NoMembers(ws) => ws
    case Member(before, key, colon, gap, value, after, more, last) =>
      before + ("\"" + key + "\"") + colon + ":" + gap + Print(value) + after +
      if last then "" else "," + PrintMembers(more)
  }

  /** json.Valid */
  ghost predicate IsJson(s: string) {
    Deepest(s) <= MAX_DEPTH && exists v, before, after :: Spells(s, before, v, after)
  }

  ghost predicate Spells(s: string, before: string, v: Value, after: string) {
    Grammatical(v) && IsWs(before) && IsWs(after) && s == before + Print(v) + after
  }

  // --- how deep it nests -------------------------------------------------------------------------

  /** How many values Go's scanner lets stand open at once. */
  const MAX_DEPTH := 10_000

  /** Where the scanner stands: the values open, and the most there have been. */
  datatype Nest = Nest(lex: Lex, open: int, deepest: int)

  function NestStep(n: Nest, c: char): Nest {
    var l := LexStep(n.lex, c);
    if n.lex.inString then n.(lex := l)
    else if c == '{' || c == '[' then Nest(l, n.open + 1, if n.deepest > n.open then n.deepest else n.open + 1)
    else if c == '}' || c == ']' then Nest(l, n.open - 1, n.deepest)
    else n.(lex := l)
  }

  function NestOver(n: Nest, s: string): Nest {
    if s == "" then n else NestStep(NestOver(n, s[..|s| - 1]), s[|s| - 1])
  }

  function Deepest(s: string): int {
    NestOver(Nest(OUTSIDE, 0, 0), s).deepest
  }

  lemma {:induction false} NestOverJoin(n: Nest, a: string, b: string)
    ensures NestOver(n, a + b) == NestOver(NestOver(n, a), b)
  {
    if b == "" {
      assert a + b == a;
    } else {
      assert (a + b)[..|a + b| - 1] == a + b[..|b| - 1];
      NestOverJoin(n, a, b[..|b| - 1]);
    }
  }

  /** Inside `more` other values everything is that much deeper. */
  lemma {:induction false} NestsDeeper(n: Nest, s: string, more: int)
    ensures var m := NestOver(n, s);
            NestOver(Nest(n.lex, n.open + more, n.deepest + more), s) == Nest(m.lex, m.open + more, m.deepest + more)
  {
    if s != "" { NestsDeeper(n, s[..|s| - 1], more); }
  }

  // --- what the search for a closing tag sees ---------------------------------------------------

  /** Scanned from outside a string, the text ends outside one and shows no `<` outside any. */
  ghost predicate Quiet(s: string) {
    forall k :: 0 <= k <= |s| ==>
      var l := LexOver(OUTSIDE, s[..k]);
      if k < |s| then l == OUTSIDE ==> s[k] != '<' else l == OUTSIDE
  }

  lemma QuietJoin(a: string, b: string)
    requires Quiet(a) && Quiet(b)
    ensures Quiet(a + b)
  {
    assert a[..|a|] == a;
    forall k | 0 <= k <= |a + b|
      ensures var l := LexOver(OUTSIDE, (a + b)[..k]);
              if k < |a + b| then l == OUTSIDE ==> (a + b)[k] != '<' else l == OUTSIDE
    {
      if k < |a| {
        assert (a + b)[..k] == a[..k];
      } else {
        assert (a + b)[..k] == a + b[..k - |a|];
        LexOverJoin(OUTSIDE, a, b[..k - |a|]);
      }
    }
  }

  /** Text with no quote and no `<` at all. */
  predicate Bare(s: string) {
    forall i :: 0 <= i < |s| ==> s[i] != '"' && s[i] != '<'
  }

  lemma {:induction false} BareLexes(s: string)
    requires forall i :: 0 <= i < |s| ==> s[i] != '"'
    ensures LexOver(OUTSIDE, s) == OUTSIDE
  {
    if s != "" {
      BareLexes(s[..|s| - 1]);
    }
  }

  lemma BareIsQuiet(s: string)
    requires Bare(s)
    ensures Quiet(s)
  {
    forall k | 0 <= k <= |s|
      ensures LexOver(OUTSIDE, s[..k]) == OUTSIDE
    {
      BareLexes(s[..k]);
    }
  }

  const WITHIN := Lex(true, false)

  /** Scanned from inside a string, the text stays inside it. */
  ghost predicate Within(body: string) {
    forall k :: 0 <= k <= |body| ==>
      var l := LexOver(WITHIN, body[..k]);
      l.inString && (k == |body| ==> !l.escaped)
  }

  lemma WithinJoin(a: string, b: string)
    requires Within(a) && Within(b)
    ensures Within(a + b)
  {
    assert a[..|a|] == a;
    forall k | 0 <= k <= |a + b|
      ensures var l := LexOver(WITHIN, (a + b)[..k]);
              l.inString && (k == |a + b| ==> !l.escaped)
    {
      if k < |a| {
        assert (a + b)[..k] == a[..k];
      } else {
        assert (a + b)[..k] == a + b[..k - |a|];
        LexOverJoin(WITHIN, a, b[..k - |a|]);
      }
    }
  }

  predicate Plain(s: string) {
    forall i :: 0 <= i < |s| ==> s[i] != '"' && s[i] != '\\'
  }

  lemma {:induction false} PlainLexes(s: string)
    requires Plain(s)
    ensures LexOver(WITHIN, s) == WITHIN
  {
    if s != "" {
      PlainLexes(s[..|s| - 1]);
    }
  }

  lemma PlainIsWithin(s: string)
    requires Plain(s)
    ensures Within(s)
  {
    forall k | 0 <= k <= |s|
      ensures LexOver(WITHIN, s[..k]) == WITHIN
    {
      PlainLexes(s[..k]);
    }
    assert s[..|s|] == s;
  }

  /** A backslash and whatever it escapes. */
  lemma EscapeIsWithin(c: char)
    ensures Within(['\\', c])
  {
    var s := ['\\', c];
    assert s[..0] == "" && s[..1] == ['\\'] && s[..1][..0] == "" && s[..2] == s;
    assert LexOver(WITHIN, s[..1]) == Lex(true, true);
    assert LexOver(WITHIN, s) == WITHIN;
  }

  lemma EscapeThenPlain(s: string)
    requires |s| >= 2 && s[0] == '\\' && Plain(s[2..])
    ensures Within(s)
  {
    EscapeIsWithin(s[1]);
    PlainIsWithin(s[2..]);
    WithinJoin(['\\', s[1]], s[2..]);
    assert s == ['\\', s[1]] + s[2..];
  }

  lemma {:induction false} BodyIsWithin(body: string)
    requires IsBody(body)
    ensures Within(body)
  {
    if body == "" {
      PlainIsWithin(body);
    } else {
      var n := Unit(body);
      BodyIsWithin(body[n..]);
      if body[0] == '\\' {
        EscapeThenPlain(body[..n]);
      } else {
        PlainIsWithin(body[..n]);
      }
      WithinJoin(body[..n], body[n..]);
      assert body == body[..n] + body[n..];
    }
  }

  /** What Go's quoting writes stays inside its quotes, even where JSON has no such escape. */
  lemma {:induction false} QuotedIsWithin(table: Table, s: string)
    ensures Within(QuoteBody(table, s))
  {
    if s == "" {
      PlainIsWithin("");
    } else {
      QuotedIsWithin(table, s[1..]);
      var q := QuoteChar(table, s[0]);
      if q == [s[0]] {
        PlainIsWithin(q);
      } else {
        EscapeThenPlain(q);
      }
      WithinJoin(QuoteChar(table, s[0]), QuoteBody(table, s[1..]));
    }
  }

  lemma WithinIsQuiet(body: string)
    requires Within(body)
    ensures Quiet("\"" + body + "\"")
  {
    var s := "\"" + body + "\"";
    assert s[..1][..0] == "" && LexOver(OUTSIDE, s[..1]) == WITHIN;
    forall k | 1 <= k <= |body| + 1
      ensures LexOver(OUTSIDE, s[..k]) == LexOver(WITHIN, body[..k - 1])
    {
      assert s[..k] == s[..1] + body[..k - 1];
      LexOverJoin(OUTSIDE, s[..1], body[..k - 1]);
    }
    assert s[..|s| - 1] == s[..|body| + 1];
    assert s[..|s|] == s;
  }

  lemma StringIsQuiet(body: string)
    requires IsBody(body)
    ensures Quiet("\"" + body + "\"")
  {
    BodyIsWithin(body);
    WithinIsQuiet(body);
  }

  /** A string nests nothing, whatever it spells. */
  lemma StringNestsNothing(n: Nest, body: string)
    requires n.lex == OUTSIDE && Within(body)
    ensures NestOver(n, "\"" + body + "\"") == n
  {
    NestOverJoin(n, "\"" + body, "\"");
    NestOverJoin(n, "\"", body);
    assert "\""[..0] == "" && NestOver(n, "\"") == n.(lex := WITHIN);
    StaysWithin(n.(lex := WITHIN), body, |body|);
    assert body[..|body|] == body;
  }

  lemma {:induction false} StaysWithin(n: Nest, body: string, k: nat)
    requires n.lex == WITHIN && Within(body) && k <= |body|
    ensures NestOver(n, body[..k]) == n.(lex := LexOver(WITHIN, body[..k]))
  {
    if k > 0 {
      StaysWithin(n, body, k - 1);
      assert body[..k][..k - 1] == body[..k - 1];
    }
  }

  /** An object of `depth` objects, each the only value of the one around it. */
  function Deep(depth: nat): Members {
    if depth <= 1 then NoMembers("") else Member("", "", "", "", Object(Deep(depth - 1)), "", NoMembers(""), true)
  }

  lemma {:induction false} DeepNests(depth: nat)
    requires depth >= 1
    ensures MembersGrammatical(Deep(depth))
    ensures NestOver(Nest(OUTSIDE, 0, 0), Print(Object(Deep(depth)))) == Nest(OUTSIDE, 0, depth)
  {
    hide NestOver, Within;
    if depth == 1 {
      NestOverNothing(Nest(OUTSIDE, 0, 0));
      BracesNest("", 0);
    } else {
      var n, rest := Nest(OUTSIDE, 0, 0), Print(Object(Deep(depth - 1)));
      DeepNests(depth - 1);
      var named := "\"" + "" + "\"" + ":";
      assert PrintMembers(Deep(depth)) == named + rest;
      hide Print, PrintMembers;
      PlainIsWithin("");
      StringNestsNothing(n, "");
      NestOverChar(n, "\"" + "" + "\"", ':');
      NestOverJoin(n, named, rest);
      BracesNest(named + rest, depth - 1);
    }
  }

  lemma NestOverNothing(n: Nest)
    ensures NestOver(n, "") == n
  {
  }

  lemma NestOverChar(n: Nest, s: string, c: char)
    ensures NestOver(n, s + [c]) == NestStep(NestOver(n, s), c)
  {
    assert (s + [c])[..|s|] == s;
  }

  lemma BracesNest(inside: string, depth: nat)
    requires NestOver(Nest(OUTSIDE, 0, 0), inside) == Nest(OUTSIDE, 0, depth)
    ensures NestOver(Nest(OUTSIDE, 0, 0), "{" + inside + "}") == Nest(OUTSIDE, 0, depth + 1)
  {
    hide NestOver;
    var n := Nest(OUTSIDE, 0, 0);
    NestOverNothing(n);
    NestOverChar(n, "", '{');
    assert "" + "{" == "{";
    NestOverJoin(n, "{", inside);
    NestsDeeper(n, inside, 1);
    NestOverChar(n, "{" + inside, '}');
  }

  /** However its strings quote the tags, JSON text never closes a block before its end. */
  lemma {:induction false} ValueIsQuiet(v: Value)
    requires Grammatical(v)
    ensures Quiet(Print(v))
  {
    match v
    case Word(w) => BareIsQuiet(w);
    case Number(_, _, _, _) => NumberIsBare(v); BareIsQuiet(Print(v));
    case String(body) => StringIsQuiet(body);
    case Array(items) =>
      ItemsAreQuiet(items);
      BareIsQuiet("[");
      BareIsQuiet("]");
      QuietJoin("[", PrintItems(items));
      QuietJoin("[" + PrintItems(items), "]");
    case Object(members) =>
      MembersAreQuiet(members);
      BareIsQuiet("{");
      BareIsQuiet("}");
      QuietJoin("{", PrintMembers(members));
      QuietJoin("{" + PrintMembers(members), "}");
  }

  lemma NumberIsBare(v: Value)
    ensures v.Number? && Grammatical(v) ==> Bare(Print(v))
  {
    if v.Number? && Grammatical(v) {
      assert forall i :: 1 <= i < |v.fraction| ==> v.fraction[1..][i - 1] == v.fraction[i];
      assert forall i :: 1 <= i < |v.exponent| ==> v.exponent[1..][i - 1] == v.exponent[i];
      assert forall i :: 2 <= i < |v.exponent| ==> v.exponent[2..][i - 2] == v.exponent[i];
    }
  }

  lemma {:induction false} ItemsAreQuiet(items: Items)
    requires ItemsGrammatical(items)
    ensures Quiet(PrintItems(items))
  {
    match items
    case NoItems(ws) => BareIsQuiet(ws);
    case Item(before, item, after, more, last) =>
      ValueIsQuiet(item);
      BareIsQuiet(before);
      BareIsQuiet(after);
      QuietJoin(before, Print(item));
      QuietJoin(before + Print(item), after);
      var tail := if last then "" else "," + PrintItems(more);
      if !last {
        ItemsAreQuiet(more);
        BareIsQuiet(",");
        QuietJoin(",", PrintItems(more));
      } else {
        BareIsQuiet("");
      }
      QuietJoin(before + Print(item) + after, tail);
  }

  lemma {:induction false} MembersAreQuiet(members: Members)
    requires MembersGrammatical(members)
    ensures Quiet(PrintMembers(members))
  {
    hide Quiet, IsBody, Print, Grammatical;
    match members
    case NoMembers(ws) => BareIsQuiet(ws);
    case Member(before, key, colon, gap, value, after, more, last) =>
      BareIsQuiet(before);
      BareIsQuiet(colon);
      BareIsQuiet(":");
      BareIsQuiet(gap);
      BareIsQuiet(after);
      StringIsQuiet(key);
      ValueIsQuiet(value);
      var name := before + ("\"" + key + "\"");
      QuietJoin(before, "\"" + key + "\"");
      QuietJoin(name, colon);
      QuietJoin(name + colon, ":");
      QuietJoin(name + colon + ":", gap);
      QuietJoin(name + colon + ":" + gap, Print(value));
      QuietJoin(name + colon + ":" + gap + Print(value), after);
      var tail := if last then "" else "," + PrintMembers(more);
      if !last {
        MembersAreQuiet(more);
        BareIsQuiet(",");
        QuietJoin(",", PrintMembers(more));
      } else {
        BareIsQuiet("");
      }
      QuietJoin(name + colon + ":" + gap + Print(value) + after, tail);
  }

  /** Behind quiet text the first closing tag outside a string is the one that closes the block. */
  lemma QuietCloses(body: string, rest: string)
    requires Quiet(body)
    ensures CloseIndex(body + CLOSE + rest) == |body|
  {
    var block := body + CLOSE + rest;
    assert body[..|body|] == body;
    assert block[..|body|] == body;
    assert block[|body|..|body| + |CLOSE|] == CLOSE;
    forall j | 0 <= j < |body|
      ensures !Closes(block, j)
    {
      assert block[..j] == body[..j];
      assert block[j] == body[j];
      assert At(block, CLOSE, j) ==> block[j..j + |CLOSE|][0] == '<';
    }
    FirstCloses(block, |body|);
  }
}
