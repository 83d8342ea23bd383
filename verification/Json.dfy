/**
  JSON values as messages carry them, the compact printer, and a parser that
  inverts it.
*/
module Json {

  datatype Json =
    | Null
    | Bool(b: bool)
    | Int(n: int)
    | Float(text: FloatText)
    | Str(s: string)
    | Arr(items: seq<Json>)
    | Obj(members: seq<Member>)

  /** An object member; the sequence is the dictionary's insertion order. */
  datatype Member = Member(key: string, value: Json)

  /** A finite float, by its printed form, which differs from every integer's. */
  type FloatText = t: string | IsFloatText(t) witness Half()

  predicate IsDigit(c: char) {
    '0' <= c <= '9'
  }

  predicate NumberChar(c: char) {
    IsDigit(c) || c == '-' || c == '+' || c == '.' || c == 'e'
  }

  predicate FloatMark(c: char) {
    c == '.' || c == 'e'
  }

  predicate IsFloatText(t: string) {
    && t != "" && (t[0] == '-' || IsDigit(t[0]))
    && (forall i | 0 <= i < |t| :: NumberChar(t[i]))
    && (exists i | 0 <= i < |t| :: FloatMark(t[i]))
  }

  function Half(): (t: string)
    ensures IsFloatText(t)
  {
    var t := "0.5";
    assert FloatMark(t[1]);
    t
  }

  // ---- printing ----------------------------------------------------------

  function DigitChar(d: nat): (c: char)
    requires d < 10
    ensures IsDigit(c)
  {
    ('0' as int + d) as char
  }

  function PrintNat(n: nat): (s: string)
    ensures s != "" && forall i | 0 <= i < |s| :: IsDigit(s[i])
  {
    if n < 10 then [DigitChar(n)] else PrintNat(n / 10) + [DigitChar(n % 10)]
  }

  function PrintInt(n: int): string {
    if n < 0 then "-" + PrintNat(-n) else PrintNat(n)
  }

  function HexDigit(d: nat): char
    requires d < 16
  {
    if d < 10 then ('0' as int + d) as char else ('a' as int + d - 10) as char
  }

  /** Escapes the quote, the backslash and the control characters, and nothing else. */
  function EscapeChar(c: char): (s: string)
    ensures s != ""
  {
    var n := c as int;
    if c == '"' then "\\\""
    else if c == '\\' then "\\\\"
    else if c == '\n' then "\\n"
    else if c == '\r' then "\\r"
    else if c == '\t' then "\\t"
    else if n == 12 then "\\f"
    else if n == 8 then "\\b"
    else if n < 32 then "\\u00" + [HexDigit(n / 16), HexDigit(n % 16)]
    else [c]
  }

  function Escape(s: string): string {
    if s == "" then "" else EscapeChar(s[0]) + Escape(s[1..])
  }

  function PrintString(s: string): string {
    "\"" + Escape(s) + "\""
  }

  function Print(j: Json): (s: string)
    decreases j, 1
  {
    match j
    case Null => "null"
    case Bool(b) => if b then "true" else "false"
    case Int(n) => PrintInt(n)
    case Float(text) => text
    case Str(s) => PrintString(s)
    case Arr(items) => "[" + PrintItems(items) + "]"
    case Obj(members) => "{" + PrintMembers(members) + "}"
  }

  function PrintItems(items: seq<Json>): string
    decreases items, 0
  {
    if items == [] then ""
    else if |items| == 1 then Print(items[0])
    else Print(items[0]) + "," + PrintItems(items[1..])
  }

  function PrintMember(m: Member): string
    decreases m, 0
  {
    PrintString(m.key) + ":" + Print(m.value)
  }

  function PrintMembers(members: seq<Member>): string
    decreases members, 0
  {
    if members == [] then ""
    else if |members| == 1 then PrintMember(members[0])
    else PrintMember(members[0]) + "," + PrintMembers(members[1..])
  }

  /** A character stands for itself exactly when it is no quote, no backslash and no control character. */
  lemma EscapedExactly(c: char)
    ensures EscapeChar(c) == [c] <==> c as int >= 32 && c != '"' && c != '\\'
    ensures EscapeChar('"') == "\\\"" && EscapeChar('\\') == "\\\\" && EscapeChar('\n') == "\\n"
    ensures EscapeChar(31 as char) == "\\u001f"
  {
  }

  lemma MinusHundredTwenty()
    ensures Print(Int(-120)) == "-120"
  {
    assert PrintNat(12) == PrintNat(1) + [DigitChar(2)];
    assert PrintNat(120) == PrintNat(12) + [DigitChar(0)];
  }

  /** The compact form: no space anywhere, commas between items and members, a colon after a key. */
  lemma CompactItems(a: Json, items: seq<Json>)
    ensures PrintItems([]) == "" && PrintItems([a]) == Print(a)
    ensures items != [] ==> PrintItems([a] + items) == Print(a) + "," + PrintItems(items)
    ensures Print(Arr(items)) == "[" + PrintItems(items) + "]"
  {
    assert ([a] + items)[1..] == items;
  }

  lemma CompactMembers(key: string, a: Json, members: seq<Member>)
    ensures PrintMembers([]) == "" && PrintMembers([Member(key, a)]) == Print(Str(key)) + ":" + Print(a)
    ensures members != [] ==>
      PrintMembers([Member(key, a)] + members) == Print(Str(key)) + ":" + Print(a) + "," + PrintMembers(members)
    ensures Print(Obj(members)) == "{" + PrintMembers(members) + "}"
    ensures Print(Str(key)) == "\"" + Escape(key) + "\""
  {
    assert ([Member(key, a)] + members)[1..] == members;
  }

  // ---- parsing -----------------------------------------------------------

  /** What was read, and the input left over. */
  datatype Parsed<+T> = Fail | Read(value: T, rest: string)

  predicate StartsWith(s: string, prefix: string) {
    prefix <= s
  }

  function NumberRun(s: string): (n: nat)
    ensures n <= |s|
    ensures s != "" && NumberChar(s[0]) ==> n > 0
  {
    if s == "" || !NumberChar(s[0]) then 0 else 1 + NumberRun(s[1..])
  }

  function DigitValue(c: char): nat {
    if IsDigit(c) then (c as int) - ('0' as int) else 0
  }

  function NatValue(t: string): nat {
    if t == "" then 0 else 10 * NatValue(t[..|t| - 1]) + DigitValue(t[|t| - 1])
  }

  function IntValue(t: string): int {
    if t != "" && t[0] == '-' then 0 - NatValue(t[1..]) else NatValue(t)
  }

  function ParseNumber(s: string): (p: Parsed<Json>)
    ensures p.Read? ==> |p.rest| < |s|
  {
    var n := NumberRun(s);
    var t := s[..n];
    if n == 0 then Fail
    else if IsFloatText(t) then Read(Float(t), s[n..])
    else Read(Int(IntValue(t)), s[n..])
  }

  function HexValue(c: char): int {
    if '0' <= c <= '9' then (c as int) - ('0' as int)
    else if 'a' <= c <= 'f' then (c as int) - ('a' as int) + 10
    else -1
  }

  /** The character an escape stands for; the input starts after the backslash. */
  function ParseEscape(s: string): (p: Parsed<char>)
    ensures p.Read? ==> |p.rest| < |s|
  {
    if s == "" then Fail
    else if s[0] == '"' || s[0] == '\\' then Read(s[0], s[1..])
    else if s[0] == 'n' then Read('\n', s[1..])
    else if s[0] == 'r' then Read('\r', s[1..])
    else if s[0] == 't' then Read('\t', s[1..])
    else if s[0] == 'f' then Read(12 as char, s[1..])
    else if s[0] == 'b' then Read(8 as char, s[1..])
    else if StartsWith(s, "u00") && |s| >= 5 && HexValue(s[3]) >= 0 && HexValue(s[4]) >= 0 then
      Read((16 * HexValue(s[3]) + HexValue(s[4])) as char, s[5..])
    else Fail
  }

  /** The rest of a string literal, after its opening quote. */
  function ParseChars(s: string): (p: Parsed<string>)
    ensures p.Read? ==> |p.rest| < |s|
    decreases |s|
  {
    if s == "" then Fail
    else if s[0] == '"' then Read("", s[1..])
    else if s[0] == '\\' then
      var e := ParseEscape(s[1..]);
      if e.Fail? then Fail
      else
        var tail := ParseChars(e.rest);
        if tail.Fail? then Fail else Read([e.value] + tail.value, tail.rest)
    else
      var tail := ParseChars(s[1..]);
      if tail.Fail? then Fail else Read([s[0]] + tail.value, tail.rest)
  }

  function ParseLiteral(literal: string, value: Json, s: string): (p: Parsed<Json>)
    requires literal != ""
    ensures p.Read? ==> |p.rest| < |s|
  {
    if StartsWith(s, literal) then Read(value, s[|literal|..]) else Fail
  }

  function Parse(s: string): (p: Parsed<Json>)
    ensures p.Read? ==> |p.rest| < |s|
    decreases |s|, 1
  {
    if s == "" then Fail
    else if s[0] == '-' || IsDigit(s[0]) then ParseNumber(s)
    else if s[0] == 'n' then ParseLiteral("null", Null, s)
    else if s[0] == 't' then ParseLiteral("true", Bool(true), s)
    else if s[0] == 'f' then ParseLiteral("false", Bool(false), s)
    else if s[0] == '"' then
      var p := ParseChars(s[1..]);
      if p.Fail? then Fail else Read(Str(p.value), p.rest)
    else if s[0] == '[' then
      if StartsWith(s[1..], "]") then Read(Arr([]), s[2..])
      else
        var p := ParseItems(s[1..]);
        if p.Fail? then Fail else Read(Arr(p.value), p.rest)
    else if s[0] == '{' then
      if StartsWith(s[1..], "}") then Read(Obj([]), s[2..])
      else
        var p := ParseMembers(s[1..]);
        if p.Fail? then Fail else Read(Obj(p.value), p.rest)
    else Fail
  }

  /** One or more items up to the closing bracket. */
  function ParseItems(s: string): (p: Parsed<seq<Json>>)
    ensures p.Read? ==> |p.rest| < |s|
    decreases |s|, 2
  {
    var first := Parse(s);
    if first.Fail? then Fail
    else if StartsWith(first.rest, "]") then Read([first.value], first.rest[1..])
    else if StartsWith(first.rest, ",") then
      var tail := ParseItems(first.rest[1..]);
      if tail.Fail? then Fail else Read([first.value] + tail.value, tail.rest)
    else Fail
  }

  function ParseMember(s: string): (p: Parsed<Member>)
    ensures p.Read? ==> |p.rest| < |s|
    decreases |s|, 2
  {
    if !StartsWith(s, "\"") then Fail
    else
      var key := ParseChars(s[1..]);
      if key.Fail? || !StartsWith(key.rest, ":") then Fail
      else
        var value := Parse(key.rest[1..]);
        if value.Fail? then Fail else Read(Member(key.value, value.value), value.rest)
  }

  function ParseMembers(s: string): (p: Parsed<seq<Member>>)
    ensures p.Read? ==> |p.rest| < |s|
    decreases |s|, 3
  {
    var first := ParseMember(s);
    if first.Fail? then Fail
    else if StartsWith(first.rest, "}") then Read([first.value], first.rest[1..])
    else if StartsWith(first.rest, ",") then
      var tail := ParseMembers(first.rest[1..]);
      if tail.Fail? then Fail else Read([first.value] + tail.value, tail.rest)
    else Fail
  }

  // ---- the parser inverts the printer ------------------------------------

  /** What may follow a printed value: nothing that would extend a number. */
  predicate Delimited(rest: string) {
    rest == "" || !NumberChar(rest[0])
  }

  lemma {:induction false} NatValueOfPrint(n: nat)
    ensures NatValue(PrintNat(n)) == n
  {
    if n >= 10 {
      NatValueOfPrint(n / 10);
      var t := PrintNat(n);
      assert t[..|t| - 1] == PrintNat(n / 10);
    } else {
      assert PrintNat(n)[..0] == "";
    }
  }

  lemma {:induction false} RunOfNumber(t: string, rest: string)
    requires (forall i | 0 <= i < |t| :: NumberChar(t[i])) && Delimited(rest)
    ensures NumberRun(t + rest) == |t|
  {
    if t == "" {
      assert t + rest == rest;
    } else {
      assert (t + rest)[1..] == t[1..] + rest;
      RunOfNumber(t[1..], rest);
    }
  }

  lemma IntValueOfPrint(n: int)
    ensures IntValue(PrintInt(n)) == n
  {
    NatValueOfPrint(if n < 0 then -n else n);
    if n < 0 {
      assert PrintInt(n)[1..] == PrintNat(-n);
    }
  }

  lemma PrintIntShape(n: int)
    ensures var t := PrintInt(n);
      && t != "" && (t[0] == '-' || IsDigit(t[0])) && !IsFloatText(t)
      && (forall i | 0 <= i < |t| :: NumberChar(t[i]))
  {
    var t := PrintInt(n);
    forall i | 0 <= i < |t| ensures NumberChar(t[i]) && !FloatMark(t[i]) {
      if n < 0 && i > 0 {
        assert IsDigit(PrintNat(-n)[i - 1]);
      }
    }
  }

  lemma ParsePrintedInt(n: int, rest: string)
    requires Delimited(rest)
    ensures ParseNumber(PrintInt(n) + rest) == Read(Int(n), rest)
  {
    var t := PrintInt(n);
    PrintIntShape(n);
    IntValueOfPrint(n);
    ParseRun(t, rest);
  }

  lemma ParseRun(t: string, rest: string)
    requires Delimited(rest) && t != "" && forall i | 0 <= i < |t| :: NumberChar(t[i])
    ensures ParseNumber(t + rest) == Read(if IsFloatText(t) then Float(t) else Int(IntValue(t)), rest)
  {
    RunOfNumber(t, rest);
    assert (t + rest)[..|t|] == t && (t + rest)[|t|..] == rest;
  }

  lemma ParsePrintedFloat(text: FloatText, rest: string)
    requires Delimited(rest)
    ensures ParseNumber(text + rest) == Read(Float(text), rest)
  {
    ParseRun(text, rest);
  }

  lemma HexRoundTrip(d: nat)
    requires d < 16
    ensures HexValue(HexDigit(d)) == d
  {
  }

  /** A control character's hexadecimal escape. */
  lemma ParseHex(c: char, rest: string)
    requires (c as int) < 32
    ensures var n := c as int;
      ParseEscape("u00" + [HexDigit(n / 16), HexDigit(n % 16)] + rest) == Read(c, rest)
  {
    var n := c as int;
    var s := "u00" + [HexDigit(n / 16), HexDigit(n % 16)] + rest;
    HexRoundTrip(n / 16);
    HexRoundTrip(n % 16);
    assert s[..3] == "u00" && s[0] == 'u' && s[5..] == rest;
    assert s[3] == HexDigit(n / 16) && s[4] == HexDigit(n % 16);
  }

  /** A two-character escape. */
  lemma ParseShort(c: char, e: string, rest: string)
    requires e == EscapeChar(c) && |e| == 2
    ensures e[0] == '\\' && ParseEscape(e[1..] + rest) == Read(c, rest)
  {
    var s := e[1..] + rest;
    assert s[0] == e[1] && s[1..] == rest;
  }

  lemma ParseEscapedChar(c: char, rest: string)
    ensures EscapeChar(c)[0] != '"'
    ensures EscapeChar(c) == [c] || EscapeChar(c)[0] == '\\'
    ensures EscapeChar(c)[0] == '\\' ==> ParseEscape(EscapeChar(c)[1..] + rest) == Read(c, rest)
  {
    var e, n := EscapeChar(c), c as int;
    if |e| == 2 {
      ParseShort(c, e, rest);
    } else if |e| == 6 {
      ParseHex(c, rest);
      assert e[1..] == "u00" + [HexDigit(n / 16), HexDigit(n % 16)];
    }
  }

  /** One escaped character is read back as itself, whatever the literal goes on with. */
  lemma ParseCharsStep(c: char, tail: string, t: string, rest: string)
    requires ParseChars(tail) == Read(t, rest)
    ensures ParseChars(EscapeChar(c) + tail) == Read([c] + t, rest)
  {
    var e := EscapeChar(c);
    ParseEscapedChar(c, tail);
    assert (e + tail)[0] == e[0] && (e + tail)[1..] == e[1..] + tail;
    if e == [c] {
      assert e[1..] + tail == tail;
    }
  }

  lemma PushIn(a: string, b: string, c: string, d: string)
    ensures (a + b) + c + d == a + (b + c + d)
  {
  }

  lemma {:induction false} ParsePrintedChars(s: string, rest: string)
    ensures ParseChars(Escape(s) + "\"" + rest) == Read(s, rest)
  {
    if s == "" {
      assert (Escape(s) + "\"" + rest)[1..] == rest;
    } else {
      var tail := Escape(s[1..]) + "\"" + rest;
      ParsePrintedChars(s[1..], rest);
      ParseCharsStep(s[0], tail, s[1..], rest);
      PushIn(EscapeChar(s[0]), Escape(s[1..]), "\"", rest);
      assert s == [s[0]] + s[1..];
    }
  }

  lemma PrintedStart(j: Json)
    ensures Print(j) != "" && Print(j)[0] != ']' && Print(j)[0] != '}'
  {
    if j.Int? && j.n >= 0 {
      assert IsDigit(Print(j)[0]);
    }
  }

  lemma ParseKeyword(literal: string, value: Json, rest: string)
    requires literal != ""
    ensures ParseLiteral(literal, value, literal + rest) == Read(value, rest)
    ensures (literal + rest)[0] == literal[0]
  {
    assert (literal + rest)[|literal|..] == rest;
  }

  lemma ParseEmpty(rest: string)
    ensures Parse("[]" + rest) == Read(Arr([]), rest)
    ensures Parse("{}" + rest) == Read(Obj([]), rest)
  {
    assert ("[]" + rest)[1..] == "]" + rest && ("[]" + rest)[2..] == rest;
    assert ("{}" + rest)[1..] == "}" + rest && ("{}" + rest)[2..] == rest;
  }

  lemma ParsePrintedNumber(j: Json, rest: string)
    requires Delimited(rest) && (j.Int? || j.Float?)
    ensures Parse(Print(j) + rest) == Read(j, rest)
  {
    var t := Print(j);
    if j.Int? {
      ParsePrintedInt(j.n, rest);
      PrintIntShape(j.n);
    } else {
      ParsePrintedFloat(j.text, rest);
    }
    assert (t + rest)[0] == t[0];
  }

  lemma QuotedShape(inner: string, rest: string)
    ensures var s := ("\"" + inner + "\"") + rest;
      s[0] == '"' && s[1..] == inner + "\"" + rest
  {
  }

  lemma ParsePrintedString(t: string, rest: string)
    ensures Parse(PrintString(t) + rest) == Read(Str(t), rest)
  {
    ParsePrintedChars(t, rest);
    QuotedShape(Escape(t), rest);
  }

  lemma ParseArray(inner: string, rest: string, items: seq<Json>)
    requires inner != "" && inner[0] != ']' && ParseItems(inner + ("]" + rest)) == Read(items, rest)
    ensures Parse("[" + inner + "]" + rest) == Read(Arr(items), rest)
  {
    var s := "[" + inner + "]" + rest;
    assert s == "[" + (inner + ("]" + rest));
    assert s[0] == '[' && s[1] == inner[0] && s[1..] == inner + ("]" + rest);
  }

  lemma ParseObject(inner: string, rest: string, members: seq<Member>)
    requires inner != "" && inner[0] != '}' && ParseMembers(inner + ("}" + rest)) == Read(members, rest)
    ensures Parse("{" + inner + "}" + rest) == Read(Obj(members), rest)
  {
    var s := "{" + inner + "}" + rest;
    assert s == "{" + (inner + ("}" + rest));
    assert s[0] == '{' && s[1] == inner[0] && s[1..] == inner + ("}" + rest);
  }

  /** Parsing a printed value gives the value back and leaves what followed it. */
  lemma {:induction false} ParsePrinted(j: Json, rest: string)
    requires Delimited(rest)
    ensures Parse(Print(j) + rest) == Read(j, rest)
    decreases j, 1
  {
    match j
    case Arr(items) =>
      if items == [] {
        ParseEmpty(rest);
        assert Print(j) == "[]";
      } else {
        PrintedStart(items[0]);
        ParsePrintedItems(items, rest);
        ParseArray(PrintItems(items), rest, items);
      }
    case Obj(members) =>
      if members == [] {
        ParseEmpty(rest);
        assert Print(j) == "{}";
      } else {
        ParsePrintedMembers(members, rest);
        ParseObject(PrintMembers(members), rest, members);
      }
    case Str(t) => ParsePrintedString(t, rest);
    case Int(_) => ParsePrintedNumber(j, rest);
    case Float(_) => ParsePrintedNumber(j, rest);
    case Null => ParseKeyword("null", Null, rest);
    case Bool(b) => ParseKeyword(if b then "true" else "false", j, rest);
  }

  lemma Reassociate(first: string, inner: string, end: string)
    ensures (first + "," + inner) + end == first + ("," + (inner + end))
  {
  }

  lemma {:induction false} ParsePrintedItems(items: seq<Json>, rest: string)
    requires items != []
    ensures ParseItems(PrintItems(items) + ("]" + rest)) == Read(items, rest)
    decreases items, 0
  {
    var item, others := items[0], items[1..];
    if |items| == 1 {
      ParsePrinted(item, "]" + rest);
      LastItem(Print(item), item, rest);
      assert items == [item] && PrintItems(items) == Print(item);
    } else {
      ParsePrintedItems(others, rest);
      PrintedItemThen(item, PrintItems(others), others, rest);
      assert items == [item] + others && PrintItems(items) == Print(item) + "," + PrintItems(others);
    }
  }

  /** An item, a comma and the text of the other items. */
  lemma PrintedItemThen(item: Json, inner: string, others: seq<Json>, rest: string)
    requires ParseItems(inner + ("]" + rest)) == Read(others, rest)
    ensures ParseItems((Print(item) + "," + inner) + ("]" + rest)) == Read([item] + others, rest)
    decreases item, 2
  {
    var first, tail := Print(item), inner + ("]" + rest);
    ParsePrinted(item, "," + tail);
    NextItem(first, item, tail, others, rest);
    Reassociate(first, inner, "]" + rest);
  }

  lemma LastItem(first: string, item: Json, rest: string)
    requires Parse(first + ("]" + rest)) == Read(item, "]" + rest)
    ensures ParseItems(first + ("]" + rest)) == Read([item], rest)
  {
    assert ("]" + rest)[1..] == rest;
  }

  lemma NextItem(first: string, item: Json, tail: string, others: seq<Json>, rest: string)
    requires Parse(first + ("," + tail)) == Read(item, "," + tail)
    requires ParseItems(tail) == Read(others, rest)
    ensures ParseItems(first + ("," + tail)) == Read([item] + others, rest)
  {
    var after := "," + tail;
    assert after[0] == ',' && after[1..] == tail;
    assert !StartsWith(after, "]") && StartsWith(after, ",");
  }

  lemma {:induction false} ParsePrintedMember(m: Member, rest: string)
    requires Delimited(rest)
    ensures ParseMember(PrintMember(m) + rest) == Read(m, rest)
    decreases m, 2
  {
    var value := Print(m.value) + rest;
    var tail := ":" + value;
    ParsePrintedChars(m.key, tail);
    ParsePrinted(m.value, rest);
    MemberShape(Escape(m.key), Print(m.value), rest);
    assert tail[0] == ':' && tail[1..] == value;
  }

  lemma MemberShape(key: string, value: string, rest: string)
    ensures var s := "\"" + key + "\"" + ":" + value + rest;
      s[0] == '"' && s[1..] == key + "\"" + (":" + (value + rest))
  {
  }

  lemma {:induction false} ParsePrintedMembers(members: seq<Member>, rest: string)
    requires members != []
    ensures ParseMembers(PrintMembers(members) + ("}" + rest)) == Read(members, rest)
    decreases members, 0
  {
    var m, others := members[0], members[1..];
    if |members| == 1 {
      ParsePrintedMember(m, "}" + rest);
      LastMember(PrintMember(m), m, rest);
      assert members == [m] && PrintMembers(members) == PrintMember(m);
    } else {
      ParsePrintedMembers(others, rest);
      PrintedMemberThen(m, PrintMembers(others), others, rest);
      assert members == [m] + others && PrintMembers(members) == PrintMember(m) + "," + PrintMembers(others);
    }
  }

  /** A member, a comma and the text of the other members. */
  lemma PrintedMemberThen(m: Member, inner: string, others: seq<Member>, rest: string)
    requires ParseMembers(inner + ("}" + rest)) == Read(others, rest)
    ensures ParseMembers((PrintMember(m) + "," + inner) + ("}" + rest)) == Read([m] + others, rest)
    decreases m, 3
  {
    var first, tail := PrintMember(m), inner + ("}" + rest);
    ParsePrintedMember(m, "," + tail);
    NextMember(first, m, tail, others, rest);
    Reassociate(first, inner, "}" + rest);
  }

  lemma LastMember(first: string, m: Member, rest: string)
    requires ParseMember(first + ("}" + rest)) == Read(m, "}" + rest)
    ensures ParseMembers(first + ("}" + rest)) == Read([m], rest)
  {
    assert ("}" + rest)[1..] == rest;
  }

  lemma NextMember(first: string, m: Member, tail: string, others: seq<Member>, rest: string)
    requires ParseMember(first + ("," + tail)) == Read(m, "," + tail)
    requires ParseMembers(tail) == Read(others, rest)
    ensures ParseMembers(first + ("," + tail)) == Read([m] + others, rest)
  {
    var after := "," + tail;
    assert after[0] == ',' && after[1..] == tail;
    assert !StartsWith(after, "}") && StartsWith(after, ",");
  }

  /** Different values never print the same. */
  lemma PrintInjective(a: Json, b: Json)
    requires Print(a) == Print(b)
    ensures a == b
  {
    ParsePrinted(a, "");
    ParsePrinted(b, "");
    assert Print(a) + "" == Print(b) + "";
  }
}
