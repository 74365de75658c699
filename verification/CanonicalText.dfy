/** The printer `write_canonical_json`, a decoder for its output, and the proof that the decoder inverts it. */
module CanonicalText {
  import opened Prelude
  import opened CanonicalJson

  // ----- strings ------------------------------------------------------------------------------------------

  function HexDigit(n: nat): char
    requires n < 16
  {
    if n < 10 then ('0' as int + n) as char else ('a' as int + n - 10) as char
  }

  /** One character of a string, as section 7 of RFC 8259 requires and with the short escapes where they exist. */
  function EscapeChar(c: char): Text {
    var code := c as int;
    if c == '"' then ['\\', '"']
    else if c == '\\' then ['\\', '\\']
    else if code == 8 then ['\\', 'b']
    else if code == 9 then ['\\', 't']
    else if code == 10 then ['\\', 'n']
    else if code == 12 then ['\\', 'f']
    else if code == 13 then ['\\', 'r']
    else if code < 0x20 then ['\\', 'u', '0', '0', HexDigit(code / 16), HexDigit(code % 16)]
    else [c]
  }

  function Escape(content: Text): Text {
    if content == [] then [] else EscapeChar(content[0]) + Escape(content[1..])
  }

  function Quote(content: Text): Text {
    ['"'] + Escape(content) + ['"']
  }

  // ----- the text of a value ------------------------------------------------------------------------------

  /** The compact text of a value, members in the order they stand. */
  function Plain(v: Json): Text {
    match v
    case Null => ['n', 'u', 'l', 'l']
    case Bool(value) => if value then ['t', 'r', 'u', 'e'] else ['f', 'a', 'l', 's', 'e']
    case Number(text) => text
    case String(content) => Quote(content)
    case Array(items) => ['['] + PlainItems(items) + [']']
    case Object(members) => ['{'] + PlainMembers(members) + ['}']
  }

  function PlainItems(items: seq<Json>): Text {
    if items == [] then []
    else if |items| == 1 then Plain(items[0])
    else Plain(items[0]) + [','] + PlainItems(items[1..])
  }

  function PlainMember(m: Member): Text {
    Quote(m.key) + [':'] + Plain(m.value)
  }

  function PlainMembers(members: seq<Member>): Text {
    if members == [] then []
    else if |members| == 1 then PlainMember(members[0])
    else PlainMember(members[0]) + [','] + PlainMembers(members[1..])
  }

  /** The canonical text of a value: the compact text of its canonical form. */
  function Print(v: Json): Text {
    Plain(Canon(v))
  }

  // ----- a decoder ----------------------------------------------------------------------------------------

  /** Something read from the front of a text, and what follows it. */
  datatype Taken<T> = Taken(value: T, rest: Text)

  function HexValue(c: char): Option<nat> {
    if '0' <= c <= '9' then Some(c as int - '0' as int)
    else if 'a' <= c <= 'f' then Some(c as int - 'a' as int + 10)
    else if 'A' <= c <= 'F' then Some(c as int - 'A' as int + 10)
    else None
  }

  function TakeHex(t: Text): (r: Option<Taken<char>>)
    ensures r.Some? ==> |r.value.rest| < |t|
  {
    if |t| < 4 then None
    else
      var a, b, c, d := HexValue(t[0]), HexValue(t[1]), HexValue(t[2]), HexValue(t[3]);
      if a.None? || b.None? || c.None? || d.None? then None
      else
        var code := ((a.value * 16 + b.value) * 16 + c.value) * 16 + d.value;
        if 0xD800 <= code || code > 0xFFFF then None else Some(Taken(code as char, t[4..]))
  }

  function TakeEscape(t: Text): (r: Option<Taken<char>>)
    requires t != []
    ensures r.Some? ==> |r.value.rest| < |t|
  {
    var c := t[0];
    if c == '"' || c == '\\' || c == '/' then Some(Taken(c, t[1..]))
    else if c == 'b' then Some(Taken(8 as char, t[1..]))
    else if c == 't' then Some(Taken(9 as char, t[1..]))
    else if c == 'n' then Some(Taken(10 as char, t[1..]))
    else if c == 'f' then Some(Taken(12 as char, t[1..]))
    else if c == 'r' then Some(Taken(13 as char, t[1..]))
    else if c == 'u' then TakeHex(t[1..])
    else None
  }

  /** One character of a string, plain or escaped. */
  function TakeChar(t: Text): (r: Option<Taken<char>>)
    requires t != []
    ensures r.Some? ==> |r.value.rest| < |t|
  {
    if t[0] == '\\' then if |t| == 1 then None else TakeEscape(t[1..])
    else if (t[0] as int) < 0x20 then None
    else Some(Taken(t[0], t[1..]))
  }

  /** The characters of a string up to and including the closing quote. */
  function TakeChars(t: Text): (r: Option<Taken<Text>>)
    ensures r.Some? ==> |r.value.rest| < |t|
    decreases |t|
  {
    if t == [] then None
    else if t[0] == '"' then Some(Taken([], t[1..]))
    else
      var first := TakeChar(t);
      if first.None? then None
      else
        var more := TakeChars(first.value.rest);
        if more.None? then None else Some(Taken([first.value.value] + more.value.value, more.value.rest))
  }

  function TakeString(t: Text): (r: Option<Taken<Text>>)
    ensures r.Some? ==> |r.value.rest| < |t|
  {
    if t != [] && t[0] == '"' then TakeChars(t[1..]) else None
  }

  function TakeNumber(t: Text): (r: Taken<Text>)
    ensures |r.value| + |r.rest| == |t|
  {
    if t == [] || !NumberChar(t[0]) then Taken([], t)
    else var more := TakeNumber(t[1..]); Taken([t[0]] + more.value, more.rest)
  }

  function TakeLiteral(t: Text, literal: Text, v: Json): (r: Option<Taken<Json>>)
    requires literal != []
    ensures r.Some? ==> |r.value.rest| < |t|
  {
    if |literal| <= |t| && t[..|literal|] == literal then Some(Taken(v, t[|literal|..])) else None
  }

  function TakeValue(t: Text): (r: Option<Taken<Json>>)
    ensures r.Some? ==> |r.value.rest| < |t|
    decreases |t|, 0
  {
    if t == [] then None
    else if t[0] == 'n' then TakeLiteral(t, ['n', 'u', 'l', 'l'], Null)
    else if t[0] == 't' then TakeLiteral(t, ['t', 'r', 'u', 'e'], Bool(true))
    else if t[0] == 'f' then TakeLiteral(t, ['f', 'a', 'l', 's', 'e'], Bool(false))
    else if t[0] == '"' then
      var content := TakeString(t);
      if content.None? then None else Some(Taken(String(content.value.value), content.value.rest))
    else if t[0] == '[' then
      if |t| > 1 && t[1] == ']' then Some(Taken(Array([]), t[2..]))
      else
        var items := TakeItems(t[1..]);
        if items.None? then None else Some(Taken(Array(items.value.value), items.value.rest))
    else if t[0] == '{' then
      if |t| > 1 && t[1] == '}' then Some(Taken(Object([]), t[2..]))
      else
        var members := TakeMembers(t[1..]);
        if members.None? then None else Some(Taken(Object(members.value.value), members.value.rest))
    else if NumberStart(t[0]) then
      var number := TakeNumber(t);
      assert number.value != [];
      Some(Taken(Number(number.value), number.rest))
    else None
  }

  /** The items of a non-empty array up to and including the closing bracket. */
  function TakeItems(t: Text): (r: Option<Taken<seq<Json>>>)
    ensures r.Some? ==> |r.value.rest| < |t|
    decreases |t|, 1
  {
    var first := TakeValue(t);
    if first.None? || first.value.rest == [] then None
    else if first.value.rest[0] == ']' then Some(Taken([first.value.value], first.value.rest[1..]))
    else if first.value.rest[0] == ',' then
      var more := TakeItems(first.value.rest[1..]);
      if more.None? then None else Some(Taken([first.value.value] + more.value.value, more.value.rest))
    else None
  }

  function TakeMember(t: Text): (r: Option<Taken<Member>>)
    ensures r.Some? ==> |r.value.rest| < |t|
    decreases |t|, 1
  {
    var key := TakeString(t);
    if key.None? || key.value.rest == [] || key.value.rest[0] != ':' then None
    else
      var value := TakeValue(key.value.rest[1..]);
      if value.None? then None else Some(Taken(Member(key.value.value, value.value.value), value.value.rest))
  }

  /** The members of a non-empty object up to and including the closing brace. */
  function TakeMembers(t: Text): (r: Option<Taken<seq<Member>>>)
    ensures r.Some? ==> |r.value.rest| < |t|
    decreases |t|, 2
  {
    var first := TakeMember(t);
    if first.None? || first.value.rest == [] then None
    else if first.value.rest[0] == '}' then Some(Taken([first.value.value], first.value.rest[1..]))
    else if first.value.rest[0] == ',' then
      var more := TakeMembers(first.value.rest[1..]);
      if more.None? then None else Some(Taken([first.value.value] + more.value.value, more.value.rest))
    else None
  }

  /** The value a whole text denotes, if it is exactly one value. */
  function Parse(t: Text): Option<Json> {
    var v := TakeValue(t);
    if v.Some? && v.value.rest == [] then Some(v.value.value) else None
  }

  // ----- decoding inverts printing ------------------------------------------------------------------------

  lemma HexRoundTrip(n: nat)
    requires n < 16
    ensures HexValue(HexDigit(n)) == Some(n)
  {
  }

  lemma ShortEscapeRoundTrip(c: char, rest: Text)
    requires |EscapeChar(c)| <= 2
    ensures TakeChar(EscapeChar(c) + rest) == Some(Taken(c, rest))
  {
    var t := EscapeChar(c) + rest;
    assert t[|EscapeChar(c)|..] == rest;
    if |EscapeChar(c)| == 2 {
      assert t[1..][1..] == rest;
    }
  }

  lemma HexEscapeRoundTrip(c: char, rest: Text)
    requires |EscapeChar(c)| > 2
    ensures TakeChar(EscapeChar(c) + rest) == Some(Taken(c, rest))
  {
    var t := EscapeChar(c) + rest;
    var code := c as int;
    HexRoundTrip(code / 16);
    HexRoundTrip(code % 16);
    var digits := t[1..][1..];
    assert digits == ['0', '0', HexDigit(code / 16), HexDigit(code % 16)] + rest;
    assert digits[4..] == rest;
    assert TakeHex(digits) == Some(Taken(c, rest));
  }

  lemma EscapeRoundTrip(c: char, rest: Text)
    ensures TakeChar(EscapeChar(c) + rest) == Some(Taken(c, rest))
    ensures EscapeChar(c) != [] && EscapeChar(c)[0] != '"'
  {
    if |EscapeChar(c)| <= 2 {
      ShortEscapeRoundTrip(c, rest);
    } else {
      HexEscapeRoundTrip(c, rest);
    }
  }

  /** Exactly quotation mark, reverse solidus and the control characters are escaped, and no control character is written. */
  lemma {:induction false} EscapingIsExact(content: Text)
    ensures (forall i :: 0 <= i < |content| ==> content[i] != '"' && content[i] != '\\' && content[i] as int >= 0x20)
            <==> Escape(content) == content
    ensures forall i :: 0 <= i < |Escape(content)| ==> Escape(content)[i] as int >= 0x20
    ensures |content| <= |Escape(content)|
  {
    if content != [] {
      var first, more := content[0], content[1..];
      EscapingIsExact(more);
      EscapedCharIsLegal(first);
      hide EscapeChar;
      assert content == [first] + more;
      if Escape(content) == content {
        assert |EscapeChar(first)| == 1;
        assert Escape(content)[0] == first && Escape(content)[1..] == Escape(more);
      }
    }
  }

  lemma EscapedCharIsLegal(c: char)
    ensures EscapeChar(c) != [] && forall i :: 0 <= i < |EscapeChar(c)| ==> EscapeChar(c)[i] as int >= 0x20
    ensures EscapeChar(c) == [c] <==> c != '"' && c != '\\' && c as int >= 0x20
    ensures EscapeChar(c) != [c] ==> |EscapeChar(c)| >= 2 && EscapeChar(c)[0] == '\\'
  {
  }

  /** The short escapes, and lower-case hex for the other control characters. */
  lemma EscapesAre(c: char)
    ensures c == '"' ==> EscapeChar(c) == "\\\""
    ensures c == '\\' ==> EscapeChar(c) == "\\\\"
    ensures c as int == 8 ==> EscapeChar(c) == "\\b"
    ensures c as int == 9 ==> EscapeChar(c) == "\\t"
    ensures c as int == 10 ==> EscapeChar(c) == "\\n"
    ensures c as int == 12 ==> EscapeChar(c) == "\\f"
    ensures c as int == 13 ==> EscapeChar(c) == "\\r"
    ensures c as int < 32 && c as int !in [8, 9, 10, 12, 13] ==>
              EscapeChar(c) == "\\u00" + [if c as int < 16 then '0' else '1'] + ["0123456789abcdef"[c as int % 16]]
    ensures c != '"' && c != '\\' && c as int >= 32 ==> EscapeChar(c) == [c]
  {
  }

  /** No shorter text reads back as the character. */
  lemma EscapesAreShortest(c: char, t: Text)
    requires t != [] && TakeChar(t).Some? && TakeChar(t).value.value == c && t[0] != '"'
    ensures |t| - |TakeChar(t).value.rest| >= |EscapeChar(c)|
  {
  }

  lemma {:induction false} CharsRoundTrip(content: Text, rest: Text)
    ensures TakeChars(Escape(content) + ['"'] + rest) == Some(Taken(content, rest))
  {
    hide EscapeChar, TakeChar;
    if content == [] {
      ClosingQuote(rest);
      assert Escape(content) + ['"'] + rest == ['"'] + rest;
    } else {
      var more := Escape(content[1..]) + ['"'] + rest;
      assert Escape(content) + ['"'] + rest == EscapeChar(content[0]) + more;
      CharsRoundTrip(content[1..], rest);
      NextChar(content[0], more);
      assert content == [content[0]] + content[1..];
    }
  }

  lemma ClosingQuote(rest: Text)
    ensures TakeChars(['"'] + rest) == Some(Taken([], rest))
  {
    assert (['"'] + rest)[1..] == rest;
  }

  lemma NextChar(c: char, more: Text)
    ensures TakeChars(EscapeChar(c) + more)
         == if TakeChars(more).None? then None else Some(Taken([c] + TakeChars(more).value.value, TakeChars(more).value.rest))
  {
    EscapeRoundTrip(c, more);
    hide EscapeChar, TakeChar;
    assert (EscapeChar(c) + more)[0] == EscapeChar(c)[0];
  }

  /** Reading back a quoted string gives the string and leaves what follows it. */
  lemma StringRoundTrip(content: Text, rest: Text)
    ensures TakeString(Quote(content) + rest) == Some(Taken(content, rest))
  {
    assert (Quote(content) + rest)[1..] == Escape(content) + ['"'] + rest;
    CharsRoundTrip(content, rest);
  }

  lemma {:induction false} NumberRoundTrip(text: Text, rest: Text)
    requires forall i :: 0 <= i < |text| ==> NumberChar(text[i])
    requires rest == [] || !NumberChar(rest[0])
    ensures TakeNumber(text + rest) == Taken(text, rest)
  {
    if text == [] {
      assert text + rest == rest;
    } else {
      assert (text + rest)[1..] == text[1..] + rest;
      NumberRoundTrip(text[1..], rest);
      assert text == [text[0]] + text[1..];
    }
  }

  /** What may follow a value in a text: anything a number does not swallow. */
  predicate Ends(rest: Text) {
    rest == [] || !NumberChar(rest[0])
  }

  lemma PlainStart(v: Json)
    requires WellFormed(v)
    ensures Plain(v) != [] && Plain(v)[0] != ']' && Plain(v)[0] != '}'
  {
  }

  lemma {:induction false} ValueRoundTrip(v: Json, rest: Text)
    requires WellFormed(v) && Ends(rest)
    ensures TakeValue(Plain(v) + rest) == Some(Taken(v, rest))
    decreases v, 1
  {
    match v
    case Null => assert (Plain(v) + rest)[4..] == rest;
    case Bool(value) => assert (Plain(v) + rest)[|Plain(v)|..] == rest;
    case Number(text) => NumberRoundTrip(text, rest);
    case String(content) => StringRoundTrip(content, rest);
    case Array(items) => ArrayRoundTrip(v, rest);
    case Object(members) => ObjectRoundTrip(v, rest);
  }

  lemma {:induction false} ArrayRoundTrip(v: Json, rest: Text)
    requires v.Array? && WellFormed(v)
    ensures TakeValue(Plain(v) + rest) == Some(Taken(v, rest))
    decreases v, 0
  {
    var t := Plain(v) + rest;
    if v.items == [] {
      assert Plain(v) == ['[', ']'];
      assert t[2..] == rest;
    } else {
      assert t[1..] == PlainItems(v.items) + [']'] + rest;
      PlainStart(v.items[0]);
      assert t[1] == Plain(v.items[0])[0];
      ItemsRoundTrip(v.items, rest);
    }
  }

  lemma {:induction false} ItemsRoundTrip(items: seq<Json>, rest: Text)
    requires items != [] && forall i :: 0 <= i < |items| ==> WellFormed(items[i])
    ensures TakeItems(PlainItems(items) + [']'] + rest) == Some(Taken(items, rest))
    decreases items
  {
    var t := PlainItems(items) + [']'] + rest;
    if |items| == 1 {
      assert t == Plain(items[0]) + ([']'] + rest);
      ValueRoundTrip(items[0], [']'] + rest);
      assert ([']'] + rest)[1..] == rest;
      assert items == [items[0]];
    } else {
      var more := PlainItems(items[1..]) + [']'] + rest;
      assert t == Plain(items[0]) + ([','] + more);
      ValueRoundTrip(items[0], [','] + more);
      assert ([','] + more)[1..] == more;
      ItemsRoundTrip(items[1..], rest);
      assert items == [items[0]] + items[1..];
    }
  }

  lemma MembersStart(members: seq<Member>)
    requires members != []
    ensures PlainMembers(members) != [] && PlainMembers(members)[0] == '"'
  {
    hide Escape, Plain;
    assert PlainMember(members[0])[0] == Quote(members[0].key)[0];
  }

  lemma {:induction false} ObjectRoundTrip(v: Json, rest: Text)
    requires v.Object? && WellFormed(v)
    ensures TakeValue(Plain(v) + rest) == Some(Taken(v, rest))
    decreases v, 0
  {
    hide TakeMembers, PlainMember, Escape;
    var t := Plain(v) + rest;
    if v.members == [] {
      assert Plain(v) == ['{', '}'];
      assert t[2..] == rest;
    } else {
      assert t[1..] == PlainMembers(v.members) + ['}'] + rest;
      MembersStart(v.members);
      assert t[1] == PlainMembers(v.members)[0];
      MembersRoundTrip(v.members, rest);
    }
  }

  lemma {:induction false} MemberRoundTrip(m: Member, rest: Text)
    requires WellFormed(m.value) && Ends(rest)
    ensures TakeMember(PlainMember(m) + rest) == Some(Taken(m, rest))
    decreases m
  {
    hide Quote, Plain, TakeString, TakeValue, WellFormed;
    var after := [':'] + Plain(m.value) + rest;
    assert PlainMember(m) + rest == Quote(m.key) + after;
    StringRoundTrip(m.key, after);
    assert after[1..] == Plain(m.value) + rest;
    ValueRoundTrip(m.value, rest);
  }

  lemma {:induction false} MembersRoundTrip(members: seq<Member>, rest: Text)
    requires members != [] && forall i :: 0 <= i < |members| ==> WellFormed(members[i].value)
    ensures TakeMembers(PlainMembers(members) + ['}'] + rest) == Some(Taken(members, rest))
    decreases members
  {
    hide PlainMember, TakeMember, WellFormed;
    var t := PlainMembers(members) + ['}'] + rest;
    if |members| == 1 {
      assert t == PlainMember(members[0]) + (['}'] + rest);
      MemberRoundTrip(members[0], ['}'] + rest);
      assert (['}'] + rest)[1..] == rest;
      assert members == [members[0]];
    } else {
      var more := PlainMembers(members[1..]) + ['}'] + rest;
      assert t == PlainMember(members[0]) + ([','] + more);
      MemberRoundTrip(members[0], [','] + more);
      assert ([','] + more)[1..] == more;
      MembersRoundTrip(members[1..], rest);
      assert members == [members[0]] + members[1..];
    }
  }

  // ----- what canonical text says about values ------------------------------------------------------------

  lemma {:induction false} CanonWellFormed(v: Json)
    requires WellFormed(v)
    ensures WellFormed(Canon(v))
    decreases v
  {
    match v
    case Array(items) =>
      forall i | 0 <= i < |items| ensures WellFormed(CanonItems(items)[i]) {
        CanonWellFormed(items[i]);
      }
    case Object(members) =>
      var canon := Canon(v).members;
      SortedAscends(members);
      forall i | 0 <= i < |canon| ensures WellFormed(canon[i].value) {
        CanonOfMember(v, i);
        CanonWellFormed(Sorted(members)[i].value);
      }
      forall i, j | 0 <= i < j < |canon| ensures canon[i].key != canon[j].key {
        CanonOfMember(v, i);
        CanonOfMember(v, j);
        BeforeIrreflexive(canon[i].key);
      }
    case _ =>
  }

  /** Canonicalising only reorders members. */
  lemma {:induction false} CanonIsEquivalent(v: Json)
    ensures Equivalent(v, Canon(v))
    decreases v
  {
    match v
    case Array(items) =>
      forall i | 0 <= i < |items| ensures Equivalent(items[i], CanonItems(items)[i]) {
        CanonIsEquivalent(items[i]);
      }
    case Object(members) =>
      var canon := Canon(v).members;
      assert |canon| == |members|;
      forall i | 0 <= i < |members| ensures HasPartner(members[i], canon) {
        assert members[i] in Sorted(members);
        var j :| 0 <= j < |Sorted(members)| && Sorted(members)[j] == members[i];
        CanonOfMember(v, j);
        CanonIsEquivalent(members[i].value);
        assert members[i].key == canon[j].key;
      }
    case _ =>
  }

  /** The decoder inverts the printer: it returns the value with its members in canonical order. */
  lemma DecodingInvertsPrinting(v: Json)
    requires WellFormed(v)
    ensures Parse(Print(v)) == Some(Canon(v)) && Equivalent(v, Canon(v))
  {
    CanonWellFormed(v);
    CanonIsEquivalent(v);
    ValueRoundTrip(Canon(v), []);
    assert Print(v) + [] == Print(v);
  }

  /** The members of a canonical object stand in lexicographic order of their keys, and they are its members. */
  lemma CanonicalMembersAscend(v: Json)
    requires WellFormed(v) && v.Object?
    ensures Canon(v).Object? && |Canon(v).members| == |v.members|
    ensures forall i, j :: 0 <= i < j < |v.members| ==> Precedes(Canon(v).members[i].key, Canon(v).members[j].key)
    ensures forall m :: m in v.members ==> Member(m.key, Canon(m.value)) in Canon(v).members
  {
    var sorted := Sorted(v.members);
    SortedAscends(v.members);
    forall i, j | 0 <= i < j < |v.members| ensures Precedes(Canon(v).members[i].key, Canon(v).members[j].key) {
      CanonOfMember(v, i);
      CanonOfMember(v, j);
      BeforeExactlyWhen(sorted[i].key, sorted[j].key);
    }
    forall m | m in v.members ensures Member(m.key, Canon(m.value)) in Canon(v).members {
      var i :| 0 <= i < |sorted| && sorted[i] == m;
      CanonOfMember(v, i);
      assert Canon(v).members[i] == Member(m.key, Canon(m.value));
    }
  }

  /** The literals and the quotes of the compact text. */
  lemma CompactLiterals(k: Text)
    ensures Plain(Null) == "null" && Plain(Bool(true)) == "true" && Plain(Bool(false)) == "false"
    ensures Plain(String(k)) == "\"" + Escape(k) + "\"" && Plain(Array([])) == "[]" && Plain(Object([])) == "{}"
  {
    hide Escape;
  }

  /** Items stand between brackets with a comma between them, nothing else around. */
  lemma CompactItems(a: Json, b: Json)
    ensures Plain(Array([a])) == "[" + Plain(a) + "]"
    ensures Plain(Array([a, b])) == "[" + Plain(a) + "," + Plain(b) + "]"
  {
    assert PlainItems([a]) == Plain(a) && PlainItems([b]) == Plain(b);
    assert [a, b][1..] == [b];
    hide Plain;
    assert PlainItems([a, b]) == Plain(a) + "," + Plain(b);
    CompactList([a]);
    CompactList([a, b]);
    assert "[" + Plain(a) + "," + Plain(b) + "]" == "[" + (Plain(a) + "," + Plain(b)) + "]";
  }

  lemma CompactList(items: seq<Json>)
    ensures Plain(Array(items)) == "[" + PlainItems(items) + "]"
  {
  }

  /** Members stand between braces with a comma between them. */
  lemma CompactMembers(m: Member, n: Member)
    ensures Plain(Object([m])) == "{" + PlainMember(m) + "}"
    ensures Plain(Object([m, n])) == "{" + PlainMember(m) + "," + PlainMember(n) + "}"
  {
    CompactObject([m]);
    CompactObject([m, n]);
    assert [m, n][1..] == [n];
    hide Plain, PlainMember;
    assert PlainMembers([m, n]) == PlainMember(m) + "," + PlainMember(n);
    assert "{" + PlainMember(m) + "," + PlainMember(n) + "}" == "{" + (PlainMember(m) + "," + PlainMember(n)) + "}";
  }

  /** A member is its key as a string, a colon and its value. */
  lemma CompactMember(m: Member)
    ensures PlainMember(m) == Plain(String(m.key)) + ":" + Plain(m.value)
  {
    hide Escape;
  }

  lemma CompactObject(members: seq<Member>)
    ensures Plain(Object(members)) == "{" + PlainMembers(members) + "}"
  {
  }

  /** Two documents have the same canonical text exactly when they agree up to member order at every depth. */
  lemma SameTextExactlyWhenEquivalent(a: Json, b: Json)
    requires WellFormed(a) && WellFormed(b)
    ensures Print(a) == Print(b) <==> Equivalent(a, b)
  {
    if Print(a) == Print(b) {
      DecodingInvertsPrinting(a);
      DecodingInvertsPrinting(b);
      SameCanonAreEquivalent(a, b);
    }
    if Equivalent(a, b) {
      EquivalentHaveSameCanon(a, b);
    }
  }

  // ----- the printer --------------------------------------------------------------------------------------

  lemma {:induction false} PlainItemsAppend(items: seq<Json>, last: Json)
    ensures PlainItems(items + [last]) == if items == [] then Plain(last) else PlainItems(items) + [','] + Plain(last)
  {
    if items == [] {
      assert items + [last] == [last];
    } else {
      assert (items + [last])[1..] == items[1..] + [last];
      PlainItemsAppend(items[1..], last);
      if |items| == 1 {
        assert items[1..] == [];
      }
    }
  }

  lemma {:induction false} PlainMembersAppend(members: seq<Member>, last: Member)
    ensures PlainMembers(members + [last])
         == if members == [] then PlainMember(last) else PlainMembers(members) + [','] + PlainMember(last)
  {
    hide PlainMember;
    if members == [] {
      assert members + [last] == [last];
    } else {
      assert (members + [last])[1..] == members[1..] + [last];
      PlainMembersAppend(members[1..], last);
      if |members| == 1 {
        assert members[1..] == [];
      }
    }
  }

  /** Appends the canonical text of a value to what was written before. */
  method WriteCanonicalJson(v: Json, output: Text) returns (written: Text)
    ensures written == output + Print(v)
    decreases v, 1
  {
    match v {
      case Null => written := output + ['n', 'u', 'l', 'l'];
      case Bool(value) => written := output + if value then ['t', 'r', 'u', 'e'] else ['f', 'a', 'l', 's', 'e'];
      case Number(text) => written := output + text;
      case String(content) => written := output + Quote(content);
      case Array(items) => written := WriteArray(v, output);
      case Object(members) => written := WriteObject(v, output);
    }
  }

  /** The text of the first `n` items, and of the first `n` members in canonical order. */
  ghost function ItemsText(v: Json, n: nat): Text
    requires v.Array? && n <= |v.items|
  {
    ['['] + PlainItems(CanonItems(v.items)[..n])
  }

  ghost function MembersText(v: Json, n: nat): Text
    requires v.Object? && n <= |Canon(v).members|
  {
    ['{'] + PlainMembers(Canon(v).members[..n])
  }

  function Comma(index: nat): Text {
    if index > 0 then [','] else []
  }

  lemma ItemsTextGrows(v: Json, n: nat)
    requires v.Array? && n < |v.items|
    ensures ItemsText(v, n + 1) == ItemsText(v, n) + Comma(n) + Print(v.items[n])
  {
    hide Plain, Canon, CanonItems;
    var before, last := CanonItems(v.items)[..n], Canon(v.items[n]);
    PlainItemsAppend(before, last);
    assert CanonItems(v.items)[..n + 1] == before + [last];
    hide PlainItems;
  }

  lemma MembersTextGrows(v: Json, n: nat)
    requires v.Object? && n < |Canon(v).members|
    ensures MembersText(v, n + 1) == MembersText(v, n) + Comma(n) + PlainMember(Canon(v).members[n])
  {
    hide PlainMember;
    var canon := Canon(v).members;
    PlainMembersAppend(canon[..n], canon[n]);
    assert canon[..n + 1] == canon[..n] + [canon[n]];
  }

  lemma MemberText(v: Json, n: nat)
    requires v.Object? && n < |v.members|
    ensures |Canon(v).members| == |v.members| == |Sorted(v.members)|
    ensures PlainMember(Canon(v).members[n]) == Quote(Sorted(v.members)[n].key) + [':'] + Print(Sorted(v.members)[n].value)
  {
    hide Quote, Plain;
    CanonOfMember(v, n);
  }

  lemma ArrayText(v: Json)
    requires v.Array?
    ensures ItemsText(v, 0) == ['['] && ItemsText(v, |v.items|) + [']'] == Print(v)
  {
    assert CanonItems(v.items)[..|v.items|] == CanonItems(v.items);
  }

  lemma ObjectText(v: Json)
    requires v.Object?
    ensures |Canon(v).members| == |v.members|
    ensures MembersText(v, 0) == ['{'] && MembersText(v, |v.members|) + ['}'] == Print(v)
  {
    assert Canon(v).members[..|v.members|] == Canon(v).members;
  }

  method WriteArray(v: Json, output: Text) returns (written: Text)
    requires v.Array?
    ensures written == output + Print(v)
    decreases v, 0
  {
    hide ItemsText, Print;
    ArrayText(v);
    written := output + ['['];
    for index := 0 to |v.items|
      invariant written == output + ItemsText(v, index)
    {
      ItemsTextGrows(v, index);
      if index > 0 {
        written := written + [','];
      }
      assert written == output + (ItemsText(v, index) + Comma(index));
      written := WriteCanonicalJson(v.items[index], written);
    }
    written := written + [']'];
  }

  method WriteObject(v: Json, output: Text) returns (written: Text)
    requires v.Object?
    ensures written == output + Print(v)
    decreases v, 0
  {
    hide MembersText, Print, Quote, Sorted;
    ObjectText(v);
    var entries := Sorted(v.members);
    written := output + ['{'];
    for index := 0 to |entries|
      invariant written == output + MembersText(v, index)
    {
      MemberText(v, index);
      MembersTextGrows(v, index);
      if index > 0 {
        written := written + [','];
      }
      assert entries[index] in entries;
      assert written == output + (MembersText(v, index) + Comma(index));
      written := written + (Quote(entries[index].key) + [':']);
      written := WriteCanonicalJson(entries[index].value, written);
    }
    written := written + ['}'];
  }
}
