/**
 The printed text as JSON: it follows the grammar of RFC 8259 word by word (sections 3 to 5 for
 literals, objects and arrays, section 7 for strings, which are read back by decoding their
 escapes), with the defined members of every object in key order. The one text that is no JSON
 comes from an undefined array element, whose place stays empty.
 */
module JsonText {
  import opened Sequences
  import opened StableJson

  // ---- Strings

  function HexValue(c: char): HexDigitValue {
    if '0' <= c <= '9' then Nibble(c as int - '0' as int)
    else if 'a' <= c <= 'f' then Nibble(c as int - 'a' as int + 10)
    else if 'A' <= c <= 'F' then Nibble(c as int - 'A' as int + 10)
    else NoNibble
  }

  datatype HexDigitValue = NoNibble | Nibble(n: int)

  /** What a two-character escape stands for. */
  function Unescaped(c: char): int {
    if c == '\"' then 34
    else if c == '\\' then 92
    else if c == '/' then 47
    else if c == 'b' then 8
    else if c == 'f' then 12
    else if c == 'n' then 10
    else if c == 'r' then 13
    else if c == 't' then 9
    else -1
  }

  /** One character of a string's body stands for c, and the rest of the body follows. */
  predicate ReadsChar(body: string, c: char, rest: string) {
    if body == "" then false
    else if body[0] != '\\' then c == body[0] && rest == body[1..] && c as int >= 32 && c != '\"'
    else if |body| < 2 then false
    else if body[1] != 'u' then c as int == Unescaped(body[1]) && rest == body[2..]
    else
      && |body| >= 6 && rest == body[6..]
      && HexValue(body[2]).Nibble? && HexValue(body[3]).Nibble?
      && HexValue(body[4]).Nibble? && HexValue(body[5]).Nibble?
      && c as int == ((HexValue(body[2]).n * 16 + HexValue(body[3]).n) * 16 + HexValue(body[4]).n) * 16
           + HexValue(body[5]).n
  }

  /** The body reads as s[i..], character by character. */
  ghost predicate ReadsAs(body: string, s: string, i: nat)
    decreases |s| - i
  {
    if i >= |s| then body == "" else exists rest :: ReadsChar(body, s[i], rest) && ReadsAs(rest, s, i + 1)
  }

  ghost predicate StringText(t: string, s: string) {
    |t| >= 2 && t[0] == '\"' && t[|t| - 1] == '\"' && ReadsAs(t[1..|t| - 1], s, 0)
  }

  lemma HexReads(n: nat)
    requires n < 16
    ensures HexValue(HexDigit(n)) == Nibble(n)
  {
  }

  lemma ControlReads(c: char, rest: string)
    requires (c as int) < 32 && |EscapeChar(c)| == 6
    ensures ReadsChar(EscapeChar(c) + rest, c, rest)
  {
    var e := EscapeChar(c);
    HexReads(c as int / 16);
    HexReads(c as int % 16);
    HexReads(0);
    assert e == ['\\', 'u', '0', '0', HexDigit(c as int / 16), HexDigit(c as int % 16)];
    assert (e + rest)[6..] == rest;
  }

  lemma EscapedCharReads(c: char, rest: string)
    ensures ReadsChar(EscapeChar(c) + rest, c, rest)
  {
    var e := EscapeChar(c);
    if |e| == 6 {
      ControlReads(c, rest);
    } else {
      assert (e + rest)[|e|..] == rest;
    }
  }

  /** Of all the ways to write a character, the printer takes a shortest one, with lower-case digits. */
  lemma EscapeIsShortest(c: char, body: string)
    requires ReadsChar(body, c, "")
    ensures |EscapeChar(c)| <= |body|
    ensures forall i | 0 <= i < |EscapeChar(c)| && |EscapeChar(c)| == 6 :: !('A' <= EscapeChar(c)[i] <= 'F')
  {
    if (c as int) < 32 {
      LowerCase(c as int / 16);
      LowerCase(c as int % 16);
    }
  }

  lemma LowerCase(n: nat)
    requires n < 16
    ensures !('A' <= HexDigit(n) <= 'F')
  {
  }

  lemma {:induction false} EscapedReads(s: string, i: nat)
    requires i <= |s|
    ensures ReadsAs(Escape(s, i), s, i)
    decreases |s| - i
  {
    if i < |s| {
      EscapedReads(s, i + 1);
      EscapedCharReads(s[i], Escape(s, i + 1));
    }
  }

  /** A quoted string is a JSON string that decodes to it. */
  lemma QuotedIsString(s: string)
    ensures StringText(Quote(s), s)
  {
    var t := Quote(s);
    assert t[1..|t| - 1] == Escape(s, 0);
    EscapedReads(s, 0);
  }

  // ---- Values

  /** The parts with a comma between each two. */
  function Separated(parts: seq<string>): string {
    if |parts| == 0 then ""
    else if |parts| == 1 then parts[0]
    else Separated(parts[..|parts| - 1]) + "," + parts[|parts| - 1]
  }

  /** The members that are printed: the defined ones, each once, in key order. */
  ghost predicate InKeyOrder(order: seq<Member>, members: seq<Member>, collation: Collation) {
    && multiset(order) == multiset(Filter(members, (m: Member) => m.value != Undefined))
    && forall i, j | 0 <= i < j < |order| :: collation(order[i].key, order[j].key)
  }

  ghost predicate MemberText(t: string, key: string, value: string, name: string) {
    t == key + ":" + value && StringText(key, name)
  }

  /** t is the JSON text of v with keys in the collation's order; an undefined element has none. */
  ghost predicate Denotes(t: string, v: Value, collation: Collation)
    decreases v, 1
  {
    match v
    case Undefined => t == ""
    case Null => t == "null"
    case NonFinite => t == "null"
    case Bool(b) => if b then t == "true" else t == "false"
    case Number(token) => t == token
    case Text(s) => StringText(t, s)
    case Array(items) =>
      exists parts: seq<string> :: t == "[" + Separated(parts) + "]" && DenoteItems(v, parts, items, collation)
    case Object(members) =>
      exists parts: seq<string>, order: seq<Member> ::
        && t == "{" + Separated(parts) + "}" && InKeyOrder(order, members, collation)
        && DenoteMembers(v, parts, order, collation)
  }

  ghost predicate DenoteItems(whole: Value, parts: seq<string>, items: seq<Value>, collation: Collation)
    decreases whole, 0
  {
    |parts| == |items| && forall i | 0 <= i < |items| :: items[i] < whole && Denotes(parts[i], items[i], collation)
  }

  ghost predicate DenoteMembers(whole: Value, parts: seq<string>, order: seq<Member>, collation: Collation)
    decreases whole, 0
  {
    && |parts| == |order|
    && forall i | 0 <= i < |order| ::
         order[i].value < whole
         && exists key, value ::
              MemberText(parts[i], key, value, order[i].key) && Denotes(value, order[i].value, collation)
  }

  lemma {:induction false} JoinPeels(texts: seq<string>, i: nat)
    requires i + 1 < |texts|
    ensures Join(texts, i) == Join(texts[..|texts| - 1], i) + "," + texts[|texts| - 1]
    decreases |texts| - i
  {
    var init := texts[..|texts| - 1];
    if i + 2 < |texts| {
      JoinPeels(texts, i + 1);
      assert init[i] == texts[i];
      assert Join(texts, i) == texts[i] + ("," + (Join(init, i + 1) + "," + texts[|texts| - 1]));
    } else {
      assert Join(texts, i + 1) == texts[i + 1];
      assert init[i] == texts[i];
    }
  }

  lemma {:induction false} JoinSeparates(texts: seq<string>)
    ensures Join(texts, 0) == Separated(texts)
  {
    if |texts| > 1 {
      JoinPeels(texts, 0);
      JoinSeparates(texts[..|texts| - 1]);
    }
  }

  lemma PrintedInKeyOrder(members: seq<Member>, collation: Collation)
    requires TotalPreorder(collation)
    ensures InKeyOrder(Printed(members, collation), members, collation)
  {
    SameFilter(members, (m: Member) => m.value != Undefined, Defined);
    KeyOrderTotal(collation);
    SortSorted(Filter(members, Defined), KeyOrder(collation));
    var order := Printed(members, collation);
    forall i, j | 0 <= i < j < |order| ensures collation(order[i].key, order[j].key) {
      assert KeyOrder(collation)(order[i], order[j]);
    }
  }

  lemma {:induction false} PrintDenotes(v: Value, collation: Collation)
    requires TotalPreorder(collation)
    ensures Denotes(Print(v, collation), v, collation)
    decreases v, 1
  {
    match v
    case Text(s) => QuotedIsString(s);
    case Array(items) =>
      var parts := ItemTexts(v, items, collation);
      JoinSeparates(parts);
      ItemsDenote(v, items, collation);
    case Object(members) =>
      var order := Printed(members, collation);
      PrintedMembers(members, collation);
      var parts := MemberTexts(v, order, collation);
      JoinSeparates(parts);
      PrintedInKeyOrder(members, collation);
      MembersDenote(v, order, collation);
      assert Print(v, collation) == "{" + Separated(parts) + "}";
    case _ =>
  }

  lemma {:induction false} ItemsDenote(whole: Value, items: seq<Value>, collation: Collation)
    requires TotalPreorder(collation) && ItemsBelow(items, whole)
    ensures DenoteItems(whole, ItemTexts(whole, items, collation), items, collation)
    decreases whole, 0
  {
    forall i | 0 <= i < |items|
      ensures items[i] < whole && Denotes(ItemTexts(whole, items, collation)[i], items[i], collation)
    {
      assert items[i] in items;
      PrintDenotes(items[i], collation);
    }
  }

  lemma {:induction false} MembersDenote(whole: Value, order: seq<Member>, collation: Collation)
    requires TotalPreorder(collation) && MembersBelow(order, whole)
    ensures DenoteMembers(whole, MemberTexts(whole, order, collation), order, collation)
    decreases whole, 0
  {
    var parts := MemberTexts(whole, order, collation);
    forall i | 0 <= i < |order|
      ensures order[i].value < whole
      ensures exists key, value ::
        MemberText(parts[i], key, value, order[i].key) && Denotes(value, order[i].value, collation)
    {
      assert order[i] in order;
      PrintDenotes(order[i].value, collation);
      QuotedIsString(order[i].key);
      assert MemberText(parts[i], Quote(order[i].key), Print(order[i].value, collation), order[i].key);
    }
  }
}
