/**
 The canonical JSON printer that the audit digest hashes. Two values print the same text
 exactly when they are equal up to object key order, undefined members, and the two
 collapses JSON itself makes: a non-finite number prints as null, and an array of one
 undefined element prints as the empty array.

 Texts follow the grammar of RFC 8259, sections 4 (objects), 5 (arrays) and 7 (strings).
 */
module StableJson {
  import opened Sequences

  datatype Member = Member(key: string, value: Value)

  /** A number is represented by the token it prints as. */
  datatype Value =
    | Undefined
    | Null
    | Bool(b: bool)
    | Number(token: string)
    | NonFinite
    | Text(s: string)
    | Array(items: seq<Value>)
    | Object(members: seq<Member>)

  predicate Defined(m: Member) {
    !m.value.Undefined?
  }

  function KeyOrder(collation: Collation): (Member, Member) -> bool {
    (a: Member, b: Member) => collation(a.key, b.key)
  }

  // ---- Strings

  function HexDigit(n: nat): char
    requires n < 16
  {
    "0123456789abcdef"[n]
  }

  function EscapeChar(c: char): string {
    if c == '\"' then "\\\""
    else if c == '\\' then "\\\\"
    else if c as int == 8 then "\\b"
    else if c as int == 9 then "\\t"
    else if c as int == 10 then "\\n"
    else if c as int == 12 then "\\f"
    else if c as int == 13 then "\\r"
    else if c as int < 32 then ['\\', 'u', '0', '0', HexDigit(c as int / 16), HexDigit(c as int % 16)]
    else [c]
  }

  function Escape(s: string, i: nat): string
    decreases |s| - i
  {
    if i >= |s| then "" else EscapeChar(s[i]) + Escape(s, i + 1)
  }

  function Quote(s: string): string {
    "\"" + Escape(s, 0) + "\""
  }

  // ---- The printer

  /** The members that are printed, in key order. */
  function Printed(members: seq<Member>, collation: Collation): seq<Member> {
    Sort(Filter(members, Defined), KeyOrder(collation))
  }

  lemma PrintedMembers(members: seq<Member>, collation: Collation)
    ensures forall m :: m in Printed(members, collation) <==> m in members && Defined(m)
  {
    FilterMembers(members, Defined);
    MultisetMembers(Printed(members, collation), Filter(members, Defined));
  }

  /** The elements are parts of the value being printed, so the recursion ends. */
  ghost predicate ItemsBelow(xs: seq<Value>, whole: Value) {
    forall x | x in xs :: x < whole
  }

  ghost predicate MembersBelow(ms: seq<Member>, whole: Value) {
    forall m | m in ms :: m.value < whole
  }

  /** The text of a value. An undefined array element contributes no text of its own. */
  function Print(v: Value, collation: Collation): string
    decreases v, 1
  {
    match v
    case Undefined => ""
    case Null => "null"
    case Bool(b) => if b then "true" else "false"
    case Number(token) => token
    case NonFinite => "null"
    case Text(s) => Quote(s)
    case Array(items) => "[" + Join(ItemTexts(v, items, collation), 0) + "]"
    case Object(members) =>
      var printed := Printed(members, collation);
      assert forall m | m in printed :: m.value < v by {
        PrintedMembers(members, collation);
      }
      "{" + Join(MemberTexts(v, printed, collation), 0) + "}"
  }

  function ItemTexts(ghost whole: Value, items: seq<Value>, collation: Collation): seq<string>
    requires ItemsBelow(items, whole)
    decreases whole, 0
  {
    seq(|items|, i requires 0 <= i < |items| => assert items[i] in items; Print(items[i], collation))
  }

  function MemberTexts(ghost whole: Value, members: seq<Member>, collation: Collation): seq<string>
    requires MembersBelow(members, whole)
    decreases whole, 0
  {
    seq(|members|, i requires 0 <= i < |members| =>
      assert members[i] in members; Quote(members[i].key) + (":" + Print(members[i].value, collation)))
  }

  /** The texts from i on, separated by commas. */
  function Join(texts: seq<string>, i: nat): string
    decreases |texts| - i
  {
    if i >= |texts| then ""
    else texts[i] + (if i + 1 == |texts| then "" else "," + Join(texts, i + 1))
  }

  // ---- What counts as the same value

  predicate NumberChar(c: char) {
    '0' <= c <= '9' || c == '-' || c == '+' || c == '.' || c == 'e' || c == 'E'
  }

  predicate NumberToken(token: string) {
    token != "" && ('0' <= token[0] <= '9' || token[0] == '-') && forall i | 0 <= i < |token| :: NumberChar(token[i])
  }

  predicate KeysDistinct(members: seq<Member>) {
    forall i, j | 0 <= i < j < |members| :: members[i].key != members[j].key
  }

  /** Object keys are distinct and number tokens are JSON numbers, at every level. */
  ghost predicate WellFormed(v: Value) {
    match v
    case Number(token) => NumberToken(token)
    case Array(items) => forall x | x in items :: WellFormed(x)
    case Object(members) => KeysDistinct(members) && forall m | m in members :: WellFormed(m.value)
    case _ => true
  }

  ghost predicate ItemsWellFormed(xs: seq<Value>) {
    forall x | x in xs :: WellFormed(x)
  }

  ghost predicate MembersWellFormed(ms: seq<Member>) {
    forall m | m in ms :: WellFormed(m.value)
  }

  predicate PrintsNull(v: Value) {
    v.Null? || v.NonFinite?
  }

  /** An array holding one undefined element is indistinguishable from the empty array. */
  function Squash(items: seq<Value>): seq<Value> {
    if items == [Undefined] then [] else items
  }

  /** Equal up to the order of keys, undefined members, and the two collapses. */
  ghost predicate Equivalent(a: Value, b: Value)
    decreases a, 1
  {
    match (a, b)
    case (Array(xs), Array(ys)) =>
      |Squash(xs)| == |Squash(ys)| && forall i | 0 <= i < |Squash(xs)| :: Equivalent(Squash(xs)[i], Squash(ys)[i])
    case (Object(ms), Object(ns)) =>
      && (forall m | m in ms && Defined(m) :: MatchedIn(m, ns))
      && (forall n | n in ns && Defined(n) :: MatchedBy(ms, n))
    case _ => a == b || (PrintsNull(a) && PrintsNull(b))
  }

  /** The right-hand object has a defined member with m's key and an equivalent value. */
  ghost predicate MatchedIn(m: Member, ns: seq<Member>)
    decreases m.value, 2
  {
    exists n | n in ns :: Defined(n) && n.key == m.key && Equivalent(m.value, n.value)
  }

  ghost predicate MatchedBy(ms: seq<Member>, n: Member)
    decreases Object(ms), 0
  {
    exists m | m in ms :: Defined(m) && m.key == n.key && Equivalent(m.value, n.value)
  }

  // ---- Reading strings back

  lemma EscapeCharReads(c: char, d: char, s: string, t: string)
    requires EscapeChar(c) + s == EscapeChar(d) + t
    ensures c == d && s == t
  {
    var x, y := EscapeChar(c), EscapeChar(d);
    assert (x + s)[0] == x[0] && (y + t)[0] == y[0];
    if c as int < 32 || c == '\"' || c == '\\' {
      assert (x + s)[1] == x[1] && (y + t)[1] == y[1];
      if |x| == 6 && |y| == 6 {
        assert (x + s)[4] == x[4] && (y + t)[4] == y[4];
        assert (x + s)[5] == x[5] && (y + t)[5] == y[5];
      }
    }
    assert |x| == |y|;
    assert s == (x + s)[|x|..] && t == (y + t)[|y|..];
  }

  lemma EscapeCharIsNoQuote(c: char)
    ensures EscapeChar(c) != "" && EscapeChar(c)[0] != '\"'
  {
  }

  lemma TailsEqual(head: string, s: string, t: string)
    requires head + s == head + t
    ensures s == t
  {
    assert s == (head + s)[|head|..];
    assert t == (head + t)[|head|..];
  }

  function EscapedText(a: string, i: nat, s: string): string {
    Escape(a, i) + ("\"" + s)
  }

  lemma EscapedTextUnfolds(a: string, i: nat, s: string)
    requires i <= |a|
    ensures i == |a| ==> EscapedText(a, i, s) == "\"" + s
    ensures i < |a| ==> EscapedText(a, i, s) == EscapeChar(a[i]) + EscapedText(a, i + 1, s)
  {
    if i < |a| {
      Regroup(EscapeChar(a[i]), Escape(a, i + 1), "\"" + s);
    }
  }

  lemma Regroup(a: string, b: string, c: string)
    ensures a + b + c == a + (b + c)
  {
  }

  lemma EscapedTextLead(a: string, i: nat, s: string)
    requires i <= |a|
    ensures EscapedText(a, i, s) != "" && (EscapedText(a, i, s)[0] == '\"' <==> i == |a|)
  {
    EscapedTextUnfolds(a, i, s);
    if i < |a| {
      EscapeCharIsNoQuote(a[i]);
      HeadStays(EscapeChar(a[i]), EscapedText(a, i + 1, s));
    }
  }

  /** The closing quote of an escaped string is where it ends. */
  lemma {:induction false} EscapeReads(a: string, b: string, i: nat, s: string, t: string)
    requires i <= |a| && i <= |b| && EscapedText(a, i, s) == EscapedText(b, i, t)
    ensures |a| == |b| && (forall k | i <= k < |a| :: a[k] == b[k]) && s == t
    decreases |a| - i
  {
    EscapedTextUnfolds(a, i, s);
    EscapedTextUnfolds(b, i, t);
    EscapedTextLead(a, i, s);
    EscapedTextLead(b, i, t);
    if i < |a| {
      EscapeCharReads(a[i], b[i], EscapedText(a, i + 1, s), EscapedText(b, i + 1, t));
      EscapeReads(a, b, i + 1, s, t);
    } else {
      TailsEqual("\"", s, t);
    }
  }

  lemma QuoteText(a: string, s: string)
    ensures Quote(a) + s == "\"" + EscapedText(a, 0, s)
  {
  }

  lemma QuoteReads(a: string, b: string, s: string, t: string)
    requires Quote(a) + s == Quote(b) + t
    ensures a == b && s == t
  {
    QuoteText(a, s);
    QuoteText(b, t);
    TailsEqual("\"", EscapedText(a, 0, s), EscapedText(b, 0, t));
    EscapeReads(a, b, 0, s, t);
  }

  // ---- Reading values back

  /** What may follow a value: nothing, or a separator or closing bracket. */
  predicate Stops(s: string) {
    s == "" || s[0] == ',' || s[0] == ']' || s[0] == '}'
  }

  /** Digits run on exactly as long as the text starts with one. */
  lemma NumberLeads(a: string, s: string)
    requires (forall i | 0 <= i < |a| :: NumberChar(a[i])) && Stops(s)
    ensures (a + s == "" || !NumberChar((a + s)[0])) <==> a == ""
    ensures a != "" ==> (a + s)[0] == a[0] && (a + s)[1..] == a[1..] + s
    ensures a == "" ==> a + s == s
  {
  }

  lemma {:induction false} NumberReads(a: string, b: string, s: string, t: string)
    requires (forall i | 0 <= i < |a| :: NumberChar(a[i])) && (forall i | 0 <= i < |b| :: NumberChar(b[i]))
    requires Stops(s) && Stops(t) && a + s == b + t
    ensures a == b && s == t
  {
    NumberLeads(a, s);
    NumberLeads(b, t);
    if a != "" {
      NumberReads(a[1..], b[1..], s, t);
      assert a == [a[0]] + a[1..] && b == [b[0]] + b[1..];
    }
  }

  /** The first character tells the kinds of values apart. */
  function Lead(v: Value): char {
    match v
    case Undefined => ' '
    case Null => 'n'
    case Bool(b) => if b then 't' else 'f'
    case Number(token) => if token == "" then ' ' else token[0]
    case NonFinite => 'n'
    case Text(_) => '\"'
    case Array(_) => '['
    case Object(_) => '{'
  }

  lemma HeadStays(head: string, rest: string)
    requires head != ""
    ensures (head + rest)[0] == head[0] && head + rest != ""
  {
  }

  lemma ScalarLeads(v: Value, collation: Collation)
    requires WellFormed(v) && !v.Undefined? && !v.Array? && !v.Object?
    ensures Print(v, collation) != "" && Print(v, collation)[0] == Lead(v)
  {
    if v.Text? {
      assert Quote(v.s)[0] == '\"';
    }
  }

  lemma PrintLeads(v: Value, collation: Collation, s: string)
    requires WellFormed(v) && !v.Undefined?
    ensures (Print(v, collation) + s) != "" && (Print(v, collation) + s)[0] == Lead(v)
    ensures !Stops(Print(v, collation) + s)
  {
    if v.Array? {
      ArrayText(v, collation, s);
    } else if v.Object? {
      ObjectText(v, collation, s);
    } else {
      ScalarLeads(v, collation);
      HeadStays(Print(v, collation), s);
    }
  }

  /** Texts that are read alike start values of the same kind, null and non-finite numbers aside. */
  lemma KindsAgree(a: Value, b: Value, collation: Collation, s: string, t: string)
    requires WellFormed(a) && WellFormed(b) && Stops(s) && Stops(t)
    requires Print(a, collation) + s == Print(b, collation) + t
    ensures Lead(a) == Lead(b)
    ensures a.Undefined? <==> b.Undefined?
    ensures a.Undefined? ==> s == t
  {
    if a.Undefined? { assert Print(a, collation) + s == s; } else { PrintLeads(a, collation, s); }
    if b.Undefined? { assert Print(b, collation) + t == t; } else { PrintLeads(b, collation, t); }
  }

  lemma ScalarReads(a: Value, b: Value, collation: Collation, s: string, t: string)
    requires WellFormed(a) && WellFormed(b) && Stops(s) && Stops(t)
    requires Print(a, collation) + s == Print(b, collation) + t
    requires !a.Array? && !a.Object?
    ensures Equivalent(a, b) && s == t
  {
    KindsAgree(a, b, collation, s, t);
    match a
    case Undefined =>
    case Text(x) => QuoteReads(x, b.s, s, t);
    case Number(x) => NumberReads(x, b.token, s, t);
    case Null => TailsEqual("null", s, t);
    case NonFinite => TailsEqual("null", s, t);
    case Bool(x) => TailsEqual(if x then "true" else "false", s, t);
  }

  /** Squashing does not change the text. */
  lemma SquashPrints(v: Value, collation: Collation)
    requires v.Array?
    ensures ItemsBelow(Squash(v.items), v)
    ensures Join(ItemTexts(v, v.items, collation), 0) == Join(ItemTexts(v, Squash(v.items), collation), 0)
  {
  }

  /** Elements from i on, the closing bracket, and what follows the array. */
  ghost function ItemsText(whole: Value, xs: seq<Value>, i: nat, collation: Collation, s: string): string
    requires ItemsBelow(xs, whole)
  {
    Join(ItemTexts(whole, xs, collation), i) + ("]" + s)
  }

  /** What follows element i. */
  ghost function AfterItem(whole: Value, xs: seq<Value>, i: nat, collation: Collation, s: string): string
    requires ItemsBelow(xs, whole)
  {
    if i + 1 >= |xs| then "]" + s else "," + ItemsText(whole, xs, i + 1, collation, s)
  }

  /** The text after texts[i] in a joined list that is followed by rest. */
  ghost function AfterText(texts: seq<string>, i: nat, rest: string): string {
    if i + 1 >= |texts| then rest else "," + (Join(texts, i + 1) + rest)
  }

  lemma JoinUnfolds(texts: seq<string>, i: nat, rest: string)
    requires i < |texts|
    ensures Join(texts, i) + rest == texts[i] + AfterText(texts, i, rest)
  {
    if i + 1 < |texts| {
      Regroup(texts[i], "," + Join(texts, i + 1), rest);
      Regroup(",", Join(texts, i + 1), rest);
    }
  }

  lemma ItemsTextUnfolds(whole: Value, xs: seq<Value>, i: nat, collation: Collation, s: string)
    requires ItemsBelow(xs, whole) && i < |xs|
    ensures ItemsText(whole, xs, i, collation, s) == Print(xs[i], collation) + AfterItem(whole, xs, i, collation, s)
    ensures Stops(AfterItem(whole, xs, i, collation, s))
  {
    JoinUnfolds(ItemTexts(whole, xs, collation), i, "]" + s);
  }

  lemma AfterItemReads(a: Value, b: Value, xs: seq<Value>, ys: seq<Value>, i: nat, collation: Collation, s: string,
                       t: string)
    requires ItemsBelow(xs, a) && ItemsBelow(ys, b) && i < |xs| && i < |ys|
    requires AfterItem(a, xs, i, collation, s) == AfterItem(b, ys, i, collation, t)
    ensures i + 1 < |xs| <==> i + 1 < |ys|
    ensures i + 1 < |xs| ==> ItemsText(a, xs, i + 1, collation, s) == ItemsText(b, ys, i + 1, collation, t)
    ensures i + 1 == |xs| ==> s == t
  {
    assert AfterItem(a, xs, i, collation, s)[0] == (if i + 1 < |xs| then ',' else ']');
    assert AfterItem(b, ys, i, collation, t)[0] == (if i + 1 < |ys| then ',' else ']');
    if i + 1 < |xs| {
      TailsEqual(",", ItemsText(a, xs, i + 1, collation, s), ItemsText(b, ys, i + 1, collation, t));
    } else {
      TailsEqual("]", s, t);
    }
  }

  lemma ArrayText(v: Value, collation: Collation, s: string)
    requires v.Array?
    ensures ItemsBelow(Squash(v.items), v)
    ensures Print(v, collation) + s == "[" + ItemsText(v, Squash(v.items), 0, collation, s)
  {
    SquashPrints(v, collation);
  }

  /** Members from i on, the closing brace, and what follows the object. */
  ghost function MembersText(whole: Value, ms: seq<Member>, i: nat, collation: Collation, s: string): string
    requires MembersBelow(ms, whole)
  {
    Join(MemberTexts(whole, ms, collation), i) + ("}" + s)
  }

  ghost function AfterMember(whole: Value, ms: seq<Member>, i: nat, collation: Collation, s: string): string
    requires MembersBelow(ms, whole)
  {
    if i + 1 >= |ms| then "}" + s else "," + MembersText(whole, ms, i + 1, collation, s)
  }

  /** The value of member i and everything after it. */
  ghost function MemberValueText(whole: Value, ms: seq<Member>, i: nat, collation: Collation, s: string): string
    requires MembersBelow(ms, whole) && i < |ms|
  {
    Print(ms[i].value, collation) + AfterMember(whole, ms, i, collation, s)
  }

  lemma MembersTextEnds(whole: Value, ms: seq<Member>, collation: Collation, s: string)
    requires MembersBelow(ms, whole)
    ensures MembersText(whole, ms, |ms|, collation, s) == "}" + s
  {
  }

  lemma MembersTextUnfolds(whole: Value, ms: seq<Member>, i: nat, collation: Collation, s: string)
    requires MembersBelow(ms, whole) && i < |ms|
    ensures MembersText(whole, ms, i, collation, s) == Quote(ms[i].key)
      + (":" + MemberValueText(whole, ms, i, collation, s))
    ensures Stops(AfterMember(whole, ms, i, collation, s))
  {
    JoinUnfolds(MemberTexts(whole, ms, collation), i, "}" + s);
    RegroupMember(Quote(ms[i].key), Print(ms[i].value, collation), AfterMember(whole, ms, i, collation, s));
  }

  lemma RegroupMember(key: string, value: string, rest: string)
    ensures key + (":" + value) + rest == key + (":" + (value + rest))
  {
    Regroup(key, ":" + value, rest);
    Regroup(":", value, rest);
  }

  lemma MembersTextLead(whole: Value, ms: seq<Member>, i: nat, collation: Collation, s: string)
    requires MembersBelow(ms, whole) && i <= |ms|
    ensures MembersText(whole, ms, i, collation, s) != ""
    ensures MembersText(whole, ms, i, collation, s)[0] == '}' <==> i == |ms|
  {
    if i < |ms| {
      MembersTextUnfolds(whole, ms, i, collation, s);
      HeadStays(Quote(ms[i].key), ":" + MemberValueText(whole, ms, i, collation, s));
    } else {
      MembersTextEnds(whole, ms, collation, s);
    }
  }

  lemma AfterMemberReads(a: Value, b: Value, ms: seq<Member>, ns: seq<Member>, i: nat, collation: Collation, s: string,
                         t: string)
    requires MembersBelow(ms, a) && MembersBelow(ns, b) && i < |ms| && i < |ns|
    requires AfterMember(a, ms, i, collation, s) == AfterMember(b, ns, i, collation, t)
    ensures i + 1 < |ms| <==> i + 1 < |ns|
    ensures i + 1 < |ms| ==> MembersText(a, ms, i + 1, collation, s) == MembersText(b, ns, i + 1, collation, t)
    ensures i + 1 == |ms| ==> s == t
  {
    assert AfterMember(a, ms, i, collation, s)[0] == (if i + 1 < |ms| then ',' else '}');
    assert AfterMember(b, ns, i, collation, t)[0] == (if i + 1 < |ns| then ',' else '}');
    if i + 1 < |ms| {
      TailsEqual(",", MembersText(a, ms, i + 1, collation, s), MembersText(b, ns, i + 1, collation, t));
    } else {
      TailsEqual("}", s, t);
    }
  }

  lemma ObjectText(v: Value, collation: Collation, s: string)
    requires v.Object?
    ensures (forall m | m in Printed(v.members, collation) :: m in v.members)
      && MembersBelow(Printed(v.members, collation), v)
    ensures Print(v, collation) + s == "{" + MembersText(v, Printed(v.members, collation), 0, collation, s)
  {
    PrintObject(v, collation);
    Regroup("{", Join(MemberTexts(v, Printed(v.members, collation), collation), 0), "}" + s);
    Regroup("{" + Join(MemberTexts(v, Printed(v.members, collation), collation), 0), "}", s);
  }

  lemma PrintObject(v: Value, collation: Collation)
    requires v.Object?
    ensures (forall m | m in Printed(v.members, collation) :: m in v.members)
      && MembersBelow(Printed(v.members, collation), v)
    ensures Print(v, collation) == "{" + Join(MemberTexts(v, Printed(v.members, collation), collation), 0) + "}"
  {
    PrintedMembers(v.members, collation);
  }

  /** A printed value, with whatever may follow it, can be read in one way only. */
  lemma {:induction false} ValueReads(a: Value, b: Value, collation: Collation, s: string, t: string)
    requires WellFormed(a) && WellFormed(b) && Stops(s) && Stops(t)
    requires Print(a, collation) + s == Print(b, collation) + t
    ensures Equivalent(a, b) && s == t
    decreases a, 4, 0
  {
    KindsAgree(a, b, collation, s, t);
    if a.Array? {
      ArrayText(a, collation, s);
      ArrayText(b, collation, t);
      var p, q := Squash(a.items), Squash(b.items);
      TailsEqual("[", ItemsText(a, p, 0, collation, s), ItemsText(b, q, 0, collation, t));
      ArraysRead(a, b, p, q, collation, s, t);
    } else if a.Object? {
      ObjectText(a, collation, s);
      ObjectText(b, collation, t);
      var p, q := Printed(a.members, collation), Printed(b.members, collation);
      TailsEqual("{", MembersText(a, p, 0, collation, s), MembersText(b, q, 0, collation, t));
      ObjectsRead(a, b, p, q, collation, s, t);
      PrintedMembers(a.members, collation);
      PrintedMembers(b.members, collation);
      PairwiseMembersEquivalent(a.members, b.members, p, q);
    } else {
      ScalarReads(a, b, collation, s, t);
    }
  }

  lemma {:induction false} ItemReads(a: Value, b: Value, xs: seq<Value>, ys: seq<Value>, i: nat, collation: Collation,
                                     s: string, t: string)
    requires ItemsBelow(xs, a) && ItemsWellFormed(xs) && ItemsBelow(ys, b) && ItemsWellFormed(ys)
    requires i < |xs| && i < |ys|
    requires ItemsText(a, xs, i, collation, s) == ItemsText(b, ys, i, collation, t)
    ensures Equivalent(xs[i], ys[i])
    ensures AfterItem(a, xs, i, collation, s) == AfterItem(b, ys, i, collation, t)
    decreases a, 0, 0
  {
    assert xs[i] in xs && ys[i] in ys;
    ItemsTextUnfolds(a, xs, i, collation, s);
    ItemsTextUnfolds(b, ys, i, collation, t);
    ValueReads(xs[i], ys[i], collation, AfterItem(a, xs, i, collation, s), AfterItem(b, ys, i, collation, t));
  }

  lemma {:induction false} ItemStep(a: Value, b: Value, xs: seq<Value>, ys: seq<Value>, i: nat, collation: Collation,
                                    s: string, t: string)
    requires ItemsBelow(xs, a) && ItemsWellFormed(xs) && ItemsBelow(ys, b) && ItemsWellFormed(ys)
    requires i < |xs| && i < |ys|
    requires ItemsText(a, xs, i, collation, s) == ItemsText(b, ys, i, collation, t)
    ensures Equivalent(xs[i], ys[i]) && (i + 1 < |xs| <==> i + 1 < |ys|)
    ensures if i + 1 < |xs| then ItemsText(a, xs, i + 1, collation, s) == ItemsText(b, ys, i + 1, collation, t)
      else s == t
    decreases a, 1, 0
  {
    ItemReads(a, b, xs, ys, i, collation, s, t);
    AfterItemReads(a, b, xs, ys, i, collation, s, t);
  }

  /** If the texts agree at entry k, so do the entries, and both lists go on or are done together. */
  ghost predicate StepsAt(m: nat, n: nat, agree: int -> bool, same: int -> bool, done: bool, k: int) {
    0 <= k < m && k < n && agree(k) ==>
      same(k) && (k + 1 < m <==> k + 1 < n) && (k + 1 < m ==> agree(k + 1)) && (k + 1 == m ==> done)
  }

  /** Two lists read in step from agreeing texts are alike to the end. */
  lemma {:induction false} ReadInStep(m: nat, n: nat, agree: int -> bool, same: int -> bool, done: bool, i: nat)
    requires forall k :: StepsAt(m, n, agree, same, done, k)
    requires i < m && i < n && agree(i)
    ensures m == n && done && forall k | i <= k < m :: same(k)
    decreases m - i
  {
    assert StepsAt(m, n, agree, same, done, i);
    if i + 1 < m {
      ReadInStep(m, n, agree, same, done, i + 1);
    }
  }

  ghost function ItemsAgree(a: Value, b: Value, xs: seq<Value>, ys: seq<Value>, collation: Collation, s: string,
                            t: string): int -> bool
    requires ItemsBelow(xs, a) && ItemsBelow(ys, b)
  {
    (k: int) => 0 <= k < |xs| && k < |ys| && ItemsText(a, xs, k, collation, s) == ItemsText(b, ys, k, collation, t)
  }

  ghost function SameItems(xs: seq<Value>, ys: seq<Value>): int -> bool {
    (k: int) => 0 <= k < |xs| && k < |ys| && Equivalent(xs[k], ys[k])
  }

  lemma {:induction false} ItemsStepAt(a: Value, b: Value, xs: seq<Value>, ys: seq<Value>, k: int, collation: Collation,
                                       s: string, t: string)
    requires ItemsBelow(xs, a) && ItemsWellFormed(xs) && ItemsBelow(ys, b) && ItemsWellFormed(ys)
    ensures StepsAt(|xs|, |ys|, ItemsAgree(a, b, xs, ys, collation, s, t), SameItems(xs, ys), s == t, k)
    decreases a, 2, 0
  {
    if 0 <= k < |xs| && k < |ys| && ItemsAgree(a, b, xs, ys, collation, s, t)(k) {
      ItemStep(a, b, xs, ys, k, collation, s, t);
    }
  }

  /** Only the empty array prints nothing between its brackets. */
  lemma ItemsLead(a: Value, xs: seq<Value>, collation: Collation, s: string)
    requires ItemsBelow(xs, a) && ItemsWellFormed(xs) && xs != [Undefined]
    ensures ItemsText(a, xs, 0, collation, s)[0] == ']' <==> xs == []
    ensures xs == [] ==> ItemsText(a, xs, 0, collation, s) == "]" + s
  {
    if xs != [] {
      assert xs[0] in xs;
      ItemsTextUnfolds(a, xs, 0, collation, s);
      if xs[0].Undefined? {
        assert |xs| > 1 && ItemsText(a, xs, 0, collation, s) == AfterItem(a, xs, 0, collation, s);
      } else {
        PrintLeads(xs[0], collation, AfterItem(a, xs, 0, collation, s));
      }
    }
  }

  lemma EmptyItems(a: Value, b: Value, xs: seq<Value>, ys: seq<Value>, collation: Collation, s: string, t: string)
    requires ItemsBelow(xs, a) && ItemsWellFormed(xs) && ItemsBelow(ys, b) && ItemsWellFormed(ys)
    requires xs != [Undefined] && ys != [Undefined] && (xs == [] || ys == [])
    requires ItemsText(a, xs, 0, collation, s) == ItemsText(b, ys, 0, collation, t)
    ensures xs == [] && ys == [] && s == t
  {
    ItemsLead(a, xs, collation, s);
    ItemsLead(b, ys, collation, t);
    TailsEqual("]", s, t);
  }

  lemma {:induction false} ArraysRead(a: Value, b: Value, xs: seq<Value>, ys: seq<Value>, collation: Collation,
                                      s: string, t: string)
    requires ItemsBelow(xs, a) && ItemsWellFormed(xs) && ItemsBelow(ys, b) && ItemsWellFormed(ys)
    requires xs != [Undefined] && ys != [Undefined]
    requires ItemsText(a, xs, 0, collation, s) == ItemsText(b, ys, 0, collation, t)
    ensures |xs| == |ys| && s == t && forall k | 0 <= k < |xs| :: Equivalent(xs[k], ys[k])
    decreases a, 3, 0
  {
    if xs == [] || ys == [] {
      EmptyItems(a, b, xs, ys, collation, s, t);
    } else {
      var done := s == t;
      forall k ensures StepsAt(|xs|, |ys|, ItemsAgree(a, b, xs, ys, collation, s, t), SameItems(xs, ys), done, k) {
        ItemsStepAt(a, b, xs, ys, k, collation, s, t);
      }
      ReadInStep(|xs|, |ys|, ItemsAgree(a, b, xs, ys, collation, s, t), SameItems(xs, ys), done, 0);
      forall k | 0 <= k < |xs| ensures Equivalent(xs[k], ys[k]) {
        assert SameItems(xs, ys)(k);
      }
    }
  }

  ghost predicate SameMember(m: Member, n: Member) {
    m.key == n.key && Equivalent(m.value, n.value)
  }

  lemma {:induction false} MemberReads(a: Value, b: Value, ms: seq<Member>, ns: seq<Member>, i: nat,
                                       collation: Collation, s: string, t: string)
    requires MembersBelow(ms, a) && MembersWellFormed(ms) && MembersBelow(ns, b) && MembersWellFormed(ns)
    requires i < |ms| && i < |ns|
    requires MembersText(a, ms, i, collation, s) == MembersText(b, ns, i, collation, t)
    ensures SameMember(ms[i], ns[i])
    ensures AfterMember(a, ms, i, collation, s) == AfterMember(b, ns, i, collation, t)
    decreases a, 0, 0
  {
    assert ms[i] in ms && ns[i] in ns;
    MembersTextUnfolds(a, ms, i, collation, s);
    MembersTextUnfolds(b, ns, i, collation, t);
    var x, y := MemberValueText(a, ms, i, collation, s), MemberValueText(b, ns, i, collation, t);
    QuoteReads(ms[i].key, ns[i].key, ":" + x, ":" + y);
    TailsEqual(":", x, y);
    ValueReads(ms[i].value, ns[i].value, collation, AfterMember(a, ms, i, collation, s),
      AfterMember(b, ns, i, collation, t));
  }

  lemma MembersEndTogether(a: Value, b: Value, ms: seq<Member>, ns: seq<Member>, i: nat, collation: Collation,
                           s: string, t: string)
    requires MembersBelow(ms, a) && MembersBelow(ns, b) && i <= |ms| && i <= |ns|
    requires MembersText(a, ms, i, collation, s) == MembersText(b, ns, i, collation, t)
    ensures i == |ms| <==> i == |ns|
    ensures i == |ms| ==> s == t
  {
    MembersTextLead(a, ms, i, collation, s);
    MembersTextLead(b, ns, i, collation, t);
    if i == |ms| {
      MembersTextEnds(a, ms, collation, s);
      MembersTextEnds(b, ns, collation, t);
      TailsEqual("}", s, t);
    }
  }

  lemma {:induction false} MemberStep(a: Value, b: Value, ms: seq<Member>, ns: seq<Member>, i: nat,
                                      collation: Collation, s: string, t: string)
    requires MembersBelow(ms, a) && MembersWellFormed(ms) && MembersBelow(ns, b) && MembersWellFormed(ns)
    requires i < |ms| && i < |ns|
    requires MembersText(a, ms, i, collation, s) == MembersText(b, ns, i, collation, t)
    ensures SameMember(ms[i], ns[i]) && (i + 1 < |ms| <==> i + 1 < |ns|)
    ensures if i + 1 < |ms| then MembersText(a, ms, i + 1, collation, s) == MembersText(b, ns, i + 1, collation, t)
      else s == t
    decreases a, 1, 0
  {
    MemberReads(a, b, ms, ns, i, collation, s, t);
    AfterMemberReads(a, b, ms, ns, i, collation, s, t);
  }

  ghost function MembersAgree(a: Value, b: Value, ms: seq<Member>, ns: seq<Member>, collation: Collation, s: string,
                              t: string): int -> bool
    requires MembersBelow(ms, a) && MembersBelow(ns, b)
  {
    (k: int) => 0 <= k < |ms| && k < |ns| && MembersText(a, ms, k, collation, s) == MembersText(b, ns, k, collation, t)
  }

  ghost function SameMembers(ms: seq<Member>, ns: seq<Member>): int -> bool {
    (k: int) => 0 <= k < |ms| && k < |ns| && SameMember(ms[k], ns[k])
  }

  lemma {:induction false} MembersStepAt(a: Value, b: Value, ms: seq<Member>, ns: seq<Member>, k: int,
                                         collation: Collation, s: string, t: string)
    requires MembersBelow(ms, a) && MembersWellFormed(ms) && MembersBelow(ns, b) && MembersWellFormed(ns)
    ensures StepsAt(|ms|, |ns|, MembersAgree(a, b, ms, ns, collation, s, t), SameMembers(ms, ns), s == t, k)
    decreases a, 2, 0
  {
    if 0 <= k < |ms| && k < |ns| && MembersAgree(a, b, ms, ns, collation, s, t)(k) {
      MemberStep(a, b, ms, ns, k, collation, s, t);
    }
  }

  lemma {:induction false} ObjectsRead(a: Value, b: Value, ms: seq<Member>, ns: seq<Member>, collation: Collation,
                                       s: string, t: string)
    requires MembersBelow(ms, a) && MembersWellFormed(ms) && MembersBelow(ns, b) && MembersWellFormed(ns)
    requires MembersText(a, ms, 0, collation, s) == MembersText(b, ns, 0, collation, t)
    ensures Pairwise(ms, ns) && s == t
    decreases a, 3, 0
  {
    MembersEndTogether(a, b, ms, ns, 0, collation, s, t);
    if ms != [] {
      var done := s == t;
      forall k ensures StepsAt(|ms|, |ns|, MembersAgree(a, b, ms, ns, collation, s, t), SameMembers(ms, ns), done, k) {
        MembersStepAt(a, b, ms, ns, k, collation, s, t);
      }
      ReadInStep(|ms|, |ns|, MembersAgree(a, b, ms, ns, collation, s, t), SameMembers(ms, ns), done, 0);
      forall k | 0 <= k < |ms| ensures SameMember(ms[k], ns[k]) {
        assert SameMembers(ms, ns)(k);
      }
    }
  }

  ghost predicate Pairwise(p: seq<Member>, q: seq<Member>) {
    |p| == |q| && forall k | 0 <= k < |p| :: SameMember(p[k], q[k])
  }

  lemma PairwiseMembersEquivalent(ms: seq<Member>, ns: seq<Member>, p: seq<Member>, q: seq<Member>)
    requires (forall m :: m in p <==> m in ms && Defined(m)) && (forall n :: n in q <==> n in ns && Defined(n))
    requires Pairwise(p, q)
    ensures Equivalent(Object(ms), Object(ns))
  {
    forall m | m in ms && Defined(m) ensures MatchedIn(m, ns) {
      assert m in p;
      var k :| 0 <= k < |p| && p[k] == m;
      assert q[k] in q && SameMember(p[k], q[k]);
    }
    forall n | n in ns && Defined(n) ensures MatchedBy(ms, n) {
      assert n in q;
      var k :| 0 <= k < |q| && q[k] == n;
      assert p[k] in p && SameMember(p[k], q[k]);
    }
  }

  // ---- Equivalent values print alike

  function Keys(ms: seq<Member>): seq<string> {
    seq(|ms|, i requires 0 <= i < |ms| => ms[i].key)
  }

  lemma KeyOrderTotal(collation: Collation)
    requires TotalPreorder(collation)
    ensures TotalPreorder(KeyOrder(collation))
  {
    var le := KeyOrder(collation);
    forall x, y ensures le(x, y) || le(y, x) {
      assert collation(x.key, y.key) || collation(y.key, x.key);
    }
    forall x, y, z | le(x, y) && le(y, z) ensures le(x, z) {
      assert collation(x.key, y.key) && collation(y.key, z.key);
    }
  }

  /** The printed members of an object have sorted keys, */
  lemma PrintedKeysSorted(ms: seq<Member>, collation: Collation)
    requires TotalPreorder(collation)
    ensures Sorted(Keys(Printed(ms, collation)), collation)
  {
    var kept, p, le := Filter(ms, Defined), Printed(ms, collation), KeyOrder(collation);
    KeyOrderTotal(collation);
    SortSorted(kept, le);
    forall i, j | 0 <= i < j < |p| ensures collation(p[i].key, p[j].key) {
      assert le(p[i], p[j]);
    }
  }

  /** and no key twice. */
  lemma PrintedKeysDistinct(ms: seq<Member>, collation: Collation)
    requires KeysDistinct(ms)
    ensures NoDuplicates(Keys(Printed(ms, collation)))
  {
    var p := Printed(ms, collation);
    FilterDuplicateFree(ms, Defined);
    RearrangedDuplicateFree(Filter(ms, Defined), p);
    PrintedMembers(ms, collation);
    forall i, j | 0 <= i < j < |p| ensures p[i].key != p[j].key {
      assert p[i] in p && p[j] in p && p[i] != p[j];
    }
  }

  ghost predicate CoveredIn(m: Member, q: seq<Member>) {
    exists j | 0 <= j < |q| :: SameMember(m, q[j])
  }

  ghost predicate CoveredFrom(p: seq<Member>, n: Member) {
    exists i | 0 <= i < |p| :: SameMember(p[i], n)
  }

  lemma MatchedIsCovered(m: Member, ns: seq<Member>, q: seq<Member>)
    requires MatchedIn(m, ns) && forall n | n in ns && Defined(n) :: n in q
    ensures CoveredIn(m, q)
  {
    var n :| n in ns && Defined(n) && n.key == m.key && Equivalent(m.value, n.value);
    var j :| 0 <= j < |q| && q[j] == n;
    assert SameMember(m, q[j]);
  }

  lemma MatchedIsCoveredFrom(ms: seq<Member>, n: Member, p: seq<Member>)
    requires MatchedBy(ms, n) && forall m | m in ms && Defined(m) :: m in p
    ensures CoveredFrom(p, n)
  {
    var m :| m in ms && Defined(m) && m.key == n.key && Equivalent(m.value, n.value);
    var i :| 0 <= i < |p| && p[i] == m;
    assert SameMember(p[i], n);
  }

  lemma CoversKeys(p: seq<Member>, q: seq<Member>)
    requires forall i | 0 <= i < |p| :: CoveredIn(p[i], q)
    ensures forall key | key in Keys(p) :: key in Keys(q)
  {
    forall key | key in Keys(p) ensures key in Keys(q) {
      var i :| 0 <= i < |Keys(p)| && Keys(p)[i] == key;
      assert CoveredIn(p[i], q);
      var j :| 0 <= j < |q| && SameMember(p[i], q[j]);
      assert Keys(q)[j] == key;
    }
  }

  lemma CoveredByKeys(p: seq<Member>, q: seq<Member>)
    requires forall j | 0 <= j < |q| :: CoveredFrom(p, q[j])
    ensures forall key | key in Keys(q) :: key in Keys(p)
  {
    forall key | key in Keys(q) ensures key in Keys(p) {
      var j :| 0 <= j < |Keys(q)| && Keys(q)[j] == key;
      assert CoveredFrom(p, q[j]);
      var i :| 0 <= i < |p| && SameMember(p[i], q[j]);
      assert Keys(p)[i] == key;
    }
  }

  lemma EquivalentCovers(ms: seq<Member>, ns: seq<Member>, p: seq<Member>, q: seq<Member>)
    requires (forall m | m in p :: m in ms && Defined(m)) && (forall n | n in ns && Defined(n) :: n in q)
    requires Equivalent(Object(ms), Object(ns))
    ensures forall i | 0 <= i < |p| :: CoveredIn(p[i], q)
  {
    forall i | 0 <= i < |p| ensures CoveredIn(p[i], q) {
      assert p[i] in p && MatchedIn(p[i], ns);
      MatchedIsCovered(p[i], ns, q);
    }
  }

  lemma EquivalentCovered(ms: seq<Member>, ns: seq<Member>, p: seq<Member>, q: seq<Member>)
    requires (forall m | m in ms && Defined(m) :: m in p) && (forall n | n in q :: n in ns && Defined(n))
    requires Equivalent(Object(ms), Object(ns))
    ensures forall j | 0 <= j < |q| :: CoveredFrom(p, q[j])
  {
    forall j | 0 <= j < |q| ensures CoveredFrom(p, q[j]) {
      assert q[j] in q && MatchedBy(ms, q[j]);
      MatchedIsCoveredFrom(ms, q[j], p);
    }
  }

  lemma SameKeysPairwise(p: seq<Member>, q: seq<Member>)
    requires Keys(p) == Keys(q) && NoDuplicates(Keys(p)) && forall i | 0 <= i < |p| :: CoveredIn(p[i], q)
    ensures Pairwise(p, q)
  {
    assert |Keys(p)| == |p| && |Keys(q)| == |q|;
    forall k | 0 <= k < |p| ensures SameMember(p[k], q[k]) {
      assert CoveredIn(p[k], q);
      var j :| 0 <= j < |q| && SameMember(p[k], q[j]);
      assert Keys(p)[k] == Keys(q)[j] == Keys(p)[j];
    }
  }

  lemma SameSortedKeys(p: seq<string>, q: seq<string>, collation: Collation)
    requires TotalOrder(collation) && Sorted(p, collation) && Sorted(q, collation)
    requires NoDuplicates(p) && NoDuplicates(q) && (forall key :: key in p <==> key in q)
    ensures p == q
  {
    SameElementsSameMultiset(p, q);
    SortedUnique(p, q, collation);
  }

  ghost predicate Aligned(ms: seq<Member>, ns: seq<Member>, collation: Collation) {
    KeysDistinct(ms) && KeysDistinct(ns) && Equivalent(Object(ms), Object(ns))
    ==> Pairwise(Printed(ms, collation), Printed(ns, collation))
  }

  /** Equivalent objects print the same keys in the same places. */
  lemma EquivalentObjectsAlign(ms: seq<Member>, ns: seq<Member>, collation: Collation)
    requires TotalOrder(collation)
    ensures Aligned(ms, ns, collation)
  {
    if KeysDistinct(ms) && KeysDistinct(ns) && Equivalent(Object(ms), Object(ns)) {
      var p, q := Printed(ms, collation), Printed(ns, collation);
      PrintedMembers(ms, collation);
      PrintedMembers(ns, collation);
      EquivalentCovers(ms, ns, p, q);
      EquivalentCovered(ms, ns, p, q);
      CoversKeys(p, q);
      CoveredByKeys(p, q);
      PrintedKeysSorted(ms, collation);
      PrintedKeysSorted(ns, collation);
      PrintedKeysDistinct(ms, collation);
      PrintedKeysDistinct(ns, collation);
      SameSortedKeys(Keys(p), Keys(q), collation);
      SameKeysPairwise(p, q);
    }
  }

  ghost predicate AlignsObjects(collation: Collation) {
    forall ms, ns :: Aligned(ms, ns, collation)
  }

  lemma ObjectsAlign(collation: Collation)
    requires TotalOrder(collation)
    ensures AlignsObjects(collation)
  {
    forall ms, ns ensures Aligned(ms, ns, collation) {
      EquivalentObjectsAlign(ms, ns, collation);
    }
  }

  lemma {:induction false} EquivalentPrintsAlike(a: Value, b: Value, collation: Collation)
    requires WellFormed(a) && WellFormed(b) && AlignsObjects(collation)
    requires Equivalent(a, b)
    ensures Print(a, collation) == Print(b, collation)
    decreases a, 2
  {
    if a.Array? && b.Array? {
      SquashPrints(a, collation);
      SquashPrints(b, collation);
      var xs, ys := Squash(a.items), Squash(b.items);
      forall k | 0 <= k < |xs| ensures Print(xs[k], collation) == Print(ys[k], collation) {
        ItemValuesAlike(a, b, xs, ys, k, collation);
      }
      ItemsPrintAlike(a, b, xs, ys, collation);
    } else if a.Object? && b.Object? {
      assert Aligned(a.members, b.members, collation);
      PrintedMembers(a.members, collation);
      PrintedMembers(b.members, collation);
      ObjectsPrintAlike(a, b, Printed(a.members, collation), Printed(b.members, collation), collation);
    }
  }

  lemma {:induction false} ObjectsPrintAlike(a: Value, b: Value, p: seq<Member>, q: seq<Member>, collation: Collation)
    requires MembersBelow(p, a) && MembersWellFormed(p) && MembersBelow(q, b) && MembersWellFormed(q)
    requires AlignsObjects(collation) && Pairwise(p, q)
    ensures Join(MemberTexts(a, p, collation), 0) == Join(MemberTexts(b, q, collation), 0)
    decreases a, 1
  {
    forall k | 0 <= k < |p| ensures SameText(p[k], q[k], collation) {
      assert SameMember(p[k], q[k]);
      MemberValuesAlike(a, b, p, q, k, collation);
    }
    MembersPrintAlike(a, b, p, q, collation);
  }

  lemma {:induction false} ItemValuesAlike(a: Value, b: Value, xs: seq<Value>, ys: seq<Value>, i: nat,
                                           collation: Collation)
    requires ItemsBelow(xs, a) && ItemsWellFormed(xs) && ItemsBelow(ys, b) && ItemsWellFormed(ys)
    requires AlignsObjects(collation) && i < |xs| && i < |ys| && Equivalent(xs[i], ys[i])
    ensures Print(xs[i], collation) == Print(ys[i], collation)
    decreases a, 0
  {
    assert xs[i] in xs && ys[i] in ys;
    EquivalentPrintsAlike(xs[i], ys[i], collation);
  }

  lemma {:induction false} MemberValuesAlike(a: Value, b: Value, p: seq<Member>, q: seq<Member>, i: nat,
                                             collation: Collation)
    requires MembersBelow(p, a) && MembersWellFormed(p) && MembersBelow(q, b) && MembersWellFormed(q)
    requires AlignsObjects(collation) && i < |p| && i < |q| && SameMember(p[i], q[i])
    ensures Print(p[i].value, collation) == Print(q[i].value, collation)
    decreases a, 0
  {
    assert p[i] in p && q[i] in q;
    EquivalentPrintsAlike(p[i].value, q[i].value, collation);
  }

  lemma ItemsPrintAlike(a: Value, b: Value, xs: seq<Value>, ys: seq<Value>, collation: Collation)
    requires ItemsBelow(xs, a) && ItemsBelow(ys, b)
    requires |xs| == |ys| && forall k | 0 <= k < |xs| :: Print(xs[k], collation) == Print(ys[k], collation)
    ensures ItemTexts(a, xs, collation) == ItemTexts(b, ys, collation)
  {
  }

  predicate SameText(m: Member, n: Member, collation: Collation) {
    m.key == n.key && Print(m.value, collation) == Print(n.value, collation)
  }

  lemma MembersPrintAlike(a: Value, b: Value, p: seq<Member>, q: seq<Member>, collation: Collation)
    requires MembersBelow(p, a) && MembersBelow(q, b)
    requires |p| == |q| && forall k | 0 <= k < |p| :: SameText(p[k], q[k], collation)
    ensures MemberTexts(a, p, collation) == MemberTexts(b, q, collation)
  {
  }

  // ---- Main results

  /** The text identifies the value: any two values that print alike are equivalent. */
  lemma PrintIsInjective(a: Value, b: Value, collation: Collation)
    requires WellFormed(a) && WellFormed(b) && Print(a, collation) == Print(b, collation)
    ensures Equivalent(a, b)
  {
    assert Print(a, collation) + "" == Print(a, collation) && Print(b, collation) + "" == Print(b, collation);
    ValueReads(a, b, collation, "", "");
  }

  /** Two values print the same text if and only if they are equal up to key order and undefined members. */
  lemma StableJsonIsCanonical(a: Value, b: Value, collation: Collation)
    requires WellFormed(a) && WellFormed(b) && TotalOrder(collation)
    ensures Print(a, collation) == Print(b, collation) <==> Equivalent(a, b)
  {
    if Print(a, collation) == Print(b, collation) {
      PrintIsInjective(a, b, collation);
    } else if Equivalent(a, b) {
      ObjectsAlign(collation);
      EquivalentPrintsAlike(a, b, collation);
    }
  }

  ghost predicate Canonical(collation: Collation) {
    forall a, b | WellFormed(a) && WellFormed(b) && Equivalent(a, b) :: Print(a, collation) == Print(b, collation)
  }

  /** The printer forgets key order exactly when the collation never ties two different keys. */
  lemma CanonicalExactlyWithoutTies(collation: Collation)
    requires TotalPreorder(collation)
    ensures Canonical(collation) <==> TotalOrder(collation)
  {
    if TotalOrder(collation) {
      ObjectsAlign(collation);
      forall a, b | WellFormed(a) && WellFormed(b) && Equivalent(a, b)
        ensures Print(a, collation) == Print(b, collation)
      {
        EquivalentPrintsAlike(a, b, collation);
      }
    } else {
      var x, y :| collation(x, y) && collation(y, x) && x != y;
      TiedKeysKeepTheirOrder(x, y, collation);
    }
  }

  function PairOf(x: string, y: string): Value {
    Object([Member(x, Null), Member(y, Null)])
  }

  lemma PairPrinted(m: Member, n: Member, collation: Collation)
    requires collation(m.key, n.key) && Defined(m) && Defined(n)
    ensures Printed([m, n], collation) == [m, n]
  {
    assert [m, n][..1] == [m] && [m][..0] == [];
    assert Filter([m, n], Defined) == Filter([m], Defined) + [n];
    assert Filter([m], Defined) == Filter([], Defined) + [m];
    assert [m, n][1..] == [n];
    assert Sort([n], KeyOrder(collation)) == [n];
  }

  /** The text of a pair starts with its first key. */
  lemma PairPrints(x: string, y: string, collation: Collation) returns (rest: string)
    requires collation(x, y)
    ensures Print(PairOf(x, y), collation) == "{" + (Quote(x) + rest)
  {
    var v, ms := PairOf(x, y), [Member(x, Null), Member(y, Null)];
    PairPrinted(ms[0], ms[1], collation);
    ObjectText(v, collation, "");
    MembersTextUnfolds(v, ms, 0, collation, "");
    rest := ":" + MemberValueText(v, ms, 0, collation, "");
    assert Print(v, collation) + "" == Print(v, collation);
  }

  lemma TiedKeysKeepTheirOrder(x: string, y: string, collation: Collation)
    requires collation(x, y) && collation(y, x) && x != y
    ensures WellFormed(PairOf(x, y)) && WellFormed(PairOf(y, x)) && Equivalent(PairOf(x, y), PairOf(y, x))
    ensures Print(PairOf(x, y), collation) != Print(PairOf(y, x), collation)
  {
    PairsEquivalent(x, y);
    var s := PairPrints(x, y, collation);
    var t := PairPrints(y, x, collation);
    QuotesDiffer(x, y, s, t);
  }

  lemma QuotesDiffer(x: string, y: string, s: string, t: string)
    requires x != y
    ensures "{" + (Quote(x) + s) != "{" + (Quote(y) + t)
  {
    if "{" + (Quote(x) + s) == "{" + (Quote(y) + t) {
      TailsEqual("{", Quote(x) + s, Quote(y) + t);
      QuoteReads(x, y, s, t);
    }
  }

  lemma PairsEquivalent(x: string, y: string)
    requires x != y
    ensures WellFormed(PairOf(x, y)) && WellFormed(PairOf(y, x)) && Equivalent(PairOf(x, y), PairOf(y, x))
  {
    var m, n := Member(x, Null), Member(y, Null);
    var ms, ns := [m, n], [n, m];
    assert m in ms && n in ms && m in ns && n in ns;
    SameScalar(Null);
    assert MatchedIn(m, ns) && MatchedIn(n, ns);
    assert MatchedBy(ms, m) && MatchedBy(ms, n);
  }

  lemma SameScalar(v: Value)
    requires v.Null?
    ensures Equivalent(v, v) && WellFormed(v)
  {
  }

  /** Without the squash and null collapses two different arrays or numbers would share a text. */
  lemma Collapses(collation: Collation)
    ensures Print(Array([Undefined]), collation) == Print(Array([]), collation)
    ensures Print(NonFinite, collation) == Print(Null, collation)
    ensures Print(Array([Undefined, Undefined]), collation) != Print(Array([Undefined]), collation)
  {
    var pair := Array([Undefined, Undefined]);
    assert Undefined in pair.items;
    assert Join(ItemTexts(pair, pair.items, collation), 1) == "";
    assert Join(ItemTexts(pair, pair.items, collation), 0) == "" + ("," + "");
  }
}
