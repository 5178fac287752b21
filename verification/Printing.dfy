/** JSON text (RFC 8259, sections 4, 5 and 7) and the two canonical printers built on it. */
module Printing {
  import opened StringOrder
  import opened JsonValues

  function HexDigit(n: nat): char
    requires n < 16
  {
    "0123456789abcdef"[n]
  }

  /** How a character appears inside a string literal. */
  function EscapeChar(c: char): string {
    if c == '\"' then "\\\""
    else if c == '\\' then "\\\\"
    else if c == '\n' then "\\n"
    else if c == '\r' then "\\r"
    else if c == '\t' then "\\t"
    else if c as int == 8 then "\\b"
    else if c as int == 12 then "\\f"
    else if c as int < 32 then
      ['\\', 'u', '0', '0', HexDigit(c as int / 16), HexDigit(c as int % 16)]
    else [c]
  }

  function Escape(s: string): string {
    if s == "" then "" else EscapeChar(s[0]) + Escape(s[1..])
  }

  function Quote(s: string): string {
    "\"" + Escape(s) + "\""
  }

  function Decimal(n: nat): string {
    if n < 10 then [HexDigit(n)] else Decimal(n / 10) + [HexDigit(n % 10)]
  }

  function PrintNumber(n: int): string {
    if n < 0 then "-" + Decimal(-n) else Decimal(n)
  }

  /** `JSON.stringify`: members in the order the object lists them. */
  function Stringify(j: Json): string
    decreases j, 0
  {
    match j
    case JNull => "null"
    case JBool(b) => if b then "true" else "false"
    case JNumber(n) => PrintNumber(n)
    case JString(s) => Quote(s)
    case JArray(items) => "[" + PrintItems(items) + "]"
    case JObject(members) => "{" + PrintMembers(members) + "}"
  }

  function PrintItems(items: seq<Json>): string
    decreases items
  {
    if items == [] then ""
    else if |items| == 1 then Stringify(items[0])
    else Stringify(items[0]) + "," + PrintItems(items[1..])
  }

  function PrintMember(m: Member): string
    decreases m
  {
    Quote(m.key) + ":" + Stringify(m.value)
  }

  function PrintMembers(members: seq<Member>): string
    decreases members
  {
    if members == [] then ""
    else if |members| == 1 then PrintMember(members[0])
    else PrintMember(members[0]) + "," + PrintMembers(members[1..])
  }

  // ---- the text determines the value ----

  predicate IsDigit(c: char) { '0' <= c <= '9' }

  /** What may follow a printed value: nothing that could continue a number. */
  predicate Stops(s: string) { s == "" || !IsDigit(s[0]) }

  lemma SplitAt(a: string, s: string, b: string, t: string)
    requires a + s == b + t && |a| == |b|
    ensures a == b && s == t
  {
    assert (a + s)[..|a|] == a && (b + t)[..|b|] == b;
    assert (a + s)[|a|..] == s && (b + t)[|b|..] == t;
  }

  lemma RestHead(d: string, s: string, e: string, t: string)
    requires d + s == e + t && |d| < |e|
    ensures s != "" && s[0] == e[|d|]
  {
    assert (d + s)[|d|] == (e + t)[|d|] == e[|d|];
  }

  lemma SameHead(a: string, s: string, b: string, t: string)
    requires a != "" && b != "" && a + s == b + t
    ensures a[0] == b[0]
  {
    assert (a + s)[0] == a[0] && (b + t)[0] == b[0];
  }

  lemma EscapeCharShape(c: char)
    ensures var e := EscapeChar(c);
      && (e == [c] || |e| == 2 || |e| == 6)
      && e[0] != '\"'
      && (|e| == 1 ==> c != '\\' && c as int >= 32)
      && (|e| > 1 ==> e[0] == '\\')
      && (|e| == 2 ==> e[1] != 'u')
      && (|e| == 6 ==> e[1] == 'u' && c as int < 32)
  {}

  lemma HexInjective(a: nat, b: nat)
    requires a < 16 && b < 16 && HexDigit(a) == HexDigit(b)
    ensures a == b
  {}

  lemma EscapeCharCancels(c: char, s: string, d: char, t: string)
    requires EscapeChar(c) + s == EscapeChar(d) + t
    ensures c == d && s == t
  {
    EscapeCharShape(c);
    EscapeCharShape(d);
    var e, f := EscapeChar(c), EscapeChar(d);
    assert e[0] == (e + s)[0] == (f + t)[0] == f[0];
    if |e| > 1 {
      assert e[1] == (e + s)[1] == (f + t)[1] == f[1];
    }
    SplitAt(e, s, f, t);
    if |e| == 6 {
      HexInjective(c as int / 16, d as int / 16);
      HexInjective(c as int % 16, d as int % 16);
    }
  }

  lemma Assoc(a: string, b: string, c: string)
    ensures a + b + c == a + (b + c)
  {}

  /** The rest of a string literal, its closing quote, and what follows. */
  function StringText(a: string, s: string): string {
    Escape(a) + ("\"" + s)
  }

  lemma StringTextHead(a: string, s: string)
    ensures a == "" ==> StringText(a, s) == "\"" + s
    ensures a != "" ==> StringText(a, s) == EscapeChar(a[0]) + StringText(a[1..], s)
    ensures StringText(a, s) != "" && (a == "" <==> StringText(a, s)[0] == '\"')
  {
    if a != "" {
      Assoc(EscapeChar(a[0]), Escape(a[1..]), "\"" + s);
      EscapeCharShape(a[0]);
      assert StringText(a, s)[0] == EscapeChar(a[0])[0];
    }
  }

  lemma {:induction false} StringCancels(a: string, s: string, b: string, t: string)
    requires StringText(a, s) == StringText(b, t)
    ensures a == b && s == t
    decreases |a|
  {
    StringTextHead(a, s);
    StringTextHead(b, t);
    if a == "" {
      SplitAt("\"", s, "\"", t);
    } else {
      EscapeCharCancels(a[0], StringText(a[1..], s), b[0], StringText(b[1..], t));
      StringCancels(a[1..], s, b[1..], t);
      assert a == [a[0]] + a[1..] && b == [b[0]] + b[1..];
    }
  }

  lemma QuoteText(a: string, s: string)
    ensures Quote(a) + s == "\"" + StringText(a, s)
  {
    Assoc("\"", Escape(a), "\"");
    Assoc("\"", Escape(a) + "\"", s);
    Assoc(Escape(a), "\"", s);
  }

  lemma QuoteCancels(a: string, s: string, b: string, t: string)
    requires Quote(a) + s == Quote(b) + t
    ensures a == b && s == t
  {
    QuoteText(a, s);
    QuoteText(b, t);
    SplitAt("\"", StringText(a, s), "\"", StringText(b, t));
    StringCancels(a, s, b, t);
  }

  lemma {:induction false} DecimalDigits(n: nat)
    ensures Decimal(n) != ""
    ensures forall i | 0 <= i < |Decimal(n)| :: IsDigit(Decimal(n)[i])
  {
    if n >= 10 { DecimalDigits(n / 10); }
  }

  lemma {:induction false} DecimalInjective(a: nat, b: nat)
    requires Decimal(a) == Decimal(b)
    ensures a == b
  {
    DecimalDigits(a / 10);
    DecimalDigits(b / 10);
    var d, e := Decimal(a), Decimal(b);
    assert d[|d| - 1] == HexDigit(a % 10) && e[|e| - 1] == HexDigit(b % 10);
    HexInjective(a % 10, b % 10);
    if a >= 10 && b >= 10 {
      assert d[..|d| - 1] == Decimal(a / 10) && e[..|e| - 1] == Decimal(b / 10);
      DecimalInjective(a / 10, b / 10);
    }
  }

  lemma DecimalCancels(a: nat, s: string, b: nat, t: string)
    requires Decimal(a) + s == Decimal(b) + t && Stops(s) && Stops(t)
    ensures a == b && s == t
  {
    var d, e := Decimal(a), Decimal(b);
    DecimalDigits(a);
    DecimalDigits(b);
    if |d| < |e| {
      RestHead(d, s, e, t);
      assert false;
    } else if |e| < |d| {
      RestHead(e, t, d, s);
      assert false;
    }
    SplitAt(d, s, e, t);
    DecimalInjective(a, b);
  }

  lemma SignShown(n: int)
    ensures PrintNumber(n) != "" && (PrintNumber(n)[0] == '-' <==> n < 0)
  {
    if n >= 0 {
      DecimalDigits(n);
      assert IsDigit(Decimal(n)[0]);
    }
  }

  lemma NumberCancels(a: int, s: string, b: int, t: string)
    requires PrintNumber(a) + s == PrintNumber(b) + t && Stops(s) && Stops(t)
    ensures a == b && s == t
  {
    SignShown(a);
    SignShown(b);
    SameHead(PrintNumber(a), s, PrintNumber(b), t);
    if a < 0 {
      NegativeCancels(-a, s, -b, t);
    } else {
      DecimalCancels(a, s, b, t);
    }
  }

  lemma NegativeCancels(a: nat, s: string, b: nat, t: string)
    requires "-" + Decimal(a) + s == "-" + Decimal(b) + t && Stops(s) && Stops(t)
    ensures a == b && s == t
  {
    assert "-" + Decimal(a) + s == "-" + (Decimal(a) + s);
    assert "-" + Decimal(b) + t == "-" + (Decimal(b) + t);
    SplitAt("-", Decimal(a) + s, "-", Decimal(b) + t);
    DecimalCancels(a, s, b, t);
  }

  /** The first character tells the kind of value. */
  function Kind(j: Json): (c: char)
    ensures c !in "]},:"
  {
    match j
    case JNull => 'n'
    case JBool(b) => if b then 't' else 'f'
    case JNumber(n) => '0'
    case JString(s) => '\"'
    case JArray(items) => '['
    case JObject(members) => '{'
  }

  function KindOf(c: char): char {
    if c == '-' || IsDigit(c) then '0' else c
  }

  lemma FirstCharacter(j: Json)
    ensures Stringify(j) != "" && KindOf(Stringify(j)[0]) == Kind(j)
  {
    if j.JNumber? { DecimalDigits(if j.n < 0 then -j.n else j.n); }
  }

  /** A printed value followed by anything that does not continue it can be read back. */
  lemma {:induction false} StringifyCancels(x: Json, s: string, y: Json, t: string)
    requires Stringify(x) + s == Stringify(y) + t && Stops(s) && Stops(t)
    ensures x == y && s == t
    decreases x, 0
  {
    var p, q := Stringify(x), Stringify(y);
    FirstCharacter(x);
    FirstCharacter(y);
    assert p[0] == (p + s)[0] == (q + t)[0] == q[0];
    assert Kind(x) == Kind(y);
    match x
    case JNull => SplitAt(p, s, q, t);
    case JBool(b) => SplitAt(p, s, q, t);
    case JNumber(n) => NumberCancels(n, s, y.n, t);
    case JString(v) => QuoteCancels(v, s, y.s, t);
    case JArray(items) =>
      assert p + s == "[" + ItemsText(items, s) && q + t == "[" + ItemsText(y.items, t);
      SplitAt("[", ItemsText(items, s), "[", ItemsText(y.items, t));
      ItemsCancel(items, s, y.items, t);
    case JObject(members) =>
      assert p + s == "{" + MembersText(members, s) && q + t == "{" + MembersText(y.members, t);
      SplitAt("{", MembersText(members, s), "{", MembersText(y.members, t));
      MembersCancel(members, s, y.members, t);
  }

  /** The items, the closing bracket, and what follows the array. */
  function ItemsText(items: seq<Json>, s: string): string {
    PrintItems(items) + "]" + s
  }

  /** What follows the first item: the end, or a comma and the rest. */
  function AfterItem(items: seq<Json>, s: string): string
    requires items != []
  {
    if |items| == 1 then "]" + s else "," + ItemsText(items[1..], s)
  }

  lemma Regroup(x: string, y: string, z: string, s: string)
    ensures x + y + s == x + (y + s)
    ensures x + y + z + "]" + s == x + (y + (z + "]" + s))
  {}

  lemma ItemsTextSplit(items: seq<Json>, s: string)
    requires items != []
    ensures ItemsText(items, s) == Stringify(items[0]) + AfterItem(items, s)
  {
    var x := Stringify(items[0]);
    if |items| == 1 {
      assert PrintItems(items) == x;
      Regroup(x, "]", "", s);
    } else {
      var rest := PrintItems(items[1..]);
      assert PrintItems(items) == x + "," + rest;
      Regroup(x, ",", rest, s);
    }
  }

  lemma ItemsTextHead(items: seq<Json>, s: string)
    ensures items == [] ==> ItemsText(items, s) == "]" + s
    ensures items != [] ==> ItemsText(items, s) == Stringify(items[0]) + AfterItem(items, s)
    ensures ItemsText(items, s) != "" && (items == [] <==> ItemsText(items, s)[0] == ']')
  {
    if items == [] {
      assert PrintItems(items) + "]" == "]";
    } else {
      FirstCharacter(items[0]);
      ItemsTextSplit(items, s);
      HeadOf(Stringify(items[0]), AfterItem(items, s));
    }
  }

  lemma HeadOf(x: string, y: string)
    requires x != ""
    ensures x + y != "" && (x + y)[0] == x[0]
  {}

  lemma {:induction false} ItemsCancel(a: seq<Json>, s: string, b: seq<Json>, t: string)
    requires ItemsText(a, s) == ItemsText(b, t)
    ensures a == b && s == t
    decreases a
  {
    ItemsTextHead(a, s);
    ItemsTextHead(b, t);
    if a == [] {
      SplitAt("]", s, "]", t);
    } else {
      var c, d := AfterItem(a, s), AfterItem(b, t);
      StringifyCancels(a[0], c, b[0], d);
      assert c[0] == if |a| == 1 then ']' else ',';
      assert d[0] == if |b| == 1 then ']' else ',';
      if |a| == 1 {
        SplitAt("]", s, "]", t);
      } else {
        SplitAt(",", ItemsText(a[1..], s), ",", ItemsText(b[1..], t));
        ItemsCancel(a[1..], s, b[1..], t);
      }
      assert a == [a[0]] + a[1..] && b == [b[0]] + b[1..];
    }
  }

  /** The members, the closing brace, and what follows the object. */
  function MembersText(members: seq<Member>, s: string): string {
    PrintMembers(members) + "}" + s
  }

  function AfterMember(members: seq<Member>, s: string): string
    requires members != []
  {
    if |members| == 1 then "}" + s else "," + MembersText(members[1..], s)
  }

  lemma MembersTextHead(members: seq<Member>, s: string)
    ensures members == [] ==> MembersText(members, s) == "}" + s
    ensures members != [] ==>
              MembersText(members, s)
              == Quote(members[0].key) + (":" + (Stringify(members[0].value) + AfterMember(members, s)))
    ensures MembersText(members, s) != "" && (members == [] <==> MembersText(members, s)[0] == '}')
  {
    if members != [] {
      var m := members[0];
      MemberText(m, AfterMember(members, s));
      if |members| == 1 {
        Assoc(PrintMember(m), "}", s);
      } else {
        MemberCommaText(PrintMember(m), PrintMembers(members[1..]), s);
      }
    }
  }

  lemma MemberCommaText(m: string, rest: string, s: string)
    ensures m + "," + rest + "}" + s == m + ("," + (rest + "}" + s))
  {}

  lemma MemberText(m: Member, s: string)
    ensures PrintMember(m) + s == Quote(m.key) + (":" + (Stringify(m.value) + s))
    ensures (PrintMember(m) + s)[0] == '\"'
  {
    var q, v := Quote(m.key), Stringify(m.value);
    assert q + ":" + v + s == q + (":" + (v + s));
    assert q[0] == '\"';
  }

  lemma {:induction false} MembersCancel(a: seq<Member>, s: string, b: seq<Member>, t: string)
    requires MembersText(a, s) == MembersText(b, t)
    ensures a == b && s == t
    decreases a
  {
    MembersTextHead(a, s);
    MembersTextHead(b, t);
    if a == [] {
      SplitAt("}", s, "}", t);
    } else {
      var c, d := AfterMember(a, s), AfterMember(b, t);
      var e, f := Stringify(a[0].value) + c, Stringify(b[0].value) + d;
      QuoteCancels(a[0].key, ":" + e, b[0].key, ":" + f);
      SplitAt(":", e, ":", f);
      StringifyCancels(a[0].value, c, b[0].value, d);
      assert c[0] == if |a| == 1 then '}' else ',';
      assert d[0] == if |b| == 1 then '}' else ',';
      if |a| == 1 {
        SplitAt("}", s, "}", t);
      } else {
        SplitAt(",", MembersText(a[1..], s), ",", MembersText(b[1..], t));
        MembersCancel(a[1..], s, b[1..], t);
      }
      assert a[0] == b[0];
      assert a == [a[0]] + a[1..] && b == [b[0]] + b[1..];
    }
  }

  /** The printer is unambiguous: equal texts come from equal values. */
  lemma StringifyInjective(x: Json, y: Json)
    ensures Stringify(x) == Stringify(y) <==> x == y
  {
    if Stringify(x) == Stringify(y) {
      assert Stringify(x) + "" == Stringify(y) + "";
      StringifyCancels(x, "", y, "");
    }
  }

  // ---- the planner's printer ----

  /** Rebuild every object by assigning its members in ascending key order; the assignment to
      PROTO adds no member. */
  function Canonicalize(j: Json): Json {
    match j
    case JArray(items) =>
      JArray(seq(|items|, i requires 0 <= i < |items| => Canonicalize(items[i])))
    case JObject(members) =>
      var keys := Sorted(Keys(members) - {PROTO});
      SortedMembers(Keys(members) - {PROTO});
      JObject(seq(|keys|, i requires 0 <= i < |keys| =>
        assert keys[i] in keys;
        Member(keys[i], Canonicalize(members[Find(members, keys[i])].value))))
    case _ => j
  }

  function StableJson(j: Json): string {
    Stringify(Canonicalize(j))
  }

  lemma {:induction false} CanonicalizeMeaning(j: Json)
    ensures Canonicalize(j) == FromTree(Strip(Meaning(j)))
  {
    match j
    case JArray(items) =>
      forall i | 0 <= i < |items|
        ensures Canonicalize(items[i]) == FromTree(Strip(Meaning(items[i])))
      {
        CanonicalizeMeaning(items[i]);
      }
      assert Canonicalize(j).items == FromTree(Strip(Meaning(j))).items;
    case JObject(members) =>
      forall key | key in Keys(members)
        ensures Canonicalize(members[Find(members, key)].value)
             == FromTree(Strip(Meaning(members[Find(members, key)].value)))
      {
        CanonicalizeMeaning(members[Find(members, key)].value);
      }
      CanonicalizeMembers(members);
    case _ =>
  }

  lemma CanonicalizeMembers(members: seq<Member>)
    requires forall key | key in Keys(members) ::
               Canonicalize(members[Find(members, key)].value)
               == FromTree(Strip(Meaning(members[Find(members, key)].value)))
    ensures Canonicalize(JObject(members)) == FromTree(Strip(Meaning(JObject(members))))
  {
    var stripped := Strip(Meaning(JObject(members))).fields;
    assert stripped.Keys == Keys(members) - {PROTO};
    var keys := Sorted(stripped.Keys);
    SortedMembers(stripped.Keys);
    var a, b := Canonicalize(JObject(members)).members, FromTree(Object(stripped)).members;
    assert |a| == |keys| == |b|;
    forall i | 0 <= i < |keys| ensures a[i] == b[i] {
      assert keys[i] in keys;
    }
    assert a == b;
  }

  /** The planner's equality test, for all values: equal texts are equal trees once every member
      named PROTO is left out. */
  lemma StableJsonDecides(x: Json, y: Json)
    ensures StableJson(x) == StableJson(y) <==> Strip(Meaning(x)) == Strip(Meaning(y))
  {
    CanonicalizeMeaning(x);
    CanonicalizeMeaning(y);
    StringifyInjective(Canonicalize(x), Canonicalize(y));
    FromTreeMeaning(Strip(Meaning(x)));
    FromTreeMeaning(Strip(Meaning(y)));
  }

  /** No member of the tree, however deep, is named PROTO. */
  ghost predicate NoProto(t: Tree) {
    match t
    case Array(items) => forall i | 0 <= i < |items| :: NoProto(items[i])
    case Object(fields) => PROTO !in fields && forall key | key in fields :: NoProto(fields[key])
    case _ => true
  }

  lemma {:induction false} StripKeeps(t: Tree)
    ensures Strip(t) == t <==> NoProto(t)
  {
    match t
    case Array(items) =>
      forall i | 0 <= i < |items| ensures Strip(items[i]) == items[i] <==> NoProto(items[i]) {
        StripKeeps(items[i]);
      }
      assert Strip(t) == t ==> forall i | 0 <= i < |items| :: Strip(t).items[i] == Strip(items[i]) == items[i];
      if NoProto(t) { assert Strip(t).items == items; }
    case Object(fields) =>
      forall key | key in fields ensures Strip(fields[key]) == fields[key] <==> NoProto(fields[key]) {
        StripKeeps(fields[key]);
      }
      if Strip(t) == t {
        assert Strip(t).fields == fields;
        assert PROTO !in Strip(t).fields;
        assert forall key | key in fields :: Strip(t).fields[key] == Strip(fields[key]);
      }
      if NoProto(t) { assert Strip(t).fields == fields; }
    case _ =>
  }

  /** On values without such a member the planner's printer decides equality up to member order. */
  lemma StableJsonDecidesMeaning(x: Json, y: Json)
    requires NoProto(Meaning(x)) && NoProto(Meaning(y))
    ensures StableJson(x) == StableJson(y) <==> Meaning(x) == Meaning(y)
  {
    StableJsonDecides(x, y);
    StripKeeps(Meaning(x));
    StripKeeps(Meaning(y));
  }

  /** With one it does not: these two values differ and print the same. */
  lemma StableJsonMissesProto()
    ensures var x, y := JObject([Member(PROTO, JNumber(1))]), JObject([]);
      StableJson(x) == StableJson(y) && Meaning(x) != Meaning(y)
  {
    var x, y := JObject([Member(PROTO, JNumber(1))]), JObject([]);
    assert x.members[0].key == PROTO;
    assert PROTO in Meaning(x).fields;
    assert Strip(Meaning(x)).fields == map[] == Strip(Meaning(y)).fields;
    StableJsonDecides(x, y);
  }

  // ---- the agent's printer ----

  /** Prints the members of every object in ascending key order without rebuilding it. */
  function CanonicalJson(j: Json): string
    decreases j, 1
  {
    match j
    case JArray(items) => "[" + CanonicalItems(j, 0) + "]"
    case JObject(members) => "{" + CanonicalMembers(j, Sorted(Keys(members))) + "}"
    case _ => Stringify(j)
  }

  function CanonicalItems(j: Json, from: nat): string
    requires j.JArray? && from <= |j.items|
    decreases j, 0, |j.items| - from
  {
    if from == |j.items| then ""
    else
      CanonicalJson(j.items[from])
      + (if from + 1 == |j.items| then "" else "," + CanonicalItems(j, from + 1))
  }

  function CanonicalMembers(j: Json, keys: seq<string>): string
    requires j.JObject? && Elements(keys) <= Keys(j.members)
    decreases j, 0, |keys|
  {
    if keys == [] then ""
    else
      assert keys[0] in Elements(keys);
      assert forall x | x in Elements(keys[1..]) :: x in keys && x in Elements(keys);
      Quote(keys[0]) + ":" + CanonicalJson(j.members[Find(j.members, keys[0])].value)
      + (if |keys| == 1 then "" else "," + CanonicalMembers(j, keys[1..]))
  }

  lemma {:induction false} CanonicalJsonText(j: Json)
    ensures CanonicalJson(j) == Stringify(FromTree(Meaning(j)))
    decreases j, 1
  {
    match j
    case JArray(items) => CanonicalItemsText(j, 0);
      assert FromTree(Meaning(j)).items[0..] == FromTree(Meaning(j)).items;
    case JObject(members) =>
      var keys := Sorted(Keys(members));
      SortedMembers(Keys(members));
      var fields := Meaning(j).fields;
      assert fields.Keys == Keys(members);
      CanonicalMembersText(j, keys);
      assert FromTree(Meaning(j)).members == Listing(fields, keys);
    case _ =>
  }

  lemma {:induction false} CanonicalItemsText(j: Json, from: nat)
    requires j.JArray? && from <= |j.items|
    ensures CanonicalItems(j, from) == PrintItems(FromTree(Meaning(j)).items[from..])
    decreases j, 0, |j.items| - from
  {
    var out := FromTree(Meaning(j)).items;
    if from < |j.items| {
      CanonicalJsonText(j.items[from]);
      CanonicalItemsText(j, from + 1);
      assert out[from..][0] == FromTree(Meaning(j.items[from]));
      assert out[from..][1..] == out[from + 1..];
    }
  }

  /** The members of an object for the given keys. */
  ghost function Listing(fields: map<string, Tree>, keys: seq<string>): seq<Member>
    requires Elements(keys) <= fields.Keys
  {
    seq(|keys|, i requires 0 <= i < |keys| =>
      assert keys[i] in Elements(keys); Member(keys[i], FromTree(fields[keys[i]])))
  }

  lemma ListingParts(fields: map<string, Tree>, keys: seq<string>)
    requires Elements(keys) <= fields.Keys && keys != []
    ensures keys[0] in fields && Elements(keys[1..]) <= fields.Keys
    ensures Listing(fields, keys) == [Member(keys[0], FromTree(fields[keys[0]]))] + Listing(fields, keys[1..])
  {
    assert keys[0] in Elements(keys);
    assert forall x | x in Elements(keys[1..]) :: x in keys && x in Elements(keys);
  }

  lemma {:induction false} CanonicalMembersText(j: Json, keys: seq<string>)
    requires j.JObject? && Elements(keys) <= Keys(j.members)
    requires Meaning(j).fields.Keys == Keys(j.members)
    ensures CanonicalMembers(j, keys) == PrintMembers(Listing(Meaning(j).fields, keys))
    decreases j, 0, |keys|
  {
    var fields := Meaning(j).fields;
    if keys != [] {
      assert keys[0] in Elements(keys);
      assert forall x | x in Elements(keys[1..]) :: x in keys && x in Elements(keys);
      var v := j.members[Find(j.members, keys[0])].value;
      CanonicalJsonText(v);
      CanonicalMembersText(j, keys[1..]);
      ListingParts(fields, keys);
      assert fields[keys[0]] == Meaning(v);
    }
  }

  /** The agent's printer decides equality up to member order, for all values. */
  lemma CanonicalJsonDecides(x: Json, y: Json)
    ensures CanonicalJson(x) == CanonicalJson(y) <==> Meaning(x) == Meaning(y)
  {
    CanonicalJsonText(x);
    CanonicalJsonText(y);
    StringifyInjective(FromTree(Meaning(x)), FromTree(Meaning(y)));
    FromTreeMeaning(Meaning(x));
    FromTreeMeaning(Meaning(y));
  }
}
