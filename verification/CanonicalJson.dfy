/**
  The canonical printer of JSON values: sorted keys, escaped strings, canonical numbers. Its output
  is hashed for idempotency, so what matters is that it has exactly one reading.
*/
module CanonicalJson {
  import opened Prelude
  import opened Text
  import opened Decimal
  import opened CanonicalNumber

  /** What the decoder gives for a JSON text when it keeps numbers as they are written. */
  datatype Json =
    | Null
    | Bool(b: bool)
    | Num(text: string)
    | Str(s: string)
    | Arr(items: seq<Json>)
    | Obj(members: map<string, Json>)

  // ---- strings

  function HexDigit(n: nat): char
    requires n < 16
  {
    if n < 10 then ('0' as int + n) as char else ('a' as int + n - 10) as char
  }

  function Hex4(n: nat): (s: string)
    requires n < 0x10000
    ensures |s| == 4
  {
    [HexDigit(n / 0x1000), HexDigit(n / 0x100 % 0x10), HexDigit(n / 0x10 % 0x10), HexDigit(n % 0x10)]
  }

  /** The letter of a two-character escape. */
  function ShortEscape(c: char): Option<char> {
    if c == '"' || c == '\\' then Some(c)
    else if c as int == 8 then Some('b')
    else if c as int == 9 then Some('t')
    else if c as int == 10 then Some('n')
    else if c as int == 12 then Some('f')
    else if c as int == 13 then Some('r')
    else None
  }

  /** The other characters that json.Marshal never writes as they are. */
  predicate HexEscaped(c: char) {
    (c as int) < 32 || c == '<' || c == '>' || c == '&' || c as int == 0x2028 || c as int == 0x2029
  }

  function EscapeChar(c: char): (s: string)
    ensures s != "" && s[0] != '"'
  {
    if ShortEscape(c).Some? then ['\\', ShortEscape(c).value]
    else if HexEscaped(c) then ['\\', 'u'] + Hex4(c as int)
    else [c]
  }

  function Escape(s: string): string { if s == "" then "" else EscapeChar(s[0]) + Escape(s[1..]) }

  /** writeQuoted. */
  function Quote(s: string): string { "\"" + Escape(s) + "\"" }

  // ---- values

  /** The bytes that a value prints as, when it prints. */
  ghost function Print(v: Json): string
    decreases v
  {
    match v
    case Null => "null"
    case Bool(b) => if b then "true" else "false"
    case Num(text) => if Canonical(text).Some? then Canonical(text).value else ""
    case Str(s) => Quote(s)
    case Arr(items) => "[" + PrintItems(v, 0)
    case Obj(members) => "{" + PrintMembers(v, SortedKeys(members.Keys), 0)
  }

  /** The items from the i-th on, each but the first after a comma, and the closing bracket. */
  ghost function PrintItems(v: Json, i: nat): string
    requires v.Arr? && i <= |v.items|
    decreases v, |v.items| - i + 1
  {
    if i == |v.items| then "]"
    else (if i > 0 then "," else "") + Print(v.items[i]) + PrintItems(v, i + 1)
  }

  ghost function PrintMembers(v: Json, keys: seq<string>, i: nat): string
    requires v.Obj? && i <= |keys| && forall k :: k in keys ==> k in v.members
    decreases v, |keys| - i + 1
  {
    if i == |keys| then "}"
    else (if i > 0 then "," else "") + Quote(keys[i]) + ":" + Print(v.members[keys[i]]) + PrintMembers(v, keys, i + 1)
  }

  /** Which values print: nested no deeper than the limit, with every number's exponent in range. */
  ghost predicate Printable(v: Json, depth: nat, maxDepth: nat)
    decreases v
  {
    && depth <= maxDepth
    && match v
       case Num(text) => Canonical(text).Some?
       case Arr(items) => forall i :: 0 <= i < |items| ==> Printable(items[i], depth + 1, maxDepth)
       case Obj(members) => forall k :: k in members ==> Printable(members[k], depth + 1, maxDepth)
       case _ => true
  }

  /** Equal up to the order of keys, which a map does not have, and the spelling of numbers. */
  ghost predicate Same(a: Json, b: Json)
    decreases a
  {
    match a
    case Null => b.Null?
    case Bool(x) => b == Bool(x)
    case Num(text) => b.Num? && TextValue(text) == TextValue(b.text)
    case Str(s) => b == Str(s)
    case Arr(items) => b.Arr? && |items| == |b.items| && forall i :: 0 <= i < |items| ==> Same(items[i], b.items[i])
    case Obj(members) =>
      b.Obj? && members.Keys == b.members.Keys && forall k :: k in members ==> Same(members[k], b.members[k])
  }

  function Nested(n: nat): Json { if n == 0 then Null else Arr([Nested(n - 1)]) }

  /** A value may be nested as deep as the limit, and no deeper. */
  lemma {:induction false} DepthExact(n: nat, depth: nat, maxDepth: nat)
    ensures Printable(Nested(n), depth, maxDepth) <==> depth + n <= maxDepth
  {
    if n > 0 {
      DepthExact(n - 1, depth + 1, maxDepth);
      assert Nested(n).items[0] == Nested(n - 1);
    }
  }

  // ---- the printer as written

  class Buffer {
    var text: string

    constructor ()
      ensures text == ""
    {
      text := "";
    }

    method Write(s: string)
      modifies this
      ensures text == old(text) + s
    {
      text := text + s;
    }
  }

  lemma FirstItem(v: Json)
    requires v.Arr?
    ensures Print(v) == "[" + PrintItems(v, 0)
  {}

  lemma NextItem(v: Json, i: nat)
    requires v.Arr? && i < |v.items|
    ensures PrintItems(v, i) == (if i > 0 then "," else "") + Print(v.items[i]) + PrintItems(v, i + 1)
  {}

  lemma LastItem(v: Json)
    requires v.Arr?
    ensures PrintItems(v, |v.items|) == "]"
  {}

  lemma FirstMember(v: Json)
    requires v.Obj?
    ensures Print(v) == "{" + PrintMembers(v, SortedKeys(v.members.Keys), 0)
  {}

  lemma NextMember(v: Json, keys: seq<string>, i: nat)
    requires v.Obj? && i < |keys| && forall k :: k in keys ==> k in v.members
    ensures PrintMembers(v, keys, i)
         == (if i > 0 then "," else "") + Quote(keys[i]) + ":" + Print(v.members[keys[i]]) + PrintMembers(v, keys, i + 1)
  {}

  lemma LastMember(v: Json, keys: seq<string>)
    requires v.Obj? && forall k :: k in keys ==> k in v.members
    ensures PrintMembers(v, keys, |keys|) == "}"
  {}

  lemma FourMore(base: string, a: string, b: string, c: string, d: string, rest: string)
    ensures base + (a + b + c + d + rest) == base + a + b + c + d + rest
  {}

  /** appendCanonical: true and the value's text appended, or false for an error. */
  method AppendCanonical(out: Buffer, v: Json, depth: nat, maxDepth: nat) returns (ok: bool)
    modifies out
    ensures ok <==> Printable(v, depth, maxDepth)
    ensures ok ==> out.text == old(out.text) + Print(v)
    decreases v
  {
    hide Quote, PrintItems, PrintMembers, SortedKeys, Canonical;
    if depth > maxDepth { return false; }
    ok := true;
    match v
    case Null => out.Write("null");
    case Bool(b) => out.Write(if b then "true" else "false");
    case Str(s) => out.Write(Quote(s));
    case Num(text) =>
      var number := Canonicalize(text);
      if number.None? { return false; }
      out.Write(number.value);
    case Arr(items) =>
      ok := AppendItems(out, v, depth, maxDepth);
    case Obj(members) =>
      ok := AppendMembers(out, v, depth, maxDepth);
  }

  method AppendItems(out: Buffer, v: Json, depth: nat, maxDepth: nat) returns (ok: bool)
    requires v.Arr? && depth <= maxDepth
    modifies out
    ensures ok <==> Printable(v, depth, maxDepth)
    ensures ok ==> out.text == old(out.text) + Print(v)
    decreases v, 0
  {
    hide Print, PrintItems;
    ghost var whole := out.text + Print(v);
    FirstItem(v);
    out.Write("[");
    for i := 0 to |v.items|
      invariant forall j :: 0 <= j < i ==> Printable(v.items[j], depth + 1, maxDepth)
      invariant out.text + PrintItems(v, i) == whole
    {
      NextItem(v, i);
      if i > 0 { out.Write(","); }
      var printed := AppendCanonical(out, v.items[i], depth + 1, maxDepth);
      if !printed { return false; }
    }
    LastItem(v);
    out.Write("]");
    return true;
  }

  method AppendMembers(out: Buffer, v: Json, depth: nat, maxDepth: nat) returns (ok: bool)
    requires v.Obj? && depth <= maxDepth
    modifies out
    ensures ok <==> Printable(v, depth, maxDepth)
    ensures ok ==> out.text == old(out.text) + Print(v)
    decreases v, 0
  {
    hide Print, PrintMembers, Quote, SortedKeys;
    ghost var whole := out.text + Print(v);
    var keys := SortedKeys(v.members.Keys);
    FirstMember(v);
    out.Write("{");
    for i := 0 to |keys|
      invariant forall j :: 0 <= j < i ==> Printable(v.members[keys[j]], depth + 1, maxDepth)
      invariant out.text + PrintMembers(v, keys, i) == whole
    {
      NextMember(v, keys, i);
      ghost var comma := if i > 0 then "," else "";
      FourMore(out.text, comma, Quote(keys[i]), ":", Print(v.members[keys[i]]), PrintMembers(v, keys, i + 1));
      if i > 0 { out.Write(","); }
      out.Write(Quote(keys[i]));
      out.Write(":");
      var printed := AppendCanonical(out, v.members[keys[i]], depth + 1, maxDepth);
      if !printed { return false; }
    }
    LastMember(v, keys);
    out.Write("}");
    return true;
  }

  // ---- strings have one reading

  lemma HexDigitUnique(m: nat, n: nat)
    requires m < 16 && n < 16 && HexDigit(m) == HexDigit(n)
    ensures m == n
  {}

  lemma Nibbles(n: nat)
    requires n < 0x10000
    ensures n == ((n / 0x1000 * 16 + n / 0x100 % 0x10) * 16 + n / 0x10 % 0x10) * 16 + n % 0x10
  {}

  lemma Hex4Unique(m: nat, n: nat)
    requires m < 0x10000 && n < 0x10000 && Hex4(m) == Hex4(n)
    ensures m == n
  {
    hide HexDigit;
    var s, t := Hex4(m), Hex4(n);
    assert s[0] == t[0] && s[1] == t[1] && s[2] == t[2] && s[3] == t[3];
    HexDigitUnique(m / 0x1000, n / 0x1000);
    HexDigitUnique(m / 0x100 % 0x10, n / 0x100 % 0x10);
    HexDigitUnique(m / 0x10 % 0x10, n / 0x10 % 0x10);
    HexDigitUnique(m % 0x10, n % 0x10);
    Nibbles(m);
    Nibbles(n);
  }

  /** No escaped character is the beginning of another. */
  lemma EscapeCharUnique(c: char, d: char, x: string, y: string)
    requires EscapeChar(c) + x == EscapeChar(d) + y
    ensures c == d && x == y
  {
    hide Hex4;
    var s := EscapeChar(c) + x;
    assert s[0] == EscapeChar(c)[0] == EscapeChar(d)[0];
    if s[0] == '\\' {
      assert s[1] == EscapeChar(c)[1] == EscapeChar(d)[1];
      if s[1] == 'u' {
        assert s[2..6] == Hex4(c as int) && s[2..6] == Hex4(d as int);
        Hex4Unique(c as int, d as int);
      }
    }
    SamePrefix(EscapeChar(c), x, y);
  }

  lemma SamePrefix(p: string, x: string, y: string)
    ensures p + x == p + y ==> x == y
  {
    assert (p + x)[|p|..] == x && (p + y)[|p|..] == y;
  }

  lemma {:induction false} EscapeUnique(s: string, t: string, x: string, y: string)
    requires Escape(s) + "\"" + x == Escape(t) + "\"" + y
    ensures s == t && x == y
    decreases |s| + |t|
  {
    hide EscapeChar;
    assert s != "" ==> (Escape(s) + "\"" + x)[0] == EscapeChar(s[0])[0];
    assert t != "" ==> (Escape(t) + "\"" + y)[0] == EscapeChar(t[0])[0];
    if s == "" && t == "" {
      assert Escape(s) + "\"" == "\"" == Escape(t) + "\"";
      SamePrefix("\"", x, y);
    } else if s != "" && t != "" {
      var u, v := Escape(s[1..]) + "\"" + x, Escape(t[1..]) + "\"" + y;
      assert Escape(s) + "\"" + x == EscapeChar(s[0]) + u && Escape(t) + "\"" + y == EscapeChar(t[0]) + v;
      EscapeCharUnique(s[0], t[0], u, v);
      EscapeUnique(s[1..], t[1..], x, y);
      assert s == [s[0]] + s[1..] && t == [t[0]] + t[1..];
    }
  }

  lemma QuoteUnique(s: string, t: string, x: string, y: string)
    requires Quote(s) + x == Quote(t) + y
    ensures s == t && x == y
  {
    hide Escape;
    assert Quote(s) + x == "\"" + (Escape(s) + "\"" + x) && Quote(t) + y == "\"" + (Escape(t) + "\"" + y);
    SamePrefix("\"", Escape(s) + "\"" + x, Escape(t) + "\"" + y);
    EscapeUnique(s, t, x, y);
  }

  // ---- values have one reading

  /** What may follow a value: nothing, a comma, or a closing bracket. */
  predicate Delimited(x: string) { x == "" || x[0] in [',', ']', '}'] }

  lemma NumberEnds(m: string, n: string, x: string, y: string)
    requires (forall i :: 0 <= i < |m| ==> NumberChar(m[i])) && (forall i :: 0 <= i < |n| ==> NumberChar(n[i]))
    requires Delimited(x) && Delimited(y) && m + x == n + y
    ensures m == n && x == y
  {
    var s := m + x;
    assert forall i :: 0 <= i < |m| ==> NumberChar(s[i]);
    assert |m| < |s| ==> !NumberChar(s[|m|]);
    assert s == n + y;
    assert forall i :: 0 <= i < |n| ==> NumberChar(s[i]);
    assert |n| < |s| ==> !NumberChar(s[|n|]);
    assert (m + x)[..|m|] == m && (n + y)[..|n|] == n;
    SamePrefix(m, x, y);
  }

  /** The first byte tells which kind of value follows. */
  predicate Begins(v: Json, c: char) {
    match v
    case Null => c == 'n'
    case Bool(b) => c == if b then 't' else 'f'
    case Num(_) => IsDigit(c) || c == '-'
    case Str(_) => c == '"'
    case Arr(_) => c == '['
    case Obj(_) => c == '{'
  }

  lemma FirstChar(v: Json, depth: nat, maxDepth: nat)
    requires Printable(v, depth, maxDepth)
    ensures Print(v) != "" && Begins(v, Print(v)[0])
  {
    hide Canonical, SortedKeys;
    if v.Num? { CanonicalChars(v.text); }
  }

  lemma {:induction false} PrintUnique(a: Json, b: Json, depth: nat, maxDepth: nat, x: string, y: string)
    requires Printable(a, depth, maxDepth) && Printable(b, depth, maxDepth)
    requires Delimited(x) && Delimited(y) && Print(a) + x == Print(b) + y
    ensures Same(a, b) && x == y
    decreases a
  {
    hide Quote, Canonical, TextValue, PrintItems, PrintMembers, SortedKeys;
    FirstChar(a, depth, maxDepth);
    FirstChar(b, depth, maxDepth);
    assert Print(a)[0] == (Print(a) + x)[0] == (Print(b) + y)[0] == Print(b)[0];
    match a
    case Null => SamePrefix("null", x, y);
    case Bool(_) => SamePrefix(Print(a), x, y);
    case Str(s) => QuoteUnique(s, b.s, x, y);
    case Num(text) =>
      CanonicalChars(text);
      CanonicalChars(b.text);
      NumberEnds(Print(a), Print(b), x, y);
      SameTextIffSameValue(text, b.text);
    case Arr(items) =>
      assert Print(a) + x == "[" + (PrintItems(a, 0) + x) && Print(b) + y == "[" + (PrintItems(b, 0) + y);
      SamePrefix("[", PrintItems(a, 0) + x, PrintItems(b, 0) + y);
      ItemsUnique(a, b, 0, depth, maxDepth, x, y);
    case Obj(members) =>
      var ks, ls := SortedKeys(a.members.Keys), SortedKeys(b.members.Keys);
      assert Print(a) + x == "{" + (PrintMembers(a, ks, 0) + x) && Print(b) + y == "{" + (PrintMembers(b, ls, 0) + y);
      SamePrefix("{", PrintMembers(a, ks, 0) + x, PrintMembers(b, ls, 0) + y);
      MembersUnique(a, b, ks, ls, 0, depth, maxDepth, x, y);
      assert a.members.Keys == b.members.Keys;
  }

  lemma ItemsStart(v: Json, i: nat, depth: nat, maxDepth: nat)
    requires v.Arr? && i <= |v.items| && Printable(v, depth, maxDepth)
    ensures PrintItems(v, i) != "" && (PrintItems(v, i)[0] == ']' <==> i == |v.items|)
    ensures i > 0 ==> Delimited(PrintItems(v, i))
  {
    hide Print, Canonical;
    if i < |v.items| { FirstChar(v.items[i], depth + 1, maxDepth); }
  }

  lemma DelimitedConcat(s: string, x: string)
    requires s != "" && Delimited(s)
    ensures Delimited(s + x)
  {}

  lemma {:induction false} ItemsUnique(
      a: Json, b: Json, i: nat, depth: nat, maxDepth: nat, x: string, y: string)
    requires a.Arr? && b.Arr? && Printable(a, depth, maxDepth) && Printable(b, depth, maxDepth)
    requires i <= |a.items| && i <= |b.items|
    requires PrintItems(a, i) + x == PrintItems(b, i) + y
    ensures |a.items| == |b.items| && (forall j :: i <= j < |a.items| ==> Same(a.items[j], b.items[j])) && x == y
    decreases a, |a.items| - i
  {
    hide Print, PrintItems, Canonical, Delimited;
    ItemsStart(a, i, depth, maxDepth);
    ItemsStart(b, i, depth, maxDepth);
    assert PrintItems(a, i)[0] == (PrintItems(a, i) + x)[0] == (PrintItems(b, i) + y)[0] == PrintItems(b, i)[0];
    if i == |a.items| {
      LastItem(a);
      LastItem(b);
      SamePrefix("]", x, y);
    } else {
      var s, t := PrintItems(a, i + 1) + x, PrintItems(b, i + 1) + y;
      ItemsSplit(a, b, i, x, y);
      ItemsStart(a, i + 1, depth, maxDepth);
      ItemsStart(b, i + 1, depth, maxDepth);
      DelimitedConcat(PrintItems(a, i + 1), x);
      DelimitedConcat(PrintItems(b, i + 1), y);
      PrintUnique(a.items[i], b.items[i], depth + 1, maxDepth, s, t);
      ItemsUnique(a, b, i + 1, depth, maxDepth, x, y);
    }
  }

  lemma ItemsSplit(a: Json, b: Json, i: nat, x: string, y: string)
    requires a.Arr? && b.Arr? && i < |a.items| && i < |b.items|
    requires PrintItems(a, i) + x == PrintItems(b, i) + y
    ensures Print(a.items[i]) + (PrintItems(a, i + 1) + x) == Print(b.items[i]) + (PrintItems(b, i + 1) + y)
  {
    hide Print, PrintItems;
    var comma := if i > 0 then "," else "";
    NextItem(a, i);
    NextItem(b, i);
    var s, t := Print(a.items[i]) + (PrintItems(a, i + 1) + x), Print(b.items[i]) + (PrintItems(b, i + 1) + y);
    assert PrintItems(a, i) + x == comma + s && PrintItems(b, i) + y == comma + t;
    SamePrefix(comma, s, t);
  }

  lemma MembersStart(v: Json, keys: seq<string>, i: nat)
    requires v.Obj? && i <= |keys| && forall k :: k in keys ==> k in v.members
    ensures PrintMembers(v, keys, i) != "" && (PrintMembers(v, keys, i)[0] == '}' <==> i == |keys|)
    ensures i > 0 ==> Delimited(PrintMembers(v, keys, i))
  {
    hide Print, Escape;
    if i < |keys| { assert Quote(keys[i])[0] == '"'; }
  }

  lemma {:induction false} MembersUnique(
      a: Json, b: Json, ks: seq<string>, ls: seq<string>, i: nat, depth: nat, maxDepth: nat, x: string, y: string)
    requires a.Obj? && b.Obj? && Printable(a, depth, maxDepth) && Printable(b, depth, maxDepth)
    requires i <= |ks| && i <= |ls| && (forall k :: k in ks ==> k in a.members) && (forall k :: k in ls ==> k in b.members)
    requires ks[..i] == ls[..i] && PrintMembers(a, ks, i) + x == PrintMembers(b, ls, i) + y
    ensures ks == ls && (forall j :: i <= j < |ks| ==> Same(a.members[ks[j]], b.members[ks[j]])) && x == y
    decreases a, |ks| - i
  {
    hide Print, PrintMembers, Quote, Canonical, Delimited;
    MembersStart(a, ks, i);
    MembersStart(b, ls, i);
    assert PrintMembers(a, ks, i)[0] == (PrintMembers(a, ks, i) + x)[0] == (PrintMembers(b, ls, i) + y)[0]
        == PrintMembers(b, ls, i)[0];
    if i == |ks| {
      assert ks == ks[..i] && ls == ls[..i];
      LastMember(a, ks);
      LastMember(b, ls);
      SamePrefix("}", x, y);
    } else {
      MembersSplit(a, b, ks, ls, i, x, y);
      MembersStart(a, ks, i + 1);
      MembersStart(b, ls, i + 1);
      DelimitedConcat(PrintMembers(a, ks, i + 1), x);
      DelimitedConcat(PrintMembers(b, ls, i + 1), y);
      PrintUnique(a.members[ks[i]], b.members[ls[i]], depth + 1, maxDepth,
                  PrintMembers(a, ks, i + 1) + x, PrintMembers(b, ls, i + 1) + y);
      assert ks[..i + 1] == ks[..i] + [ks[i]] && ls[..i + 1] == ls[..i] + [ls[i]];
      MembersUnique(a, b, ks, ls, i + 1, depth, maxDepth, x, y);
    }
  }

  lemma MembersSplit(a: Json, b: Json, ks: seq<string>, ls: seq<string>, i: nat, x: string, y: string)
    requires a.Obj? && b.Obj? && i < |ks| && i < |ls|
    requires (forall k :: k in ks ==> k in a.members) && (forall k :: k in ls ==> k in b.members)
    requires PrintMembers(a, ks, i) + x == PrintMembers(b, ls, i) + y
    ensures ks[i] == ls[i]
    ensures Print(a.members[ks[i]]) + (PrintMembers(a, ks, i + 1) + x)
         == Print(b.members[ls[i]]) + (PrintMembers(b, ls, i + 1) + y)
  {
    hide Print, PrintMembers, Quote;
    var comma := if i > 0 then "," else "";
    NextMember(a, ks, i);
    NextMember(b, ls, i);
    var s := Print(a.members[ks[i]]) + (PrintMembers(a, ks, i + 1) + x);
    var t := Print(b.members[ls[i]]) + (PrintMembers(b, ls, i + 1) + y);
    MemberParts(comma, Quote(ks[i]), Print(a.members[ks[i]]), PrintMembers(a, ks, i + 1), x);
    MemberParts(comma, Quote(ls[i]), Print(b.members[ls[i]]), PrintMembers(b, ls, i + 1), y);
    SamePrefix(comma, Quote(ks[i]) + (":" + s), Quote(ls[i]) + (":" + t));
    QuoteUnique(ks[i], ls[i], ":" + s, ":" + t);
    SamePrefix(":", s, t);
  }

  lemma MemberParts(comma: string, key: string, value: string, rest: string, x: string)
    ensures comma + key + ":" + value + rest + x == comma + (key + (":" + (value + (rest + x))))
  {}

  // ---- equal values print equally

  lemma {:induction false} SamePrints(a: Json, b: Json, depth: nat, maxDepth: nat)
    requires Printable(a, depth, maxDepth) && Printable(b, depth, maxDepth) && Same(a, b)
    ensures Print(a) == Print(b)
    decreases a
  {
    hide Quote, Canonical, TextValue, SortedKeys;
    match a
    case Num(text) => SameTextIffSameValue(text, b.text);
    case Arr(items) => SameItems(a, b, 0, depth, maxDepth);
    case Obj(members) => SameMembers(a, b, SortedKeys(members.Keys), 0, depth, maxDepth);
    case _ =>
  }

  lemma {:induction false} SameItems(a: Json, b: Json, i: nat, depth: nat, maxDepth: nat)
    requires Printable(a, depth, maxDepth) && Printable(b, depth, maxDepth) && a.Arr? && Same(a, b) && i <= |a.items|
    ensures PrintItems(a, i) == PrintItems(b, i)
    decreases a, |a.items| - i
  {
    hide Print, Canonical;
    if i < |a.items| {
      SamePrints(a.items[i], b.items[i], depth + 1, maxDepth);
      SameItems(a, b, i + 1, depth, maxDepth);
    }
  }

  lemma {:induction false} SameMembers(a: Json, b: Json, keys: seq<string>, i: nat, depth: nat, maxDepth: nat)
    requires Printable(a, depth, maxDepth) && Printable(b, depth, maxDepth) && a.Obj? && Same(a, b) && i <= |keys|
    requires forall k :: k in keys ==> k in a.members
    ensures PrintMembers(a, keys, i) == PrintMembers(b, keys, i)
    decreases a, |keys| - i
  {
    hide Print, Canonical, Quote;
    if i < |keys| {
      SamePrints(a.members[keys[i]], b.members[keys[i]], depth + 1, maxDepth);
      SameMembers(a, b, keys, i + 1, depth, maxDepth);
    }
  }

  /**
    The canonical encoding is exact: two values within the depth limit print the same bytes exactly
    when they are equal up to key order and the spelling of numbers.
  */
  lemma SamePrintIffSame(a: Json, b: Json, maxDepth: nat)
    requires Printable(a, 0, maxDepth) && Printable(b, 0, maxDepth)
    ensures Print(a) == Print(b) <==> Same(a, b)
  {
    hide Print, Printable, Same;
    if Print(a) == Print(b) {
      assert Print(a) + "" == Print(b) + "";
      PrintUnique(a, b, 0, maxDepth, "", "");
    } else if Same(a, b) {
      SamePrints(a, b, 0, maxDepth);
    }
  }
}
