/**
  What a JSON text says, as RFC 8259 defines it, independently of the printer: a relation between values
  and texts without insignificant white space, in which object keys ascend. The printer's text is one of
  those that say what was printed.
*/
module JsonText {
  import opened Prelude
  import opened Text
  import opened Decimal
  import opened CanonicalNumber
  import opened CanonicalJson
  import opened CanonicalPayload

  // ---- strings, section 7 of RFC 8259

  function HexValue(c: char): Option<nat> {
    if '0' <= c <= '9' then Some(c as int - '0' as int)
    else if 'a' <= c <= 'f' then Some(c as int - 'a' as int + 10)
    else if 'A' <= c <= 'F' then Some(c as int - 'A' as int + 10)
    else None
  }

  /** Four hexadecimal digits that stand for n. */
  predicate HexSays(n: nat, s: string) {
    |s| == 4
    && var (a, b, c, d) := (HexValue(s[0]), HexValue(s[1]), HexValue(s[2]), HexValue(s[3]));
       a.Some? && b.Some? && c.Some? && d.Some? && n == ((a.value * 16 + b.value) * 16 + c.value) * 16 + d.value
  }

  /** The letter of a two-character escape, and the character it stands for. */
  predicate EscapeSays(c: char, letter: char) {
    match letter
    case '"' => c == '"'
    case '\\' => c == '\\'
    case '/' => c == '/'
    case 'b' => c as int == 0x08
    case 'f' => c as int == 0x0C
    case 'n' => c as int == 0x0A
    case 'r' => c as int == 0x0D
    case 't' => c as int == 0x09
    case _ => false
  }

  /** One character of a string: as it is, after a backslash, or by its number. */
  predicate CharSays(c: char, s: string) {
    || (s == [c] && c as int >= 0x20 && c != '"' && c != '\\')
    || (|s| == 2 && s[0] == '\\' && EscapeSays(c, s[1]))
    || (|s| == 6 && s[0] == '\\' && s[1] == 'u' && HexSays(c as int, s[2..]))
  }

  ghost predicate CharsSay(t: string, body: string)
    decreases |t|
  {
    if t == "" then body == ""
    else exists n :: 0 < n <= |body| && CharSays(t[0], body[..n]) && CharsSay(t[1..], body[n..])
  }

  ghost predicate StringSays(t: string, s: string) {
    |s| >= 2 && s[0] == '"' && s[|s| - 1] == '"' && CharsSay(t, s[1..|s| - 1])
  }

  // ---- values

  function Join(parts: seq<string>): string {
    if parts == [] then "" else if |parts| == 1 then parts[0] else parts[0] + "," + Join(parts[1..])
  }

  function Pairs(names: seq<string>, values: seq<string>): seq<string>
    requires |names| == |values|
  {
    seq(|names|, i requires 0 <= i < |names| => names[i] + ":" + values[i])
  }

  function ArrayText(parts: seq<string>): string { "[" + Join(parts) + "]" }

  function ObjectText(names: seq<string>, values: seq<string>): string
    requires |names| == |values|
  {
    "{" + Join(Pairs(names, values)) + "}"
  }

  /** A number, section 6 of RFC 8259, with the same value. */
  ghost predicate NumberSays(text: string, s: string) {
    exists l :: JsonNumber(l) && Spell(l) == s && TextValue(s) == TextValue(text)
  }

  ghost predicate NamesSay(keys: seq<string>, names: seq<string>) {
    |names| == |keys| && forall i :: 0 <= i < |keys| ==> StringSays(keys[i], names[i])
  }

  ghost predicate Says(v: Json, s: string)
    decreases v
  {
    match v
    case Null => s == ['n', 'u', 'l', 'l']
    case Bool(b) => s == if b then ['t', 'r', 'u', 'e'] else ['f', 'a', 'l', 's', 'e']
    case Num(text) => NumberSays(text, s)
    case Str(t) => StringSays(t, s)
    case Arr(items) =>
      exists parts: seq<string> ::
        && |parts| == |items| && s == ArrayText(parts)
        && forall i :: 0 <= i < |items| ==> Says(items[i], parts[i])
    case Obj(members) =>
      exists keys: seq<string>, names: seq<string>, values: seq<string> ::
        && Ascending(keys) && NamesSay(keys, names) && |values| == |keys| && s == ObjectText(names, values)
        && (forall k :: k in keys <==> k in members)
        && forall i :: 0 <= i < |keys| ==> Says(members[keys[i]], values[i])
  }

  // ---- the printer's strings

  lemma HexDigitSays(n: nat)
    requires n < 16
    ensures HexValue(HexDigit(n)) == Some(n)
  {}

  lemma Hex4Says(n: nat)
    requires n < 0x10000
    ensures HexSays(n, Hex4(n))
  {
    HexDigitSays(n / 0x1000);
    HexDigitSays(n / 0x100 % 0x10);
    HexDigitSays(n / 0x10 % 0x10);
    HexDigitSays(n % 0x10);
    Nibbles(n);
    hide HexValue, HexDigit;
  }

  lemma EscapeCharSays(c: char)
    ensures CharSays(c, EscapeChar(c))
  {
    hide HexSays, Hex4;
    if ShortEscape(c).None? && HexEscaped(c) {
      Hex4Says(c as int);
      assert EscapeChar(c)[2..] == Hex4(c as int);
    }
  }

  lemma {:induction false} EscapeSaysText(t: string)
    ensures CharsSay(t, Escape(t))
    decreases |t|
  {
    hide CharSays, EscapeChar;
    if t != "" {
      var first, rest := EscapeChar(t[0]), Escape(t[1..]);
      EscapeSaysText(t[1..]);
      EscapeCharSays(t[0]);
      var body := Escape(t);
      assert body == first + rest;
      assert body[..|first|] == first && body[|first|..] == rest;
    }
  }

  lemma QuoteSays(t: string)
    ensures StringSays(t, Quote(t))
  {
    hide CharsSay, Escape;
    EscapeSaysText(t);
    assert Quote(t)[1..|Quote(t)| - 1] == Escape(t);
  }

  // ---- the printer's values

  ghost function ItemTexts(v: Json): seq<string>
    requires v.Arr?
  {
    seq(|v.items|, i requires 0 <= i < |v.items| => Print(v.items[i]))
  }

  lemma {:induction false} ItemsJoined(v: Json, i: nat)
    requires v.Arr? && i <= |v.items|
    ensures PrintItems(v, i) == (if 0 < i < |v.items| then "," else "") + Join(ItemTexts(v)[i..]) + "]"
    decreases |v.items| - i
  {
    hide Print, PrintItems;
    var texts := ItemTexts(v);
    if i == |v.items| {
      LastItem(v);
    } else {
      NextItem(v, i);
      ItemsJoined(v, i + 1);
      assert texts[i..][0] == Print(v.items[i]) && texts[i..][1..] == texts[i + 1..];
    }
  }

  ghost function MemberTexts(v: Json, keys: seq<string>): (texts: (seq<string>, seq<string>))
    requires v.Obj? && forall k :: k in keys ==> k in v.members
    ensures |texts.0| == |texts.1| == |keys|
  {
    (seq(|keys|, i requires 0 <= i < |keys| => Quote(keys[i])),
     seq(|keys|, i requires 0 <= i < |keys| => Print(v.members[keys[i]])))
  }

  lemma {:induction false} MembersJoined(v: Json, keys: seq<string>, i: nat)
    requires v.Obj? && i <= |keys| && forall k :: k in keys ==> k in v.members
    ensures var (names, values) := MemberTexts(v, keys);
            PrintMembers(v, keys, i) == (if 0 < i < |keys| then "," else "") + Join(Pairs(names, values)[i..]) + "}"
    decreases |keys| - i
  {
    hide Print, PrintMembers, Quote;
    var (names, values) := MemberTexts(v, keys);
    var pairs := Pairs(names, values);
    if i == |keys| {
      LastMember(v, keys);
    } else {
      NextMember(v, keys, i);
      MembersJoined(v, keys, i + 1);
      assert pairs[i..][0] == Quote(keys[i]) + ":" + Print(v.members[keys[i]]) && pairs[i..][1..] == pairs[i + 1..];
    }
  }

  lemma NumberPrints(text: string)
    requires Canonical(text).Some?
    ensures NumberSays(text, Canonical(text).value)
  {
    hide Canonical, TextValue, JsonNumber, Spell;
    CanonicalKeepsValue(text);
    var l := CanonicalForm(text);
  }

  /** A value that prints, prints as a JSON text that says it. */
  lemma {:induction false} PrintSays(v: Json, depth: nat, maxDepth: nat)
    requires Printable(v, depth, maxDepth)
    ensures Says(v, Print(v))
    decreases v
  {
    hide Quote, PrintItems, PrintMembers, StringSays, NumberSays, Canonical, Join, Ascending, SortedKeys;
    match v
    case Null => assert "null" == ['n', 'u', 'l', 'l'];
    case Bool(b) =>
    case Num(text) => NumberPrints(text);
    case Str(t) => QuoteSays(t);
    case Arr(items) =>
      forall i | 0 <= i < |items| ensures Says(items[i], ItemTexts(v)[i]) { PrintSays(items[i], depth + 1, maxDepth); }
      FirstItem(v);
      ItemsJoined(v, 0);
      ArraySays(v, ItemTexts(v), Print(v));
    case Obj(members) =>
      var keys := SortedKeys(members.Keys);
      var (names, values) := MemberTexts(v, keys);
      forall i | 0 <= i < |keys| ensures Says(members[keys[i]], values[i]) && StringSays(keys[i], names[i]) {
        assert keys[i] in keys;
        PrintSays(members[keys[i]], depth + 1, maxDepth);
        QuoteSays(keys[i]);
      }
      FirstMember(v);
      MembersJoined(v, keys, 0);
      ObjectSays(v, keys, names, values, Print(v));
  }

  lemma ArraySays(v: Json, parts: seq<string>, s: string)
    requires v.Arr? && |parts| == |v.items| && forall i :: 0 <= i < |parts| ==> Says(v.items[i], parts[i])
    requires s == "[" + ("" + Join(parts[0..]) + "]")
    ensures Says(v, s)
  {
    hide Join;
    assert parts[0..] == parts && "" + Join(parts) == Join(parts);
    assert s == ArrayText(parts);
  }

  lemma ObjectSays(v: Json, keys: seq<string>, names: seq<string>, values: seq<string>, s: string)
    requires v.Obj? && Ascending(keys) && NamesSay(keys, names) && |values| == |keys|
    requires forall k :: k in keys <==> k in v.members
    requires forall i :: 0 <= i < |keys| ==> Says(v.members[keys[i]], values[i])
    requires s == "{" + ("" + Join(Pairs(names, values)[0..]) + "}")
    ensures Says(v, s)
  {
    hide Join, Pairs, Ascending, StringSays;
    var pairs := Pairs(names, values);
    assert pairs[0..] == pairs && "" + Join(pairs) == Join(pairs);
    assert s == ObjectText(names, values);
  }

  // ---- the payload of a request

  /** An object whose members are named and follow each other as listed. */
  ghost predicate FieldsSay(names: seq<string>, values: seq<string>, s: string) {
    exists quoted: seq<string> :: NamesSay(names, quoted) && |values| == |names| && s == ObjectText(quoted, values)
  }

  /** The object of one log entry: its place, its texts, and its attributes. */
  ghost predicate EntrySays(lib: Library, index: nat, e: Entry, s: string) {
    exists v: seq<string> ::
      && |v| == 7 && FieldsSay(["sequence", "observed_at", "level", "service", "host", "message", "attributes"], v, s)
      && Atoi(v[0]) == Some(index) && StringSays(lib.stamp(e.observedAt), v[1]) && StringSays(e.level, v[2])
      && StringSays(e.service, v[3]) && StringSays(e.host, v[4]) && StringSays(e.message, v[5])
      && Says(Obj(e.attributes), v[6])
  }

  ghost predicate EntriesSay(lib: Library, entries: seq<Entry>, parts: seq<string>) {
    |parts| == |entries| && forall i :: 0 <= i < |entries| ==> EntrySays(lib, i, entries[i], parts[i])
  }

  /** The object of a request, with its ids in lower case and its entries in order. */
  ghost predicate RequestSays(lib: Library, r: Request, s: string) {
    exists v: seq<string>, parts: seq<string> ::
      && |v| == 7
      && FieldsSay(["protocol_version", "batch_id", "agent_id", "pipeline_id", "sequence", "sent_at", "entries"], v, s)
      && v[0] == "1" && StringSays(lib.lower(r.batchId), v[1]) && StringSays(lib.lower(r.agentId), v[2])
      && StringSays(lib.lower(r.pipelineId), v[3]) && Atoi(v[4]) == Some(r.sequence)
      && StringSays(lib.stamp(r.sentAt), v[5]) && v[6] == ArrayText(parts) && EntriesSay(lib, r.entries, parts)
  }

  function Quoteds(names: seq<string>): seq<string> { seq(|names|, i requires 0 <= i < |names| => Quote(names[i])) }

  lemma QuotedsSay(names: seq<string>)
    ensures NamesSay(names, Quoteds(names))
  {
    hide StringSays, Quote;
    forall i | 0 <= i < |names| ensures StringSays(names[i], Quoteds(names)[i]) { QuoteSays(names[i]); }
  }

  /** The tokens of an object's members after the first brace, each name with its separators in one raw text. */
  ghost function FieldTokens(names: seq<string>, values: seq<Token>, i: nat): seq<Token>
    requires |values| == |names| && i <= |names|
    decreases |names| - i
  {
    if i == |names| then []
    else [Raw((if i == 0 then "{" else ",") + (Quote(names[i]) + ":")), values[i]] + FieldTokens(names, values, i + 1)
  }

  ghost function TokenTexts(ts: seq<Token>): seq<string> { seq(|ts|, i requires 0 <= i < |ts| => TokenText(ts[i])) }

  lemma {:induction false} TokensConcat(xs: seq<Token>, ys: seq<Token>)
    ensures TokensText(xs + ys) == TokensText(xs) + TokensText(ys)
  {
    hide TokenText;
    if xs == [] {
      assert xs + ys == ys;
    } else {
      assert (xs + ys)[1..] == xs[1..] + ys;
      TokensConcat(xs[1..], ys);
    }
  }

  lemma TwoTokens(x: Token, y: Token)
    ensures TokensText([x, y]) == TokenText(x) + TokenText(y)
  {
    hide TokenText;
    assert [x, y][1..] == [y] && [y][1..] == [];
    assert TokensText([y]) == TokenText(y) + "";
  }

  lemma {:induction false} FieldsJoined(names: seq<string>, values: seq<Token>, i: nat)
    requires |values| == |names| && i < |names|
    ensures TokensText(FieldTokens(names, values, i))
         == (if i == 0 then "{" else ",") + Join(Pairs(Quoteds(names), TokenTexts(values))[i..])
    decreases |names| - i
  {
    hide Quote, TokenText, TokensText;
    var pairs := Pairs(Quoteds(names), TokenTexts(values));
    var head := Raw((if i == 0 then "{" else ",") + (Quote(names[i]) + ":"));
    var rest := FieldTokens(names, values, i + 1);
    TokensConcat([head, values[i]], rest);
    TwoTokens(head, values[i]);
    RawText(head);
    assert pairs[i..][0] == Quote(names[i]) + ":" + TokenText(values[i]) && pairs[i..][1..] == pairs[i + 1..];
    if i + 1 == |names| {
      NoTokens();
      assert rest == [];
    } else {
      FieldsJoined(names, values, i + 1);
    }
  }

  lemma RawText(t: Token)
    requires t.Raw?
    ensures TokenText(t) == t.text
  {}

  lemma NoTokens()
    ensures TokensText([]) == ""
  {}

  lemma RawQuote(name: string, open: string)
    requires forall c :: c in name ==> 'a' <= c <= 'z' || c == '_'
    ensures open + (Quote(name) + ":") == open + "\"" + name + "\":"
  {
    PlainEscape(name);
    hide Escape;
  }

  lemma LetterEscape(c: char)
    requires 'a' <= c <= 'z' || c == '_'
    ensures EscapeChar(c) == [c]
  {}

  lemma {:induction false} PlainEscape(name: string)
    requires forall c :: c in name ==> 'a' <= c <= 'z' || c == '_'
    ensures Escape(name) == name
  {
    hide EscapeChar;
    if name != "" {
      assert name[0] in name && name == [name[0]] + name[1..];
      LetterEscape(name[0]);
      assert forall c :: c in name[1..] ==> c in name;
      PlainEscape(name[1..]);
    }
  }

  const ENTRY_NAMES: seq<string> := ["sequence", "observed_at", "level", "service", "host", "message", "attributes"]

  const REQUEST_NAMES: seq<string> :=
    ["protocol_version", "batch_id", "agent_id", "pipeline_id", "sequence", "sent_at", "entries"]

  /** The raw texts between the fields of an entry are its names with their separators. */
  lemma EntryRawsFirst()
    ensures "{" + (Quote("sequence") + ":") == "{\"sequence\":"
    ensures "," + (Quote("observed_at") + ":") == ",\"observed_at\":"
    ensures "," + (Quote("level") + ":") == ",\"level\":"
  {
    hide Quote;
    RawQuote("sequence", "{");
    RawQuote("observed_at", ",");
    RawQuote("level", ",");
  }

  lemma EntryRawsLast()
    ensures "," + (Quote("service") + ":") == ",\"service\":"
    ensures "," + (Quote("host") + ":") == ",\"host\":"
    ensures "," + (Quote("message") + ":") == ",\"message\":"
    ensures "," + (Quote("attributes") + ":") == ",\"attributes\":"
  {
    hide Quote;
    RawQuote("service", ",");
    RawQuote("host", ",");
    RawQuote("message", ",");
    RawQuote("attributes", ",");
  }

  lemma RequestRawsFirst()
    ensures "{" + (Quote("protocol_version") + ":") == "{\"protocol_version\":"
  {
    hide Quote;
    RawQuote("protocol_version", "{");
  }

  lemma RequestRawsMiddle()
    ensures "," + (Quote("batch_id") + ":") == ",\"batch_id\":"
    ensures "," + (Quote("agent_id") + ":") == ",\"agent_id\":"
    ensures "," + (Quote("pipeline_id") + ":") == ",\"pipeline_id\":"
  {
    hide Quote;
    RawQuote("batch_id", ",");
    RawQuote("agent_id", ",");
    RawQuote("pipeline_id", ",");
  }

  lemma RequestRawsLast()
    ensures "," + (Quote("sequence") + ":") == ",\"sequence\":"
    ensures "," + (Quote("sent_at") + ":") == ",\"sent_at\":"
    ensures "," + (Quote("entries") + ":") == ",\"entries\":"
  {
    hide Quote;
    RawQuote("sequence", ",");
    RawQuote("sent_at", ",");
    RawQuote("entries", ",");
  }

  lemma FieldsAt(names: seq<string>, values: seq<Token>, i: nat)
    requires |values| == |names| && i < |names|
    ensures FieldTokens(names, values, i)
         == [Raw((if i == 0 then "{" else ",") + (Quote(names[i]) + ":")), values[i]] + FieldTokens(names, values, i + 1)
  {}

  lemma NoFields(names: seq<string>, values: seq<Token>)
    requires |values| == |names|
    ensures FieldTokens(names, values, |names|) == []
  {}

  function EntryValues(lib: Library, index: nat, e: Entry): seq<Token> {
    [Int(index), Quoted(lib.stamp(e.observedAt)), Quoted(e.level), Quoted(e.service), Quoted(e.host), Quoted(e.message),
     Tree(Obj(e.attributes))]
  }

  /** An entry's tokens are its fields and the closing brace. */
  lemma EntryFields(lib: Library, index: nat, e: Entry)
    ensures EntryTokens(lib, index, e) == FieldTokens(ENTRY_NAMES, EntryValues(lib, index, e), 0) + [Raw("}")]
  {
    hide Quote, FieldTokens;
    var values := EntryValues(lib, index, e);
    EntryRawsFirst();
    EntryRawsLast();
    FieldsAt(ENTRY_NAMES, values, 0);
    FieldsAt(ENTRY_NAMES, values, 1);
    FieldsAt(ENTRY_NAMES, values, 2);
    FieldsAt(ENTRY_NAMES, values, 3);
    FieldsAt(ENTRY_NAMES, values, 4);
    FieldsAt(ENTRY_NAMES, values, 5);
    FieldsAt(ENTRY_NAMES, values, 6);
    NoFields(ENTRY_NAMES, values);
  }

  lemma OneToken(t: Token)
    ensures TokensText([t]) == TokenText(t)
  {
    hide TokenText;
    assert [t][1..] == [];
    assert TokensText([t]) == TokenText(t) + "";
  }

  /** Fields and a closing brace are the text of an object. */
  lemma FieldsObject(names: seq<string>, values: seq<Token>)
    requires |values| == |names| && names != []
    ensures TokensText(FieldTokens(names, values, 0)) + "}" == ObjectText(Quoteds(names), TokenTexts(values))
    ensures FieldsSay(names, TokenTexts(values), ObjectText(Quoteds(names), TokenTexts(values)))
  {
    hide TokenText, TokensText, FieldTokens, Join, Pairs, Quoteds, StringSays;
    FieldsJoined(names, values, 0);
    QuotedsSay(names);
    var pairs := Pairs(Quoteds(names), TokenTexts(values));
    assert pairs[0..] == pairs;
  }

  lemma TextsOf(t: Token)
    ensures t.Quoted? ==> StringSays(t.text, TokenText(t))
    ensures t.Int? ==> Atoi(TokenText(t)) == Some(t.n)
    ensures t.Tree? && Printable(t.v, 0, MAX_ATTRIBUTES_DEPTH) ==> Says(t.v, TokenText(t))
  {
    hide StringSays, Says, Print, Printable, Atoi, Itoa, Quote;
    match t
    case Raw(_) =>
    case Quoted(text) => QuoteSays(text);
    case Int(n) => AtoiItoa(n);
    case Tree(v) => if Printable(v, 0, MAX_ATTRIBUTES_DEPTH) { PrintSays(v, 0, MAX_ATTRIBUTES_DEPTH); }
  }

  lemma EntryTextSays(lib: Library, index: nat, e: Entry)
    requires Printable(Obj(e.attributes), 0, MAX_ATTRIBUTES_DEPTH)
    ensures EntrySays(lib, index, e, TokensText(EntryTokens(lib, index, e)))
  {
    hide TokenText, TokensText, FieldTokens, EntryTokens, StringSays, Says, Printable, Atoi, FieldsSay, ObjectText, Quoteds;
    var values := EntryValues(lib, index, e);
    EntryFields(lib, index, e);
    TokensConcat(FieldTokens(ENTRY_NAMES, values, 0), [Raw("}")]);
    OneToken(Raw("}"));
    RawText(Raw("}"));
    FieldsObject(ENTRY_NAMES, values);
    forall i | 0 <= i < 7 ensures TokenTexts(values)[i] == TokenText(values[i]) { TextsOf(values[i]); }
    TextsOf(values[0]);
    TextsOf(values[1]);
    TextsOf(values[2]);
    TextsOf(values[3]);
    TextsOf(values[4]);
    TextsOf(values[5]);
    TextsOf(values[6]);
    var v := TokenTexts(values);
    assert FieldsSay(ENTRY_NAMES, v, TokensText(EntryTokens(lib, index, e)));
  }

  ghost function EntryTexts(lib: Library, entries: seq<Entry>): seq<string> {
    seq(|entries|, i requires 0 <= i < |entries| => TokensText(EntryTokens(lib, i, entries[i])))
  }

  lemma {:induction false} EntriesJoined(lib: Library, entries: seq<Entry>, i: nat)
    requires i <= |entries|
    ensures EntriesText(lib, entries, i) == (if 0 < i < |entries| then "," else "") + Join(EntryTexts(lib, entries)[i..]) + "]}"
    decreases |entries| - i
  {
    hide TokensText, EntryTokens;
    var texts := EntryTexts(lib, entries);
    if i < |entries| {
      EntriesJoined(lib, entries, i + 1);
      assert texts[i..][0] == TokensText(EntryTokens(lib, i, entries[i])) && texts[i..][1..] == texts[i + 1..];
    }
  }

  function RequestValues(lib: Library, r: Request, list: string): seq<Token> {
    [Raw("1"), Quoted(lib.lower(r.batchId)), Quoted(lib.lower(r.agentId)), Quoted(lib.lower(r.pipelineId)),
     Int(r.sequence), Quoted(lib.stamp(r.sentAt)), Raw(list)]
  }

  /** The tokens between the batch id and the list of entries. */
  function MiddleTokens(lib: Library, r: Request): seq<Token> {
    [Quoted(lib.lower(r.batchId)), Raw(",\"agent_id\":"), Quoted(lib.lower(r.agentId)),
     Raw(",\"pipeline_id\":"), Quoted(lib.lower(r.pipelineId)), Raw(",\"sequence\":"), Int(r.sequence),
     Raw(",\"sent_at\":"), Quoted(lib.stamp(r.sentAt))]
  }

  lemma RequestTokens(lib: Library, r: Request, list: string)
    ensures FieldTokens(REQUEST_NAMES, RequestValues(lib, r, list), 0)
         == [Raw("{\"protocol_version\":"), Raw("1"), Raw(",\"batch_id\":")] + MiddleTokens(lib, r)
            + [Raw(",\"entries\":"), Raw(list)]
  {
    hide Quote, FieldTokens;
    var values := RequestValues(lib, r, list);
    RequestRawsFirst();
    RequestRawsMiddle();
    RequestRawsLast();
    FieldsAt(REQUEST_NAMES, values, 0);
    FieldsAt(REQUEST_NAMES, values, 1);
    FieldsAt(REQUEST_NAMES, values, 2);
    FieldsAt(REQUEST_NAMES, values, 3);
    FieldsAt(REQUEST_NAMES, values, 4);
    FieldsAt(REQUEST_NAMES, values, 5);
    FieldsAt(REQUEST_NAMES, values, 6);
    NoFields(REQUEST_NAMES, values);
  }

  lemma HeaderIs(lib: Library, r: Request)
    ensures HeaderTokens(lib, r)
         == [Raw("{\"protocol_version\":1,\"batch_id\":")] + MiddleTokens(lib, r) + [Raw(",\"entries\":[")]
  {}

  lemma ThreeRaws(x: string, y: string, z: string)
    ensures TokensText([Raw(x), Raw(y), Raw(z)]) == x + y + z
  {
    hide TokensText, TokenText;
    assert [Raw(x), Raw(y), Raw(z)] == [Raw(x), Raw(y)] + [Raw(z)];
    TokensConcat([Raw(x), Raw(y)], [Raw(z)]);
    TwoTokens(Raw(x), Raw(y));
    OneToken(Raw(z));
    RawText(Raw(x));
    RawText(Raw(y));
    RawText(Raw(z));
  }

  /** Splitting the raw texts of the header at the fields does not change the text. */
  lemma HeaderText(lib: Library, r: Request, joined: string)
    ensures TokensText(HeaderTokens(lib, r)) + (joined + "]}")
         == TokensText(FieldTokens(REQUEST_NAMES, RequestValues(lib, r, "[" + joined + "]"), 0)) + "}"
  {
    hide TokensText, TokenText, FieldTokens, HeaderTokens, MiddleTokens;
    var list := "[" + joined + "]";
    var middle := MiddleTokens(lib, r);
    var first, last := Raw("{\"protocol_version\":1,\"batch_id\":"), Raw(",\"entries\":[");
    HeaderIs(lib, r);
    TokensConcat([first] + middle, [last]);
    TokensConcat([first], middle);
    OneToken(first);
    OneToken(last);
    RawText(first);
    RawText(last);
    RequestTokens(lib, r, list);
    var head := [Raw("{\"protocol_version\":"), Raw("1"), Raw(",\"batch_id\":")];
    var tail := [Raw(",\"entries\":"), Raw(list)];
    TokensConcat(head + middle, tail);
    TokensConcat(head, middle);
    ThreeRaws("{\"protocol_version\":", "1", ",\"batch_id\":");
    TwoTokens(Raw(",\"entries\":"), Raw(list));
    RawText(Raw(",\"entries\":"));
    RawText(Raw(list));
    HeaderPieces(TokensText(middle), joined);
  }

  lemma HeaderPieces(middle: string, joined: string)
    ensures "{\"protocol_version\":" + "1" + ",\"batch_id\":" == "{\"protocol_version\":1,\"batch_id\":"
    ensures var first := "{\"protocol_version\":1,\"batch_id\":";
            first + middle + ",\"entries\":[" + (joined + "]}")
            == first + middle + (",\"entries\":" + ("[" + joined + "]")) + "}"
  {
    assert ",\"entries\":[" == ",\"entries\":" + "[";
    assert "]}" == "]" + "}";
  }

  /**
    The canonical payload is a JSON text of the request: every field under its name, in its place, with
    its value; the entries in order, each under its own number.
  */
  lemma PayloadSays(lib: Library, r: Request)
    requires Encodable(r)
    ensures RequestSays(lib, r, PayloadText(lib, r))
  {
    hide TokenText, TokensText, FieldTokens, EntryTokens, HeaderTokens, StringSays, Says, Printable, Atoi, FieldsSay,
      ObjectText, Quoteds, EntrySays, Join;
    var parts := EntryTexts(lib, r.entries);
    forall i | 0 <= i < |parts| ensures EntrySays(lib, i, r.entries[i], parts[i]) {
      assert r.entries[i] in r.entries;
      EntryTextSays(lib, i, r.entries[i]);
    }
    EntriesJoined(lib, r.entries, 0);
    assert parts[0..] == parts && "" + Join(parts) == Join(parts);
    HeaderText(lib, r, Join(parts));
    var values := RequestValues(lib, r, ArrayText(parts));
    FieldsObject(REQUEST_NAMES, values);
    TextsOf(values[1]);
    TextsOf(values[2]);
    TextsOf(values[3]);
    TextsOf(values[4]);
    TextsOf(values[5]);
    RawText(values[0]);
    RawText(values[6]);
    var v := TokenTexts(values);
    assert v[0] == "1" && v[6] == ArrayText(parts);
    assert PayloadText(lib, r) == TokensText(FieldTokens(REQUEST_NAMES, values, 0)) + "}";
    assert FieldsSay(REQUEST_NAMES, v, PayloadText(lib, r));
  }
}
