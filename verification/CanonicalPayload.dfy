/** The canonical form of a whole ingest request: the text whose hash decides duplicate or conflict. */
module CanonicalPayload {
  import opened Prelude
  import opened Decimal
  import opened CanonicalNumber
  import opened CanonicalJson

  const MAX_ATTRIBUTES_DEPTH: nat := 8

  /** Library functions: lower case, and the RFC 3339 text of an instant in UTC. */
  datatype Library = Library(lower: string -> string, stamp: int -> string)

  /** Different instants have different texts. */
  ghost predicate Faithful(lib: Library) { forall t, u :: lib.stamp(t) == lib.stamp(u) ==> t == u }

  datatype Entry = Entry(
    observedAt: int, level: string, service: string, host: string, message: string, attributes: map<string, Json>)

  datatype Request = Request(
    batchId: string, agentId: string, pipelineId: string, sequence: int, sentAt: int, entries: seq<Entry>)

  // ---- texts as tokens

  datatype Token = Raw(text: string) | Quoted(text: string) | Int(n: int) | Tree(v: Json)

  ghost function TokenText(t: Token): string {
    match t
    case Raw(text) => text
    case Quoted(text) => Quote(text)
    case Int(n) => Itoa(n)
    case Tree(v) => Print(v)
  }

  ghost function TokensText(ts: seq<Token>): string {
    if ts == [] then "" else TokenText(ts[0]) + TokensText(ts[1..])
  }

  ghost predicate Allowed(t: Token) { t.Tree? ==> Printable(t.v, 0, MAX_ATTRIBUTES_DEPTH) }

  ghost predicate AllAllowed(ts: seq<Token>) { forall i :: 0 <= i < |ts| ==> Allowed(ts[i]) }

  function HeaderTokens(lib: Library, r: Request): seq<Token> {
    [Raw("{\"protocol_version\":1,\"batch_id\":"), Quoted(lib.lower(r.batchId)),
     Raw(",\"agent_id\":"), Quoted(lib.lower(r.agentId)),
     Raw(",\"pipeline_id\":"), Quoted(lib.lower(r.pipelineId)),
     Raw(",\"sequence\":"), Int(r.sequence),
     Raw(",\"sent_at\":"), Quoted(lib.stamp(r.sentAt)),
     Raw(",\"entries\":[")]
  }

  function EntryTokens(lib: Library, index: nat, e: Entry): seq<Token> {
    [Raw("{\"sequence\":"), Int(index),
     Raw(",\"observed_at\":"), Quoted(lib.stamp(e.observedAt)),
     Raw(",\"level\":"), Quoted(e.level),
     Raw(",\"service\":"), Quoted(e.service),
     Raw(",\"host\":"), Quoted(e.host),
     Raw(",\"message\":"), Quoted(e.message),
     Raw(",\"attributes\":"), Tree(Obj(e.attributes)),
     Raw("}")]
  }

  /** The entries from the i-th on, each but the first after a comma, and the end of the request. */
  ghost function EntriesText(lib: Library, entries: seq<Entry>, i: nat): string
    requires i <= |entries|
    decreases |entries| - i
  {
    if i == |entries| then "]}"
    else (if i > 0 then "," else "") + TokensText(EntryTokens(lib, i, entries[i])) + EntriesText(lib, entries, i + 1)
  }

  ghost function PayloadText(lib: Library, r: Request): string {
    TokensText(HeaderTokens(lib, r)) + EntriesText(lib, r.entries, 0)
  }

  ghost predicate Encodable(r: Request) {
    forall e :: e in r.entries ==> Printable(Obj(e.attributes), 0, MAX_ATTRIBUTES_DEPTH)
  }

  // ---- the writer

  method WriteToken(out: Buffer, t: Token) returns (ok: bool)
    modifies out
    ensures ok <==> Allowed(t)
    ensures ok ==> out.text == old(out.text) + TokenText(t)
  {
    hide Printable, Quote, Print, Itoa;
    ok := true;
    match t
    case Raw(text) => out.Write(text);
    case Quoted(text) => out.Write(Quote(text));
    case Int(n) => out.Write(Itoa(n));
    case Tree(v) => ok := AppendCanonical(out, v, 0, MAX_ATTRIBUTES_DEPTH);
  }

  method WriteTokens(out: Buffer, ts: seq<Token>) returns (ok: bool)
    modifies out
    ensures ok <==> AllAllowed(ts)
    ensures ok ==> out.text == old(out.text) + TokensText(ts)
  {
    hide TokenText, Allowed, TokensText;
    ghost var whole := out.text + TokensText(ts);
    assert ts[0..] == ts;
    for i := 0 to |ts|
      invariant forall j :: 0 <= j < i ==> Allowed(ts[j])
      invariant out.text + TokensText(ts[i..]) == whole
    {
      NextToken(ts, i);
      var written := WriteToken(out, ts[i]);
      if !written { return false; }
    }
    NoToken(ts);
    return true;
  }

  lemma NextToken(ts: seq<Token>, i: nat)
    requires i < |ts|
    ensures TokensText(ts[i..]) == TokenText(ts[i]) + TokensText(ts[i + 1..])
  {
    assert ts[i..][1..] == ts[i + 1..];
  }

  lemma NoToken(ts: seq<Token>)
    ensures TokensText(ts[|ts|..]) == ""
  {}

  /** CanonicalPayload: the request's text, or false when some attributes have no canonical form. */
  method WritePayload(lib: Library, r: Request) returns (ok: bool, text: string)
    ensures ok <==> Encodable(r)
    ensures ok ==> text == PayloadText(lib, r)
  {
    hide Printable, TokensText, HeaderTokens, EntryTokens, AllAllowed;
    HeaderAllowed(lib, r);
    var out := new Buffer();
    text := "";
    ok := WriteTokens(out, HeaderTokens(lib, r));
    for i := 0 to |r.entries|
      invariant ok && forall j :: 0 <= j < i ==> Printable(Obj(r.entries[j].attributes), 0, MAX_ATTRIBUTES_DEPTH)
      invariant out.text + EntriesText(lib, r.entries, i) == PayloadText(lib, r)
    {
      if i > 0 { out.Write(","); }
      EntryAllowed(lib, i, r.entries[i]);
      ok := WriteTokens(out, EntryTokens(lib, i, r.entries[i]));
      if !ok { return; }
    }
    out.Write("]}");
    text := out.text;
  }

  lemma HeaderAllowed(lib: Library, r: Request)
    ensures AllAllowed(HeaderTokens(lib, r))
  {}

  lemma EntryAllowed(lib: Library, index: nat, e: Entry)
    ensures AllAllowed(EntryTokens(lib, index, e)) <==> Printable(Obj(e.attributes), 0, MAX_ATTRIBUTES_DEPTH)
  {
    hide Printable;
    var ts := EntryTokens(lib, index, e);
    assert ts[13] == Tree(Obj(e.attributes));
    assert forall i :: 0 <= i < |ts| && i != 13 ==> !ts[i].Tree?;
  }

  // ---- one reading

  ghost predicate SameToken(s: Token, t: Token) {
    match s
    case Raw(text) => t == s
    case Quoted(text) => t == s
    case Int(n) => t == s
    case Tree(v) => t.Tree? && Same(v, t.v)
  }

  ghost predicate SameTokens(a: seq<Token>, b: seq<Token>) {
    |a| == |b| && forall i :: 0 <= i < |a| ==> SameToken(a[i], b[i])
  }

  /** Two texts with the same fixed parts and the same kinds of field between them. */
  predicate SameShape(a: seq<Token>, b: seq<Token>) {
    && |a| == |b|
    && forall i :: 0 <= i < |a| ==>
         (a[i].Raw? ==> b[i] == a[i]) && (a[i].Quoted? ==> b[i].Quoted?)
         && (a[i].Int? ==> b[i].Int?) && (a[i].Tree? ==> b[i].Tree?)
  }

  predicate Closes(t: Token) { t.Raw? && t.text != "" && Delimited(t.text) }

  /** Numbers and trees do not mark their own end; what follows them does. */
  predicate WellPlaced(ts: seq<Token>) {
    forall i :: 0 <= i < |ts| && (ts[i].Int? || ts[i].Tree?) ==> i + 1 < |ts| && Closes(ts[i + 1])
  }

  lemma ItoaUnique(m: int, n: int, x: string, y: string)
    requires Delimited(x) && Delimited(y) && Itoa(m) + x == Itoa(n) + y
    ensures m == n && x == y
  {
    hide Itoa;
    ItoaChars(m);
    ItoaChars(n);
    NumberEnds(Itoa(m), Itoa(n), x, y);
    AtoiItoa(m);
    AtoiItoa(n);
  }

  lemma TokenUnique(s: Token, t: Token, x: string, y: string)
    requires SameShape([s], [t]) && Allowed(s) && Allowed(t) && TokenText(s) + x == TokenText(t) + y
    requires s.Int? || s.Tree? ==> Delimited(x) && Delimited(y)
    ensures SameToken(s, t) && x == y
  {
    hide Itoa, Quote, Print, Printable, Delimited;
    assert [s][0] == s && [t][0] == t;
    match s
    case Raw(text) => SamePrefix(text, x, y);
    case Quoted(text) => QuoteUnique(text, t.text, x, y);
    case Int(n) => ItoaUnique(n, t.n, x, y);
    case Tree(v) => PrintUnique(v, t.v, 0, MAX_ATTRIBUTES_DEPTH, x, y);
  }

  lemma ClosedDelimited(ts: seq<Token>, x: string)
    requires ts != [] && Closes(ts[0])
    ensures Delimited(TokensText(ts) + x)
  {
    assert (TokensText(ts) + x)[0] == ts[0].text[0];
  }

  ghost predicate Comparable(a: seq<Token>, b: seq<Token>) {
    SameShape(a, b) && WellPlaced(a) && WellPlaced(b) && AllAllowed(a) && AllAllowed(b)
  }

  lemma ComparableTail(a: seq<Token>, b: seq<Token>)
    requires Comparable(a, b) && a != []
    ensures |a| == |b| && Comparable(a[1..], b[1..]) && SameShape([a[0]], [b[0]]) && Allowed(a[0]) && Allowed(b[0])
    ensures a[0].Int? || a[0].Tree? ==> a[1..] != [] && b[1..] != [] && Closes(a[1..][0]) && Closes(b[1..][0])
  {
    hide Closes, Allowed;
    assert forall i :: 0 <= i < |a| - 1 ==> a[1..][i] == a[i + 1] && b[1..][i] == b[i + 1];
  }

  lemma {:induction false} TokensUnique(a: seq<Token>, b: seq<Token>, x: string, y: string)
    requires Comparable(a, b) && TokensText(a) + x == TokensText(b) + y
    ensures SameTokens(a, b) && x == y
    decreases |a|
  {
    hide TokenText, Delimited, Closes, SameToken, Allowed, Comparable, SameShape;
    if a == [] {
      NothingToCompare(a, b);
      assert "" + x == x && "" + y == y;
    } else {
      ComparableTail(a, b);
      var u, v := TokensText(a[1..]) + x, TokensText(b[1..]) + y;
      assert TokensText(a) + x == TokenText(a[0]) + u;
      assert TokensText(b) + y == TokenText(b[0]) + v;
      if a[0].Int? || a[0].Tree? {
        ClosedDelimited(a[1..], x);
        ClosedDelimited(b[1..], y);
      }
      TokenUnique(a[0], b[0], u, v);
      TokensUnique(a[1..], b[1..], x, y);
    }
  }

  lemma NothingToCompare(a: seq<Token>, b: seq<Token>)
    requires Comparable(a, b) && a == []
    ensures b == []
  {}

  lemma {:induction false} SameTokensText(a: seq<Token>, b: seq<Token>)
    requires AllAllowed(a) && AllAllowed(b) && SameTokens(a, b)
    ensures TokensText(a) == TokensText(b)
    decreases |a|
  {
    hide Print, Printable, Quote, Itoa, Same;
    if a != [] {
      if a[0].Tree? {
        assert Allowed(a[0]) && Allowed(b[0]) && SameToken(a[0], b[0]);
        SamePrints(a[0].v, b[0].v, 0, MAX_ATTRIBUTES_DEPTH);
      }
      SameTokensText(a[1..], b[1..]);
    }
  }

  ghost predicate SameEntry(e: Entry, f: Entry) {
    && e.observedAt == f.observedAt && e.level == f.level && e.service == f.service && e.host == f.host
    && e.message == f.message && Same(Obj(e.attributes), Obj(f.attributes))
  }

  ghost predicate SameHeader(lib: Library, r: Request, q: Request) {
    && lib.lower(r.batchId) == lib.lower(q.batchId) && lib.lower(r.agentId) == lib.lower(q.agentId)
    && lib.lower(r.pipelineId) == lib.lower(q.pipelineId)
    && r.sequence == q.sequence && r.sentAt == q.sentAt
  }

  ghost predicate SameEntries(es: seq<Entry>, fs: seq<Entry>, from: nat) {
    |es| == |fs| && forall i :: from <= i < |es| ==> SameEntry(es[i], fs[i])
  }

  lemma HeadersComparable(lib: Library, r: Request, q: Request)
    ensures Comparable(HeaderTokens(lib, r), HeaderTokens(lib, q))
  {
    hide SameShape, WellPlaced, AllAllowed, HeaderTokens;
    HeadersShape(lib, r, q);
    HeaderPlaced(lib, r);
    HeaderPlaced(lib, q);
    HeaderAllowed(lib, r);
    HeaderAllowed(lib, q);
  }

  lemma HeadersShape(lib: Library, r: Request, q: Request)
    ensures SameShape(HeaderTokens(lib, r), HeaderTokens(lib, q))
  {}

  lemma HeaderPlaced(lib: Library, r: Request)
    ensures WellPlaced(HeaderTokens(lib, r))
  {}

  lemma HeaderUnique(lib: Library, r: Request, q: Request, x: string, y: string)
    requires Faithful(lib) && TokensText(HeaderTokens(lib, r)) + x == TokensText(HeaderTokens(lib, q)) + y
    ensures SameHeader(lib, r, q) && x == y
  {
    hide TokensText, Comparable, HeaderTokens, SameTokens, SameHeader;
    HeadersComparable(lib, r, q);
    TokensUnique(HeaderTokens(lib, r), HeaderTokens(lib, q), x, y);
    HeaderFields(lib, r, q);
  }

  lemma HeaderFields(lib: Library, r: Request, q: Request)
    requires Faithful(lib)
    requires SameTokens(HeaderTokens(lib, r), HeaderTokens(lib, q))
    ensures SameHeader(lib, r, q)
  {
    hide Same;
    var a, b := HeaderTokens(lib, r), HeaderTokens(lib, q);
    assert SameToken(a[1], b[1]) && SameToken(a[3], b[3]) && SameToken(a[5], b[5]);
    assert SameToken(a[7], b[7]) && SameToken(a[9], b[9]);
  }

  lemma EntriesComparable(lib: Library, i: nat, e: Entry, f: Entry)
    requires Printable(Obj(e.attributes), 0, MAX_ATTRIBUTES_DEPTH) && Printable(Obj(f.attributes), 0, MAX_ATTRIBUTES_DEPTH)
    ensures Comparable(EntryTokens(lib, i, e), EntryTokens(lib, i, f))
  {
    hide SameShape, WellPlaced, AllAllowed, EntryTokens, Printable;
    EntriesShape(lib, i, e, f);
    EntryPlaced(lib, i, e);
    EntryPlaced(lib, i, f);
    EntryAllowed(lib, i, e);
    EntryAllowed(lib, i, f);
  }

  lemma EntriesShape(lib: Library, i: nat, e: Entry, f: Entry)
    ensures SameShape(EntryTokens(lib, i, e), EntryTokens(lib, i, f))
  {}

  lemma EntryPlaced(lib: Library, i: nat, e: Entry)
    ensures WellPlaced(EntryTokens(lib, i, e))
  {}

  lemma EntryUnique(lib: Library, i: nat, e: Entry, f: Entry, x: string, y: string)
    requires Faithful(lib)
    requires Printable(Obj(e.attributes), 0, MAX_ATTRIBUTES_DEPTH) && Printable(Obj(f.attributes), 0, MAX_ATTRIBUTES_DEPTH)
    requires TokensText(EntryTokens(lib, i, e)) + x == TokensText(EntryTokens(lib, i, f)) + y
    ensures SameEntry(e, f) && x == y
  {
    hide TokensText, Comparable, EntryTokens, SameTokens, SameEntry, Printable;
    EntriesComparable(lib, i, e, f);
    TokensUnique(EntryTokens(lib, i, e), EntryTokens(lib, i, f), x, y);
    EntryFields(lib, i, e, f);
  }

  lemma EntryFields(lib: Library, i: nat, e: Entry, f: Entry)
    requires Faithful(lib)
    requires SameTokens(EntryTokens(lib, i, e), EntryTokens(lib, i, f))
    ensures SameEntry(e, f)
  {
    hide Same;
    var a, b := EntryTokens(lib, i, e), EntryTokens(lib, i, f);
    assert SameToken(a[3], b[3]) && SameToken(a[5], b[5]) && SameToken(a[7], b[7]) && SameToken(a[9], b[9]);
    assert SameToken(a[11], b[11]) && SameToken(a[13], b[13]);
  }

  lemma EntriesStart(lib: Library, es: seq<Entry>, i: nat)
    requires i <= |es|
    ensures EntriesText(lib, es, i) != "" && (EntriesText(lib, es, i)[0] == ']' <==> i == |es|)
  {
    if i < |es| {
      var ts := EntryTokens(lib, i, es[i]);
      assert TokensText(ts) == TokenText(ts[0]) + TokensText(ts[1..]);
      assert TokensText(ts)[0] == '{';
    }
  }

  lemma {:induction false} EntriesUnique(lib: Library, es: seq<Entry>, fs: seq<Entry>, i: nat)
    requires Faithful(lib) && i <= |es| && i <= |fs|
    requires forall e :: e in es ==> Printable(Obj(e.attributes), 0, MAX_ATTRIBUTES_DEPTH)
    requires forall f :: f in fs ==> Printable(Obj(f.attributes), 0, MAX_ATTRIBUTES_DEPTH)
    requires EntriesText(lib, es, i) == EntriesText(lib, fs, i)
    ensures SameEntries(es, fs, i)
    decreases |es| - i
  {
    hide Faithful, Printable, TokensText, EntryTokens, SameEntry;
    EntriesStart(lib, es, i);
    EntriesStart(lib, fs, i);
    if i < |es| {
      var comma := if i > 0 then "," else "";
      var x, y := EntriesText(lib, es, i + 1), EntriesText(lib, fs, i + 1);
      var s, t := TokensText(EntryTokens(lib, i, es[i])), TokensText(EntryTokens(lib, i, fs[i]));
      assert EntriesText(lib, es, i) == comma + (s + x) && EntriesText(lib, fs, i) == comma + (t + y);
      SamePrefix(comma, s + x, t + y);
      EntryUnique(lib, i, es[i], fs[i], x, y);
      EntriesUnique(lib, es, fs, i + 1);
    }
  }

  lemma {:induction false} SameEntriesText(lib: Library, es: seq<Entry>, fs: seq<Entry>, i: nat)
    requires i <= |es| && SameEntries(es, fs, i)
    requires forall e :: e in es ==> Printable(Obj(e.attributes), 0, MAX_ATTRIBUTES_DEPTH)
    requires forall f :: f in fs ==> Printable(Obj(f.attributes), 0, MAX_ATTRIBUTES_DEPTH)
    ensures EntriesText(lib, es, i) == EntriesText(lib, fs, i)
    decreases |es| - i
  {
    hide Printable, TokensText, EntryTokens, SameEntry;
    if i < |es| {
      SameEntryText(lib, i, es[i], fs[i]);
      SameEntriesText(lib, es, fs, i + 1);
    }
  }

  lemma SameEntryText(lib: Library, i: nat, e: Entry, f: Entry)
    requires SameEntry(e, f)
    requires Printable(Obj(e.attributes), 0, MAX_ATTRIBUTES_DEPTH) && Printable(Obj(f.attributes), 0, MAX_ATTRIBUTES_DEPTH)
    ensures TokensText(EntryTokens(lib, i, e)) == TokensText(EntryTokens(lib, i, f))
  {
    hide TokensText, Printable, Same, AllAllowed;
    EntryAllowed(lib, i, e);
    EntryAllowed(lib, i, f);
    SameTokensText(EntryTokens(lib, i, e), EntryTokens(lib, i, f));
  }

  /**
    Two requests have the same canonical payload, and so the same hash, exactly when they agree in
    their ids up to case, sequence, send time, and entry by entry in every field, with attributes
    compared up to key order and the spelling of numbers.
  */
  lemma SamePayloadIffSame(lib: Library, r: Request, q: Request)
    requires Faithful(lib) && Encodable(r) && Encodable(q)
    ensures PayloadText(lib, r) == PayloadText(lib, q) <==> SameHeader(lib, r, q) && SameEntries(r.entries, q.entries, 0)
  {
    hide Faithful, Printable, TokensText, HeaderTokens, EntriesText, SameEntries, SameHeader;
    if PayloadText(lib, r) == PayloadText(lib, q) {
      HeaderUnique(lib, r, q, EntriesText(lib, r.entries, 0), EntriesText(lib, q.entries, 0));
      EntriesUnique(lib, r.entries, q.entries, 0);
    } else if SameHeader(lib, r, q) && SameEntries(r.entries, q.entries, 0) {
      SameHeaderText(lib, r, q);
      SameEntriesText(lib, r.entries, q.entries, 0);
    }
  }

  lemma SameHeaderText(lib: Library, r: Request, q: Request)
    requires SameHeader(lib, r, q)
    ensures TokensText(HeaderTokens(lib, r)) == TokensText(HeaderTokens(lib, q))
  {
    hide TokensText;
    assert HeaderTokens(lib, r) == HeaderTokens(lib, q);
  }
}
