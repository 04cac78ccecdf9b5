/** The query service: normalized filters, signed cursors, and why an issued cursor is accepted again. */
module Search {
  import opened Prelude
  import opened Text
  import opened Paging
  import CanonicalNumber
  import Like

  datatype Payload = Payload(version: int, projectId: string, filterHash: string, observedAt: string, id: int)

  /** Library functions: JSON, HMAC under the service's secret, base64, hex, RFC 3339 times, SHA-256 of the filters. */
  datatype Library = Library(
    json: Payload -> Bytes, parseJson: Bytes -> Option<Payload>, mac: Bytes -> Bytes,
    base64: Bytes -> string, unbase64: string -> Option<Bytes>, hex: Bytes -> string,
    stamp: int -> string, parseStamp: string -> Option<int>, instant: int -> bool,
    hash: (int, int, seq<string>, seq<string>, seq<string>, string) -> Bytes,
    upper: string -> string, size: string -> nat, validProject: string -> bool)

  /** Letters, digits and the marks of identifiers and times, which JSON writes as they are. */
  predicate PlainText(s: string) {
    forall c :: c in s ==> '0' <= c <= '9' || 'a' <= c <= 'z' || 'A' <= c <= 'Z' || c in "-+.:"
  }

  /** The payloads that the service makes: an id of 64 bits, and plain texts of their usual lengths. */
  predicate Usual(p: Payload) {
    && p.version == 1 && |p.projectId| == 36 && |p.filterHash| == 64 && |p.observedAt| <= 35
    && PlainText(p.projectId) && PlainText(p.filterHash) && PlainText(p.observedAt)
    && 0 < p.id < 0x8000_0000_0000_0000
  }

  ghost predicate PayloadOk(lib: Library, p: Payload) {
    lib.parseJson(lib.json(p)) == Some(p) && (Usual(p) ==> |lib.json(p)| <= 512)
  }

  /** `instant` tells the times that RFC 3339 can write. */
  ghost predicate StampOk(lib: Library, t: int) {
    lib.instant(t) ==> lib.parseStamp(lib.stamp(t)) == Some(t) && |lib.stamp(t)| <= 35 && PlainText(lib.stamp(t))
  }

  ghost predicate BytesOk(lib: Library, b: Bytes) {
    lib.unbase64(lib.base64(b)) == Some(b) && '.' !in lib.base64(b) && |lib.base64(b)| <= 2 * |b| && |lib.mac(b)| == 32
  }

  ghost predicate HexOk(lib: Library, b: Bytes, c: Bytes) {
    |lib.hex(b)| == 2 * |b| && PlainText(lib.hex(b)) && (lib.hex(b) == lib.hex(c) ==> b == c)
  }

  /** The hypothesis on the libraries: encodings are undone by their decodings, and have their usual sizes. */
  ghost predicate Sound(lib: Library) {
    && (forall p :: PayloadOk(lib, p))
    && (forall b :: BytesOk(lib, b))
    && (forall b, c :: HexOk(lib, b, c))
    && (forall t :: StampOk(lib, t))
    && (forall p :: lib.validProject(p) ==> |p| == 36 && PlainText(p))
    && (forall a, b, c, d, e, f :: |lib.hash(a, b, c, d, e, f)| == 32)
  }

  // ---- cursors

  function PayloadOf(lib: Library, projectId: string, hash: Bytes, position: Cursor): Payload {
    Payload(1, projectId, lib.hex(hash), lib.stamp(position.observedAt), position.id)
  }

  function Encode(lib: Library, projectId: string, hash: Bytes, position: Cursor): Option<string> {
    if !lib.validProject(projectId) || position.observedAt == 0 || position.id <= 0 then None
    else
      var encoded := lib.json(PayloadOf(lib, projectId, hash, position));
      Some(lib.base64(encoded) + "." + lib.base64(lib.mac(encoded)))
  }

  function Decode(lib: Library, raw: string, projectId: string, hash: Bytes): Option<Cursor> {
    match CanonicalNumber.Cut(raw, '.')
    case None => None
    case Some((payloadPart, macPart)) =>
      if |raw| > 2048 || '.' in macPart then None
      else
        var payload := lib.unbase64(payloadPart);
        var mac := lib.unbase64(macPart);
        if payload.None? || |payload.value| > 1024 then None
        else if mac.None? || |mac.value| != 32 then None
        else if mac.value != lib.mac(payload.value) then None
        else DecodePayload(lib, payload.value, projectId, hash)
  }

  function DecodePayload(lib: Library, payload: Bytes, projectId: string, hash: Bytes): Option<Cursor> {
    match lib.parseJson(payload)
    case None => None
    case Some(p) =>
      if p.version != 1 || p.projectId != projectId || p.filterHash != lib.hex(hash) || p.id <= 0 then None
      else
        match lib.parseStamp(p.observedAt)
        case None => None
        case Some(t) => Some(Cursor(t, p.id))
  }

  /** A cursor opens, to the same position, for the project and the filters that it was issued for, and for no others. */
  lemma CursorRoundTrip(lib: Library, projectId: string, hash: Bytes, position: Cursor, otherProject: string, otherHash: Bytes)
    requires Sound(lib) && |hash| == 32 && Encode(lib, projectId, hash, position).Some?
    requires lib.instant(position.observedAt) && position.id < 0x8000_0000_0000_0000
    ensures var raw := Encode(lib, projectId, hash, position).value;
            Decode(lib, raw, otherProject, otherHash)
            == if otherProject == projectId && otherHash == hash then Some(position) else None
  {
    var p := PayloadOf(lib, projectId, hash, position);
    var encoded := lib.json(p);
    var left, right := lib.base64(encoded), lib.base64(lib.mac(encoded));
    assert PayloadOk(lib, p) && BytesOk(lib, encoded) && BytesOk(lib, lib.mac(encoded));
    assert HexOk(lib, hash, otherHash) && StampOk(lib, position.observedAt);
    CanonicalNumber.CutAt(left, '.', right);
    assert left + ['.'] + right == left + "." + right;
    hide CanonicalNumber.Cut;
  }

  // ---- filters

  function NormalOne(lib: Library, value: string, upper: bool): string {
    if upper then lib.upper(TrimSpace(value)) else TrimSpace(value)
  }

  predicate BadFilter(lib: Library, value: string, maxBytes: nat) {
    value == "" || (0 as char) in value || lib.size(value) > maxBytes
  }

  function NormalSet(lib: Library, values: seq<string>, upper: bool): set<string> {
    set v | v in values :: NormalOne(lib, v, upper)
  }

  ghost predicate Acceptable(lib: Library, values: seq<string>, maxItems: nat, maxBytes: nat, upper: bool) {
    |values| <= maxItems && forall v :: v in values ==> !BadFilter(lib, NormalOne(lib, v, upper), maxBytes)
  }

  ghost function Normalized(lib: Library, values: seq<string>, maxItems: nat, maxBytes: nat, upper: bool): Option<seq<string>> {
    if Acceptable(lib, values, maxItems, maxBytes, upper) then Some(SortedKeys(NormalSet(lib, values, upper))) else None
  }

  /** normalizeFilter: a set of trimmed values, in order. */
  method NormalizeFilter(lib: Library, values: seq<string>, maxItems: nat, maxBytes: nat, upper: bool)
    returns (r: Option<seq<string>>)
    ensures r == Normalized(lib, values, maxItems, maxBytes, upper)
  {
    hide TrimSpace, SortedKeys;
    if |values| > maxItems { return None; }
    var unique: set<string> := {};
    for i := 0 to |values|
      invariant unique == NormalSet(lib, values[..i], upper)
      invariant forall v :: v in values[..i] ==> !BadFilter(lib, NormalOne(lib, v, upper), maxBytes)
    {
      var value := NormalOne(lib, values[i], upper);
      if BadFilter(lib, value, maxBytes) {
        assert values[i] in values;
        return None;
      }
      assert values[..i + 1] == values[..i] + [values[i]];
      unique := unique + {value};
    }
    assert values[..|values|] == values;
    return Some(SortedKeys(unique));
  }

  /** The order and the repetition of filter values do not matter, so they do not change a cursor's fingerprint. */
  lemma FilterOrderIrrelevant(lib: Library, a: seq<string>, b: seq<string>, maxItems: nat, maxBytes: nat, upper: bool)
    requires |a| <= maxItems && |b| <= maxItems && NormalSet(lib, a, upper) == NormalSet(lib, b, upper)
    ensures Normalized(lib, a, maxItems, maxBytes, upper) == Normalized(lib, b, maxItems, maxBytes, upper)
  {
    hide TrimSpace, BadFilter, SortedKeys;
    OneSided(lib, a, b, maxItems, maxBytes, upper);
    OneSided(lib, b, a, maxItems, maxBytes, upper);
  }

  lemma OneSided(lib: Library, a: seq<string>, b: seq<string>, maxItems: nat, maxBytes: nat, upper: bool)
    requires |a| <= maxItems && NormalSet(lib, a, upper) == NormalSet(lib, b, upper)
    ensures Acceptable(lib, b, maxItems, maxBytes, upper) ==> Acceptable(lib, a, maxItems, maxBytes, upper)
  {
    hide TrimSpace, BadFilter, NormalOne;
    if Acceptable(lib, b, maxItems, maxBytes, upper) {
      forall v | v in a ensures !BadFilter(lib, NormalOne(lib, v, upper), maxBytes) {
        assert NormalOne(lib, v, upper) in NormalSet(lib, b, upper);
      }
    }
  }

  // ---- the service

  datatype Config = Config(maxRange: int, defaultLimit: nat, maxLimit: nat, maxItems: nat, maxBytes: nat, maxMessageBytes: nat)

  predicate ValidConfig(cfg: Config) { 0 < cfg.maxRange && 0 < cfg.defaultLimit <= cfg.maxLimit }

  /** A request, with its times read; zero stands for no limit and the empty text for no cursor. */
  datatype Params = Params(
    from: int, to: int, services: seq<string>, hosts: seq<string>, levels: seq<string>, message: string,
    limit: int, cursor: string)

  datatype Result = Failed | Found(page: Page, nextCursor: string)

  /** buildQuery: everything but the cursor. */
  ghost function BuildQuery(lib: Library, cfg: Config, projectId: string, ps: Params): Option<Query>
    requires ValidConfig(cfg)
  {
    var limit := if ps.limit == 0 then cfg.defaultLimit else ps.limit;
    var services := Normalized(lib, ps.services, cfg.maxItems, cfg.maxBytes, false);
    var hosts := Normalized(lib, ps.hosts, cfg.maxItems, cfg.maxBytes, false);
    var levels := Normalized(lib, ps.levels, cfg.maxItems, cfg.maxBytes, true);
    var message := TrimSpace(ps.message);
    if ps.from >= ps.to || ps.to - ps.from > cfg.maxRange then None
    else if limit < 1 || limit > cfg.maxLimit then None
    else if services.None? || hosts.None? || levels.None? then None
    else if (0 as char) in message || lib.size(message) > cfg.maxMessageBytes then None
    else Some(Query(projectId, ps.from, ps.to, services.value, hosts.value, levels.value, message, limit, None))
  }

  /** What normalizing a list of filter values refuses. */
  ghost predicate ListAllowed(lib: Library, cfg: Config, values: seq<string>, upper: bool) {
    && |values| <= cfg.maxItems
    && forall v :: v in values ==>
         var t := if upper then lib.upper(TrimSpace(v)) else TrimSpace(v);
         t != "" && (0 as char) !in t && lib.size(t) <= cfg.maxBytes
  }

  /** A filter's values are the trimmed ones of the request, in order and each once. */
  ghost predicate FilterOf(filter: seq<string>, values: seq<string>) {
    && Ascending(filter)
    && (forall t :: t in filter ==> exists v :: v in values && t == TrimSpace(v))
    && (forall v :: v in values ==> TrimSpace(v) in filter)
  }

  ghost predicate UpperFilterOf(lib: Library, filter: seq<string>, values: seq<string>) {
    && Ascending(filter)
    && (forall t :: t in filter ==> exists v :: v in values && t == lib.upper(TrimSpace(v)))
    && (forall v :: v in values ==> lib.upper(TrimSpace(v)) in filter)
  }

  lemma NormalizedExact(lib: Library, cfg: Config, values: seq<string>, upper: bool)
    ensures var r := Normalized(lib, values, cfg.maxItems, cfg.maxBytes, upper);
            && (r.Some? <==> ListAllowed(lib, cfg, values, upper))
            && (r.Some? ==> if upper then UpperFilterOf(lib, r.value, values) else FilterOf(r.value, values))
  {
    hide TrimSpace, SortedKeys, Ascending;
    assert Acceptable(lib, values, cfg.maxItems, cfg.maxBytes, upper) <==> ListAllowed(lib, cfg, values, upper);
    forall v | v in values ensures NormalOne(lib, v, upper) in NormalSet(lib, values, upper) {}
  }

  /** Which request becomes which query, exactly. */
  lemma BuildQueryExact(lib: Library, cfg: Config, projectId: string, ps: Params)
    requires ValidConfig(cfg)
    ensures var q := BuildQuery(lib, cfg, projectId, ps);
            var limit := if ps.limit == 0 then cfg.defaultLimit else ps.limit;
            var message := TrimSpace(ps.message);
            && (q.Some? <==>
                  && ps.from < ps.to <= ps.from + cfg.maxRange && 1 <= limit <= cfg.maxLimit
                  && ListAllowed(lib, cfg, ps.services, false) && ListAllowed(lib, cfg, ps.hosts, false)
                  && ListAllowed(lib, cfg, ps.levels, true)
                  && (0 as char) !in message && lib.size(message) <= cfg.maxMessageBytes)
            && (q.Some? ==>
                  && q.value.projectId == projectId && q.value.from == ps.from && q.value.to == ps.to
                  && FilterOf(q.value.services, ps.services) && FilterOf(q.value.hosts, ps.hosts)
                  && UpperFilterOf(lib, q.value.levels, ps.levels)
                  && q.value.message == message && q.value.limit == limit && q.value.cursor.None?)
  {
    hide TrimSpace, Normalized, ListAllowed, FilterOf, UpperFilterOf;
    NormalizedExact(lib, cfg, ps.services, false);
    NormalizedExact(lib, cfg, ps.hosts, false);
    NormalizedExact(lib, cfg, ps.levels, true);
  }

  function FilterHash(lib: Library, q: Query): Bytes {
    lib.hash(q.from, q.to, q.services, q.hosts, q.levels, q.message)
  }

  /** Everything that a cursor's pages depend on is in the fingerprint: other filters have another one, or collide. */
  lemma FiltersBound(lib: Library, q: Query, r: Query)
    ensures FilterHash(lib, q) == FilterHash(lib, r) ==>
              || ((q.from, q.to) == (r.from, r.to) && (q.services, q.hosts, q.levels) == (r.services, r.hosts, r.levels)
                  && q.message == r.message)
              || ((q.from, q.to, q.services, q.hosts, q.levels, q.message) != (r.from, r.to, r.services, r.hosts, r.levels, r.message)
                  && lib.hash(q.from, q.to, q.services, q.hosts, q.levels, q.message)
                     == lib.hash(r.from, r.to, r.services, r.hosts, r.levels, r.message))
  {}

  /** The position that a request starts from; None when its cursor is refused. */
  function StartOf(lib: Library, projectId: string, q: Query, cursor: string): Option<Option<Cursor>> {
    if cursor == "" then Some(None)
    else
      match Decode(lib, cursor, projectId, FilterHash(lib, q))
      case None => None
      case Some(c) => if q.from <= c.observedAt < q.to then Some(Some(c)) else None
  }

  /** Search, for a principal and a project that may query, on the table of the moment. */
  ghost function SearchOp(lib: Library, cfg: Config, alike: Like.Alike, table: set<Row>, projectId: string, ps: Params): Result
    requires ValidConfig(cfg) && Distinct(table)
  {
    match BuildQuery(lib, cfg, projectId, ps)
    case None => Failed
    case Some(q) =>
      match StartOf(lib, projectId, q, ps.cursor)
      case None => Failed
      case Some(start) =>
        var page := PageAt(alike, table, q.(cursor := start));
        match page.next
        case None => Found(page, "")
        case Some(c) =>
          match Encode(lib, projectId, FilterHash(lib, q), c)
          case None => Failed
          case Some(text) => Found(page, text)
  }

  /** Rows as the database makes them: positive ids of 64 bits, and times that can be written and are not the zero time. */
  ghost predicate RowsOk(lib: Library, table: set<Row>) {
    && Distinct(table)
    && forall r :: r in table ==> 0 < r.id < 0x8000_0000_0000_0000 && r.observedAt != 0 && lib.instant(r.observedAt)
  }

  /** The next cursor of a page is the position of a row on it. */
  lemma NextIsShown(lib: Library, alike: Like.Alike, table: set<Row>, q: Query)
    requires RowsOk(lib, table) && q.limit > 0
    ensures var page := PageAt(alike, table, q);
            page.next.Some? ==> 0 < page.next.value.id < 0x8000_0000_0000_0000
                                && page.next.value.observedAt != 0 && lib.instant(page.next.value.observedAt)
                                && q.from <= page.next.value.observedAt < q.to
  {
    hide Like.Occurs, PageAt;
    PageSplits(alike, table, q);
    var page := PageAt(alike, table, q);
    if page.next.Some? {
      var last := page.entries[|page.entries| - 1];
      assert last in page.entries;
    }
  }

  /**
    A cursor that the service issued is always accepted: for the same project and the same normalized
    filters, in whatever order and with whatever page size, the next request finds the page of rows
    below the last one shown.
  */
  lemma IssuedCursorAccepted(
      lib: Library, cfg: Config, alike: Like.Alike, projectId: string,
      table: set<Row>, first: Params, later: set<Row>, second: Params)
    requires Sound(lib) && ValidConfig(cfg) && RowsOk(lib, table) && RowsOk(lib, later) && lib.validProject(projectId)
    requires var found := SearchOp(lib, cfg, alike, table, projectId, first);
             found.Found? && found.nextCursor != "" && second.cursor == found.nextCursor
    requires var q, q' := BuildQuery(lib, cfg, projectId, first), BuildQuery(lib, cfg, projectId, second);
             q.Some? && q'.Some? && q'.value == q.value.(limit := q'.value.limit)
    ensures var found := SearchOp(lib, cfg, alike, table, projectId, first);
            var again := SearchOp(lib, cfg, alike, later, projectId, second);
            && again.Found? && found.page.next.Some?
            && again.page == PageAt(alike, later, BuildQuery(lib, cfg, projectId, second).value.(cursor := found.page.next))
  {
    hide PageAt, Decode, Encode, Sound, Normalized, TrimSpace;
    var q := BuildQuery(lib, cfg, projectId, first).value;
    var q' := BuildQuery(lib, cfg, projectId, second).value;
    var start := StartOf(lib, projectId, q, first.cursor).value;
    NextIsShown(lib, alike, table, q.(cursor := start));
    var next := PageAt(alike, table, q.(cursor := start)).next.value;
    HashSize(lib, q);
    CursorRoundTrip(lib, projectId, FilterHash(lib, q), next, projectId, FilterHash(lib, q));
    NextIsShown(lib, alike, later, q'.(cursor := Some(next)));
    EncodeWorks(lib, projectId, FilterHash(lib, q));
  }

  lemma CursorNotEmpty(lib: Library, projectId: string, hash: Bytes)
    ensures forall c :: Encode(lib, projectId, hash, c).Some? ==> Encode(lib, projectId, hash, c).value != ""
  {}

  /** Without a cursor the answer is the first page; what cannot become a query fails. */
  lemma FirstPage(lib: Library, cfg: Config, alike: Like.Alike, projectId: string, table: set<Row>, ps: Params)
    requires ValidConfig(cfg) && RowsOk(lib, table) && lib.validProject(projectId) && ps.cursor == ""
    ensures var q := BuildQuery(lib, cfg, projectId, ps);
            var r := SearchOp(lib, cfg, alike, table, projectId, ps);
            && (r.Found? <==> q.Some?)
            && (q.Some? ==> r.page == PageAt(alike, table, q.value) && (r.nextCursor != "" <==> r.page.next.Some?))
  {
    hide PageAt, Decode, Normalized, TrimSpace, RowsOk;
    var q := BuildQuery(lib, cfg, projectId, ps);
    if q.Some? {
      NextIsShown(lib, alike, table, q.value);
      assert q.value.(cursor := None) == q.value;
      CursorNotEmpty(lib, projectId, FilterHash(lib, q.value));
    }
  }

  /** A cursor that another project or other filters were issued, or of a time outside the range, is refused. */
  lemma ForeignCursorRefused(lib: Library, projectId: string, hash: Bytes, position: Cursor, other: string, q: Query)
    requires Sound(lib) && |hash| == 32 && Encode(lib, projectId, hash, position).Some?
    requires lib.instant(position.observedAt) && position.id < 0x8000_0000_0000_0000
    ensures StartOf(lib, other, q, Encode(lib, projectId, hash, position).value)
         == if other == projectId && FilterHash(lib, q) == hash && q.from <= position.observedAt < q.to then Some(Some(position))
            else None
  {
    hide Decode, FilterHash;
    CursorRoundTrip(lib, projectId, hash, position, other, FilterHash(lib, q));
  }

  lemma HashSize(lib: Library, q: Query)
    requires Sound(lib)
    ensures |FilterHash(lib, q)| == 32
  {}

  lemma EncodeWorks(lib: Library, projectId: string, hash: Bytes)
    requires lib.validProject(projectId)
    ensures forall c: Cursor :: c.observedAt != 0 && c.id > 0 ==> Encode(lib, projectId, hash, c).Some?
  {}
}
