/** Paged reads of the public store. A cursor names the revision and the highest sequence of the first
    page, and the last line that was read. */
module Feed {
  import opened Sorting
  import opened Publication
  import opened Wrappers

  /** The part of a public row that a reader can tell apart. */
  datatype Line = Line(publicId: Id, content: Content, revoked: bool, withdrawn: bool)

  function LineOf(r: PublicRow): Line {
    Line(r.publicId, r.content, r.revoked, r.withdrawn)
  }

  function Lines(rows: seq<PublicRow>): seq<Line> {
    seq(|rows|, i requires 0 <= i < |rows| => LineOf(rows[i]))
  }

  /** An empty text or filter asks for everything. */
  datatype Query = Query(
    portfolio: string, text: string, ticker: string, action: string, policy: string,
    lifecycle: string, run: string, since: Option<int>, until: Option<int>)

  datatype Cursor = Cursor(
    revision: nat, highWater: nat, query: Query, exactTicker: int, createdAt: int, publicId: Id)

  datatype Reply =
    | CursorQueryMismatch
    | RestartRequired
    | Page(items: seq<Line>, next: Option<Cursor>, total: nat)

  predicate Keeps(q: Query, l: Line) {
    && l.content.portfolio == q.portfolio && !l.revoked && !l.withdrawn
    && (q.run == "" || l.content.run == q.run)
    && (q.ticker == "" || l.content.ticker == q.ticker)
    && (q.action == "" || l.content.action == q.action)
    && (q.policy == "" || l.content.policy == q.policy)
    && (q.lifecycle == "" || l.content.lifecycle == q.lifecycle)
    && (q.since.None? || q.since.value <= l.content.createdAt)
    && (q.until.None? || l.content.createdAt < q.until.value)
    && (q.text == "" || q.text in l.content.hits)
  }

  function UpperChar(c: char): char {
    if 'a' <= c <= 'z' then (c as int - 32) as char else c
  }

  function Upper(s: string): string {
    seq(|s|, i requires 0 <= i < |s| => UpperChar(s[i]))
  }

  /** A search ranks an exact ticker first; without a search every rank is 0. */
  function Rank(q: Query, l: Line): int {
    if q.text != "" && l.content.ticker == Upper(q.text) then 1 else 0
  }

  predicate LexicallyBelow(a1: int, a2: int, a3: int, b1: int, b2: int, b3: int) {
    a1 < b1 || (a1 == b1 && (a2 < b2 || (a2 == b2 && a3 < b3)))
  }

  /** Line `a` is listed no later than `b`: rank, creation and public identifier descend. */
  predicate ListedBefore(q: Query, a: Line, b: Line) {
    !LexicallyBelow(Rank(q, a), a.content.createdAt, a.publicId,
                    Rank(q, b), b.content.createdAt, b.publicId)
  }

  /** What remains after a cursor. Without a search the rank in the cursor is not looked at. */
  predicate Beyond(q: Query, c: Cursor, l: Line) {
    LexicallyBelow(if q.text == "" then 0 else Rank(q, l), l.content.createdAt, l.publicId,
                   if q.text == "" then 0 else c.exactTicker, c.createdAt, c.publicId)
  }

  function Min(a: nat, b: nat): nat {
    if a < b then a else b
  }

  function Order(q: Query): (Line, Line) -> bool {
    (a, b) => ListedBefore(q, a, b)
  }

  function Kept(q: Query): Line -> bool {
    l => Keeps(q, l)
  }

  function PastCursor(q: Query, c: Cursor): Line -> bool {
    l => Beyond(q, c, l)
  }

  function Matching(lines: seq<Line>, q: Query): seq<Line> {
    Filter(lines, Kept(q))
  }

  function Remaining(lines: seq<Line>, q: Query, cursor: Option<Cursor>): seq<Line> {
    Sort(if cursor.None? then Matching(lines, q)
         else Filter(Matching(lines, q), PastCursor(q, cursor.value)),
         Order(q))
  }

  /** The page cut from the rows that remain: one more row than fits means there is a next page. */
  function Cut(
    rows: seq<Line>, revision: nat, highWater: nat, q: Query, limit: nat, total: nat): Reply
    requires 0 < limit
  {
    if |rows| <= limit then Page(rows, None, total)
    else
      var last := rows[limit - 1];
      Page(rows[..limit],
           Some(Cursor(revision, highWater, q, Rank(q, last), last.content.createdAt, last.publicId)),
           total)
  }

  function Read(t: Target, q: Query, limit: nat, cursor: Option<Cursor>): Reply
    requires 0 < limit
  {
    if cursor.Some? && cursor.value.query != q then CursorQueryMismatch
    else if cursor.Some? && cursor.value.revision != t.revision then RestartRequired
    else
      var highWater := if cursor.Some? then cursor.value.highWater else |t.rows|;
      var lines := Lines(t.rows)[..Min(highWater, |t.rows|)];
      Cut(Remaining(lines, q, cursor), t.revision, highWater, q, limit, |Matching(lines, q)|)
  }
}
