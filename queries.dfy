/** The queries the exporter sends to the store, the shadow-table ("wisps")
    switch, and the store itself as an oracle that answers them. */
module Queries {
  import opened Common
  import opened Values

  /** SELECT <entity's columns> FROM t1 [WHERE id > ?] UNION ALL SELECT ...
      FROM t2 [WHERE id > ?] ... ORDER BY <entity's key>. When idAbove is
      present every branch carries the filter and the watermark is bound once
      per branch. */
  datatype Query = Query(entity: Entity, tables: seq<string>, idAbove: Option<int64>)

  /** The SELECT of one branch of a query. */
  function Branch(q: Query, table: string): string
  {
    "SELECT " + Projection(q.entity) + " FROM " + table + (if q.idAbove.Some? then " WHERE id > ?" else "")
  }

  /** The branches joined by UNION ALL. */
  function Branches(q: Query, tables: seq<string>): string
  {
    if |tables| == 0 then ""
    else if |tables| == 1 then Branch(q, tables[0])
    else Branch(q, tables[0]) + " UNION ALL " + Branches(q, tables[1..])
  }

  /** The statement text sent to the store. */
  function Sql(q: Query): string
  {
    Branches(q, q.tables) + " ORDER BY " + OrderKey(q.entity)
  }

  /** The arguments bound to the placeholders: the watermark once per branch. */
  function Args(q: Query): (r: seq<int64>)
    ensures q.idAbove.None? ==> r == []
    ensures q.idAbove.Some? ==> |r| == |q.tables| && forall i :: 0 <= i < |r| ==> r[i] == q.idAbove.value
  {
    if q.idAbove.None? then [] else seq(|q.tables|, _ => q.idAbove.value)
  }

  /** The base table of each entity. */
  function BaseTable(e: Entity): string
  {
    match e
    case Issues => "issues"
    case Events => "events"
    case Comments => "comments"
    case Dependencies => "dependencies"
    case Labels => "labels"
    case Config => "config"
  }

  /** The shadow table merged into an entity's export when wisps exist;
      config has none. */
  function WispTable(e: Entity): Option<string>
  {
    match e
    case Issues => Some("wisps")
    case Events => Some("wisp_events")
    case Comments => Some("wisp_comments")
    case Dependencies => Some("wisp_dependencies")
    case Labels => Some("wisp_labels")
    case Config => None
  }

  function Projection(e: Entity): string
  {
    match e
    case Issues => "*"
    case Events => "id, issue_id, event_type, actor, old_value, new_value, comment, created_at"
    case Comments => "id, issue_id, author, text, created_at"
    case Dependencies => "issue_id, depends_on_id, type, created_at, created_by"
    case Labels => "issue_id, label"
    case Config => "`key`, value"
  }

  function OrderKey(e: Entity): string
  {
    match e
    case Issues => "id"
    case Events => "id ASC"
    case Comments => "id"
    case Dependencies => "issue_id, depends_on_id"
    case Labels => "issue_id, label"
    case Config => "`key`"
  }

  /** The tables an entity's query reads: the base table, then its shadow
      table when wisps exist and the entity has one. */
  function Sources(e: Entity, hasWisps: bool): (r: seq<string>)
    ensures 1 <= |r| <= 2 && r[0] == BaseTable(e)
    ensures |r| == 2 <==> hasWisps && WispTable(e).Some?
    ensures |r| == 2 ==> r[1] == WispTable(e).value
  {
    if hasWisps && WispTable(e).Some? then [BaseTable(e), WispTable(e).value] else [BaseTable(e)]
  }

  /** The full-snapshot query of every entity but events. */
  function SnapshotQuery(e: Entity, hasWisps: bool): (q: Query)
    requires e != Events
    ensures q.entity == e && q.tables == Sources(e, hasWisps) && q.idAbove.None?
  {
    Query(e, Sources(e, hasWisps), None)
  }

  /** The incremental events query: only ids above the watermark, from events
      and, when wisps exist, wisp_events. */
  function EventsQuery(hasWisps: bool, watermark: int64): (q: Query)
    ensures q.entity == Events && q.tables == Sources(Events, hasWisps) && q.idAbove == Some(watermark)
    ensures Args(q) == if hasWisps then [watermark, watermark] else [watermark]
  {
    Query(Events, Sources(Events, hasWisps), Some(watermark))
  }

  /** The wisps switch changes only the tables read: projection, filter and
      ordering key are the same with and without the shadow table, and the
      merged query is the base branch UNION ALL the shadow branch. */
  lemma WispsOnlyAddShadowBranch(e: Entity, watermark: int64)
    requires e != Config
    ensures var with := if e == Events then EventsQuery(true, watermark) else SnapshotQuery(e, true);
            var without := if e == Events then EventsQuery(false, watermark) else SnapshotQuery(e, false);
            with == without.(tables := without.tables + [WispTable(e).value])
            && Sql(with) == Branch(without, BaseTable(e)) + " UNION ALL " + Branch(without, WispTable(e).value)
                            + " ORDER BY " + OrderKey(e)
  {
    var with := if e == Events then EventsQuery(true, watermark) else SnapshotQuery(e, true);
    var without := if e == Events then EventsQuery(false, watermark) else SnapshotQuery(e, false);
    assert Branch(with, BaseTable(e)) == Branch(without, BaseTable(e));
    assert Branch(with, WispTable(e).value) == Branch(without, WispTable(e).value);
    TwoBranches(with, BaseTable(e), WispTable(e).value);
  }

  /** Config has no shadow table: with or without wisps its statement is a
      single branch over config. */
  lemma ConfigNeverShadowed(hasWisps: bool)
    ensures SnapshotQuery(Config, hasWisps) == SnapshotQuery(Config, false)
    ensures Sql(SnapshotQuery(Config, hasWisps)) == Branch(SnapshotQuery(Config, false), "config") + " ORDER BY " + OrderKey(Config)
  {
  }

  lemma TwoBranches(q: Query, a: string, b: string)
    ensures Branches(q, [a, b]) == Branch(q, a) + " UNION ALL " + Branch(q, b)
  {
    assert [a, b][1..] == [b];
  }

  /** Rendered, the issues query without the shadow table is the exporter's
      statement character for character. */
  lemma IssuesStatementText()
    ensures Sql(SnapshotQuery(Issues, false)) == "SELECT * FROM issues ORDER BY id"
  {
  }

  /** One step of rows.Next()/rows.Scan(): the driver's tuple, or a scan error. */
  datatype Scan = Scanned(values: seq<Value>) | ScanError

  /** What the store answers to a query: QueryContext fails, rows.Columns()
      fails, or the column names, the tuples in the store's order, and whether
      rows.Err() reports an error once rows.Next() returns false. */
  datatype QueryResult =
    | QueryError
    | ColumnsError
    | Rows(columns: seq<string>, scans: seq<Scan>, iterationError: bool)

  /** The store as the exporter sees it: answers to queries, the tables
      tableExistsCheck finds (a failing metadata query finds none), and the
      two reads of the current commit (None: GetCurrentCommit fails). The
      store may advance between the two reads. */
  datatype Store = Store(
    answer: Query -> QueryResult,
    tables: set<string>,
    commitAtCheck: Option<string>,
    commitAtEnd: Option<string>)
  {
    /** tableExistsCheck. */
    predicate TableExists(name: string)
    {
      name in tables
    }
  }
}
