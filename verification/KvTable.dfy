// The kv table as a relation: rows under the UNIQUE key (ekey, owner_id,
// realm), the four prepared statements, and the writes the HTTP API issues.
module KvTable {
  import opened Text
  import opened Base64

  /** The columns of the unique index. */
  datatype Slot = Slot(key: string, owner: string, realm: string)

  /** The other columns. The row id is not read by any statement. */
  datatype Cell = Cell(client: string, collection: Option<string>, value: seq<Byte>, contentType: string, scopes: string)

  datatype Row = Row(slot: Slot, cell: Cell)

  type Contents = map<Slot, Cell>

  /** Who asks: the authenticated user and the audience of the access token. */
  datatype User = User(owner: string, client: string)

  const LIMIT: nat := 500

  predicate Unique(rows: seq<Row>) {
    forall i, j :: 0 <= i < j < |rows| ==> rows[i].slot != rows[j].slot
  }

  /** The table as a map: what any statement can learn from it. */
  ghost function ContentsOf(rows: seq<Row>): (m: Contents)
    requires Unique(rows)
    ensures forall r :: r in rows ==> r.slot in m && m[r.slot] == r.cell
    ensures forall s :: s in m ==> Row(s, m[s]) in rows
  {
    map r | r in rows :: r.slot := r.cell
  }

  // ---- Statements ----

  datatype Query = ByKey(key: string) | ByCollection(name: string)

  /** The WHERE clauses of the two SELECT statements. NULL equals nothing. */
  predicate Selects(q: Query, u: User, realm: string, s: Slot, c: Cell) {
    && s.owner == u.owner && c.client == u.client && s.realm == realm
    && match q
       case ByKey(key) => s.key == key
       case ByCollection(name) => c.collection == Some(name)
  }

  ghost function Matching(m: Contents, q: Query, u: User, realm: string): set<Slot> {
    set s | s in m && Selects(q, u, realm, s, m[s])
  }

  function Min(a: nat, b: nat): nat { if a < b then a else b }

  /** LIMIT 500 without ORDER BY: as many of the matching rows as the limit allows, whichever. */
  ghost predicate Limited(all: set<Slot>, got: set<Slot>) {
    got <= all && |got| == Min(LIMIT, |all|)
  }

  ghost function Removed(m: Contents, u: User, realm: string, key: string): Contents {
    m - Matching(m, ByKey(key), u, realm)
  }

  // ---- What the HTTP API does to the table ----

  /** The collection a single PUT stores. */
  function PutCollection(key: string): string {
    var parts := SplitSlash(key);
    if |parts| > 1 then parts[0] else ""
  }

  /** The collection a batch PUT stores with every record, and the one a recursive GET asks for. */
  function FirstPart(key: string): string {
    SplitSlash(key)[0]
  }

  function BatchKey(prefix: string, key: string): string {
    prefix + "/" + key
  }

  datatype Item = Item(key: string, value: seq<Byte>, contentType: string)

  datatype Op =
    | Put(user: User, realm: string, key: string, value: seq<Byte>, contentType: string)
    | Batch(user: User, realm: string, prefix: string, items: seq<Item>)
    | Delete(user: User, realm: string, key: string)

  ghost function PutItem(m: Contents, u: User, realm: string, key: string, collection: string, value: seq<Byte>, contentType: string): Contents {
    m[Slot(key, u.owner, realm) := Cell(u.client, Some(collection), value, contentType, "")]
  }

  ghost function PutItems(m: Contents, u: User, realm: string, prefix: string, items: seq<Item>): Contents
    decreases |items|
  {
    if items == [] then m
    else
      var it := items[|items| - 1];
      PutItem(PutItems(m, u, realm, prefix, items[..|items| - 1]), u, realm,
              BatchKey(prefix, it.key), FirstPart(prefix), it.value, it.contentType)
  }

  ghost function Apply(m: Contents, op: Op): Contents {
    match op
    case Put(u, realm, key, value, contentType) => PutItem(m, u, realm, key, PutCollection(key), value, contentType)
    case Batch(u, realm, prefix, items) => PutItems(m, u, realm, prefix, items)
    case Delete(u, realm, key) => Removed(m, u, realm, key)
  }

  ghost function ApplyAll(m: Contents, ops: seq<Op>): Contents
    decreases |ops|
  {
    if ops == [] then m else Apply(ApplyAll(m, ops[..|ops| - 1]), ops[|ops| - 1])
  }

  /** The contents after a run that starts from the empty table. */
  ghost function Run(ops: seq<Op>): Contents {
    ApplyAll(map[], ops)
  }
}
