/** The three PostgreSQL tables (migrations/0001_init.up.sql) and the statements run on them. */
module Schema {
  import opened Common

  /** A row of `urls`; a link created without a custom code has no code until SetCode. */
  datatype Row = Row(id: nat, code: Option<string>, longURL: string, expiresAt: Option<int>, createdAt: int)

  datatype Dim = Total | Referrer(value: string)

  /** The primary key of `analytics_daily`. */
  datatype Key = Key(url: nat, day: int, dim: Dim)

  /** `rows` and its identity sequence, the counters, and the claimed analytics event ids. */
  datatype Db = Db(rows: map<nat, Row>, nextId: nat, counts: map<Key, nat>, claims: set<nat>)

  datatype Refusal = Conflict | NotFound | Rejected

  datatype Reply<+T> = Done(value: T) | Refused(why: Refusal)

  const EMPTY := Db(map[], 1, map[], {})
  const MAX_ID := 0x7FFF_FFFF_FFFF_FFFF

  predicate CodeChar(c: char) {
    'A' <= c <= 'Z' || 'a' <= c <= 'z' || '0' <= c <= '9' || c == '_' || c == '-'
  }

  predicate CodeFormat(code: string) {
    1 <= |code| <= 32 && forall c | c in code :: CodeChar(c)
  }

  predicate UrlFormat(longURL: string) {
    1 <= |longURL| <= 2048
  }

  /** What the schema guarantees of every reachable content: ids come from the sequence,
      no two rows share a code, and every counter belongs to a live row. */
  ghost predicate Consistent(db: Db) {
    && 1 <= db.nextId
    && (forall id | id in db.rows :: db.rows[id].id == id && 1 <= id < db.nextId && id <= MAX_ID)
    && (forall i, j | i in db.rows && j in db.rows && db.rows[i].code.Some? && db.rows[i].code == db.rows[j].code ::
          i == j)
    && (forall k | k in db.counts :: k.url in db.rows)
  }

  /** The two checks on `urls`. */
  ghost predicate Formatted(db: Db) {
    forall id | id in db.rows ::
      && 1 <= |db.rows[id].longURL| <= 2048
      && (db.rows[id].code.Some? ==>
            var code := db.rows[id].code.value;
            && 1 <= |code| <= 32
            && forall c | c in code :: 'a' <= c <= 'z' || 'A' <= c <= 'Z' || '0' <= c <= '9' || c == '_' || c == '-')
  }

  ghost predicate Taken(db: Db, code: string) {
    exists id | id in db.rows :: db.rows[id].code == Some(code)
  }

  /** SELECT ... FROM urls WHERE code = $1. */
  ghost function Find(db: Db, code: string): (r: Option<Row>)
    ensures r.None? <==> !Taken(db, code)
    ensures r.Some? ==> r.value.code == Some(code) && exists id | id in db.rows :: db.rows[id] == r.value
  {
    if Taken(db, code) then
      var id :| id in db.rows && db.rows[id].code == Some(code);
      Some(db.rows[id])
    else None
  }

  lemma FindIs(db: Db, id: nat, code: string)
    requires Consistent(db) && id in db.rows && db.rows[id].code == Some(code)
    ensures Find(db, code) == Some(db.rows[id])
  {}

  /** INSERT INTO urls ... RETURNING id. The sequence advances even when the row is refused. */
  ghost function Insert(db: Db, code: Option<string>, longURL: string, expiresAt: Option<int>, now: int)
    : (Db, Reply<nat>)
  {
    if db.nextId > MAX_ID then (db, Refused(Rejected))
    else
      var id := db.nextId;
      var spent := db.(nextId := id + 1);
      if !UrlFormat(longURL) || (code.Some? && !CodeFormat(code.value)) then (spent, Refused(Rejected))
      else if code.Some? && Taken(db, code.value) then (spent, Refused(Conflict))
      else (spent.(rows := db.rows[id := Row(id, code, longURL, expiresAt, now)]), Done(id))
  }

  /** UPDATE urls SET code = $1 WHERE id = $2. */
  ghost function Assign(db: Db, id: nat, code: string): (Db, Reply<()>) {
    if id !in db.rows then (db, Refused(NotFound))
    else if !CodeFormat(code) then (db, Refused(Rejected))
    else if db.rows[id].code != Some(code) && Taken(db, code) then (db, Refused(Conflict))
    else (db.(rows := db.rows[id := db.rows[id].(code := Some(code))]), Done(()))
  }

  /** Counters of other urls survive the cascade of a delete. */
  function Cascade(counts: map<Key, nat>, url: nat): map<Key, nat> {
    counts - (set k | k in counts && k.url == url)
  }

  /** DELETE FROM urls WHERE code = $1, with ON DELETE CASCADE. */
  ghost function Delete(db: Db, code: string): (Db, Reply<()>) {
    match Find(db, code)
    case None => (db, Refused(NotFound))
    case Some(row) => (db.(rows := db.rows - {row.id}, counts := Cascade(db.counts, row.id)), Done(()))
  }

  function Count(counts: map<Key, nat>, k: Key): nat {
    if k in counts then counts[k] else 0
  }

  /** INSERT INTO analytics_daily ... ON CONFLICT DO UPDATE SET count = count + 1, under the foreign key. */
  ghost function Upsert(db: Db, k: Key): (Db, Reply<()>) {
    if k.url !in db.rows then (db, Refused(Rejected))
    else (db.(counts := db.counts[k := Count(db.counts, k) + 1]), Done(()))
  }

  /** INSERT INTO idempotency_records ... ON CONFLICT DO NOTHING: true when the row is new. */
  ghost function Claim(db: Db, event: nat): (Db, bool) {
    (db.(claims := db.claims + {event}), event !in db.claims)
  }

  lemma InsertKeeps(db: Db, code: Option<string>, longURL: string, expiresAt: Option<int>, now: int)
    requires Consistent(db)
    ensures Consistent(Insert(db, code, longURL, expiresAt, now).0)
    ensures Formatted(db) ==> Formatted(Insert(db, code, longURL, expiresAt, now).0)
  {
    if Formatted(db) { InsertFormats(db, code, longURL, expiresAt, now); }
  }

  lemma InsertFormats(db: Db, code: Option<string>, longURL: string, expiresAt: Option<int>, now: int)
    requires Formatted(db)
    ensures Formatted(Insert(db, code, longURL, expiresAt, now).0)
  {}

  lemma AssignKeeps(db: Db, id: nat, code: string)
    requires Consistent(db)
    ensures Consistent(Assign(db, id, code).0)
    ensures Formatted(db) ==> Formatted(Assign(db, id, code).0)
  {
    if Formatted(db) { AssignFormats(db, id, code); }
  }

  lemma AssignFormats(db: Db, id: nat, code: string)
    requires Formatted(db)
    ensures Formatted(Assign(db, id, code).0)
  {}

  lemma DeleteKeeps(db: Db, code: string)
    requires Consistent(db)
    ensures Consistent(Delete(db, code).0)
  {}

  /** internal/repository/url_repo.go over the tables it talks to. */
  class Database {
    var rows: map<nat, Row>
    var nextId: nat
    var counts: map<Key, nat>
    var claims: set<nat>

    ghost function View(): Db
      reads this
    {
      Db(rows, nextId, counts, claims)
    }

    constructor ()
      ensures View() == EMPTY
    {
      rows, nextId, counts, claims := map[], 1, map[], {};
    }

    method Create(longURL: string, expiresAt: Option<int>, now: int) returns (r: Reply<nat>)
      modifies this
      ensures (View(), r) == Insert(old(View()), None, longURL, expiresAt, now)
    {
      if nextId > MAX_ID { return Refused(Rejected); }
      var id := nextId;
      nextId := nextId + 1;
      if !UrlFormat(longURL) { return Refused(Rejected); }
      rows := rows[id := Row(id, None, longURL, expiresAt, now)];
      return Done(id);
    }

    method CreateWithCode(code: string, longURL: string, expiresAt: Option<int>, now: int) returns (r: Reply<nat>)
      modifies this
      ensures (View(), r) == Insert(old(View()), Some(code), longURL, expiresAt, now)
    {
      if nextId > MAX_ID { return Refused(Rejected); }
      var id := nextId;
      nextId := nextId + 1;
      if !UrlFormat(longURL) || !CodeFormat(code) { return Refused(Rejected); }
      if exists i | i in rows :: rows[i].code == Some(code) { return Refused(Conflict); }
      rows := rows[id := Row(id, Some(code), longURL, expiresAt, now)];
      return Done(id);
    }

    method SetCode(id: nat, code: string) returns (r: Reply<()>)
      modifies this
      ensures (View(), r) == Assign(old(View()), id, code)
    {
      if id !in rows { return Refused(NotFound); }
      if !CodeFormat(code) { return Refused(Rejected); }
      if rows[id].code != Some(code) && exists i | i in rows :: rows[i].code == Some(code) {
        return Refused(Conflict);
      }
      rows := rows[id := rows[id].(code := Some(code))];
      return Done(());
    }

    method GetByCode(code: string) returns (r: Option<Row>)
      requires Consistent(View())
      ensures r == Find(View(), code)
    {
      if i :| i in rows && rows[i].code == Some(code) {
        FindIs(View(), i, code);
        return Some(rows[i]);
      }
      return None;
    }

    method DeleteByCode(code: string) returns (r: Reply<()>)
      requires Consistent(View())
      modifies this
      ensures (View(), r) == Delete(old(View()), code)
      ensures Consistent(View())
    {
      var row := GetByCode(code);
      if row.None? { return Refused(NotFound); }
      DeleteKeeps(View(), code);
      rows := rows - {row.value.id};
      counts := Cascade(counts, row.value.id);
      return Done(());
    }

    method ClaimEvent(event: nat) returns (first: bool)
      modifies this`claims
      ensures (View(), first) == Claim(old(View()), event)
    {
      first := event !in claims;
      claims := claims + {event};
    }

    method Bump(k: Key) returns (r: Reply<()>)
      modifies this`counts
      ensures (View(), r) == Upsert(old(View()), k)
    {
      if k.url !in rows { return Refused(Rejected); }
      counts := counts[k := Count(counts, k) + 1];
      return Done(());
    }
  }
}
