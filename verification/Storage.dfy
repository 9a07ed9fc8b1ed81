/** The abstract database: document buckets and everything derived from them. An absent
    metadata bucket is an empty map or set. */
module Storage {
  import opened ByteOrder
  import opened Documents
  import opened Keys

  datatype Pair = Pair(collection: Collection, field: Field)
  datatype DocKey = DocKey(collection: Collection, id: Id)
  datatype Entry = Entry(value: string, id: Id)
  datatype Posting = Posting(collection: Collection, token: Token, id: Id)

  type Time = t: int | 0 <= t < 0x4000_0000_0000_0000
  type Expiry = t: nat | t < UINT64

  /** `_indexes_meta`, `_indexes_build` and the `_idx_…` buckets, keyed by bucket name. */
  datatype Indexes = Indexes(
    ready: map<Collection, seq<Field>>,
    building: set<Pair>,
    buckets: map<string, set<Entry>>
  )

  /** `_fts_config`, `_fts_index` and `_fts_reverse`. */
  datatype Fts = Fts(
    config: map<Collection, seq<Field>>,
    forward: set<Posting>,
    reverse: map<DocKey, set<Token>>
  )

  /** `__ttl_by_doc__` and the byte keys of `__ttl_index__`. */
  datatype Ttl = Ttl(byDoc: map<DocKey, Expiry>, due: set<string>)

  datatype Action = Insert | Update | Delete
  datatype Event = Event(seqno: nat, action: Action, collection: Collection, id: Id, doc: Option<Doc>)

  datatype Status = Pending | Delivering | Failed
  datatype Delivery = Delivery(event: Event, status: Status, attempts: nat, nextAttemptAt: int, updatedAt: int)

  /** `_events_seq`, `_events_log`, `_webhook_outbox`; `history` is the proof's own record of
      every event ever committed. */
  datatype Events = Events(
    last: nat,
    log: map<nat, Event>,
    outbox: map<nat, Delivery>,
    history: seq<Event>
  )

  datatype Db = Db(
    docs: map<Collection, map<Id, Doc>>,
    counts: map<Collection, int>,
    indexes: Indexes,
    fts: Fts,
    ttl: Ttl,
    events: Events
  )

  const EmptyDb: Db := Db(
    map[], map[],
    Indexes(map[], {}, map[]),
    Fts(map[], {}, map[]),
    Ttl(map[], {}),
    Events(0, map[], map[], [])
  )

  /** The documents of a collection; none when its bucket does not exist. */
  function DocsOf(docs: map<Collection, map<Id, Doc>>, c: Collection): map<Id, Doc> {
    if c in docs then docs[c] else map[]
  }

  predicate Live(docs: map<Collection, map<Id, Doc>>, c: Collection, id: Id) {
    c in docs && id in docs[c]
  }

  /** The document map of one collection after a write (Some) or a removal (None). */
  function Replaced(docs: map<Id, Doc>, id: Id, now: Option<Doc>): map<Id, Doc> {
    match now
    case None => docs - {id}
    case Some(d) => docs[id := d]
  }
}
