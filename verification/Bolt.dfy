/** A bbolt update transaction: the buckets the engine keeps, changed in place. Update
    transactions run one at a time; an error puts every bucket back. */
module Bolt {
  import opened ByteOrder
  import opened Documents
  import opened Storage
  import opened SecondaryIndex

  datatype TextKey = TextKey(collection: Collection, token: Token)

  /** The posting of one token: a nested bucket of ids, or the JSON id list older versions wrote. */
  datatype PostingList = Legacy(list: seq<Id>) | Bucket(ids: set<Id>)

  function Members(p: PostingList): set<Id> {
    match p
    case Legacy(list) => Elements(list)
    case Bucket(ids) => ids
  }

  /** One index bucket: value bucket by encoded value, each holding ids. */
  type ValueBuckets = map<string, set<Id>>

  ghost function Pairs(b: ValueBuckets): set<Entry> {
    set v, id | v in b && id in b[v] :: Entry(v, id)
  }

  ghost function Abstract(buckets: map<string, ValueBuckets>): map<string, set<Entry>> {
    map n | n in buckets :: Pairs(buckets[n])
  }

  ghost function Flatten(postings: map<TextKey, PostingList>): set<Posting> {
    set k, id | k in postings && id in Members(postings[k]) :: Posting(k.collection, k.token, id)
  }

  ghost function TokenSets(reverse: map<DocKey, seq<Token>>): map<DocKey, set<Token>> {
    map k | k in reverse :: Elements(reverse[k])
  }

  ghost predicate NoEmptyValues(buckets: map<string, ValueBuckets>) {
    forall n, v | n in buckets && v in buckets[n] :: buckets[n][v] != {}
  }

  ghost predicate NoEmptyPostings(postings: map<TextKey, PostingList>) {
    forall k | k in postings :: Members(postings[k]) != {}
  }

  /** Everything a rollback restores. */
  datatype Image = Image(
    docs: map<Collection, map<Id, Doc>>, counts: map<Collection, int>,
    ready: map<Collection, seq<Field>>, building: set<Pair>, buckets: map<string, ValueBuckets>,
    config: map<Collection, seq<Field>>, postings: map<TextKey, PostingList>, reverse: map<DocKey, seq<Token>>,
    ttl: Ttl, events: Events)

  class Tx {
    var docs: map<Collection, map<Id, Doc>>
    var counts: map<Collection, int>
    var ready: map<Collection, seq<Field>>
    var building: set<Pair>
    var buckets: map<string, ValueBuckets>
    var config: map<Collection, seq<Field>>
    var postings: map<TextKey, PostingList>
    var reverse: map<DocKey, seq<Token>>
    var ttl: Ttl
    var events: Events

    constructor (i: Image)
      ensures Saved() == i
    {
      docs, counts := i.docs, i.counts;
      ready, building, buckets := i.ready, i.building, i.buckets;
      config, postings, reverse := i.config, i.postings, i.reverse;
      ttl, events := i.ttl, i.events;
    }

    function Saved(): Image
      reads this
    {
      Image(docs, counts, ready, building, buckets, config, postings, reverse, ttl, events)
    }

    ghost function IndexTables(): Indexes
      reads this`ready, this`building, this`buckets
    {
      Indexes(ready, building, Abstract(buckets))
    }

    ghost function TextTables(): Fts
      reads this`config, this`postings, this`reverse
    {
      Fts(config, Flatten(postings), TokenSets(reverse))
    }

    /** The abstract database this transaction sees. */
    ghost function View(): Db
      reads this
    {
      Db(docs, counts, IndexTables(), TextTables(), ttl, events)
    }

    /** No nested bucket is left empty. */
    ghost predicate Compact()
      reads this`buckets, this`postings
    {
      NoEmptyValues(buckets) && NoEmptyPostings(postings)
    }

    method Rollback(i: Image)
      modifies this
      ensures Saved() == i
    {
      docs, counts := i.docs, i.counts;
      ready, building, buckets := i.ready, i.building, i.buckets;
      config, postings, reverse := i.config, i.postings, i.reverse;
      ttl, events := i.ttl, i.events;
    }
  }
}
