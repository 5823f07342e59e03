/** The processed-events store of src/db.ts: a lazily connected, cached
    database client, a once-per-connection check of the TTL index, and
    the collection of processed Slack event ids.

    The database is not contacted: each remote call's success is a boolean
    parameter, and the collection and its index are fields of the store. */
module Db {
  import opened Wrappers

  const DbName: string := "slack-jira-agent"
  const ProcessedEventsCollection: string := "slack_processed_events"
  const TtlIndexName: string := "processed_at_ttl_index"

  /** Seven days. */
  const EventExpirationSeconds: nat := 7 * 24 * 60 * 60

  /** A connected client; `serial` tells apart the clients the store has
      created. */
  datatype Client = Client(serial: nat)

  /** An index of the collection: its name, its key field and its expiry. */
  datatype Index = Index(name: string, field: string, expireAfterSeconds: nat)

  /** The TTL index the store creates. */
  const TtlIndex: Index := Index(TtlIndexName, "processed_at", EventExpirationSeconds)

  /** How the remote calls of one store operation turn out: the connect,
      the index existence check, the index creation, the lookup and the
      insert. */
  datatype DbOutcomes = DbOutcomes(connectOk: bool, indexCheckOk: bool, indexCreateOk: bool,
                                   findOk: bool, insertOk: bool)

  /** The store's connection state: the cached client, how many clients
      have been created, whether the index has been ensured on this
      connection, and the collection's TTL index. */
  datatype Connection = Connection(client: Option<Client>, created: nat, indexEnsured: bool, ttlIndex: Option<Index>)

  /** What `getMongoClient` does to the connection state: without a URI or
      with a cached client nothing changes; otherwise a new client is
      created, and cached with the index ensured only when it connects. */
  function Connect(uri: Option<string>, c: Connection, db: DbOutcomes): (r: Connection)
    ensures r.client.Some? <==> c.client.Some? || (Truthy(uri) && db.connectOk)
    ensures !Truthy(uri) || c.client.Some? ==> r == c
    ensures r.created == c.created + (if Truthy(uri) && c.client.None? then 1 else 0)
    ensures c.client.None? && r.client.Some? ==> r.client.value.serial == c.created
    ensures r.client.None? ==> r.indexEnsured == c.indexEnsured && r.ttlIndex == c.ttlIndex
  {
    if !Truthy(uri) || c.client.Some? then c
    else if !db.connectOk then c.(created := c.created + 1)
    else
      Connection(Some(Client(c.created)), c.created + 1,
                 db.indexCheckOk && (c.ttlIndex.Some? || db.indexCreateOk),
                 if db.indexCheckOk && db.indexCreateOk then Some(TtlIndex) else c.ttlIndex)
  }

  /** Once connected, the client is reused: a later connect changes nothing,
      whatever its outcomes would have been. */
  lemma ConnectReuses(uri: Option<string>, c: Connection, first: DbOutcomes, later: DbOutcomes)
    requires Connect(uri, c, first).client.Some?
    ensures Connect(uri, Connect(uri, c, first), later) == Connect(uri, c, first)
  {
  }

  lemma ExpirationIsOneWeek()
    ensures EventExpirationSeconds == 604800
  {
  }

  class ProcessedEventsStore {
    /** `MONGODB_URI`, read once when the module loads. */
    const uri: Option<string>
    /** `mongoClient`: the cached client, if connected. */
    var client: Option<Client>
    /** `indexEnsured`: the TTL index has been checked on this connection. */
    var indexEnsured: bool
    /** How many clients have been created. */
    var created: nat
    /** The collection's documents, by their `event_id` (None for a document
        stored without one). */
    var processed: set<Option<string>>
    /** The collection's TTL index, if it exists. */
    var ttlIndex: Option<Index>

    /** A client exists only when a URI is configured; the index flag is
        set only while connected, and only once the index exists; cached
        clients are ones the store created. */
    ghost predicate Valid()
      reads this
    {
      && (client.Some? ==> Truthy(uri) && client.value.serial < created)
      && (indexEnsured ==> client.Some? && ttlIndex == Some(TtlIndex))
      && (ttlIndex.Some? ==> ttlIndex == Some(TtlIndex))
    }

    /** Module load: nothing cached; `processed` and `ttlIndex` are the
        database as found. */
    constructor (uri: Option<string>, processed: set<Option<string>>, ttlIndex: Option<Index>)
      requires ttlIndex.Some? ==> ttlIndex == Some(TtlIndex)
      ensures Valid()
      ensures this.uri == uri && client.None? && !indexEnsured && created == 0
      ensures this.processed == processed && this.ttlIndex == ttlIndex
    {
      this.uri := uri;
      client := None;
      indexEnsured := false;
      created := 0;
      this.processed := processed;
      this.ttlIndex := ttlIndex;
    }

    /** Whether an operation gets a client: a URI is configured and a
        client is cached or the connect succeeds. */
    predicate Reachable(connectOk: bool)
      reads this
    {
      Truthy(uri) && (client.Some? || connectOk)
    }

    /** `ensureProcessedEventsIndex`: once ensured, nothing happens; else
        the index is created if the check finds it missing, and the flag is
        set only when the check (and any creation) succeeded. Errors are
        swallowed. */
    method EnsureIndex(checkOk: bool, createOk: bool)
      requires Valid() && client.Some?
      modifies this`indexEnsured, this`ttlIndex
      ensures Valid()
      ensures old(indexEnsured) ==> indexEnsured && ttlIndex == old(ttlIndex)
      ensures !old(indexEnsured) ==>
                && indexEnsured == (checkOk && (old(ttlIndex).Some? || createOk))
                && ttlIndex == (if checkOk && createOk then Some(TtlIndex) else old(ttlIndex))
    {
      if indexEnsured {
        return;
      }
      if !checkOk {
        return;
      }
      if ttlIndex.None? {
        if !createOk {
          return;
        }
        ttlIndex := Some(TtlIndex);
      }
      indexEnsured := true;
    }

    /** The connection part of the store's state. */
    function Conn(): Connection
      reads this
    {
      Connection(client, created, indexEnsured, ttlIndex)
    }

    /** Obtaining a client changed the connection state as `getMongoClient`
        does. */
    twostate predicate ClientStep(db: DbOutcomes)
      reads this
    {
      Conn() == Connect(uri, old(Conn()), db)
    }

    /** `getMongoClient`: nothing without a URI; the cached client if there
        is one; otherwise a new client, cached only once it has connected,
        after which the index is ensured. */
    method GetClient(db: DbOutcomes) returns (c: Option<Client>)
      requires Valid()
      modifies this`client, this`created, this`indexEnsured, this`ttlIndex
      ensures Valid()
      ensures c.Some? <==> old(Reachable(db.connectOk))
      ensures c == client && processed == old(processed)
      ensures !Truthy(uri) ==> unchanged(this)
      ensures old(client).Some? ==> c == old(client) && unchanged(this)
      ensures ClientStep(db)
    {
      if !Truthy(uri) {
        return None;
      }
      if client.Some? {
        return client;
      }
      var newClient := Client(created);
      created := created + 1;
      if !db.connectOk {
        client := None;
        return None;
      }
      client := Some(newClient);
      EnsureIndex(db.indexCheckOk, db.indexCreateOk);
      c := client;
    }

    /** `isEventProcessed`: true exactly when a client was obtained, the
        lookup succeeded and a document has the event id. */
    method IsEventProcessed(eventId: Option<string>, db: DbOutcomes) returns (found: bool)
      requires Valid()
      modifies this`client, this`created, this`indexEnsured, this`ttlIndex
      ensures Valid()
      ensures found <==> old(Reachable(db.connectOk)) && db.findOk && eventId in processed
      ensures processed == old(processed)
      ensures client.Some? <==> old(Reachable(db.connectOk))
      ensures ClientStep(db)
      ensures !Truthy(uri) || old(client).Some? ==> unchanged(this)
    {
      var c := GetClient(db);
      if c.None? {
        return false;
      }
      if !db.findOk {
        return false;
      }
      found := eventId in processed;
    }

    /** `markEventAsProcessed`: with a client and a successful insert the
        event id is stored; otherwise nothing is. */
    method MarkEventAsProcessed(eventId: Option<string>, db: DbOutcomes)
      requires Valid()
      modifies this
      ensures Valid()
      ensures processed == if old(Reachable(db.connectOk)) && db.insertOk
                           then old(processed) + {eventId} else old(processed)
      ensures client.Some? <==> old(Reachable(db.connectOk))
      ensures ClientStep(db)
      ensures !Truthy(uri) ==> unchanged(this)
    {
      var c := GetClient(db);
      if c.None? {
        return;
      }
      if db.insertOk {
        processed := processed + {eventId};
      }
    }

    /** `closeMongoClient`: a successful close forgets the client and the
        index flag; a failed one, or no client, changes nothing. */
    method Close(closeOk: bool)
      requires Valid()
      modifies this`client, this`indexEnsured
      ensures Valid()
      ensures old(client).Some? && closeOk ==> client.None? && !indexEnsured
      ensures !(old(client).Some? && closeOk) ==> unchanged(this)
    {
      if client.Some? && closeOk {
        client := None;
        indexEnsured := false;
      }
    }
  }

  /** Marking an event and then asking for it, with both database calls
      succeeding, finds it. */
  method MarkThenCheck(store: ProcessedEventsStore, eventId: Option<string>, mark: DbOutcomes, check: DbOutcomes)
      returns (found: bool)
    requires store.Valid() && Truthy(store.uri)
    requires mark.connectOk && mark.insertOk && check.findOk
    modifies store
    ensures store.Valid()
    ensures found
  {
    store.MarkEventAsProcessed(eventId, mark);
    found := store.IsEventProcessed(eventId, check);
  }

  /** Without a URI the store is inert: lookups say false and marks store
      nothing. */
  method Unconfigured(store: ProcessedEventsStore, eventId: Option<string>, db: DbOutcomes)
      returns (found: bool)
    requires store.Valid() && !Truthy(store.uri)
    modifies store
    ensures store.Valid()
    ensures !found && unchanged(store)
  {
    store.MarkEventAsProcessed(eventId, db);
    found := store.IsEventProcessed(eventId, db);
  }
}
