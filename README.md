# Order cache, service and ingestion of wbTestCase, in Dafny

This project models the sequential core of the wbTestCase order system. Orders arrive on a Kafka topic. They are validated, written to a PostgreSQL store and written through to an in-memory LRU cache. An HTTP handler answers `GET /orders/{order_uid}` from the cache, falling back to the store.

The model has five parts, each proved against pure functions:

- **The LRU cache** (`cache/cache.go`). `OrderCache.Cache` is a class with the source's fields: `data`, `capacity`, `size`, `head` and `tail`.
  - The doubly linked list is kept in the key table. A node's `prev`/`next` name its neighbours by key, and `None` stands for nil.
  - A ghost `keys` lists the nodes from head to tail.
  - Every method rewires the same links the Go code rewires. Each is proved to act on its abstract state as the functions of module `Lru` say.
  - The lemmas of `Lru` state the LRU rules: eviction at the tail, promotion to the head, and the bound. `Lru.RunKeepsMostRecent` states the whole-history property: the cache holds the most recently touched keys.
- **The validator** (`ValidateOrder`, `validateItem`). Pure functions over a fixed order of checks; the first failing check decides the result.
- **The service** (`CreateOrder`, `GetOrder`, `LoadCache`). `Service.Service` calls a repository object and the cache object.
  - `Repository.Repo` stands in for the database: a table of orders plus the identifiers in `date_created DESC` order.
  - Database failures are `fault` parameters.
- **The Kafka consumer** (`Start`, `handleMessage`, `sendToDLQ`). `Ingestion.Consumer` calls the real service model.
  - The broker is a finite script of polls. Each record carries the outcome of each attempt: the store fault and whether the context is cancelled.
  - Each method returns, as a ghost sequence of events, what it did to the outside world: handled records, CreateOrder calls, dead letters and commits.
  - Each method is proved to follow the pure functions `Drive`, `RunBatch` and `RunPolls`. The service's new state is the fold `Apply` of those events.
- **The HTTP handler** (`Handler.GetOrder`, `handleHTTPErr`). Pure functions from the identifier and the service's answer to a response and the updated request counters.

Files:
- `wrappers.dfy`: Option and Result.
- `orders.dfy`: the order values and the error kinds.
- `lru.dfy`: the abstract cache.
- `cache.dfy`: the cache class.
- `validation.dfy`: the validator.
- `repository.dfy`: the store.
- `service.dfy`: the service.
- `consumer.dfy`: the consumer.
- `server.dfy`: the HTTP handler.

## Model

| member | source | states |
|---|---|---|
| Lru.Empty | cache/cache.go:25-30 | a new cache is well formed and holds nothing |
| Lru.Bound | cache/cache.go:55-60 | the most entries a cache holds is its capacity, but never less than one |
| Lru.LookupHit | cache/cache.go:32-43 | a hit returns the stored order and moves the key to the head; the table, the key set and the length are unchanged; the state stays well formed |
| Lru.LookupMiss | cache/cache.go:35-39 | a miss returns nothing and leaves the state exactly as it was |
| Lru.PutWF | cache/cache.go:45-61 | Set keeps the table and list consistent and within the bound; the key ends at the head holding the new order |
| Lru.PutHit | cache/cache.go:48-53 | Set of a cached key replaces its order, moves it to the head, and keeps the key set and the size |
| Lru.PutEvictsTail | cache/cache.go:55-60 | Set of a new key on a full cache evicts exactly the tail, the least recently used key, and keeps the size |
| Lru.PutWithRoom | cache/cache.go:55-60 | Set of a new key below capacity evicts nothing and adds the key at the head |
| Lru.PutIsPromoteThenTake | cache/cache.go:45-61 | Set is the same as moving the key to the front and keeping the first Bound(capacity) keys |
| Lru.EvictWF | cache/cache.go:100-115 | deleteBottom keeps consistency and removes exactly one entry when there is one |
| Lru.RunKeepsMostRecent | cache/cache.go:32-61 | after any sequence of Get and Set from empty, the list is exactly the Bound(capacity) most recently touched keys, newest first |
| Lru.ScenarioCapacityThree | cache/cache.go:32-61 | capacity 3: Set A, B, C, Get A, Set D leaves D, A, C, and B is evicted |
| Lru.LoadCount | cache/cache.go:63-73 | LoadFull adds no more orders than it is given and stops at capacity |
| Lru.LoadKeys | cache/cache.go:63-73 | after LoadFull the list is the loaded prefix in reverse before the old keys, and stays within the bound |
| Lru.LoadWF | cache/cache.go:63-73 | LoadFull of fresh, distinct orders keeps the table and list consistent |
| Lru.LoadValues | cache/cache.go:63-73 | every loaded order is cached, and every entry already cached stays: LoadFull never evicts |
| Lru.LoadLastAtHead | cache/cache.go:66-72 | the last order loaded ends at the head |
| OrderCache.LinkedDistinct | cache/cache.go:18-23 | a prev/next-linked list never holds the same node twice |
| OrderCache.ChainWF | cache/cache.go:9-23 | when the list links exactly the table's nodes, the cache is a well-formed recency state |
| OrderCache.PromoteHead | cache/cache.go:77-79 | moving the head to the top changes nothing |
| OrderCache.Cache.constructor | cache/cache.go:25-30 | NewCache gives an empty, consistent cache of the given capacity |
| OrderCache.Cache.Get | cache/cache.go:32-43 | keeps consistency; the result and the new state are those of Lru.Lookup |
| OrderCache.Cache.Set | cache/cache.go:45-61 | keeps consistency; the new state is that of Lru.Put |
| OrderCache.Cache.LoadFull | cache/cache.go:63-73 | for fresh, distinct orders: keeps consistency; the new state is that of Lru.Load |
| OrderCache.Cache.MoveToTop | cache/cache.go:75-98 | keeps consistency and size; the key moves to the front and the cached orders stay the same |
| OrderCache.Cache.Unlink | cache/cache.go:80-89 | the node is cut out of the list: the rest stays linked in order, the tail moves back if the node was the tail, and the node itself is untouched |
| OrderCache.Cache.Relink | cache/cache.go:90-96 | the cut-out node becomes the head in front of the rest, and consistency is restored |
| OrderCache.Cache.DeleteBottom | cache/cache.go:100-115 | keeps consistency; the new state is that of Lru.Evict, and size counts the remaining nodes |
| OrderCache.Cache.AddToFront | cache/cache.go:117-130 | a new node becomes the head and is added to the table; the new state is that of Lru.Insert |
| Validation.CheckHeader | internal/service/service_bruh.go:88-111 | accepts exactly when every header check holds; otherwise it names a failing check, and every earlier one holds |
| Validation.CheckDelivery | internal/service/service_bruh.go:113-133 | the same for the delivery checks |
| Validation.CheckPayment | internal/service/service_bruh.go:135-158 | the same for the payment checks, with Amount > 0, DeliveryCost ≥ 0 and GoodsTotal > 0 |
| Validation.ValidateItem | internal/service/service_bruh.go:173-202 | accepts exactly the items every item check accepts; otherwise it names the first failing check |
| Validation.ValidateItems | internal/service/service_bruh.go:164-168 | accepts exactly when every item from `from` on is valid; otherwise it names the first invalid item and its failing check |
| Validation.ValidateOrder | internal/service/service_bruh.go:87-171 | accepts exactly the valid orders; an order-level failure is a failing check with every earlier check holding; an item failure comes only after all order-level checks pass, at the first invalid item |
| Validation.UidCheckedFirst | internal/service/service_bruh.go:88-90 | an empty order_uid is reported whatever the other fields hold |
| Validation.EmptyItemsRejected | internal/service/service_bruh.go:160-162 | an order with no items is rejected even when every other check passes |
| Validation.FirstFailureUnique | internal/service/service_bruh.go:87-171 | the check that fails first in run order is the one reported |
| Repository.Place | internal/repository/repo_bruh.go:298 | a new identifier joins the newest-first list; the list grows by exactly that identifier |
| Repository.PlaceByDate | internal/repository/repo_bruh.go:298 | inserting a new order keeps the identifier list free of duplicates, keyed in the table and in date_created DESC order |
| Repository.Write | internal/repository/repo_bruh.go:257-296 | a committed write stores a new identifier with its order and adds it to the id list; a known identifier keeps its first row (ON CONFLICT DO NOTHING, line 74); no other row changes |
| Repository.Repo.CreateFullOrder | internal/repository/repo_bruh.go:257-296 | returns the database fault; without a fault the tables become Write's; a fault changes nothing |
| Repository.Repo.GetFullOrderOnId | internal/repository/repo_bruh.go:185-222 | returns the stored order; it fails exactly on a fault or an unknown identifier, and an unknown identifier is NotFound |
| Repository.Repo.GetRecentIDs | internal/repository/repo_bruh.go:298-321 | returns up to `amount` distinct, stored identifiers, none older than any identifier left out, or the fault |
| Service.CreateResult | internal/service/service_bruh.go:40-54 | an empty order_uid is "need order_uid", an invalid order is ErrValidation, and success means a valid order with a working store |
| Service.ReadYourWrite | internal/service/service_bruh.go:40-67 | after a successful CreateOrder, GetOrder of that identifier answers the new order from the cache |
| Service.GetOrderCases | internal/service/service_bruh.go:56-67 | a hit answers from the cache and only promotes; a miss the store answers caches that order at the head; a failure leaves the cache as it was, and is the fault or NotFound |
| Service.GetTwice | internal/service/service_bruh.go:56-67 | a second lookup of an identifier just read gives the same answer whatever the store does |
| Service.FetchedStored | internal/service/service_bruh.go:74-82 | every order LoadCache collects is the stored order of a listed identifier whose fetch succeeded |
| Service.FetchedComplete | internal/service/service_bruh.go:74-82 | every listed, stored identifier whose fetch succeeds is collected |
| Service.FetchedFresh | internal/service/service_bruh.go:74-83 | the collected orders have distinct identifiers, so they meet LoadFull's precondition on an empty cache |
| Service.WarmedAgrees | internal/service/service_bruh.go:69-85 | the warmed cache is well formed and within its bound; each entry is the stored order of one of the MAX_CAPACITY newest identifiers |
| Service.WarmCacheScenario | internal/service/service_bruh.go:69-85 | from a store holding Z, Y, X (newest first) with capacity 2, the cache holds Y and Z, with Y at the head |
| Service.Service.constructor | internal/service/service_bruh.go:33-38 | NewService wires a repository and a cache whose entries are all stored |
| Service.Service.CreateOrder | internal/service/service_bruh.go:40-54 | the error is CreateResult's; the cache is set only after a successful write and is otherwise untouched; the store changes exactly as CreateFullOrder says |
| Service.Service.GetOrder | internal/service/service_bruh.go:56-67 | the answer is the cached order, or else the store's read; the cache changes as AfterGet says |
| Service.Service.FetchAll | internal/service/service_bruh.go:74-82 | collects the stored orders of the identifiers in order, skipping failed fetches |
| Service.Service.LoadCache | internal/service/service_bruh.go:69-85 | a GetRecentIDs fault is returned and the cache is untouched; otherwise the cache is loaded from the MAX_CAPACITY newest identifiers, in that order |
| Ingestion.HandleCounts | kafka/consumer.go:90-115 | one call handles the record once and dead-letters at most once; a dead-lettered record returns nil, and a returned error means no dead letter |
| Ingestion.HandleKeepsService | kafka/consumer.go:106-113 | a call that returns an error has changed neither the store nor the cache |
| Ingestion.UndecodableDeadLettered | kafka/consumer.go:93-98 | an undecodable payload is dead-lettered on the first attempt, and CreateOrder is never called |
| Ingestion.MissingUidDeadLettered | kafka/consumer.go:100-104 | an order without an identifier is dead-lettered on the first attempt, and CreateOrder is never called |
| Ingestion.InvalidOrderDeadLettered | kafka/consumer.go:106-111 | an invalid order gets one CreateOrder call and is dead-lettered without a retry |
| Ingestion.DriveCounts | kafka/consumer.go:63-79 | a record is handled between 1 and 5 times and dead-lettered at most once, never when the loop aborts; nothing is committed |
| Ingestion.ExhaustionDeadLetters | kafka/consumer.go:63-79 | five failed attempts without cancellation: five calls, then exactly one dead letter with the record's key and value, sent last, and no write |
| Ingestion.RetryThenSucceed | kafka/consumer.go:63-67 | a valid order whose write fails n times and then succeeds: n + 1 calls, no dead letter, and exactly one write |
| Ingestion.BatchCommits | kafka/consumer.go:60-85 | a batch ends in exactly one commit, its last event, unless it aborts, and then it commits nothing; a batch that does not abort handles at least one call per record and at most five; no more dead letters than records in all |
| Ingestion.BatchParts | kafka/consumer.go:60-85 | a batch that does not abort is every record's attempt loop, in batch order, followed by the commit; every record is handled before the commit; each record's share is handled 1 to 5 times and has at most one dead letter |
| Ingestion.PollsCommit | kafka/consumer.go:42-86 | the poll loop commits at most once per fetched batch, exactly once per batch when it runs every poll to the end, and fewer times than it fetched batches when a batch aborts |
| Ingestion.Consumer.constructor | kafka/consumer.go:21-39 | NewConsumer keeps the service, the dead-letter topic and the decoder |
| Ingestion.Consumer.SendToDLQ | kafka/consumer.go:123-132 | the dead letter goes to the configured topic with the record's key and value unchanged |
| Ingestion.Consumer.HandleMessage | kafka/consumer.go:90-115 | returns HandleError's error and HandleEvents' events; the service changes as those events say |
| Ingestion.Consumer.DriveRecord | kafka/consumer.go:63-79 | the events and the abort flag are those of Drive; the service changes as those events say |
| Ingestion.Consumer.ProcessBatch | kafka/consumer.go:60-85 | the events and the abort flag are those of RunBatch; the service changes as those events say |
| Ingestion.Consumer.Start | kafka/consumer.go:41-88 | the events and the reason for returning are those of RunPolls; the service changes as those events say |
| Server.HandleHttpErr | internal/server/server_bruh.go:49-62 | ErrNotFound is 404 and raises RequestsNotFound, ErrOrderUIDMissing is 400 and raises RequestsBadRequest, anything else is 500 and raises RequestsServerError; every other counter, the total included, stays |
| Server.GetOrder | internal/server/server_bruh.go:26-47 | the total goes up by one; the status is one of 200, 400, 404, 500; 400 exactly for an empty identifier or an OrderUidMissing answer; 200 exactly on a successful lookup, carrying that order; 404 exactly on NotFound; 500 on any other error; each status raises its own counter (200 RequestsSuccess, 400 RequestsBadRequest, 404 RequestsNotFound, 500 RequestsServerError) and no other |
| Server.EmptyUidSkipsService | internal/server/server_bruh.go:30-34 | for an empty identifier the response does not depend on the service at all |
| Server.ServeConsistent | internal/server/server_bruh.go:26-62 | over any sequence of requests, total equals the sum of the four outcome counters and grows by one per request |
| Server.ServeMonotone | internal/server/server_bruh.go:26-62 | no outcome counter ever goes down |
| Server.ServiceStatus | internal/server/server_bruh.go:26-47 | with the service behind it: 200 exactly when the identifier is cached, or stored and the database answers; with a working database, 404 exactly when it is neither cached nor stored |

## Left out

- The cache's `sync.Mutex` and concurrent callers. Each cache method is one atomic step.
- Logging, the Prometheus registry and `time.Sleep` back-off. The HTTP counters are a `Metrics` value.
- Networking: PollFetches, ProduceSync and CommitUncommittedOffsets.
  - Polls and attempt outcomes are a script of values.
  - A produce failure in sendToDLQ and a commit error are swallowed in the source, so they are not modelled as outcomes.
- JSON: `json.Unmarshal` is a decoding function given to the consumer, and the handler's body is the order itself. SQL, the transactions and pgx are not modelled.
- The GetFullOrderOnId and CreateFullOrder steps are not modelled one by one. One fault stands for any failing step, and a failed call writes nothing.
- Configuration, bootstrapping (cmd/...) and the random data generator are not part of this model.
- Pointers:
  - A node is named by its key. This is sound because `data` holds exactly one node per key.
  - Go's sharing of `*models.Order` between callers and the cache is not modelled: orders are values.
- Repository.Repo.GetFullOrderOnId, Repository.Read: a read returns the order exactly as it was written. The source rebuilds it from its rows (internal/repository/repo_bruh.go:185-222) and does not fill back `Payment.OrderId` (not scanned) or the items' `OrderUId` and `Id` (not selected), and it replaces `Delivery.Id` with the id the database generated for the delivery row, since `createDelivery` inserts none (repo_bruh.go:14-15, 121-127, 225-226); the time zone of `DateCreated` may also change. For this reason internal/repository/integration_test.go:74-81 compares field by field.
- Ties in `ORDER BY date_created DESC` are unordered in SQL. `Repository.Place` puts the newer insert first.
- OrderCache.Cache.LoadFull: requires orders that are not yet cached and have distinct identifiers. The source does not check this (cache/cache.go:66-72), and without it the table and list would disagree.
- Service.Service.LoadCache: requires an empty cache. Both call sites run right after NewCache: cmd/main.go:54-59, and cmd/server/main.go:49, whose cache comes from NewCache at cmd/server/main.go:153. The second call passes the capacity as an extra argument, which the LoadCache of internal/service/service_bruh.go:69 does not take.
- OrderCache.Cache.MoveToTop is split into `Unlink` and `Relink`.
- Some inline Go loops are separate methods: `Service.Service.FetchAll` (the loop of LoadCache), `Ingestion.Consumer.DriveRecord` (the attempt loop) and `Ingestion.Consumer.ProcessBatch` (the record loop).
- Ingestion.Consumer.Start: runs over a finite script of polls. Running off its end is the extra outcome `Drained`; the source loops until cancelled.
- A fault of ErrValidation from the store is not distinguished by the source from the validator's ErrValidation. `Ingestion.RetryThenSucceed` assumes store faults are other errors.
- Capacity 0: the model follows the code, and a cache of capacity 0 keeps one entry (`Lru.Bound`). Configuration rejects a cache size of 0.
- Service.Service.CreateOrder: on a duplicate identifier, the store keeps the old row (ON CONFLICT DO NOTHING) while the cache is set to the new order, as the code does.
- Server.HandleHttpErr, Server.ServiceStatus: the handler tests `apperror.ErrNotFound` (internal/server/server_bruh.go:7, 51), while the store returns `errHandle.ErrNotFound` (internal/repository/repo_bruh.go:114). The `apperror` package is not part of this model. The model assumes the two are the same error, one `Orders.NotFound`, as internal/server/server_test.go:36-44 expects: a service answering `errHandle.ErrNotFound` gives 404. `ErrOrderUIDMissing` is `Orders.OrderUidMissing`, an error only the handler raises.

## Where the code differs from what one might expect

The model follows the code in these places:

- **Warming the cache.** One might expect a cache of capacity 2, warmed from Z, Y, X (newest first), to have the newest order Z at the head. The code loads Z, then Y, each at the front, so Y ends at the head (`Service.WarmCacheScenario`).
- **Capacity 0.** One might expect a cache of capacity 0 to hold nothing. The code keeps one entry, because eviction on an empty list does nothing and the new node is still added.
- **Retries.** One might expect a retry to re-run only the store write. The code re-runs the whole of `handleMessage`: decoding, the identifier check and validation included.
