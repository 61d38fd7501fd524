/** The idempotency store behind `IdempotentService` and the records it
    keeps (`IdempotentContext`, `IdempotentBodyContext`). The service is an
    interface whose implementation is not part of this model; here it is
    abstract state with the behaviour its documentation promises: records
    looked up by (requestId, appCode), ids assigned on insert, an
    append-only log of request/response bodies. */
module IdempotentService {
  import opened Results
  import opened IdempotentStatus

  /** The pair that identifies one logical operation. */
  datatype OpKey = OpKey(requestId: string, appCode: string)

  /** `IdempotentContext`. The id is null until the store assigns one, and
      the status is a nullable enum. */
  datatype Record = Record(
    id: Option<nat>,
    requestId: string,
    appCode: string,
    requestDesc: Option<string>,
    businessNo: Option<string>,
    businessType: Option<string>,
    businessDesc: Option<string>,
    status: Option<Status>)
  {
    function Key(): OpKey {
      OpKey(requestId, appCode)
    }
  }

  /** `IdempotentBodyContext`: the owning record's id, the arguments as
      JSON, and the response as a string. The row id and creation time are
      the store's own and are not modelled. */
  datatype Body = Body(idempotentId: nat, requestParam: string, responseBody: string)

  /** The records, each filed under its own (requestId, appCode). */
  type Records = m: map<OpKey, Record> | forall k :: k in m ==> m[k].Key() == k witness map[]

  datatype Store = Store(records: Records, bodies: seq<Body>, nextId: nat)

  /** `queryByReqId(requestId, appCode)`. */
  function QueryByReqId(store: Store, requestId: string, appCode: string): (r: Option<Record>)
    ensures r.Some? <==> OpKey(requestId, appCode) in store.records
    ensures r.Some? ==> r.value == store.records[OpKey(requestId, appCode)]
  {
    var key := OpKey(requestId, appCode);
    if key in store.records then Some(store.records[key]) else None
  }

  datatype Inserted = Inserted(store: Store, id: nat)

  /** `insert(model)`: stores the record under its key with a fresh id and
      returns the id. */
  function Insert(store: Store, record: Record): (r: Inserted)
    ensures r.id == store.nextId && r.store.nextId > r.id
    ensures r.store.records == store.records[record.Key() := record.(id := Some(r.id))]
    ensures r.store.bodies == store.bodies
    ensures QueryByReqId(r.store, record.requestId, record.appCode) == Some(record.(id := Some(r.id)))
  {
    Inserted(Store(store.records[record.Key() := record.(id := Some(store.nextId))], store.bodies, store.nextId + 1),
             store.nextId)
  }

  /** `insertBody(model)`: appends one body row. */
  function InsertBody(store: Store, body: Body): (r: Store)
    ensures r.bodies == store.bodies + [body]
    ensures r.records == store.records && r.nextId == store.nextId
  {
    store.(bodies := store.bodies + [body])
  }

  /** `updateInfo(model)`: the stored record with the same key and id takes
      the model's status; with no such record nothing changes. */
  function UpdateInfo(store: Store, record: Record): (r: Store)
    ensures r.bodies == store.bodies && r.nextId == store.nextId
    ensures r.records.Keys == store.records.Keys
    ensures forall k :: k in store.records && k != record.Key() ==> r.records[k] == store.records[k]
    ensures record.Key() in store.records && store.records[record.Key()].id == record.id ==>
              r.records[record.Key()] == store.records[record.Key()].(status := record.status)
    ensures !(record.Key() in store.records && store.records[record.Key()].id == record.id) ==> r == store
  {
    var key := record.Key();
    if key in store.records && store.records[key].id == record.id
    then store.(records := store.records[key := store.records[key].(status := record.status)])
    else store
  }

  /** `getLatestRecordByIdeKey(idempotentId)`: the last body appended for
      that record, or null. */
  function LatestBody(bodies: seq<Body>, idempotentId: nat): (r: Option<Body>)
    ensures r.None? <==> forall i :: 0 <= i < |bodies| ==> bodies[i].idempotentId != idempotentId
    ensures r.Some? ==> exists i :: 0 <= i < |bodies| && bodies[i] == r.value
                                    && r.value.idempotentId == idempotentId
                                    && forall j :: i < j < |bodies| ==> bodies[j].idempotentId != idempotentId
  {
    if bodies == [] then None
    else if bodies[|bodies| - 1].idempotentId == idempotentId then Some(bodies[|bodies| - 1])
    else
      var r := LatestBody(bodies[..|bodies| - 1], idempotentId);
      assert forall j :: 0 <= j < |bodies| - 1 ==> bodies[j] == bodies[..|bodies| - 1][j];
      r
  }

  /** A body appended for a record is what the next lookup of its latest
      body returns; appending for another record changes nothing for it. */
  lemma LatestAfterInsert(store: Store, body: Body, idempotentId: nat)
    ensures LatestBody(InsertBody(store, body).bodies, body.idempotentId) == Some(body)
    ensures idempotentId != body.idempotentId ==>
              LatestBody(InsertBody(store, body).bodies, idempotentId) == LatestBody(store.bodies, idempotentId)
  {
    var bs := InsertBody(store, body).bodies;
    assert bs[..|bs| - 1] == store.bodies;
  }

  /** Every stored id is below the next id to assign. */
  ghost predicate IdsFresh(store: Store) {
    forall k :: k in store.records && store.records[k].id.Some? ==> store.records[k].id.value < store.nextId
  }

  /** Insert keeps ids fresh and gives an id no other record has. */
  lemma InsertKeepsIdsFresh(store: Store, record: Record)
    requires IdsFresh(store)
    ensures IdsFresh(Insert(store, record).store)
    ensures forall k :: k in store.records && k != record.Key() && store.records[k].id.Some? ==>
              store.records[k].id.value != Insert(store, record).id
  {
  }
}
