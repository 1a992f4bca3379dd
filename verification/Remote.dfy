/** The ContextForge API as one collection of records per kind, reached over a
    network that may drop a request or lose its response. */
module Remote {
  import opened Wrappers

  /** A 404, a 409, or anything else that went wrong. */
  datatype ApiError = NotFound | Conflict | Failed

  /** What happens to one call: it is answered, it fails before it takes effect, or
      it takes effect and its answer is lost. */
  datatype Fault = Delivered | Refused | ResponseLost

  /** What the network and the remote choose during one operation of a controller:
      the fate of each call, the record that a GET by id, name or slug resolves to,
      the record that a create request leads to, and the record that an update
      request turns a record into. */
  datatype Net<!Q, !U, !R> = Net(
    get: Fault,
    post: Fault,
    put: Fault,
    delete: Fault,
    hit: Option<string>,
    create: Q -> R,
    update: (U, R) -> R)
  {
    predicate Faultless() {
      get.Delivered? && post.Delivered? && put.Delivered? && delete.Delivered?
    }
  }

  datatype Reply<R> = Reply(store: map<string, R>, result: Result<R, ApiError>)

  /** GET of the record that the remote resolves the key to. */
  function GetOutcome<R>(store: map<string, R>, at: Option<string>, fault: Fault): Result<R, ApiError>
  {
    if !fault.Delivered? then Err(Failed)
    else if at.Some? && at.value in store then Ok(store[at.value])
    else Err(NotFound)
  }

  /** POST of a record that the remote will keep as stored, under the given id. */
  function PostOutcome<R>(store: map<string, R>, id: string, stored: R, clash: bool, fault: Fault): Reply<R>
  {
    if fault.Refused? then Reply(store, Err(Failed))
    else if clash then Reply(store, if fault.Delivered? then Err(Conflict) else Err(Failed))
    else Reply(store[id := stored], if fault.Delivered? then Ok(stored) else Err(Failed))
  }

  /** PUT of a request to an id; apply says what the remote makes of the record. */
  function PutOutcome<U, R>(store: map<string, R>, id: string, request: U, apply: (U, R) -> R, clash: bool,
        fault: Fault): Reply<R>
  {
    if fault.Refused? then Reply(store, Err(Failed))
    else if id !in store then Reply(store, if fault.Delivered? then Err(NotFound) else Err(Failed))
    else if clash then Reply(store, if fault.Delivered? then Err(Conflict) else Err(Failed))
    else
      var stored := apply(request, store[id]);
      Reply(store[id := stored], if fault.Delivered? then Ok(stored) else Err(Failed))
  }

  function StoreAfterDelete<R>(store: map<string, R>, id: string, fault: Fault): map<string, R>
  {
    if fault.Refused? then store else store - {id}
  }

  /** DELETE as the client reports it: a 404 counts as success. */
  function DeleteOutcome(fault: Fault): Result<(), ApiError>
  {
    if fault.Delivered? then Ok(()) else Err(Failed)
  }

  /** A call that is refused has no effect. A call whose response is lost has the effect of
      one that is answered, but reports a failure that does not tell. */
  lemma LostResponsesHideEffects<U, R>(store: map<string, R>, id: string, stored: R, request: U, apply: (U, R) -> R, clash: bool)
    ensures PostOutcome(store, id, stored, clash, Refused) == Reply(store, Err(Failed))
    ensures PostOutcome(store, id, stored, clash, ResponseLost) == PostOutcome(store, id, stored, clash, Delivered).(result := Err(Failed))
    ensures PutOutcome(store, id, request, apply, clash, Refused) == Reply(store, Err(Failed))
    ensures PutOutcome(store, id, request, apply, clash, ResponseLost) ==
            PutOutcome(store, id, request, apply, clash, Delivered).(result := Err(Failed))
    ensures StoreAfterDelete(store, id, Refused) == store
    ensures StoreAfterDelete(store, id, ResponseLost) == StoreAfterDelete(store, id, Delivered) == store - {id}
    ensures DeleteOutcome(Delivered) == Ok(()) && DeleteOutcome(Refused) == DeleteOutcome(ResponseLost) == Err(Failed)
  {
  }

  /** The records of one kind that the remote holds, and the client's calls on them. */
  class Collection<R> {
    var records: map<string, R>

    method Get(at: Option<string>, fault: Fault) returns (r: Result<R, ApiError>)
      ensures r == GetOutcome(records, at, fault)
    {
      match fault
      case Refused => return Err(Failed);
      case ResponseLost => return Err(Failed);
      case Delivered =>
        match at
        case None => return Err(NotFound);
        case Some(id) =>
          if id in records { return Ok(records[id]); }
          return Err(NotFound);
    }

    method Post(id: string, stored: R, clash: bool, fault: Fault) returns (r: Result<R, ApiError>)
      modifies this
      ensures Reply(records, r) == PostOutcome(old(records), id, stored, clash, fault)
    {
      if fault == Refused { return Err(Failed); }
      r := Err(Conflict);
      if !clash {
        records := records[id := stored];
        r := Ok(stored);
      }
      if fault == ResponseLost { r := Err(Failed); }
    }

    method Put<U>(id: string, request: U, apply: (U, R) -> R, clash: bool, fault: Fault) returns (r: Result<R, ApiError>)
      modifies this
      ensures Reply(records, r) == PutOutcome(old(records), id, request, apply, clash, fault)
    {
      if fault == Refused { return Err(Failed); }
      if id !in records {
        r := Err(NotFound);
      } else if clash {
        r := Err(Conflict);
      } else {
        var stored := apply(request, records[id]);
        records := records[id := stored];
        r := Ok(stored);
      }
      if fault == ResponseLost { r := Err(Failed); }
    }

    /** The DELETE request itself, which answers 404 for an absent record. */
    method RequestDelete(id: string, fault: Fault) returns (r: Result<(), ApiError>)
      modifies this
      ensures records == StoreAfterDelete(old(records), id, fault)
      ensures r == if fault != Delivered then Err(Failed)
                   else if id in old(records) then Ok(()) else Err(NotFound)
    {
      if fault == Refused { return Err(Failed); }
      r := if id in records then Ok(()) else Err(NotFound);
      records := records - {id};
      if fault == ResponseLost { r := Err(Failed); }
    }

    /** Deletes a record, taking "not found" for success. */
    method Delete(id: string, fault: Fault) returns (r: Result<(), ApiError>)
      modifies this
      ensures records == StoreAfterDelete(old(records), id, fault)
      ensures r == DeleteOutcome(fault)
    {
      r := RequestDelete(id, fault);
      if r == Err(NotFound) { r := Ok(()); }
    }
  }
}
