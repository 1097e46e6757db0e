/** The call routes (routes/calls.js): the listing, and update and delete
    reserved to the user who created the call. */
module Calls {
  import opened Common
  import opened CallModel
  import opened Db
  import Listing

  /** `parseInt(call.userId) === parseInt(userId)`: the requester is the
      creator exactly when its id parses to the stored one; NaN never
      matches. */
  predicate IsCreator(call: Call, userId: JsValue)
    ensures IsCreator(call, userId) <==> ParseInt(userId) == Some(call.userId)
  {
    SameParsedInt(Num(call.userId), userId)
  }

  /** PUT /calls/:id on a found call: only the creator may update; the body
      is then written over its columns and refused when the database
      cannot store it. As the creator's own id is the only one that passes,
      the call stays theirs. */
  function UpdateCallSpec(call: Call, body: CallFields): (r: Result<Call>)
    ensures !IsCreator(call, body.userId) ==> r == Err(Forbidden)
    ensures IsCreator(call, body.userId) ==>
      && (r.Ok? <==> ApplyCallFields(call, body).Some?)
      && (r.Ok? ==> r.value == ApplyCallFields(call, body).value)
      && (r.Err? ==> r.error == Rejected)
    ensures r.Ok? ==> r.value.id == call.id && r.value.userId == call.userId && r.value.createdAt == call.createdAt
  {
    if !IsCreator(call, body.userId) then Err(Forbidden)
    else match ApplyCallFields(call, body)
      case None => Err(Rejected)
      case Some(next) => Ok(next)
  }

  /** A duration the database cannot read as an integer makes the creator's
      update fail, whatever else the body carries. */
  lemma BadDurationIsRejected(call: Call, body: CallFields)
    requires IsCreator(call, body.userId)
    requires body.duration == Null || ToInteger(body.duration).Unconvertible?
    ensures UpdateCallSpec(call, body) == Err(Rejected)
  {
  }

  /** The creator sending the same update again changes nothing more. */
  lemma UpdateCallTwiceIsUpdateOnce(call: Call, body: CallFields)
    requires UpdateCallSpec(call, body).Ok?
    ensures UpdateCallSpec(UpdateCallSpec(call, body).value, body) == UpdateCallSpec(call, body)
  {
    ApplyCallFieldsTwice(call, body);
  }

  /** DELETE /calls/:id?userId=… on a found call: only the creator may delete. */
  function DeleteCallSpec(call: Call, userId: JsValue): (r: Result<()>)
    ensures r.Ok? <==> ParseInt(userId) == Some(call.userId)
    ensures r.Err? ==> r.error == Forbidden
  {
    if IsCreator(call, userId) then Ok(()) else Err(Forbidden)
  }

  /** GET /calls: every call exactly once, newest first. */
  function ListCalls(calls: map<int, Call>, nextCallId: int): (r: seq<Call>)
    requires forall k :: k in calls ==> 0 <= k < nextCallId && calls[k].id == k
    ensures Listing.SortedDesc(r, (c: Call) => c.createdAt)
    ensures forall c :: c in r <==> c in calls.Values
    ensures forall c :: multiset(r)[c] == if c.id in calls && calls[c.id] == c then 1 else 0
  {
    var r := Listing.Query(calls, nextCallId, (c: Call) => true, (c: Call) => c.createdAt);
    assert forall c :: multiset(r)[c] == if c.id in calls && calls[c.id] == c then 1 else 0 by {
      forall c ensures multiset(r)[c] == if c.id in calls && calls[c.id] == c then 1 else 0 {
        Listing.KeyCountOfKeyedRow(calls, nextCallId, (c: Call) => c.id, c);
      }
    }
    r
  }

  /** PUT /calls/:id. */
  method UpdateCall(db: Store, id: string, body: CallFields) returns (res: Result<Call>)
    requires db.Valid()
    modifies db
    ensures db.Valid()
    ensures FindByPk(old(db.calls), Str(id)).Failed? ==> res == Err(Crashed) && db.Snapshot() == old(db.Snapshot())
    ensures FindByPk(old(db.calls), Str(id)).Missing? ==>
      res == Err(NotFound(CallRow, None)) && db.Snapshot() == old(db.Snapshot())
    ensures FindByPk(old(db.calls), Str(id)).Found? ==>
      var call := FindByPk(old(db.calls), Str(id)).row;
      var u := UpdateCallSpec(call, body);
      && res == u
      && db.Snapshot() == old(db.Snapshot()).(
           calls := if u.Ok? then old(db.calls)[call.id := u.value] else old(db.calls))
  {
    var found := FindByPk(db.calls, Str(id));
    if found.Failed? {
      return Err(Crashed);
    }
    if found.Missing? {
      return Err(NotFound(CallRow, None));
    }
    res := UpdateCallSpec(found.row, body);
    if res.Ok? {
      db.calls := db.calls[found.row.id := res.value];
    }
  }

  /** DELETE /calls/:id. */
  method DeleteCall(db: Store, id: string, userId: JsValue) returns (res: Result<()>)
    requires db.Valid()
    modifies db
    ensures db.Valid()
    ensures FindByPk(old(db.calls), Str(id)).Failed? ==> res == Err(Crashed) && db.Snapshot() == old(db.Snapshot())
    ensures FindByPk(old(db.calls), Str(id)).Missing? ==>
      res == Err(NotFound(CallRow, None)) && db.Snapshot() == old(db.Snapshot())
    ensures FindByPk(old(db.calls), Str(id)).Found? ==>
      var call := FindByPk(old(db.calls), Str(id)).row;
      var d := DeleteCallSpec(call, userId);
      && res == d
      && db.Snapshot() == old(db.Snapshot()).(
           calls := if d.Ok? then old(db.calls) - {call.id} else old(db.calls))
  {
    var found := FindByPk(db.calls, Str(id));
    if found.Failed? {
      return Err(Crashed);
    }
    if found.Missing? {
      return Err(NotFound(CallRow, None));
    }
    res := DeleteCallSpec(found.row, userId);
    if res.Ok? {
      db.calls := db.calls - {found.row.id};
    }
  }
}
