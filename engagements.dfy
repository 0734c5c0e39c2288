/** The engagements handler: create with defaults, allow-listed partial
    update with the closing-date rule, get, delete, and the list sorted by
    most recent update. */
module Engagements {
  import opened Values
  import opened Ordering
  import opened Tables

  /** The attributes `update_engagement` lets a caller set, in its order. */
  const EngagementFields: seq<Attr> :=
    [Name, Team, Description, Status, Owner, Stakeholders,
     Tools, Agents, Objectives, ChatSpace, SuccessMetrics, Blockers,
     NextSteps, Notes, StartDate, TargetDate, CompletedDate]

  predicate IsClosed(status: Value)
  {
    status == Str("closed-complete") || status == Str("closed-failed")
  }

  /** The request moves a not-yet-closed engagement into a closed status. */
  predicate Closing(existing: Record, data: Record)
  {
    IsClosed(Get(data, Status, Null)) && !IsClosed(Get(existing, Status, Null))
  }

  /** The optional attributes `create_engagement` writes from the request,
      each with the value it takes when the request leaves it out. */
  function EngagementDefaults(now: int): map<Attr, Value>
  {
    map[Team := Str(""), Description := Str(""), Status := Str("discovery"),
        Owner := Str(""), Stakeholders := Arr([]), Tools := Arr([]), Agents := Arr([]),
        Objectives := Str(""), ChatSpace := Str(""), SuccessMetrics := Str(""),
        Blockers := Str(""), NextSteps := Str(""), Notes := Str(""),
        StartDate := DateOf(now), TargetDate := Str(""), CompletedDate := Str("")]
  }

  /** The item `create_engagement` writes; None when `data['name']` raises. */
  function NewEngagement(data: Record, id: string, now: int): (e: Option<Record>)
    ensures e.None? <==> Name !in data
    ensures e.Some? ==> KeyedBy(Id, id, e.value) && Name in e.value && Status in e.value
  {
    if Name !in data then None
    else Some(Filled(data, EngagementDefaults(now))
                [Id := Str(id)][Name := data[Name]][CreatedAt := Time(now)][UpdatedAt := Time(now)])
  }

  /** A created engagement holds exactly the allowed attributes and the
      server's three. */
  lemma NewEngagementKeys(data: Record, id: string, now: int)
    requires Name in data
    ensures forall f :: f in NewEngagement(data, id, now).value <==>
              f in EngagementFields || f == Id || f == CreatedAt || f == UpdatedAt
  {
  }

  /** The server stamps `id`, `createdAt` and `updatedAt`, and `name` is the
      request's. */
  lemma NewEngagementStamps(data: Record, id: string, now: int)
    requires Name in data
    ensures var e := NewEngagement(data, id, now).value;
      e[Id] == Str(id) && e[Name] == data[Name] && e[CreatedAt] == e[UpdatedAt] == Time(now)
  {
  }

  /** The attributes the request leaves out take their defaults. */
  lemma NewEngagementDefaults(data: Record, id: string, now: int)
    requires Name in data
    ensures var e := NewEngagement(data, id, now).value;
      && (Status !in data ==> e[Status] == Str("discovery"))
      && (CompletedDate !in data ==> e[CompletedDate] == Str(""))
      && (StartDate !in data ==> e[StartDate] == DateOf(now))
  {
  }

  /** Every other attribute the request carries is stored as sent. */
  lemma NewEngagementKeepsRequest(data: Record, id: string, now: int)
    requires Name in data
    ensures var e := NewEngagement(data, id, now).value;
      forall f :: f in data && f in e && f != Id && f != CreatedAt && f != UpdatedAt ==> e[f] == data[f]
  {
    var base := Filled(data, EngagementDefaults(now));
    var e := NewEngagement(data, id, now).value;
    assert e == base[Id := Str(id)][Name := data[Name]][CreatedAt := Time(now)][UpdatedAt := Time(now)];
    forall f | f in data && f in e && f != Id && f != CreatedAt && f != UpdatedAt
      ensures e[f] == data[f]
    {
      if f != Name {
        assert f in base;
      }
    }
  }

  /** The request after the closing rule: entering a closed status stamps
      today's date over any `completedDate` the caller sent. */
  function WithClosingDate(existing: Record, data: Record, now: int): Record
  {
    if Closing(existing, data) then data[CompletedDate := DateOf(now)] else data
  }

  /** The item after `update_engagement`: the closing rule, and nothing that
      ever clears the date. */
  function UpdatedEngagement(existing: Record, data: Record, now: int): (e: Record)
    ensures UpdatedAt in e && e[UpdatedAt] == Time(now)
    ensures Closing(existing, data) ==> CompletedDate in e && e[CompletedDate] == DateOf(now)
    ensures !Closing(existing, data) && CompletedDate in data ==>
              CompletedDate in e && e[CompletedDate] == data[CompletedDate]
    ensures !Closing(existing, data) && CompletedDate !in data && CompletedDate in existing ==>
              CompletedDate in e && e[CompletedDate] == existing[CompletedDate]
  {
    Applied(existing, WithClosingDate(existing, data, now), EngagementFields, now)
  }

  /** No attribute is removed; the allowed ones the request carries are
      added, and `completedDate` when the engagement closes. */
  lemma UpdateKeys(existing: Record, data: Record, now: int)
    ensures forall f :: f in UpdatedEngagement(existing, data, now) <==>
              || f in existing || (f in data && f in EngagementFields) || f == UpdatedAt
              || (f == CompletedDate && Closing(existing, data))
  {
    assert UpdatedAt !in EngagementFields;
    if Closing(existing, data) {
    } else {
    }
  }

  /** Any status is accepted, and every allowed attribute the request
      carries is stored as sent (`completedDate` unless the engagement
      closes). */
  lemma UpdateStoresRequest(existing: Record, data: Record, now: int)
    ensures var e := UpdatedEngagement(existing, data, now);
      forall f :: f in data && f in EngagementFields && f != CompletedDate ==> f in e && e[f] == data[f]
  {
    assert UpdatedAt !in EngagementFields;
    if Closing(existing, data) {
    } else {
    }
  }

  /** `id`, `createdAt`, unknown keys and the attributes the request leaves
      out keep their stored value. */
  lemma UpdateKeepsOthers(existing: Record, data: Record, now: int)
    ensures var e := UpdatedEngagement(existing, data, now);
      && (forall f :: f in existing && f !in EngagementFields && f != UpdatedAt ==> f in e && e[f] == existing[f])
      && (forall f :: f in existing && f !in data && f != UpdatedAt && f != CompletedDate ==> f in e && e[f] == existing[f])
  {
    assert UpdatedAt !in EngagementFields;
    if Closing(existing, data) {
    } else {
    }
  }

  method CreateEngagement(db: Store, data: Record, id: string, now: int) returns (r: Response)
    requires db.Valid()
    modifies db`engagements
    ensures db.Valid()
    ensures NewEngagement(data, id, now).None? ==> r == ServerError && db.engagements == old(db.engagements)
    ensures NewEngagement(data, id, now).Some? ==>
              var e := NewEngagement(data, id, now).value;
              db.engagements == old(db.engagements)[id := e] && r == Response(201, ItemBody(e))
  {
    var e := NewEngagement(data, id, now);
    if e.None? {
      return ServerError;
    }
    db.PutEngagement(id, e.value);
    r := Response(201, ItemBody(e.value));
  }

  method UpdateEngagement(db: Store, id: string, data: Record, now: int) returns (r: Response)
    requires db.Valid()
    modifies db`engagements
    ensures db.Valid()
    ensures id !in old(db.engagements) ==>
              r == Response(404, ErrorBody("Engagement not found")) && db.engagements == old(db.engagements)
    ensures id in old(db.engagements) ==>
              && db.engagements == old(db.engagements)[id := UpdatedEngagement(old(db.engagements)[id], data, now)]
              && r == Response(200, ItemBody(db.engagements[id]))
  {
    if id !in db.engagements {
      return Response(404, ErrorBody("Engagement not found"));
    }
    var existing := db.engagements[id];
    var request := data;
    if Closing(existing, data) {
      request := request[CompletedDate := DateOf(now)];
    }
    var item := ApplyUpdates(existing, request, EngagementFields, now);
    UpdatedEngagementValid(id, existing, data, now);
    db.PutEngagement(id, item);
    r := Response(200, ItemBody(item));
  }

  /** An update keeps the attributes every stored engagement carries. */
  lemma UpdatedEngagementValid(id: string, existing: Record, data: Record, now: int)
    requires KeyedBy(Id, id, existing) && Name in existing && Status in existing
    ensures var e := UpdatedEngagement(existing, data, now); KeyedBy(Id, id, e) && Name in e && Status in e
  {
    assert Id !in EngagementFields;
    UpdateKeys(existing, data, now);
    UpdateKeepsOthers(existing, data, now);
  }

  /** `delete_item` succeeds whether or not the id exists. */
  method DeleteEngagement(db: Store, id: string) returns (r: Response)
    requires db.Valid()
    modifies db`engagements
    ensures db.Valid()
    ensures db.engagements == old(db.engagements) - {id} && id !in db.engagements
    ensures r == Response(200, MessageBody("Engagement deleted"))
  {
    db.engagements := db.engagements - {id};
    r := Response(200, MessageBody("Engagement deleted"));
  }

  function GetEngagement(engagements: map<string, Record>, id: string): (r: Response)
    ensures r.status == 200 <==> id in engagements
    ensures id in engagements ==> r.body == ItemBody(engagements[id])
    ensures id !in engagements ==> r == Response(404, ErrorBody("Engagement not found"))
  {
    if id in engagements then Response(200, ItemBody(engagements[id]))
    else Response(404, ErrorBody("Engagement not found"))
  }

  function UpdatedAtKey(e: Record): Key
  {
    TimeKey(e, UpdatedAt)
  }

  /** `list_engagements`: exactly the engagements with the asked status (all
      of them without one), most recently updated first. */
  function ListEngagements(engagements: map<string, Record>, scan: seq<string>, status: Option<string>): (r: Response)
    requires IsScan(engagements, scan)
    ensures r.status == 200 && r.body.ListingBody? && r.body.name == "engagements"
    ensures Sorted(r.body.items, UpdatedAtKey, true)
    ensures forall x :: x in r.body.items <==>
              x in engagements.Values && (status.None? || (Status in x && x[Status] == Str(status.value)))
    ensures |r.body.items| == |Matching(engagements, engagements.Keys, Equals(Status, status))|
  {
    Response(200, ListingBody("engagements", Listed(engagements, scan, Equals(Status, status), UpdatedAtKey, true)))
  }

  /** Closing stamps the date and reopening does not clear it: a closed
      engagement moved back to `active` keeps the date of its closing. */
  lemma CloseThenReopenKeepsDate(e: Record, t1: int, t2: int)
    requires !IsClosed(Get(e, Status, Null))
    ensures var closed := UpdatedEngagement(e, map[Status := Str("closed-complete")], t1);
            var reopened := UpdatedEngagement(closed, map[Status := Str("active")], t2);
            && closed[CompletedDate] == DateOf(t1)
            && reopened[Status] == Str("active")
            && reopened[CompletedDate] == DateOf(t1)
  {
    var close := map[Status := Str("closed-complete")];
    var reopen := map[Status := Str("active")];
    assert Status in EngagementFields;
    assert Closing(e, close);
    var closed := UpdatedEngagement(e, close, t1);
    UpdateStoresRequest(e, close, t1);
    assert !Closing(closed, reopen);
    UpdateStoresRequest(closed, reopen, t2);
  }

  /** Closing an engagement that is already closed keeps its first date. */
  lemma ReclosingKeepsDate(e: Record, t: int)
    requires IsClosed(Get(e, Status, Null)) && CompletedDate in e
    ensures UpdatedEngagement(e, map[Status := Str("closed-failed")], t)[CompletedDate] == e[CompletedDate]
  {
  }
}
