/** The agents handler: agents with unique names on creation, listed by
    name ignoring case, each optionally joined to the engagements that list
    it; get (always joined), allow-listed update and delete. */
module Agents {
  import opened Values
  import opened Ordering
  import opened Tables

  /** The attributes `update_agent` lets a caller set, in its order. */
  const AgentFields: seq<Attr> := [Name, Description, Type, Platform, Capabilities, Status]

  /** The optional attributes `create_agent` copies from the request, with
      the value each takes when the request leaves it out. */
  const AgentDefaults: map<Attr, Value> :=
    map[Description := Str(""), Type := Str("assistant"), Platform := Str("braintrust"),
        Capabilities := Arr([]), Status := Str("active")]

  /** No two agents of the table share a name. */
  predicate NamesUnique(agents: map<string, Record>)
  {
    forall j, k :: j in agents && k in agents && j != k && Name in agents[j] && Name in agents[k] ==>
      agents[j][Name] != agents[k][Name]
  }

  /** Some agent of the table has this name (the scan `#n = :name`). */
  predicate NameTaken(agents: map<string, Record>, name: Value)
  {
    exists k :: k in agents && Name in agents[k] && agents[k][Name] == name
  }

  /** The item `create_agent` writes. */
  function NewAgent(data: Record, id: string, now: int): (a: Record)
    requires Name in data
    ensures KeyedBy(Id, id, a) && Name in a && a[Name] == data[Name]
    ensures CreatedAt in a && UpdatedAt in a && a[CreatedAt] == a[UpdatedAt] == Time(now)
  {
    Filled(data, AgentDefaults)[Id := Str(id)][Name := data[Name]][CreatedAt := Time(now)][UpdatedAt := Time(now)]
  }

  /** A new agent is an active `assistant` on `braintrust` with no
      capabilities, unless the request says otherwise. */
  lemma NewAgentDefaults(data: Record, id: string, now: int)
    requires Name in data
    ensures var a := NewAgent(data, id, now);
      && a[Type] == Get(data, Type, Str("assistant"))
      && a[Platform] == Get(data, Platform, Str("braintrust"))
      && a[Capabilities] == Get(data, Capabilities, Arr([]))
      && a[Status] == Get(data, Status, Str("active"))
      && a[Description] == Get(data, Description, Str(""))
  {
    assert Type in AgentDefaults && Platform in AgentDefaults && Capabilities in AgentDefaults;
    assert Status in AgentDefaults && Description in AgentDefaults;
  }

  /** `create_agent`: `data['name']` raises without a name, and a name some
      agent already has is refused with 409. */
  function CreateAgentOutcome(data: Record, agents: map<string, Record>, id: string, now: int): (c: Creation)
    ensures Name !in data ==> c == Creation(ServerError, None)
    ensures Name in data && NameTaken(agents, data[Name]) ==>
              c == Creation(Response(409, ErrorBody("Agent with this name already exists")), None)
    ensures Name in data && !NameTaken(agents, data[Name]) ==>
              c.stored == Some(NewAgent(data, id, now)) && c.response == Response(201, ItemBody(NewAgent(data, id, now)))
  {
    if Name !in data then Creation(ServerError, None)
    else if NameTaken(agents, data[Name]) then
      Creation(Response(409, ErrorBody("Agent with this name already exists")), None)
    else
      var a := NewAgent(data, id, now);
      Creation(Response(201, ItemBody(a)), Some(a))
  }

  method CreateAgent(db: Store, data: Record, id: string, now: int) returns (r: Response)
    requires db.Valid()
    modifies db`agents
    ensures db.Valid()
    ensures var c := CreateAgentOutcome(data, old(db.agents), id, now);
      && r == c.response
      && db.agents == (if c.stored.Some? then old(db.agents)[id := c.stored.value] else old(db.agents))
  {
    var c := CreateAgentOutcome(data, db.agents, id, now);
    if c.stored.Some? {
      db.PutAgent(id, c.stored.value);
    }
    r := c.response;
  }

  /** Creation keeps names unique: a new agent, under a fresh id, never
      shares its name with another. */
  lemma CreateKeepsNamesUnique(data: Record, agents: map<string, Record>, id: string, now: int)
    requires NamesUnique(agents) && id !in agents
    ensures var c := CreateAgentOutcome(data, agents, id, now);
      c.stored.Some? ==> NamesUnique(agents[id := c.stored.value])
  {
    var c := CreateAgentOutcome(data, agents, id, now);
    if c.stored.Some? {
      var t := agents[id := c.stored.value];
      forall j, k | j in t && k in t && j != k && Name in t[j] && Name in t[k]
        ensures t[j][Name] != t[k][Name]
      {
        if j == id {
          assert t[k] == agents[k];
        } else if k == id {
          assert t[j] == agents[j];
        }
      }
    }
  }

  /** The item after `update_agent`: the allowed attributes the request
      carries are set, with no check that a new name is free. */
  function UpdatedAgent(existing: Record, data: Record, now: int): (a: Record)
    ensures UpdatedAt in a && a[UpdatedAt] == Time(now)
    ensures forall f :: f in data && f in AgentFields ==> f in a && a[f] == data[f]
    ensures forall f :: f in existing && f !in AgentFields && f != UpdatedAt ==> f in a && a[f] == existing[f]
    ensures forall f :: f in existing && f !in data && f != UpdatedAt ==> f in a && a[f] == existing[f]
    ensures forall f :: f in a ==> f in existing || f in AgentFields || f == UpdatedAt
  {
    assert UpdatedAt !in AgentFields;
    Applied(existing, data, AgentFields, now)
  }

  /** Renaming an agent to another agent's name succeeds, so two agents can
      end up sharing a name. */
  lemma UpdateCanDuplicateNames(agents: map<string, Record>, j: string, k: string, now: int)
    requires j in agents && k in agents && j != k && Name in agents[k]
    ensures var t := agents[j := UpdatedAgent(agents[j], map[Name := agents[k][Name]], now)];
      !NamesUnique(t)
  {
    var t := agents[j := UpdatedAgent(agents[j], map[Name := agents[k][Name]], now)];
    assert t[j][Name] == t[k][Name];
  }

  method UpdateAgent(db: Store, id: string, data: Record, now: int) returns (r: Response)
    requires db.Valid()
    modifies db`agents
    ensures db.Valid()
    ensures id !in old(db.agents) ==> r == Response(404, ErrorBody("Agent not found")) && db.agents == old(db.agents)
    ensures id in old(db.agents) ==>
              && db.agents == old(db.agents)[id := UpdatedAgent(old(db.agents)[id], data, now)]
              && r == Response(200, ItemBody(db.agents[id]))
  {
    if id !in db.agents {
      return Response(404, ErrorBody("Agent not found"));
    }
    var item := ApplyUpdates(db.agents[id], data, AgentFields, now);
    UpdatedAgentValid(id, db.agents[id], data, now);
    db.PutAgent(id, item);
    r := Response(200, ItemBody(item));
  }

  lemma UpdatedAgentValid(id: string, existing: Record, data: Record, now: int)
    requires KeyedBy(Id, id, existing) && Name in existing
    ensures var a := UpdatedAgent(existing, data, now); KeyedBy(Id, id, a) && Name in a
  {
    assert Id !in AgentFields;
  }

  /** `delete_item` succeeds whether or not the id exists. */
  method DeleteAgent(db: Store, id: string) returns (r: Response)
    requires db.Valid()
    modifies db`agents
    ensures db.Valid()
    ensures db.agents == old(db.agents) - {id} && id !in db.agents
    ensures r == Response(200, MessageBody("Agent deleted"))
  {
    db.agents := db.agents - {id};
    r := Response(200, MessageBody("Agent deleted"));
  }

  /** The engagement lists the agent named `name` in its `agents`. */
  predicate Lists(e: Record, name: Value)
  {
    Contains(Get(e, Agents, Arr([])), name) == Some(true)
  }

  /** Every engagement of a well-formed table carries the attributes the
      join reads with `eng['...']`. */
  predicate Joinable(engs: seq<Record>)
  {
    forall e :: e in engs ==> Id in e && Name in e && Status in e
  }

  /** The summary of an engagement the join appends (`get_agent` adds its
      description). */
  function EngagementSummary(e: Record, withDescription: bool): (v: Value)
    requires Id in e && Name in e && Status in e
    ensures v.Obj? && Id in v.fields && Name in v.fields && Status in v.fields
    ensures v.fields[Id] == e[Id] && v.fields[Name] == e[Name] && v.fields[Status] == e[Status]
    ensures Team in v.fields && v.fields[Team] == Get(e, Team, Str(""))
    ensures withDescription ==> Description in v.fields && v.fields[Description] == Get(e, Description, Str(""))
    ensures v.fields.Keys == {Id, Name, Status, Team} + (if withDescription then {Description} else {})
  {
    var m := map[Id := e[Id], Name := e[Name], Status := e[Status], Team := Get(e, Team, Str(""))];
    Obj(if withDescription then m[Description := Get(e, Description, Str(""))] else m)
  }

  /** The summaries of the engagements that list `name`, in scan order. */
  function Matches(name: Value, engs: seq<Record>, withDescription: bool): (js: seq<Value>)
    requires Joinable(engs)
    ensures |js| <= |engs|
  {
    if engs == [] then []
    else
      var last := engs[|engs| - 1];
      Matches(name, engs[..|engs| - 1], withDescription)
        + (if Lists(last, name) then [EngagementSummary(last, withDescription)] else [])
  }

  /** The join lists exactly the engagements that list the agent. */
  lemma {:induction false} MatchesExact(name: Value, engs: seq<Record>, withDescription: bool, v: Value)
    requires Joinable(engs)
    ensures v in Matches(name, engs, withDescription) <==>
              exists e :: e in engs && Lists(e, name) && v == EngagementSummary(e, withDescription)
  {
    if engs != [] {
      var init := engs[..|engs| - 1];
      var last := engs[|engs| - 1];
      assert Joinable(init);
      MatchesExact(name, init, withDescription, v);
      assert forall e :: e in engs <==> e in init || e == last by {
        assert engs == init + [last];
      }
      if v in Matches(name, init, withDescription) {
        var e :| e in init && Lists(e, name) && v == EngagementSummary(e, withDescription);
        assert e in engs;
      } else if exists e :: e in engs && Lists(e, name) && v == EngagementSummary(e, withDescription) {
        var e :| e in engs && Lists(e, name) && v == EngagementSummary(e, withDescription);
        assert e == last;
      }
    }
  }

  /** The loop over the engagements one agent is matched against: None when
      an `agents` attribute cannot be searched. */
  predicate Unsearchable(engs: seq<Record>, name: Value)
  {
    exists e :: e in engs && Contains(Get(e, Agents, Arr([])), name).None?
  }

  method JoinEngagements(name: Value, engs: seq<Record>, withDescription: bool) returns (js: Option<seq<Value>>)
    requires Joinable(engs)
    ensures js.None? <==> Unsearchable(engs, name)
    ensures js.Some? ==> js.value == Matches(name, engs, withDescription)
  {
    var acc: seq<Value> := [];
    for i := 0 to |engs|
      invariant acc == Matches(name, engs[..i], withDescription)
      invariant forall j :: 0 <= j < i ==> Contains(Get(engs[j], Agents, Arr([])), name).Some?
    {
      var eng := engs[i];
      var found := Contains(Get(eng, Agents, Arr([])), name);
      if found.None? {
        return None;
      }
      MatchesStep(name, engs, i, withDescription);
      if found.value {
        acc := acc + [EngagementSummary(eng, withDescription)];
      }
    }
    assert engs[..|engs|] == engs;
    return Some(acc);
  }

  /** One more engagement of the scan adds its summary when it lists the
      agent. */
  lemma MatchesStep(name: Value, engs: seq<Record>, i: nat, withDescription: bool)
    requires Joinable(engs) && i < |engs|
    ensures Joinable(engs[..i]) && Joinable(engs[..i + 1])
    ensures Matches(name, engs[..i + 1], withDescription) ==
              Matches(name, engs[..i], withDescription)
                + (if Lists(engs[i], name) then [EngagementSummary(engs[i], withDescription)] else [])
  {
    assert engs[..i + 1][..i] == engs[..i];
  }

  /** The engagements of a table in scan order. */
  function ScanAll(engagements: map<string, Record>, engScan: seq<string>): (engs: seq<Record>)
    requires IsScan(engagements, engScan)
    ensures forall e :: e in engs <==> e in engagements.Values
    ensures EngagementsValid(engagements) ==> Joinable(engs)
  {
    SelectExact(engagements, engScan, All);
    var engs := Select(engagements, engScan, All);
    assert forall e :: e in engs ==> exists k :: k in engagements && engagements[k] == e;
    engs
  }

  function All(x: Record): bool
  {
    true
  }

  /** `get_agent`: 404 for an unknown id; otherwise the agent with its
      engagements. */
  function GetAgent(agents: map<string, Record>, id: string, engagements: map<string, Record>, engScan: seq<string>): (r: Response)
    requires AgentsValid(agents) && EngagementsValid(engagements) && IsScan(engagements, engScan)
    ensures id !in agents ==> r == Response(404, ErrorBody("Agent not found"))
    ensures id in agents && !Unsearchable(ScanAll(engagements, engScan), agents[id][Name]) ==>
              && r.status == 200 && r.body.ItemBody?
              && r.body.item - {Engagements} == agents[id] - {Engagements}
              && Engagements in r.body.item && r.body.item[Engagements].Arr?
              && forall v :: v in r.body.item[Engagements].items <==>
                   exists e :: e in engagements.Values && Lists(e, agents[id][Name]) && v == EngagementSummary(e, true)
    ensures id in agents && Unsearchable(ScanAll(engagements, engScan), agents[id][Name]) ==> r == ServerError
  {
    if id !in agents then Response(404, ErrorBody("Agent not found"))
    else
      var agent := agents[id];
      var engs := ScanAll(engagements, engScan);
      if Unsearchable(engs, agent[Name]) then ServerError
      else
        var js := Matches(agent[Name], engs, true);
        assert forall v :: v in js <==>
          exists e :: e in engagements.Values && Lists(e, agent[Name]) && v == EngagementSummary(e, true) by {
          forall v ensures v in js <==>
            exists e :: e in engagements.Values && Lists(e, agent[Name]) && v == EngagementSummary(e, true) {
            MatchesExact(agent[Name], engs, true, v);
          }
        }
        Response(200, ItemBody(agent[Engagements := Arr(js)]))
  }

  /** The sort key `x.get('name', '').lower()` of a string name. */
  function NameKey(a: Record): (k: Key)
    ensures Get(a, Name, Str("")).Str? ==> k == Codes(Lower(Get(a, Name, Str("")).s))
  {
    match Get(a, Name, Str(""))
    case Str(s) => Codes(Lower(s))
    case _ => []
  }

  /** Some listed agent has a name that is not a string: `.lower()` raises. */
  predicate Unsortable(items: seq<Record>)
  {
    exists a :: a in items && !Get(a, Name, Str("")).Str?
  }

  /** Some pair of agent and engagement cannot be matched: the join raises. */
  predicate JoinFails(items: seq<Record>, engs: seq<Record>)
    requires forall a :: a in items ==> Name in a
  {
    exists a :: a in items && Unsearchable(engs, a[Name])
  }

  /** The agent with the engagements that list it under `engagements`. */
  function Joined(a: Record, engs: seq<Record>): (j: Record)
    requires Name in a && Joinable(engs)
    ensures j - {Engagements} == a - {Engagements}
    ensures Name in j && j[Name] == a[Name]
    ensures Engagements in j && j[Engagements] == Arr(Matches(a[Name], engs, false))
  {
    a[Engagements := Arr(Matches(a[Name], engs, false))]
  }

  /** Every agent with its engagements attached. */
  function JoinedAll(items: seq<Record>, engs: seq<Record>): (out: seq<Record>)
    requires forall a :: a in items ==> Name in a
    requires Joinable(engs)
    ensures |out| == |items|
    ensures forall i :: 0 <= i < |items| ==> out[i] == Joined(items[i], engs)
  {
    seq(|items|, i requires 0 <= i < |items| => Joined(items[i], engs))
  }

  /** The agents of the table, sorted by lower-cased name. */
  function SortedAgents(agents: map<string, Record>, scan: seq<string>): (items: seq<Record>)
    requires AgentsValid(agents) && IsScan(agents, scan)
    ensures Sorted(items, NameKey, false)
    ensures forall a :: a in items <==> a in agents.Values
    ensures forall a :: a in items ==> Name in a
    ensures |items| == |agents|
  {
    assert Matching(agents, agents.Keys, All) == agents.Keys;
    Listed(agents, scan, All, NameKey, false)
  }

  /** `list_agents`: every agent, sorted by lower-cased name, each joined to
      its engagements when `includeEngagements` is `'true'`. */
  function AgentsListing(agents: map<string, Record>, scan: seq<string>, engagements: map<string, Record>,
                         engScan: seq<string>, withEngagements: bool): (r: Response)
    requires AgentsValid(agents) && IsScan(agents, scan)
    requires EngagementsValid(engagements) && IsScan(engagements, engScan)
  {
    var items := SortedAgents(agents, scan);
    if Unsortable(items) then ServerError
    else if !withEngagements then Response(200, ListingBody("agents", items))
    else
      var engs := ScanAll(engagements, engScan);
      if JoinFails(items, engs) then ServerError
      else Response(200, ListingBody("agents", JoinedAll(items, engs)))
  }

  /** The outer loop of the join: each agent in order gets the engagements
      that list it; None when some pair cannot be matched. */
  method JoinAll(items: seq<Record>, engs: seq<Record>) returns (out: Option<seq<Record>>)
    requires forall a :: a in items ==> Name in a
    requires Joinable(engs)
    ensures out.None? <==> JoinFails(items, engs)
    ensures out.Some? ==> out.value == JoinedAll(items, engs)
  {
    var acc: seq<Record> := [];
    for i := 0 to |items|
      invariant |acc| == i
      invariant forall j :: 0 <= j < i ==> acc[j] == Joined(items[j], engs)
      invariant forall j :: 0 <= j < i ==> !Unsearchable(engs, items[j][Name])
    {
      var agent := items[i];
      var js := JoinEngagements(agent[Name], engs, false);
      if js.None? {
        return None;
      }
      acc := acc + [agent[Engagements := Arr(js.value)]];
    }
    assert acc == JoinedAll(items, engs);
    return Some(acc);
  }

  /** The list handler: sort, then the join when it is asked for. */
  method ListAgents(agents: map<string, Record>, scan: seq<string>, engagements: map<string, Record>,
                    engScan: seq<string>, withEngagements: bool) returns (r: Response)
    requires AgentsValid(agents) && IsScan(agents, scan)
    requires EngagementsValid(engagements) && IsScan(engagements, engScan)
    ensures r == AgentsListing(agents, scan, engagements, engScan, withEngagements)
  {
    var items := SortedAgents(agents, scan);
    if Unsortable(items) {
      return ServerError;
    }
    if !withEngagements {
      return Response(200, ListingBody("agents", items));
    }
    var engs := ScanAll(engagements, engScan);
    var out := JoinAll(items, engs);
    if out.None? {
      return ServerError;
    }
    return Response(200, ListingBody("agents", out.value));
  }

  /** Without the join, a listing succeeds exactly when every name is a
      string, and then holds every agent once, sorted by lower-cased name. */
  lemma PlainListing(agents: map<string, Record>, scan: seq<string>, engagements: map<string, Record>, engScan: seq<string>)
    requires AgentsValid(agents) && IsScan(agents, scan)
    requires EngagementsValid(engagements) && IsScan(engagements, engScan)
    ensures var r := AgentsListing(agents, scan, engagements, engScan, false);
      && (r.status == 200 <==> forall k :: k in agents ==> agents[k][Name].Str?)
      && (r.status != 200 ==> r == ServerError)
      && (r.status == 200 ==>
            && r.body.ListingBody? && r.body.name == "agents" && |r.body.items| == |agents|
            && Sorted(r.body.items, NameKey, false)
            && forall a :: a in r.body.items <==> a in agents.Values)
  {
    var items := SortedAgents(agents, scan);
    if Unsortable(items) {
      var a :| a in items && !Get(a, Name, Str("")).Str?;
      var k :| k in agents && agents[k] == a;
    } else {
      forall k | k in agents
        ensures agents[k][Name].Str?
      {
        assert agents[k] in items;
      }
    }
  }

  /** With the join, each listed agent is the agent sorted into its place,
      unchanged but for its `engagements`, which are exactly the engagements
      that list it. */
  lemma JoinedListing(agents: map<string, Record>, scan: seq<string>, engagements: map<string, Record>, engScan: seq<string>)
    requires AgentsValid(agents) && IsScan(agents, scan)
    requires EngagementsValid(engagements) && IsScan(engagements, engScan)
    ensures var r := AgentsListing(agents, scan, engagements, engScan, true);
      var items := SortedAgents(agents, scan);
      r.status == 200 ==>
        && r.body.ListingBody? && |r.body.items| == |items|
        && forall i :: 0 <= i < |items| ==>
             && r.body.items[i] - {Engagements} == items[i] - {Engagements}
             && Engagements in r.body.items[i] && r.body.items[i][Engagements].Arr?
             && forall v :: v in r.body.items[i][Engagements].items <==>
                  exists k :: k in engagements && Lists(engagements[k], items[i][Name])
                                && v == EngagementSummary(engagements[k], false)
  {
    JoinedItems(SortedAgents(agents, scan), engagements, engScan);
  }

  /** Every agent of a list, joined: each one's `engagements` are exactly the
      summaries of the engagements that list it. */
  lemma JoinedItems(items: seq<Record>, engagements: map<string, Record>, engScan: seq<string>)
    requires forall a :: a in items ==> Name in a
    requires EngagementsValid(engagements) && IsScan(engagements, engScan)
    ensures var joined := JoinedAll(items, ScanAll(engagements, engScan));
      forall i :: 0 <= i < |items| ==>
        forall v :: v in joined[i][Engagements].items <==>
          exists k :: k in engagements && Lists(engagements[k], items[i][Name])
                        && v == EngagementSummary(engagements[k], false)
  {
    forall i | 0 <= i < |items| {
      JoinedAgentExact(items[i], engagements, engScan);
    }
  }

  /** One agent of the listing, joined: its `engagements` are exactly the
      summaries of the engagements that list it. */
  lemma JoinedAgentExact(a: Record, engagements: map<string, Record>, engScan: seq<string>)
    requires Name in a && EngagementsValid(engagements) && IsScan(engagements, engScan)
    ensures var j := Joined(a, ScanAll(engagements, engScan));
      forall v :: v in j[Engagements].items <==>
        exists k :: k in engagements && Lists(engagements[k], a[Name]) && v == EngagementSummary(engagements[k], false)
  {
    var engs := ScanAll(engagements, engScan);
    forall v
      ensures v in Matches(a[Name], engs, false) <==>
                exists k :: k in engagements && Lists(engagements[k], a[Name]) && v == EngagementSummary(engagements[k], false)
    {
      MatchesExact(a[Name], engs, false, v);
      if v in Matches(a[Name], engs, false) {
        var e :| e in engs && Lists(e, a[Name]) && v == EngagementSummary(e, false);
        var k :| k in engagements && engagements[k] == e;
      }
    }
  }

  /** An agent whose name is not a string fails every listing. */
  lemma UnsortableNameFails(agents: map<string, Record>, scan: seq<string>, engagements: map<string, Record>,
                            engScan: seq<string>, withEngagements: bool, k: string)
    requires AgentsValid(agents) && IsScan(agents, scan)
    requires EngagementsValid(engagements) && IsScan(engagements, engScan)
    requires k in agents && !agents[k][Name].Str?
    ensures AgentsListing(agents, scan, engagements, engScan, withEngagements) == ServerError
  {
    assert agents[k] in SortedAgents(agents, scan);
  }
}
