/** JSON-like values and DynamoDB-style records shared by every handler. */
module Values {

  /** An attribute value. `Time` is a server-stamped timestamp (seconds since
      the Unix epoch, standing for `datetime.utcnow().isoformat() + 'Z'`);
      `Day` is the calendar-day prefix `now[:10]` of such a timestamp. */
  datatype Value =
    | Null
    | Bool(b: bool)
    | Num(n: int)
    | Str(s: string)
    | Arr(items: seq<Value>)
    | Obj(fields: map<Attr, Value>)
    | Time(t: int)
    | Day(d: int)

  /** An attribute name. Every name the handlers read or write has its own
      constructor (the camel-case name with a capital first letter, so `Id`
      is `'id'` and `CompletedDate` is `'completedDate'`); any other key of a
      request body is `Other(name)`, with a name that is none of those. */
  datatype Attr =
    | Id | Name | Team | Description | Status | Owner | Stakeholders | Tools
    | Agents | Objectives | ChatSpace | SuccessMetrics | Blockers | NextSteps
    | Notes | StartDate | TargetDate | CompletedDate | CreatedAt | UpdatedAt
    | Token | EngagementId | EngagementName | RecipientName | RecipientEmail
    | RecipientRole | Message | RequestedBy | ExpiresAt | ExpiresAtTTL
    | ExpiryDays | FeedbackUrl | Engagement | CompletedAt
    | SubmitterName | SubmitterEmail | SubmitterRole | SubmitterTeam | Rating
    | TestimonialText | WhatWorkedWell | WhatCouldImprove | WouldRecommend
    | Source | SolicitationToken | Approved | Featured | SubmittedAt
    | Title | Priority | Assignee | DueDate
    | Type | Platform | Capabilities | Engagements
    | Summary | CachedAt | MessageCount | HasChatSpace | ChatSpaceUrl | FromCache
    | Other(name: string)

  /** One item of a table, or one JSON request body: attribute to value. */
  type Record = map<Attr, Value>

  datatype Option<T> = None | Some(value: T)

  const SecondsPerDay: int := 86400

  /** The date prefix `now[:10]` of the timestamp `now`. */
  function DateOf(now: int): Value
  {
    Day(now / SecondsPerDay)
  }

  /** Python truthiness of a JSON value (`if value:`). */
  predicate Truthy(v: Value)
  {
    match v
    case Null => false
    case Bool(b) => b
    case Num(n) => n != 0
    case Str(s) => s != ""
    case Arr(xs) => xs != []
    case Obj(m) => m != map[]
    case Time(_) => true
    case Day(_) => true
  }

  /** A value Python can hash (a set member, a dictionary key): a list or an
      object is unhashable and raises. */
  predicate Hashable(v: Value)
  {
    !v.Arr? && !v.Obj?
  }

  /** `n` occurs in `s` as a run of consecutive characters. */
  predicate IsSubstring(n: string, s: string)
  {
    exists i :: 0 <= i <= |s| && n <= s[i..]
  }

  /** Python's `name in container`: element equality in a list, a substring
      test in a string; `None`, a boolean or a number raises (None); an
      object or a timestamp holds no such key. */
  function Contains(container: Value, name: Value): (r: Option<bool>)
    ensures container.Arr? ==> r == Some(name in container.items)
    ensures container.Str? && name.Str? ==> r == Some(IsSubstring(name.s, container.s))
    ensures r.None? <==> container.Null? || container.Bool? || container.Num? || (container.Str? && !name.Str?)
  {
    match container
    case Arr(xs) => Some(name in xs)
    case Str(s) => if name.Str? then Some(IsSubstring(name.s, s)) else None
    case Null => None
    case Bool(_) => None
    case Num(_) => None
    case _ => Some(false)
  }


  /** `r.get(f, d)` */
  function Get(r: Record, f: Attr, d: Value): (v: Value)
    ensures f in r ==> v == r[f]
    ensures f !in r ==> v == d
  {
    if f in r then r[f] else d
  }

  /** The table key a value denotes: DynamoDB accepts only a non-empty string
      for a string key attribute and rejects the request otherwise. */
  function KeyOf(v: Value): (k: Option<string>)
    ensures k.Some? <==> v.Str? && v.s != ""
    ensures k.Some? ==> v == Str(k.value)
  {
    if v.Str? && v.s != "" then Some(v.s) else None
  }

  /** The body of an HTTP answer, after JSON serialisation is taken away. */
  datatype Body =
    | ErrorBody(error: string)
    | MessageBody(message: string)
    | ItemBody(item: Record)
    | ListingBody(name: string, items: seq<Record>)
    | TasksBody(tasks: seq<Record>, summary: TaskSummary)

  /** The `summary` object beside a list of tasks. */
  datatype TaskSummary = TaskSummary(total: int, completed: int, inProgress: int, pending: int, percentComplete: int)

  datatype Response = Response(status: int, body: Body)

  /** The answer of a handler's `except Exception` branch. */
  const ServerError: Response := Response(500, ErrorBody("internal error"))

  /** What a create handler does with a request: the answer, and the item it
      stores, if any. */
  datatype Creation = Creation(response: Response, stored: Option<Record>)

  /** The item `{f: data.get(f, d) for f, d in defaults}` a create handler
      writes, before the server adds its own attributes. */
  function Filled(data: Record, defaults: map<Attr, Value>): (r: Record)
    ensures r.Keys == defaults.Keys
    ensures forall f :: f in r ==> r[f] == Get(data, f, defaults[f])
  {
    map f | f in defaults :: Get(data, f, defaults[f])
  }

  /** The item after `UpdateExpression='SET ...'` over those of `fields` that
      `data` carries: they take the request's value, every other attribute
      keeps its own, and none is removed. */
  function Assigned(item: Record, data: Record, fields: seq<Attr>): (r: Record)
    ensures forall f :: f in r <==> f in item || (f in fields && f in data)
    ensures forall f :: f in r ==> r[f] == if f in fields && f in data then data[f] else item[f]
  {
    if fields == [] then item
    else
      var f := fields[|fields| - 1];
      var r := Assigned(item, data, fields[..|fields| - 1]);
      if f in data then r[f := data[f]] else r
  }

  /** The item an `update_*` handler leaves: the allow-listed attributes of
      the request set, and `updatedAt` stamped. */
  function Applied(existing: Record, data: Record, allowed: seq<Attr>, now: int): (r: Record)
    ensures forall f :: f in r <==> f in existing || (f in allowed && f in data) || f == UpdatedAt
    ensures r[UpdatedAt] == Time(now)
    ensures forall f :: f in allowed && f in data && f != UpdatedAt ==> r[f] == data[f]
    ensures forall f :: f in existing && f != UpdatedAt && !(f in allowed && f in data) ==> r[f] == existing[f]
  {
    Assigned(existing, data, allowed)[UpdatedAt := Time(now)]
  }

  /** The loop of every `update_*` handler: for each allowed field, in order,
      if the request carries it, add it to the update expression. */
  method CollectUpdates(data: Record, allowed: seq<Attr>) returns (updates: Record)
    ensures forall f :: f in updates <==> f in allowed && f in data
    ensures forall f :: f in updates ==> updates[f] == data[f]
  {
    updates := map[];
    for i := 0 to |allowed|
      invariant forall f :: f in updates <==> f in allowed[..i] && f in data
      invariant forall f :: f in updates ==> updates[f] == data[f]
    {
      var field := allowed[i];
      if field in data {
        updates := updates[field := data[field]];
      }
    }
  }

  /** `update_parts` plus the final `#updatedAt = :updatedAt`, written into the
      existing item: the same item `Applied` describes. */
  method ApplyUpdates(existing: Record, data: Record, allowed: seq<Attr>, now: int) returns (r: Record)
    ensures r == Applied(existing, data, allowed, now)
  {
    var updates := CollectUpdates(data, allowed);
    updates := updates[UpdatedAt := Time(now)];
    r := existing + updates;
    ghost var a := Applied(existing, data, allowed, now);
    assert r.Keys == a.Keys;
    assert forall f :: f in r ==> r[f] == a[f];
  }

  /** ASCII lower-casing of one character (`str.lower` on ASCII text). */
  function LowerChar(c: char): char
  {
    if 'A' <= c <= 'Z' then (c as int + 32) as char else c
  }

  function Lower(s: string): (r: string)
    ensures |r| == |s|
    ensures forall i :: 0 <= i < |s| ==> r[i] == LowerChar(s[i])
  {
    seq(|s|, i requires 0 <= i < |s| => LowerChar(s[i]))
  }
}
