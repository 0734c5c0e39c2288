/** The solicitations handler: a feedback request sent to a client, keyed by
    an unguessable token, that expires after a number of days and is
    completed by one public submission. */
module Solicitations {
  import opened Values
  import opened Ordering
  import opened Tables

  /** The default of `expiryDays`. */
  const DefaultExpiryDays: int := 14

  /** The optional attributes `create_solicitation` copies from the request,
      with the empty string when it leaves one out. */
  const RecipientDefaults: map<Attr, Value> :=
    map[RecipientName := Str(""), RecipientEmail := Str(""), RecipientRole := Str(""),
        Message := Str(""), RequestedBy := Str("")]

  /** The number of days `timedelta(days=...)` is given: a number, or a
      boolean (an integer in Python); any other value raises. */
  function ExpiryDaysOf(data: Record): (days: Option<int>)
    ensures ExpiryDays !in data ==> days == Some(DefaultExpiryDays)
    ensures ExpiryDays in data && data[ExpiryDays].Num? ==> days == Some(data[ExpiryDays].n)
    ensures days.None? <==> ExpiryDays in data && !data[ExpiryDays].Num? && !data[ExpiryDays].Bool?
  {
    match Get(data, ExpiryDays, Num(DefaultExpiryDays))
    case Num(n) => Some(n)
    case Bool(b) => Some(if b then 1 else 0)
    case _ => None
  }

  /** The link the response carries, `{FRONTEND_URL}/feedback.html?token={token}`. */
  function FeedbackLink(frontendUrl: string, token: string): (url: string)
    ensures |url| == |frontendUrl| + 21 + |token|
    ensures url[..|frontendUrl|] == frontendUrl
    ensures url[|frontendUrl|..|frontendUrl| + 21] == "/feedback.html?token="
    ensures url[|url| - |token|..] == token
  {
    frontendUrl + "/feedback.html?token=" + token
  }

  /** The stored solicitation: pending, naming the engagement, and expiring
      `days` whole days after `now`, the TTL attribute holding the same
      instant as a number. */
  function NewSolicitation(data: Record, engagement: Record, token: string, now: int, days: int): (s: Record)
    requires EngagementId in data
    ensures KeyedBy(Token, token, s)
    ensures EngagementId in s && s[EngagementId] == data[EngagementId]
    ensures Status in s && s[Status] == Str("pending")
    ensures CreatedAt in s && s[CreatedAt] == Time(now)
    ensures ExpiresAt in s && ExpiresAtTTL in s
    ensures s[ExpiresAt] == Time(now + days * SecondsPerDay) && s[ExpiresAtTTL] == Num(s[ExpiresAt].t)
    ensures EngagementName in s && s[EngagementName] == Get(engagement, Name, Str(""))
  {
    Filled(data, RecipientDefaults)[
      Token := Str(token)][
      EngagementId := data[EngagementId]][
      EngagementName := Get(engagement, Name, Str(""))][
      Status := Str("pending")][
      CreatedAt := Time(now)][
      ExpiresAt := Time(now + days * SecondsPerDay)][
      ExpiresAtTTL := Num(now + days * SecondsPerDay)]
  }

  function CreateSolicitationOutcome(data: Record, engagements: map<string, Record>, token: string,
                                     now: int, frontendUrl: string): (c: Creation)
    // a missing or empty engagement id is the caller's error
    ensures !Truthy(Get(data, EngagementId, Null)) <==> c.response == Response(400, ErrorBody("engagementId is required"))
    // one that names no engagement is not found
    ensures Truthy(Get(data, EngagementId, Null)) && KeyOf(data[EngagementId]).Some? ==>
              (c.response == Response(404, ErrorBody("Engagement not found")) <==> KeyOf(data[EngagementId]).value !in engagements)
    // a non-string engagement id, or an `expiryDays` that `timedelta` refuses, raises
    ensures Truthy(Get(data, EngagementId, Null)) && KeyOf(data[EngagementId]).None? ==> c == Creation(ServerError, None)
    // a request naming a known engagement is stored exactly when its expiry is usable, and raises otherwise
    ensures Truthy(Get(data, EngagementId, Null)) && KeyOf(data[EngagementId]).Some? && KeyOf(data[EngagementId]).value in engagements ==>
              && (ExpiryDaysOf(data).Some? ==> c.stored.Some?)
              && (ExpiryDaysOf(data).None? ==> c == Creation(ServerError, None))
    // a solicitation is stored exactly when the answer is 201
    ensures c.stored.Some? <==> c.response.status == 201
    ensures c.stored.Some? ==>
              && EngagementId in data && KeyOf(data[EngagementId]).Some? && KeyOf(data[EngagementId]).value in engagements
              && ExpiryDaysOf(data).Some?
              && c.stored.value == NewSolicitation(data, engagements[KeyOf(data[EngagementId]).value], token, now, ExpiryDaysOf(data).value)
              && c.response.body == ItemBody(c.stored.value[FeedbackUrl := Str(FeedbackLink(frontendUrl, token))])
  {
    if !Truthy(Get(data, EngagementId, Null)) then
      Creation(Response(400, ErrorBody("engagementId is required")), None)
    else if KeyOf(data[EngagementId]).None? then
      Creation(ServerError, None)
    else if KeyOf(data[EngagementId]).value !in engagements then
      Creation(Response(404, ErrorBody("Engagement not found")), None)
    else if ExpiryDaysOf(data).None? then
      Creation(ServerError, None)
    else
      var s := NewSolicitation(data, engagements[KeyOf(data[EngagementId]).value], token, now, ExpiryDaysOf(data).value);
      Creation(Response(201, ItemBody(s[FeedbackUrl := Str(FeedbackLink(frontendUrl, token))])), Some(s))
  }

  method CreateSolicitation(db: Store, data: Record, token: string, now: int, frontendUrl: string) returns (r: Response)
    requires db.Valid()
    modifies db`solicitations
    ensures db.Valid()
    ensures var c := CreateSolicitationOutcome(data, old(db.engagements), token, now, frontendUrl);
      && r == c.response
      && db.solicitations == (if c.stored.Some? then old(db.solicitations)[token := c.stored.value] else old(db.solicitations))
  {
    var c := CreateSolicitationOutcome(data, db.engagements, token, now, frontendUrl);
    if c.stored.Some? {
      db.PutSolicitation(token, c.stored.value);
    }
    r := c.response;
  }

  /** The solicitation with its engagement attached under `engagement`,
      when the engagement it names exists. */
  function WithEngagement(s: Record, engagements: map<string, Record>): (r: Record)
    ensures r - {Engagement} == s - {Engagement}
    ensures EngagementId in s && s[EngagementId].Str? && s[EngagementId].s in engagements ==>
              Engagement in r && r[Engagement] == Obj(engagements[s[EngagementId].s])
    ensures !(EngagementId in s && s[EngagementId].Str? && s[EngagementId].s in engagements) ==> r == s
  {
    if EngagementId in s && s[EngagementId].Str? && s[EngagementId].s in engagements then
      s[Engagement := Obj(engagements[s[EngagementId].s])]
    else s
  }

  /** `get_solicitation` as the public feedback form calls it: not found,
      expired (strictly after `expiresAt`), already completed, in that order;
      otherwise the solicitation with its engagement attached. */
  function GetSolicitation(solicitations: map<string, Record>, engagements: map<string, Record>,
                           token: string, now: int): (r: Response)
    ensures token !in solicitations ==> r == Response(404, ErrorBody("Solicitation not found or expired"))
    ensures token in solicitations && SolicitationValid(token, solicitations[token]) ==>
              var s := solicitations[token];
              && (now > s[ExpiresAt].t ==> r == Response(410, ErrorBody("This feedback request has expired")))
              && (now <= s[ExpiresAt].t && s[Status] == Str("completed") ==>
                    r == Response(410, ErrorBody("This feedback request has already been completed")))
              && (now <= s[ExpiresAt].t && s[Status] == Str("pending") ==>
                    r == Response(200, ItemBody(WithEngagement(s, engagements))))
  {
    if token !in solicitations then Response(404, ErrorBody("Solicitation not found or expired"))
    else
      var s := solicitations[token];
      if Truthy(Get(s, ExpiresAt, Null)) && !s[ExpiresAt].Time? then ServerError
      else if Truthy(Get(s, ExpiresAt, Null)) && now > s[ExpiresAt].t then
        Response(410, ErrorBody("This feedback request has expired"))
      else if Get(s, Status, Null) == Str("completed") then
        Response(410, ErrorBody("This feedback request has already been completed"))
      else if Truthy(Get(s, EngagementId, Null)) && KeyOf(s[EngagementId]).None? then ServerError
      else Response(200, ItemBody(WithEngagement(s, engagements)))
  }

  function CreatedAtKey(s: Record): Key
  {
    TimeKey(s, CreatedAt)
  }

  /** `list_solicitations`: those of one engagement (all of them without an
      `engagementId` parameter), newest first. */
  function ListSolicitations(solicitations: map<string, Record>, scan: seq<string>, engagementId: Option<string>): (r: Response)
    requires IsScan(solicitations, scan)
    ensures r.status == 200 && r.body.ListingBody? && r.body.name == "solicitations"
    ensures Sorted(r.body.items, CreatedAtKey, true)
    ensures |r.body.items| == |Matching(solicitations, solicitations.Keys, Equals(EngagementId, engagementId))|
    ensures forall x :: x in r.body.items <==>
              x in solicitations.Values && (engagementId.None? || (EngagementId in x && x[EngagementId] == Str(engagementId.value)))
  {
    Response(200, ListingBody("solicitations", Listed(solicitations, scan, Equals(EngagementId, engagementId), CreatedAtKey, true)))
  }

  /** A solicitation created with a non-negative expiry opens the feedback
      form, with its engagement, until the moment it expires, and not after. */
  lemma CreatedSolicitationOpens(data: Record, engagements: map<string, Record>, solicitations: map<string, Record>,
                                 token: string, now: int, later: int, frontendUrl: string)
    requires CreateSolicitationOutcome(data, engagements, token, now, frontendUrl).stored.Some?
    requires ExpiryDaysOf(data).value >= 0
    ensures var s := CreateSolicitationOutcome(data, engagements, token, now, frontendUrl).stored.value;
      var r := GetSolicitation(solicitations[token := s], engagements, token, later);
      && (now <= later <= s[ExpiresAt].t ==>
            r == Response(200, ItemBody(s[Engagement := Obj(engagements[data[EngagementId].s])])))
      && (later > s[ExpiresAt].t ==> r.status == 410)
  {
  }

  /** The expiry instant is exactly `expiryDays` days, fourteen by default,
      after the creation instant. */
  lemma DefaultExpiry(data: Record, engagements: map<string, Record>, token: string, now: int, frontendUrl: string)
    requires CreateSolicitationOutcome(data, engagements, token, now, frontendUrl).stored.Some?
    requires ExpiryDays !in data
    ensures CreateSolicitationOutcome(data, engagements, token, now, frontendUrl).stored.value[ExpiresAt]
              == Time(now + 14 * 86400)
  {
  }
}
