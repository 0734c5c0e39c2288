/** The testimonials handler: internal and public submission (ad-hoc, or
    solicited through a feedback link whose solicitation it completes),
    allow-listed update, get, and the list newest first. */
module Testimonials {
  import opened Values
  import opened Ordering
  import opened Tables

  /** The attributes `update_testimonial` lets a caller set, in its order. */
  const TestimonialFields: seq<Attr> :=
    [Approved, Featured, TestimonialText, Rating, WhatWorkedWell, WhatCouldImprove, WouldRecommend]

  /** The attributes `_create_testimonial` copies from the request, each with
      the value it takes when the request leaves it out. */
  const TestimonialDefaults: map<Attr, Value> :=
    map[EngagementId := Str(""), SubmitterName := Str(""), SubmitterEmail := Str(""),
        SubmitterRole := Str(""), SubmitterTeam := Str(""), Rating := Num(0),
        TestimonialText := Str(""), WhatWorkedWell := Str(""), WhatCouldImprove := Str(""),
        WouldRecommend := Bool(true), SolicitationToken := Str(""),
        Approved := Bool(false), Featured := Bool(false)]

  /** The engagement name a testimonial records: the request's own when it is
      truthy or the request names no engagement; otherwise the named
      engagement's `name` (`''` when it has none), or the request's falsy
      value again when no such engagement exists. None when the engagement id
      is not a key DynamoDB accepts (the handler answers 500). */
  function EngagementNameFor(data: Record, engagements: map<string, Record>): (name: Option<Value>)
    ensures name.None? <==>
              && !Truthy(Get(data, EngagementName, Str(""))) && Truthy(Get(data, EngagementId, Null))
              && KeyOf(data[EngagementId]).None?
    ensures Truthy(Get(data, EngagementName, Str(""))) || !Truthy(Get(data, EngagementId, Null)) ==>
              name == Some(Get(data, EngagementName, Str("")))
    ensures !Truthy(Get(data, EngagementName, Str(""))) && EngagementId in data && KeyOf(data[EngagementId]).Some? ==>
              var k := KeyOf(data[EngagementId]).value;
              name == Some(if k in engagements then Get(engagements[k], Name, Str("")) else Get(data, EngagementName, Str("")))
  {
    var given := Get(data, EngagementName, Str(""));
    if Truthy(Get(data, EngagementId, Null)) && !Truthy(given) then
      match KeyOf(data[EngagementId])
      case None => None
      case Some(k) => Some(if k in engagements then Get(engagements[k], Name, Str("")) else given)
    else Some(given)
  }

  /** The item `_create_testimonial` writes. */
  function NewTestimonial(data: Record, id: string, now: int, source: string, name: Value): (t: Record)
    ensures KeyedBy(Id, id, t)
    ensures Source in t && t[Source] == Str(source)
    ensures EngagementName in t && t[EngagementName] == name
    ensures SubmittedAt in t && UpdatedAt in t && t[SubmittedAt] == t[UpdatedAt] == Time(now)
  {
    Filled(data, TestimonialDefaults)[
      Id := Str(id)][
      EngagementName := name][
      Source := Str(source)][
      SubmittedAt := Time(now)][
      UpdatedAt := Time(now)]
  }

  /** The rating is stored as sent, with no clamping to the 1-5 scale, and
      is 0 when the request has none. */
  lemma RatingStoredAsSent(data: Record, id: string, now: int, source: string, name: Value)
    ensures var t := NewTestimonial(data, id, now, source, name);
      Rating in t && t[Rating] == Get(data, Rating, Num(0))
  {
    assert Rating in TestimonialDefaults && TestimonialDefaults[Rating] == Num(0);
  }

  /** Left out of the request, a testimonial is recommended, not approved,
      not featured, and linked to no engagement. */
  lemma NewTestimonialDefaults(data: Record, id: string, now: int, source: string, name: Value)
    requires WouldRecommend !in data && Approved !in data && Featured !in data && EngagementId !in data
    ensures var t := NewTestimonial(data, id, now, source, name);
      && t[WouldRecommend] == Bool(true) && t[Approved] == Bool(false) && t[Featured] == Bool(false)
      && t[EngagementId] == Str("")
  {
    assert TestimonialDefaults[WouldRecommend] == Bool(true);
    assert TestimonialDefaults[Approved] == Bool(false) && TestimonialDefaults[Featured] == Bool(false);
    assert TestimonialDefaults[EngagementId] == Str("");
  }

  /** A testimonial holds exactly the copied attributes and the server's. */
  lemma NewTestimonialKeys(data: Record, id: string, now: int, source: string, name: Value)
    ensures NewTestimonial(data, id, now, source, name).Keys
              == TestimonialDefaults.Keys + {Id, EngagementName, Source, SubmittedAt, UpdatedAt}
  {
    assert Filled(data, TestimonialDefaults).Keys == TestimonialDefaults.Keys;
  }

  /** `_create_testimonial(data, source)`. */
  function CreateTestimonialOutcome(data: Record, engagements: map<string, Record>, id: string,
                                    now: int, source: string): (c: Creation)
    ensures c.stored.Some? <==> EngagementNameFor(data, engagements).Some?
    ensures c.stored.None? ==> c.response == ServerError
    ensures c.stored.Some? ==>
              && c.stored.value == NewTestimonial(data, id, now, source, EngagementNameFor(data, engagements).value)
              && c.response == Response(201, ItemBody(c.stored.value))
  {
    match EngagementNameFor(data, engagements)
    case None => Creation(ServerError, None)
    case Some(name) =>
      var t := NewTestimonial(data, id, now, source, name);
      Creation(Response(201, ItemBody(t)), Some(t))
  }

  /** What `create_public_testimonial` makes of a request before writing the
      testimonial: a refusal, or the request to write with its source label
      and the solicitations table after the token's solicitation is marked
      completed. */
  datatype Admission =
    | Refused(response: Response)
    | Admitted(request: Record, source: string, solicitations: map<string, Record>)

  /** The solicitation after the public form used its link. */
  function Completed(s: Record, now: int): (c: Record)
    ensures Status in c && c[Status] == Str("completed")
    ensures CompletedAt in c && c[CompletedAt] == Time(now)
    ensures forall f :: f in s && f != Status && f != CompletedAt ==> f in c && c[f] == s[f]
  {
    s[Status := Str("completed")][CompletedAt := Time(now)]
  }

  function Admit(data: Record, solicitations: map<string, Record>, now: int): (a: Admission)
    // no token: an ad-hoc submission that touches no solicitation
    ensures !Truthy(Get(data, SolicitationToken, Null)) ==> a == Admitted(data, "ad-hoc", solicitations)
    // otherwise, whatever its expiry, the solicitation is completed and lends the request its engagement
    ensures a.Admitted? && Truthy(Get(data, SolicitationToken, Null)) ==>
              && data[SolicitationToken].Str? && data[SolicitationToken].s in solicitations
              && var token := data[SolicitationToken].s;
              var s := solicitations[token];
              && Get(s, Status, Null) != Str("completed") && EngagementId in s
              && a.source == "solicited"
              && a.solicitations == solicitations[token := Completed(s, now)]
              && a.request == data[EngagementId := s[EngagementId]][EngagementName := Get(s, EngagementName, Str(""))]
  {
    var token := Get(data, SolicitationToken, Null);
    if !Truthy(token) then Admitted(data, "ad-hoc", solicitations)
    else if KeyOf(token).None? then Refused(ServerError)
    else if token.s !in solicitations then Refused(Response(400, ErrorBody("Invalid or expired solicitation token")))
    else
      var s := solicitations[token.s];
      if Get(s, Status, Null) == Str("completed") then
        Refused(Response(400, ErrorBody("This feedback request has already been completed")))
      else if EngagementId !in s then Refused(ServerError)
      else
        Admitted(data[EngagementId := s[EngagementId]][EngagementName := Get(s, EngagementName, Str(""))],
                 "solicited", solicitations[token.s := Completed(s, now)])
  }

  /** A token DynamoDB cannot look up fails the request; an unknown token, or
      one already used, is refused with 400, before anything is written. */
  lemma RefusedTokens(data: Record, solicitations: map<string, Record>, now: int)
    requires Truthy(Get(data, SolicitationToken, Null))
    ensures KeyOf(data[SolicitationToken]).None? ==> Admit(data, solicitations, now) == Refused(ServerError)
    ensures KeyOf(data[SolicitationToken]).Some? ==>
              var token := KeyOf(data[SolicitationToken]).value;
              && (token !in solicitations ==>
                    Admit(data, solicitations, now) == Refused(Response(400, ErrorBody("Invalid or expired solicitation token"))))
              && (token in solicitations && Get(solicitations[token], Status, Null) == Str("completed") ==>
                    Admit(data, solicitations, now)
                      == Refused(Response(400, ErrorBody("This feedback request has already been completed"))))
  {
  }

  /** The tables and the answer after `create_public_testimonial`. The
      solicitation is marked before the testimonial is written, so a write
      that fails would leave it completed. */
  datatype Submission = Submission(response: Response, solicitations: map<string, Record>, stored: Option<Record>)

  function PublicSubmission(data: Record, solicitations: map<string, Record>, engagements: map<string, Record>,
                            id: string, now: int): (p: Submission)
    ensures p.stored.Some? <==> p.response.status == 201
    ensures Admit(data, solicitations, now).Refused? ==>
              p == Submission(Admit(data, solicitations, now).response, solicitations, None)
    ensures p.stored.Some? ==> KeyedBy(Id, id, p.stored.value) && p.response.body == ItemBody(p.stored.value)
  {
    match Admit(data, solicitations, now)
    case Refused(response) => Submission(response, solicitations, None)
    case Admitted(request, source, marked) =>
      var c := CreateTestimonialOutcome(request, engagements, id, now, source);
      Submission(c.response, marked, c.stored)
  }

  method CreateTestimonial(db: Store, data: Record, id: string, now: int) returns (r: Response)
    requires db.Valid()
    modifies db`testimonials
    ensures db.Valid()
    ensures var c := CreateTestimonialOutcome(data, old(db.engagements), id, now, "internal");
      && r == c.response
      && db.testimonials == (if c.stored.Some? then old(db.testimonials)[id := c.stored.value] else old(db.testimonials))
  {
    r := WriteTestimonial(db, data, id, now, "internal");
  }

  /** `_create_testimonial`, writing to the store. */
  method WriteTestimonial(db: Store, data: Record, id: string, now: int, source: string) returns (r: Response)
    requires db.Valid()
    modifies db`testimonials
    ensures db.Valid()
    ensures var c := CreateTestimonialOutcome(data, old(db.engagements), id, now, source);
      && r == c.response
      && db.testimonials == (if c.stored.Some? then old(db.testimonials)[id := c.stored.value] else old(db.testimonials))
  {
    var c := CreateTestimonialOutcome(data, db.engagements, id, now, source);
    if c.stored.Some? {
      db.PutTestimonial(id, c.stored.value);
    }
    r := c.response;
  }

  method CreatePublicTestimonial(db: Store, data: Record, id: string, now: int) returns (r: Response)
    requires db.Valid()
    modifies db`solicitations, db`testimonials
    ensures db.Valid()
    ensures var p := PublicSubmission(data, old(db.solicitations), old(db.engagements), id, now);
      && r == p.response
      && db.solicitations == p.solicitations
      && db.testimonials == (if p.stored.Some? then old(db.testimonials)[id := p.stored.value] else old(db.testimonials))
  {
    var a := Admit(data, db.solicitations, now);
    if a.Refused? {
      return a.response;
    }
    AdmitKeepsValid(data, db.solicitations, now);
    db.solicitations := a.solicitations;
    r := WriteTestimonial(db, a.request, id, now, a.source);
  }

  /** Completing a solicitation keeps the table well-formed. */
  lemma AdmitKeepsValid(data: Record, solicitations: map<string, Record>, now: int)
    requires SolicitationsValid(solicitations)
    ensures Admit(data, solicitations, now).Admitted? ==> SolicitationsValid(Admit(data, solicitations, now).solicitations)
  {
    var token := Get(data, SolicitationToken, Null);
    if Truthy(token) && KeyOf(token).Some? && token.s in solicitations {
      SolicitationsPut(solicitations, token.s, Completed(solicitations[token.s], now));
    }
  }

  /** A token whose solicitation is pending is accepted, whatever the
      solicitation's expiry: the solicitation is completed and lends the
      request its engagement. */
  lemma AdmitPending(data: Record, solicitations: map<string, Record>, now: int, token: string)
    requires token != "" && Get(data, SolicitationToken, Null) == Str(token) && token in solicitations
    requires EngagementId in solicitations[token] && KeyOf(solicitations[token][EngagementId]).Some?
    requires Get(solicitations[token], Status, Null) == Str("pending")
    ensures var s := solicitations[token];
      Admit(data, solicitations, now)
        == Admitted(data[EngagementId := s[EngagementId]][EngagementName := Get(s, EngagementName, Str(""))],
                    "solicited", solicitations[token := Completed(s, now)])
  {
  }

  /** A testimonial records the engagement id and the token the request
      carries, the empty string for either one it lacks. */
  lemma NewTestimonialLinks(data: Record, id: string, now: int, source: string, name: Value)
    ensures var t := NewTestimonial(data, id, now, source, name);
      && EngagementId in t && t[EngagementId] == Get(data, EngagementId, Str(""))
      && SolicitationToken in t && t[SolicitationToken] == Get(data, SolicitationToken, Str(""))
  {
    assert EngagementId in TestimonialDefaults && TestimonialDefaults[EngagementId] == Str("");
    assert SolicitationToken in TestimonialDefaults && TestimonialDefaults[SolicitationToken] == Str("");
  }

  /** A submission with a pending solicitation's token always succeeds, from
      a well-formed store, whether or not the solicitation has expired: the
      solicitation is completed and the testimonial, labelled `solicited`,
      is written from the request with the solicitation's engagement. */
  lemma SolicitedSubmission(data: Record, solicitations: map<string, Record>, engagements: map<string, Record>,
                            id: string, now: int, token: string)
    requires token != "" && Get(data, SolicitationToken, Null) == Str(token) && token in solicitations
    requires EngagementId in solicitations[token] && KeyOf(solicitations[token][EngagementId]).Some?
    requires Get(solicitations[token], Status, Null) == Str("pending")
    ensures var p := PublicSubmission(data, solicitations, engagements, id, now);
      var s := solicitations[token];
      var request := data[EngagementId := s[EngagementId]][EngagementName := Get(s, EngagementName, Str(""))];
      && p.response.status == 201
      && p.solicitations == solicitations[token := Completed(s, now)]
      && EngagementNameFor(request, engagements).Some?
      && p.stored == Some(NewTestimonial(request, id, now, "solicited", EngagementNameFor(request, engagements).value))
  {
    var s := solicitations[token];
    var request := data[EngagementId := s[EngagementId]][EngagementName := Get(s, EngagementName, Str(""))];
    AdmitPending(data, solicitations, now, token);
    AdmittedSubmission(data, solicitations, engagements, id, now, request, "solicited",
                       solicitations[token := Completed(s, now)]);
  }

  /** An admitted request whose engagement id is a valid key is written:
      201, with the testimonial built from it. */
  lemma AdmittedSubmission(data: Record, solicitations: map<string, Record>, engagements: map<string, Record>,
                           id: string, now: int, request: Record, source: string, marked: map<string, Record>)
    requires Admit(data, solicitations, now) == Admitted(request, source, marked)
    requires EngagementId in request && KeyOf(request[EngagementId]).Some?
    ensures var p := PublicSubmission(data, solicitations, engagements, id, now);
      && EngagementNameFor(request, engagements).Some?
      && p.response.status == 201 && p.solicitations == marked
      && p.stored == Some(NewTestimonial(request, id, now, source, EngagementNameFor(request, engagements).value))
  {
    PublicAdmitted(data, solicitations, engagements, id, now);
  }

  /** The testimonial of a solicited submission carries the token and the
      solicitation's engagement id. */
  lemma SolicitedTestimonialLinks(data: Record, s: Record, name: Value, id: string, now: int, token: string)
    requires Get(data, SolicitationToken, Null) == Str(token) && EngagementId in s
    ensures var request := data[EngagementId := s[EngagementId]][EngagementName := Get(s, EngagementName, Str(""))];
      var t := NewTestimonial(request, id, now, "solicited", name);
      && t[Source] == Str("solicited")
      && t[SolicitationToken] == Str(token)
      && t[EngagementId] == s[EngagementId]
  {
    var request := data[EngagementId := s[EngagementId]][EngagementName := Get(s, EngagementName, Str(""))];
    NewTestimonialLinks(request, id, now, "solicited", name);
  }

  /** An admitted request is written as `_create_testimonial` writes it, the
      solicitation completed even if the write fails. */
  lemma PublicAdmitted(data: Record, solicitations: map<string, Record>, engagements: map<string, Record>,
                       id: string, now: int)
    requires Admit(data, solicitations, now).Admitted?
    ensures var a := Admit(data, solicitations, now);
      var c := CreateTestimonialOutcome(a.request, engagements, id, now, a.source);
      PublicSubmission(data, solicitations, engagements, id, now) == Submission(c.response, a.solicitations, c.stored)
  {
  }

  /** A feedback link works once: after a successful submission with a
      token, any later submission with it is refused with 400 and changes
      nothing. */
  lemma SubmissionSingleUse(data: Record, later: Record, solicitations: map<string, Record>,
                            engagements: map<string, Record>, id: string, id2: string, now: int, now2: int)
    requires Truthy(Get(data, SolicitationToken, Null))
    requires PublicSubmission(data, solicitations, engagements, id, now).response.status == 201
    requires Get(later, SolicitationToken, Null) == data[SolicitationToken]
    ensures var marked := PublicSubmission(data, solicitations, engagements, id, now).solicitations;
      PublicSubmission(later, marked, engagements, id2, now2)
        == Submission(Response(400, ErrorBody("This feedback request has already been completed")), marked, None)
  {
    var marked := PublicSubmission(data, solicitations, engagements, id, now).solicitations;
    var token := data[SolicitationToken].s;
    assert Admit(data, solicitations, now).Admitted?;
    assert marked[token][Status] == Str("completed");
  }

  /** A submission without a token is labelled `ad-hoc` and leaves the
      solicitations as they were. */
  lemma AdHocSubmission(data: Record, solicitations: map<string, Record>, engagements: map<string, Record>,
                        id: string, now: int)
    requires !Truthy(Get(data, SolicitationToken, Null))
    ensures var p := PublicSubmission(data, solicitations, engagements, id, now);
      && p.solicitations == solicitations
      && (p.stored.Some? ==> p.stored.value[Source] == Str("ad-hoc"))
  {
  }

  /** The item after `update_testimonial`: the moderation and text fields the
      request carries are set; the submitter, the source, the engagement, the
      token and the submission time never change. */
  function UpdatedTestimonial(existing: Record, data: Record, now: int): (t: Record)
    ensures UpdatedAt in t && t[UpdatedAt] == Time(now)
    ensures forall f :: f in data && f in TestimonialFields ==> f in t && t[f] == data[f]
    ensures forall f :: f in existing && f !in TestimonialFields && f != UpdatedAt ==> f in t && t[f] == existing[f]
    ensures forall f :: f in existing && f !in data && f != UpdatedAt ==> f in t && t[f] == existing[f]
    ensures forall f :: f in t ==> f in existing || f in TestimonialFields || f == UpdatedAt
  {
    assert UpdatedAt !in TestimonialFields;
    Applied(existing, data, TestimonialFields, now)
  }

  method UpdateTestimonial(db: Store, id: string, data: Record, now: int) returns (r: Response)
    requires db.Valid()
    modifies db`testimonials
    ensures db.Valid()
    ensures id !in old(db.testimonials) ==>
              r == Response(404, ErrorBody("Testimonial not found")) && db.testimonials == old(db.testimonials)
    ensures id in old(db.testimonials) ==>
              && db.testimonials == old(db.testimonials)[id := UpdatedTestimonial(old(db.testimonials)[id], data, now)]
              && r == Response(200, ItemBody(db.testimonials[id]))
  {
    if id !in db.testimonials {
      return Response(404, ErrorBody("Testimonial not found"));
    }
    var item := ApplyUpdates(db.testimonials[id], data, TestimonialFields, now);
    UpdatedTestimonialKeyed(id, db.testimonials[id], data, now);
    db.PutTestimonial(id, item);
    r := Response(200, ItemBody(item));
  }

  lemma UpdatedTestimonialKeyed(id: string, existing: Record, data: Record, now: int)
    requires KeyedBy(Id, id, existing)
    ensures KeyedBy(Id, id, UpdatedTestimonial(existing, data, now))
  {
    assert Id !in TestimonialFields;
  }

  function GetTestimonial(testimonials: map<string, Record>, id: string): (r: Response)
    ensures r.status == 200 <==> id in testimonials
    ensures id in testimonials ==> r.body == ItemBody(testimonials[id])
    ensures id !in testimonials ==> r == Response(404, ErrorBody("Testimonial not found"))
  {
    if id in testimonials then Response(200, ItemBody(testimonials[id]))
    else Response(404, ErrorBody("Testimonial not found"))
  }

  function SubmittedAtKey(t: Record): Key
  {
    TimeKey(t, SubmittedAt)
  }

  /** `list_testimonials`: those of one engagement (all of them without an
      `engagementId` parameter), most recently submitted first. */
  function ListTestimonials(testimonials: map<string, Record>, scan: seq<string>, engagementId: Option<string>): (r: Response)
    requires IsScan(testimonials, scan)
    ensures r.status == 200 && r.body.ListingBody? && r.body.name == "testimonials"
    ensures Sorted(r.body.items, SubmittedAtKey, true)
    ensures forall x :: x in r.body.items <==>
              x in testimonials.Values && (engagementId.None? || (EngagementId in x && x[EngagementId] == Str(engagementId.value)))
    ensures |r.body.items| == |Matching(testimonials, testimonials.Keys, Equals(EngagementId, engagementId))|
  {
    Response(200, ListingBody("testimonials", Listed(testimonials, scan, Equals(EngagementId, engagementId), SubmittedAtKey, true)))
  }
}
