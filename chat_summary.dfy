/** The chat-summary handler: the Google Chat space id read from an
    engagement's `chatSpace` URL, the transcript and participants folded from
    the fetched messages with their canned fallbacks, the 24-hour summary
    cache, and the memoised secret lookup. */
module ChatSummary {
  import opened Values
  import opened Tables

  // ---------------------------------------------------------------------
  // The space id
  // ---------------------------------------------------------------------

  const Room: string := "/room/"

  /** The index of the first occurrence of `pat` in `s`, if any. */
  function Find(s: string, pat: string): (i: Option<nat>)
    ensures i.Some? ==> i.value <= |s| && pat <= s[i.value..]
    ensures i.Some? ==> forall j :: 0 <= j < i.value ==> !(pat <= s[j..])
    ensures i.None? ==> forall j :: 0 <= j <= |s| ==> !(pat <= s[j..])
    ensures i.Some? <==> IsSubstring(pat, s)
    decreases |s|
  {
    if pat <= s then Some(0)
    else if s == [] then None
    else
      var k := Find(s[1..], pat);
      assert forall j :: 1 <= j <= |s| ==> s[1..][j - 1..] == s[j..];
      if k.None? then None else Some(k.value + 1)
  }

  /** `s.split(sep)[0]`: the text before the first `sep`, or all of `s`. */
  function Before(s: string, sep: string): (b: string)
    requires sep != ""
    ensures b <= s
    ensures !IsSubstring(sep, b)
    ensures forall j :: 0 <= j < |b| ==> !(sep <= s[j..])
    ensures |b| < |s| ==> sep <= s[|b|..]
  {
    var i := Find(s, sep);
    if i.None? then s
    else
      assert forall j :: 0 <= j <= i.value && sep <= s[..i.value][j..] ==> sep <= s[j..];
      s[..i.value]
  }

  /** `extract_space_id`: the text after the first `/room/`, cut at the next
      `/room/` or `?`; None exactly when the URL has no `/room/`. */
  function ExtractSpaceId(url: string): (id: Option<string>)
    ensures id.None? <==> !IsSubstring(Room, url)
  {
    var i := Find(url, Room);
    if i.None? then None
    else Some(Before(Before(url[i.value + |Room|..], Room), "?"))
  }

  /** A pattern that does not occur in a text does not occur in any prefix
      of it. */
  lemma PrefixSubstring(n: string, a: string, b: string)
    requires a <= b && IsSubstring(n, a)
    ensures IsSubstring(n, b)
  {
    var i :| 0 <= i <= |a| && n <= a[i..];
    assert n <= b[i..];
  }

  /** Cutting the text after `start` at `Room` and then at `?` stops at the
      end, at a `?` or at a `Room`. */
  lemma CutEnds(url: string, start: nat, segment: string, id: string)
    requires start <= |url| && segment <= url[start..] && id <= segment
    requires |id| < |segment| ==> "?" <= segment[|id|..]
    requires |segment| < |url[start..]| ==> Room <= url[start..][|segment|..]
    ensures var rest := url[start + |id|..]; rest == "" || rest[0] == '?' || Room <= rest
  {
    if |id| < |segment| {
      assert url[start + |id|] == segment[|id|];
    } else if |segment| < |url| - start {
      assert url[start + |id|..] == url[start..][|segment|..];
    }
  }

  /** Cutting the text after `start` at `Room` and then at `?` leaves a
      run with neither, which ends at the end, at a `?` or at a `Room`. */
  lemma CutShape(url: string, start: nat, id: string)
    requires start <= |url| && id == Before(Before(url[start..], Room), "?")
    ensures !IsSubstring(Room, id) && !IsSubstring("?", id) && id <= url[start..]
    ensures forall j :: start <= j < start + |id| ==> !(Room <= url[j..])
    ensures var rest := url[start + |id|..]; rest == "" || rest[0] == '?' || Room <= rest
  {
    var segment := Before(url[start..], Room);
    assert forall j :: start <= j < start + |id| ==> url[j..] == url[start..][j - start..];
    if IsSubstring(Room, id) {
      PrefixSubstring(Room, id, segment);
    }
    CutEnds(url, start, segment, id);
  }

  /** The space id is the longest run after the first `/room/` that holds
      neither `/room/` nor `?`: no `/room/` starts inside it, even one that
      overlaps its end, and it ends at the end of the URL, at a `?` or at the
      next `/room/`. */
  lemma SpaceIdShape(url: string)
    requires IsSubstring(Room, url)
    ensures var id := ExtractSpaceId(url).value;
      var start := Find(url, Room).value + |Room|;
      && !IsSubstring(Room, id) && !IsSubstring("?", id)
      && start <= |url| && id <= url[start..]
      && (forall j :: start <= j < start + |id| ==> !(Room <= url[j..]))
      && var rest := url[start + |id|..];
         rest == "" || rest[0] == '?' || Room <= rest
  {
    var start := Find(url, Room).value + |Room|;
    CutShape(url, start, ExtractSpaceId(url).value);
  }

  // ---------------------------------------------------------------------
  // The message fold
  // ---------------------------------------------------------------------

  const SenderAttr: Attr := Other("sender")
  const TextAttr: Attr := Other("text")
  const DisplayNameAttr: Attr := Other("displayName")
  const Unknown: Value := Str("Unknown")

  function DigitChar(d: nat): char
    requires d < 10
  {
    "0123456789"[d]
  }

  function Digits(n: nat): (t: string)
    ensures |t| >= 1
  {
    if n < 10 then [DigitChar(n)] else Digits(n / 10) + [DigitChar(n % 10)]
  }

  /** Python's `str(v)` as an f-string renders it: a string as itself. */
  function Show(v: Value): (t: string)
    ensures v.Str? ==> t == v.s
    ensures !v.Str? ==> t != ""
  {
    match v
    case Str(s) => s
    case Null => "None"
    case Bool(b) => if b then "True" else "False"
    case Num(n) => if n < 0 then "-" + Digits(-n) else Digits(n)
    case Arr(_) => "[...]"
    case Obj(_) => "{...}"
    case Time(_) => "<time>"
    case Day(_) => "<date>"
  }

  /** The sender's name of a dict message: `displayName`, else `name`, else
      `Unknown`; a sender that is not a dict is rendered as text. */
  function SenderName(msg: Record): (name: Value)
    ensures var sender := Get(msg, SenderAttr, Obj(map[]));
      && (sender.Obj? && Truthy(Get(sender.fields, DisplayNameAttr, Null)) ==> name == sender.fields[DisplayNameAttr])
      && (sender.Obj? && !Truthy(Get(sender.fields, DisplayNameAttr, Null)) ==> name == Get(sender.fields, Name, Unknown))
      && (sender.Str? ==> name == if sender.s == "" then Unknown else sender)
      && (!sender.Obj? ==> name == if Truthy(sender) then Str(Show(sender)) else Unknown)
  {
    var sender := Get(msg, SenderAttr, Obj(map[]));
    if sender.Obj? then
      if Truthy(Get(sender.fields, DisplayNameAttr, Null)) then sender.fields[DisplayNameAttr]
      else Get(sender.fields, Name, Unknown)
    else if Truthy(sender) then Str(Show(sender))
    else Unknown
  }

  /** `msg.get('text') or msg.get('message', '')`. */
  function MessageText(msg: Record): (text: Value)
    ensures Truthy(Get(msg, TextAttr, Null)) ==> text == msg[TextAttr]
    ensures !Truthy(Get(msg, TextAttr, Null)) ==> text == Get(msg, Message, Str(""))
  {
    if Truthy(Get(msg, TextAttr, Null)) then msg[TextAttr] else Get(msg, Message, Str(""))
  }

  /** The line one message adds to the transcript. */
  function Line(m: Value): (line: string)
    ensures m.Str? ==> line == m.s + "\n"
    ensures m.Obj? && Truthy(MessageText(m.fields)) ==>
              line == "[" + Show(SenderName(m.fields)) + "]: " + Show(MessageText(m.fields)) + "\n"
    ensures line == "" <==> !m.Str? && !(m.Obj? && Truthy(MessageText(m.fields)))
  {
    match m
    case Str(s) => s + "\n"
    case Obj(msg) =>
      if Truthy(MessageText(msg)) then "[" + Show(SenderName(msg)) + "]: " + Show(MessageText(msg)) + "\n"
      else ""
    case _ => ""
  }

  /** The participant one message names: the sender of a dict message with
      text, unless the name is empty or `Unknown`. */
  function NameOf(m: Value): (p: Option<Value>)
    ensures p.Some? ==> Truthy(p.value) && p.value != Unknown && p.value != Str("")
    ensures p.Some? ==> m.Obj? && p.value == SenderName(m.fields)
    ensures p.Some? <==> m.Obj? && Truthy(MessageText(m.fields))
                         && Truthy(SenderName(m.fields)) && SenderName(m.fields) != Unknown
  {
    if m.Obj? && Truthy(MessageText(m.fields)) && Truthy(SenderName(m.fields)) && SenderName(m.fields) != Unknown
    then Some(SenderName(m.fields))
    else None
  }

  /** Some participant name is a list or an object: `participants.add`
      raises. */
  predicate FoldRaises(ms: seq<Value>)
  {
    exists m :: m in ms && Unhashable(m)
  }

  predicate Unhashable(m: Value)
  {
    NameOf(m).Some? && !Hashable(NameOf(m).value)
  }

  /** The transcript `messages_text`, one line per message in order. */
  function Transcript(ms: seq<Value>): (t: string)
  {
    if ms == [] then "" else Transcript(ms[..|ms| - 1]) + Line(ms[|ms| - 1])
  }

  /** The set `participants`. */
  function Participants(ms: seq<Value>): (ps: set<Value>)
  {
    if ms == [] then {}
    else
      var last := ms[|ms| - 1];
      Participants(ms[..|ms| - 1]) + (if NameOf(last).Some? then {NameOf(last).value} else {})
  }

  /** The transcript of consecutive runs of messages is the concatenation of
      their transcripts. */
  lemma {:induction false} TranscriptSplit(a: seq<Value>, b: seq<Value>)
    ensures Transcript(a + b) == Transcript(a) + Transcript(b)
    decreases |b|
  {
    if b != [] {
      var init := b[..|b| - 1];
      assert (a + b)[..|a + b| - 1] == a + init;
      TranscriptSplit(a, init);
    } else {
      assert a + b == a;
    }
  }

  /** The participants are exactly the names the messages contribute: never
      empty, never `Unknown`. */
  lemma {:induction false} ParticipantsExact(ms: seq<Value>, p: Value)
    ensures p in Participants(ms) <==> exists m :: m in ms && NameOf(m) == Some(p)
  {
    if ms != [] {
      var init := ms[..|ms| - 1];
      ParticipantsExact(init, p);
      assert ms == init + [ms[|ms| - 1]];
    }
  }

  /** One more message adds its line and its name. */
  lemma FoldStep(ms: seq<Value>, i: nat)
    requires i < |ms|
    ensures Transcript(ms[..i + 1]) == Transcript(ms[..i]) + Line(ms[i])
    ensures Participants(ms[..i + 1]) == Participants(ms[..i]) + (if NameOf(ms[i]).Some? then {NameOf(ms[i]).value} else {})
    ensures FoldRaises(ms[..i + 1]) <==> FoldRaises(ms[..i]) || Unhashable(ms[i])
  {
    assert ms[..i + 1] == ms[..i] + [ms[i]];
  }

  datatype Fold = Fold(transcript: string, participants: set<Value>)

  /** The loop of `summarize_with_claude` over the fetched messages. */
  method FoldMessages(ms: seq<Value>) returns (r: Option<Fold>)
    ensures r.None? <==> FoldRaises(ms)
    ensures r.Some? ==> r.value == Fold(Transcript(ms), Participants(ms))
  {
    var text := "";
    var names: set<Value> := {};
    for i := 0 to |ms|
      invariant text == Transcript(ms[..i]) && names == Participants(ms[..i])
      invariant !FoldRaises(ms[..i])
    {
      FoldStep(ms, i);
      text := text + Line(ms[i]);
      var p := NameOf(ms[i]);
      if p.Some? {
        if !Hashable(p.value) {
          assert ms[i] in ms && Unhashable(ms[i]);
          return None;
        }
        names := names + {p.value};
      }
    }
    assert ms[..|ms|] == ms;
    return Some(Fold(text, names));
  }

  /** Python's `str.isspace`, which `strip` removes. */
  predicate IsSpace(c: char)
  {
    || c == ' ' || ('\t' <= c <= '\r') || ('\U{1c}' <= c <= '\U{1f}') || c == '\U{85}' || c == '\U{a0}'
    || c == '\U{1680}' || ('\U{2000}' <= c <= '\U{200a}') || c == '\U{2028}' || c == '\U{2029}'
    || c == '\U{202f}' || c == '\U{205f}' || c == '\U{3000}'
  }

  /** `not s.strip()`. */
  predicate Blank(s: string)
  {
    forall i :: 0 <= i < |s| ==> IsSpace(s[i])
  }

  lemma BlankConcat(a: string, b: string)
    ensures Blank(a + b) <==> Blank(a) && Blank(b)
  {
    assert forall i :: 0 <= i < |a| ==> (a + b)[i] == a[i];
    assert forall i :: 0 <= i < |b| ==> (a + b)[|a| + i] == b[i];
  }

  /** The transcript is blank exactly when every line is: no dict message
      has text, and every string message is whitespace. */
  lemma {:induction false} BlankTranscript(ms: seq<Value>)
    ensures Blank(Transcript(ms)) <==> forall m :: m in ms ==> Line(m) == "" || (m.Str? && Blank(m.s))
  {
    if ms != [] {
      var init := ms[..|ms| - 1];
      var last := ms[|ms| - 1];
      BlankTranscript(init);
      assert ms == init + [last];
      BlankConcat(Transcript(init), Line(last));
      if last.Str? {
        BlankConcat(last.s, "\n");
      } else if Line(last) != "" {
        assert Line(last)[0] == '[';
      }
    }
  }

  const NoActivity: string := "No recent chat activity found in this space."
  const NoReadable: string := "Chat space exists but no readable messages found."
  const ExcerptLimit: nat := 8000

  /** What the summariser does with the fetched messages: a canned summary,
      or the prompt excerpt sent for one. A `Canned` digest stands for the
      fallback dict, whose other fields are constant: `topics`,
      `keyHighlights` and `actionItems` empty and `sentiment` `neutral`. */
  datatype Digest =
    | Canned(summary: string, participants: set<Value>)
    | Prompted(excerpt: string, participants: set<Value>)

  /** `summarize_with_claude` up to the request: None when the fold raises. */
  function SummaryOf(ms: seq<Value>): (d: Option<Digest>)
    ensures ms == [] ==> d == Some(Canned(NoActivity, {}))
    ensures ms != [] ==> (d.None? <==> FoldRaises(ms))
    ensures d.Some? && d.value.Prompted? ==>
              && !Blank(Transcript(ms))
              && d.value.excerpt <= Transcript(ms)
              && |d.value.excerpt| == if |Transcript(ms)| < ExcerptLimit then |Transcript(ms)| else ExcerptLimit
    ensures ms != [] && d.Some? && d.value.Canned? ==>
              d.value.summary == NoReadable && Blank(Transcript(ms))
    ensures d.Some? ==> d.value.participants == Participants(ms)
  {
    if ms == [] then Some(Canned(NoActivity, {}))
    else if FoldRaises(ms) then None
    else
      var t := Transcript(ms);
      if Blank(t) then Some(Canned(NoReadable, Participants(ms)))
      else Some(Prompted(if |t| < ExcerptLimit then t else t[..ExcerptLimit], Participants(ms)))
  }

  method Summarize(ms: seq<Value>) returns (d: Option<Digest>)
    ensures d == SummaryOf(ms)
  {
    if ms == [] {
      return Some(Canned(NoActivity, {}));
    }
    var fold := FoldMessages(ms);
    if fold.None? {
      return None;
    }
    var t := fold.value.transcript;
    if Blank(t) {
      return Some(Canned(NoReadable, fold.value.participants));
    }
    return Some(Prompted(if |t| < ExcerptLimit then t else t[..ExcerptLimit], fold.value.participants));
  }

  /** A non-empty list falls back to "no readable messages" exactly when no
      dict message has text and every string message is whitespace. */
  lemma UnreadableFallback(ms: seq<Value>)
    requires ms != [] && !FoldRaises(ms)
    ensures SummaryOf(ms).value.Canned? <==> forall m :: m in ms ==> Line(m) == "" || (m.Str? && Blank(m.s))
  {
    BlankTranscript(ms);
  }

  // ---------------------------------------------------------------------
  // The summary cache
  // ---------------------------------------------------------------------

  const CacheLifetime: int := 86400

  /** `cached.get('cachedAt', 0)` as a number; None when the subtraction
      raises (caught: the cache is then skipped). */
  function CachedAtOf(cached: Record): (t: Option<int>)
    ensures CachedAt !in cached ==> t == Some(0)
    ensures CachedAt in cached && cached[CachedAt].Num? ==> t == Some(cached[CachedAt].n)
    ensures CachedAt in cached && cached[CachedAt].Bool? ==> t == Some(if cached[CachedAt].b then 1 else 0)
    ensures t.None? <==> CachedAt in cached && !cached[CachedAt].Num? && !cached[CachedAt].Bool?
  {
    match Get(cached, CachedAt, Num(0))
    case Num(n) => Some(n)
    case Bool(b) => Some(if b then 1 else 0)
    case _ => None
  }

  /** An age in hours under 24 is an age in seconds under a day. */
  lemma AgeInHours(now: int, cachedAt: int)
    ensures (now - cachedAt) as real / 3600.0 < 24.0 <==> now - cachedAt < CacheLifetime
  {
  }

  /** The cache check: the instant of the cached summary when it is served. */
  function CacheHit(refresh: bool, cached: Option<Record>, now: int): (hit: Option<int>)
    ensures hit.Some? <==>
              && !refresh && cached.Some? && cached.value != map[]
              && CachedAtOf(cached.value).Some? && now - CachedAtOf(cached.value).value < CacheLifetime
    ensures hit.Some? ==> hit == CachedAtOf(cached.value)
  {
    if refresh || cached.None? || cached.value == map[] then None
    else
      var c := CachedAtOf(cached.value);
      if c.Some? && now - c.value < CacheLifetime then c else None
  }

  /** `extract_space_id` on the `chatSpace` attribute: None when `in` or
      `split` raises on a value that is not a string. */
  function SpaceIdOf(chat: Value): (id: Option<Option<string>>)
    ensures chat.Str? ==> id == Some(ExtractSpaceId(chat.s))
  {
    match Contains(chat, Str(Room))
    case None => None
    case Some(found) =>
      if !found then Some(None)
      else if chat.Str? then Some(ExtractSpaceId(chat.s))
      else None
  }

  function Lookup(t: map<string, Record>, k: string): Option<Record>
  {
    if k in t then Some(t[k]) else None
  }

  /** The item `get_chat_summary` caches: the summary, when it was made and
      how many messages it read, under the engagement's id. */
  function CacheEntry(engagementId: string, summary: Value, now: int, count: nat): (e: Record)
    ensures KeyedBy(EngagementId, engagementId, e)
    ensures Summary in e && e[Summary] == summary
    ensures CachedAt in e && e[CachedAt] == Num(now)
    ensures MessageCount in e && e[MessageCount] == Num(count)
  {
    map[EngagementId := Str(engagementId), Summary := summary, CachedAt := Num(now), MessageCount := Num(count)]
  }

  /** The engagement's `chatSpace` is set and yields a non-empty space id. */
  predicate HasSpace(engagement: Record)
  {
    var chat := Get(engagement, ChatSpace, Null);
    Truthy(chat) && SpaceIdOf(chat).Some? && SpaceIdOf(chat).value.Some? && SpaceIdOf(chat).value.value != ""
  }

  /** The cache check and its two answers, once the chat space is known: the
      cached summary when the check passes, else the fresh summary, cached
      under the engagement, or 500 when the summariser raised. */
  function CacheOrFresh(engagementId: string, chat: Value, cached: Option<Record>, refresh: bool, now: int,
                        messages: seq<Value>, summary: Option<Value>): (c: Creation)
    ensures var hit := CacheHit(refresh, cached, now);
      && (hit.Some? ==>
            && c.stored.None? && c.response.status == 200 && c.response.body.ItemBody?
            && FromCache in c.response.body.item && c.response.body.item[FromCache] == Bool(true)
            && Summary in c.response.body.item && c.response.body.item[Summary] == Get(cached.value, Summary, Null)
            && CachedAt in c.response.body.item && c.response.body.item[CachedAt] == Time(hit.value))
      && (hit.None? && summary.Some? ==>
            && c.stored == Some(CacheEntry(engagementId, summary.value, now, |messages|))
            && c.response.status == 200 && c.response.body.ItemBody?
            && FromCache in c.response.body.item && c.response.body.item[FromCache] == Bool(false)
            && Summary in c.response.body.item && c.response.body.item[Summary] == summary.value)
      && (hit.None? && summary.None? ==> c == Creation(ServerError, None))
  {
    var hit := CacheHit(refresh, cached, now);
    if hit.Some? then
      Creation(Response(200, ItemBody(map[EngagementId := Str(engagementId), HasChatSpace := Bool(true),
                                          ChatSpaceUrl := chat, Summary := Get(cached.value, Summary, Null),
                                          CachedAt := Time(hit.value), FromCache := Bool(true)])), None)
    else if summary.None? then Creation(ServerError, None)
    else
      Creation(Response(200, ItemBody(map[EngagementId := Str(engagementId), HasChatSpace := Bool(true),
                                          ChatSpaceUrl := chat, Summary := summary.value,
                                          CachedAt := Time(now), FromCache := Bool(false),
                                          MessageCount := Num(|messages|)])),
               Some(CacheEntry(engagementId, summary.value, now, |messages|)))
  }

  /** The GET handler, given the fetched messages and the summary the
      summariser produced (None when it raised): the response, and the
      cache entry written when a fresh summary is made. */
  function ChatSummaryOutcome(engagements: map<string, Record>, summaries: map<string, Record>,
                              engagementId: string, refresh: bool, now: int,
                              messages: seq<Value>, summary: Option<Value>): (c: Creation)
    ensures engagementId == "" ==> c == Creation(Response(400, ErrorBody("engagementId is required")), None)
    ensures engagementId != "" && engagementId !in engagements ==>
              c == Creation(Response(404, ErrorBody("Engagement not found")), None)
    ensures c.stored.Some? ==>
              && engagementId in engagements && HasSpace(engagements[engagementId]) && summary.Some?
              && CacheHit(refresh, Lookup(summaries, engagementId), now).None?
              && c.stored == Some(CacheEntry(engagementId, summary.value, now, |messages|))
    // an answer from the cache is given only when the cache check passes
    ensures c.response.body.ItemBody? && FromCache in c.response.body.item && c.response.body.item[FromCache] == Bool(true) ==>
              CacheHit(refresh, Lookup(summaries, engagementId), now).Some?
    // for an engagement with a usable chat space, the cache check decides the answer
    ensures engagementId != "" && engagementId in engagements && HasSpace(engagements[engagementId]) ==>
              c == CacheOrFresh(engagementId, Get(engagements[engagementId], ChatSpace, Null),
                                Lookup(summaries, engagementId), refresh, now, messages, summary)
  {
    if engagementId == "" then Creation(Response(400, ErrorBody("engagementId is required")), None)
    else if engagementId !in engagements then Creation(Response(404, ErrorBody("Engagement not found")), None)
    else
      var chat := Get(engagements[engagementId], ChatSpace, Null);
      if !Truthy(chat) then
        Creation(Response(200, ItemBody(map[EngagementId := Str(engagementId), HasChatSpace := Bool(false),
                                            Summary := Null,
                                            Message := Str("No chat space configured for this engagement")])), None)
      else
        var space := SpaceIdOf(chat);
        if space.None? then Creation(ServerError, None)
        else if space.value.None? || space.value.value == "" then
          Creation(Response(400, ErrorBody("Invalid chat space URL format")), None)
        else CacheOrFresh(engagementId, chat, Lookup(summaries, engagementId), refresh, now, messages, summary)
  }

  method GetChatSummary(db: Store, engagementId: string, refresh: bool, now: int,
                        messages: seq<Value>, summary: Option<Value>) returns (r: Response)
    requires db.Valid()
    modifies db`summaries
    ensures db.Valid()
    ensures var c := ChatSummaryOutcome(old(db.engagements), old(db.summaries), engagementId, refresh, now, messages, summary);
      && r == c.response
      && db.summaries == (if c.stored.Some? then old(db.summaries)[engagementId := c.stored.value] else old(db.summaries))
  {
    var c := ChatSummaryOutcome(db.engagements, db.summaries, engagementId, refresh, now, messages, summary);
    if c.stored.Some? {
      db.PutSummary(engagementId, c.stored.value);
    }
    r := c.response;
  }

  /** A fresh summary is served from the cache, unchanged, to every request
      without `refresh` in the following 24 hours. */
  lemma CachedForADay(engagements: map<string, Record>, summaries: map<string, Record>, id: string,
                      refresh: bool, t: int, messages: seq<Value>, summary: Option<Value>,
                      later: int, messages2: seq<Value>, summary2: Option<Value>)
    requires ChatSummaryOutcome(engagements, summaries, id, refresh, t, messages, summary).stored.Some?
    requires t <= later < t + CacheLifetime
    ensures var first := ChatSummaryOutcome(engagements, summaries, id, refresh, t, messages, summary);
      var second := ChatSummaryOutcome(engagements, summaries[id := first.stored.value], id, false, later, messages2, summary2);
      && second.stored.None? && second.response.status == 200
      && second.response.body.ItemBody?
      && second.response.body.item[Summary] == summary.value
      && second.response.body.item[CachedAt] == Time(t)
      && second.response.body.item[FromCache] == Bool(true)
  {
  }

  /** From 24 hours on, the cached summary is no longer served. */
  lemma StaleAfterADay(engagements: map<string, Record>, summaries: map<string, Record>, id: string,
                       refresh: bool, t: int, messages: seq<Value>, summary: Option<Value>,
                       later: int, messages2: seq<Value>, summary2: Option<Value>)
    requires ChatSummaryOutcome(engagements, summaries, id, refresh, t, messages, summary).stored.Some?
    requires later >= t + CacheLifetime
    ensures var first := ChatSummaryOutcome(engagements, summaries, id, refresh, t, messages, summary);
      var second := ChatSummaryOutcome(engagements, summaries[id := first.stored.value], id, false, later, messages2, summary2);
      second.response.body.ItemBody? ==> second.response.body.item[FromCache] == Bool(false)
  {
  }

  /** A request with `refresh` is never answered from the cache. */
  lemma RefreshSkipsCache(engagements: map<string, Record>, summaries: map<string, Record>, id: string,
                          now: int, messages: seq<Value>, summary: Option<Value>)
    ensures var r := ChatSummaryOutcome(engagements, summaries, id, true, now, messages, summary).response;
      r.body.ItemBody? && FromCache in r.body.item ==> r.body.item[FromCache] == Bool(false)
  {
  }

  // ---------------------------------------------------------------------
  // The memoised secret lookup
  // ---------------------------------------------------------------------

  predicate NoRepeats(s: seq<string>)
  {
    forall i, j :: 0 <= i < j < |s| ==> s[i] != s[j]
  }

  /** The module-level `_secrets_cache`, with the log of the names looked up
      in Secrets Manager. */
  class SecretCache {
    var cache: map<string, string>
    var fetches: seq<string>

    /** Every cached name was fetched once, and only cached names were. */
    ghost predicate Valid()
      reads this
    {
      (forall n :: n in cache <==> n in fetches) && NoRepeats(fetches)
    }

    constructor()
      ensures Valid() && cache == map[] && fetches == []
    {
      cache := map[];
      fetches := [];
    }

    /** `get_secret`: the cached value when there is one; otherwise the
        value `fetched` from Secrets Manager, which is then cached. */
    method GetSecret(name: string, fetched: string) returns (secret: string)
      requires Valid()
      modifies this
      ensures Valid()
      ensures name in old(cache) ==> secret == old(cache)[name] && cache == old(cache) && fetches == old(fetches)
      ensures name !in old(cache) ==>
                secret == fetched && cache == old(cache)[name := fetched] && fetches == old(fetches) + [name]
    {
      if name in cache {
        return cache[name];
      }
      secret := fetched;
      cache := cache[name := secret];
      fetches := fetches + [name];
    }
  }
}
