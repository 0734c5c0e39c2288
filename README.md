# Engagement tracker back end: a Dafny model

This project models the Lambda handlers of the engagement tracker. Each handler works on one DynamoDB table:

- **Engagements**: a customer engagement with a status, and a completion date that is stamped when the engagement closes.
- **Solicitations**: a feedback request sent to a client. It is keyed by an unguessable token, expires after a number of days, and is completed by one public submission.
- **Testimonials**: feedback. It is entered by staff, submitted publicly ad hoc, or submitted through a solicitation link.
- **Tasks**: the tasks of an engagement. They are listed by priority and age, with a progress summary.
- **Agents**: the AI agents deployed in engagements. Names are unique on creation, and an agent can be joined to the engagements that list it.
- **Chat summaries**: a 24-hour cache of summaries of an engagement's Google Chat space, with the memoised secret lookup.

## Layout

Values are in the JSON-like `Value` datatype. An item is a `Record`: a map from attribute to value.

The store is `Tables.Store`, a class whose fields are one map per table. Each handler that writes is a method on the store. Its `modifies` names the one table it changes, and its contract keeps `Store.Valid()`. Validity means two things:
- every item is keyed by its own id or token;
- every item carries the attributes that later handlers read with `item['…']`.

The decision logic of each handler is a function returning the response and the item to store. The method is proved to do exactly what that function says.

The list handlers are functions. Their input is the table and the order in which DynamoDB's scan or query returns the keys. Python's `list.sort` is modelled by a stable insertion sort over integer-sequence keys, which compare like Python strings and tuples.

The server's clock, `uuid4`, `secrets.token_urlsafe`, `FRONTEND_URL`, the Secrets Manager value, the fetched chat messages and the summariser's result are all parameters.

Any exception the handler wraps into a 500 appears as `ServerError`. Examples are a `KeyError` from `data['name']`, a DynamoDB validation error for an empty or non-string key, and a `TypeError` in a sort or in `in`.

| file | module |
|---|---|
| values.dfy | `Values`: values, records, responses, truthiness, `in`, the allow-listed update loop |
| ordering.dfy | `Ordering`: lexicographic keys, the stable sort and its sortedness |
| tables.dfy | `Tables`: the store, its validity, scans and queries, sorted listings |
| engagements.dfy | `Engagements` |
| solicitations.dfy | `Solicitations` |
| testimonials.dfy | `Testimonials` |
| tasks.dfy | `Tasks` |
| agents.dfy | `Agents` |
| chat_summary.dfy | `ChatSummary` |

## Model

| member | source | states |
|---|---|---|
| Values.ApplyUpdates | functions/engagements.py:132-147 | The loop over the allowed fields writes exactly `Applied`. Only allowed attributes the request carries are set, plus `updatedAt`; every other stored attribute is kept. |
| Values.CollectUpdates | functions/tasks.py:179-183 | The SET clause holds exactly the allowed attributes present in the request, with the request's values. |
| Values.Applied | functions/agents.py:150-167 | After the update, the item's attributes are the old ones, the allowed ones sent, and `updatedAt`. Sent allowed values win, the rest keep their stored value, and `updatedAt` is now. |
| Values.Contains | functions/agents.py:73-74 | Python's `in`: list membership, or substring for two strings. It raises exactly for `None`, a boolean, a number, or a string searched for a non-string. |
| Values.Lower | functions/agents.py:60 | `lower()` keeps the length and lowers each character. |
| Ordering.SortBy | functions/engagements.py:67 | The sort returns a permutation of its input: the same multiset and the same length. |
| Ordering.SortBySorted | functions/tasks.py:76 | The sort's result is ordered by the key: ascending, or descending with `reverse=True`. |
| Ordering.InsertSorted | functions/solicitations.py:67 | Inserting into a sorted sequence keeps it sorted. |
| Ordering.InsertStable | functions/testimonials.py:72 | Insertion passes over only elements of other keys, so among the elements of its key the new one comes first. |
| Ordering.SortByStable | functions/testimonials.py:72 | The sort is stable: for every key, the elements with that key appear in the result in their input order. |
| Ordering.LexLeTotal | functions/tasks.py:76 | Key comparison is total, so any two items can be ordered. |
| Ordering.LexLeTransitive | functions/tasks.py:76 | Key comparison is transitive. |
| Ordering.LexLeAntisymmetric | functions/tasks.py:76 | Two keys that compare both ways are equal. |
| Ordering.TimeKey | functions/testimonials.py:72 | `x.get('submittedAt', '')` as a key: the stamped instant, or the empty key when the attribute is missing. |
| Tables.Store.constructor | functions/engagements.py:9-10 | The empty store is valid. |
| Tables.EngagementsPut | functions/engagements.py:106 | Storing an engagement keyed by its id, with a name and a status, keeps the table valid. |
| Tables.SolicitationsPut | functions/solicitations.py:135 | Storing a well-formed solicitation under its token keeps the table valid. |
| Tables.KeyedPut | functions/chat_summary.py:303-308 | Storing an item under its own key keeps a keyed table keyed. |
| Tables.Store.PutEngagement | functions/engagements.py:106 | Writing an engagement keyed by its id, with a name and a status, replaces exactly that entry and keeps the store valid. |
| Tables.Store.PutSolicitation | functions/solicitations.py:135 | Writing a well-formed solicitation under its token replaces exactly that entry and keeps the store valid. |
| Tables.Store.PutTestimonial | functions/testimonials.py:156 | Writing a testimonial keyed by its id replaces exactly that entry and keeps the store valid. |
| Tables.Store.PutTask | functions/tasks.py:155 | Writing a task keyed by its id replaces exactly that entry and keeps the store valid. |
| Tables.Store.PutAgent | functions/agents.py:135 | Writing a named agent keyed by its id replaces exactly that entry and keeps the store valid. |
| Tables.Store.PutSummary | functions/chat_summary.py:303-308 | Writing a cache entry keyed by its engagement replaces exactly that entry and keeps the store valid. |
| Tables.SelectMembers | functions/engagements.py:58-65 | A scan yields exactly the items whose keys it enumerates and that pass the filter. |
| Tables.SelectCount | functions/tasks.py:65-72 | A scan yields each matching item once: its length is the number of matching keys. |
| Tables.SelectExact | functions/solicitations.py:57-65 | A complete scan yields exactly the items of the table that pass the filter, each once. |
| Tables.Listed | functions/engagements.py:54-69 | A listing is sorted by the key and holds exactly the matching items of the table, each once. |
| Engagements.NewEngagement | functions/engagements.py:79-104 | `data['name']` raises exactly when the request has no name. Otherwise the item is keyed by the new id and carries a name and a status. |
| Engagements.NewEngagementKeys | functions/engagements.py:83-104 | A new engagement holds exactly the seventeen allowed attributes plus `id`, `createdAt` and `updatedAt`. |
| Engagements.NewEngagementStamps | functions/engagements.py:84-85 | The id and the two timestamps are the server's, and the name is the request's. |
| Engagements.NewEngagementDefaults | functions/engagements.py:88-101 | Omitted attributes take their defaults: status `discovery`, start date today, empty completion date. |
| Engagements.NewEngagementKeepsRequest | functions/engagements.py:85-101 | Every other attribute the request sends is stored as sent. |
| Engagements.CreateEngagement | functions/engagements.py:79-108 | Without a name: 500, and the table is unchanged. Otherwise the new engagement is stored under its id and returned with 201. |
| Engagements.UpdatedEngagement | functions/engagements.py:119-140 | `updatedAt` is now. Entering a closed status stamps today's date over any sent `completedDate`. Otherwise `completedDate` is the sent value or the stored one. |
| Engagements.UpdateKeys | functions/engagements.py:128-140 | No attribute is removed. Added attributes are the allowed ones sent, `updatedAt`, and `completedDate` on closing. |
| Engagements.UpdateStoresRequest | functions/engagements.py:132-136 | Any status is accepted, and every allowed attribute sent (other than `completedDate`) is stored as sent. |
| Engagements.UpdateKeepsOthers | functions/engagements.py:132-140 | `id`, `createdAt`, unknown attributes and omitted attributes keep their stored values. |
| Engagements.UpdateEngagement | functions/engagements.py:110-151 | An unknown id gives 404 and no change. Otherwise the stored item becomes `UpdatedEngagement` and is returned with 200. |
| Engagements.UpdatedEngagementValid | functions/engagements.py:142-147 | An update keeps the engagement keyed by its id, with a name and a status. |
| Engagements.DeleteEngagement | functions/engagements.py:153-155 | The id is removed, whether or not it existed, and the answer is 200. |
| Engagements.GetEngagement | functions/engagements.py:71-77 | 200 with the item exactly when the id exists, otherwise 404. |
| Engagements.ListEngagements | functions/engagements.py:54-69 | Exactly the engagements with the requested status, or all of them, each once, most recently updated first. |
| Engagements.CloseThenReopenKeepsDate | functions/engagements.py:119-121 | Closing stamps the date. Reopening to `active` keeps the date of the closing. |
| Engagements.ReclosingKeepsDate | functions/engagements.py:120 | Moving between the two closed statuses keeps the first completion date. |
| Solicitations.ExpiryDaysOf | functions/solicitations.py:117-118 | `expiryDays` defaults to 14. A number is used as sent, and any other type but a boolean raises. |
| Solicitations.FeedbackLink | functions/solicitations.py:138 | The link is the front-end URL, then `/feedback.html?token=`, then the token. |
| Solicitations.NewSolicitation | functions/solicitations.py:120-133 | The item is pending, keyed by its token, names its engagement, and expires `days` whole days after creation. The TTL attribute holds the same instant. |
| Solicitations.CreateSolicitationOutcome | functions/solicitations.py:98-143 | Missing or empty engagement id: 400. A non-string id: 500. Unknown engagement: 404. For a known engagement, an `expiryDays` that is neither absent, a number nor a boolean gives 500; otherwise the solicitation is always stored and answered with 201. A solicitation is stored exactly when the answer is 201, and the response adds `feedbackUrl`. |
| Solicitations.CreateSolicitation | functions/solicitations.py:98-143 | The store changes exactly by the outcome's solicitation. |
| Solicitations.WithEngagement | functions/solicitations.py:90-94 | When the engagement the solicitation names exists, it is attached under `engagement`; otherwise the solicitation is returned unchanged. Nothing else differs. |
| Solicitations.GetSolicitation | functions/solicitations.py:71-96 | The conditions apply in this order: not found (404), expired strictly after `expiresAt` (410), already completed (410). Otherwise 200 with the engagement attached. |
| Solicitations.ListSolicitations | functions/solicitations.py:54-69 | Exactly the solicitations of the requested engagement, or all of them, each once, newest first. |
| Solicitations.CreatedSolicitationOpens | functions/solicitations.py:117-131 | A created solicitation opens the form from creation until its expiry instant inclusive, and answers 410 after. |
| Solicitations.DefaultExpiry | functions/solicitations.py:117 | Without `expiryDays`, it expires 14 × 86400 seconds after creation. |
| Testimonials.EngagementNameFor | functions/testimonials.py:128-133 | The sent `engagementName` is kept when it is non-empty or no engagement id is given. Otherwise it is the engagement's name when that engagement exists, else the sent name. The lookup raises only on an invalid key. |
| Testimonials.NewTestimonial | functions/testimonials.py:135-154 | Keyed by the new id, with the given source and engagement name, and stamped now. |
| Testimonials.RatingStoredAsSent | functions/testimonials.py:143 | The rating is stored unclamped, as sent, defaulting to 0. |
| Testimonials.NewTestimonialDefaults | functions/testimonials.py:137-151 | Defaults: recommend true, not approved, not featured, empty engagement id. |
| Testimonials.NewTestimonialKeys | functions/testimonials.py:135-154 | The item holds exactly the defaulted attributes plus id, engagement name, source and the two timestamps. |
| Testimonials.NewTestimonialLinks | functions/testimonials.py:137-149 | The engagement id and the solicitation token are stored as sent, or empty. |
| Testimonials.CreateTestimonialOutcome | functions/testimonials.py:124-158 | A testimonial is stored, and returned with 201, exactly when the engagement-name lookup does not raise. Otherwise the answer is 500. |
| Testimonials.CreateTestimonial | functions/testimonials.py:84-86 | An internal creation stores exactly the outcome's item with source `internal`. |
| Testimonials.WriteTestimonial | functions/testimonials.py:124-158 | The table changes exactly by the outcome's item. |
| Testimonials.Completed | functions/testimonials.py:109-117 | Marking sets status `completed` and `completedAt`, and changes nothing else. |
| Testimonials.Admit | functions/testimonials.py:88-122 | No token: an ad-hoc submission that touches no solicitation. A known, uncompleted token: source `solicited`, the solicitation completed whatever its expiry, and the request given its engagement. |
| Testimonials.RefusedTokens | functions/testimonials.py:92-102 | An invalid key gives 500. An unknown token gives 400 "Invalid or expired". A completed token gives 400 "already been completed". |
| Testimonials.PublicSubmission | functions/testimonials.py:88-122 | A refused token changes nothing. A testimonial is stored exactly when the answer is 201, keyed by its new id. |
| Testimonials.CreatePublicTestimonial | functions/testimonials.py:88-122 | The store's solicitations and testimonials change exactly as `PublicSubmission` says, and it stays valid. |
| Testimonials.AdmitKeepsValid | functions/testimonials.py:109-117 | Marking a solicitation completed keeps the solicitations table valid. |
| Testimonials.AdmitPending | functions/testimonials.py:104-119 | A pending solicitation admits the request with its engagement and completes the solicitation. |
| Testimonials.SolicitedSubmission | functions/testimonials.py:88-158 | Submitting with a pending token always succeeds with 201. It completes the solicitation and stores the testimonial built from the solicitation's engagement. |
| Testimonials.SolicitedTestimonialLinks | functions/testimonials.py:105-106 | A solicited testimonial records source `solicited`, its token, and the solicitation's engagement id. |
| Testimonials.PublicAdmitted | functions/testimonials.py:119-122 | An admitted submission is `_create_testimonial` on the admitted request with its source. |
| Testimonials.SubmissionSingleUse | functions/testimonials.py:100-102 | A token that produced a testimonial is refused with 400 on any later submission. |
| Testimonials.AdHocSubmission | functions/testimonials.py:120-122 | A submission without a token touches no solicitation and is stored as `ad-hoc`. |
| Testimonials.UpdatedTestimonial | functions/testimonials.py:171-183 | Allowed attributes sent are stored as sent (rating unclamped). Others are kept. No attribute appears that is neither stored, allowed nor `updatedAt`. |
| Testimonials.UpdateTestimonial | functions/testimonials.py:160-192 | An unknown id gives 404 and no change. Otherwise the item becomes `UpdatedTestimonial` and is returned with 200. |
| Testimonials.UpdatedTestimonialKeyed | functions/testimonials.py:186-189 | An update keeps the testimonial keyed by its id. |
| Testimonials.GetTestimonial | functions/testimonials.py:76-82 | 200 with the item exactly when the id exists, otherwise 404. |
| Testimonials.ListTestimonials | functions/testimonials.py:59-74 | Exactly the testimonials of the requested engagement, or all of them, each once, newest submission first. |
| Tasks.PriorityRank | functions/tasks.py:75-76 | The rank is 0 exactly for `high` and 2 exactly for `low`. Anything else, a missing priority included, ranks 1. |
| Tasks.TaskKeyOrder | functions/tasks.py:76 | In task order, priority rank never decreases, and equal ranks are ordered by creation time. |
| Tasks.StatusCountsDisjoint | functions/tasks.py:79-81 | The completed and in-progress counts together never exceed the total. |
| Tasks.PercentComplete | functions/tasks.py:90 | The percentage is between 0 and 100, and 0 for no tasks. |
| Tasks.Summarize | functions/tasks.py:79-90 | The total, completed and in-progress counts; `pending` is the non-negative rest; the percentage is within 0–100. |
| Tasks.TaskListing | functions/tasks.py:61-92 | 500 exactly when some selected task has an unhashable priority. Otherwise exactly the selected tasks, each once, sorted by priority then age, with their summary. |
| Tasks.ListTasks | functions/tasks.py:61-92 | The listing holds exactly the tasks of the requested engagement, or all of them. |
| Tasks.TasksByEngagement | functions/tasks.py:94-119 | The listing holds exactly the tasks of the engagement. |
| Tasks.ListingsAgree | functions/tasks.py:94-119 | The two list routes give the same answer for the same engagement. |
| Tasks.NewTask | functions/tasks.py:140-153 | `data['title']` raises exactly when no title is sent. Otherwise the new task is keyed by its id. |
| Tasks.NewTaskDefaults | functions/tasks.py:140-153 | Status `pending`, priority `medium` and an empty `completedAt` unless sent. The engagement's name is copied. Both stamps are now. |
| Tasks.CreateTaskOutcome | functions/tasks.py:129-157 | A missing or invalid engagement id gives 500 and an unknown engagement gives 404. For a known engagement, a request with a title is always stored, and one without gives 500. A task is stored exactly when the answer is 201. |
| Tasks.CreateTask | functions/tasks.py:129-157 | The table changes exactly by the outcome's task. |
| Tasks.UpdatedTask | functions/tasks.py:167-187 | Completing a task that was not completed stamps `completedAt` now. Any request whose status is not `completed` clears it. `updatedAt` is now. |
| Tasks.UpdateKeys | functions/tasks.py:167-186 | No attribute is removed. Added attributes are exactly the allowed ones sent, `updatedAt`, and `completedAt` whenever the completion rule writes it. |
| Tasks.UpdateStoresRequest | functions/tasks.py:177-183 | Allowed attributes sent, other than `completedAt`, are stored as sent. |
| Tasks.UpdateKeepsOthers | functions/tasks.py:177-187 | Attributes outside the allowed list, and omitted ones other than `completedAt`, keep their stored values. |
| Tasks.RecompletingKeepsStamp | functions/tasks.py:168-171 | Re-sending `completed` for a completed task keeps its completion instant. |
| Tasks.EditingCompletedTaskClearsStamp | functions/tasks.py:170-171 | Editing only the title of a completed task leaves it `completed` but clears `completedAt`. |
| Tasks.StampCompletion | functions/tasks.py:167-171 | The request after the completion rule, as the branch computes it. |
| Tasks.UpdateTask | functions/tasks.py:159-197 | An unknown id gives 404 and no change. Otherwise the item becomes `UpdatedTask` and is returned with 200. |
| Tasks.UpdatedTaskKeyed | functions/tasks.py:189-194 | An update keeps a task keyed by its id. |
| Tasks.GetTask | functions/tasks.py:121-127 | 200 with the item exactly when the id exists, otherwise 404. |
| Tasks.DeleteTask | functions/tasks.py:199-201 | The id is removed, whether or not it existed, and the answer is 200. |
| Agents.NewAgent | functions/agents.py:123-133 | Keyed by the new id, with the sent name, and both stamps now. |
| Agents.NewAgentDefaults | functions/agents.py:126-130 | An `assistant` on `braintrust`, `active`, with no capabilities and no description, unless sent. |
| Agents.CreateAgentOutcome | functions/agents.py:110-137 | No name: 500. A name some agent has: 409. Otherwise the new agent is stored and returned with 201. |
| Agents.CreateAgent | functions/agents.py:110-137 | The table changes exactly by the outcome's agent. |
| Tables.AgentsPut | functions/agents.py:135 | Storing an agent keyed by its id, with a name, keeps the table valid. |
| Agents.CreateKeepsNamesUnique | functions/agents.py:114-121 | Creation keeps agent names unique. |
| Agents.UpdatedAgent | functions/agents.py:150-160 | Allowed attributes sent are stored as sent, the rest are kept, and `updatedAt` is now. |
| Agents.UpdateCanDuplicateNames | functions/agents.py:150-156 | An update can give an agent another agent's name, because update does not check names. |
| Agents.UpdateAgent | functions/agents.py:139-170 | An unknown id gives 404 and no change. Otherwise the item becomes `UpdatedAgent` and is returned with 200. |
| Agents.UpdatedAgentValid | functions/agents.py:162-167 | An update keeps the agent keyed by its id and named. |
| Agents.DeleteAgent | functions/agents.py:172-174 | The id is removed, whether or not it existed, and the answer is 200. |
| Agents.EngagementSummary | functions/agents.py:100-106 | The summary copies the engagement's id, name and status, and its `team` or the empty string. In `get_agent` it also carries `description` or the empty string. It holds no other attribute. |
| Agents.MatchesExact | functions/agents.py:72-80 | The join holds exactly the summaries of the engagements that list the agent. |
| Agents.JoinEngagements | functions/agents.py:97-106 | The loop raises exactly when some engagement's `agents` cannot be searched. Otherwise it yields the matching summaries in scan order. |
| Agents.ScanAll | functions/agents.py:93-94 | The scan yields exactly the engagements of the table. |
| Agents.GetAgent | functions/agents.py:84-108 | An unknown id gives 404. Otherwise the agent is unchanged but for `engagements`, which holds exactly the summaries of the engagements listing it (or 500 when the search raises). |
| Agents.NameKey | functions/agents.py:60 | The sort key of a string name is its lower-cased text. |
| Agents.SortedAgents | functions/agents.py:56-60 | Every agent, each once, sorted by lower-cased name. |
| Agents.Joined | functions/agents.py:71-80 | The agent is unchanged but for `engagements`, which is the list of matching summaries. |
| Agents.JoinedAll | functions/agents.py:70-80 | The list keeps its length and joins each agent in place. |
| Agents.JoinAll | functions/agents.py:70-80 | The outer loop raises exactly when some agent cannot be matched. Otherwise it yields every agent joined, in order. |
| Agents.ListAgents | functions/agents.py:55-82 | The handler's sort and loops give exactly the listing. |
| Agents.PlainListing | functions/agents.py:55-60 | Without the join, the listing succeeds exactly when every name is a string. It then holds every agent once, sorted by lower-cased name. |
| Agents.JoinedListing | functions/agents.py:62-80 | With the join, each listed agent is unchanged but for `engagements`, which are exactly the engagements listing it. |
| Agents.UnsortableNameFails | functions/agents.py:60 | One agent whose name is not a string makes every listing fail. |
| ChatSummary.Find | functions/chat_summary.py:217 | The reported index is the first occurrence, and there is one exactly when the pattern is a substring. |
| ChatSummary.Before | functions/chat_summary.py:218 | `split(sep)[0]` is a prefix in which no `sep` starts, even one overlapping its end, and it ends where the first `sep` starts. |
| ChatSummary.ExtractSpaceId | functions/chat_summary.py:214-220 | None exactly when the URL has no `/room/`. |
| ChatSummary.SpaceIdShape | functions/chat_summary.py:216-218 | The id follows the first `/room/` and contains neither `/room/` nor `?`, and no `/room/` starts inside it. It runs to the end of the URL, a `?` or the next `/room/`. |
| ChatSummary.SenderName | functions/chat_summary.py:116-120 | The sender name is `displayName` when truthy, else `name`, else `Unknown`. A non-dict sender is rendered as text, or `Unknown` when falsy. |
| ChatSummary.MessageText | functions/chat_summary.py:122 | The text is `text` when truthy, else `message`, else empty. |
| ChatSummary.Line | functions/chat_summary.py:114-128 | A dict message with text adds `[name]: text` and a newline. A string adds itself and a newline. Anything else adds nothing. |
| ChatSummary.NameOf | functions/chat_summary.py:123-126 | A dict message with text names a participant exactly when its sender name is truthy and not `Unknown`, and the participant is that sender name. |
| ChatSummary.TranscriptSplit | functions/chat_summary.py:114-128 | The transcript of consecutive runs of messages is the concatenation of their transcripts. |
| ChatSummary.ParticipantsExact | functions/chat_summary.py:125-126 | The participants are exactly the names the messages contribute. |
| ChatSummary.FoldMessages | functions/chat_summary.py:110-130 | The loop raises exactly when some participant name is unhashable. Otherwise it yields the transcript and the participants. |
| ChatSummary.BlankTranscript | functions/chat_summary.py:132 | The transcript strips to nothing exactly when no dict message has text and every string message is whitespace. |
| ChatSummary.SummaryOf | functions/chat_summary.py:98-145 | An empty list gives the fixed "No recent chat activity" result. A blank transcript gives "no readable messages". Otherwise the prompt holds the first 8000 characters of the transcript. |
| ChatSummary.Summarize | functions/chat_summary.py:98-145 | The function's steps give exactly `SummaryOf`. |
| ChatSummary.UnreadableFallback | functions/chat_summary.py:132-140 | A non-empty list falls back exactly when nothing readable was sent. |
| ChatSummary.CachedAtOf | functions/chat_summary.py:272-277 | `cachedAt` defaults to 0, a number is used as stored, and a boolean counts as 0 or 1. Any other value makes the age subtraction raise, and the cache is skipped. |
| ChatSummary.AgeInHours | functions/chat_summary.py:277-278 | An age under 24 hours is an age under 86400 seconds. |
| ChatSummary.CacheHit | functions/chat_summary.py:265-278 | The cache is served exactly when no refresh is asked, an item exists, its `cachedAt` is numeric, and it is less than a day old. |
| ChatSummary.SpaceIdOf | functions/chat_summary.py:252-263 | A string `chatSpace` is parsed by `extract_space_id`. |
| ChatSummary.CacheEntry | functions/chat_summary.py:303-308 | The cached item is keyed by the engagement id, and holds the summary, the instant it was made and the number of messages read. |
| ChatSummary.CacheOrFresh | functions/chat_summary.py:264-320 | When the cache check passes, the cached summary and its instant, marked from cache, with no write. Otherwise the fresh summary, marked not from cache, with `CacheEntry` written; 500 when the summariser raised. |
| ChatSummary.ChatSummaryOutcome | functions/chat_summary.py:237-320 | Empty id: 400. Unknown engagement: 404. An answer from the cache is given only when the cache check passes. For an engagement with a usable chat space, the answer is `CacheOrFresh`. A cache entry is written only on the fresh path: for a known engagement with a usable chat space, when no fresh cache entry exists and a summary was produced. It is exactly `CacheEntry` for that engagement. |
| ChatSummary.GetChatSummary | functions/chat_summary.py:300-310 | The summaries table changes exactly by the outcome's entry, and stays keyed. |
| ChatSummary.CachedForADay | functions/chat_summary.py:265-286 | A fresh summary is served unchanged from the cache to every request without refresh in the next 24 hours. |
| ChatSummary.StaleAfterADay | functions/chat_summary.py:277-278 | From 24 hours on, the cached summary is not served. |
| ChatSummary.RefreshSkipsCache | functions/chat_summary.py:266 | A refresh request is never answered from the cache. |
| ChatSummary.SecretCache.constructor | functions/chat_summary.py:20 | The cache starts empty, with no lookups. |
| ChatSummary.SecretCache.GetSecret | functions/chat_summary.py:22-30 | A repeated name returns the cached value and makes no fetch. A new name is fetched once and cached. Each name is fetched at most once. |

## Left out

- HTTP dispatch and `cors_response` are not modelled: routing on method and path, CORS headers, JSON serialisation and `Decimal` conversion. Responses are a status and a structured body.
- DynamoDB mechanics are not modelled: pagination of scans (each scan is taken to return the whole table), update expressions as text, conditional writes, throttling and TTL deletion.
- Concurrency is not modelled. Each handler runs alone against the store.
- The network is not modelled:
  - `fetch_chat_messages` (the MCP request) is replaced by the fetched message list, given as a parameter;
  - the Anthropic request in `summarize_with_claude` and the parsing of its reply are replaced by the summary, given as a parameter;
  - the Secrets Manager call is replaced by the value it returns.
- JSON parsing of requests is not modelled. Requests arrive as records.
- Randomness (`uuid4`, `token_urlsafe`) and the clock are parameters. Timestamps are integer seconds, and `now[:10]` is the day number.
- Solicitations.NewSolicitation: `timedelta` overflow for huge `expiryDays` and fractional days are not modelled. `expiresAtTTL` is taken as the same instant as `expiresAt`; the source computes it from a naive UTC datetime, which depends on the server's timezone.
- Tasks.PercentComplete: only the bounds are stated. Python's `round` on a float rounds half to even, and the model's integer formula rounds half up.
- Values.Lower: only ASCII letters are lowered, not the full Unicode case mapping of Python's `str.lower`.
- Values.Contains: `in` on an object (a dict) is modelled as false, because record keys are attributes rather than strings. List membership compares values by structure, so Python's cross-type equalities (`True in [1]`, `1 in [True]`) are not modelled; only names that are not strings are affected.
- ChatSummary.Show: lists and objects are rendered as fixed placeholders, not as Python's `repr`.
- ChatSummary.FoldMessages: only a list of messages is modelled. A reply that is a string or a dict, which Python would iterate character by character or key by key, is not.
- ChatSummary.SummaryOf: the participants are a set. The list order Python gives them comes from hashing and is not modelled.
- Numbers are integers. A non-integer JSON number, such as a `rating` of 4.5, becomes a Python float, and DynamoDB writes refuse floats; the model does not capture that failure.
- Testimonials.SolicitedSubmission: with a non-integer number in the request, the source marks the solicitation completed and then fails the testimonial write with 500, burning the token; the model answers 201.
- ChatSummary.GetChatSummary: a summary holding non-integer numbers is not cached in the source, because the cache write error is swallowed; the model stores `CacheEntry`.
- ChatSummary.ChatSummaryOutcome: `time.time()` is a float in the source and an integer here, and `datetime.fromtimestamp` failures are not modelled. The two `get_secret` calls on the fresh path only feed the network calls, so the handler model does not make them; `SecretCache.GetSecret` models the memoisation.
- Empty-string keys on a secondary index are not rejected. DynamoDB refuses an empty `engagementId` as an index key, so an internal or ad-hoc testimonial sent without one fails in DynamoDB, while the model stores it. Likewise a list query with an empty `?engagementId=` or `?status=` makes DynamoDB reject the key condition and the handler answer 500, while the model answers 200 with the items whose attribute is the empty string.
- Where the written specification and the code disagree, the model follows the code:
  - reopening an engagement keeps its `completedDate`;
  - a public submission does not check the solicitation's expiry;
  - the rating is stored unclamped, defaulting to 0;
  - `recipientName` is not validated;
  - `update_task` clears `completedAt` on any request whose status is not `completed`, including one that sends no status;
  - there is no reporting module.
