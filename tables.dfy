/** The DynamoDB tables the handlers share, each as an in-memory map from key
    to item, and the scan that enumerates a table. */
module Tables {
  import opened Values
  import opened Ordering

  /** `item[attr]` holds the key under which the item is stored. */
  predicate KeyedBy(attr: Attr, k: string, item: Record)
  {
    attr in item && item[attr] == Str(k)
  }

  /** Engagements carry `id`, `name` and `status`, which `get_agent` and
      `list_agents` read with `eng['...']`. */
  predicate EngagementsValid(t: map<string, Record>)
  {
    forall k :: k in t ==> KeyedBy(Id, k, t[k]) && Name in t[k] && Status in t[k]
  }

  /** Storing a well-formed engagement under its own id keeps the table
      well-formed. */
  lemma EngagementsPut(t: map<string, Record>, k: string, item: Record)
    requires EngagementsValid(t)
    requires KeyedBy(Id, k, item) && Name in item && Status in item
    ensures EngagementsValid(t[k := item])
  {
  }

  /** A solicitation is keyed by its token, names an engagement, expires at a
      timestamp, and is `pending` or `completed`. */
  predicate SolicitationValid(k: string, s: Record)
  {
    && KeyedBy(Token, k, s)
    && EngagementId in s && KeyOf(s[EngagementId]).Some?
    && ExpiresAt in s && s[ExpiresAt].Time?
    && Status in s && (s[Status] == Str("pending") || s[Status] == Str("completed"))
  }

  predicate SolicitationsValid(t: map<string, Record>)
  {
    forall k :: k in t ==> SolicitationValid(k, t[k])
  }

  /** Storing a well-formed solicitation under its own token keeps the
      table well-formed. */
  lemma SolicitationsPut(t: map<string, Record>, k: string, item: Record)
    requires SolicitationsValid(t) && SolicitationValid(k, item)
    ensures SolicitationsValid(t[k := item])
  {
  }

  predicate KeyedTable(attr: Attr, t: map<string, Record>)
  {
    forall k :: k in t ==> KeyedBy(attr, k, t[k])
  }

  /** Storing an item under its own key keeps a keyed table keyed. */
  lemma KeyedPut(attr: Attr, t: map<string, Record>, k: string, item: Record)
    requires KeyedTable(attr, t) && KeyedBy(attr, k, item)
    ensures KeyedTable(attr, t[k := item])
  {
  }

  /** Agents carry `name`, which `get_agent` reads with `agent['name']`. */
  predicate AgentsValid(t: map<string, Record>)
  {
    forall k :: k in t ==> KeyedBy(Id, k, t[k]) && Name in t[k]
  }

  /** Storing a named agent under its own id keeps the table well-formed. */
  lemma AgentsPut(t: map<string, Record>, k: string, item: Record)
    requires AgentsValid(t) && KeyedBy(Id, k, item) && Name in item
    ensures AgentsValid(t[k := item])
  {
  }

  class Store {
    var engagements: map<string, Record>
    var solicitations: map<string, Record>
    var testimonials: map<string, Record>
    var tasks: map<string, Record>
    var agents: map<string, Record>
    /** The chat-summary cache, keyed by engagement id. */
    var summaries: map<string, Record>

    /** The invariant every handler keeps. */
    ghost predicate Valid()
      reads this
    {
      && EngagementsValid(engagements)
      && SolicitationsValid(solicitations)
      && KeyedTable(Id, testimonials)
      && KeyedTable(Id, tasks)
      && AgentsValid(agents)
      && KeyedTable(EngagementId, summaries)
    }

    /** `put_item` or `update_item` on the engagements table. */
    method PutEngagement(id: string, item: Record)
      requires Valid() && KeyedBy(Id, id, item) && Name in item && Status in item
      modifies this`engagements
      ensures Valid() && engagements == old(engagements)[id := item]
    {
      EngagementsPut(engagements, id, item);
      engagements := engagements[id := item];
    }

    /** `put_item` on the solicitations table. */
    method PutSolicitation(token: string, item: Record)
      requires Valid() && SolicitationValid(token, item)
      modifies this`solicitations
      ensures Valid() && solicitations == old(solicitations)[token := item]
    {
      SolicitationsPut(solicitations, token, item);
      solicitations := solicitations[token := item];
    }

    /** `put_item` or `update_item` on the testimonials table. */
    method PutTestimonial(id: string, item: Record)
      requires Valid() && KeyedBy(Id, id, item)
      modifies this`testimonials
      ensures Valid() && testimonials == old(testimonials)[id := item]
    {
      KeyedPut(Id, testimonials, id, item);
      testimonials := testimonials[id := item];
    }

    /** `put_item` or `update_item` on the tasks table. */
    method PutTask(id: string, item: Record)
      requires Valid() && KeyedBy(Id, id, item)
      modifies this`tasks
      ensures Valid() && tasks == old(tasks)[id := item]
    {
      KeyedPut(Id, tasks, id, item);
      tasks := tasks[id := item];
    }

    /** `put_item` or `update_item` on the agents table. */
    method PutAgent(id: string, item: Record)
      requires Valid() && KeyedBy(Id, id, item) && Name in item
      modifies this`agents
      ensures Valid() && agents == old(agents)[id := item]
    {
      AgentsPut(agents, id, item);
      agents := agents[id := item];
    }

    /** `put_item` on the chat summaries table, keyed by engagement. */
    method PutSummary(engagementId: string, item: Record)
      requires Valid() && KeyedBy(EngagementId, engagementId, item)
      modifies this`summaries
      ensures Valid() && summaries == old(summaries)[engagementId := item]
    {
      KeyedPut(EngagementId, summaries, engagementId, item);
      summaries := summaries[engagementId := item];
    }

    constructor ()
      ensures Valid()
      ensures engagements == solicitations == testimonials == tasks == agents == summaries == map[]
    {
      engagements, solicitations, testimonials := map[], map[], map[];
      tasks, agents, summaries := map[], map[], map[];
    }
  }

  /** `scan` lists every key of `t` exactly once: the order in which DynamoDB
      returns a scan or a query, which the handlers do not choose. */
  predicate IsScan(t: map<string, Record>, scan: seq<string>)
  {
    && (forall i, j :: 0 <= i < j < |scan| ==> scan[i] != scan[j])
    && (forall i :: 0 <= i < |scan| ==> scan[i] in t)
    && (forall k :: k in t ==> k in scan)
  }

  /** The items of `t`, in scan order, that satisfy `p` (a scan, or a query
      whose key condition is `p`). */
  function Select(t: map<string, Record>, scan: seq<string>, p: Record -> bool): (rows: seq<Record>)
    requires forall i :: 0 <= i < |scan| ==> scan[i] in t
    ensures |rows| <= |scan|
    ensures forall x :: x in rows ==> p(x)
  {
    if scan == [] then []
    else (if p(t[scan[0]]) then [t[scan[0]]] else []) + Select(t, scan[1..], p)
  }

  /** The keys among `ks` whose item satisfies `p`. */
  function Matching(t: map<string, Record>, ks: set<string>, p: Record -> bool): set<string>
  {
    set k | k in ks && k in t && p(t[k])
  }

  lemma {:induction false} SelectMembers(t: map<string, Record>, scan: seq<string>, p: Record -> bool, x: Record)
    requires forall i :: 0 <= i < |scan| ==> scan[i] in t
    ensures x in Select(t, scan, p) <==> exists i :: 0 <= i < |scan| && t[scan[i]] == x && p(x)
  {
    if scan != [] {
      SelectMembers(t, scan[1..], p, x);
      if x in Select(t, scan[1..], p) {
        var i :| 0 <= i < |scan[1..]| && t[scan[1..][i]] == x && p(x);
        assert t[scan[i + 1]] == x;
      }
      if exists i :: 0 <= i < |scan| && t[scan[i]] == x && p(x) {
        var i :| 0 <= i < |scan| && t[scan[i]] == x && p(x);
        if i > 0 {
          assert t[scan[1..][i - 1]] == x;
        }
      }
    }
  }

  lemma {:induction false} SelectCount(t: map<string, Record>, scan: seq<string>, p: Record -> bool)
    requires forall i, j :: 0 <= i < j < |scan| ==> scan[i] != scan[j]
    requires forall i :: 0 <= i < |scan| ==> scan[i] in t
    ensures |Select(t, scan, p)| == |Matching(t, (set k | k in scan), p)|
  {
    if scan == [] {
      assert Matching(t, (set k | k in scan), p) == {};
    } else {
      var tail := scan[1..];
      assert forall i, j :: 0 <= i < j < |tail| ==> tail[i] != tail[j] by {
        forall i, j | 0 <= i < j < |tail| ensures tail[i] != tail[j] {
          assert tail[i] == scan[i + 1] && tail[j] == scan[j + 1];
        }
      }
      SelectCount(t, tail, p);
      MatchingStep(t, scan, p);
    }
  }

  /** The first key of a duplicate-free scan adds one matching key exactly
      when its item passes the filter. */
  lemma MatchingStep(t: map<string, Record>, scan: seq<string>, p: Record -> bool)
    requires scan != []
    requires forall i, j :: 0 <= i < j < |scan| ==> scan[i] != scan[j]
    requires forall i :: 0 <= i < |scan| ==> scan[i] in t
    ensures |Matching(t, (set k | k in scan), p)|
              == |Matching(t, (set k | k in scan[1..]), p)| + (if p(t[scan[0]]) then 1 else 0)
  {
    var tail := scan[1..];
    var rest := Matching(t, (set k | k in tail), p);
    assert forall j :: 0 <= j < |tail| ==> tail[j] == scan[j + 1];
    assert scan[0] !in rest;
    var all := Matching(t, (set k | k in scan), p);
    if p(t[scan[0]]) {
      assert all == {scan[0]} + rest;
    } else {
      assert all == rest;
    }
  }

  /** A scan-and-filter returns exactly the matching items of the table, one
      per matching key. */
  lemma SelectExact(t: map<string, Record>, scan: seq<string>, p: Record -> bool)
    requires IsScan(t, scan)
    ensures forall x :: x in Select(t, scan, p) <==> x in t.Values && p(x)
    ensures |Select(t, scan, p)| == |Matching(t, t.Keys, p)|
  {
    forall x ensures x in Select(t, scan, p) <==> x in t.Values && p(x) {
      SelectMembers(t, scan, p, x);
      if x in t.Values && p(x) {
        var k :| k in t && t[k] == x;
        var i :| 0 <= i < |scan| && scan[i] == k;
      }
    }
    SelectCount(t, scan, p);
    assert (set k | k in scan) == t.Keys;
  }

  /** The items a list handler returns: those of `t` that satisfy `p`, sorted
      by `key` (descending when `desc`). */
  function Listed(t: map<string, Record>, scan: seq<string>, p: Record -> bool, key: Record -> Key, desc: bool): (items: seq<Record>)
    requires IsScan(t, scan)
    ensures Sorted(items, key, desc)
    ensures forall x :: x in items <==> x in t.Values && p(x)
    ensures |items| == |Matching(t, t.Keys, p)|
  {
    var rows := Select(t, scan, p);
    SelectExact(t, scan, p);
    SortBySorted(rows, key, desc);
    assert forall x :: x in SortBy(rows, key, desc) <==> x in multiset(rows);
    SortBy(rows, key, desc)
  }

  /** The filter of a query `Key(attr).eq(v)` on an index, or of a plain scan
      when no value is asked for. */
  function Equals(attr: Attr, v: Option<string>): Record -> bool
  {
    (x: Record) => v.None? || (attr in x && x[attr] == Str(v.value))
  }
}
