/** TopicQuery: the topic list behind a navigation panel. The request
    parameters are normalised, a source picks a filter, a time window and
    an ordering over the topics the viewer may see, the first `limit` are
    kept, and the payload is cached per viewer and parameters. */
module TopicQuery {
  import opened RubyJson
  import opened Collaborators

  const MaxServerLimit: int := 40
  const AllowedSources: set<string> := {"latest", "category_latest", "category_top", "tag_latest", "featured"}
  const TimeRanges: set<string> := {"daily", "weekly", "monthly", "quarterly", "yearly", "all"}
  /** The ranges with a lookback; "all" has none. */
  const BoundedRanges: set<string> := {"daily", "weekly", "monthly", "quarterly", "yearly"}

  /** The permitted request parameters, each absent or a string. */
  datatype PanelRequest = PanelRequest(
    sourceType: Option<string>,
    categorySlug: Option<string>,
    categoryId: Option<string>,
    tag: Option<string>,
    timeRange: Option<string>,
    limit: Option<string>)

  /** The normalised parameters, echoed back as the payload's `source`. */
  datatype Params = Params(
    sourceType: string,
    categorySlug: Option<string>,
    categoryId: Option<int>,
    tag: Option<string>,
    timeRange: string,
    limit: int)

  /** A row of the topics the viewer may see (Topic.visible.secured with the
      regular archetype); `excerpt` is what the first post's excerpt gives. */
  datatype Topic = Topic(
    id: int,
    categoryId: Option<int>,
    tags: seq<string>,
    bumpedAt: int,
    likeCount: int,
    views: int,
    postsCount: int,
    pinnedGlobally: bool,
    pinnedAt: Option<int>,
    relativeUrl: string,
    excerpt: Option<string>)

  /** The collaborators of a query: the site (category lookups, can_see?,
      max_panel_items), the clock, the lookback of each bounded range in
      seconds, and SHA-256 of the parameters' JSON. */
  datatype QueryEnv = QueryEnv(site: Env, now: int, lookback: string -> nat, digest: Params -> string)

  /** `x.to_s` on an absent-or-string parameter. */
  function Text(o: Option<string>): string
  {
    if o.Some? then o.value else ""
  }

  /** `x.to_i` on an absent-or-string parameter. */
  function Number(o: Option<string>): int
  {
    if o.Some? then StrToI(o.value) else 0
  }

  // ---------------------------------------------------------------------------
  // normalize_params

  function NormalizeSourceType(raw: Option<string>): (r: string)
    ensures r in AllowedSources
    ensures Text(raw) in AllowedSources ==> r == Text(raw)
    ensures Text(raw) !in AllowedSources ==> r == "latest"
  {
    if Text(raw) in AllowedSources then Text(raw) else "latest"
  }

  function NormalizeTimeRange(raw: Option<string>): (r: string)
    ensures r in TimeRanges
    ensures Text(raw) in TimeRanges ==> r == Text(raw)
    ensures Text(raw) !in TimeRanges ==> r == "weekly"
  {
    if Text(raw) in TimeRanges then Text(raw) else "weekly"
  }

  /** The limit asked for, 6 when that is not positive, capped by the site
      setting and by 40. */
  function NormalizeLimit(raw: Option<string>, maxPanelItems: int): (limit: int)
    ensures limit <= maxPanelItems && limit <= MaxServerLimit
    ensures maxPanelItems >= 1 ==> limit >= 1
    ensures 1 <= Number(raw) <= maxPanelItems && Number(raw) <= MaxServerLimit ==> limit == Number(raw)
    ensures Number(raw) <= 0 ==> limit == Min(Min(6, maxPanelItems), MaxServerLimit)
    ensures Number(raw) >= maxPanelItems && maxPanelItems <= MaxServerLimit ==> limit == maxPanelItems
    ensures Number(raw) >= MaxServerLimit && maxPanelItems >= MaxServerLimit ==> limit == MaxServerLimit
    ensures limit <= (if Number(raw) <= 0 then 6 else Number(raw))
    ensures limit == (if Number(raw) <= 0 then 6 else Number(raw)) || limit == maxPanelItems
      || limit == MaxServerLimit
  {
    var requested := Number(raw);
    var limit := if requested <= 0 then 6 else requested;
    Min(Min(limit, maxPanelItems), MaxServerLimit)
  }

  function NormalizeParams(req: PanelRequest, maxPanelItems: int): (p: Params)
    ensures p.sourceType in AllowedSources && p.timeRange in TimeRanges
    ensures p.sourceType == NormalizeSourceType(req.sourceType) && p.timeRange == NormalizeTimeRange(req.timeRange)
    ensures p.limit == NormalizeLimit(req.limit, maxPanelItems)
    ensures p.categoryId.Some? ==> p.categoryId.value > 0 && p.categoryId.value == Number(req.categoryId)
    ensures p.categoryId.None? <==> Number(req.categoryId) <= 0
    ensures p.categorySlug == PresentStr(Text(req.categorySlug)) && p.tag == PresentStr(Text(req.tag))
  {
    Params(
      NormalizeSourceType(req.sourceType),
      PresentStr(Text(req.categorySlug)),
      if Number(req.categoryId) > 0 then Some(Number(req.categoryId)) else None,
      PresentStr(Text(req.tag)),
      NormalizeTimeRange(req.timeRange),
      NormalizeLimit(req.limit, maxPanelItems))
  }

  /** Unsupported parameters fall back: source "latest", range "weekly",
      and a limit of 999 becomes the site's max_panel_items when that is at
      most 40. */
  lemma ExampleUnsupportedParams(maxPanelItems: int)
    requires 1 <= maxPanelItems <= MaxServerLimit
    ensures var p := NormalizeParams(PanelRequest(Some("unknown"), None, None, None, Some("bad"), Some("999")), maxPanelItems);
      p.sourceType == "latest" && p.timeRange == "weekly" && p.limit == maxPanelItems
  {
    assert "unknown" !in AllowedSources;
    assert "bad" !in TimeRanges;
    assert IntToString(999) == "999";
    StrToIOfIntToString(999);
  }

  /** Normalising normalised parameters changes nothing. */
  lemma NormalizeParamsIdempotent(req: PanelRequest, maxPanelItems: int)
    ensures var p := NormalizeParams(req, maxPanelItems);
      NormalizeParams(Echo(p), maxPanelItems) == p
  {
    var p := NormalizeParams(req, maxPanelItems);
    if p.categoryId.Some? {
      StrToIOfIntToString(p.categoryId.value);
    }
    StrToIOfIntToString(p.limit);
    if p.categorySlug.Some? {
      assert PresentStr(p.categorySlug.value) == p.categorySlug;
    }
    if p.tag.Some? {
      assert PresentStr(p.tag.value) == p.tag;
    }
    assert maxPanelItems >= 1 ==> p.limit >= 1;
    if maxPanelItems < 1 {
      assert p.limit <= maxPanelItems;
    }
  }

  /** The normalised parameters sent back as a request. */
  function Echo(p: Params): PanelRequest
  {
    PanelRequest(
      Some(p.sourceType),
      p.categorySlug,
      if p.categoryId.Some? then Some(IntToString(p.categoryId.value)) else None,
      p.tag,
      Some(p.timeRange),
      Some(IntToString(p.limit)))
  }

  // ---------------------------------------------------------------------------
  // Filtering and ordering

  /** `scope.where(...)`: the rows that pass, in their order. */
  function Filter(s: seq<Topic>, keep: Topic -> bool): (r: seq<Topic>)
    ensures forall t :: t in r <==> t in s && keep(t)
    ensures multiset(r) <= multiset(s)
  {
    if s == [] then []
    else
      var rest := Filter(s[1..], keep);
      assert s == [s[0]] + s[1..];
      if keep(s[0]) then [s[0]] + rest else rest
  }

  datatype Ordering = ByBumped | ByPopularity

  /** `a` may be listed before `b`: bumped_at descending, or like_count,
      then views, then posts_count descending. */
  predicate Precedes(o: Ordering, a: Topic, b: Topic)
  {
    match o
    case ByBumped => a.bumpedAt >= b.bumpedAt
    case ByPopularity =>
      a.likeCount > b.likeCount
      || (a.likeCount == b.likeCount && (a.views > b.views || (a.views == b.views && a.postsCount >= b.postsCount)))
  }

  predicate Sorted(o: Ordering, s: seq<Topic>)
  {
    forall i, j :: 0 <= i < j < |s| ==> Precedes(o, s[i], s[j])
  }

  function Insert(o: Ordering, x: Topic, s: seq<Topic>): (r: seq<Topic>)
    requires Sorted(o, s)
    ensures Sorted(o, r)
    ensures multiset(r) == multiset(s) + multiset{x}
  {
    if s == [] || Precedes(o, x, s[0]) then
      HeadBound(o, x, s);
      ConsSorted(o, x, s);
      [x] + s
    else
      var rest := Insert(o, x, s[1..]);
      assert s == [s[0]] + s[1..];
      assert forall y :: y in rest ==> Precedes(o, s[0], y) by {
        forall y | y in rest ensures Precedes(o, s[0], y) {
          assert y in multiset(rest);
          assert y == x || y in s[1..];
        }
      }
      ConsSorted(o, s[0], rest);
      [s[0]] + rest
  }

  lemma PrecedesTransitive(o: Ordering, a: Topic, b: Topic, c: Topic)
    requires Precedes(o, a, b) && Precedes(o, b, c)
    ensures Precedes(o, a, c)
  {
  }

  /** A row that precedes the head of a sorted list precedes all of it. */
  lemma HeadBound(o: Ordering, x: Topic, s: seq<Topic>)
    requires Sorted(o, s)
    requires s == [] || Precedes(o, x, s[0])
    ensures forall y :: y in s ==> Precedes(o, x, y)
  {
    forall y | y in s ensures Precedes(o, x, y) {
      var j :| 0 <= j < |s| && s[j] == y;
      if j > 0 {
        PrecedesTransitive(o, x, s[0], y);
      }
    }
  }

  lemma ConsSorted(o: Ordering, x: Topic, s: seq<Topic>)
    requires Sorted(o, s)
    requires forall y :: y in s ==> Precedes(o, x, y)
    ensures Sorted(o, [x] + s)
  {
    var r := [x] + s;
    forall i, j | 0 <= i < j < |r| ensures Precedes(o, r[i], r[j]) {
      assert r[j] == s[j - 1];
      if i > 0 {
        assert r[i] == s[i - 1];
      }
    }
  }

  /** `.order(...)`: the same rows, sorted. Rows with equal keys come in
      one of the orders the database may return them in. */
  function Sort(o: Ordering, s: seq<Topic>): (r: seq<Topic>)
    ensures Sorted(o, r)
    ensures multiset(r) == multiset(s)
  {
    if s == [] then []
    else
      assert s == [s[0]] + s[1..];
      Insert(o, s[0], Sort(o, s[1..]))
  }

  /** `.limit(n)`: the first n rows (none for n <= 0). */
  function Take(s: seq<Topic>, n: int): (r: seq<Topic>)
    ensures |r| == if n <= 0 then 0 else Min(n, |s|)
    ensures r == s[..|r|]
  {
    if n <= 0 then [] else if n < |s| then s[..n] else s
  }

  /** What `.limit` keeps of a sorted list is sorted and precedes every row
      it leaves out. */
  lemma TakeKeepsTop(o: Ordering, s: seq<Topic>, n: int)
    requires Sorted(o, s)
    ensures Sorted(o, Take(s, n))
    ensures forall i, j :: 0 <= i < |Take(s, n)| <= j < |s| ==> Precedes(o, s[i], s[j])
  {
  }

  // ---------------------------------------------------------------------------
  // find_category, scoped_by_category, scoped_by_tag, apply_time_range

  /** find_category: by id when the parameters carry one, otherwise by slug;
      nil unless the viewer can see it. */
  function FindCategory(p: Params, user: Option<User>, env: QueryEnv): (r: Option<Category>)
    ensures r.Some? ==> env.site.canSeeCategory(user, r.value)
    ensures p.categoryId.Some? ==> (r.Some? <==>
      env.site.categoryById(p.categoryId.value).Some?
      && env.site.canSeeCategory(user, env.site.categoryById(p.categoryId.value).value))
    ensures p.categoryId.Some? && r.Some? ==> r == env.site.categoryById(p.categoryId.value)
    ensures p.categoryId.None? && p.categorySlug.Some? ==> (r.Some? <==>
      env.site.categoryBySlug(p.categorySlug.value).Some?
      && env.site.canSeeCategory(user, env.site.categoryBySlug(p.categorySlug.value).value))
    ensures p.categoryId.None? && p.categorySlug.Some? && r.Some? ==> r == env.site.categoryBySlug(p.categorySlug.value)
    ensures p.categoryId.None? && p.categorySlug.None? ==> r.None?
  {
    var found :=
      if p.categoryId.Some? then env.site.categoryById(p.categoryId.value)
      else if p.categorySlug.Some? then env.site.categoryBySlug(p.categorySlug.value)
      else None;
    if found.Some? && env.site.canSeeCategory(user, found.value) then found else None
  }

  function ScopedByCategory(scope: seq<Topic>, p: Params, user: Option<User>, env: QueryEnv): (r: seq<Topic>)
    ensures FindCategory(p, user, env).None? ==> r == []
    ensures FindCategory(p, user, env).Some? ==> forall t :: t in r <==>
      t in scope && t.categoryId == Some(FindCategory(p, user, env).value.id)
    ensures multiset(r) <= multiset(scope)
  {
    var category := FindCategory(p, user, env);
    if category.None? then []
    else Filter(scope, (t: Topic) => t.categoryId == Some(category.value.id))
  }

  function ScopedByTag(scope: seq<Topic>, p: Params): (r: seq<Topic>)
    ensures p.tag.None? || BlankStr(p.tag.value) ==> r == []
    ensures p.tag.Some? && !BlankStr(p.tag.value) ==> forall t :: t in r <==> t in scope && p.tag.value in t.tags
    ensures multiset(r) <= multiset(scope)
  {
    if p.tag.None? || BlankStr(p.tag.value) then []
    else Filter(scope, (t: Topic) => p.tag.value in t.tags)
  }

  /** `TIME_RANGES[range] || TIME_RANGES["weekly"]` as written: "all" maps to
      nil, so it falls back to a week and never reaches the unbounded case. */
  function WindowAsWritten(timeRange: string, env: QueryEnv): (w: Option<nat>)
    ensures w.Some?
  {
    if timeRange in BoundedRanges then Some(env.lookback(timeRange)) else Some(env.lookback("weekly"))
  }

  /** The evident intent: "all" has no window; any other unknown range is a
      week. */
  function Window(timeRange: string, env: QueryEnv): (w: Option<nat>)
    ensures w.None? <==> timeRange == "all"
    ensures timeRange != "all" ==> w == WindowAsWritten(timeRange, env)
  {
    if timeRange in BoundedRanges then Some(env.lookback(timeRange))
    else if timeRange == "all" then None
    else Some(env.lookback("weekly"))
  }

  function Since(scope: seq<Topic>, window: Option<nat>, env: QueryEnv): (r: seq<Topic>)
    ensures window.None? ==> r == scope
    ensures window.Some? ==> forall t :: t in r <==> t in scope && t.bumpedAt >= env.now - window.value
    ensures multiset(r) <= multiset(scope)
  {
    if window.None? then scope else Filter(scope, (t: Topic) => t.bumpedAt >= env.now - window.value)
  }

  /** apply_time_range as written: every range, "all" included, keeps only
      the topics bumped within its window. */
  function ApplyTimeRangeAsWritten(scope: seq<Topic>, timeRange: string, env: QueryEnv): (r: seq<Topic>)
    ensures forall t :: t in r <==> t in scope && t.bumpedAt >= env.now - WindowAsWritten(timeRange, env).value
    ensures multiset(r) <= multiset(scope)
  {
    Since(scope, WindowAsWritten(timeRange, env), env)
  }

  /** apply_time_range as intended: only topics bumped within the window,
      and every topic for "all". */
  function ApplyTimeRange(scope: seq<Topic>, timeRange: string, env: QueryEnv): (r: seq<Topic>)
    ensures timeRange == "all" ==> r == scope
    ensures timeRange != "all" ==> r == ApplyTimeRangeAsWritten(scope, timeRange, env)
  {
    Since(scope, Window(timeRange, env), env)
  }

  /** As written, "all" drops every topic not bumped in the last week. */
  lemma AllRangeDropsOldTopics(scope: seq<Topic>, t: Topic, env: QueryEnv)
    requires t in scope && t.bumpedAt < env.now - env.lookback("weekly")
    ensures t !in ApplyTimeRangeAsWritten(scope, "all", env)
    ensures t in ApplyTimeRange(scope, "all", env)
  {
    assert "all" !in BoundedRanges;
  }

  // ---------------------------------------------------------------------------
  // apply_source

  function OrderingFor(sourceType: string): Ordering
  {
    if sourceType == "category_top" then ByPopularity else ByBumped
  }

  /** The rows a source selects, before ordering. */
  function Selected(scope: seq<Topic>, p: Params, user: Option<User>, env: QueryEnv): (r: seq<Topic>)
    ensures multiset(r) <= multiset(scope)
  {
    if p.sourceType == "category_latest" then ScopedByCategory(scope, p, user, env)
    else if p.sourceType == "category_top" then ApplyTimeRange(ScopedByCategory(scope, p, user, env), p.timeRange, env)
    else if p.sourceType == "tag_latest" then ScopedByTag(scope, p)
    else if p.sourceType == "featured" then Filter(scope, (t: Topic) => t.pinnedGlobally || t.pinnedAt.Some?)
    else ApplyTimeRange(scope, p.timeRange, env)
  }

  /** apply_source: the selected rows, ordered for the source. */
  function ApplySource(scope: seq<Topic>, p: Params, user: Option<User>, env: QueryEnv): (r: seq<Topic>)
    ensures Sorted(OrderingFor(p.sourceType), r)
    ensures multiset(r) == multiset(Selected(scope, p, user, env))
  {
    Sort(OrderingFor(p.sourceType), Selected(scope, p, user, env))
  }

  /** Every topic a source returns comes from the scope, at most as often. */
  lemma ApplySourceWithinScope(scope: seq<Topic>, p: Params, user: Option<User>, env: QueryEnv)
    ensures multiset(ApplySource(scope, p, user, env)) <= multiset(scope)
    ensures (forall t :: multiset(scope)[t] <= 1) ==> forall t :: multiset(ApplySource(scope, p, user, env))[t] <= 1
  {
  }

  /** What each source keeps. */
  lemma {:induction false} SourceFilters(scope: seq<Topic>, p: Params, user: Option<User>, env: QueryEnv, t: Topic)
    ensures p.sourceType == "featured" ==>
      (t in ApplySource(scope, p, user, env) <==> t in scope && (t.pinnedGlobally || t.pinnedAt.Some?))
    ensures p.sourceType == "category_latest" ==>
      (t in ApplySource(scope, p, user, env) <==> (FindCategory(p, user, env).Some? && t in scope
        && t.categoryId == Some(FindCategory(p, user, env).value.id)))
    ensures p.sourceType == "tag_latest" ==>
      (t in ApplySource(scope, p, user, env) <==> (p.tag.Some? && !BlankStr(p.tag.value) && t in scope
        && p.tag.value in t.tags))
    ensures p.sourceType == "category_top" ==>
      (t in ApplySource(scope, p, user, env) <==> (FindCategory(p, user, env).Some?
        && t.categoryId == Some(FindCategory(p, user, env).value.id) && t in ApplyTimeRange(scope, p.timeRange, env)))
    ensures p.sourceType == "latest" ==>
      (t in ApplySource(scope, p, user, env) <==> t in ApplyTimeRange(scope, p.timeRange, env))
  {
    ApplySourceMembers(scope, p, user, env, t);
    if p.sourceType == "category_top" {
      CategoryTopMembers(scope, p, user, env, t);
    }
  }

  /** Sorting keeps exactly the selected topics. */
  lemma ApplySourceMembers(scope: seq<Topic>, p: Params, user: Option<User>, env: QueryEnv, t: Topic)
    ensures t in ApplySource(scope, p, user, env) <==> t in Selected(scope, p, user, env)
  {
    var r := ApplySource(scope, p, user, env);
    assert t in r <==> t in multiset(r);
    assert t in Selected(scope, p, user, env) <==> t in multiset(Selected(scope, p, user, env));
  }

  /** Narrowing to the category and then to the time range keeps the same
      topics as the other order. */
  lemma CategoryTopMembers(scope: seq<Topic>, p: Params, user: Option<User>, env: QueryEnv, t: Topic)
    ensures t in ApplyTimeRange(ScopedByCategory(scope, p, user, env), p.timeRange, env) <==>
      (FindCategory(p, user, env).Some? && t.categoryId == Some(FindCategory(p, user, env).value.id)
        && t in ApplyTimeRange(scope, p.timeRange, env))
  {
    var c := ScopedByCategory(scope, p, user, env);
    if p.timeRange != "all" {
      var w := WindowAsWritten(p.timeRange, env).value;
      assert t in ApplyTimeRangeAsWritten(c, p.timeRange, env) <==> t in c && t.bumpedAt >= env.now - w;
      assert t in ApplyTimeRangeAsWritten(scope, p.timeRange, env) <==> t in scope && t.bumpedAt >= env.now - w;
    }
  }

  /** category_latest and category_top find nothing when the category is
      missing or hidden from the viewer. */
  lemma MissingCategoryEmpties(scope: seq<Topic>, p: Params, user: Option<User>, env: QueryEnv)
    requires p.sourceType in {"category_latest", "category_top"}
    requires FindCategory(p, user, env).None?
    ensures ApplySource(scope, p, user, env) == []
  {
    assert Selected(scope, p, user, env) == [];
    assert |ApplySource(scope, p, user, env)| == |multiset(ApplySource(scope, p, user, env))|;
  }

  // ---------------------------------------------------------------------------
  // serialize_topic, fetch

  datatype TopicCard = TopicCard(id: int, url: string, bumpedAt: int, likeCount: int, views: int,
    postsCount: int, excerpt: Option<string>)

  datatype Payload = Payload(source: Params, topics: seq<TopicCard>)

  /** serialize_topic: featured topics carry no excerpt. */
  function SerializeTopic(t: Topic, p: Params): (c: TopicCard)
    ensures c.id == t.id && c.url == t.relativeUrl
    ensures c.excerpt == if p.sourceType == "featured" then None else t.excerpt
  {
    TopicCard(t.id, t.relativeUrl, t.bumpedAt, t.likeCount, t.views, t.postsCount,
      if p.sourceType == "featured" then None else t.excerpt)
  }

  function SerializeAll(ts: seq<Topic>, p: Params): (cs: seq<TopicCard>)
    ensures |cs| == |ts|
    ensures forall i :: 0 <= i < |ts| ==> cs[i] == SerializeTopic(ts[i], p)
  {
    if ts == [] then [] else [SerializeTopic(ts[0], p)] + SerializeAll(ts[1..], p)
  }

  /** The payload the cache stores: the parameters, and the first `limit`
      topics of the source, serialised. */
  function Compute(scope: seq<Topic>, p: Params, user: Option<User>, env: QueryEnv): (r: Payload)
    ensures r.source == p
    ensures |r.topics| == if p.limit <= 0 then 0 else Min(p.limit, |ApplySource(scope, p, user, env)|)
    ensures forall i :: 0 <= i < |r.topics| ==> r.topics[i] == SerializeTopic(ApplySource(scope, p, user, env)[i], p)
  {
    Payload(p, SerializeAll(Take(ApplySource(scope, p, user, env), p.limit), p))
  }

  const CacheKeyPrefix: string := "sns:panel:v1:user:"

  function UserKey(user: Option<User>): string
  {
    if user.Some? then IntToString(user.value.id) else "anon"
  }

  /** cache_key_for: "sns:panel:v1:user:<id or anon>:<digest of the
      parameters>". */
  function CacheKeyFor(user: Option<User>, p: Params, env: QueryEnv): (key: string)
    ensures |key| == |CacheKeyPrefix| + |UserKey(user)| + 1 + |env.digest(p)|
    ensures key[..|CacheKeyPrefix|] == CacheKeyPrefix
    ensures key[|CacheKeyPrefix|..|CacheKeyPrefix| + |UserKey(user)|] == UserKey(user)
    ensures key[|key| - |env.digest(p)|..] == env.digest(p)
  {
    CacheKeyPrefix + UserKey(user) + ":" + env.digest(p)
  }

  /** With digests of one length (SHA-256 in hex), equal keys mean the same
      viewer key and the same digest. */
  lemma CacheKeySeparates(u1: Option<User>, p1: Params, u2: Option<User>, p2: Params, env: QueryEnv)
    requires |env.digest(p1)| == |env.digest(p2)|
    requires CacheKeyFor(u1, p1, env) == CacheKeyFor(u2, p2, env)
    ensures UserKey(u1) == UserKey(u2) && env.digest(p1) == env.digest(p2)
  {
    var pre := CacheKeyPrefix;
    var b1 := (UserKey(u1) + ":") + env.digest(p1);
    var b2 := (UserKey(u2) + ":") + env.digest(p2);
    CacheKeyShape(u1, p1, env);
    CacheKeyShape(u2, p2, env);
    ConcatCancel(pre, b1, pre, b2);
    ConcatCancelRight(UserKey(u1) + ":", env.digest(p1), UserKey(u2) + ":", env.digest(p2));
    ConcatCancel(UserKey(u1), ":", UserKey(u2), ":");
  }

  /** The key regrouped as the prefix followed by the rest. */
  lemma CacheKeyShape(user: Option<User>, p: Params, env: QueryEnv)
    ensures CacheKeyFor(user, p, env) == CacheKeyPrefix + ((UserKey(user) + ":") + env.digest(p))
  {
    assert CacheKeyPrefix + UserKey(user) + ":" + env.digest(p)
        == CacheKeyPrefix + ((UserKey(user) + ":") + env.digest(p));
  }

  /** Equal concatenations with equal-length left parts have equal parts. */
  lemma ConcatCancel(a1: string, b1: string, a2: string, b2: string)
    requires a1 + b1 == a2 + b2 && |a1| == |a2|
    ensures a1 == a2 && b1 == b2
  {
    assert a1 == (a1 + b1)[..|a1|];
    assert a2 == (a2 + b2)[..|a2|];
    assert b1 == (a1 + b1)[|a1|..];
    assert b2 == (a2 + b2)[|a2|..];
  }

  /** The same, with equal-length right parts. */
  lemma ConcatCancelRight(a1: string, b1: string, a2: string, b2: string)
    requires a1 + b1 == a2 + b2 && |b1| == |b2|
    ensures a1 == a2 && b1 == b2
  {
    ConcatCancel(a1, b1, a2, b2);
  }

  /** Viewers with different keys: the anonymous viewer is never keyed like a
      signed-in one, and two signed-in viewers share a key only when they
      have the same id. */
  lemma UserKeyInjective(u1: Option<User>, u2: Option<User>)
    requires UserKey(u1) == UserKey(u2)
    ensures u1.None? <==> u2.None?
    ensures u1.Some? ==> u1.value.id == u2.value.id
  {
    if u1.Some? && u2.Some? {
      IntToStringInjective(u1.value.id, u2.value.id);
    } else if u1.Some? {
      NotAnon(u1.value.id);
    } else if u2.Some? {
      NotAnon(u2.value.id);
    }
  }

  lemma NotAnon(n: int)
    ensures IntToString(n) != "anon"
  {
    var s := IntToString(n);
    if n >= 0 {
      assert IsDigit(s[0]);
    } else {
      assert s[0] == '-';
    }
  }

  /** A panel payload within the limits normalisation guarantees. */
  predicate Bounded(payload: Payload)
  {
    |payload.topics| <= payload.source.limit <= MaxServerLimit || payload.topics == []
  }

  /** The read-through cache of fetch; entries do not expire here. */
  class PanelFeedCache {
    var entries: map<string, Payload>

    predicate Valid()
      reads this
    {
      forall k :: k in entries ==> Bounded(entries[k])
    }

    constructor()
      ensures entries == map[] && Valid()
    {
      entries := map[];
    }

    /** fetch: the stored payload on a hit, untouched; on a miss the payload
        is computed, stored under the key and returned. */
    method Fetch(user: Option<User>, req: PanelRequest, scope: seq<Topic>, env: QueryEnv) returns (payload: Payload)
      requires Valid()
      modifies this
      ensures Valid()
      ensures Bounded(payload)
      ensures var key := CacheKeyFor(user, NormalizeParams(req, env.site.maxPanelItems), env);
        && (key in old(entries) ==> payload == old(entries)[key] && entries == old(entries))
        && (key !in old(entries) ==>
          payload == Compute(scope, NormalizeParams(req, env.site.maxPanelItems), user, env)
          && entries == old(entries)[key := payload])
    {
      var normalized := NormalizeParams(req, env.site.maxPanelItems);
      var key := CacheKeyFor(user, normalized, env);
      if key in entries {
        payload := entries[key];
      } else {
        payload := Compute(scope, normalized, user, env);
        entries := entries[key := payload];
      }
    }
  }
}
