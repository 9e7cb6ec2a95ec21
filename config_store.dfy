/** ConfigStore's normalisation half: the author-written navigation document
    is rewritten into a fixed shape (enums coerced, ids generated by position,
    delays and limits clamped, URLs sanitised and resolved), raising where the
    Ruby coercions raise. */
module ConfigStore {
  import opened RubyJson
  import opened Collaborators
  import opened VisibilityResolver

  const AllowedMenuLayouts: set<string> := {"dropdown", "mega_grid", "sidebar"}
  const AllowedOpenModes: set<string> := {"hover", "click"}
  const AllowedPlacements: set<string> := {"top_nav", "sidebar", "floating"}
  const AllowedItemTypes: set<string> :=
    {"link", "category", "tag", "topic", "external_link", "section_heading", "divider"}
  const AllowedPanelSources: set<string> :=
    {"latest", "category_latest", "category_top", "tag_latest", "featured"}
  const AllowedTimeRanges: set<string> := {"daily", "weekly", "monthly", "quarterly", "yearly", "all"}
  /** The URI schemes sanitize_url lets through. */
  const AllowedSchemes: set<string> := {"http", "https", "mailto", "tel"}

  /** A normalised panel hash. */
  datatype Panel = Panel(
    sourceType: string,
    categorySlug: Option<string>,
    categoryId: Option<int>,
    tag: Option<string>,
    timeRange: string,
    limit: int,
    showThumbnail: bool,
    showExcerpt: bool)

  /** A normalised item hash; the id is whatever non-blank value the author
      gave, or a generated string. */
  datatype Item = Item(
    id: Json,
    title: string,
    itemType: string,
    url: Option<string>,
    resolvedUrl: Option<string>,
    icon: Option<string>,
    imageUrl: Option<string>,
    customCssClass: Option<string>,
    customCss: Option<string>,
    visibility: Rule,
    panel: Option<Panel>,
    children: seq<Item>)

  datatype Menu = Menu(
    id: Json,
    labelValue: Json,
    placement: string,
    layout: string,
    openMode: string,
    hoverDelayMs: int,
    visibility: Rule,
    items: seq<Item>)

  /** A normalised document; sidebars and discovery blocks stay free-form
      hashes whose "visibility" has been normalised. */
  datatype Config = Config(version: int, menus: seq<Menu>, sidebars: seq<Json>, discoveryBlocks: seq<Json>)

  const DefaultConfig: Config := Config(1, [], [], [])

  /** DEFAULT_CONFIG as a hash. */
  const DefaultConfigJson: Json := JObj([
    Member("version", JInt(1)), Member("menus", JArr([])),
    Member("sidebars", JArr([])), Member("discovery_blocks", JArr([]))])

  /** DEFAULT_CONFIG.to_json */
  const DefaultConfigText: string := "{" + "\"version\":1,\"menus\":[],\"sidebars\":[],\"discovery_blocks\":[]}"

  /** `x.is_a?(Hash) ? x : {}` */
  function HashMembers(j: Json): seq<Member>
  {
    if j.JObj? then j.members else []
  }

  function Clamp(n: int, lo: int, hi: int): int
    requires lo <= hi
  {
    if n < lo then lo else if n > hi then hi else n
  }

  // ---------------------------------------------------------------------------
  // safe_enum and sanitize_url

  /** safe_enum: `value.to_s` when it is accepted, the fallback otherwise. */
  function SafeEnum(value: Json, accepted: set<string>, fallback: string): (r: string)
    ensures fallback in accepted ==> r in accepted
    ensures r == ToS(value) || r == fallback
    ensures r == ToS(value) <==> ToS(value) in accepted || ToS(value) == fallback
  {
    if ToS(value) in accepted then ToS(value) else fallback
  }

  predicate AcceptedScheme(p: UriParse)
  {
    p.Parsed? && p.scheme.Some? && p.scheme.value in AllowedSchemes
  }

  /** The shape of every URL sanitize_url lets through. */
  predicate SanitizedForm(u: Option<string>)
  {
    u.Some? ==> !BlankStr(u.value) && Strip(u.value) == u.value
  }

  /** sanitize_url: the stripped to_s, provided it is not blank and either
      starts with "/" or parses with an http, https, mailto or tel scheme;
      nil otherwise, including when URI.parse fails. */
  function SanitizeUrl(value: Json, env: Env): (r: Option<string>)
    ensures SanitizedForm(r)
    ensures r.Some? ==> r.value == Strip(ToS(value))
    ensures r.Some? <==> (!BlankStr(Strip(ToS(value)))
      && (StartsWith(Strip(ToS(value)), "/") || AcceptedScheme(env.parseUri(Strip(ToS(value))))))
  {
    var url := Strip(ToS(value));
    StripIdempotent(ToS(value));
    if BlankStr(url) then None
    else if StartsWith(url, "/") then Some(url)
    else
      match env.parseUri(url)
      case InvalidUri => None
      case Parsed(scheme) =>
        if scheme.Some? && scheme.value in AllowedSchemes then Some(url) else None
  }

  /** `u` is a URL sanitize_url gives back unchanged. */
  predicate SanitizeFixed(u: Option<string>, env: Env)
  {
    u.Some? ==> SanitizeUrl(JStr(u.value), env) == u
  }

  /** Sanitising a sanitised URL gives it back unchanged. */
  lemma SanitizeUrlIdempotent(value: Json, env: Env)
    ensures SanitizeFixed(SanitizeUrl(value, env), env)
  {
    var r := SanitizeUrl(value, env);
    if r.Some? {
      StripIdempotent(ToS(value));
      SanitizeStripped(r.value, env);
    }
  }

  /** A stripped, non-blank string that sanitize_url accepts comes back as
      itself. */
  lemma SanitizeStripped(u: string, env: Env)
    requires !BlankStr(u) && Strip(u) == u
    requires StartsWith(u, "/") || AcceptedScheme(env.parseUri(u))
    ensures SanitizeUrl(JStr(u), env) == Some(u)
  {
    assert ToS(JStr(u)) == u;
  }

  /** A blank string (white space in the Unicode sense blank? uses) sanitises
      to nil: what strip leaves of it is still blank. */
  lemma SanitizeUrlBlank(s: string, env: Env)
    requires BlankStr(s)
    ensures SanitizeUrl(JStr(s), env).None?
  {
    assert ToS(JStr(s)) == s;
    StripBlank(s);
  }

  // ---------------------------------------------------------------------------
  // Lookups and resolve_url

  /** find_category: by id when category_id.to_i is positive, otherwise by slug
      when category_slug is present, otherwise nothing; to_i may raise. */
  function FindCategory(ms: seq<Member>, env: Env): (r: Result<Option<Category>>)
    ensures r.Raised? <==> ToI(Get(ms, "category_id")).Raised?
    ensures r.Ok? && ToI(Get(ms, "category_id")).value > 0 ==>
      r.value == env.categoryById(ToI(Get(ms, "category_id")).value)
    ensures r.Ok? && ToI(Get(ms, "category_id")).value <= 0 && !Blank(Get(ms, "category_slug")) ==>
      r.value == env.categoryBySlug(ToS(Get(ms, "category_slug")))
    ensures r.Ok? && ToI(Get(ms, "category_id")).value <= 0 && Blank(Get(ms, "category_slug")) ==>
      r.value.None?
  {
    var id :- ToI(Get(ms, "category_id"));
    if id > 0 then Ok(env.categoryById(id))
    else if !Blank(Get(ms, "category_slug")) then Ok(env.categoryBySlug(ToS(Get(ms, "category_slug"))))
    else Ok(None)
  }

  /** find_topic: by id when topic_id.to_i is positive. */
  function FindTopic(ms: seq<Member>, env: Env): (r: Result<Option<TopicRef>>)
    ensures r.Raised? <==> ToI(Get(ms, "topic_id")).Raised?
    ensures r.Ok? && ToI(Get(ms, "topic_id")).value > 0 ==> r.value == env.topicById(ToI(Get(ms, "topic_id")).value)
    ensures r.Ok? && ToI(Get(ms, "topic_id")).value <= 0 ==> r.value.None?
  {
    var id :- ToI(Get(ms, "topic_id"));
    if id > 0 then Ok(env.topicById(id)) else Ok(None)
  }

  /** "/c/<slug>/<id>" */
  function CategoryPath(c: Category): string
  {
    "/c/" + c.slug + "/" + IntToString(c.id)
  }

  /** resolve_url at normalisation time, dispatching on the coerced type. */
  function ResolveUrl(itemType: string, ms: seq<Member>, env: Env): (r: Result<Option<string>>)
    ensures r.Ok? ==> SanitizedForm(r.value)
    ensures (itemType == "link" || itemType == "external_link") ==> r == Ok(SanitizeUrl(Get(ms, "url"), env))
    ensures r.Raised? ==> itemType == "category" || itemType == "topic"
    ensures itemType == "category" ==> (r.Raised? <==> FindCategory(ms, env).Raised?)
    ensures itemType == "category" && r.Ok? ==> r.value == SanitizeUrl(
      if FindCategory(ms, env).value.Some? then JStr(CategoryPath(FindCategory(ms, env).value.value))
      else Get(ms, "url"), env)
    ensures itemType == "tag" ==> r == Ok(SanitizeUrl(
      if !BlankStr(ToS(Get(ms, "tag"))) then JStr("/tag/" + ToS(Get(ms, "tag"))) else Get(ms, "url"), env))
    ensures itemType == "topic" ==> (r.Raised? <==> FindTopic(ms, env).Raised?)
    ensures itemType == "topic" && r.Ok? ==> r.value == SanitizeUrl(
      if FindTopic(ms, env).value.Some? then JStr(FindTopic(ms, env).value.value.relativeUrl)
      else Get(ms, "url"), env)
    ensures (itemType != "link" && itemType != "external_link" && itemType != "category"
      && itemType != "tag" && itemType != "topic") ==> r == Ok(None)
  {
    if itemType == "link" || itemType == "external_link" then
      Ok(SanitizeUrl(Get(ms, "url"), env))
    else if itemType == "category" then
      var category :- FindCategory(ms, env);
      if category.Some? then Ok(SanitizeUrl(JStr(CategoryPath(category.value)), env))
      else Ok(SanitizeUrl(Get(ms, "url"), env))
    else if itemType == "tag" then
      var tag := PresentStr(ToS(Get(ms, "tag")));
      if tag.Some? then Ok(SanitizeUrl(JStr("/tag/" + tag.value), env))
      else Ok(SanitizeUrl(Get(ms, "url"), env))
    else if itemType == "topic" then
      var topic :- FindTopic(ms, env);
      if topic.Some? then Ok(SanitizeUrl(JStr(topic.value.relativeUrl), env))
      else Ok(SanitizeUrl(Get(ms, "url"), env))
    else Ok(None)
  }

  /** Whatever resolve_url produces, sanitize_url gives back unchanged. */
  lemma ResolveUrlFixed(itemType: string, ms: seq<Member>, env: Env)
    requires ResolveUrl(itemType, ms, env).Ok?
    ensures SanitizeFixed(ResolveUrl(itemType, ms, env).value, env)
  {
    SanitizeUrlIdempotent(Get(ms, "url"), env);
    if itemType == "category" {
      var category := FindCategory(ms, env).value;
      if category.Some? {
        SanitizeUrlIdempotent(JStr(CategoryPath(category.value)), env);
      }
    } else if itemType == "tag" {
      var tag := PresentStr(ToS(Get(ms, "tag")));
      if tag.Some? {
        SanitizeUrlIdempotent(JStr("/tag/" + tag.value), env);
      }
    } else if itemType == "topic" {
      var topic := FindTopic(ms, env).value;
      if topic.Some? {
        SanitizeUrlIdempotent(JStr(topic.value.relativeUrl), env);
      }
    }
  }

  /** A tag item with a present tag resolves to "/tag/<tag>" (stripped),
      whatever its url says. */
  lemma ResolveUrlTag(ms: seq<Member>, env: Env)
    requires !BlankStr(ToS(Get(ms, "tag")))
    ensures ResolveUrl("tag", ms, env) == Ok(Some(Strip("/tag/" + ToS(Get(ms, "tag")))))
  {
    var p := "/tag/" + ToS(Get(ms, "tag"));
    assert PresentStr(ToS(Get(ms, "tag"))) == Some(ToS(Get(ms, "tag")));
    assert ResolveUrl("tag", ms, env) == Ok(SanitizeUrl(JStr(p), env));
    StripSlashLed(p);
  }

  /** Stripping a string that starts with "/" leaves a non-blank string
      that still starts with "/". */
  lemma StripSlashLed(p: string)
    requires p != [] && p[0] == '/'
    ensures !BlankStr(Strip(p)) && StartsWith(Strip(p), "/")
  {
    assert !IsStripChar(p[0]);
    assert TrimLeft(p) == p;
    var t := TrimRight(p);
    TrimRightRemoves(p);
    assert t != [];
    assert Strip(p) == t;
    assert t[0] == '/';
    assert !IsBlankChar(t[0]);
    assert t[..1] == "/";
  }

  // ---------------------------------------------------------------------------
  // normalize_panel

  predicate PanelWellFormed(p: Panel, maxPanelItems: int)
  {
    && p.sourceType in AllowedPanelSources
    && p.timeRange in AllowedTimeRanges
    && p.limit <= maxPanelItems
    && (maxPanelItems >= 1 ==> p.limit >= 1)
    && (p.categoryId.Some? ==> p.categoryId.value > 0)
    && (p.categorySlug.Some? ==> !BlankStr(p.categorySlug.value))
    && (p.tag.Some? ==> !BlankStr(p.tag.value))
  }

  /** normalize_panel: nil for a non-hash; otherwise source and time range
      coerced, limit 6 when not positive and then at most max_panel_items,
      category_id kept only when positive, the two flags false only for a
      literal false. */
  function NormalizePanel(panel: Json, env: Env): (r: Result<Option<Panel>>)
    ensures !panel.JObj? ==> r == Ok(None)
    ensures panel.JObj? ==> (r.Raised? <==>
      ToI(Get(panel.members, "limit")).Raised? || ToI(Get(panel.members, "category_id")).Raised?)
    ensures r.Ok? && panel.JObj? ==> r.value.Some? && PanelWellFormed(r.value.value, env.maxPanelItems)
    ensures r.Ok? && r.value.Some? ==>
      var p := r.value.value;
      var raw := ToI(Get(panel.members, "limit")).value;
      && p.limit == Min(if raw <= 0 then 6 else raw, env.maxPanelItems)
      && (p.showThumbnail <==> Get(panel.members, "show_thumbnail") != JBool(false))
      && (p.showExcerpt <==> Get(panel.members, "show_excerpt") != JBool(false))
      && p.sourceType == SafeEnum(Get(panel.members, "source_type"), AllowedPanelSources, "latest")
      && p.timeRange == SafeEnum(Get(panel.members, "time_range"), AllowedTimeRanges, "weekly")
      && p.categorySlug == PresentStr(ToS(Get(panel.members, "category_slug")))
      && p.tag == PresentStr(ToS(Get(panel.members, "tag")))
      && (p.categoryId.Some? <==> ToI(Get(panel.members, "category_id")).value > 0)
      && (p.categoryId.Some? ==> p.categoryId.value == ToI(Get(panel.members, "category_id")).value)
  {
    if !panel.JObj? then Ok(None)
    else
      var ms := panel.members;
      var sourceType := SafeEnum(Get(ms, "source_type"), AllowedPanelSources, "latest");
      var raw :- ToI(Get(ms, "limit"));
      var limit := Min(if raw <= 0 then 6 else raw, env.maxPanelItems);
      var categoryId :- ToI(Get(ms, "category_id"));
      Ok(Some(Panel(
        sourceType,
        PresentStr(ToS(Get(ms, "category_slug"))),
        if categoryId > 0 then Some(categoryId) else None,
        PresentStr(ToS(Get(ms, "tag"))),
        SafeEnum(Get(ms, "time_range"), AllowedTimeRanges, "weekly"),
        limit,
        Get(ms, "show_thumbnail") != JBool(false),
        Get(ms, "show_excerpt") != JBool(false))))
  }

  // ---------------------------------------------------------------------------
  // normalize_item

  /** `hash["id"].presence || generated` */
  function IdOr(raw: Json, generated: string): Json
  {
    if Blank(raw) then JStr(generated) else raw
  }

  /** "<parent>-<n>", the id generated for the n-th child (n from 1). */
  function ChildId(parent: string, n: int): (s: string)
    ensures !BlankStr(s)
  {
    var s := parent + "-" + IntToString(n);
    assert s[|parent|] == '-';
    s
  }

  /** Positional ids never collide among siblings. */
  lemma ChildIdInjective(parent: string, a: int, b: int)
    requires ChildId(parent, a) == ChildId(parent, b)
    ensures a == b
  {
    var sa := ChildId(parent, a);
    assert IntToString(a) == sa[|parent| + 1..];
    assert IntToString(b) == sa[|parent| + 1..];
    IntToStringInjective(a, b);
  }

  predicate OptNonBlank(o: Option<string>)
  {
    o.Some? ==> !BlankStr(o.value)
  }

  /** What every normalised item satisfies, all the way down. */
  predicate WellFormedItem(it: Item, maxPanelItems: int)
  {
    && it.itemType in AllowedItemTypes
    && SanitizedForm(it.url)
    && SanitizedForm(it.resolvedUrl)
    && ((it.itemType == "section_heading" || it.itemType == "divider") ==> it.resolvedUrl.None?)
    && OptNonBlank(it.icon) && OptNonBlank(it.imageUrl)
    && OptNonBlank(it.customCssClass) && OptNonBlank(it.customCss)
    && (it.panel.Some? ==> PanelWellFormed(it.panel.value, maxPanelItems))
    && forall i :: 0 <= i < |it.children| ==> WellFormedItem(it.children[i], maxPanelItems)
  }

  /** normalize_item: a non-hash is treated as {}; the id is the given one
      when present, else the generated one; the children are normalised in
      order with ids "<id.to_s>-<n>". */
  function NormalizeItem(item: Json, generatedId: string, env: Env): (r: Result<Item>)
    decreases Size(item), 0
    ensures r.Ok? ==> WellFormedItem(r.value, env.maxPanelItems)
    ensures r.Ok? ==> r.value.id == IdOr(Get(HashMembers(item), "id"), generatedId)
    ensures r.Ok? ==> r.value.itemType == SafeEnum(Get(HashMembers(item), "type"), AllowedItemTypes, "link")
    ensures r.Ok? ==> |r.value.children| == |ArrayOf(Get(HashMembers(item), "children"))|
    ensures r.Ok? ==> r.value.url == SanitizeUrl(Get(HashMembers(item), "url"), env)
    ensures r.Ok? ==> ResolveUrl(r.value.itemType, HashMembers(item), env) == Ok(r.value.resolvedUrl)
    ensures r.Ok? ==> r.value.title == ToS(Get(HashMembers(item), "title"))
    ensures r.Ok? ==> r.value.icon == PresentStr(ToS(Get(HashMembers(item), "icon")))
    ensures r.Ok? ==> r.value.imageUrl == PresentStr(ToS(Get(HashMembers(item), "image_url")))
    ensures r.Ok? ==> r.value.customCssClass == PresentStr(ToS(Get(HashMembers(item), "custom_css_class")))
    ensures r.Ok? ==> r.value.customCss == PresentStr(ToS(Get(HashMembers(item), "custom_css")))
    ensures r.Ok? ==> NormalizeVisibility(Get(HashMembers(item), "visibility")) == Ok(r.value.visibility)
    ensures r.Ok? ==> NormalizePanel(Get(HashMembers(item), "panel"), env) == Ok(r.value.panel)
  {
    var ms := HashMembers(item);
    var itemId := IdOr(Get(ms, "id"), generatedId);
    var itemType := SafeEnum(Get(ms, "type"), AllowedItemTypes, "link");
    var resolved := ResolveUrl(itemType, ms, env);
    var visibility := NormalizeVisibility(Get(ms, "visibility"));
    var panel := NormalizePanel(Get(ms, "panel"), env);
    if resolved.Raised? then Raised(resolved.error)
    else if visibility.Raised? then Raised(visibility.error)
    else if panel.Raised? then Raised(panel.error)
    else
      var cs := ArrayOf(Get(ms, "children"));
      ArrayOfGetSmaller(ms, "children");
      var children := NormalizeItems(cs, ToS(itemId), 0, env);
      if children.Raised? then Raised(children.error)
      else
        var it := Item(
          itemId,
          ToS(Get(ms, "title")),
          itemType,
          SanitizeUrl(Get(ms, "url"), env),
          resolved.value,
          PresentStr(ToS(Get(ms, "icon"))),
          PresentStr(ToS(Get(ms, "image_url"))),
          PresentStr(ToS(Get(ms, "custom_css_class"))),
          PresentStr(ToS(Get(ms, "custom_css"))),
          visibility.value,
          panel.value,
          children.value);
        assert it.itemType in AllowedItemTypes;
        assert (it.itemType == "section_heading" || it.itemType == "divider") ==> it.resolvedUrl.None?;
        assert it.panel.Some? ==> PanelWellFormed(it.panel.value, env.maxPanelItems);
        assert AllWellFormed(it.children, env.maxPanelItems);
        Ok(it)
  }

  /** The list elements `cs`, the first at position start + 1 under `parent`. */
  function NormalizeItems(cs: seq<Json>, parent: string, start: nat, env: Env): (r: Result<seq<Item>>)
    decreases SizeSeq(cs), 1
    ensures r.Ok? ==> |r.value| == |cs|
    ensures r.Ok? ==> AllWellFormed(r.value, env.maxPanelItems)
    ensures r.Ok? ==> PositionalIds(cs, r.value, parent, start)
  {
    if cs == [] then Ok([])
    else
      SizeSeqSplit(cs);
      var first := NormalizeItem(cs[0], ChildId(parent, start + 1), env);
      if first.Raised? then Raised(first.error)
      else
        var rest := NormalizeItems(cs[1..], parent, start + 1, env);
        if rest.Raised? then Raised(rest.error)
        else
          ConsItems(cs, first.value, rest.value, parent, start, env.maxPanelItems);
          Ok([first.value] + rest.value)
  }

  predicate AllWellFormed(items: seq<Item>, maxPanelItems: int)
  {
    forall i :: 0 <= i < |items| ==> WellFormedItem(items[i], maxPanelItems)
  }

  /** Each item's id is its source's own id when present, else the id for
      its position under `parent`, counting from start + 1. */
  predicate PositionalIds(cs: seq<Json>, items: seq<Item>, parent: string, start: nat)
    requires |cs| == |items|
  {
    forall i :: 0 <= i < |cs| ==> items[i].id == IdOr(Get(HashMembers(cs[i]), "id"), ChildId(parent, start + i + 1))
  }

  lemma ConsItems(cs: seq<Json>, first: Item, rest: seq<Item>, parent: string, start: nat, maxPanelItems: int)
    requires |cs| == |rest| + 1
    requires WellFormedItem(first, maxPanelItems) && AllWellFormed(rest, maxPanelItems)
    requires first.id == IdOr(Get(HashMembers(cs[0]), "id"), ChildId(parent, start + 1))
    requires PositionalIds(cs[1..], rest, parent, start + 1)
    ensures AllWellFormed([first] + rest, maxPanelItems)
    ensures PositionalIds(cs, [first] + rest, parent, start)
  {
    var r := [first] + rest;
    assert r[0] == first && r[1..] == rest;
    ConsIds(cs, r, parent, start);
  }

  lemma ConsIds(cs: seq<Json>, r: seq<Item>, parent: string, start: nat)
    requires |cs| == |r| >= 1
    requires r[0].id == IdOr(Get(HashMembers(cs[0]), "id"), ChildId(parent, start + 1))
    requires PositionalIds(cs[1..], r[1..], parent, start + 1)
    ensures PositionalIds(cs, r, parent, start)
  {
    forall i | 0 < i < |cs|
      ensures r[i].id == IdOr(Get(HashMembers(cs[i]), "id"), ChildId(parent, start + i + 1))
    {
      assert r[i] == r[1..][i - 1] && cs[i] == cs[1..][i - 1];
      assert start + 1 + (i - 1) + 1 == start + i + 1;
    }
  }

  /** The children of a normalised item are its source children normalised
      in order under the item's own id. */
  lemma NormalizeItemChildren(item: Json, generatedId: string, env: Env)
    ensures var r := NormalizeItem(item, generatedId, env);
      r.Ok? ==> NormalizeItems(ArrayOf(Get(HashMembers(item), "children")), ToS(r.value.id), 0, env) == Ok(r.value.children)
  {
  }

  /** An item raises exactly when its url, visibility, panel or children
      do. */
  lemma NormalizeItemRaises(item: Json, generatedId: string, env: Env)
    ensures var ms := HashMembers(item);
      NormalizeItem(item, generatedId, env).Raised? <==>
        || ResolveUrl(SafeEnum(Get(ms, "type"), AllowedItemTypes, "link"), ms, env).Raised?
        || NormalizeVisibility(Get(ms, "visibility")).Raised?
        || NormalizePanel(Get(ms, "panel"), env).Raised?
        || NormalizeItems(ArrayOf(Get(ms, "children")), ToS(IdOr(Get(ms, "id"), generatedId)), 0, env).Raised?
  {
  }

  /** normalize_item as the block `map.with_index` runs over a children
      list under `parent`, given the position counted from 1. */
  function ItemNormalizer(parent: string, env: Env): (Json, nat) -> Result<Item>
  {
    (c: Json, n: nat) => NormalizeItem(c, ChildId(parent, n), env)
  }

  /** The children list is normalised by `map.with_index(1)` of
      normalize_item: the same result, raised error included. */
  lemma {:induction false} NormalizeItemsIsMap(cs: seq<Json>, parent: string, start: nat, env: Env)
    ensures NormalizeItems(cs, parent, start, env) == MapWithIndex(cs, start + 1, ItemNormalizer(parent, env))
    decreases |cs|
  {
    if cs != [] {
      NormalizeItemsIsMap(cs[1..], parent, start + 1, env);
      assert ItemNormalizer(parent, env)(cs[0], start + 1) == NormalizeItem(cs[0], ChildId(parent, start + 1), env);
    }
  }

  /** A list that normalises has, at each position i, the i-th element
      normalised with the generated id for position start + i + 1. */
  lemma NormalizeItemsAt(cs: seq<Json>, parent: string, start: nat, env: Env, i: nat)
    requires i < |cs|
    requires NormalizeItems(cs, parent, start, env).Ok?
    ensures NormalizeItem(cs[i], ChildId(parent, start + i + 1), env) == Ok(NormalizeItems(cs, parent, start, env).value[i])
  {
    NormalizeItemsIsMap(cs, parent, start, env);
    var f := ItemNormalizer(parent, env);
    assert f(cs[i], start + 1 + i) == NormalizeItem(cs[i], ChildId(parent, start + i + 1), env);
  }

  // ---------------------------------------------------------------------------
  // normalize_menu, normalize_generic_entity, normalize_config

  predicate WellFormedMenu(m: Menu, maxPanelItems: int)
  {
    && !Blank(m.id)
    && m.placement in AllowedPlacements
    && m.layout in AllowedMenuLayouts
    && m.openMode in AllowedOpenModes
    && 0 <= m.hoverDelayMs <= 1000
    && AllWellFormed(m.items, maxPanelItems)
  }

  /** "menu-<n>", the id generated for the menu at `index` (n = index + 1). */
  function MenuIdFor(index: nat): (s: string)
    ensures !BlankStr(s)
  {
    var s := "menu-" + IntToString(index + 1);
    assert s[4] == '-';
    s
  }

  /** The label, or the titleized id when the label is blank; titleize is a
      String method, so an id of any other class raises. */
  function MenuLabel(given: Json, menuId: Json, env: Env): (r: Result<Json>)
    ensures r.Raised? <==> Blank(given) && !menuId.JStr?
    ensures r.Raised? ==> r.error == NoMethodError
    ensures r.Ok? && !Blank(given) ==> r.value == given
    ensures Blank(given) && menuId.JStr? ==> r == Ok(JStr(env.titleize(menuId.s)))
  {
    if !Blank(given) then Ok(given)
    else if menuId.JStr? then Ok(JStr(env.titleize(menuId.s)))
    else Raised(NoMethodError)
  }

  /** normalize_menu: id generated as "menu-<index+1>" when blank; a blank
      label becomes the titleized id, which raises for an id that is not a
      String; the delay is clamped to [0, 1000]. */
  function NormalizeMenu(menu: Json, index: nat, env: Env): (r: Result<Menu>)
    ensures r.Ok? ==> WellFormedMenu(r.value, env.maxPanelItems)
    ensures r.Ok? ==> r.value.id == IdOr(Get(HashMembers(menu), "id"), MenuIdFor(index))
    ensures r.Ok? ==> |r.value.items| == |ArrayOf(Get(HashMembers(menu), "items"))|
    ensures r.Ok? ==> PositionalIds(ArrayOf(Get(HashMembers(menu), "items")), r.value.items, ToS(r.value.id), 0)
    ensures (Blank(Get(HashMembers(menu), "label")) && !Blank(Get(HashMembers(menu), "id"))
      && !Get(HashMembers(menu), "id").JStr?) ==> r == Raised(NoMethodError)
  {
    var ms := HashMembers(menu);
    var generated := MenuIdFor(index);
    var menuId := IdOr(Get(ms, "id"), generated);
    assert !Blank(menuId);
    var labelValue :- MenuLabel(Get(ms, "label"), menuId, env);
    var placement := SafeEnum(Get(ms, "placement"), AllowedPlacements, "top_nav");
    var layout := SafeEnum(Get(ms, "layout"), AllowedMenuLayouts, "mega_grid");
    var openMode := SafeEnum(Get(ms, "open_mode"), AllowedOpenModes, "hover");
    var delay :- ToI(Get(ms, "hover_delay_ms"));
    var visibility :- NormalizeVisibility(Get(ms, "visibility"));
    var items :- NormalizeItems(ArrayOf(Get(ms, "items")), ToS(menuId), 0, env);
    Ok(Menu(menuId, labelValue, placement, layout, openMode, Clamp(delay, 0, 1000), visibility, items))
  }

  /** The fields of a normalised menu, each taken from the hash: the label
      (or the titleized id), the three enums with their fallbacks, the delay
      clamped to [0, 1000], the normalised visibility, and the items list
      normalised under the menu's id; the menu raises exactly when its label,
      delay, visibility or items do. */
  lemma NormalizeMenuFields(menu: Json, index: nat, env: Env)
    ensures var r := NormalizeMenu(menu, index, env);
      var ms := HashMembers(menu);
      var menuId := IdOr(Get(ms, "id"), MenuIdFor(index));
      var cs := ArrayOf(Get(ms, "items"));
      && (r.Ok? ==> MenuLabel(Get(ms, "label"), menuId, env) == Ok(r.value.labelValue))
      && (r.Ok? ==> r.value.placement == SafeEnum(Get(ms, "placement"), AllowedPlacements, "top_nav"))
      && (r.Ok? ==> r.value.layout == SafeEnum(Get(ms, "layout"), AllowedMenuLayouts, "mega_grid"))
      && (r.Ok? ==> r.value.openMode == SafeEnum(Get(ms, "open_mode"), AllowedOpenModes, "hover"))
      && (r.Ok? ==> ToI(Get(ms, "hover_delay_ms")).Ok?)
      && (r.Ok? ==> r.value.hoverDelayMs == Clamp(ToI(Get(ms, "hover_delay_ms")).value, 0, 1000))
      && (r.Ok? ==> NormalizeVisibility(Get(ms, "visibility")) == Ok(r.value.visibility))
      && (r.Ok? ==> NormalizeItems(cs, ToS(menuId), 0, env) == Ok(r.value.items))
      && (r.Raised? <==>
          || MenuLabel(Get(ms, "label"), menuId, env).Raised?
          || ToI(Get(ms, "hover_delay_ms")).Raised?
          || NormalizeVisibility(Get(ms, "visibility")).Raised?
          || NormalizeItems(cs, ToS(menuId), 0, env).Raised?)
  {
  }

  /** Every menu is well formed and carries the id `menu-<n>` it was given
      by its position (counted from `start + 1`) unless the document names one. */
  predicate NumberedMenus(menus: seq<Json>, r: seq<Menu>, start: nat, env: Env)
    requires |menus| == |r|
  {
    forall i :: 0 <= i < |menus| ==>
      && WellFormedMenu(r[i], env.maxPanelItems)
      && r[i].id == IdOr(Get(HashMembers(menus[i]), "id"), MenuIdFor(start + i))
  }

  /** normalize_menu over the list, with the index of each menu. */
  function NormalizeMenus(menus: seq<Json>, start: nat, env: Env): (r: Result<seq<Menu>>)
    ensures r.Ok? ==> |r.value| == |menus| && NumberedMenus(menus, r.value, start, env)
    ensures r.Ok? ==> forall i :: 0 <= i < |menus| ==> NormalizeMenu(menus[i], start + i, env) == Ok(r.value[i])
  {
    var r := MapWithIndex(menus, start, (m, k) => NormalizeMenu(m, k, env));
    if r.Ok? then MenusNumbered(menus, r.value, start, env); r else r
  }

  lemma MenusNumbered(menus: seq<Json>, rs: seq<Menu>, start: nat, env: Env)
    requires |rs| == |menus|
    requires forall i :: 0 <= i < |menus| ==> NormalizeMenu(menus[i], start + i, env) == Ok(rs[i])
    ensures NumberedMenus(menus, rs, start, env)
  {
    forall i | 0 <= i < |menus|
      ensures WellFormedMenu(rs[i], env.maxPanelItems)
      ensures rs[i].id == IdOr(Get(HashMembers(menus[i]), "id"), MenuIdFor(start + i))
    {
      assert NormalizeMenu(menus[i], start + i, env) == Ok(rs[i]);
    }
  }

  /** The list raises exactly when one of its menus does. */
  /** Every menu of the list normalises at its own index, counted from
      start. */
  predicate MenusNormalize(menus: seq<Json>, start: nat, env: Env)
  {
    forall i :: 0 <= i < |menus| ==> NormalizeMenu(menus[i], start + i, env).Ok?
  }

  lemma NormalizeMenusAllOk(menus: seq<Json>, start: nat, env: Env)
    ensures NormalizeMenus(menus, start, env).Ok? <==> MenusNormalize(menus, start, env)
  {
    MapWithIndexAllOk(menus, start, (m, k) => NormalizeMenu(m, k, env));
  }

  /** normalize_generic_entity: a hash (or {} for anything else) with its
      "visibility" replaced by the normalised rule. */
  function NormalizeGenericEntity(entity: Json): (r: Result<Json>)
    ensures r.Raised? <==> NormalizeVisibility(Get(HashMembers(entity), "visibility")).Raised?
    ensures r.Ok? ==> r.value.JObj?
    ensures r.Ok? ==>
      Get(r.value.members, "visibility") == RuleToJson(NormalizeVisibility(Get(HashMembers(entity), "visibility")).value)
    ensures r.Ok? ==> forall k :: k != "visibility" ==> Get(r.value.members, k) == Get(HashMembers(entity), k)
  {
    var ms := HashMembers(entity);
    var rule :- NormalizeVisibility(Get(ms, "visibility"));
    Ok(JObj(Put(ms, "visibility", RuleToJson(rule))))
  }

  function NormalizeEntities(es: seq<Json>): (r: Result<seq<Json>>)
    ensures r.Ok? ==> |r.value| == |es|
    ensures r.Ok? ==> forall i :: 0 <= i < |es| ==> NormalizeGenericEntity(es[i]) == Ok(r.value[i])
  {
    if es == [] then Ok([])
    else
      var first :- NormalizeGenericEntity(es[0]);
      var rest :- NormalizeEntities(es[1..]);
      Ok([first] + rest)
  }

  /** `DEFAULT_CONFIG.deep_merge(config)[k]`: the document's value when it has
      the key (even nil), the default otherwise. */
  /** A key of DEFAULT_CONFIG.deep_merge(config): the config's own value
      when it has the key, else the default's. None of the default values is
      a hash, so deep_merge never merges below the top level. */
  function MergedGet(ms: seq<Member>, k: string, default: Json): (r: Json)
    ensures !HasKey(ms, k) ==> r == default
    ensures HasKey(ms, k) ==> exists i :: 0 <= i < |ms| && ms[i].key == k && ms[i].value == r
  {
    if HasKey(ms, k) then Get(ms, k) else default
  }

  /** normalize_config: defaults merged in, menus normalised with positional
      ids, version to_i with 0 replaced by 1, sidebars and discovery blocks
      normalised as generic entities. */
  function NormalizeConfig(config: Json, env: Env): (r: Result<Config>)
    ensures r.Ok? ==> r.value.version != 0
    ensures r.Ok? ==> ToI(MergedGet(HashMembers(config), "version", JInt(1))).Ok?
    ensures r.Ok? ==> (r.value.version == ToI(MergedGet(HashMembers(config), "version", JInt(1))).value
      || (ToI(MergedGet(HashMembers(config), "version", JInt(1))).value == 0 && r.value.version == 1))
    ensures r.Ok? ==> |r.value.menus| == |ArrayOf(MergedGet(HashMembers(config), "menus", JArr([])))|
    ensures r.Ok? ==> |r.value.sidebars| == |ArrayOf(MergedGet(HashMembers(config), "sidebars", JArr([])))|
    ensures r.Ok? ==>
      |r.value.discoveryBlocks| == |ArrayOf(MergedGet(HashMembers(config), "discovery_blocks", JArr([])))|
    ensures r.Ok? ==> forall i :: 0 <= i < |r.value.menus| ==> WellFormedMenu(r.value.menus[i], env.maxPanelItems)
    ensures ToI(MergedGet(HashMembers(config), "version", JInt(1))).Raised? ==> r.Raised?
    ensures r.Ok? ==> (NormalizeMenus(ArrayOf(MergedGet(HashMembers(config), "menus", JArr([]))), 0, env)
      == Ok(r.value.menus))
    ensures r.Ok? ==> (NormalizeEntities(ArrayOf(MergedGet(HashMembers(config), "sidebars", JArr([]))))
      == Ok(r.value.sidebars))
    ensures r.Ok? ==> (NormalizeEntities(ArrayOf(MergedGet(HashMembers(config), "discovery_blocks", JArr([]))))
      == Ok(r.value.discoveryBlocks))
    ensures r.Raised? <==>
      || NormalizeMenus(ArrayOf(MergedGet(HashMembers(config), "menus", JArr([]))), 0, env).Raised?
      || ToI(MergedGet(HashMembers(config), "version", JInt(1))).Raised?
      || NormalizeEntities(ArrayOf(MergedGet(HashMembers(config), "sidebars", JArr([])))).Raised?
      || NormalizeEntities(ArrayOf(MergedGet(HashMembers(config), "discovery_blocks", JArr([])))).Raised?
  {
    var ms := HashMembers(config);
    var menus :- NormalizeMenus(ArrayOf(MergedGet(ms, "menus", JArr([]))), 0, env);
    var version :- ToI(MergedGet(ms, "version", JInt(1)));
    var sidebars :- NormalizeEntities(ArrayOf(MergedGet(ms, "sidebars", JArr([]))));
    var blocks :- NormalizeEntities(ArrayOf(MergedGet(ms, "discovery_blocks", JArr([]))));
    Ok(Config(if version != 0 then version else 1, menus, sidebars, blocks))
  }

  /** DEFAULT_CONFIG is already normal. */
  lemma NormalizeDefaultConfig(env: Env)
    ensures NormalizeConfig(DefaultConfigJson, env) == Ok(DefaultConfig)
  {
    DefaultConfigMembers();
    assert NormalizeMenus([], 0, env) == Ok([]);
    assert NormalizeEntities([]) == Ok([]);
  }

  lemma DefaultConfigMembers()
    ensures MergedGet(DefaultConfigJson.members, "menus", JArr([])) == JArr([])
    ensures MergedGet(DefaultConfigJson.members, "sidebars", JArr([])) == JArr([])
    ensures MergedGet(DefaultConfigJson.members, "discovery_blocks", JArr([])) == JArr([])
    ensures MergedGet(DefaultConfigJson.members, "version", JInt(1)) == JInt(1)
  {
    var ms := DefaultConfigJson.members;
    MergedGetAt(ms, 0, JInt(1));
    MergedGetAt(ms, 1, JArr([]));
    MergedGetAt(ms, 2, JArr([]));
    MergedGetAt(ms, 3, JArr([]));
  }

  /** A member that no later member shadows is what the merge finds. */
  lemma MergedGetAt(ms: seq<Member>, i: nat, default: Json)
    requires i < |ms|
    requires forall j :: i < j < |ms| ==> ms[j].key != ms[i].key
    ensures MergedGet(ms, ms[i].key, default) == ms[i].value
  {
    assert HasKey(ms, ms[i].key);
    GetAt(ms, i);
  }

  // ---------------------------------------------------------------------------
  // valid_json?, raw_json, normalized_config

  /** valid_json?: parses, is an object, and normalises without raising;
      every exception is rescued to false. */
  function ValidJson(text: string, env: Env): (valid: bool)
    ensures env.parseJson(text).None? ==> !valid
    ensures env.parseJson(text).Some? && !env.parseJson(text).value.JObj? ==> !valid
    ensures valid ==> ToI(MergedGet(env.parseJson(text).value.members, "version", JInt(1))).Ok?
  {
    match env.parseJson(text)
    case None => false
    case Some(j) => j.JObj? && NormalizeConfig(j, env).Ok?
  }

  /** Every entity of the list normalises. */
  predicate EntitiesNormalize(es: seq<Json>)
  {
    forall i :: 0 <= i < |es| ==> NormalizeGenericEntity(es[i]).Ok?
  }

  /** The list of generic entities raises exactly when one of them does. */
  lemma {:induction false} NormalizeEntitiesAllOk(es: seq<Json>)
    ensures NormalizeEntities(es).Ok? <==> EntitiesNormalize(es)
  {
    if es != [] {
      NormalizeEntitiesAllOk(es[1..]);
      assert forall i :: 0 < i < |es| ==> es[i] == es[1..][i - 1];
    }
  }

  /** A document is valid exactly when it parses to a hash whose version
      goes through to_i and whose every menu, sidebar and discovery block
      normalises on its own: one bad entry anywhere rejects the document. */
  lemma ValidJsonIff(text: string, env: Env)
    ensures ValidJson(text, env) <==>
      && env.parseJson(text).Some? && env.parseJson(text).value.JObj?
      && ToI(MergedGet(env.parseJson(text).value.members, "version", JInt(1))).Ok?
      && MenusNormalize(ArrayOf(MergedGet(env.parseJson(text).value.members, "menus", JArr([]))), 0, env)
      && EntitiesNormalize(ArrayOf(MergedGet(env.parseJson(text).value.members, "sidebars", JArr([]))))
      && EntitiesNormalize(ArrayOf(MergedGet(env.parseJson(text).value.members, "discovery_blocks", JArr([]))))
  {
    match env.parseJson(text)
    case None =>
    case Some(j) =>
      if j.JObj? {
        var ms := j.members;
        assert HashMembers(j) == ms;
        NormalizeMenusAllOk(ArrayOf(MergedGet(ms, "menus", JArr([]))), 0, env);
        NormalizeEntitiesAllOk(ArrayOf(MergedGet(ms, "sidebars", JArr([]))));
        NormalizeEntitiesAllOk(ArrayOf(MergedGet(ms, "discovery_blocks", JArr([]))));
        assert ValidJson(text, env) == NormalizeConfig(j, env).Ok?;
      }
  }

  /** raw_json: the active profile's JSON when present, else the site setting
      when present, else DEFAULT_CONFIG.to_json. */
  function RawJson(profileJson: Option<string>, settingJson: string): (r: string)
    ensures !BlankStr(r)
    ensures profileJson.Some? && !BlankStr(profileJson.value) ==> r == profileJson.value
    ensures (profileJson.None? || BlankStr(profileJson.value)) && !BlankStr(settingJson) ==> r == settingJson
    ensures (profileJson.None? || BlankStr(profileJson.value)) && BlankStr(settingJson) ==> r == DefaultConfigText
  {
    assert !IsBlankChar(DefaultConfigText[0]);
    if profileJson.Some? && !BlankStr(profileJson.value) then profileJson.value
    else if !BlankStr(settingJson) then settingJson
    else DefaultConfigText
  }

  /** normalized_config (the cache left out): unparseable text falls back to
      DEFAULT_CONFIG; a normalisation error propagates. */
  function NormalizedConfig(profileJson: Option<string>, settingJson: string, env: Env): (r: Result<Config>)
    ensures env.parseJson(RawJson(profileJson, settingJson)).None? ==> r == Ok(DefaultConfig)
    ensures env.parseJson(RawJson(profileJson, settingJson)).Some? ==>
      r == NormalizeConfig(env.parseJson(RawJson(profileJson, settingJson)).value, env)
    ensures r.Ok? ==> r.value.version != 0
  {
    match env.parseJson(RawJson(profileJson, settingJson))
    case None => Ok(DefaultConfig)
    case Some(j) => NormalizeConfig(j, env)
  }

  // ---------------------------------------------------------------------------
  // The normalised item as the hash the rest of the system reads

  function OptJson(o: Option<string>): Json
  {
    if o.Some? then JStr(o.value) else JNull
  }

  function PanelToJson(p: Panel): Json
  {
    JObj([
      Member("source_type", JStr(p.sourceType)),
      Member("category_slug", OptJson(p.categorySlug)),
      Member("category_id", if p.categoryId.Some? then JInt(p.categoryId.value) else JNull),
      Member("tag", OptJson(p.tag)),
      Member("time_range", JStr(p.timeRange)),
      Member("limit", JInt(p.limit)),
      Member("show_thumbnail", JBool(p.showThumbnail)),
      Member("show_excerpt", JBool(p.showExcerpt))])
  }

  /** The keys of a normalised item hash, in order. */
  const ItemKeys: seq<string> := ["id", "title", "type", "url", "resolved_url", "icon", "image_url",
    "custom_css_class", "custom_css", "visibility", "panel", "children"]

  /** The members carry the keys `ks`, in that order. */
  predicate KeyedAs(ms: seq<Member>, ks: seq<string>)
  {
    |ms| == |ks| && forall i :: 0 <= i < |ms| ==> ms[i].key == ks[i]
  }

  function ItemToJson(it: Item): (j: Json)
    ensures j.JObj? && KeyedAs(j.members, ItemKeys)
  {
    var kids := seq(|it.children|, i requires 0 <= i < |it.children| => ItemToJson(it.children[i]));
    var values := [
      it.id,
      JStr(it.title),
      JStr(it.itemType),
      OptJson(it.url),
      OptJson(it.resolvedUrl),
      OptJson(it.icon),
      OptJson(it.imageUrl),
      OptJson(it.customCssClass),
      OptJson(it.customCss),
      RuleToJson(it.visibility),
      if it.panel.Some? then PanelToJson(it.panel.value) else JNull,
      JArr(kids)];
    JObj(seq(|ItemKeys|, i requires 0 <= i < |ItemKeys| => Member(ItemKeys[i], values[i])))
  }

  lemma LookupKeysAreNotItemKeys()
    ensures "tag" !in ItemKeys && "category_id" !in ItemKeys
    ensures "category_slug" !in ItemKeys && "topic_id" !in ItemKeys
  {
  }

  /** A key the normalised item hash does not have reads as nil. */
  lemma ItemToJsonLacks(it: Item, k: string)
    requires k !in ItemKeys
    ensures Get(ItemToJson(it).members, k) == JNull
  {
    var ms := ItemToJson(it).members;
    assert forall i :: 0 <= i < |ms| ==> ms[i].key != k by {
      forall i | 0 <= i < |ms| ensures ms[i].key != k {
        assert ms[i].key == ItemKeys[i];
      }
    }
  }

  /** The normalised item carries neither category_id, category_slug nor
      topic_id, so looking a category or topic up from it finds nothing. */
  lemma {:induction false} LookupsOnNormalizedItem(it: Item, env: Env)
    ensures FindCategory(ItemToJson(it).members, env) == Ok(None)
    ensures FindTopic(ItemToJson(it).members, env) == Ok(None)
  {
    LookupKeysAreNotItemKeys();
    ItemToJsonLacks(it, "category_id");
    ItemToJsonLacks(it, "category_slug");
    ItemToJsonLacks(it, "topic_id");
  }

  lemma TagIsItemType()
    ensures SafeEnum(JStr("tag"), AllowedItemTypes, "link") == "tag"
  {
    assert ToS(JStr("tag")) == "tag";
  }

  /** Normalising twice is not the same as normalising once: a tag item
      with a tag and no usable url resolves to "/tag/<tag>", but its
      normalised hash no longer has the tag, so normalising that hash again
      (when it does not raise) resolves to nothing. */
  lemma NormalizeItemNotIdempotent(src: Json, generatedId: string, env: Env)
    requires src.JObj? && Get(src.members, "type") == JStr("tag")
    requires !BlankStr(ToS(Get(src.members, "tag")))
    requires SanitizeUrl(Get(src.members, "url"), env).None?
    requires NormalizeItem(src, generatedId, env).Ok?
    ensures NormalizeItem(src, generatedId, env).value.resolvedUrl.Some?
    ensures NormalizeItem(ItemToJson(NormalizeItem(src, generatedId, env).value), generatedId, env).Ok? ==>
      NormalizeItem(ItemToJson(NormalizeItem(src, generatedId, env).value), generatedId, env).value.resolvedUrl.None?
  {
    var it := NormalizeItem(src, generatedId, env).value;
    assert HashMembers(src) == src.members;
    assert Get(HashMembers(src), "type") == JStr("tag");
    TagIsItemType();
    assert it.itemType == "tag";
    ResolveUrlTag(src.members, env);
    assert ResolveUrl("tag", src.members, env) == Ok(it.resolvedUrl);
    assert it.url == SanitizeUrl(Get(src.members, "url"), env);
    RenormalizedTagItem(it, generatedId, env);
  }

  /** A normalised tag item without a url renormalises to no resolved url. */
  lemma RenormalizedTagItem(it: Item, generatedId: string, env: Env)
    requires it.itemType == "tag" && it.url.None?
    ensures NormalizeItem(ItemToJson(it), generatedId, env).Ok? ==>
      NormalizeItem(ItemToJson(it), generatedId, env).value.resolvedUrl.None?
  {
    var j := ItemToJson(it);
    LookupKeysAreNotItemKeys();
    ItemToJsonLacks(it, "tag");
    ItemToJsonType(it);
    ItemToJsonUrl(it);
    assert Get(j.members, "url") == JNull;
    ResolveUrlTagless(j.members, env);
    SanitizeNull(env);
    assert ResolveUrl("tag", j.members, env) == Ok(None);
    if NormalizeItem(j, generatedId, env).Ok? {
      TagIsItemType();
      assert NormalizeItem(j, generatedId, env).value.itemType == "tag";
    }
  }

  /** A tag item whose tag is blank falls back to its sanitised url. */
  lemma ResolveUrlTagless(ms: seq<Member>, env: Env)
    requires PresentStr(ToS(Get(ms, "tag"))).None?
    ensures ResolveUrl("tag", ms, env) == Ok(SanitizeUrl(Get(ms, "url"), env))
  {
  }

  /** nil sanitises to nil. */
  lemma SanitizeNull(env: Env)
    ensures SanitizeUrl(JNull, env) == None
  {
    assert Strip("") == "";
  }

  lemma ItemToJsonType(it: Item)
    ensures Get(ItemToJson(it).members, "type") == JStr(it.itemType)
  {
    var ms := ItemToJson(it).members;
    assert ms[2] == Member("type", JStr(it.itemType));
    assert forall j :: 2 < j < |ms| ==> ms[j].key != "type" by {
      forall j | 2 < j < |ms| ensures ms[j].key != "type" {
        assert ms[j].key == ItemKeys[j];
      }
    }
    GetAt(ms, 2);
  }

  lemma ItemToJsonUrl(it: Item)
    ensures Get(ItemToJson(it).members, "url") == OptJson(it.url)
  {
    var ms := ItemToJson(it).members;
    assert ms[3] == Member("url", OptJson(it.url));
    assert forall j :: 3 < j < |ms| ==> ms[j].key != "url" by {
      forall j | 3 < j < |ms| ensures ms[j].key != "url" {
        assert ms[j].key == ItemKeys[j];
      }
    }
    GetAt(ms, 3);
  }

  lemma ItemToJsonResolvedUrl(it: Item)
    ensures Get(ItemToJson(it).members, "resolved_url") == OptJson(it.resolvedUrl)
  {
    var ms := ItemToJson(it).members;
    assert ms[4] == Member("resolved_url", OptJson(it.resolvedUrl));
    assert forall j :: 4 < j < |ms| ==> ms[j].key != "resolved_url" by {
      forall j | 4 < j < |ms| ensures ms[j].key != "resolved_url" {
        assert ms[j].key == ItemKeys[j];
      }
    }
    GetAt(ms, 4);
  }

  // ---------------------------------------------------------------------------
  // valid_json? on the documented examples

  /** A bare {"version": 1} is valid. */
  lemma ExampleValidVersionOnly(text: string, env: Env)
    requires env.parseJson(text) == Some(JObj([Member("version", JInt(1))]))
    ensures ValidJson(text, env)
  {
    var ms := [Member("version", JInt(1))];
    assert ms[0].key == "version";
    assert !HasKey(ms, "menus") && !HasKey(ms, "sidebars") && !HasKey(ms, "discovery_blocks");
    assert NormalizeMenus([], 0, env) == Ok([]);
    assert NormalizeEntities([]) == Ok([]);
  }

  /** Anything that is not a hash normalises like {}, which never raises. */
  lemma NormalizeNonHashMenu(menu: Json, index: nat, env: Env)
    requires !menu.JObj?
    ensures NormalizeMenu(menu, index, env).Ok?
  {
    var ms := HashMembers(menu);
    assert ms == [];
    assert forall k :: Get(ms, k) == JNull;
    assert Blank(JNull) && ArrayOf(JNull) == [];
    assert IdOr(JNull, MenuIdFor(index)).JStr?;
    assert NormalizeItems([], ToS(JStr(MenuIdFor(index))), 0, env) == Ok([]);
  }

  /** A string where the menus list belongs is still valid: Array("invalid")
      is one menu, which normalises like {}. */
  lemma ExampleMenusNotAList(text: string, env: Env)
    requires env.parseJson(text) == Some(JObj([Member("version", JInt(1)), Member("menus", JStr("invalid"))]))
    ensures ValidJson(text, env)
  {
    MenusNotAListNormalizes(env);
  }

  /** The document of the example above normalises: its version is 1 and its
      one menu is the string, which has no keys. */
  lemma MenusNotAListNormalizes(env: Env)
    ensures NormalizeConfig(JObj([Member("version", JInt(1)), Member("menus", JStr("invalid"))]), env).Ok?
  {
    var ms := [Member("version", JInt(1)), Member("menus", JStr("invalid"))];
    assert ms[0].key[0] == 'v' && ms[1].key[0] == 'm';
    assert "sidebars"[0] == 's' && "discovery_blocks"[0] == 'd';
    MergedGetAt(ms, 0, JInt(1));
    MergedGetAt(ms, 1, JArr([]));
    assert !HasKey(ms, "sidebars") && !HasKey(ms, "discovery_blocks");
    assert ArrayOf(MergedGet(ms, "sidebars", JArr([]))) == [];
    assert ArrayOf(MergedGet(ms, "discovery_blocks", JArr([]))) == [];
    assert ArrayOf(MergedGet(ms, "menus", JArr([]))) == [JStr("invalid")];
    NormalizeNonHashMenu(JStr("invalid"), 0, env);
    assert NormalizeMenus([JStr("invalid")][1..], 1, env) == Ok([]);
    assert NormalizeMenus([JStr("invalid")], 0, env).Ok?;
    assert NormalizeEntities([]) == Ok([]);
  }

  /** A boolean version cannot go through to_i, so the document is invalid. */
  lemma ExampleBooleanVersion(text: string, env: Env)
    requires env.parseJson(text) == Some(JObj([Member("version", JBool(true))]))
    ensures !ValidJson(text, env)
  {
    var ms := [Member("version", JBool(true))];
    assert ms[0].key == "version";
    assert MergedGet(ms, "version", JInt(1)) == JBool(true);
  }
}
