/** The per-viewer pass of ConfigStore: visible_config prunes the
    normalised document for one viewer, dropping what the viewer's context
    is denied, dividers left with nothing under them and menus left empty,
    and recomputes each item's resolved_url for that viewer. */
module ConfigFilter {
  import opened RubyJson
  import opened Collaborators
  import opened VisibilityResolver
  import opened ConfigStore

  /** `a` is `b` with some elements left out, order kept. */
  predicate IsSubsequence<T(==)>(a: seq<T>, b: seq<T>)
    decreases |b|
  {
    a == [] || (b != [] && ((a[0] == b[0] && IsSubsequence(a[1..], b[1..])) || IsSubsequence(a, b[1..])))
  }

  /** An item apart from the two fields visible_item rewrites. */
  function Head(it: Item): Item
  {
    it.(children := [], resolvedUrl := None)
  }

  function Heads(items: seq<Item>): (hs: seq<Item>)
    ensures |hs| == |items|
    ensures forall i :: 0 <= i < |items| ==> hs[i] == Head(items[i])
  {
    if items == [] then [] else [Head(items[0])] + Heads(items[1..])
  }

  /** A menu apart from its items. */
  function MenuHeads(menus: seq<Menu>): (hs: seq<Menu>)
    ensures |hs| == |menus|
    ensures forall i :: 0 <= i < |menus| ==> hs[i] == menus[i].(items := [])
  {
    if menus == [] then [] else [menus[0].(items := [])] + MenuHeads(menus[1..])
  }

  // ---------------------------------------------------------------------------
  // What every node of a pruned tree satisfies

  /** Every node of the tree is allowed for the context. */
  predicate AllAllowed(it: Item, ctx: Context)
  {
    Evaluate(it.visibility, ctx) && forall i :: 0 <= i < |it.children| ==> AllAllowed(it.children[i], ctx)
  }

  /** A divider with no children and no panel. */
  predicate BareDivider(it: Item)
  {
    it.itemType == "divider" && it.children == [] && it.panel.None?
  }

  /** No node of the tree is a bare divider. */
  predicate NoBareDivider(it: Item)
  {
    !BareDivider(it) && forall i :: 0 <= i < |it.children| ==> NoBareDivider(it.children[i])
  }

  /** No category or topic node of the tree has a resolved url. */
  predicate NoLookupUrl(it: Item)
  {
    && ((it.itemType == "category" || it.itemType == "topic") ==> it.resolvedUrl.None?)
    && forall i :: 0 <= i < |it.children| ==> NoLookupUrl(it.children[i])
  }

  predicate PrunedTree(it: Item, ctx: Context)
  {
    AllAllowed(it, ctx) && NoBareDivider(it) && NoLookupUrl(it)
  }

  // ---------------------------------------------------------------------------
  // resolve_url_for_user

  /** resolve_url_for_user on an item hash: category and topic items are
      looked up again (which can raise) and shown only when the viewer can
      see the target; every other type re-sanitises `resolved_url || url`. */
  function ResolveUrlForUser(ms: seq<Member>, user: Option<User>, env: Env): (r: Result<Option<string>>)
    ensures r.Raised? ==> ToS(Get(ms, "type")) in {"category", "topic"}
    ensures ToS(Get(ms, "type")) == "category" ==> (r.Raised? <==> FindCategory(ms, env).Raised?)
    ensures ToS(Get(ms, "type")) == "category" && r.Ok? ==>
      (r.value.Some? <==> FindCategory(ms, env).value.Some? && env.canSeeCategory(user, FindCategory(ms, env).value.value))
    ensures ToS(Get(ms, "type")) == "topic" ==> (r.Raised? <==> FindTopic(ms, env).Raised?)
    ensures ToS(Get(ms, "type")) == "topic" && r.Ok? ==>
      (r.value.Some? <==> FindTopic(ms, env).value.Some? && env.canSeeTopic(user, FindTopic(ms, env).value.value))
    ensures ToS(Get(ms, "type")) == "category" && r.Ok? && r.value.Some? ==>
      r.value.value == CategoryPath(FindCategory(ms, env).value.value)
    ensures ToS(Get(ms, "type")) == "topic" && r.Ok? && r.value.Some? ==>
      r.value.value == FindTopic(ms, env).value.value.relativeUrl
    ensures !(ToS(Get(ms, "type")) in {"category", "topic"}) ==> r == Ok(SanitizeUrl(
      if Truthy(Get(ms, "resolved_url")) then Get(ms, "resolved_url") else Get(ms, "url"), env))
    ensures r.Ok? && !(ToS(Get(ms, "type")) in {"category", "topic"}) ==> SanitizedForm(r.value)
  {
    var itemType := ToS(Get(ms, "type"));
    if itemType == "category" then
      var category :- FindCategory(ms, env);
      Ok(if category.Some? && env.canSeeCategory(user, category.value) then Some(CategoryPath(category.value)) else None)
    else if itemType == "topic" then
      var topic :- FindTopic(ms, env);
      Ok(if topic.Some? && env.canSeeTopic(user, topic.value) then Some(topic.value.relativeUrl) else None)
    else
      Ok(SanitizeUrl(if Truthy(Get(ms, "resolved_url")) then Get(ms, "resolved_url") else Get(ms, "url"), env))
  }

  /** On the normalised item hash, which has no category_id, category_slug
      or topic_id, category and topic items resolve to nothing for every
      viewer, and every other type gets `resolved_url || url` re-sanitised. */
  lemma ResolveUrlOnNormalizedItem(it: Item, user: Option<User>, env: Env)
    ensures ResolveUrlForUser(ItemToJson(it).members, user, env) ==
      if it.itemType in {"category", "topic"} then Ok(None)
      else Ok(SanitizeUrl(if it.resolvedUrl.Some? then JStr(it.resolvedUrl.value) else OptJson(it.url), env))
  {
    var ms := ItemToJson(it).members;
    ItemToJsonType(it);
    assert ToS(Get(ms, "type")) == it.itemType;
    if it.itemType in {"category", "topic"} {
      LookupsOnNormalizedItem(it, env);
    } else {
      ItemToJsonUrl(it);
      ItemToJsonResolvedUrl(it);
      assert Truthy(Get(ms, "resolved_url")) <==> it.resolvedUrl.Some?;
    }
  }

  /** When both urls are ones sanitize_url gives back unchanged, a type
      other than category and topic shows its resolved url, or failing that
      its url. */
  lemma ResolveUrlOfFixedUrls(it: Item, user: Option<User>, env: Env)
    requires !(it.itemType in {"category", "topic"})
    requires SanitizeFixed(it.resolvedUrl, env) && SanitizeFixed(it.url, env)
    ensures ResolveUrlForUser(ItemToJson(it).members, user, env) ==
      Ok(if it.resolvedUrl.Some? then it.resolvedUrl else it.url)
  {
    ResolveUrlOnNormalizedItem(it, user, env);
    if it.resolvedUrl.Some? {
      assert SanitizeUrl(JStr(it.resolvedUrl.value), env) == it.resolvedUrl;
    } else if it.url.Some? {
      assert OptJson(it.url) == JStr(it.url.value);
      assert SanitizeUrl(JStr(it.url.value), env) == it.url;
    } else {
      SanitizeNull(env);
    }
  }

  /** Both urls of an item normalize_item produced are fixed by sanitize_url. */
  lemma NormalizedUrlsFixed(src: Json, generatedId: string, env: Env)
    requires NormalizeItem(src, generatedId, env).Ok?
    ensures SanitizeFixed(NormalizeItem(src, generatedId, env).value.url, env)
    ensures SanitizeFixed(NormalizeItem(src, generatedId, env).value.resolvedUrl, env)
  {
    ResolveUrlFixed(NormalizeItem(src, generatedId, env).value.itemType, HashMembers(src), env);
    SanitizeUrlIdempotent(Get(HashMembers(src), "url"), env);
  }

  /** So for a normalised link or external link the url shown is the one
      normalisation resolved. */
  lemma LinkUrlUnchanged(src: Json, generatedId: string, user: Option<User>, env: Env)
    requires NormalizeItem(src, generatedId, env).Ok?
    requires NormalizeItem(src, generatedId, env).value.itemType in {"link", "external_link"}
    ensures ResolveUrlForUser(ItemToJson(NormalizeItem(src, generatedId, env).value).members, user, env)
      == Ok(NormalizeItem(src, generatedId, env).value.resolvedUrl)
  {
    var it := NormalizeItem(src, generatedId, env).value;
    NormalizedUrlsFixed(src, generatedId, env);
    ResolveUrlOfFixedUrls(it, user, env);
  }

  /** The url visible_item gives a normalised item. */
  function ViewerUrl(it: Item, user: Option<User>, env: Env): (r: Option<string>)
    ensures it.itemType in {"category", "topic"} ==> r.None?
  {
    ResolveUrlOnNormalizedItem(it, user, env);
    ResolveUrlForUser(ItemToJson(it).members, user, env).value
  }

  // ---------------------------------------------------------------------------
  // visible_item

  /** visible_item: nil when the item's rule denies the context; otherwise
      its children filtered recursively and its resolved_url recomputed,
      unless it is a divider left with no children and no panel. */
  function VisibleItem(it: Item, ctx: Context, user: Option<User>, env: Env): (r: Option<Item>)
    decreases it, 1
    ensures !Evaluate(it.visibility, ctx) ==> r.None?
    ensures r.None? && Evaluate(it.visibility, ctx) ==> it.itemType == "divider" && it.panel.None?
    ensures r.Some? ==> Head(r.value) == Head(it)
    ensures r.Some? ==> IsSubsequence(Heads(r.value.children), Heads(it.children))
    ensures r.Some? ==> PrunedTree(r.value, ctx)
    ensures r.Some? ==> r.value.resolvedUrl == ViewerUrl(it, user, env)
  {
    if !Evaluate(it.visibility, ctx) then None
    else
      var children := VisibleItems(it.children, ctx, user, env);
      if it.itemType == "divider" && children == [] && it.panel.None? then None
      else Some(it.(children := children, resolvedUrl := ViewerUrl(it, user, env)))
  }

  /** `items.map { visible_item }.compact` */
  function VisibleItems(items: seq<Item>, ctx: Context, user: Option<User>, env: Env): (r: seq<Item>)
    decreases items, 0
    ensures IsSubsequence(Heads(r), Heads(items))
    ensures forall i :: 0 <= i < |r| ==> PrunedTree(r[i], ctx)
  {
    if items == [] then []
    else
      var rest := VisibleItems(items[1..], ctx, user, env);
      match VisibleItem(items[0], ctx, user, env)
      case None =>
        assert Heads(items)[1..] == Heads(items[1..]);
        rest
      case Some(v) =>
        assert ([v] + rest)[1..] == rest;
        assert Heads([v] + rest)[1..] == Heads(rest);
        assert Heads(items)[1..] == Heads(items[1..]);
        [v] + rest
  }

  /** visible_item as the block `map` runs over a list of items. */
  function VisibleItemOf(ctx: Context, user: Option<User>, env: Env): Item -> Option<Item>
  {
    (it: Item) => VisibleItem(it, ctx, user, env)
  }

  /** The surviving items are exactly visible_item's non-nil answers, in
      order: nothing allowed is lost and nothing else is kept. */
  lemma {:induction false} VisibleItemsCompact(items: seq<Item>, ctx: Context, user: Option<User>, env: Env)
    ensures VisibleItems(items, ctx, user, env) == Compact(MapSeq(items, VisibleItemOf(ctx, user, env)))
    decreases |items|
  {
    if items != [] {
      VisibleItemsCompact(items[1..], ctx, user, env);
      assert VisibleItemOf(ctx, user, env)(items[0]) == VisibleItem(items[0], ctx, user, env);
    }
  }

  /** An item that survives keeps everything but its children, which are
      its own children filtered the same way, and its resolved url, which is
      recomputed for the viewer; it is dropped exactly when denied or when
      it is a divider left with no children and no panel. */
  lemma VisibleItemShape(it: Item, ctx: Context, user: Option<User>, env: Env)
    ensures var r := VisibleItem(it, ctx, user, env);
      var children := VisibleItems(it.children, ctx, user, env);
      && (r.None? <==>
            || !Evaluate(it.visibility, ctx)
            || (it.itemType == "divider" && children == [] && it.panel.None?))
      && (r.Some? ==> r.value == it.(children := children, resolvedUrl := ViewerUrl(it, user, env)))
  {
  }

  // ---------------------------------------------------------------------------
  // visible_menu

  /** visible_menu: nil when denied or when no item survives; otherwise the
      menu with its surviving items. */
  function VisibleMenu(m: Menu, ctx: Context, user: Option<User>, env: Env): (r: Option<Menu>)
    ensures r.Some? <==> Evaluate(m.visibility, ctx) && VisibleItems(m.items, ctx, user, env) != []
    ensures r.Some? ==> r.value.(items := m.items) == m
    ensures r.Some? ==> r.value.items == VisibleItems(m.items, ctx, user, env)
    ensures r.Some? ==> IsSubsequence(Heads(r.value.items), Heads(m.items))
    ensures r.Some? ==> forall i :: 0 <= i < |r.value.items| ==> PrunedTree(r.value.items[i], ctx)
  {
    if !Evaluate(m.visibility, ctx) then None
    else
      var items := VisibleItems(m.items, ctx, user, env);
      if items == [] then None else Some(m.(items := items))
  }

  function VisibleMenus(menus: seq<Menu>, ctx: Context, user: Option<User>, env: Env): (r: seq<Menu>)
    ensures IsSubsequence(MenuHeads(r), MenuHeads(menus))
    ensures forall i :: 0 <= i < |r| ==> Evaluate(r[i].visibility, ctx) && r[i].items != []
  {
    if menus == [] then []
    else
      var rest := VisibleMenus(menus[1..], ctx, user, env);
      match VisibleMenu(menus[0], ctx, user, env)
      case None =>
        assert MenuHeads(menus)[1..] == MenuHeads(menus[1..]);
        rest
      case Some(v) =>
        assert ([v] + rest)[1..] == rest;
        assert MenuHeads([v] + rest)[1..] == MenuHeads(rest);
        assert MenuHeads(menus)[1..] == MenuHeads(menus[1..]);
        [v] + rest
  }

  /** visible_menu as the block `map` runs over the menus. */
  function VisibleMenuOf(ctx: Context, user: Option<User>, env: Env): Menu -> Option<Menu>
  {
    (m: Menu) => VisibleMenu(m, ctx, user, env)
  }

  /** The surviving menus are exactly visible_menu's non-nil answers, in
      order. */
  lemma {:induction false} VisibleMenusCompact(menus: seq<Menu>, ctx: Context, user: Option<User>, env: Env)
    ensures VisibleMenus(menus, ctx, user, env) == Compact(MapSeq(menus, VisibleMenuOf(ctx, user, env)))
    decreases |menus|
  {
    if menus != [] {
      VisibleMenusCompact(menus[1..], ctx, user, env);
      assert VisibleMenuOf(ctx, user, env)(menus[0]) == VisibleMenu(menus[0], ctx, user, env);
    }
  }

  // ---------------------------------------------------------------------------
  // visible_block and visible_sidebar

  /** visible_block: the block itself when its rule allows the context, nil
      otherwise; reading and normalising the rule can raise. */
  function VisibleBlock(block: Json, ctx: Context): (r: Result<Option<Json>>)
    ensures r.Raised? <==> (Index(block, "visibility").Raised?
      || NormalizeVisibility(Index(block, "visibility").value).Raised?)
    ensures r.Ok? ==> (r.value.Some? <==> Evaluate(NormalizeVisibility(Index(block, "visibility").value).value, ctx))
    ensures r.Ok? && r.value.Some? ==> r.value.value == block
  {
    var v :- Index(block, "visibility");
    var allowed :- Allowed(v, ctx);
    Ok(if allowed then Some(block) else None)
  }

  function VisibleBlocks(blocks: seq<Json>, ctx: Context): (r: Result<seq<Json>>)
    ensures r.Ok? ==> IsSubsequence(r.value, blocks)
    ensures r.Ok? ==> forall i :: 0 <= i < |r.value| ==> VisibleBlock(r.value[i], ctx) == Ok(Some(r.value[i]))
    ensures r.Ok? <==> forall i :: 0 <= i < |blocks| ==> VisibleBlock(blocks[i], ctx).Ok?
  {
    if blocks == [] then Ok([])
    else
      var first :- VisibleBlock(blocks[0], ctx);
      var rest :- VisibleBlocks(blocks[1..], ctx);
      if first.Some? then
        assert ([first.value] + rest)[1..] == rest;
        Ok([first.value] + rest)
      else Ok(rest)
  }

  /** visible_block as the block `map` runs over a list, nil where it
      raised. */
  function KeptBlockOf(ctx: Context): Json -> Option<Json>
  {
    (b: Json) => Kept(VisibleBlock(b, ctx))
  }

  /** The surviving blocks are exactly visible_block's non-nil answers, in
      order. */
  lemma {:induction false} VisibleBlocksCompact(blocks: seq<Json>, ctx: Context)
    requires VisibleBlocks(blocks, ctx).Ok?
    ensures VisibleBlocks(blocks, ctx).value == Compact(MapSeq(blocks, KeptBlockOf(ctx)))
    decreases |blocks|
  {
    if blocks != [] {
      VisibleBlocksCompact(blocks[1..], ctx);
      assert KeptBlockOf(ctx)(blocks[0]) == Kept(VisibleBlock(blocks[0], ctx));
    }
  }

  /** visible_sidebar: nil when denied; otherwise the sidebar with its
      widgets filtered through visible_block, kept even when none survive. */
  function VisibleSidebar(sidebar: Json, ctx: Context): (r: Result<Option<Json>>)
    ensures r.Ok? ==> (Index(sidebar, "visibility").Ok?
      && NormalizeVisibility(Index(sidebar, "visibility").value).Ok?
      && (r.value.Some? <==> Evaluate(NormalizeVisibility(Index(sidebar, "visibility").value).value, ctx)))
    ensures r.Ok? && r.value.Some? ==> (sidebar.JObj? && r.value.value.JObj?
      && (forall k :: k != "widgets" ==> Get(r.value.value.members, k) == Get(sidebar.members, k))
      && Get(r.value.value.members, "widgets").JArr?
      && IsSubsequence(Get(r.value.value.members, "widgets").elems, ArrayOf(Get(sidebar.members, "widgets"))))
    ensures r.Ok? && r.value.Some? ==>
      && VisibleBlocks(ArrayOf(Get(sidebar.members, "widgets")), ctx).Ok?
      && Get(r.value.value.members, "widgets") == JArr(VisibleBlocks(ArrayOf(Get(sidebar.members, "widgets")), ctx).value)
    ensures r.Raised? <==>
      || Index(sidebar, "visibility").Raised?
      || NormalizeVisibility(Index(sidebar, "visibility").value).Raised?
      || (Evaluate(NormalizeVisibility(Index(sidebar, "visibility").value).value, ctx)
          && (!sidebar.JObj? || VisibleBlocks(ArrayOf(Get(sidebar.members, "widgets")), ctx).Raised?))
  {
    var v :- Index(sidebar, "visibility");
    var allowed :- Allowed(v, ctx);
    if !allowed then Ok(None)
    else
      var w :- Index(sidebar, "widgets");
      var widgets :- VisibleBlocks(ArrayOf(w), ctx);
      if sidebar.JObj? then Ok(Some(JObj(Put(sidebar.members, "widgets", JArr(widgets)))))
      else Raised(NoMethodError)
  }

  /** visible_sidebar as the block the sidebar list is filtered with. */
  function SidebarFilter(ctx: Context): Json -> Result<Option<Json>>
  {
    (sb: Json) => VisibleSidebar(sb, ctx)
  }

  /** `sidebars.map { visible_sidebar }.compact`: every surviving sidebar is
      a hash. */
  function VisibleSidebars(sidebars: seq<Json>, ctx: Context): (r: Result<seq<Json>>)
    ensures r.Ok? ==> |r.value| <= |sidebars|
    ensures r.Ok? ==> forall i :: 0 <= i < |r.value| ==> r.value[i].JObj?
  {
    var r := FilterMap(sidebars, SidebarFilter(ctx));
    if r.Ok? then SidebarsStayObjects(sidebars, ctx); r else r
  }

  predicate IsObject(j: Json)
  {
    j.JObj?
  }

  lemma SidebarsStayObjects(sidebars: seq<Json>, ctx: Context)
    requires FilterMap(sidebars, SidebarFilter(ctx)).Ok?
    ensures forall j :: 0 <= j < |FilterMap(sidebars, SidebarFilter(ctx)).value| ==>
      FilterMap(sidebars, SidebarFilter(ctx)).value[j].JObj?
  {
    var f := SidebarFilter(ctx);
    forall i | 0 <= i < |sidebars| && f(sidebars[i]).Ok? && f(sidebars[i]).value.Some?
      ensures IsObject(f(sidebars[i]).value.value)
    {
      assert f(sidebars[i]) == VisibleSidebar(sidebars[i], ctx);
    }
    FilterMapKeeps(sidebars, f, IsObject);
  }

  /** Every sidebar of the list passes visible_sidebar without raising. */
  predicate EverySidebarOk(sidebars: seq<Json>, ctx: Context)
  {
    forall i :: 0 <= i < |sidebars| ==> VisibleSidebar(sidebars[i], ctx).Ok?
  }

  /** The list raises exactly when one of its sidebars does. */
  lemma VisibleSidebarsAllOk(sidebars: seq<Json>, ctx: Context)
    ensures VisibleSidebars(sidebars, ctx).Ok? <==> EverySidebarOk(sidebars, ctx)
  {
    var f := SidebarFilter(ctx);
    FilterMapAllOk(sidebars, f);
    assert forall i :: 0 <= i < |sidebars| ==> f(sidebars[i]) == VisibleSidebar(sidebars[i], ctx);
  }

  /** The surviving sidebars are exactly visible_sidebar's non-nil answers,
      in order. */
  lemma VisibleSidebarsCompact(sidebars: seq<Json>, ctx: Context)
    requires VisibleSidebars(sidebars, ctx).Ok?
    ensures VisibleSidebars(sidebars, ctx).value == Compact(MapSeq(sidebars, KeptOf(SidebarFilter(ctx))))
  {
    FilterMapCompact(sidebars, SidebarFilter(ctx));
  }

  // ---------------------------------------------------------------------------
  // visible_config

  datatype VisibleDocument = VisibleDocument(
    version: int, menus: seq<Menu>, sidebars: seq<Json>, discoveryBlocks: seq<Json>)

  /** visible_config on a normalised document: the version as is, and the
      menus, sidebars and discovery blocks the viewer may see. */
  function VisibleConfig(config: Config, user: Option<User>, env: Env): (r: Result<VisibleDocument>)
    ensures r.Ok? ==> r.value.version == config.version
    ensures r.Ok? ==> IsSubsequence(MenuHeads(r.value.menus), MenuHeads(config.menus))
    ensures r.Ok? ==> IsSubsequence(r.value.discoveryBlocks, config.discoveryBlocks)
    ensures r.Ok? ==> |r.value.sidebars| <= |config.sidebars|
    ensures r.Ok? ==> r.value.menus == VisibleMenus(config.menus, BuildContext(user), user, env)
    ensures r.Ok? ==> VisibleSidebars(config.sidebars, BuildContext(user)) == Ok(r.value.sidebars)
    ensures r.Ok? ==> VisibleBlocks(config.discoveryBlocks, BuildContext(user)) == Ok(r.value.discoveryBlocks)
    ensures r.Raised? <==>
      || VisibleSidebars(config.sidebars, BuildContext(user)).Raised?
      || VisibleBlocks(config.discoveryBlocks, BuildContext(user)).Raised?
  {
    var ctx := BuildContext(user);
    var menus := VisibleMenus(config.menus, ctx, user, env);
    var sidebars :- VisibleSidebars(config.sidebars, ctx);
    var blocks :- VisibleBlocks(config.discoveryBlocks, ctx);
    Ok(VisibleDocument(config.version, menus, sidebars, blocks))
  }

  /** visible_config(user) end to end: the stored document normalised, then
      pruned for the viewer. */
  function VisibleConfigFor(profileJson: Option<string>, settingJson: string, user: Option<User>, env: Env)
    : (r: Result<VisibleDocument>)
    ensures r.Ok? ==> r.value.version != 0
  {
    var config :- NormalizedConfig(profileJson, settingJson, env);
    VisibleConfig(config, user, env)
  }

  // ---------------------------------------------------------------------------
  // visible_config on the documented examples

  /** A trust level 2 viewer sees an unrestricted link but not one that asks
      for trust level 3. */
  lemma ExampleTrustFilter(m: Menu, shown: Item, hidden: Item, u: User, env: Env)
    requires u.trustLevel == 2
    requires m.visibility == EmptyRule && m.items == [shown, hidden]
    requires shown.itemType == "link" && shown.visibility == EmptyRule
    requires hidden.visibility == EmptyRule.(trustLevelMin := Some(3))
    ensures VisibleMenu(m, BuildContext(Some(u)), Some(u), env).Some?
    ensures Heads(VisibleMenu(m, BuildContext(Some(u)), Some(u), env).value.items) == [Head(shown)]
  {
    var ctx := BuildContext(Some(u));
    EvaluateIff(EmptyRule, ctx);
    TrustLevelMinDenies(hidden.visibility, ctx);
    assert VisibleItem(hidden, ctx, Some(u), env).None?;
    assert [shown, hidden][1..] == [hidden];
    assert [hidden][1..] == [];
    var v := VisibleItem(shown, ctx, Some(u), env);
    assert v.Some?;
    assert VisibleItems([shown, hidden], ctx, Some(u), env) == [v.value];
  }

  /** "/latest" is kept as it is. */
  lemma ExampleSanitizeRelative(env: Env)
    ensures SanitizeUrl(JStr("/latest"), env) == Some("/latest")
  {
    var safe := "/latest";
    assert safe[0] == '/' && safe[|safe| - 1] == 't';
    SanitizeTrimmed(safe, env);
  }

  /** "javascript:alert(1)", whose scheme URI.parse reports as javascript,
      is dropped. */
  lemma ExampleSanitizeScript(env: Env)
    requires env.parseUri("javascript:alert(1)") == Parsed(Some("javascript"))
    ensures SanitizeUrl(JStr("javascript:alert(1)"), env) == None
  {
    var unsafe := "javascript:alert(1)";
    assert unsafe[0] == 'j' && unsafe[|unsafe| - 1] == ')';
    assert !AcceptedScheme(env.parseUri(unsafe)) by {
      assert "javascript" !in AllowedSchemes;
    }
    SanitizeTrimmed(unsafe, env);
  }

  /** sanitize_url on a string with nothing to strip: kept when it starts
      with "/", otherwise kept exactly when its scheme is accepted. */
  lemma SanitizeTrimmed(s: string, env: Env)
    requires s != [] && !IsStripChar(s[0]) && !IsStripChar(s[|s| - 1]) && !IsBlankChar(s[0])
    ensures s[0] == '/' ==> SanitizeUrl(JStr(s), env) == Some(s)
    ensures s[0] != '/' ==> (SanitizeUrl(JStr(s), env) == Some(s) <==> AcceptedScheme(env.parseUri(s)))
    ensures s[0] != '/' ==> (SanitizeUrl(JStr(s), env) == None <==> !AcceptedScheme(env.parseUri(s)))
  {
    StripUnchanged(s);
    assert ToS(JStr(s)) == s;
    assert !BlankStr(s) by {
      assert !IsBlankChar(s[0]);
    }
    assert StartsWith(s, "/") <==> s[0] == '/' by {
      assert s[..1] == [s[0]];
    }
  }

  /** So a link item whose url is "javascript:alert(1)" has no url for any
      viewer. */
  lemma ExampleUnsafeLink(src: Json, generatedId: string, user: Option<User>, env: Env)
    requires env.parseUri("javascript:alert(1)") == Parsed(Some("javascript"))
    requires src.JObj? && Get(src.members, "type") == JStr("link")
    requires Get(src.members, "url") == JStr("javascript:alert(1)")
    requires NormalizeItem(src, generatedId, env).Ok?
    ensures ViewerUrl(NormalizeItem(src, generatedId, env).value, user, env) == None
  {
    assert SafeEnum(JStr("link"), AllowedItemTypes, "link") == "link";
    ExampleSanitizeScript(env);
    LinkUrlUnchanged(src, generatedId, user, env);
  }

  // ---------------------------------------------------------------------------
  // Sidebar widgets are never normalised

  /** A hash whose visibility visible_block can read and normalise. */
  predicate BlockReady(block: Json)
  {
    block.JObj? && NormalizeVisibility(Get(block.members, "visibility")).Ok?
  }

  /** A sidebar visible_sidebar can filter without raising. */
  predicate SidebarReady(sidebar: Json)
  {
    && BlockReady(sidebar)
    && forall w :: w in ArrayOf(Get(sidebar.members, "widgets")) ==> BlockReady(w)
  }

  lemma {:induction false} ReadyBlocksFilter(blocks: seq<Json>, ctx: Context)
    requires forall w :: w in blocks ==> BlockReady(w)
    ensures VisibleBlocks(blocks, ctx).Ok?
  {
    forall i | 0 <= i < |blocks| ensures VisibleBlock(blocks[i], ctx).Ok? {
      assert BlockReady(blocks[i]);
    }
  }

  /** Ready sidebars and discovery blocks make visible_config total. */
  lemma {:induction false} VisibleConfigTotal(config: Config, user: Option<User>, env: Env)
    requires forall sb :: sb in config.sidebars ==> SidebarReady(sb)
    requires forall b :: b in config.discoveryBlocks ==> BlockReady(b)
    ensures VisibleConfig(config, user, env).Ok?
  {
    var ctx := BuildContext(user);
    ReadySidebarsFilter(config.sidebars, ctx);
    ReadyBlocksFilter(config.discoveryBlocks, ctx);
  }

  lemma ReadySidebarsFilter(sidebars: seq<Json>, ctx: Context)
    requires forall sb :: sb in sidebars ==> SidebarReady(sb)
    ensures VisibleSidebars(sidebars, ctx).Ok?
  {
    forall i | 0 <= i < |sidebars|
      ensures VisibleSidebar(sidebars[i], ctx).Ok?
    {
      ReadySidebarFilter(sidebars[i], ctx);
    }
    VisibleSidebarsAllOk(sidebars, ctx);
  }

  lemma ReadySidebarFilter(sb: Json, ctx: Context)
    requires SidebarReady(sb)
    ensures VisibleSidebar(sb, ctx).Ok?
  {
    ReadyBlocksFilter(ArrayOf(Get(sb.members, "widgets")), ctx);
  }

  /** Discovery blocks are normalised as generic entities, so they are ready. */
  lemma GenericEntityReady(entity: Json)
    requires NormalizeGenericEntity(entity).Ok?
    ensures BlockReady(NormalizeGenericEntity(entity).value)
  {
    NormalizeVisibilityIdempotent(NormalizeVisibility(Get(HashMembers(entity), "visibility")).value);
  }

  /** As written, a sidebar {"widgets": [null]} normalises without error (so
      valid_json? accepts a document holding it), but its widget never
      passes through normalize_generic_entity and visible_sidebar raises
      NoMethodError on it for every viewer. */
  lemma RawWidgetBreaksSidebar(ctx: Context)
    ensures NormalizeGenericEntity(JObj([Member("widgets", JArr([JNull]))])).Ok?
    ensures VisibleSidebar(NormalizeGenericEntity(JObj([Member("widgets", JArr([JNull]))])).value, ctx)
      == Raised(NoMethodError)
  {
    var ms := [Member("widgets", JArr([JNull]))];
    assert ms[0].key == "widgets";
    assert !HasKey(ms, "visibility");
    var n := NormalizeGenericEntity(JObj(ms)).value;
    assert Get(n.members, "visibility") == RuleToJson(EmptyRule);
    AllowedOnNormalized(EmptyRule, ctx);
    assert Evaluate(EmptyRule, ctx);
    assert Get(n.members, "widgets") == JArr([JNull]);
    assert VisibleBlocks([JNull], ctx) == Raised(NoMethodError);
  }

  /** The document {"sidebars": [{"widgets": [null]}]} passes valid_json?
      and still makes visible_config raise. */
  lemma ValidJsonDoesNotMeanRenderable(text: string, user: Option<User>, env: Env)
    requires env.parseJson(text) == Some(JObj([Member("sidebars", JArr([JObj([Member("widgets", JArr([JNull]))])]))]))
    ensures ValidJson(text, env)
    ensures VisibleConfig(NormalizeConfig(env.parseJson(text).value, env).value, user, env).Raised?
  {
    var sb := JObj([Member("widgets", JArr([JNull]))]);
    RawWidgetBreaksSidebar(BuildContext(user));
    SidebarsOnly(sb, env);
    var n := NormalizeGenericEntity(sb).value;
    assert [n][0] == n;
    assert VisibleSidebars([n], BuildContext(user)).Raised?;
  }

  /** A document holding just one sidebar normalises to version 1, no menus,
      that sidebar normalised and no discovery blocks. */
  lemma SidebarsOnly(sb: Json, env: Env)
    requires NormalizeGenericEntity(sb).Ok?
    ensures NormalizeConfig(JObj([Member("sidebars", JArr([sb]))]), env)
      == Ok(Config(1, [], [NormalizeGenericEntity(sb).value], []))
  {
    var ms := [Member("sidebars", JArr([sb]))];
    MergedGetAt(ms, 0, JArr([]));
    assert !HasKey(ms, "menus") && !HasKey(ms, "version") && !HasKey(ms, "discovery_blocks");
    assert ArrayOf(MergedGet(ms, "menus", JArr([]))) == [];
    assert ArrayOf(MergedGet(ms, "discovery_blocks", JArr([]))) == [];
    assert ArrayOf(MergedGet(ms, "sidebars", JArr([]))) == [sb];
    assert ToI(MergedGet(ms, "version", JInt(1))) == Ok(1);
    assert NormalizeMenus([], 0, env) == Ok([]);
    SingleEntity(sb);
    assert NormalizeEntities([]) == Ok([]);
  }

  lemma SingleEntity(e: Json)
    requires NormalizeGenericEntity(e).Ok?
    ensures NormalizeEntities([e]) == Ok([NormalizeGenericEntity(e).value])
  {
    assert [e][0] == e;
    assert NormalizeEntities([e][1..]) == Ok([]);
    assert [NormalizeGenericEntity(e).value] + [] == [NormalizeGenericEntity(e).value];
  }

  /** The evident intent: a sidebar normalised together with its widgets. */
  function NormalizeSidebar(sidebar: Json): (r: Result<Json>)
    ensures r.Ok? ==> SidebarReady(r.value)
    ensures NormalizeGenericEntity(sidebar).Raised? ==> r.Raised?
  {
    var entity :- NormalizeGenericEntity(sidebar);
    GenericEntityReady(sidebar);
    var widgets :- NormalizeEntities(ArrayOf(Get(entity.members, "widgets")));
    EntitiesReady(ArrayOf(Get(entity.members, "widgets")));
    WidgetsReady(entity, widgets);
    Ok(JObj(Put(entity.members, "widgets", JArr(widgets))))
  }

  lemma EntitiesReady(es: seq<Json>)
    requires NormalizeEntities(es).Ok?
    ensures forall w :: w in NormalizeEntities(es).value ==> BlockReady(w)
  {
    var ws := NormalizeEntities(es).value;
    forall w | w in ws ensures BlockReady(w) {
      var i :| 0 <= i < |ws| && ws[i] == w;
      GenericEntityReady(es[i]);
    }
  }

  lemma WidgetsReady(entity: Json, widgets: seq<Json>)
    requires BlockReady(entity)
    requires forall w :: w in widgets ==> BlockReady(w)
    ensures SidebarReady(JObj(Put(entity.members, "widgets", JArr(widgets))))
  {
    var ms := Put(entity.members, "widgets", JArr(widgets));
    assert Get(ms, "visibility") == Get(entity.members, "visibility");
    assert ArrayOf(Get(ms, "widgets")) == widgets;
  }

  /** With its widgets normalised, a sidebar renders for every viewer. */
  lemma NormalizedSidebarRenders(sidebar: Json, ctx: Context)
    requires NormalizeSidebar(sidebar).Ok?
    ensures VisibleSidebar(NormalizeSidebar(sidebar).value, ctx).Ok?
  {
    ReadySidebarFilter(NormalizeSidebar(sidebar).value, ctx);
  }

  /** {"widgets": [null]} normalises this way, its widget becoming {}. */
  lemma NullWidgetNormalizes()
    ensures NormalizeSidebar(JObj([Member("widgets", JArr([JNull]))])).Ok?
  {
    var ms := [Member("widgets", JArr([JNull]))];
    assert ms[0].key == "widgets";
    assert !HasKey(ms, "visibility");
    var n := NormalizeGenericEntity(JObj(ms)).value;
    assert Get(n.members, "widgets") == JArr([JNull]);
    assert NormalizeEntities([JNull][1..]) == Ok([]);
    assert NormalizeEntities([JNull]).Ok?;
  }
}
