/** The theme's navigation script, apart from building the DOM: which menu
    to show, on which routes, whether an item opens a dropdown, and the
    bookkeeping of the one open dropdown and of the panel payload cache. */
module NavigationClient {
  import opened RubyJson
  import opened ConfigStore
  import opened ConfigFilter
  import opened TopicQuery

  // ---------------------------------------------------------------------------
  // hasDropdown, pickMenu, panelCacheKey

  /** hasDropdown: the item has children or a panel. */
  predicate HasDropdown(it: Item): (b: bool)
    ensures it.panel.Some? ==> b
    ensures b && it.panel.None? ==> it.children != []
  {
    |it.children| > 0 || it.panel.Some?
  }

  /** Pruning leaves no divider that would have nothing to open. */
  lemma {:induction false} PrunedDividersHaveDropdowns(it: Item)
    requires NoBareDivider(it)
    ensures it.itemType == "divider" ==> HasDropdown(it)
    ensures forall i :: 0 <= i < |it.children| && it.children[i].itemType == "divider" ==> HasDropdown(it.children[i])
  {
    forall i | 0 <= i < |it.children| && it.children[i].itemType == "divider"
      ensures HasDropdown(it.children[i])
    {
      assert NoBareDivider(it.children[i]);
    }
  }

  /** The index of the first menu with the placement. */
  function FirstWithPlacement(menus: seq<Menu>, placement: string): (r: Option<nat>)
    ensures r.Some? ==> r.value < |menus| && menus[r.value].placement == placement
    ensures r.Some? ==> forall j :: 0 <= j < r.value ==> menus[j].placement != placement
    ensures r.None? ==> forall j :: 0 <= j < |menus| ==> menus[j].placement != placement
  {
    if menus == [] then None
    else if menus[0].placement == placement then Some(0)
    else
      var rest := FirstWithPlacement(menus[1..], placement);
      if rest.Some? then Some(rest.value + 1) else None
  }

  /** pickMenu: nothing without a config or its menus; otherwise the first
      menu with the placement, else the first menu, else nothing. `menus` is
      None when the config or its menus are missing. */
  function PickMenu(menus: Option<seq<Menu>>, placement: string): (r: Option<Menu>)
    ensures r.None? <==> menus.None? || menus.value == []
    ensures r.Some? ==> r.value in menus.value
    ensures r.Some? && r.value.placement != placement ==>
      forall j :: 0 <= j < |menus.value| ==> menus.value[j].placement != placement
    ensures r.Some? && r.value.placement == placement ==>
      exists i :: 0 <= i < |menus.value| && menus.value[i] == r.value
        && forall j :: 0 <= j < i ==> menus.value[j].placement != placement
    ensures menus.Some? && FirstWithPlacement(menus.value, placement).Some? ==>
      r == Some(menus.value[FirstWithPlacement(menus.value, placement).value])
    ensures menus.Some? && menus.value != [] && FirstWithPlacement(menus.value, placement).None? ==>
      r == Some(menus.value[0])
  {
    if menus.None? then None
    else
      var found := FirstWithPlacement(menus.value, placement);
      if found.Some? then Some(menus.value[found.value])
      else if menus.value != [] then Some(menus.value[0])
      else None
  }

  /** panelCacheKey: the six request fields of a panel, the display flags
      left out (JSON.stringify of them, which tells different values apart). */
  datatype PanelKey = PanelKey(sourceType: string, categorySlug: Option<string>, categoryId: Option<int>,
    tag: Option<string>, timeRange: string, limit: int)

  function PanelCacheKey(p: Panel): (k: PanelKey)
    ensures k.sourceType == p.sourceType && k.timeRange == p.timeRange && k.limit == p.limit
    ensures k.categorySlug == p.categorySlug && k.categoryId == p.categoryId && k.tag == p.tag
  {
    PanelKey(p.sourceType, p.categorySlug, p.categoryId, p.tag, p.timeRange, p.limit)
  }

  /** Two panels share a cache entry exactly when their six request fields
      agree; the thumbnail and excerpt flags play no part. */
  lemma PanelCacheKeyFields(p1: Panel, p2: Panel)
    ensures PanelCacheKey(p1) == PanelCacheKey(p2) <==>
      p1.(showThumbnail := false, showExcerpt := false) == p2.(showThumbnail := false, showExcerpt := false)
  {
    if PanelCacheKey(p1) == PanelCacheKey(p2) {
      assert p1.sourceType == PanelCacheKey(p1).sourceType == p2.sourceType;
    }
  }

  // ---------------------------------------------------------------------------
  // parseRouteAllowlist and routeAllowed

  predicate IsSeparator(c: char)
  {
    c == '\n' || c == ','
  }

  /** No newline or comma in the string. */
  predicate NoSeparator(s: string)
  {
    forall j :: 0 <= j < |s| ==> !IsSeparator(s[j])
  }

  /** `raw.split(/[\n,]/)`: the pieces between separators, empty ones kept. */
  function Split(raw: string): (parts: seq<string>)
    ensures |parts| >= 1
    ensures forall i :: 0 <= i < |parts| ==> NoSeparator(parts[i])
  {
    if raw == [] then [""]
    else
      var rest := Split(raw[1..]);
      if IsSeparator(raw[0]) then [""] + rest
      else
        assert NoSeparator(rest[0]);
        [[raw[0]] + rest[0]] + rest[1..]
  }

  /** The separators of `raw`, in order. */
  function SeparatorsOf(raw: string): (seps: string)
    ensures forall j :: 0 <= j < |seps| ==> IsSeparator(seps[j])
  {
    if raw == [] then ""
    else (if IsSeparator(raw[0]) then [raw[0]] else "") + SeparatorsOf(raw[1..])
  }

  /** The pieces put back together with a separator between each two. */
  function Join(parts: seq<string>, seps: string): string
    requires |parts| == |seps| + 1
  {
    if seps == [] then parts[0] else parts[0] + [seps[0]] + Join(parts[1..], seps[1..])
  }

  /** Splitting is undone by putting the separators back: the cuts fall
      exactly at the separators of `raw`, one piece more than there are
      separators. */
  lemma {:induction false} SplitJoin(raw: string)
    ensures |Split(raw)| == |SeparatorsOf(raw)| + 1
    ensures Join(Split(raw), SeparatorsOf(raw)) == raw
  {
    if raw != [] {
      SplitJoin(raw[1..]);
      var rest := Split(raw[1..]);
      var seps := SeparatorsOf(raw[1..]);
      if IsSeparator(raw[0]) {
        assert SeparatorsOf(raw) == [raw[0]] + seps;
        assert Split(raw) == [""] + rest;
        assert ([raw[0]] + seps)[1..] == seps;
        assert ([""] + rest)[1..] == rest;
        assert raw == [raw[0]] + raw[1..];
      } else {
        assert SeparatorsOf(raw) == seps;
        JoinPrepend(raw[0], rest, seps);
        assert raw == [raw[0]] + raw[1..];
      }
    }
  }

  /** A character put in front of the first piece is put in front of the
      joined string. */
  lemma JoinPrepend(c: char, parts: seq<string>, seps: string)
    requires |parts| == |seps| + 1
    ensures Join([[c] + parts[0]] + parts[1..], seps) == [c] + Join(parts, seps)
  {
    var q := [[c] + parts[0]] + parts[1..];
    assert q[0] == [c] + parts[0];
    if seps != [] {
      assert q[1..] == parts[1..];
      var tail := [seps[0]] + Join(parts[1..], seps[1..]);
      assert Join(q, seps) == q[0] + tail;
      assert Join(parts, seps) == parts[0] + tail;
      ConcatAssoc([c], parts[0], tail);
    }
  }

  lemma ConcatAssoc(a: string, b: string, c: string)
    ensures (a + b) + c == a + (b + c)
  {
  }

  /** Splitting a string with no separator gives the string itself. */
  lemma {:induction false} SplitNoSeparator(raw: string)
    requires NoSeparator(raw)
    ensures Split(raw) == [raw]
  {
    if raw != [] {
      SplitNoSeparator(raw[1..]);
      assert raw == [raw[0]] + raw[1..];
    }
  }

  /** The characters String.prototype.trim removes: white space and line
      terminators. */
  predicate IsJsSpace(c: char)
  {
    || c == '\t' || c == '\n' || c == '\U{000B}' || c == '\U{000C}' || c == '\r' || c == ' '
    || c == '\U{00A0}' || c == '\U{1680}' || ('\U{2000}' <= c <= '\U{200A}')
    || c == '\U{2028}' || c == '\U{2029}' || c == '\U{202F}' || c == '\U{205F}' || c == '\U{3000}'
    || c == '\U{FEFF}'
  }

  function TrimStart(s: string): (t: string)
    ensures |t| <= |s| && t == s[|s| - |t|..]
    ensures t == [] || !IsJsSpace(t[0])
  {
    if s != [] && IsJsSpace(s[0]) then TrimStart(s[1..]) else s
  }

  /** TrimStart removes white space only. */
  lemma {:induction false} TrimStartSpace(s: string)
    ensures forall j :: 0 <= j < |s| - |TrimStart(s)| ==> IsJsSpace(s[j])
  {
    if s != [] && IsJsSpace(s[0]) {
      TrimStartSpace(s[1..]);
      assert forall j :: 1 <= j < |s| ==> s[j] == s[1..][j - 1];
    }
  }

  function TrimEnd(s: string): (t: string)
    ensures |t| <= |s| && t == s[..|t|]
    ensures t == [] || !IsJsSpace(t[|t| - 1])
  {
    if s != [] && IsJsSpace(s[|s| - 1]) then TrimEnd(s[..|s| - 1]) else s
  }

  /** TrimEnd removes white space only. */
  lemma {:induction false} TrimEndSpace(s: string)
    ensures forall j :: |TrimEnd(s)| <= j < |s| ==> IsJsSpace(s[j])
  {
    if s != [] && IsJsSpace(s[|s| - 1]) {
      TrimEndSpace(s[..|s| - 1]);
      assert forall j :: 0 <= j < |s| - 1 ==> s[j] == s[..|s| - 1][j];
    }
  }

  /** Non-empty, with no white space at either end. */
  predicate Trimmed(e: string)
  {
    e != [] && !IsJsSpace(e[0]) && !IsJsSpace(e[|e| - 1])
  }

  /** String.prototype.trim: the slice of `s` left when the white space at
      both ends is removed. */
  function Trim(s: string): (t: string)
    ensures t == [] || Trimmed(t)
    ensures |s| - |TrimStart(s)| + |t| <= |s|
    ensures t == s[|s| - |TrimStart(s)|..|s| - |TrimStart(s)| + |t|]
  {
    var l := TrimStart(s);
    var t := TrimEnd(l);
    TrimmedInside(s, l, t);
    t
  }

  /** A prefix `t` of a suffix `l` of `s`, with no white space at the front
      of `l` or at the end of `t`, is a trimmed slice of `s`. */
  lemma TrimmedInside(s: string, l: string, t: string)
    requires |l| <= |s| && l == s[|s| - |l|..] && (l == [] || !IsJsSpace(l[0]))
    requires |t| <= |l| && t == l[..|t|] && (t == [] || !IsJsSpace(t[|t| - 1]))
    ensures t == [] || Trimmed(t)
    ensures t == s[|s| - |l|..|s| - |l| + |t|]
  {
    var k := |s| - |l|;
    if t != [] {
      assert t[0] == l[0];
    }
    forall j | 0 <= j < |t|
      ensures t[j] == s[k + j]
    {
      assert t[j] == l[j];
    }
  }

  /** What trimming removes is white space and nothing else: every
      character before the kept slice and every one after it. */
  lemma TrimOnlySpace(s: string)
    ensures var k := |s| - |TrimStart(s)|;
      && (forall j :: 0 <= j < k ==> IsJsSpace(s[j]))
      && (forall j :: k + |Trim(s)| <= j < |s| ==> IsJsSpace(s[j]))
  {
    var l := TrimStart(s);
    var t := TrimEnd(l);
    var k := |s| - |l|;
    assert Trim(s) == t;
    TrimStartSpace(s);
    TrimEndSpace(l);
    forall j | k + |t| <= j < |s|
      ensures IsJsSpace(s[j])
    {
      assert s[j] == l[j - k];
    }
  }

  /** Trimming adds no separator. */
  lemma TrimNoSeparator(s: string)
    requires NoSeparator(s)
    ensures NoSeparator(Trim(s))
  {
    var t := Trim(s);
    var k := |s| - |TrimStart(s)|;
    assert t == s[k..k + |t|];
    forall j | 0 <= j < |t|
      ensures !IsSeparator(t[j])
    {
      assert t[j] == s[k + j];
    }
  }

  /** `.map(trim).filter(Boolean)` */
  function Entries(parts: seq<string>): (r: seq<string>)
    ensures forall e :: e in r ==> Trimmed(e)
  {
    if parts == [] then []
    else
      var rest := Entries(parts[1..]);
      var t := Trim(parts[0]);
      if t == "" then rest else [t] + rest
  }

  /** Every part that does not trim to nothing gives an entry. */
  lemma {:induction false} EntriesComplete(parts: seq<string>)
    ensures forall i :: 0 <= i < |parts| && Trim(parts[i]) != "" ==> Trim(parts[i]) in Entries(parts)
    decreases |parts|
  {
    if parts != [] {
      var rest := Entries(parts[1..]);
      var t := Trim(parts[0]);
      assert Entries(parts) == if t == "" then rest else [t] + rest;
      EntriesComplete(parts[1..]);
      forall i | 0 <= i < |parts| && Trim(parts[i]) != ""
        ensures Trim(parts[i]) in Entries(parts)
      {
        if i > 0 {
          assert parts[i] == parts[1..][i - 1];
          assert Trim(parts[i]) in rest;
        }
      }
    }
  }

  /** Every entry is the trimmed form of one of the parts. */
  lemma {:induction false} EntriesFromParts(parts: seq<string>, e: string)
    requires e in Entries(parts)
    ensures exists i :: 0 <= i < |parts| && Trim(parts[i]) == e
  {
    if Trim(parts[0]) != e {
      assert e in Entries(parts[1..]);
      EntriesFromParts(parts[1..], e);
      var i :| 0 <= i < |parts[1..]| && Trim(parts[1..][i]) == e;
      assert Trim(parts[i + 1]) == e;
    }
  }

  /** `trim` and then `filter(Boolean)` on one part: nil when trimming
      leaves nothing. */
  function TrimmedEntry(part: string): Option<string>
  {
    if Trim(part) == "" then None else Some(Trim(part))
  }

  /** The entries are the parts trimmed, the empty ones dropped, in order. */
  lemma {:induction false} EntriesInOrder(parts: seq<string>)
    ensures Entries(parts) == Compact(MapSeq(parts, TrimmedEntry))
  {
    if parts != [] {
      EntriesInOrder(parts[1..]);
      assert MapSeq(parts, TrimmedEntry) == [TrimmedEntry(parts[0])] + MapSeq(parts[1..], TrimmedEntry);
    }
  }

  /** parseRouteAllowlist: the trimmed, non-empty entries between newlines
      and commas of the allow-list setting ("" when unset). */
  function ParseRouteAllowlist(raw: string): (entries: seq<string>)
    ensures forall e :: e in entries ==> Trimmed(e) && NoSeparator(e)
    ensures forall i :: 0 <= i < |Split(raw)| && Trim(Split(raw)[i]) != "" ==> Trim(Split(raw)[i]) in entries
  {
    var parts := Split(raw);
    var entries := Entries(parts);
    EntriesComplete(parts);
    forall e | e in entries
      ensures NoSeparator(e)
    {
      EntriesFromParts(parts, e);
      var i :| 0 <= i < |parts| && Trim(parts[i]) == e;
      TrimNoSeparator(parts[i]);
    }
    entries
  }

  /** The allow-list is the setting's pieces between separators, each
      trimmed, the empty ones dropped, in their order in the setting. */
  lemma ParseRouteAllowlistInOrder(raw: string)
    ensures ParseRouteAllowlist(raw) == Compact(MapSeq(Split(raw), TrimmedEntry))
  {
    var parts := Split(raw);
    assert ParseRouteAllowlist(raw) == Entries(parts);
    EntriesInOrder(parts);
  }

  /** An entry ending in "*" matches by prefix (without the "*"), any other
      entry only the exact path. */
  predicate Matches(entry: string, pathname: string)
  {
    if EndsWith(entry, "*") then StartsWith(pathname, entry[..|entry| - 1]) else pathname == entry
  }

  /** `allowlist.some(...)` */
  function AnyMatch(allowlist: seq<string>, pathname: string): (r: bool)
    ensures r <==> exists i :: 0 <= i < |allowlist| && Matches(allowlist[i], pathname)
  {
    if allowlist == [] then false
    else if Matches(allowlist[0], pathname) then true
    else
      var r := AnyMatch(allowlist[1..], pathname);
      assert forall i :: 1 <= i < |allowlist| ==> allowlist[i] == allowlist[1..][i - 1];
      r
  }

  /** routeAllowed: every route when the list is empty or holds "*",
      otherwise the routes some entry matches. */
  function RouteAllowed(allowlist: seq<string>, pathname: string): (r: bool)
    ensures r <==> (allowlist == [] || "*" in allowlist
      || exists i :: 0 <= i < |allowlist| && Matches(allowlist[i], pathname))
  {
    if |allowlist| == 0 || "*" in allowlist then true else AnyMatch(allowlist, pathname)
  }

  /** The "*" shortcut agrees with matching: "*" is a prefix entry with an
      empty prefix. */
  lemma StarMatchesEverything(pathname: string)
    ensures Matches("*", pathname)
  {
    assert EndsWith("*", "*");
    assert "*"[..0] == "";
    assert pathname[..0] == "";
  }

  // ---------------------------------------------------------------------------
  // The panel cache

  /** What loadPanel shows in the panel body. */
  datatype PanelView = Untouched | Topics(payload: Payload) | LoadError

  /** loadPanel requests the panel's topics when its key is not cached. */
  predicate Fetches(cache: map<PanelKey, Payload>, panel: Option<Panel>)
  {
    panel.Some? && PanelCacheKey(panel.value) !in cache
  }

  /** The cache after loadPanel; `response` None stands for a request that
      failed. */
  function CacheAfterLoad(cache: map<PanelKey, Payload>, panel: Option<Panel>, response: Option<Payload>): map<PanelKey, Payload>
  {
    if Fetches(cache, panel) && response.Some? then cache[PanelCacheKey(panel.value) := response.value] else cache
  }

  /** What loadPanel shows. */
  function ViewAfterLoad(cache: map<PanelKey, Payload>, panel: Option<Panel>, response: Option<Payload>): PanelView
  {
    if panel.None? then Untouched
    else if PanelCacheKey(panel.value) in cache then Topics(cache[PanelCacheKey(panel.value)])
    else if response.Some? then Topics(response.value)
    else LoadError
  }

  /** A cached key renders the cached payload, whatever the server would
      have answered, and leaves the cache as it was. */
  lemma CacheHitIgnoresServer(cache: map<PanelKey, Payload>, panel: Panel, response: Option<Payload>)
    requires PanelCacheKey(panel) in cache
    ensures !Fetches(cache, Some(panel))
    ensures CacheAfterLoad(cache, Some(panel), response) == cache
    ensures ViewAfterLoad(cache, Some(panel), response) == Topics(cache[PanelCacheKey(panel)])
  {
  }

  /** Entries are only ever added, and only from a successful fetch: every
      entry afterwards was there before, or is the fetched payload under the
      panel's key. */
  lemma CacheOnlyGrowsOnSuccess(cache: map<PanelKey, Payload>, panel: Option<Panel>, response: Option<Payload>)
    ensures forall k :: k in cache ==> k in CacheAfterLoad(cache, panel, response) && CacheAfterLoad(cache, panel, response)[k] == cache[k]
    ensures forall k :: k in CacheAfterLoad(cache, panel, response) && k !in cache ==>
      (Fetches(cache, panel) && response.Some? && k == PanelCacheKey(panel.value)
        && CacheAfterLoad(cache, panel, response)[k] == response.value)
    ensures response.None? ==> CacheAfterLoad(cache, panel, response) == cache
  {
  }

  /** Once a load succeeds, loading the same panel again, or one that
      differs only in its display flags, shows the same topics without a
      request. */
  lemma SecondLoadIsCached(cache: map<PanelKey, Payload>, p1: Panel, p2: Panel, payload: Payload, response: Option<Payload>)
    requires p1.(showThumbnail := false, showExcerpt := false) == p2.(showThumbnail := false, showExcerpt := false)
    ensures !Fetches(CacheAfterLoad(cache, Some(p1), Some(payload)), Some(p2))
    ensures ViewAfterLoad(CacheAfterLoad(cache, Some(p1), Some(payload)), Some(p2), response)
      == ViewAfterLoad(cache, Some(p1), Some(payload))
  {
    PanelCacheKeyFields(p1, p2);
  }

  // ---------------------------------------------------------------------------
  // The open dropdown

  /** `state.openDropdown`: the open `li` and its toggle button, if any. */
  datatype OpenDropdown = OpenDropdown(li: int, toggleButton: Option<int>)

  /** The state the script keeps across events. `active` are the items with
      the is-open class, `expanded` the toggle buttons with aria-expanded
      true, `clickMode` whether the bar has the sns-click-mode class. */
  class NavState {
    var openDropdown: Option<OpenDropdown>
    var active: set<int>
    var expanded: set<int>
    var clickMode: bool
    var panelCache: map<PanelKey, Payload>

    /** The open dropdown is the only item marked open, and only its
        toggle button is expanded. */
    predicate Valid()
      reads this
    {
      && (openDropdown.None? ==> active == {} && expanded == {})
      && (openDropdown.Some? ==> (active == {openDropdown.value.li}
        && expanded == (if openDropdown.value.toggleButton.Some? then {openDropdown.value.toggleButton.value} else {})))
    }

    /** Whether `li` is the open item. */
    predicate IsOpen(li: int)
      reads this
    {
      openDropdown.Some? && openDropdown.value.li == li
    }

    constructor()
      ensures Valid() && openDropdown.None? && panelCache == map[] && !clickMode
    {
      openDropdown := None;
      active := {};
      expanded := {};
      clickMode := false;
      panelCache := map[];
    }

    /** At most one dropdown is open at any time, and it is the item
        marked open. */
    lemma AtMostOneOpen()
      requires Valid()
      ensures |active| <= 1
      ensures forall li :: li in active <==> IsOpen(li)
    {
    }

    /** closeCurrentDropdown (also what a click outside the bar, Escape, or
        a route off the allow-list does): nothing open afterwards and click
        mode off; the panel cache is kept. */
    method CloseCurrentDropdown()
      requires Valid()
      modifies this
      ensures Valid()
      ensures openDropdown.None? && active == {} && expanded == {} && !clickMode
      ensures panelCache == old(panelCache)
    {
      if openDropdown.None? {
        clickMode := false;
        return;
      }
      var od := openDropdown.value;
      active := active - {od.li};
      if od.toggleButton.Some? {
        expanded := expanded - {od.toggleButton.value};
      }
      openDropdown := None;
      clickMode := false;
    }

    /** loadPanel: nothing without a panel config; the cached payload when
        the key is cached, without a request; otherwise the response,
        stored only when the request succeeds. */
    method LoadPanel(panel: Option<Panel>, response: Option<Payload>) returns (shown: PanelView, fetched: bool)
      modifies this
      ensures fetched == Fetches(old(panelCache), panel)
      ensures shown == ViewAfterLoad(old(panelCache), panel, response)
      ensures panelCache == CacheAfterLoad(old(panelCache), panel, response)
      ensures openDropdown == old(openDropdown) && active == old(active) && expanded == old(expanded)
      ensures clickMode == old(clickMode)
    {
      if panel.None? {
        return Untouched, false;
      }
      var key := PanelCacheKey(panel.value);
      if key in panelCache {
        return Topics(panelCache[key]), false;
      }
      if response.Some? {
        panelCache := panelCache[key := response.value];
        return Topics(response.value), true;
      }
      return LoadError, true;
    }

    /** openDropdown: a no-op when `li` is already open; otherwise the open
        one is closed first, `li` is marked open and recorded, its panel (if
        any) is loaded, and click mode follows the menu's open mode. */
    method Open(li: int, toggleButton: Option<int>, panel: Option<Panel>, response: Option<Payload>, clickMenu: bool)
      returns (shown: PanelView)
      requires Valid()
      modifies this
      ensures Valid() && IsOpen(li) && active == {li}
      ensures old(IsOpen(li)) ==>
        (openDropdown == old(openDropdown) && clickMode == old(clickMode)
        && shown == Untouched && panelCache == old(panelCache))
      ensures !old(IsOpen(li)) ==>
        (openDropdown == Some(OpenDropdown(li, toggleButton)) && clickMode == clickMenu
        && shown == ViewAfterLoad(old(panelCache), panel, response)
        && panelCache == CacheAfterLoad(old(panelCache), panel, response))
    {
      if IsOpen(li) {
        return Untouched;
      }
      CloseCurrentDropdown();
      active := active + {li};
      if toggleButton.Some? {
        expanded := expanded + {toggleButton.value};
      }
      openDropdown := Some(OpenDropdown(li, toggleButton));
      var fetched;
      shown, fetched := LoadPanel(panel, response);
      if clickMenu {
        clickMode := true;
      }
    }

    /** A click on an item's toggle button: closes the item when it is the
        open one, opens it otherwise. */
    method ToggleClick(li: int, toggleButton: Option<int>, panel: Option<Panel>, response: Option<Payload>, clickMenu: bool)
      returns (shown: PanelView)
      requires Valid()
      modifies this
      ensures Valid()
      ensures old(IsOpen(li)) ==>
        (openDropdown.None? && active == {} && expanded == {} && !clickMode
        && shown == Untouched && panelCache == old(panelCache))
      ensures !old(IsOpen(li)) ==>
        (openDropdown == Some(OpenDropdown(li, toggleButton)) && active == {li}
        && clickMode == clickMenu
        && shown == ViewAfterLoad(old(panelCache), panel, response)
        && panelCache == CacheAfterLoad(old(panelCache), panel, response))
    {
      if IsOpen(li) {
        CloseCurrentDropdown();
        shown := Untouched;
      } else {
        shown := Open(li, toggleButton, panel, response, clickMenu);
      }
    }
  }

  /** Two clicks on the same toggle leave the bar as it was with nothing
      open, and the second click requests nothing. A method rather than a
      lemma: the clicks are calls of ToggleClick on the bar's state, and
      only a method may call a method. */
  method ToggleTwice(s: NavState, li: int, toggleButton: Option<int>, panel: Option<Panel>, response: Option<Payload>)
    requires s.Valid() && s.openDropdown.None?
    modifies s
    ensures s.Valid() && s.openDropdown.None? && s.active == {} && s.expanded == {} && !s.clickMode
    ensures s.panelCache == CacheAfterLoad(old(s.panelCache), panel, response)
  {
    var first := s.ToggleClick(li, toggleButton, panel, response, false);
    var second := s.ToggleClick(li, toggleButton, panel, None, false);
  }
}
