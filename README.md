# Super Navigation Suite: a Dafny model

A Discourse plugin. A navigation configuration (menus, sidebars, discovery
blocks) is stored as JSON. The plugin normalises that configuration, prunes
it for the viewer through per-node visibility rules, and serves topic feeds
for "panels" embedded in menu items. A theme script renders the menu, keeps
one dropdown open at a time and caches panel payloads in the browser.

The model covers five parts of that system:

- `visibility.dfy` (module `VisibilityResolver`): the viewer context and the
  `allowed?` check over the four supported rule keys.
- `config_store.dfy` (module `ConfigStore`): `raw_json`, `valid_json?`,
  `normalize_config` and everything under it (menus, items, panels, generic
  entities, `safe_enum`, `sanitize_url`, `resolve_url`).
- `config_filter.dfy` (module `ConfigFilter`): `visible_config` and the
  per-viewer pruning of menus, items, sidebars and blocks, with
  `resolve_url_for_user`.
- `topic_query.dfy` (module `TopicQuery`): parameter normalisation, the five
  feed sources, time windows, ordering and limit, serialisation, the cache
  key, and the read-through cache, a class holding a `map`.
- `client.dfy` (module `NavigationClient`): the theme script's `hasDropdown`,
  `pickMenu`, `panelCacheKey`, `parseRouteAllowlist` and `routeAllowed`. The
  class `NavState` holds the open dropdown, the is-open and aria-expanded
  marks, click mode and the panel cache. Its methods are the script's
  `closeCurrentDropdown`, `openDropdown`, `loadPanel` and toggle-click
  handler.

Two support files carry no source logic of their own.

- `ruby_json.dfy` (module `RubyJson`) holds the JSON value type as
  `JSON.parse` produces it. It also models the Ruby conversions the source
  relies on: `to_i`, `to_s`, `presence`/`blank?`, `Array()`, `strip`,
  `downcase` and `Hash#[]`. A Ruby exception is a `Raised` result.
- `collaborators.dfy` (module `Collaborators`) gathers what the core calls
  but does not define: users, categories and topics, `Guardian#can_see?`,
  `Category.find_by`, `Topic.find_by`, `URI.parse`, `JSON.parse`,
  `String#titleize` and the `max_panel_items` site setting. These are
  parameters of the model (an `Env` value).

The server code is pure transformation. It becomes functions on datatypes.
Two pieces keep state: the server's panel cache and the browser script's
`state` object. Those become classes whose methods say exactly how their
fields change.

## Model

| member | source | states |
|---|---|---|
| RubyJson.Get | discourse-super-navigation-suite/lib/discourse_super_navigation_suite/config_store.rb:125 | `Hash#[]` on a parsed object: the value of a member with the key, or nil when there is none |
| RubyJson.Index | discourse-super-navigation-suite/lib/discourse_super_navigation_suite/config_store.rb:209 | `[]` on any JSON value: a hash gives its member; nil and booleans raise NoMethodError; integers and arrays raise TypeError |
| RubyJson.ToS | discourse-super-navigation-suite/lib/discourse_super_navigation_suite/config_store.rb:227 | `to_s`: nil gives "", a string itself, a boolean "true" or "false", and an integer a numeral that `to_i` reads back as the same integer |
| RubyJson.ToI | discourse-super-navigation-suite/lib/discourse_super_navigation_suite/config_store.rb:133 | `to_i` gives 0 for nil, an integer itself and the leading numeral of a string, and raises on booleans, arrays and hashes |
| RubyJson.ArrayOf | discourse-super-navigation-suite/lib/discourse_super_navigation_suite/config_store.rb:113 | `Array()`: nil gives [], an array itself, a hash its [key, value] pairs, any other value a one-element list |
| RubyJson.PresentStr | discourse-super-navigation-suite/lib/discourse_super_navigation_suite/config_store.rb:150-153 | `presence` on a string: the string iff it is not blank |
| RubyJson.Strip | discourse-super-navigation-suite/lib/discourse_super_navigation_suite/config_store.rb:281 | the result neither starts nor ends with a strip character and is the part of the input after its leading ones |
| RubyJson.StripOnlyStripChars | discourse-super-navigation-suite/lib/discourse_super_navigation_suite/config_store.rb:281 | everything `strip` removes, at either end, is a strip character |
| RubyJson.Downcase | lib/discourse_super_navigation_suite/visibility_resolver.rb:11 | ASCII letters are lower-cased one for one, every other character kept |
| VisibilityResolver.BuildContext | lib/discourse_super_navigation_suite/visibility_resolver.rb:7-13 | an anonymous viewer has trust level 0 and no groups; a signed-in viewer keeps its trust level and its group names lower-cased one for one |
| VisibilityResolver.NormalizeVisibility | lib/discourse_super_navigation_suite/visibility_resolver.rb:34-40 | a non-hash gives the empty rule; a hash gives its supported-key slice; it raises exactly when trust_level_min is present and `to_i` raises on it |
| VisibilityResolver.NormalizeVisibilityKeepsSupported | lib/discourse_super_navigation_suite/visibility_resolver.rb:34-40 | the normalised hash has exactly the supported keys of the input with the same values, trust_level_min converted by `to_i` |
| VisibilityResolver.NormalizeVisibilityIdempotent | lib/discourse_super_navigation_suite/visibility_resolver.rb:34-40 | normalising an already normalised rule gives it back unchanged |
| VisibilityResolver.Allowed | lib/discourse_super_navigation_suite/visibility_resolver.rb:15-32 | `allowed?` raises exactly when normalisation raises, and otherwise evaluates the normalised rule |
| VisibilityResolver.AllowedOnNormalized | lib/discourse_super_navigation_suite/visibility_resolver.rb:15-17 | re-checking an already normalised rule never raises and gives the rule's verdict |
| VisibilityResolver.AllowedWithoutRule | lib/discourse_super_navigation_suite/visibility_resolver.rb:16-17 | a non-hash, or a hash with none of the four keys, admits every viewer |
| VisibilityResolver.Evaluate | lib/discourse_super_navigation_suite/visibility_resolver.rb:17-31 | the rule without keys admits every viewer; an admitted viewer meets the trust level, is signed in under logged_in_only and signed out under logged_out_only |
| VisibilityResolver.EvaluateIff | lib/discourse_super_navigation_suite/visibility_resolver.rb:17-31 | a viewer passes iff it passes all four checks; the `empty?` early return changes no verdict |
| VisibilityResolver.LoggedInOnlyDeniesAnonymous | lib/discourse_super_navigation_suite/visibility_resolver.rb:21 | a truthy logged_in_only denies an anonymous viewer |
| VisibilityResolver.LoggedOutOnlyDeniesSignedIn | lib/discourse_super_navigation_suite/visibility_resolver.rb:22 | a truthy logged_out_only denies a signed-in viewer |
| VisibilityResolver.TrustLevelMinDenies | lib/discourse_super_navigation_suite/visibility_resolver.rb:23 | a trust_level_min above the viewer's trust level denies |
| VisibilityResolver.GroupsRequireMembership | lib/discourse_super_navigation_suite/visibility_resolver.rb:25-29 | with a non-blank required group, a viewer who passes is signed in and shares a group |
| VisibilityResolver.EvaluateMonotone | lib/discourse_super_navigation_suite/visibility_resolver.rb:21-31 | more trust and more groups never take access away when the signed-in state is the same |
| VisibilityResolver.GroupCheckIgnoresCase | lib/discourse_super_navigation_suite/visibility_resolver.rb:11-28 | a viewer shares a required group iff the lower-cased name of one of its groups equals the lower-cased, non-blank `to_s` of some entry of `groups` |
| VisibilityResolver.ExampleNoRules | spec/lib/discourse_super_navigation_suite/visibility_resolver_spec.rb:7-10 | no rule: an anonymous viewer is admitted |
| VisibilityResolver.ExampleLoggedInOnly | spec/lib/discourse_super_navigation_suite/visibility_resolver_spec.rb:12-17 | logged_in_only hides the node from an anonymous viewer |
| VisibilityResolver.ExampleTrustLevel | spec/lib/discourse_super_navigation_suite/visibility_resolver_spec.rb:19-24 | trust_level_min 2 hides the node from a trust level 1 viewer |
| VisibilityResolver.ExampleGroups | spec/lib/discourse_super_navigation_suite/visibility_resolver_spec.rb:26-31 | groups ["staff"] admits a viewer in staff and mods |
| ConfigStore.SafeEnum | discourse-super-navigation-suite/lib/discourse_super_navigation_suite/config_store.rb:226-228 | the result is the value's `to_s` exactly when that is accepted (or equals the fallback), otherwise the fallback; with an accepted fallback it is always accepted |
| ConfigStore.SanitizeUrl | discourse-super-navigation-suite/lib/discourse_super_navigation_suite/config_store.rb:280-291 | a URL is kept, stripped, iff it is non-blank and either starts with "/" or has scheme http, https, mailto or tel |
| ConfigStore.SanitizeUrlIdempotent | discourse-super-navigation-suite/lib/discourse_super_navigation_suite/config_store.rb:280-291 | sanitising a sanitised URL gives it back |
| ConfigStore.SanitizeUrlBlank | discourse-super-navigation-suite/lib/discourse_super_navigation_suite/config_store.rb:281-282 | a blank string (white space in the Unicode sense `blank?` uses) is dropped |
| ConfigStore.FindCategory | discourse-super-navigation-suite/lib/discourse_super_navigation_suite/config_store.rb:268-274 | raises iff `category_id.to_i` raises; a positive id gives the category found by that id; otherwise a present slug gives the category found by that slug; otherwise nothing |
| ConfigStore.FindTopic | discourse-super-navigation-suite/lib/discourse_super_navigation_suite/config_store.rb:276-278 | raises iff `topic_id.to_i` raises; a positive id gives the topic found by that id; otherwise nothing |
| ConfigStore.ResolveUrl | discourse-super-navigation-suite/lib/discourse_super_navigation_suite/config_store.rb:230-246 | always in sanitised form; link and external_link give the sanitised url; category gives "/c/<slug>/<id>" of the found category, else the url, and raises iff its lookup raises; tag gives "/tag/<tag>" for a present tag, else the url; topic gives the found topic's relative URL, else the url, and raises iff its lookup raises; section_heading and divider give nothing |
| ConfigStore.ResolveUrlFixed | discourse-super-navigation-suite/lib/discourse_super_navigation_suite/config_store.rb:230-246 | a resolved URL is a fixed point of `sanitize_url` |
| ConfigStore.ResolveUrlTag | discourse-super-navigation-suite/lib/discourse_super_navigation_suite/config_store.rb:237-239 | a tag item resolves to "/tag/<tag>" when the tag is present, else to its sanitised url |
| ConfigStore.ResolveUrlTagless | discourse-super-navigation-suite/lib/discourse_super_navigation_suite/config_store.rb:237-239 | a tag item with a blank tag falls back to its sanitised url |
| ConfigStore.NormalizePanel | discourse-super-navigation-suite/lib/discourse_super_navigation_suite/config_store.rb:167-185 | a non-hash gives no panel; it raises iff `limit.to_i` or `category_id.to_i` raises; source_type and time_range are `safe_enum` of the input with fallbacks latest and weekly; the limit is 6 for a non-positive value, then capped by max_panel_items; category_id is kept iff positive; slug and tag are the present `to_s` of the input; the display flags are false only for an explicit false |
| ConfigStore.ChildId | discourse-super-navigation-suite/lib/discourse_super_navigation_suite/config_store.rb:135-161 | generated ids are never blank |
| ConfigStore.ChildIdInjective | discourse-super-navigation-suite/lib/discourse_super_navigation_suite/config_store.rb:135-161 | siblings get distinct generated ids |
| ConfigStore.NormalizeItem | discourse-super-navigation-suite/lib/discourse_super_navigation_suite/config_store.rb:139-165 | the item is well formed (accepted type, sanitised URLs, no URL for headings and dividers, present strings, well-formed panel, recursively), keeps its id or the generated one, has one child per source child, its url is the sanitised source url and its resolved_url is `resolve_url` of its coerced type; the title is the `to_s` of the input; icon, image_url and the two css fields are its present `to_s`; visibility is the normalised rule; panel is `normalize_panel` of the input |
| ConfigStore.NormalizeItemChildren | discourse-super-navigation-suite/lib/discourse_super_navigation_suite/config_store.rb:159-162 | the children of a normalised item are its input children normalised in order under the item's own id |
| ConfigStore.NormalizeItemRaises | discourse-super-navigation-suite/lib/discourse_super_navigation_suite/config_store.rb:139-165 | an item raises iff its resolve_url, its visibility rule, its panel or one of its children raises |
| ConfigStore.NormalizeItems | discourse-super-navigation-suite/lib/discourse_super_navigation_suite/config_store.rb:159-162 | one well-formed item per input, each with its own id or the positional id "<parent>-<n>" |
| ConfigStore.NormalizeItemsIsMap | discourse-super-navigation-suite/lib/discourse_super_navigation_suite/config_store.rb:159-162 | the list is `map.with_index(1)` of `normalize_item` under the parent id, raised error included |
| ConfigStore.NormalizeItemsAt | discourse-super-navigation-suite/lib/discourse_super_navigation_suite/config_store.rb:159-162 | the i-th normalised child is `normalize_item` of the i-th input child with the generated id "<parent>-<i+1>" |
| ConfigStore.MenuLabel | discourse-super-navigation-suite/lib/discourse_super_navigation_suite/config_store.rb:129 | a present label is kept; a blank one is the titleized menu id; a blank label with a non-string id raises NoMethodError |
| ConfigStore.NormalizeMenu | discourse-super-navigation-suite/lib/discourse_super_navigation_suite/config_store.rb:123-137 | the menu is well formed (enums accepted, hover delay in 0..1000, items well formed) with id or "menu-<n>"; positional item ids; a blank label with a non-string id raises NoMethodError from `titleize`; the value of every other field is stated by NormalizeMenuFields |
| ConfigStore.NormalizeMenuFields | discourse-super-navigation-suite/lib/discourse_super_navigation_suite/config_store.rb:123-137 | the label is the given one or the titleized id; placement, layout and open_mode are `safe_enum` of the input with fallbacks top_nav, mega_grid and hover; the delay is its `to_i` clamped to 0..1000; visibility is the normalised rule; the items are the input items normalised under the menu id; it raises iff the label, the delay, the rule or an item raises |
| ConfigStore.NormalizeMenus | discourse-super-navigation-suite/lib/discourse_super_navigation_suite/config_store.rb:113 | one menu per input, each `normalize_menu` of that input at its index, numbered from 1 |
| ConfigStore.NormalizeMenusAllOk | discourse-super-navigation-suite/lib/discourse_super_navigation_suite/config_store.rb:113 | the list raises iff one of its menus raises |
| ConfigStore.NormalizeGenericEntity | discourse-super-navigation-suite/lib/discourse_super_navigation_suite/config_store.rb:187-190 | only visibility is replaced, by its normalised form; every other key is kept; raises iff the visibility normalisation raises |
| ConfigStore.NormalizeEntities | discourse-super-navigation-suite/lib/discourse_super_navigation_suite/config_store.rb:118-119 | element-wise normalisation of sidebars and blocks |
| ConfigStore.NormalizeEntitiesAllOk | discourse-super-navigation-suite/lib/discourse_super_navigation_suite/config_store.rb:118-119 | the list raises iff one of its entities raises |
| ConfigStore.MergedGet | discourse-super-navigation-suite/lib/discourse_super_navigation_suite/config_store.rb:112 | a key of the input merged over DEFAULT_CONFIG: the value of a member with the key when the input has one, else the default |
| ConfigStore.NormalizeConfig | discourse-super-navigation-suite/lib/discourse_super_navigation_suite/config_store.rb:111-121 | the version is the merged version's `to_i`, or 1 when that is 0, never 0; menus, sidebars and discovery blocks are exactly the normalised lists of `Array()` of the merged input; it raises iff one of those lists or the version's `to_i` raises |
| ConfigStore.NormalizeDefaultConfig | discourse-super-navigation-suite/lib/discourse_super_navigation_suite/config_store.rb:30-121 | the default configuration normalises to itself |
| ConfigStore.RawJson | discourse-super-navigation-suite/lib/discourse_super_navigation_suite/config_store.rb:38-40 | the active profile's JSON if not blank, else the site setting if not blank, else the JSON of DEFAULT_CONFIG; never blank |
| ConfigStore.NormalizedConfig | discourse-super-navigation-suite/lib/discourse_super_navigation_suite/config_store.rb:86-96 | unparsable JSON gives the default configuration; parsable JSON gives `normalize_config` of the parsed value; the version is never 0 |
| ConfigStore.ValidJson | discourse-super-navigation-suite/lib/discourse_super_navigation_suite/config_store.rb:42-50 | text that does not parse, or parses to something other than a hash, is invalid; a valid document's version goes through `to_i` |
| ConfigStore.ValidJsonIff | discourse-super-navigation-suite/lib/discourse_super_navigation_suite/config_store.rb:42-50 | valid iff the text parses to a hash whose version goes through `to_i` and whose every menu, sidebar and discovery block normalises |
| ConfigStore.ItemToJson | discourse-super-navigation-suite/lib/discourse_super_navigation_suite/config_store.rb:144-157 | a normalised item is a hash with exactly the twelve keys built there |
| ConfigStore.LookupsOnNormalizedItem | discourse-super-navigation-suite/lib/discourse_super_navigation_suite/config_store.rb:144-157 | category and topic lookups on a normalised item find nothing, since it no longer has category_id, category_slug or topic_id |
| ConfigStore.NormalizeItemNotIdempotent | discourse-super-navigation-suite/lib/discourse_super_navigation_suite/config_store.rb:237-239 | a tag item's resolved URL is lost when its normalised form is normalised again |
| ConfigStore.RenormalizedTagItem | discourse-super-navigation-suite/lib/discourse_super_navigation_suite/config_store.rb:237-239 | renormalising any normalised tag item leaves it without a resolved URL |
| ConfigStore.ItemToJsonType | discourse-super-navigation-suite/lib/discourse_super_navigation_suite/config_store.rb:147 | the hash's type is the item's type |
| ConfigStore.ItemToJsonUrl | discourse-super-navigation-suite/lib/discourse_super_navigation_suite/config_store.rb:148 | the hash's url is the item's url |
| ConfigStore.ItemToJsonResolvedUrl | discourse-super-navigation-suite/lib/discourse_super_navigation_suite/config_store.rb:149 | the hash's resolved_url is the item's resolved URL |
| ConfigStore.ExampleValidVersionOnly | discourse-super-navigation-suite/spec/lib/discourse_super_navigation_suite/config_store_spec.rb:7-9 | `{"version":1}` is valid |
| ConfigStore.ExampleMenusNotAList | discourse-super-navigation-suite/spec/lib/discourse_super_navigation_suite/config_store_spec.rb:15-18 | a hash whose menus is a string is still valid |
| ConfigStore.ExampleBooleanVersion | discourse-super-navigation-suite/lib/discourse_super_navigation_suite/config_store.rb:42-50 | a boolean version makes `to_i` raise, so the JSON is not valid |
| ConfigFilter.ResolveUrlForUser | discourse-super-navigation-suite/lib/discourse_super_navigation_suite/config_store.rb:248-266 | a category or topic URL is present iff the lookup finds an entity the viewer can see, and is then "/c/<slug>/<id>" or the topic's relative URL; only those lookups raise; every other type gives `sanitize_url(resolved_url \|\| url)` |
| ConfigFilter.ResolveUrlOnNormalizedItem | discourse-super-navigation-suite/lib/discourse_super_navigation_suite/config_store.rb:248-266 | on a normalised item, category and topic items get no URL; every other item gets its sanitised resolved_url, else url |
| ConfigFilter.ResolveUrlOfFixedUrls | discourse-super-navigation-suite/lib/discourse_super_navigation_suite/config_store.rb:264 | already-sanitised URLs pass through unchanged |
| ConfigFilter.NormalizedUrlsFixed | discourse-super-navigation-suite/lib/discourse_super_navigation_suite/config_store.rb:148-149 | the URLs of a normalised item are fixed points of `sanitize_url` |
| ConfigFilter.LinkUrlUnchanged | discourse-super-navigation-suite/lib/discourse_super_navigation_suite/config_store.rb:248-266 | a link's viewer URL is exactly the URL normalisation resolved |
| ConfigFilter.ViewerUrl | discourse-super-navigation-suite/lib/discourse_super_navigation_suite/config_store.rb:248-266 | category and topic items reach the viewer without a URL |
| ConfigFilter.VisibleItem | discourse-super-navigation-suite/lib/discourse_super_navigation_suite/config_store.rb:213-224 | a denied item is dropped; an allowed item is dropped only as a divider without children or panel; kept items keep every field except children and resolved URL, their children are an order-preserving selection of the source children, the tree is pruned, and the resolved URL is the viewer's |
| ConfigFilter.VisibleItemShape | discourse-super-navigation-suite/lib/discourse_super_navigation_suite/config_store.rb:213-224 | an item is dropped iff it is denied or is a divider left with no children and no panel; a kept item is the item with its children filtered recursively and its resolved URL recomputed for the viewer, nothing else changed |
| ConfigFilter.VisibleItems | discourse-super-navigation-suite/lib/discourse_super_navigation_suite/config_store.rb:216 | the kept items are an order-preserving selection, each a pruned tree |
| ConfigFilter.VisibleItemsCompact | discourse-super-navigation-suite/lib/discourse_super_navigation_suite/config_store.rb:216 | the kept items are exactly the non-nil `visible_item` answers, in order: nothing allowed is lost and nothing else is kept |
| ConfigFilter.VisibleMenu | discourse-super-navigation-suite/lib/discourse_super_navigation_suite/config_store.rb:192-199 | a menu is kept iff it is allowed and some item survives; only its items change, to exactly its filtered items, each a pruned tree |
| ConfigFilter.VisibleMenus | discourse-super-navigation-suite/lib/discourse_super_navigation_suite/config_store.rb:70 | the kept menus are an order-preserving selection, each allowed and non-empty |
| ConfigFilter.VisibleMenusCompact | discourse-super-navigation-suite/lib/discourse_super_navigation_suite/config_store.rb:70 | the kept menus are exactly the non-nil `visible_menu` answers, in order |
| ConfigFilter.VisibleBlock | discourse-super-navigation-suite/lib/discourse_super_navigation_suite/config_store.rb:208-211 | a block is kept, unchanged, iff its rule admits the viewer; it raises iff indexing it or normalising its rule raises |
| ConfigFilter.VisibleBlocks | discourse-super-navigation-suite/lib/discourse_super_navigation_suite/config_store.rb:204-211 | the kept blocks are an order-preserving selection of admitted blocks; no raise when no block raises |
| ConfigFilter.VisibleBlocksCompact | discourse-super-navigation-suite/lib/discourse_super_navigation_suite/config_store.rb:72 | the kept blocks are exactly the non-nil `visible_block` answers, in order |
| ConfigFilter.VisibleSidebar | discourse-super-navigation-suite/lib/discourse_super_navigation_suite/config_store.rb:201-206 | a sidebar is kept iff its rule admits the viewer; then only widgets changes, to exactly the widgets `visible_block` keeps; it raises iff its rule raises or, when admitted, it is not a hash or a widget raises |
| ConfigFilter.VisibleSidebars | discourse-super-navigation-suite/lib/discourse_super_navigation_suite/config_store.rb:71 | no more sidebars than in the source, each a hash |
| ConfigFilter.VisibleSidebarsAllOk | discourse-super-navigation-suite/lib/discourse_super_navigation_suite/config_store.rb:71 | the list raises iff one of its sidebars raises |
| ConfigFilter.VisibleSidebarsCompact | discourse-super-navigation-suite/lib/discourse_super_navigation_suite/config_store.rb:71 | the kept sidebars are exactly the non-nil `visible_sidebar` answers, in order |
| ConfigFilter.VisibleConfig | discourse-super-navigation-suite/lib/discourse_super_navigation_suite/config_store.rb:64-74 | the version is carried over; menus, sidebars and blocks are exactly the filtered lists of the normalised document for the viewer's context; it raises iff filtering the sidebars or the blocks raises |
| ConfigFilter.VisibleConfigFor | discourse-super-navigation-suite/lib/discourse_super_navigation_suite/config_store.rb:64-96 | the visible document's version is never 0 |
| ConfigFilter.ExampleTrustFilter | discourse-super-navigation-suite/spec/lib/discourse_super_navigation_suite/config_store_spec.rb:24-48 | a trust level 2 viewer sees only the unrestricted item of a menu whose other item needs trust level 3 |
| ConfigFilter.ExampleSanitizeRelative | discourse-super-navigation-suite/spec/lib/discourse_super_navigation_suite/config_store_spec.rb:57-67 | "/latest" is kept as it is |
| ConfigFilter.ExampleSanitizeScript | discourse-super-navigation-suite/spec/lib/discourse_super_navigation_suite/config_store_spec.rb:58-68 | "javascript:alert(1)" is dropped |
| ConfigFilter.SanitizeTrimmed | discourse-super-navigation-suite/lib/discourse_super_navigation_suite/config_store.rb:280-291 | a trimmed non-blank string is kept iff it starts with "/" or has an accepted scheme |
| ConfigFilter.ExampleUnsafeLink | discourse-super-navigation-suite/spec/lib/discourse_super_navigation_suite/config_store_spec.rb:50-69 | a link to "javascript:alert(1)" reaches the viewer without a URL |
| ConfigFilter.ReadyBlocksFilter | discourse-super-navigation-suite/lib/discourse_super_navigation_suite/config_store.rb:208-211 | blocks that are hashes with a normalised rule never raise |
| ConfigFilter.ReadySidebarsFilter | discourse-super-navigation-suite/lib/discourse_super_navigation_suite/config_store.rb:201-206 | sidebars whose widgets are such blocks never raise |
| ConfigFilter.VisibleConfigTotal | discourse-super-navigation-suite/lib/discourse_super_navigation_suite/config_store.rb:64-74 | with such sidebars and blocks, `visible_config` cannot raise |
| ConfigFilter.GenericEntityReady | discourse-super-navigation-suite/lib/discourse_super_navigation_suite/config_store.rb:187-190 | a normalised generic entity is a block that cannot raise |
| ConfigFilter.RawWidgetBreaksSidebar | discourse-super-navigation-suite/lib/discourse_super_navigation_suite/config_store.rb:187-211 | a sidebar whose widgets are [null] normalises, then raises NoMethodError when shown |
| ConfigFilter.ValidJsonDoesNotMeanRenderable | discourse-super-navigation-suite/lib/discourse_super_navigation_suite/config_store.rb:42-74 | `{"sidebars":[{"widgets":[null]}]}` is valid, yet `visible_config` raises for every viewer |
| ConfigFilter.SidebarsOnly | discourse-super-navigation-suite/lib/discourse_super_navigation_suite/config_store.rb:111-121 | a configuration with only one sidebar normalises to version 1, that sidebar normalised, nothing else |
| ConfigFilter.NormalizeSidebar | discourse-super-navigation-suite/lib/discourse_super_navigation_suite/config_store.rb:187-206 | the corrected sidebar normalisation also normalises every widget, so the result can always be shown |
| ConfigFilter.NormalizedSidebarRenders | discourse-super-navigation-suite/lib/discourse_super_navigation_suite/config_store.rb:201-206 | a sidebar so normalised never raises when shown |
| ConfigFilter.NullWidgetNormalizes | discourse-super-navigation-suite/lib/discourse_super_navigation_suite/config_store.rb:187-190 | the corrected normalisation accepts the [null] widget list |
| TopicQuery.NormalizeSourceType | discourse-super-navigation-suite/lib/discourse_super_navigation_suite/topic_query.rb:159-162 | an allowed source is kept; anything else becomes latest |
| TopicQuery.NormalizeTimeRange | discourse-super-navigation-suite/lib/discourse_super_navigation_suite/topic_query.rb:164-167 | a known range is kept; anything else becomes weekly |
| TopicQuery.NormalizeLimit | discourse-super-navigation-suite/lib/discourse_super_navigation_suite/topic_query.rb:47-49 | the limit is the least of the request (6 when it is not positive), max_panel_items and 40: never more than any of them and equal to one of them; so an in-range request is kept, and a request and setting both above 40 give 40 |
| TopicQuery.NormalizeParams | discourse-super-navigation-suite/lib/discourse_super_navigation_suite/topic_query.rb:46-59 | source and range are the normalised request values; the limit is the normalised limit; category_id is present iff the requested one is positive, and is then that number; slug and tag are their present strings |
| TopicQuery.ExampleUnsupportedParams | spec/requests/navigation_controller_spec.rb:39-49 | unknown source, bad range and limit 999 become latest, weekly and max_panel_items |
| TopicQuery.NormalizeParamsIdempotent | discourse-super-navigation-suite/lib/discourse_super_navigation_suite/topic_query.rb:46-59 | normalising the normalised parameters again changes nothing |
| TopicQuery.Filter | discourse-super-navigation-suite/lib/discourse_super_navigation_suite/topic_query.rb:85-123 | a `where`: keeps exactly the topics satisfying the condition, no new ones |
| TopicQuery.Insert | discourse-super-navigation-suite/lib/discourse_super_navigation_suite/topic_query.rb:76-88 | inserting into a sorted list keeps it sorted and adds exactly the one topic |
| TopicQuery.Sort | discourse-super-navigation-suite/lib/discourse_super_navigation_suite/topic_query.rb:76-88 | `order`: the result is sorted and a permutation of its input |
| TopicQuery.Take | discourse-super-navigation-suite/lib/discourse_super_navigation_suite/topic_query.rb:33 | `limit(n)`: the first min(n, size) topics, none for n <= 0 |
| TopicQuery.TakeKeepsTop | discourse-super-navigation-suite/lib/discourse_super_navigation_suite/topic_query.rb:33 | the limited list stays sorted and every kept topic precedes every dropped one |
| TopicQuery.FindCategory | discourse-super-navigation-suite/lib/discourse_super_navigation_suite/topic_query.rb:106-117 | with an id: found iff the category with that id exists and the viewer can see it, and then it is that category; otherwise with a slug: the same for the slug; with neither: nothing |
| TopicQuery.ScopedByCategory | discourse-super-navigation-suite/lib/discourse_super_navigation_suite/topic_query.rb:92-97 | no category gives nothing; otherwise exactly the scope's topics in that category |
| TopicQuery.ScopedByTag | discourse-super-navigation-suite/lib/discourse_super_navigation_suite/topic_query.rb:99-104 | a blank tag gives nothing; otherwise exactly the scope's topics with that tag |
| TopicQuery.ApplyTimeRangeAsWritten | discourse-super-navigation-suite/lib/discourse_super_navigation_suite/topic_query.rb:119-124 | as written: keeps exactly the scope topics bumped within the window, "all" included, so an old topic is dropped under "all" |
| TopicQuery.WindowAsWritten | discourse-super-navigation-suite/lib/discourse_super_navigation_suite/topic_query.rb:120 | as written, every range has a window, "all" included |
| TopicQuery.Window | discourse-super-navigation-suite/lib/discourse_super_navigation_suite/topic_query.rb:9-16 | corrected: only "all" has no window; the others agree with the code |
| TopicQuery.Since | discourse-super-navigation-suite/lib/discourse_super_navigation_suite/topic_query.rb:121-123 | no window keeps the scope; a window keeps exactly the topics bumped within it |
| TopicQuery.ApplyTimeRange | discourse-super-navigation-suite/lib/discourse_super_navigation_suite/topic_query.rb:119-124 | corrected: "all" keeps the whole scope; other ranges behave as written |
| TopicQuery.AllRangeDropsOldTopics | discourse-super-navigation-suite/lib/discourse_super_navigation_suite/topic_query.rb:120-121 | as written, "all" drops a topic bumped over a week ago, which the corrected version keeps |
| TopicQuery.Selected | discourse-super-navigation-suite/lib/discourse_super_navigation_suite/topic_query.rb:74-90 | each source selects from the scope and adds nothing |
| TopicQuery.ApplySource | discourse-super-navigation-suite/lib/discourse_super_navigation_suite/topic_query.rb:74-90 | the result is the source's selection, sorted by bumped_at or by likes, views and posts, as a permutation |
| TopicQuery.ApplySourceWithinScope | discourse-super-navigation-suite/lib/discourse_super_navigation_suite/topic_query.rb:74-90 | the result never holds a topic more often than the scope does |
| TopicQuery.SourceFilters | discourse-super-navigation-suite/lib/discourse_super_navigation_suite/topic_query.rb:76-88 | featured keeps the pinned topics; category_latest the topics of the visible category; category_top the topics of the visible category within the time window; tag_latest the tagged topics; latest the topics within the time window |
| TopicQuery.MissingCategoryEmpties | discourse-super-navigation-suite/lib/discourse_super_navigation_suite/topic_query.rb:92-94 | a category source without a visible category yields no topics |
| TopicQuery.SerializeTopic | discourse-super-navigation-suite/lib/discourse_super_navigation_suite/topic_query.rb:126-150 | the card carries the topic's id and URL; featured topics have no excerpt |
| TopicQuery.SerializeAll | discourse-super-navigation-suite/lib/discourse_super_navigation_suite/topic_query.rb:37 | one card per topic, in order |
| TopicQuery.Compute | discourse-super-navigation-suite/lib/discourse_super_navigation_suite/topic_query.rb:33-38 | the payload echoes the parameters and holds the first `limit` topics of the source, serialised |
| TopicQuery.CacheKeyFor | discourse-super-navigation-suite/lib/discourse_super_navigation_suite/topic_query.rb:61-65 | the key is "sns:panel:v1:user:", then the viewer key, then ":", then the digest of the normalised parameters |
| TopicQuery.CacheKeySeparates | discourse-super-navigation-suite/lib/discourse_super_navigation_suite/topic_query.rb:61-65 | equal cache keys, for digests of one length, mean the same viewer key and the same digest |
| TopicQuery.UserKeyInjective | discourse-super-navigation-suite/lib/discourse_super_navigation_suite/topic_query.rb:62 | anonymous and signed-in viewers never share a key; signed-in viewers share one only with the same id |
| TopicQuery.NotAnon | discourse-super-navigation-suite/lib/discourse_super_navigation_suite/topic_query.rb:62 | no user id prints as "anon" |
| TopicQuery.PanelFeedCache.constructor | discourse-super-navigation-suite/lib/discourse_super_navigation_suite/topic_query.rb:32 | the cache starts empty |
| TopicQuery.PanelFeedCache.Fetch | discourse-super-navigation-suite/lib/discourse_super_navigation_suite/topic_query.rb:28-40 | a hit returns the stored payload and changes nothing; a miss computes the payload, stores it under the key and returns it; every payload respects the limit |
| NavigationClient.PrunedDividersHaveDropdowns | discourse-super-navigation-suite-theme/javascripts/api-initializers/super-navigation-suite.js:9-11 | every divider the server keeps has something to open |
| NavigationClient.FirstWithPlacement | discourse-super-navigation-suite-theme/javascripts/api-initializers/super-navigation-suite.js:19 | the first menu with the placement, none before it; none iff no menu has it |
| NavigationClient.HasDropdown | discourse-super-navigation-suite-theme/javascripts/api-initializers/super-navigation-suite.js:9-11 | an item with a panel has a dropdown; an item without a panel has one only when it has children |
| NavigationClient.PickMenu | discourse-super-navigation-suite-theme/javascripts/api-initializers/super-navigation-suite.js:13-21 | no menu iff there is no config, no menus or an empty list; when some menu has the placement, the first such menu; when none has it, the first menu of the list |
| NavigationClient.PanelCacheKey | discourse-super-navigation-suite-theme/javascripts/api-initializers/super-navigation-suite.js:23-32 | the key carries the source type, category slug and id, tag, time range and limit of the panel, and nothing else |
| NavigationClient.PanelCacheKeyFields | discourse-super-navigation-suite-theme/javascripts/api-initializers/super-navigation-suite.js:23-32 | two panels share a key iff all fields but the two display flags agree |
| NavigationClient.Split | discourse-super-navigation-suite-theme/javascripts/api-initializers/super-navigation-suite.js:50 | at least one piece, none containing a newline or comma |
| NavigationClient.SplitJoin | discourse-super-navigation-suite-theme/javascripts/api-initializers/super-navigation-suite.js:50 | putting the input's separators back between the pieces gives the input, with one piece more than separators, so the cuts fall exactly at the separators |
| NavigationClient.SplitNoSeparator | discourse-super-navigation-suite-theme/javascripts/api-initializers/super-navigation-suite.js:50 | a string without separators splits to itself |
| NavigationClient.Trim | discourse-super-navigation-suite-theme/javascripts/api-initializers/super-navigation-suite.js:51 | the result is the slice of the input that starts after its leading white space, with no white space at either end |
| NavigationClient.TrimOnlySpace | discourse-super-navigation-suite-theme/javascripts/api-initializers/super-navigation-suite.js:51 | everything trimming removes, before and after the kept slice, is white space |
| NavigationClient.TrimNoSeparator | discourse-super-navigation-suite-theme/javascripts/api-initializers/super-navigation-suite.js:51 | trimming adds no separator |
| NavigationClient.Entries | discourse-super-navigation-suite-theme/javascripts/api-initializers/super-navigation-suite.js:51-52 | every entry is non-empty and trimmed; that every such piece gives an entry, in order, is stated by EntriesComplete and EntriesInOrder |
| NavigationClient.EntriesComplete | discourse-super-navigation-suite-theme/javascripts/api-initializers/super-navigation-suite.js:51-52 | every piece that does not trim to nothing gives an entry |
| NavigationClient.EntriesInOrder | discourse-super-navigation-suite-theme/javascripts/api-initializers/super-navigation-suite.js:51-52 | the entries are the trimmed pieces, the empty ones dropped, in order |
| NavigationClient.EntriesFromParts | discourse-super-navigation-suite-theme/javascripts/api-initializers/super-navigation-suite.js:51-52 | every entry is the trimmed form of some piece |
| NavigationClient.ParseRouteAllowlist | discourse-super-navigation-suite-theme/javascripts/api-initializers/super-navigation-suite.js:47-53 | the entries are exactly non-empty, trimmed and free of separators, and none of the non-empty pieces is lost |
| NavigationClient.ParseRouteAllowlistInOrder | discourse-super-navigation-suite-theme/javascripts/api-initializers/super-navigation-suite.js:47-53 | the allow-list is the setting's pieces between newlines and commas, each trimmed, the empty ones dropped, in order |
| NavigationClient.AnyMatch | discourse-super-navigation-suite-theme/javascripts/api-initializers/super-navigation-suite.js:62-66 | true iff some entry matches: a trailing "*" by prefix, otherwise exactly |
| NavigationClient.RouteAllowed | discourse-super-navigation-suite-theme/javascripts/api-initializers/super-navigation-suite.js:55-67 | a route is allowed iff the list is empty, holds "*", or has an entry matching the path |
| NavigationClient.StarMatchesEverything | discourse-super-navigation-suite-theme/javascripts/api-initializers/super-navigation-suite.js:58-64 | the "*" shortcut agrees with prefix matching |
| NavigationClient.CacheHitIgnoresServer | discourse-super-navigation-suite-theme/javascripts/api-initializers/super-navigation-suite.js:203-206 | a cached key renders the cached payload without a request and leaves the cache alone |
| NavigationClient.CacheOnlyGrowsOnSuccess | discourse-super-navigation-suite-theme/javascripts/api-initializers/super-navigation-suite.js:209-216 | entries are never changed or removed; a new entry is the payload of a successful request under the panel's key |
| NavigationClient.SecondLoadIsCached | discourse-super-navigation-suite-theme/javascripts/api-initializers/super-navigation-suite.js:193-217 | after a successful load, the same panel, or one differing only in display flags, renders the same topics without a request |
| NavigationClient.NavState.constructor | discourse-super-navigation-suite-theme/javascripts/api-initializers/super-navigation-suite.js:79-87 | nothing open, empty cache, no click mode |
| NavigationClient.NavState.AtMostOneOpen | discourse-super-navigation-suite-theme/javascripts/api-initializers/super-navigation-suite.js:89-248 | at most one item is marked open, and it is the recorded open dropdown |
| NavigationClient.NavState.CloseCurrentDropdown | discourse-super-navigation-suite-theme/javascripts/api-initializers/super-navigation-suite.js:89-106 | afterwards nothing is open or expanded and click mode is off; the cache is kept |
| NavigationClient.NavState.LoadPanel | discourse-super-navigation-suite-theme/javascripts/api-initializers/super-navigation-suite.js:193-217 | requests only on a cache miss; shows the cached payload, the response or an error; stores only a successful response |
| NavigationClient.NavState.Open | discourse-super-navigation-suite-theme/javascripts/api-initializers/super-navigation-suite.js:219-248 | a no-op for the open item; otherwise the previous one is closed, the item alone is open, its panel is loaded, click mode follows the menu |
| NavigationClient.NavState.ToggleClick | discourse-super-navigation-suite-theme/javascripts/api-initializers/super-navigation-suite.js:267-276 | toggling the open item closes it; toggling another item opens it alone |
| NavigationClient.ToggleTwice | discourse-super-navigation-suite-theme/javascripts/api-initializers/super-navigation-suite.js:267-276 | two toggles of the same closed item leave nothing open, with the cache as after one load |

## Left out

- Database access, Rails caching and expiry. The active profile is an optional JSON string, and the configuration cache in `normalized_config` is not modelled: the model assumes every cache entry is fresh. The source keys that cache by the JSON digest alone, while `normalize_config` also reads max_panel_items and looks up categories and topics, so after a changed setting or a renamed category the source serves the old value until the entry expires. Profile summaries, presets, the controller, serializer, routes and migrations are not part of this model.
- JSON parsing, URI parsing, `titleize`, SHA-256 and `to_json` are opaque functions in the `Env` and `QueryEnv` parameters. The only property assumed of the digest is a fixed length, in `CacheKeySeparates`.
- `Guardian`, `Category.find_by` and `Topic.find_by` are functions supplied to the model. `base_scope` is the `scope` argument: the topics visible to the viewer.
- The clock and durations are the integers `now` and `lookback(range)`. A month and a year are whatever lookback gives.
- TopicQuery.SerializeTopic: only the fields the properties mention are kept (id, url, bumped_at, counts, excerpt). Title, slug, author, image and the category sub-hash are left out. The excerpt, which `PrettyText` produces, is a field of the topic.
- TopicQuery.Sort: SQL leaves the order of ties open. The model fixes one sorted permutation and states only sortedness and permutation.
- TopicQuery.PanelFeedCache.Fetch: entries never expire. The cache-minutes setting is not modelled.
- BuildContext: group names are lower-cased for ASCII letters only. Ruby's `downcase` also folds other Unicode letters, so for a user group "Ärzte" and a rule naming "ärzte" Ruby admits the viewer and the model does not.
- GroupCheckIgnoresCase: the comparison ignores case for ASCII letters only, for the reason given for BuildContext.
- RubyJson.Downcase: full Unicode case mapping is not modelled, because it needs Unicode's case tables.
- JSON numbers are integers only. A float `hover_delay_ms`, `limit` or `trust_level_min`, which `to_i` would truncate, cannot be written in the model.
- ConfigStore.FindCategory: the slug reaches the lookup as its `to_s`. The source passes the raw value to `find_by(slug:)`, where an array becomes an IN query and a hash raises.
- TopicQuery.Selected: built on the corrected window (see Findings). For time_range "all" it keeps topics bumped more than a week ago, which the code as written drops.
- TopicQuery.ApplySource: inherits the corrected "all" window from Selected.
- TopicQuery.SourceFilters: states the latest and category_top sources against the corrected "all" window.
- TopicQuery.Compute: inherits the corrected "all" window from ApplySource.
- TopicQuery.PanelFeedCache.Fetch: on a miss it stores Compute, so it inherits the corrected "all" window.
- `valid_json?` rescues every exception. The model returns false for a parse failure, a non-hash, or any `Raised` result of `normalize_config`.
- Ruby integers are unbounded, and so are the model's. Number-to-string conversion and `to_i` are modelled for decimal digits only.
- NavigationClient.NavState.LoadPanel: the request is asynchronous, but the model performs it atomically. Two loads of one key racing each other, which would both fetch, are not captured. The DOM checks for a missing panel body are not modelled.
- The theme script's DOM building, rendering, date formatting, mobile navigation, window resizing, mounting and the hover timer are not modelled. A hover open and a mouse-leave close end in the same `Open` and `CloseCurrentDropdown`. DOM elements are integer identities.
- NavigationClient.PanelCacheKey: the key is the six request fields as a record. This assumes `JSON.stringify` of them separates different values.
- ConfigStore.NormalizeConfig: kept as written, so sidebars keep their raw widgets and `valid_json?` answers as the source does. The corrected sidebar normalisation, `ConfigFilter.NormalizeSidebar`, is stated and proved beside it. It is not substituted into `NormalizeConfig`.
- NavigationClient.Trim: the white-space set is ECMAScript's White_Space and line terminators, listed character by character.

## Findings

| source | as written | input that shows it | evidently intended | confidence | as-written member | corrected member |
|---|---|---|---|---|---|---|
| discourse-super-navigation-suite/lib/discourse_super_navigation_suite/topic_query.rb:120-121 | `TIME_RANGES[time_range] \|\| TIME_RANGES["weekly"]` turns the nil window of "all" into a week, so the `window.nil?` return below it can never be taken | a category_top or latest panel with time_range "all" and a topic bumped eight days ago | "all" applies no time window | high; not executed | TopicQuery.AllRangeDropsOldTopics | TopicQuery.ApplyTimeRange |
| discourse-super-navigation-suite/lib/discourse_super_navigation_suite/config_store.rb:187-190 | sidebars are normalised like blocks, so their widgets are never normalised, and `visible_sidebar` indexes each raw widget | `{"sidebars":[{"widgets":[null]}]}`, which `valid_json?` accepts | every widget is a hash with a normalised rule, as blocks are, so a configuration that passes `valid_json?` can be shown | medium; not executed | ConfigFilter.ValidJsonDoesNotMeanRenderable | ConfigFilter.NormalizedSidebarRenders |
