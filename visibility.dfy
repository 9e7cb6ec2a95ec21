/** Per-node visibility rules: normalising a rule hash to its four supported
    keys, building a viewer context, and deciding allow / deny in the fixed
    order login, logout, trust level, groups. */
module VisibilityResolver {
  import opened RubyJson
  import opened Collaborators

  /** SUPPORTED_KEYS; `RuleMembers` lists them in their declared order. */
  const SupportedKeys: set<string> := {"logged_in_only", "logged_out_only", "groups", "trust_level_min"}

  /** A normalised rule: the slice of the supported keys, each field None when
      the key was absent; trust_level_min has been through to_i, the other
      values are kept as the author wrote them. */
  datatype Rule = Rule(
    loggedInOnly: Option<Json>,
    loggedOutOnly: Option<Json>,
    groups: Option<Json>,
    trustLevelMin: Option<int>)

  const EmptyRule: Rule := Rule(None, None, None, None)

  /** The viewer context: the user (None when anonymous), its trust level and
      its lower-cased group names. */
  datatype Context = Context(user: Option<User>, trustLevel: nat, groupNames: seq<string>)

  function LowerAll(names: seq<string>): (r: seq<string>)
    ensures |r| == |names|
    ensures forall i :: 0 <= i < |names| ==> r[i] == Downcase(names[i])
  {
    if names == [] then [] else [Downcase(names[0])] + LowerAll(names[1..])
  }

  /** build_context: an anonymous viewer has trust level 0 and no groups; a
      signed-in viewer's group names are lower-cased. */
  function BuildContext(user: Option<User>): (ctx: Context)
    ensures ctx.user == user
    ensures user.None? ==> ctx.trustLevel == 0 && ctx.groupNames == []
    ensures user.Some? ==> ctx.trustLevel == user.value.trustLevel
    ensures user.Some? ==> |ctx.groupNames| == |user.value.groupNames|
    ensures user.Some? ==>
      forall i :: 0 <= i < |ctx.groupNames| ==> ctx.groupNames[i] == Downcase(user.value.groupNames[i])
    ensures forall i :: 0 <= i < |ctx.groupNames| ==> Downcase(ctx.groupNames[i]) == ctx.groupNames[i]
  {
    match user
    case None => Context(None, 0, [])
    case Some(u) =>
      var names := LowerAll(u.groupNames);
      assert forall i :: 0 <= i < |names| ==> Downcase(names[i]) == names[i] by {
        forall i | 0 <= i < |names| {
          DowncaseIdempotent(u.groupNames[i]);
        }
      }
      Context(user, u.trustLevel, names)
  }

  // ---------------------------------------------------------------------------
  // The rule as a hash

  function Field(ms: seq<Member>, k: string): Option<Json>
  {
    if HasKey(ms, k) then Some(Get(ms, k)) else None
  }

  /** Appends `k => v` when the value is present. */
  function AppendPresent(ms: seq<Member>, k: string, o: Option<Json>): seq<Member>
  {
    if o.None? then ms else ms + [Member(k, o.value)]
  }

  lemma AppendPresentFacts(ms: seq<Member>, k: string, o: Option<Json>, k': string)
    ensures HasKey(AppendPresent(ms, k, o), k') <==> (k' == k && o.Some?) || HasKey(ms, k')
    ensures Get(AppendPresent(ms, k, o), k') == if k' == k && o.Some? then o.value else Get(ms, k')
  {
    if o.Some? {
      var r := ms + [Member(k, o.value)];
      assert r[..|ms|] == ms;
      assert r[|r| - 1].key == k;
      if k' != k {
        assert Get(r, k') == Get(r[..|r| - 1], k');
      }
      if HasKey(ms, k') {
        var i :| 0 <= i < |ms| && ms[i].key == k';
        assert r[i].key == k';
      }
      if HasKey(r, k') && k' != k {
        var i :| 0 <= i < |r| && r[i].key == k';
        assert i < |ms| && ms[i].key == k';
      }
    }
  }

  /** The members of the normalised hash, in SUPPORTED_KEYS order. */
  function RuleMembers(r: Rule): seq<Member>
  {
    AppendPresent(AppendPresent(AppendPresent(AppendPresent([], "logged_in_only", r.loggedInOnly),
      "logged_out_only", r.loggedOutOnly), "groups", r.groups), "trust_level_min", TrustJson(r))
  }

  function TrustJson(r: Rule): Option<Json>
  {
    if r.trustLevelMin.Some? then Some(JInt(r.trustLevelMin.value)) else None
  }

  /** The rule's value under a key, None for an unsupported key. */
  function RuleField(r: Rule, k: string): Option<Json>
  {
    if k == "logged_in_only" then r.loggedInOnly
    else if k == "logged_out_only" then r.loggedOutOnly
    else if k == "groups" then r.groups
    else if k == "trust_level_min" then TrustJson(r)
    else None
  }

  lemma RuleMembersFacts(r: Rule, k: string)
    ensures HasKey(RuleMembers(r), k) <==> RuleField(r, k).Some?
    ensures Get(RuleMembers(r), k) == RuleField(r, k).GetOr(JNull)
  {
    var m1 := AppendPresent([], "logged_in_only", r.loggedInOnly);
    var m2 := AppendPresent(m1, "logged_out_only", r.loggedOutOnly);
    var m3 := AppendPresent(m2, "groups", r.groups);
    AppendPresentFacts([], "logged_in_only", r.loggedInOnly, k);
    AppendPresentFacts(m1, "logged_out_only", r.loggedOutOnly, k);
    AppendPresentFacts(m2, "groups", r.groups, k);
    AppendPresentFacts(m3, "trust_level_min", TrustJson(r), k);
  }

  function RuleToJson(r: Rule): Json
  {
    JObj(RuleMembers(r))
  }

  /** normalize_visibility: a non-hash gives the empty rule; a hash keeps only
      the supported keys, and trust_level_min goes through to_i, raising when
      to_i does. */
  function NormalizeVisibility(v: Json): (r: Result<Rule>)
    ensures !v.JObj? ==> r == Ok(EmptyRule)
    ensures r.Raised? <==>
      v.JObj? && HasKey(v.members, "trust_level_min") && ToI(Get(v.members, "trust_level_min")).Raised?
    ensures r.Ok? && v.JObj? ==> r.value == Slice(v.members)
  {
    if !v.JObj? then Ok(EmptyRule)
    else if HasKey(v.members, "trust_level_min") && ToI(Get(v.members, "trust_level_min")).Raised? then
      Raised(ToI(Get(v.members, "trust_level_min")).error)
    else Ok(Slice(v.members))
  }

  /** `hash.slice(*SUPPORTED_KEYS)` with trust_level_min converted, for a hash
      whose trust_level_min (if any) converts. */
  function Slice(ms: seq<Member>): Rule
  {
    var tl := if HasKey(ms, "trust_level_min") && ToI(Get(ms, "trust_level_min")).Ok?
      then Some(ToI(Get(ms, "trust_level_min")).value) else None;
    Rule(Field(ms, "logged_in_only"), Field(ms, "logged_out_only"), Field(ms, "groups"), tl)
  }

  /** The normalised hash has exactly the supported keys of the input, with
      the same values, trust_level_min converted by to_i. */
  lemma NormalizeVisibilityKeepsSupported(v: Json, k: string)
    requires v.JObj? && NormalizeVisibility(v).Ok?
    ensures HasKey(RuleMembers(NormalizeVisibility(v).value), k) <==> k in SupportedKeys && HasKey(v.members, k)
    ensures k in SupportedKeys && k != "trust_level_min" ==>
      Get(RuleMembers(NormalizeVisibility(v).value), k) == Get(v.members, k)
    ensures k == "trust_level_min" && HasKey(v.members, k) ==>
      Get(RuleMembers(NormalizeVisibility(v).value), k) == JInt(ToI(Get(v.members, k)).value)
  {
    assert NormalizeVisibility(v).value == Slice(v.members);
    SliceField(v.members, k);
    RuleMembersFacts(Slice(v.members), k);
  }

  /** The field of the slice under each key. */
  lemma SliceField(ms: seq<Member>, k: string)
    requires !(HasKey(ms, "trust_level_min") && ToI(Get(ms, "trust_level_min")).Raised?)
    ensures RuleField(Slice(ms), k).Some? <==> k in SupportedKeys && HasKey(ms, k)
    ensures k in SupportedKeys && k != "trust_level_min" ==> RuleField(Slice(ms), k) == Field(ms, k)
    ensures k == "trust_level_min" && HasKey(ms, k) ==>
      RuleField(Slice(ms), k) == Some(JInt(ToI(Get(ms, k)).value))
  {
  }

  /** A normalised rule normalises to itself. */
  lemma NormalizeVisibilityIdempotent(r: Rule)
    ensures NormalizeVisibility(RuleToJson(r)) == Ok(r)
  {
    var ms := RuleMembers(r);
    TrustRoundTrip(r);
    assert NormalizeVisibility(RuleToJson(r)) == Ok(Slice(ms));
    FieldRoundTrip(r, "logged_in_only");
    FieldRoundTrip(r, "logged_out_only");
    FieldRoundTrip(r, "groups");
    assert Slice(ms) == r;
  }

  lemma FieldRoundTrip(r: Rule, k: string)
    ensures Field(RuleMembers(r), k) == RuleField(r, k)
  {
    RuleMembersFacts(r, k);
  }

  /** trust_level_min written out as an integer converts back unchanged. */
  lemma TrustRoundTrip(r: Rule)
    ensures !(HasKey(RuleMembers(r), "trust_level_min") && ToI(Get(RuleMembers(r), "trust_level_min")).Raised?)
    ensures (if HasKey(RuleMembers(r), "trust_level_min") && ToI(Get(RuleMembers(r), "trust_level_min")).Ok?
      then Some(ToI(Get(RuleMembers(r), "trust_level_min")).value) else None) == r.trustLevelMin
  {
    RuleMembersFacts(r, "trust_level_min");
    if r.trustLevelMin.Some? {
      assert Get(RuleMembers(r), "trust_level_min") == JInt(r.trustLevelMin.value);
    }
  }

  // ---------------------------------------------------------------------------
  // Evaluation

  predicate TruthyOpt(o: Option<Json>)
  {
    o.Some? && Truthy(o.value)
  }

  /** The required group names: each entry of Array(groups) through
      to_s.downcase, blank names dropped. */
  function RequiredGroups(r: Rule): seq<string>
  {
    LowerNonBlank(ArrayOf(r.groups.GetOr(JNull)))
  }

  /** Some entry of `gs`, through to_s.downcase, is the non-blank name `n`. */
  predicate Names(gs: seq<Json>, n: string)
  {
    !BlankStr(n) && exists i :: 0 <= i < |gs| && n == Downcase(ToS(gs[i]))
  }

  function LowerNonBlank(gs: seq<Json>): (r: seq<string>)
    ensures forall n :: n in r <==> Names(gs, n)
  {
    if gs == [] then []
    else
      var n := Downcase(ToS(gs[0]));
      var rest := LowerNonBlank(gs[1..]);
      assert forall m :: Names(gs, m) <==> (m == n && !BlankStr(n)) || Names(gs[1..], m) by {
        forall m ensures Names(gs, m) <==> (m == n && !BlankStr(n)) || Names(gs[1..], m) {
          if Names(gs[1..], m) {
            var j :| 0 <= j < |gs[1..]| && m == Downcase(ToS(gs[1..][j]));
            assert gs[j + 1] == gs[1..][j];
          }
          if Names(gs, m) && m != n {
            var i :| 0 <= i < |gs| && m == Downcase(ToS(gs[i]));
            assert i > 0 && gs[1..][i - 1] == gs[i];
          }
        }
      }
      if BlankStr(n) then rest else [n] + rest
  }

  predicate Intersects(a: seq<string>, b: seq<string>)
  {
    exists i :: 0 <= i < |a| && a[i] in b
  }

  /** allowed? on a rule that is already normalised. */
  function Evaluate(r: Rule, ctx: Context): (admitted: bool)
    ensures r == EmptyRule ==> admitted
    ensures admitted ==> r.trustLevelMin.GetOr(0) <= ctx.trustLevel
    ensures admitted && TruthyOpt(r.loggedInOnly) ==> ctx.user.Some?
    ensures admitted && TruthyOpt(r.loggedOutOnly) ==> ctx.user.None?
  {
    if r == EmptyRule then true
    else if TruthyOpt(r.loggedInOnly) && ctx.user.None? then false
    else if TruthyOpt(r.loggedOutOnly) && ctx.user.Some? then false
    else if r.trustLevelMin.GetOr(0) > ctx.trustLevel then false
    else
      var required := RequiredGroups(r);
      if required != [] then ctx.user.Some? && Intersects(required, ctx.groupNames) else true
  }

  /** allowed?: normalise the rule (which may raise), then evaluate it. */
  function Allowed(v: Json, ctx: Context): (r: Result<bool>)
    ensures r.Raised? <==> NormalizeVisibility(v).Raised?
    ensures r.Ok? ==> r.value == Evaluate(NormalizeVisibility(v).value, ctx)
  {
    var rule :- NormalizeVisibility(v);
    Ok(Evaluate(rule, ctx))
  }

  /** Re-checking an already normalised rule cannot raise and agrees with
      Evaluate. */
  lemma AllowedOnNormalized(r: Rule, ctx: Context)
    ensures Allowed(RuleToJson(r), ctx) == Ok(Evaluate(r, ctx))
  {
    NormalizeVisibilityIdempotent(r);
  }

  /** A value that is not a hash, or a hash with none of the four keys,
      allows every viewer. */
  lemma AllowedWithoutRule(v: Json, ctx: Context)
    requires !v.JObj? || forall k :: k in SupportedKeys ==> !HasKey(v.members, k)
    ensures Allowed(v, ctx) == Ok(true)
  {
    if v.JObj? {
      var r := NormalizeVisibility(v).value;
      RuleMembersFacts(r, "logged_in_only");
      RuleMembersFacts(r, "logged_out_only");
      RuleMembersFacts(r, "groups");
      RuleMembersFacts(r, "trust_level_min");
      assert r == EmptyRule;
    }
  }

  /** The four checks, all of which must pass; the early `empty?` return is
      only a shortcut, since the empty rule passes all four. */
  lemma {:induction false} EvaluateIff(r: Rule, ctx: Context)
    ensures Evaluate(r, ctx) <==>
      && !(TruthyOpt(r.loggedInOnly) && ctx.user.None?)
      && !(TruthyOpt(r.loggedOutOnly) && ctx.user.Some?)
      && r.trustLevelMin.GetOr(0) <= ctx.trustLevel
      && (RequiredGroups(r) != [] ==> ctx.user.Some? && Intersects(RequiredGroups(r), ctx.groupNames))
  {
    if r == EmptyRule {
      assert RequiredGroups(r) == [];
    }
  }

  lemma LoggedInOnlyDeniesAnonymous(r: Rule, ctx: Context)
    requires TruthyOpt(r.loggedInOnly) && ctx.user.None?
    ensures !Evaluate(r, ctx)
  {
  }

  lemma LoggedOutOnlyDeniesSignedIn(r: Rule, ctx: Context)
    requires TruthyOpt(r.loggedOutOnly) && ctx.user.Some?
    ensures !Evaluate(r, ctx)
  {
  }

  lemma TrustLevelMinDenies(r: Rule, ctx: Context)
    requires r.trustLevelMin.Some? && r.trustLevelMin.value > ctx.trustLevel
    ensures !Evaluate(r, ctx)
  {
  }

  /** With at least one non-blank required group, an anonymous viewer is
      denied and a signed-in viewer needs a common group. */
  lemma GroupsRequireMembership(r: Rule, ctx: Context)
    requires RequiredGroups(r) != []
    ensures Evaluate(r, ctx) ==> ctx.user.Some? && Intersects(RequiredGroups(r), ctx.groupNames)
  {
  }

  /** More trust and more groups never take access away from a viewer whose
      signed-in state is unchanged. */
  lemma {:induction false} EvaluateMonotone(r: Rule, c1: Context, c2: Context)
    requires c1.user.Some? == c2.user.Some?
    requires c1.trustLevel <= c2.trustLevel
    requires forall g :: g in c1.groupNames ==> g in c2.groupNames
    ensures Evaluate(r, c1) ==> Evaluate(r, c2)
  {
    EvaluateIff(r, c1);
    EvaluateIff(r, c2);
  }

  /** Group names are compared ignoring ASCII case: a signed-in viewer passes
      the group check exactly when the lower-cased name of one of its groups
      is the lower-cased, non-blank to_s of some entry of the rule's groups. */
  lemma {:induction false} GroupCheckIgnoresCase(r: Rule, u: User)
    ensures Intersects(RequiredGroups(r), BuildContext(Some(u)).groupNames) <==>
      exists j :: 0 <= j < |u.groupNames| && Names(ArrayOf(r.groups.GetOr(JNull)), Downcase(u.groupNames[j]))
  {
    var gs := ArrayOf(r.groups.GetOr(JNull));
    var req := RequiredGroups(r);
    var names := BuildContext(Some(u)).groupNames;
    if Intersects(req, names) {
      var i :| 0 <= i < |req| && req[i] in names;
      var j :| 0 <= j < |names| && names[j] == req[i];
      assert Names(gs, Downcase(u.groupNames[j]));
    }
    if exists j :: 0 <= j < |u.groupNames| && Names(gs, Downcase(u.groupNames[j])) {
      var j :| 0 <= j < |u.groupNames| && Names(gs, Downcase(u.groupNames[j]));
      var n := Downcase(u.groupNames[j]);
      assert n in req;
      var p :| 0 <= p < |req| && req[p] == n;
      assert names[j] == n;
    }
  }

  // ---------------------------------------------------------------------------
  // The documented examples

  /** No rule: an anonymous viewer sees the node. */
  lemma ExampleNoRules()
    ensures Allowed(JObj([]), Context(None, 0, [])) == Ok(true)
  {
    AllowedWithoutRule(JObj([]), Context(None, 0, []));
  }

  /** logged_in_only hides the node from an anonymous viewer. */
  lemma ExampleLoggedInOnly()
    ensures Allowed(JObj([Member("logged_in_only", JBool(true))]), Context(None, 0, [])) == Ok(false)
  {
    var ms := [Member("logged_in_only", JBool(true))];
    assert ms[0].key == "logged_in_only";
    assert Get(ms, "logged_in_only") == JBool(true);
    LoggedInOnlyDeniesAnonymous(NormalizeVisibility(JObj(ms)).value, Context(None, 0, []));
  }

  /** trust_level_min 2 hides the node from a trust level 1 viewer. */
  lemma ExampleTrustLevel(u: User)
    ensures Allowed(JObj([Member("trust_level_min", JInt(2))]), Context(Some(u), 1, [])) == Ok(false)
  {
    var ms := [Member("trust_level_min", JInt(2))];
    assert ms[0].key == "trust_level_min";
    assert HasKey(ms, "trust_level_min");
    assert Get(ms, "trust_level_min") == JInt(2);
  }

  /** groups ["staff"] admits a viewer in the groups staff and mods. */
  lemma ExampleGroups(u: User)
    ensures Allowed(JObj([Member("groups", JArr([JStr("staff")]))]), Context(Some(u), 4, ["staff", "mods"])) == Ok(true)
  {
    var ms := [Member("groups", JArr([JStr("staff")]))];
    assert ms[0].key == "groups";
    assert Get(ms, "groups") == JArr([JStr("staff")]);
    var r := NormalizeVisibility(JObj(ms)).value;
    assert !HasKey(ms, "trust_level_min");
    assert r.groups == Some(JArr([JStr("staff")]));
    assert Downcase("staff") == "staff";
    assert !IsBlankChar("staff"[0]);
    assert "staff" in RequiredGroups(r);
    assert Intersects(RequiredGroups(r), ["staff", "mods"]);
    EvaluateIff(r, Context(Some(u), 4, ["staff", "mods"]));
  }
}
