/** Ruby values as JSON.parse produces them, and the Ruby / ActiveSupport
    coercions the navigation core applies to them: to_i, to_s, blank? and
    presence, Kernel#Array, String#strip, String#downcase, Hash#[] and
    Hash#merge.  Raising is modelled by Result.Raised. */
module RubyJson {

  datatype Option<+T> = None | Some(value: T) {
    /** `x || fallback` on a value that is nil when absent. */
    function GetOr(fallback: T): T {
      match this
      case Some(v) => v
      case None => fallback
    }

    function OrElse(other: Option<T>): Option<T> {
      if Some? then this else other
    }
  }

  /** The two exceptions the coercions below can raise. */
  datatype RubyError = NoMethodError | TypeError

  datatype Result<+T> = Ok(value: T) | Raised(error: RubyError) {
    predicate IsFailure() {
      Raised?
    }

    function PropagateFailure<U>(): Result<U>
      requires Raised?
    {
      Raised(error)
    }

    function Extract(): T
      requires Ok?
    {
      value
    }
  }

  /** A parsed JSON document.  Numbers are integers only. An object keeps its
      members in insertion order, as a Ruby Hash does. */
  datatype Json =
    | JNull
    | JBool(b: bool)
    | JInt(n: int)
    | JStr(s: string)
    | JArr(elems: seq<Json>)
    | JObj(members: seq<Member>)

  datatype Member = Member(key: string, value: Json)

  // ---------------------------------------------------------------------------
  // Size measure (the normaliser recurses into arrays that Array() may build)

  function Size(j: Json): (n: nat)
    ensures n >= 1
  {
    match j
    case JArr(es) => 1 + SizeSeq(es)
    case JObj(ms) => 1 + SizeMembers(ms)
    case _ => 1
  }

  function SizeSeq(es: seq<Json>): nat
  {
    if es == [] then 0 else Size(es[0]) + SizeSeq(es[1..])
  }

  function SizeMembers(ms: seq<Member>): nat
  {
    if ms == [] then 0 else 2 + Size(ms[0].value) + SizeMembers(ms[1..])
  }

  // ---------------------------------------------------------------------------
  // Hash access

  predicate HasKey(ms: seq<Member>, k: string)
  {
    exists i :: 0 <= i < |ms| && ms[i].key == k
  }

  /** `hash[k]`: nil when absent; with repeated keys the last one wins, as in
      JSON.parse. */
  function Get(ms: seq<Member>, k: string): (r: Json)
    ensures HasKey(ms, k) ==> exists i :: 0 <= i < |ms| && ms[i].key == k && ms[i].value == r
    ensures !HasKey(ms, k) ==> r == JNull
  {
    if ms == [] then JNull
    else if ms[|ms| - 1].key == k then ms[|ms| - 1].value
    else
      assert forall i :: 0 <= i < |ms| - 1 ==> ms[..|ms| - 1][i] == ms[i];
      Get(ms[..|ms| - 1], k)
  }

  /** A member that no later member shadows is what `hash[k]` finds. */
  lemma {:induction false} GetAt(ms: seq<Member>, i: nat)
    requires i < |ms|
    requires forall j :: i < j < |ms| ==> ms[j].key != ms[i].key
    ensures Get(ms, ms[i].key) == ms[i].value
  {
    if i < |ms| - 1 {
      var init := ms[..|ms| - 1];
      assert init[i] == ms[i];
      GetAt(init, i);
    }
  }

  function Keys(ms: seq<Member>): (ks: seq<string>)
    ensures |ks| == |ms|
    ensures forall i :: 0 <= i < |ms| ==> ks[i] == ms[i].key
  {
    if ms == [] then [] else [ms[0].key] + Keys(ms[1..])
  }

  /** `hash.merge(k => v)`: an existing key keeps its position and takes the
      new value, a missing key is appended. */
  function Put(ms: seq<Member>, k: string, v: Json): (r: seq<Member>)
    ensures Get(r, k) == v
    ensures forall k' :: k' != k ==> Get(r, k') == Get(ms, k')
    ensures HasKey(ms, k) ==> Keys(r) == Keys(ms)
    ensures !HasKey(ms, k) ==> Keys(r) == Keys(ms) + [k]
  {
    if HasKey(ms, k) then Replace(ms, k, v) else
      assert forall k' :: k' != k ==> Get(ms + [Member(k, v)], k') == Get(ms, k') by {
        assert (ms + [Member(k, v)])[..|ms|] == ms;
      }
      assert Keys(ms + [Member(k, v)]) == Keys(ms) + [k];
      ms + [Member(k, v)]
  }

  function Replace(ms: seq<Member>, k: string, v: Json): (r: seq<Member>)
    ensures |r| == |ms| && Keys(r) == Keys(ms)
    ensures forall i :: 0 <= i < |ms| ==> r[i] == (if ms[i].key == k then Member(k, v) else ms[i])
    ensures HasKey(ms, k) ==> Get(r, k) == v
    ensures forall k' :: k' != k ==> Get(r, k') == Get(ms, k')
  {
    var r := seq(|ms|, i requires 0 <= i < |ms| => if ms[i].key == k then Member(k, v) else ms[i]);
    forall k' ensures Get(r, k') == if k' == k && HasKey(ms, k) then v else Get(ms, k') {
      GetReplace(ms, k, v, k', r);
    }
    r
  }

  lemma GetReplace(ms: seq<Member>, k: string, v: Json, k': string, r: seq<Member>)
    requires |r| == |ms|
    requires forall i :: 0 <= i < |ms| ==> r[i] == (if ms[i].key == k then Member(k, v) else ms[i])
    ensures Get(r, k') == if k' == k && HasKey(ms, k) then v else Get(ms, k')
  {
    if k' == k {
      GetReplaceSame(ms, k, v, r);
    } else {
      GetReplaceOther(ms, k, v, k', r);
    }
  }

  /** One step of `hash[k]`: the last member decides when it has the key. */
  lemma GetLast(ms: seq<Member>, k: string)
    requires ms != []
    ensures Get(ms, k) == if ms[|ms| - 1].key == k then ms[|ms| - 1].value else Get(ms[..|ms| - 1], k)
  {
  }

  /** Replacing the values under k leaves every other key's lookup alone. */
  lemma {:induction false} GetReplaceOther(ms: seq<Member>, k: string, v: Json, k': string, r: seq<Member>)
    requires |r| == |ms| && k' != k
    requires forall i :: 0 <= i < |ms| ==> r[i] == (if ms[i].key == k then Member(k, v) else ms[i])
    ensures Get(r, k') == Get(ms, k')
  {
    if ms != [] {
      var n := |ms| - 1;
      var init, rinit := ms[..n], r[..n];
      assert forall i :: 0 <= i < n ==> rinit[i] == (if init[i].key == k then Member(k, v) else init[i]);
      GetReplaceOther(init, k, v, k', rinit);
      GetLast(ms, k');
      GetLast(r, k');
      var last := r[n];
      assert last == (if ms[n].key == k then Member(k, v) else ms[n]);
    }
  }

  /** After replacing the values under k, looking k up gives the new value
      when the key was there, and nil as before when it was not. */
  lemma {:induction false} GetReplaceSame(ms: seq<Member>, k: string, v: Json, r: seq<Member>)
    requires |r| == |ms|
    requires forall i :: 0 <= i < |ms| ==> r[i] == (if ms[i].key == k then Member(k, v) else ms[i])
    ensures Get(r, k) == if HasKey(ms, k) then v else Get(ms, k)
  {
    if ms != [] {
      var n := |ms| - 1;
      var init, rinit := ms[..n], r[..n];
      assert forall i :: 0 <= i < n ==> rinit[i] == (if init[i].key == k then Member(k, v) else init[i]);
      GetReplaceSame(init, k, v, rinit);
      HasKeyLast(ms, k);
      GetLast(ms, k);
      GetLast(r, k);
    }
  }

  /** A key occurs in a non-empty list exactly when it occurs before the
      last member or is the last member's key. */
  lemma HasKeyLast(ms: seq<Member>, k: string)
    requires ms != []
    ensures HasKey(ms, k) <==> HasKey(ms[..|ms| - 1], k) || ms[|ms| - 1].key == k
  {
    var init := ms[..|ms| - 1];
    if HasKey(ms, k) && ms[|ms| - 1].key != k {
      var i :| 0 <= i < |ms| && ms[i].key == k;
      assert init[i].key == k;
    }
    if HasKey(init, k) {
      var i :| 0 <= i < |init| && init[i].key == k;
      assert ms[i].key == k;
    }
  }

  /** Ruby's `recv["key"]` for each kind of receiver: a Hash looks the key up, a
      String answers the key when it occurs as a substring, nil and booleans
      have no `[]`, and Integer and Array refuse a String index. */
  function Index(recv: Json, key: string): (r: Result<Json>)
    ensures recv.JObj? ==> r == Ok(Get(recv.members, key))
    ensures (recv.JNull? || recv.JBool?) ==> r == Raised(NoMethodError)
    ensures (recv.JInt? || recv.JArr?) ==> r == Raised(TypeError)
  {
    match recv
    case JObj(ms) => Ok(Get(ms, key))
    case JStr(s) => Ok(if IsSubstring(key, s) then JStr(key) else JNull)
    case JNull => Raised(NoMethodError)
    case JBool(_) => Raised(NoMethodError)
    case JInt(_) => Raised(TypeError)
    case JArr(_) => Raised(TypeError)
  }

  // ---------------------------------------------------------------------------
  // Truthiness, blank? and presence

  /** Everything except nil and false is truthy in Ruby. */
  predicate Truthy(j: Json)
  {
    j != JNull && j != JBool(false)
  }

  /** The characters matched by `[[:space:]]` in ActiveSupport's String#blank?. */
  predicate IsBlankChar(c: char)
  {
    c == ' ' || c == '\t' || c == '\n' || c == '\U{000B}' || c == '\U{000C}' || c == '\r'
    || c == '\U{0085}' || c == '\U{00A0}' || c == '\U{1680}'
    || ('\U{2000}' <= c <= '\U{200A}')
    || c == '\U{2028}' || c == '\U{2029}' || c == '\U{202F}' || c == '\U{205F}' || c == '\U{3000}'
  }

  predicate BlankStr(s: string)
  {
    forall i :: 0 <= i < |s| ==> IsBlankChar(s[i])
  }

  /** ActiveSupport's blank?: nil, false, whitespace-only strings and empty
      collections; integers and true are never blank. */
  predicate Blank(j: Json)
  {
    match j
    case JNull => true
    case JBool(b) => !b
    case JInt(_) => false
    case JStr(s) => BlankStr(s)
    case JArr(es) => es == []
    case JObj(ms) => ms == []
  }

  /** `x.presence`: the value itself unless blank, nil otherwise. */
  function Presence(j: Json): (r: Json)
    ensures r == JNull || (r == j && !Blank(j))
    ensures Blank(j) ==> r == JNull
  {
    if Blank(j) then JNull else j
  }

  /** `s.presence` on a String, nil given as None. */
  function PresentStr(s: string): (r: Option<string>)
    ensures r.Some? <==> !BlankStr(s)
    ensures r.Some? ==> r.value == s
  {
    if BlankStr(s) then None else Some(s)
  }

  // ---------------------------------------------------------------------------
  // Kernel#Array

  /** `Array(x)`: nil gives [], an Array stays itself, a Hash becomes its list
      of [key, value] pairs, any other value x gives [x]. */
  function ArrayOf(j: Json): (r: seq<Json>)
    ensures j.JNull? ==> r == []
    ensures j.JArr? ==> r == j.elems
    ensures j.JObj? ==> |r| == |j.members|
    ensures !j.JNull? && !j.JArr? && !j.JObj? ==> r == [j]
    ensures SizeSeq(r) <= Size(j)
  {
    match j
    case JNull => []
    case JArr(es) => es
    case JObj(ms) => Pairs(ms)
    case _ => [j]
  }

  function Pairs(ms: seq<Member>): (r: seq<Json>)
    ensures |r| == |ms|
    ensures forall i :: 0 <= i < |ms| ==> r[i] == JArr([JStr(ms[i].key), ms[i].value])
    ensures SizeSeq(r) == SizeMembers(ms)
  {
    if ms == [] then []
    else
      var hd := JArr([JStr(ms[0].key), ms[0].value]);
      var r := [hd] + Pairs(ms[1..]);
      assert r[1..] == Pairs(ms[1..]);
      assert [JStr(ms[0].key), ms[0].value][1..] == [ms[0].value];
      assert [ms[0].value][1..] == [];
      assert SizeSeq([ms[0].value]) == Size(ms[0].value);
      assert SizeSeq([JStr(ms[0].key), ms[0].value]) == 1 + SizeSeq([ms[0].value]);
      assert Size(hd) == 2 + Size(ms[0].value);
      r
  }

  /** `xs.map.with_index(start) { |x, k| f(x, k) }`: the first element that
      raises stops the map and its error propagates. */
  function MapWithIndex<T>(xs: seq<Json>, start: nat, f: (Json, nat) -> Result<T>): (r: Result<seq<T>>)
    ensures r.Ok? ==> |r.value| == |xs|
    ensures r.Ok? ==> forall i :: 0 <= i < |xs| ==> f(xs[i], start + i) == Ok(r.value[i])
  {
    if xs == [] then Ok([])
    else
      var first :- f(xs[0], start);
      var rest :- MapWithIndex(xs[1..], start + 1, f);
      var r := [first] + rest;
      forall i | 0 < i < |xs|
        ensures f(xs[i], start + i) == Ok(r[i])
      {
        assert r[i] == rest[i - 1] && xs[i] == xs[1..][i - 1];
        assert start + 1 + (i - 1) == start + i;
      }
      Ok(r)
  }

  /** The map raises exactly when some element does. */
  lemma {:induction false} MapWithIndexAllOk<T>(xs: seq<Json>, start: nat, f: (Json, nat) -> Result<T>)
    ensures MapWithIndex(xs, start, f).Ok? <==> forall i :: 0 <= i < |xs| ==> f(xs[i], start + i).Ok?
    decreases |xs|
  {
    if xs != [] {
      MapWithIndexAllOk(xs[1..], start + 1, f);
      forall i | 0 < i < |xs|
        ensures f(xs[i], start + i) == f(xs[1..][i - 1], start + 1 + (i - 1))
      {
        assert xs[i] == xs[1..][i - 1];
      }
      assert f(xs[0], start + 0) == f(xs[0], start);
    }
  }

  /** `[a, b].min` */
  function Min(a: int, b: int): int
  {
    if a <= b then a else b
  }

  /** Array#map */
  function MapSeq<A, B>(xs: seq<A>, f: A -> B): (r: seq<B>)
    ensures |r| == |xs|
    ensures forall i :: 0 <= i < |xs| ==> r[i] == f(xs[i])
  {
    if xs == [] then []
    else
      var r := [f(xs[0])] + MapSeq(xs[1..], f);
      assert forall i :: 0 < i < |xs| ==> xs[i] == xs[1..][i - 1];
      r
  }

  /** Array#compact: the non-nil elements, in order. */
  function Compact<T(==)>(xs: seq<Option<T>>): (r: seq<T>)
    ensures |r| <= |xs|
    ensures forall i :: 0 <= i < |xs| && xs[i].Some? ==> xs[i].value in r
    ensures forall j :: 0 <= j < |r| ==> Some(r[j]) in xs
  {
    if xs == [] then []
    else
      var rest := Compact(xs[1..]);
      var r := (if xs[0].Some? then [xs[0].value] else []) + rest;
      forall i | 0 < i < |xs| && xs[i].Some?
        ensures xs[i].value in r
      {
        assert xs[i] == xs[1..][i - 1];
      }
      forall j | 0 <= j < |r|
        ensures Some(r[j]) in xs
      {
        if xs[0].Some? && j == 0 {
          assert xs[0] == Some(r[j]);
        } else {
          var k := if xs[0].Some? then j - 1 else j;
          assert r[j] == rest[k];
          var m :| 0 <= m < |xs[1..]| && xs[1..][m] == Some(rest[k]);
          assert xs[m + 1] == Some(r[j]);
        }
      }
      r
  }

  /** The answer of a block that did not raise; nil for one that raised. */
  function Kept<T>(r: Result<Option<T>>): Option<T>
  {
    if r.Ok? then r.value else None
  }

  /** A block that may raise, seen through Kept. */
  function KeptOf<T>(f: Json -> Result<Option<T>>): Json -> Option<T>
  {
    (x: Json) => Kept(f(x))
  }

  /** `map { ... }.compact` with a block that may raise: the first raise
      propagates, otherwise the non-nil answers are kept. */
  function FilterMap<T>(xs: seq<Json>, f: Json -> Result<Option<T>>): (r: Result<seq<T>>)
    ensures r.Ok? ==> |r.value| <= |xs|
  {
    if xs == [] then Ok([])
    else
      var first :- f(xs[0]);
      var rest :- FilterMap(xs[1..], f);
      Ok(if first.Some? then [first.value] + rest else rest)
  }

  /** The list raises exactly when the block raises on one of its elements. */
  lemma {:induction false} FilterMapAllOk<T>(xs: seq<Json>, f: Json -> Result<Option<T>>)
    ensures FilterMap(xs, f).Ok? <==> forall i :: 0 <= i < |xs| ==> f(xs[i]).Ok?
    decreases |xs|
  {
    if xs != [] {
      FilterMapAllOk(xs[1..], f);
      assert forall i :: 0 < i < |xs| ==> xs[i] == xs[1..][i - 1];
    }
  }

  /** What survives is the block's non-nil answers, in order. */
  lemma {:induction false} FilterMapCompact<T>(xs: seq<Json>, f: Json -> Result<Option<T>>)
    requires FilterMap(xs, f).Ok?
    ensures FilterMap(xs, f).value == Compact(MapSeq(xs, KeptOf(f)))
    decreases |xs|
  {
    if xs != [] {
      FilterMapCompact(xs[1..], f);
      assert MapSeq(xs, KeptOf(f)) == [KeptOf(f)(xs[0])] + MapSeq(xs[1..], KeptOf(f));
    }
  }

  /** A property every non-nil answer of the block has, every survivor has. */
  lemma {:induction false} FilterMapKeeps<T>(xs: seq<Json>, f: Json -> Result<Option<T>>, p: T -> bool)
    requires forall i :: 0 <= i < |xs| && f(xs[i]).Ok? && f(xs[i]).value.Some? ==> p(f(xs[i]).value.value)
    requires FilterMap(xs, f).Ok?
    ensures forall j :: 0 <= j < |FilterMap(xs, f).value| ==> p(FilterMap(xs, f).value[j])
    decreases |xs|
  {
    if xs != [] {
      assert forall i :: 0 < i < |xs| ==> xs[i] == xs[1..][i - 1];
      FilterMapKeeps(xs[1..], f, p);
    }
  }

  /** The list `Array(hash[k])` is strictly smaller than the hash it was read
      from, so recursion through it terminates. */
  lemma {:induction false} ArrayOfGetSmaller(ms: seq<Member>, k: string)
    ensures SizeSeq(ArrayOf(Get(ms, k))) < Size(JObj(ms))
  {
    if HasKey(ms, k) {
      var i :| 0 <= i < |ms| && ms[i].key == k && ms[i].value == Get(ms, k);
      MemberSmaller(ms, i);
    }
  }

  lemma {:induction false} MemberSmaller(ms: seq<Member>, i: nat)
    requires i < |ms|
    ensures Size(ms[i].value) < SizeMembers(ms)
  {
    if i > 0 {
      MemberSmaller(ms[1..], i - 1);
    }
  }

  lemma {:induction false} SizeSeqSplit(es: seq<Json>)
    requires es != []
    ensures SizeSeq(es) == Size(es[0]) + SizeSeq(es[1..])
  {
  }

  // ---------------------------------------------------------------------------
  // Integers and their decimal text

  predicate IsDigit(c: char)
  {
    '0' <= c <= '9'
  }

  function DigitValue(c: char): nat
    requires IsDigit(c)
  {
    (c as int) - ('0' as int)
  }

  function DigitChar(d: nat): (c: char)
    requires d < 10
    ensures IsDigit(c) && DigitValue(c) == d
  {
    ('0' as int + d) as char
  }

  function NatToString(n: nat): (s: string)
    ensures |s| >= 1
    ensures forall i :: 0 <= i < |s| ==> IsDigit(s[i])
  {
    if n < 10 then [DigitChar(n)] else NatToString(n / 10) + [DigitChar(n % 10)]
  }

  /** Integer#to_s in base 10. */
  function IntToString(n: int): (s: string)
    ensures |s| >= 1
    ensures n >= 0 ==> s == NatToString(n)
    ensures n < 0 ==> s == "-" + NatToString(-n)
  {
    if n < 0 then "-" + NatToString(-n) else NatToString(n)
  }

  /** The whitespace String#to_i skips before the number. */
  predicate IsIntSpace(c: char)
  {
    c == ' ' || c == '\t' || c == '\n' || c == '\U{000B}' || c == '\U{000C}' || c == '\r'
  }

  function SkipIntSpace(s: string): (t: string)
    ensures |t| <= |s| && t == s[|s| - |t|..]
    ensures t == [] || !IsIntSpace(t[0])
  {
    if s != [] && IsIntSpace(s[0]) then SkipIntSpace(s[1..]) else s
  }

  /** Reads the digits of a numeral that has already started, with `acc` the
      value so far; a single `_` between two digits is skipped. */
  function DigitRun(t: string, acc: nat): nat
  {
    if t != [] && IsDigit(t[0]) then DigitRun(t[1..], acc * 10 + DigitValue(t[0]))
    else if |t| >= 2 && t[0] == '_' && IsDigit(t[1]) then DigitRun(t[1..], acc)
    else acc
  }

  /** The value of the numeral at the head of `t` (0 when there is none),
      after an optional `0d` / `0D` radix prefix. */
  function UnsignedPrefix(t: string): nat
  {
    var u := if |t| >= 2 && t[0] == '0' && (t[1] == 'd' || t[1] == 'D') then t[2..] else t;
    if u != [] && IsDigit(u[0]) then DigitRun(u, 0) else 0
  }

  /** String#to_i: leading whitespace, an optional sign, then the longest
      numeral; text that is not a number gives 0. */
  function StrToI(s: string): int
  {
    var t := SkipIntSpace(s);
    if t != [] && t[0] == '-' then -(UnsignedPrefix(t[1..]) as int)
    else if t != [] && t[0] == '+' then UnsignedPrefix(t[1..])
    else UnsignedPrefix(t)
  }

  /** `x.to_i` on a parsed JSON value: defined for nil, Integer and String;
      booleans, arrays and hashes have no to_i. */
  function ToI(j: Json): (r: Result<int>)
    ensures r.Raised? <==> (j.JBool? || j.JArr? || j.JObj?)
    ensures j.JNull? ==> r == Ok(0)
    ensures j.JInt? ==> r == Ok(j.n)
    ensures j.JStr? ==> r == Ok(StrToI(j.s))
  {
    match j
    case JNull => Ok(0)
    case JInt(n) => Ok(n)
    case JStr(s) => Ok(StrToI(s))
    case JBool(_) => Raised(NoMethodError)
    case JArr(_) => Raised(NoMethodError)
    case JObj(_) => Raised(NoMethodError)
  }

  function Pow10(k: nat): (p: nat)
    ensures p >= 1
  {
    if k == 0 then 1 else 10 * Pow10(k - 1)
  }

  /** Appending one digit to an all-digit string multiplies by ten and adds. */
  lemma {:induction false} DigitRunAppend(t: string, d: char, acc: nat)
    requires forall i :: 0 <= i < |t| ==> IsDigit(t[i])
    requires IsDigit(d)
    ensures DigitRun(t + [d], acc) == DigitRun(t, acc) * 10 + DigitValue(d)
  {
    if t == [] {
      assert ([] + [d])[1..] == [];
    } else {
      assert (t + [d])[1..] == t[1..] + [d];
      DigitRunAppend(t[1..], d, acc * 10 + DigitValue(t[0]));
    }
  }

  /** Reading back the decimal text of n with nothing read before gives n. */
  lemma {:induction false} DigitRunOfNat(n: nat)
    ensures DigitRun(NatToString(n), 0) == n
  {
    if n < 10 {
      assert NatToString(n)[1..] == [];
    } else {
      var q, d := n / 10, n % 10;
      var hd := NatToString(q);
      DigitRunAppend(hd, DigitChar(d), 0);
      DigitRunOfNat(q);
      assert n == q * 10 + d;
    }
  }

  lemma {:induction false} NoLeadingZero(n: nat)
    ensures |NatToString(n)| >= 2 ==> NatToString(n)[0] != '0'
  {
    if n >= 10 {
      var q := n / 10;
      assert NatToString(n)[0] == NatToString(q)[0];
      if q < 10 {
        assert NatToString(q) == [DigitChar(q)];
      } else {
        NoLeadingZero(q);
      }
    }
  }

  lemma {:induction false} UnsignedPrefixOfNat(n: nat)
    ensures UnsignedPrefix(NatToString(n)) == n
  {
    NoLeadingZero(n);
    DigitRunOfNat(n);
  }

  /** Integer#to_s and String#to_i are inverse: a number written out in
      decimal and read back is the same number. */
  lemma {:induction false} StrToIOfIntToString(n: int)
    ensures StrToI(IntToString(n)) == n
  {
    var m: nat := if n < 0 then -n else n;
    var s := NatToString(m);
    UnsignedPrefixOfNat(m);
    if n < 0 {
      var t := "-" + s;
      assert t[0] == '-' && !IsIntSpace(t[0]);
      assert SkipIntSpace(t) == t;
      assert t[1..] == s;
      assert StrToI(t) == -(UnsignedPrefix(s) as int);
    } else {
      assert IsDigit(s[0]) && !IsIntSpace(s[0]);
      assert SkipIntSpace(s) == s;
      assert StrToI(s) == UnsignedPrefix(s);
    }
  }

  /** Decimal text is injective: different integers print differently. */
  lemma IntToStringInjective(a: int, b: int)
    requires IntToString(a) == IntToString(b)
    ensures a == b
  {
    StrToIOfIntToString(a);
    StrToIOfIntToString(b);
  }

  // ---------------------------------------------------------------------------
  // to_s and inspect

  /** `x.to_s`: nil is "", booleans and integers print as written, strings stay
      themselves, arrays and hashes print as `inspect` does. */
  function ToS(j: Json): (s: string)
    ensures j.JNull? ==> s == ""
    ensures j.JStr? ==> s == j.s
    ensures j.JBool? ==> s == (if j.b then "true" else "false")
    ensures j.JInt? ==> ToI(JStr(s)) == Ok(j.n)
  {
    match j
    case JNull => ""
    case JBool(b) => if b then "true" else "false"
    case JInt(n) => StrToIOfIntToString(n); IntToString(n)
    case JStr(s) => s
    case _ => Inspect(j)
  }

  function Inspect(j: Json): string
  {
    match j
    case JNull => "nil"
    case JBool(b) => if b then "true" else "false"
    case JInt(n) => IntToString(n)
    case JStr(s) => "\"" + EscapeStr(s) + "\""
    case JArr(es) => "[" + InspectElems(es) + "]"
    case JObj(ms) => "{" + InspectMembers(ms) + "}"
  }

  function InspectElems(es: seq<Json>): string
  {
    if es == [] then ""
    else if |es| == 1 then Inspect(es[0])
    else Inspect(es[0]) + ", " + InspectElems(es[1..])
  }

  function InspectMembers(ms: seq<Member>): string
  {
    if ms == [] then ""
    else
      var m := "\"" + EscapeStr(ms[0].key) + "\" => " + Inspect(ms[0].value);
      if |ms| == 1 then m else m + ", " + InspectMembers(ms[1..])
  }

  /** String#inspect escapes for quote, backslash, newline, tab, carriage
      return and a `#` that would start an interpolation. */
  function EscapeStr(s: string): string
  {
    if s == [] then ""
    else
      var c := s[0];
      var e :=
        if c == '"' then "\\\""
        else if c == '\\' then "\\\\"
        else if c == '\n' then "\\n"
        else if c == '\t' then "\\t"
        else if c == '\r' then "\\r"
        else if c == '#' && |s| >= 2 && (s[1] == '{' || s[1] == '$' || s[1] == '@') then "\\#"
        else [c];
      e + EscapeStr(s[1..])
  }

  // ---------------------------------------------------------------------------
  // String helpers

  predicate StartsWith(s: string, p: string)
  {
    |p| <= |s| && s[..|p|] == p
  }

  predicate EndsWith(s: string, p: string)
  {
    |p| <= |s| && s[|s| - |p|..] == p
  }

  predicate OccursAt(k: string, s: string, i: int)
  {
    0 <= i && i + |k| <= |s| && s[i..i + |k|] == k
  }

  predicate IsSubstring(k: string, s: string)
  {
    exists i :: 0 <= i <= |s| && OccursAt(k, s, i)
  }

  /** The characters String#strip removes: NUL, tab, line feed, vertical tab,
      form feed, carriage return and space. */
  predicate IsStripChar(c: char)
  {
    c == '\0' || c == '\t' || c == '\n' || c == '\U{000B}' || c == '\U{000C}' || c == '\r' || c == ' '
  }

  function TrimLeft(s: string): (t: string)
    ensures |t| <= |s| && t == s[|s| - |t|..]
    ensures t == [] || !IsStripChar(t[0])
  {
    if s != [] && IsStripChar(s[0]) then TrimLeft(s[1..]) else s
  }

  /** TrimLeft removes strip characters only. */
  lemma {:induction false} TrimLeftRemoves(s: string)
    ensures forall i :: 0 <= i < |s| - |TrimLeft(s)| ==> IsStripChar(s[i])
    decreases |s|
  {
    if s != [] && IsStripChar(s[0]) {
      TrimLeftRemoves(s[1..]);
      assert forall i :: 1 <= i < |s| ==> s[i] == s[1..][i - 1];
    }
  }

  function TrimRight(s: string): (t: string)
    ensures |t| <= |s| && t == s[..|t|]
    ensures t == [] || !IsStripChar(t[|t| - 1])
  {
    if s != [] && IsStripChar(s[|s| - 1]) then TrimRight(s[..|s| - 1]) else s
  }

  /** TrimRight removes strip characters only. */
  lemma {:induction false} TrimRightRemoves(s: string)
    ensures forall i :: |TrimRight(s)| <= i < |s| ==> IsStripChar(s[i])
    decreases |s|
  {
    if s != [] && IsStripChar(s[|s| - 1]) {
      TrimRightRemoves(s[..|s| - 1]);
    }
  }

  /** String#strip: the result neither starts nor ends with a strip character,
      and everything removed was one. */
  function Strip(s: string): (t: string)
    ensures t == [] || (!IsStripChar(t[0]) && !IsStripChar(t[|t| - 1]))
    ensures OccursAt(t, s, |s| - |TrimLeft(s)|)
  {
    var l := TrimLeft(s);
    var t := TrimRight(l);
    assert t != [] ==> t[0] == l[0];
    assert s[|s| - |l|..][..|t|] == s[|s| - |l|..|s| - |l| + |t|];
    t
  }

  /** Everything strip removes, before and after what it keeps, is a strip
      character. */
  lemma StripOnlyStripChars(s: string)
    ensures forall i :: 0 <= i < |s| - |TrimLeft(s)| ==> IsStripChar(s[i])
    ensures forall i :: |s| - |TrimLeft(s)| + |Strip(s)| <= i < |s| ==> IsStripChar(s[i])
  {
    var l := TrimLeft(s);
    var k := |s| - |l|;
    TrimLeftRemoves(s);
    TrimRightRemoves(l);
    assert Strip(s) == TrimRight(l);
    forall i | k + |Strip(s)| <= i < |s|
      ensures IsStripChar(s[i])
    {
      assert s[i] == l[i - k];
    }
  }

  /** Stripping a blank string leaves a blank string. */
  lemma StripBlank(s: string)
    requires BlankStr(s)
    ensures BlankStr(Strip(s))
  {
    var t := Strip(s);
    var k := |s| - |TrimLeft(s)|;
    assert t == s[k..k + |t|];
    forall i | 0 <= i < |t|
      ensures IsBlankChar(t[i])
    {
      assert t[i] == s[k + i];
    }
  }

  /** A string that neither starts nor ends with a strip character is its
      own strip. */
  lemma StripUnchanged(s: string)
    requires s == [] || (!IsStripChar(s[0]) && !IsStripChar(s[|s| - 1]))
    ensures Strip(s) == s
  {
    if s != [] {
      assert TrimLeft(s) == s;
      assert TrimRight(s) == s;
    }
  }

  lemma {:induction false} StripIdempotent(s: string)
    ensures Strip(Strip(s)) == Strip(s)
  {
    StripUnchanged(Strip(s));
  }

  /** String#downcase on ASCII letters. */
  function Lower(c: char): char
  {
    if 'A' <= c <= 'Z' then (c as int + 32) as char else c
  }

  function Downcase(s: string): (t: string)
    ensures |t| == |s|
    ensures forall i :: 0 <= i < |s| ==> t[i] == Lower(s[i])
  {
    if s == [] then [] else [Lower(s[0])] + Downcase(s[1..])
  }

  lemma DowncaseIdempotent(s: string)
    ensures Downcase(Downcase(s)) == Downcase(s)
  {
  }
}
