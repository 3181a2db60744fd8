/** The evidence sanitiser: what may be forwarded of a product's evidence. */
module Sanitizer {
  import opened LineText
  import opened Sums
  import opened Text
  import opened Wire

  /**
   * A value of an evidence map. Strings is Go's []string, which the code treats apart from a list
   * of values; Foreign is any other type, given by what its JSON form reads back as, if it has one.
   */
  datatype Value =
    | Null
    | Bool(b: bool)
    | Number(n: int)
    | Text(s: string)
    | Object(members: map<string, Value>)
    | List(items: seq<Value>)
    | Strings(texts: seq<string>)
    | Foreign(json: Option<Value>)

  const MAX_KEYS: nat := 24
  const MAX_STRING: nat := 400
  const MAX_LIST: nat := 12
  const MAX_DEPTH: nat := 3

  const ELLIPSIS: char := '\U{2026}'
  const TOO_DEEP := Text("[omitted: nested too deep]")
  const NOT_SERIALISABLE := Text("[omitted: not serialisable]")

  const MARKERS: seq<string> := [
    "password", "passwd", "passphrase", "secret", "token", "apikey",
    "api_key", "api-key", "private", "credential", "cookie", "session",
    "authorization", "bearer", "license_key", "licence_key", "signature"]

  predicate PartAt(s: string, part: string, i: int)
  {
    0 <= i <= |s| - |part| && s[i..i + |part|] == part
  }

  predicate Contains(s: string, part: string)
  {
    exists i :: 0 <= i <= |s| && PartAt(s, part, i)
  }

  predicate IsSecret(k: string)
  {
    exists m :: m in MARKERS && Contains(Lower(k), m)
  }

  function Truncate(s: string, n: nat): string
  {
    if |s| <= n then s else s[..n] + [ELLIPSIS]
  }

  /** The keys that may be shown at all. */
  function Shown(ks: set<string>): set<string>
  {
    set k | k in ks && !IsSecret(k)
  }

  /** The keys of ks that sort before k. */
  function Smaller(ks: set<string>, k: string): set<string>
  {
    set j | j in ks && Before(j, k)
  }

  /** The first MAX_KEYS keys that may be shown: those with fewer than that many such keys before them. */
  function Kept(ks: set<string>): set<string>
  {
    set k | k in Shown(ks) && |Smaller(Shown(ks), k)| < MAX_KEYS
  }

  function AtMost(n: nat, bound: nat): nat
  {
    if n > bound then bound else n
  }

  function Sanitized(v: Value, depth: nat): (r: Value)
    ensures !r.Strings? && !r.Foreign?
    decreases v
  {
    match v
    case Text(s) => Text(Truncate(s, MAX_STRING))
    case Object(m) =>
      if depth >= MAX_DEPTH then TOO_DEEP
      else Object(map k | k in Kept(m.Keys) :: Sanitized(m[k], depth + 1))
    case List(vs) =>
      if depth >= MAX_DEPTH then TOO_DEEP
      else List(seq(AtMost(|vs|, MAX_LIST), i requires 0 <= i < |vs| => Sanitized(vs[i], depth + 1)))
    case Strings(ss) =>
      List(seq(AtMost(|ss|, MAX_LIST), i requires 0 <= i < |ss| => Text(Truncate(ss[i], MAX_STRING))))
    case Foreign(None) => NOT_SERIALISABLE
    case Foreign(Some(j)) => Sanitized(j, depth)
    case _ => v
  }

  /** The copy of an evidence map that may be forwarded. */
  function Evidence(m: map<string, Value>): map<string, Value>
  {
    map k | k in Kept(m.Keys) :: Sanitized(m[k], 1)
  }

  // ---------------------------------------------------------------- the keys that are kept

  predicate Ordered(s: seq<string>)
  {
    forall i, j :: 0 <= i < j < |s| ==> Before(s[i], s[j])
  }

  function Elements(s: seq<string>): set<string>
  {
    set k | k in s
  }

  lemma {:induction false} OrderedCount(s: seq<string>)
    requires Ordered(s)
    ensures |Elements(s)| == |s|
  {
    if s != [] {
      var rest := s[..|s| - 1];
      OrderedCount(rest);
      assert s == rest + [s[|s| - 1]];
      assert Elements(s) == Elements(rest) + {s[|s| - 1]};
      forall k | k in rest
        ensures k != s[|s| - 1]
      {
        BeforeAsymmetric(k, k);
      }
    }
  }

  /** The place of a key in the sorted list is the number of keys before it. */
  lemma PlaceInOrder(s: seq<string>, i: nat)
    requires Ordered(s) && i < |s|
    ensures |Smaller(Elements(s), s[i])| == i
  {
    forall k
      ensures k in Smaller(Elements(s), s[i]) <==> k in Elements(s[..i])
    {
      if k in s && Before(k, s[i]) {
        var j :| 0 <= j < |s| && s[j] == k;
        BeforeAsymmetric(s[i], s[j]);
        assert j < i;
        assert s[..i][j] == k;
      }
    }
    assert Smaller(Elements(s), s[i]) == Elements(s[..i]);
    OrderedCount(s[..i]);
  }

  /** Sorting the keys and cutting the list keeps exactly Kept. */
  lemma FirstInOrder(ks: set<string>, s: seq<string>)
    requires Ordered(s) && Elements(s) == Shown(ks)
    ensures Kept(ks) == Elements(s[..AtMost(|s|, MAX_KEYS)])
    ensures |Kept(ks)| == AtMost(|Shown(ks)|, MAX_KEYS)
  {
    var n := AtMost(|s|, MAX_KEYS);
    forall k
      ensures k in Kept(ks) <==> k in s[..n]
    {
      if k in s {
        var i :| 0 <= i < |s| && s[i] == k;
        PlaceInOrder(s, i);
        if i < n {
          assert s[..n][i] == k;
        }
      }
      if k in s[..n] {
        var i :| 0 <= i < n && s[..n][i] == k;
        PlaceInOrder(s, i);
        assert s[i] == k;
      }
    }
    assert Kept(ks) == Elements(s[..n]);
    OrderedCount(s);
    OrderedCount(s[..n]);
  }

  function InsertKey(s: seq<string>, k: string): seq<string>
  {
    if s == [] || Before(k, s[0]) then [k] + s else [s[0]] + InsertKey(s[1..], k)
  }

  lemma {:induction false} InsertKeepsOrder(s: seq<string>, k: string)
    requires Ordered(s) && k !in s
    ensures Ordered(InsertKey(s, k)) && Elements(InsertKey(s, k)) == Elements(s) + {k}
  {
    if s != [] {
      var rest := s[1..];
      assert s == [s[0]] + rest;
      if Before(k, s[0]) {
        forall i | 0 <= i < |rest|
          ensures Before(k, rest[i])
        {
          BeforeTransitive(k, s[0], s[i + 1]);
        }
      } else {
        InsertKeepsOrder(rest, k);
        BeforeTotal(k, s[0]);
        var more := InsertKey(rest, k);
        forall i | 0 <= i < |more|
          ensures Before(s[0], more[i])
        {
          assert more[i] in Elements(more);
          if more[i] != k {
            var j :| 0 <= j < |rest| && rest[j] == more[i];
            assert s[j + 1] == more[i];
          }
        }
        assert Elements([s[0]] + more) == {s[0]} + Elements(more);
        assert Elements(s) == {s[0]} + Elements(rest);
      }
    }
  }

  lemma {:induction false} OrderExists(ks: set<string>) returns (s: seq<string>)
    ensures Ordered(s) && Elements(s) == ks
  {
    if ks == {} {
      s := [];
    } else {
      var k :| k in ks;
      s := OrderExists(ks - {k});
      assert k !in s by {
        assert k !in Elements(s);
      }
      InsertKeepsOrder(s, k);
      s := InsertKey(s, k);
    }
  }

  /** Every key map keeps as many keys as it may, and no kept key has a dropped one before it. */
  lemma KeptIsFirst(ks: set<string>)
    ensures |Kept(ks)| == AtMost(|Shown(ks)|, MAX_KEYS)
    ensures forall j, k :: j in Shown(ks) && k in Kept(ks) && Before(j, k) ==> j in Kept(ks)
  {
    var s := OrderExists(Shown(ks));
    FirstInOrder(ks, s);
    forall j, k | j in Shown(ks) && k in Kept(ks) && Before(j, k)
      ensures j in Kept(ks)
    {
      forall i | i in Smaller(Shown(ks), j)
        ensures i in Smaller(Shown(ks), k)
      {
        BeforeTransitive(i, j, k);
      }
      Fewer(Smaller(Shown(ks), j), Smaller(Shown(ks), k));
    }
  }

  lemma {:induction false} Fewer<T>(a: set<T>, b: set<T>)
    requires a <= b
    ensures |a| <= |b|
  {
    assert b == a + (b - a);
  }

  // ---------------------------------------------------------------- what comes out

  lemma MembersOf(m: map<string, Value>, depth: nat)
    requires depth < MAX_DEPTH
    ensures var r := Sanitized(Object(m), depth);
            r.Object? && r.members.Keys == Kept(m.Keys) && Kept(m.Keys) <= m.Keys &&
            forall k :: k in r.members ==> r.members[k] == Sanitized(m[k], depth + 1)
  {
    hide IsSecret;
  }

  lemma ItemsOf(vs: seq<Value>, depth: nat)
    requires depth < MAX_DEPTH
    ensures var r := Sanitized(List(vs), depth);
            r.List? && |r.items| == AtMost(|vs|, MAX_LIST) &&
            forall i :: 0 <= i < |r.items| ==> r.items[i] == Sanitized(vs[i], depth + 1)
  {
  }

  /** What leaves the sanitiser at a given depth: no secret key anywhere, and everything within limits. */
  predicate Clean(v: Value, depth: nat)
    decreases v
  {
    match v
    case Text(s) => |s| <= 401
    case Object(m) =>
      depth < 3 && |m.Keys| <= 24 &&
      forall k :: k in m ==> !IsSecret(k) && Clean(m[k], depth + 1)
    case List(vs) =>
      |vs| <= 12 &&
      forall i :: 0 <= i < |vs| ==> Clean(vs[i], depth + 1) && (depth >= 3 ==> vs[i].Text?)
    case Strings(_) => false
    case Foreign(_) => false
    case _ => true
  }

  lemma CleanMembers(m: map<string, Value>, depth: nat)
    requires depth < MAX_DEPTH
    requires forall k :: k in Kept(m.Keys) ==> Clean(Sanitized(m[k], depth + 1), depth + 1)
    ensures Clean(Sanitized(Object(m), depth), depth)
  {
    KeptIsFirst(m.Keys);
    MembersOf(m, depth);
    hide Sanitized, IsSecret;
    var out := Sanitized(Object(m), depth).members;
    assert forall k :: k in out ==> !IsSecret(k);
    hide Kept;
  }

  lemma CleanItems(vs: seq<Value>, depth: nat)
    requires depth < MAX_DEPTH
    requires forall i :: 0 <= i < AtMost(|vs|, MAX_LIST) ==> Clean(Sanitized(vs[i], depth + 1), depth + 1)
    ensures Clean(Sanitized(List(vs), depth), depth)
  {
    ItemsOf(vs, depth);
    hide Sanitized, IsSecret;
  }

  lemma {:induction false} SanitizedIsClean(v: Value, depth: nat)
    ensures Clean(Sanitized(v, depth), depth)
    decreases v
  {
    if v.Object? && depth < MAX_DEPTH {
      hide Sanitized, Clean, IsSecret;
      forall k | k in Kept(v.members.Keys)
        ensures Clean(Sanitized(v.members[k], depth + 1), depth + 1)
      {
        SanitizedIsClean(v.members[k], depth + 1);
      }
      CleanMembers(v.members, depth);
    } else if v.List? && depth < MAX_DEPTH {
      hide Sanitized, Clean;
      forall i | 0 <= i < AtMost(|v.items|, MAX_LIST)
        ensures Clean(Sanitized(v.items[i], depth + 1), depth + 1)
      {
        SanitizedIsClean(v.items[i], depth + 1);
      }
      CleanItems(v.items, depth);
    } else if v.Foreign? && v.json.Some? {
      SanitizedIsClean(v.json.value, depth);
    }
  }

  /** The values in v that hold no other value; an empty map or list counts as one. */
  ghost function Leaves(v: Value): int
    decreases v
  {
    match v
    case Object(m) => if m == map[] then 1 else Sum(map k | k in m :: Leaves(m[k]))
    case List(vs) => if vs == [] then 1 else Sum(map i | 0 <= i < |vs| :: Leaves(vs[i]))
    case _ => 1
  }

  /** What a clean value can hold at most at a given depth. */
  function Capacity(depth: nat): (c: nat)
    ensures c >= MAX_LIST
    decreases MAX_DEPTH - depth
  {
    if depth >= MAX_DEPTH then MAX_LIST else MAX_KEYS * Capacity(depth + 1)
  }

  lemma {:induction false} SumAtMost<K(!new)>(m: map<K, int>, most: int)
    requires forall k :: k in m ==> m[k] <= most
    ensures Sum(m) <= |m| * most
  {
    if m != map[] {
      var k :| k in m;
      SumRemove(m, k);
      assert |m - {k}| == |m| - 1 by {
        assert (m - {k}).Keys == m.Keys - {k};
      }
      SumAtMost(m - {k}, most);
      OneMore(|m|, most);
    }
  }

  lemma OneMore(n: int, most: int)
    ensures n * most == most + (n - 1) * most
  {
  }

  lemma Scale(n: int, count: int, most: nat)
    requires n <= count
    ensures n * most <= count * most
  {
  }

  lemma SumWithin<K(!new)>(m: map<K, int>, count: nat, most: nat)
    requires forall k :: k in m ==> m[k] <= most
    requires |m| <= count
    ensures Sum(m) <= count * most
  {
    SumAtMost(m, most);
    Scale(|m|, count, most);
  }

  lemma MembersFit(m: map<string, Value>, depth: nat)
    requires depth < MAX_DEPTH && |m.Keys| <= MAX_KEYS
    requires forall k :: k in m ==> Leaves(m[k]) <= Capacity(depth + 1)
    ensures Leaves(Object(m)) <= Capacity(depth)
  {
    if m != map[] {
      var leaves := map k | k in m :: Leaves(m[k]);
      assert Leaves(Object(m)) == Sum(leaves);
      hide Leaves;
      assert leaves.Keys == m.Keys;
      SumWithin(leaves, MAX_KEYS, Capacity(depth + 1));
    }
  }

  lemma ItemsFit(vs: seq<Value>, most: nat)
    requires |vs| <= MAX_LIST && most > 0
    requires forall i :: 0 <= i < |vs| ==> Leaves(vs[i]) <= most
    ensures Leaves(List(vs)) <= MAX_LIST * most
  {
    if vs != [] {
      var leaves := map i | 0 <= i < |vs| :: Leaves(vs[i]);
      assert Leaves(List(vs)) == Sum(leaves);
      hide Leaves;
      Indices(leaves, |vs|);
      SumWithin(leaves, MAX_LIST, most);
    }
  }

  lemma {:induction false} CleanFits(v: Value, depth: nat)
    requires Clean(v, depth)
    ensures Leaves(v) <= Capacity(depth)
    decreases v
  {
    if v.Object? {
      forall k | k in v.members
        ensures Leaves(v.members[k]) <= Capacity(depth + 1)
      {
        CleanFits(v.members[k], depth + 1);
      }
      MembersFit(v.members, depth);
    } else if v.List? && depth < MAX_DEPTH {
      forall i | 0 <= i < |v.items|
        ensures Leaves(v.items[i]) <= Capacity(depth + 1)
      {
        CleanFits(v.items[i], depth + 1);
      }
      ItemsFit(v.items, Capacity(depth + 1));
    } else if v.List? {
      ItemsFit(v.items, 1);
    }
  }

  lemma {:induction false} Indices<V>(m: map<int, V>, n: nat)
    requires forall i :: i in m <==> 0 <= i < n
    ensures |m| == n
  {
    if n == 0 {
      assert forall i :: i !in m;
      assert m.Keys == {};
    } else {
      Indices(m - {n - 1}, n - 1);
      assert m.Keys == (m - {n - 1}).Keys + {n - 1};
    }
  }

  /**
   * Whatever the evidence was: no secret key at any depth, every map, list and string within its
   * limit, and a bounded number of values in all.
   */
  lemma EvidenceIsBounded(m: map<string, Value>)
    ensures Clean(Object(Evidence(m)), 0)
    ensures Leaves(Object(Evidence(m))) <= 24 * 24 * 24 * 12
  {
    EvidenceIsSanitized(m);
    SanitizedIsClean(Object(m), 0);
    CleanFits(Object(Evidence(m)), 0);
    assert Capacity(3) == 12;
    assert Capacity(2) == 24 * 12;
    assert Capacity(1) == 24 * 24 * 12;
  }

  lemma EvidenceIsSanitized(m: map<string, Value>)
    ensures Sanitized(Object(m), 0) == Object(Evidence(m))
  {
    assert Sanitized(Object(m), 0).members == Evidence(m);
  }

  // ---------------------------------------------------------------- sanitising again

  /** What needs no sanitising at a given depth. */
  predicate Tidy(v: Value, depth: nat)
    decreases v
  {
    match v
    case Text(s) => |s| <= MAX_STRING || (|s| == MAX_STRING + 1 && s[MAX_STRING] == ELLIPSIS)
    case Object(m) =>
      depth < MAX_DEPTH && |m.Keys| <= MAX_KEYS &&
      forall k :: k in m ==> !IsSecret(k) && Tidy(m[k], depth + 1)
    case List(vs) =>
      depth < MAX_DEPTH && |vs| <= MAX_LIST &&
      forall i :: 0 <= i < |vs| ==> Tidy(vs[i], depth + 1)
    case Strings(_) => false
    case Foreign(_) => false
    case _ => true
  }

  /** The sanitiser leaves a value alone exactly when it is tidy. */
  lemma {:induction false} FixedIffTidy(v: Value, depth: nat)
    ensures Sanitized(v, depth) == v <==> Tidy(v, depth)
    decreases v
  {
    if v.Text? {
      TruncateFixedIff(v.s, MAX_STRING);
    } else if v.Object? && depth < MAX_DEPTH {
      forall k | k in v.members
        ensures Sanitized(v.members[k], depth + 1) == v.members[k] <==> Tidy(v.members[k], depth + 1)
      {
        FixedIffTidy(v.members[k], depth + 1);
      }
      FixedMembersIff(v.members, depth);
    } else if v.List? && depth < MAX_DEPTH {
      forall i | 0 <= i < |v.items|
        ensures Sanitized(v.items[i], depth + 1) == v.items[i] <==> Tidy(v.items[i], depth + 1)
      {
        FixedIffTidy(v.items[i], depth + 1);
      }
      FixedItemsIff(v.items, depth);
    }
  }

  lemma FixedMembersIff(m: map<string, Value>, depth: nat)
    requires depth < MAX_DEPTH
    requires forall k :: k in m ==> (Sanitized(m[k], depth + 1) == m[k] <==> Tidy(m[k], depth + 1))
    ensures Sanitized(Object(m), depth) == Object(m) <==> Tidy(Object(m), depth)
  {
    MembersOf(m, depth);
    KeptIsAllIff(m.Keys);
    hide Sanitized, Kept, IsSecret;
    var out := Sanitized(Object(m), depth).members;
    if Tidy(Object(m), depth) {
      assert out == m;
    }
    if out == m {
      assert Tidy(Object(m), depth);
    }
  }

  lemma FixedItemsIff(vs: seq<Value>, depth: nat)
    requires depth < MAX_DEPTH
    requires forall i :: 0 <= i < |vs| ==> (Sanitized(vs[i], depth + 1) == vs[i] <==> Tidy(vs[i], depth + 1))
    ensures Sanitized(List(vs), depth) == List(vs) <==> Tidy(List(vs), depth)
  {
    ItemsOf(vs, depth);
    hide Sanitized;
    var out := Sanitized(List(vs), depth).items;
    if Tidy(List(vs), depth) {
      assert out == vs;
    }
    if out == vs {
      assert Tidy(List(vs), depth);
    }
  }

  lemma TruncateFixedIff(s: string, n: nat)
    ensures Truncate(s, n) == s <==> |s| <= n || (|s| == n + 1 && s[n] == ELLIPSIS)
  {
    if |s| == n + 1 {
      assert s == s[..n] + [s[n]];
    }
  }

  lemma KeptIsAllIff(ks: set<string>)
    ensures Kept(ks) == ks <==> |ks| <= MAX_KEYS && forall k :: k in ks ==> !IsSecret(k)
  {
    KeptIsFirst(ks);
    if |ks| <= MAX_KEYS && forall k :: k in ks ==> !IsSecret(k) {
      assert Shown(ks) == ks;
      forall k | k in ks
        ensures k in Kept(ks)
      {
        BeforeAsymmetric(k, k);
        assert Smaller(ks, k) <= ks - {k};
        Fewer(Smaller(ks, k), ks - {k});
      }
    }
  }

  /** A []string reached below the deepest level where a list of values is still kept. */
  predicate DeepStrings(v: Value, depth: nat)
    decreases v
  {
    match v
    case Strings(_) => depth >= MAX_DEPTH
    case Object(m) => depth < MAX_DEPTH && exists k :: k in Kept(m.Keys) && DeepStrings(m[k], depth + 1)
    case List(vs) =>
      depth < MAX_DEPTH && exists i :: 0 <= i < AtMost(|vs|, MAX_LIST) && DeepStrings(vs[i], depth + 1)
    case Foreign(Some(j)) => DeepStrings(j, depth)
    case _ => false
  }

  lemma TidyMembersIff(m: map<string, Value>, depth: nat)
    requires depth < MAX_DEPTH
    requires forall k :: k in Kept(m.Keys) ==>
      (Tidy(Sanitized(m[k], depth + 1), depth + 1) <==> !DeepStrings(m[k], depth + 1))
    ensures Tidy(Sanitized(Object(m), depth), depth) <==> !DeepStrings(Object(m), depth)
  {
    KeptIsFirst(m.Keys);
    MembersOf(m, depth);
    hide Sanitized, IsSecret;
    var out := Sanitized(Object(m), depth).members;
    assert forall k :: k in out ==> !IsSecret(k);
    hide Kept;
    if k :| k in out && !Tidy(out[k], depth + 1) {
      assert DeepStrings(m[k], depth + 1);
    }
  }

  lemma TidyItemsIff(vs: seq<Value>, depth: nat)
    requires depth < MAX_DEPTH
    requires forall i :: 0 <= i < AtMost(|vs|, MAX_LIST) ==>
      (Tidy(Sanitized(vs[i], depth + 1), depth + 1) <==> !DeepStrings(vs[i], depth + 1))
    ensures Tidy(Sanitized(List(vs), depth), depth) <==> !DeepStrings(List(vs), depth)
  {
    ItemsOf(vs, depth);
    hide Sanitized;
    var out := Sanitized(List(vs), depth).items;
    if i :| 0 <= i < |out| && !Tidy(out[i], depth + 1) {
      assert DeepStrings(vs[i], depth + 1);
    }
  }

  lemma {:induction false} TidyAfterIff(v: Value, depth: nat)
    ensures Tidy(Sanitized(v, depth), depth) <==> !DeepStrings(v, depth)
    decreases v
  {
    if v.Object? && depth < MAX_DEPTH {
      hide Sanitized, Tidy, DeepStrings, IsSecret;
      forall k | k in Kept(v.members.Keys)
        ensures Tidy(Sanitized(v.members[k], depth + 1), depth + 1) <==> !DeepStrings(v.members[k], depth + 1)
      {
        TidyAfterIff(v.members[k], depth + 1);
      }
      TidyMembersIff(v.members, depth);
    } else if v.List? && depth < MAX_DEPTH {
      hide Sanitized, Tidy, DeepStrings;
      forall i | 0 <= i < AtMost(|v.items|, MAX_LIST)
        ensures Tidy(Sanitized(v.items[i], depth + 1), depth + 1) <==> !DeepStrings(v.items[i], depth + 1)
      {
        TidyAfterIff(v.items[i], depth + 1);
      }
      TidyItemsIff(v.items, depth);
    } else if v.Foreign? && v.json.Some? {
      TidyAfterIff(v.json.value, depth);
    }
  }

  /** Sanitising twice is sanitising once exactly when no []string sits too deep. */
  lemma IdempotentIff(v: Value, depth: nat)
    ensures Sanitized(Sanitized(v, depth), depth) == Sanitized(v, depth) <==> !DeepStrings(v, depth)
  {
    FixedIffTidy(Sanitized(v, depth), depth);
    TidyAfterIff(v, depth);
  }

  /** What decoding JSON yields: no []string, and no type of a product's own. */
  predicate JsonShaped(v: Value)
    decreases v
  {
    match v
    case Object(m) => forall k :: k in m ==> JsonShaped(m[k])
    case List(vs) => forall i :: 0 <= i < |vs| ==> JsonShaped(vs[i])
    case Strings(_) => false
    case Foreign(_) => false
    case _ => true
  }

  lemma {:induction false} JsonHasNoDeepStrings(v: Value, depth: nat)
    requires JsonShaped(v)
    ensures !DeepStrings(v, depth)
    decreases v
  {
    match v
    case Object(m) =>
      forall k | k in Kept(m.Keys)
        ensures !DeepStrings(m[k], depth + 1)
      {
        JsonHasNoDeepStrings(m[k], depth + 1);
      }
    case List(vs) =>
      forall i | 0 <= i < |vs|
        ensures !DeepStrings(vs[i], depth + 1)
      {
        JsonHasNoDeepStrings(vs[i], depth + 1);
      }
    case _ =>
  }

  lemma JsonEvidenceIsSettled(m: map<string, Value>)
    requires JsonShaped(Object(m))
    ensures Evidence(Evidence(m)) == Evidence(m)
  {
    JsonHasNoDeepStrings(Object(m), 0);
    IdempotentIff(Object(m), 0);
    EvidenceIsSanitized(m);
    EvidenceIsSanitized(Evidence(m));
  }

  /** A []string three levels down comes out as a list the second pass omits. */
  lemma DeepStringsExample()
    ensures var m := map["a" := Object(map["b" := Object(map["c" := Strings([])])])];
            Evidence(Evidence(m)) != Evidence(m)
  {
    var m := map["a" := Object(map["b" := Object(map["c" := Strings([])])])];
    KeptAlone("a", 'a');
    KeptAlone("b", 'b');
    KeptAlone("c", 'c');
    assert DeepStrings(Strings([]), 3);
    assert DeepStrings(m["a"].members["b"], 2) by {
      assert m["a"].members["b"].members.Keys == {"c"};
      assert "c" in Kept({"c"});
    }
    assert DeepStrings(m["a"], 1) by {
      assert m["a"].members.Keys == {"b"};
      assert "b" in Kept({"b"});
    }
    assert DeepStrings(Object(m), 0) by {
      assert m.Keys == {"a"};
      assert "a" in Kept({"a"});
    }
    IdempotentIff(Object(m), 0);
    EvidenceIsSanitized(m);
    EvidenceIsSanitized(Evidence(m));
  }

  lemma KeptAlone(k: string, c: char)
    requires k == [c]
    ensures Kept({k}) == {k}
  {
    forall m | m in MARKERS
      ensures !Contains(Lower(k), m)
    {
      assert |m| > 1;
    }
    KeptIsAllIff({k});
  }

  // ---------------------------------------------------------------- the code itself

  method SortStrings(keys: seq<string>) returns (sorted: seq<string>)
    requires forall i, j :: 0 <= i < j < |keys| ==> keys[i] != keys[j]
    ensures Ordered(sorted) && Elements(sorted) == Elements(keys)
  {
    sorted := [];
    for i := 0 to |keys|
      invariant Ordered(sorted) && Elements(sorted) == Elements(keys[..i])
    {
      assert keys[i] !in Elements(keys[..i]);
      assert forall k :: k in sorted ==> k in Elements(sorted);
      InsertKeepsOrder(sorted, keys[i]);
      sorted := InsertKey(sorted, keys[i]);
      assert keys[..i + 1] == keys[..i] + [keys[i]];
    }
    assert keys[..|keys|] == keys;
  }

  /** The loop over a Go map, whose order is not fixed. */
  method ShownKeys(m: map<string, Value>) returns (keys: seq<string>)
    ensures Elements(keys) == Shown(m.Keys)
    ensures forall i, j :: 0 <= i < j < |keys| ==> keys[i] != keys[j]
  {
    hide IsSecret;
    keys := [];
    var rest := m.Keys;
    while rest != {}
      invariant rest <= m.Keys
      invariant Elements(keys) == Shown(m.Keys - rest)
      invariant forall i, j :: 0 <= i < j < |keys| ==> keys[i] != keys[j]
      decreases |rest|
    {
      var k :| k in rest;
      assert k !in Elements(keys);
      assert Elements(keys + [k]) == Elements(keys) + {k};
      assert Shown(m.Keys - (rest - {k})) == Shown(m.Keys - rest) + Shown({k});
      rest := rest - {k};
      if !IsSecret(k) {
        keys := keys + [k];
      }
    }
    assert m.Keys - rest == m.Keys;
  }

  method SanitizeMap(m: map<string, Value>, depth: nat, ghost whole: Value)
    returns (out: map<string, Value>)
    requires whole == Object(m)
    ensures out == map k | k in Kept(m.Keys) :: Sanitized(m[k], depth)
    decreases whole, 1
  {
    hide IsSecret, Sanitized, Ordered;
    var keys := ShownKeys(m);
    keys := SortStrings(keys);
    FirstInOrder(m.Keys, keys);
    if |keys| > MAX_KEYS {
      keys := keys[..MAX_KEYS];
    }
    assert Elements(keys) == Kept(m.Keys) <= m.Keys;
    hide Kept, Elements;
    out := CopyKeys(m, keys, depth, whole);
  }

  method CopyKeys(m: map<string, Value>, keys: seq<string>, depth: nat, ghost whole: Value)
    returns (out: map<string, Value>)
    requires whole == Object(m) && Elements(keys) <= m.Keys
    ensures out == map k | k in Elements(keys) :: Sanitized(m[k], depth)
    decreases whole, 0
  {
    hide Sanitized;
    out := map[];
    for i := 0 to |keys|
      invariant out.Keys == Elements(keys[..i])
      invariant forall k :: k in out ==> k in m && out[k] == Sanitized(m[k], depth)
    {
      assert keys[i] in Elements(keys);
      var v := SanitizeValue(m[keys[i]], depth);
      out := out[keys[i] := v];
      assert keys[..i + 1] == keys[..i] + [keys[i]];
    }
    assert keys[..|keys|] == keys;
  }

  method SanitizeItems(vs: seq<Value>, depth: nat, ghost whole: Value) returns (out: seq<Value>)
    requires whole == List(vs)
    ensures out == seq(AtMost(|vs|, MAX_LIST), i requires 0 <= i < |vs| => Sanitized(vs[i], depth))
    decreases whole, 0
  {
    hide Sanitized;
    out := [];
    for i := 0 to AtMost(|vs|, MAX_LIST)
      invariant |out| == i
      invariant forall j :: 0 <= j < i ==> out[j] == Sanitized(vs[j], depth)
    {
      var item := SanitizeValue(vs[i], depth);
      out := out + [item];
    }
  }

  method TruncateAll(ss: seq<string>) returns (out: seq<Value>)
    ensures out == seq(AtMost(|ss|, MAX_LIST), i requires 0 <= i < |ss| => Text(Truncate(ss[i], MAX_STRING)))
  {
    out := [];
    for i := 0 to AtMost(|ss|, MAX_LIST)
      invariant |out| == i
      invariant forall j :: 0 <= j < i ==> out[j] == Text(Truncate(ss[j], MAX_STRING))
    {
      out := out + [Text(Truncate(ss[i], MAX_STRING))];
    }
  }

  method SanitizeValue(v: Value, depth: nat) returns (r: Value)
    ensures r == Sanitized(v, depth)
    decreases v, 2
  {
    hide Kept, Truncate;
    match v
    case Text(s) => r := Text(Truncate(s, MAX_STRING));
    case Object(m) =>
      if depth >= MAX_DEPTH {
        return TOO_DEEP;
      }
      var members := SanitizeMap(m, depth + 1, v);
      r := Object(members);
    case List(vs) =>
      if depth >= MAX_DEPTH {
        return TOO_DEEP;
      }
      var items := SanitizeItems(vs, depth + 1, v);
      r := List(items);
    case Strings(ss) =>
      var texts := TruncateAll(ss);
      r := List(texts);
    case Foreign(None) => r := NOT_SERIALISABLE;
    case Foreign(Some(j)) => r := SanitizeValue(j, depth);
    case _ => r := v;
  }

  method SanitizeEvidence(m: map<string, Value>) returns (out: map<string, Value>)
    ensures out == Evidence(m)
  {
    out := SanitizeMap(m, 1, Object(m));
  }
}
