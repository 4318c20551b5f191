/** List operations the sources take from Python: comprehensions, `sorted`, `dict.fromkeys`. */
module Sequences {

  function Map<T, U>(f: T -> U, s: seq<T>): (r: seq<U>)
    ensures |r| == |s| && forall i | 0 <= i < |s| :: r[i] == f(s[i])
  {
    seq(|s|, i requires 0 <= i < |s| => f(s[i]))
  }

  function Filter<T>(p: T -> bool, s: seq<T>): (r: seq<T>)
    ensures forall x <- r :: x in s && p(x)
    ensures forall x <- s | p(x) :: x in r
  {
    if s == [] then [] else if p(s[0]) then [s[0]] + Filter(p, s[1..]) else Filter(p, s[1..])
  }

  function Flatten<T>(ss: seq<seq<T>>): seq<T> {
    if ss == [] then [] else ss[0] + Flatten(ss[1..])
  }

  lemma Regroup<T>(a: seq<T>, b: seq<T>, c: seq<T>)
    ensures a + (b + c) == (a + b) + c
  {
  }

  lemma MapAppend<T, U>(f: T -> U, s: seq<T>, t: seq<T>)
    ensures Map(f, s + t) == Map(f, s) + Map(f, t)
  {
  }

  lemma {:induction false} FilterAppend<T>(p: T -> bool, s: seq<T>, t: seq<T>)
    ensures Filter(p, s + t) == Filter(p, s) + Filter(p, t)
  {
    if s == [] {
      assert s + t == t;
    } else {
      FilterAppend(p, s[1..], t);
      assert (s + t)[1..] == s[1..] + t;
    }
  }

  lemma {:induction false} FilterNone<T>(p: T -> bool, s: seq<T>)
    requires forall x <- s :: !p(x)
    ensures Filter(p, s) == []
  {
    if s != [] { FilterNone(p, s[1..]); }
  }

  lemma {:induction false} FilterAll<T>(p: T -> bool, s: seq<T>)
    requires forall x <- s :: p(x)
    ensures Filter(p, s) == s
  {
    if s != [] { FilterAll(p, s[1..]); }
  }

  lemma {:induction false} FlattenMembers<T(!new)>(ss: seq<seq<T>>, x: T)
    ensures x in Flatten(ss) <==> exists s <- ss :: x in s
  {
    if ss == [] {
    } else {
      FlattenMembers(ss[1..], x);
      assert ss == [ss[0]] + ss[1..];
    }
  }

  lemma {:induction false} FlattenAppend<T>(ss: seq<seq<T>>, tt: seq<seq<T>>, all: seq<seq<T>>)
    requires all == ss + tt
    ensures Flatten(all) == Flatten(ss) + Flatten(tt)
  {
    if ss == [] {
      assert all == tt;
    } else {
      FlattenAppend(ss[1..], tt, all[1..]);
      Regroup(ss[0], Flatten(ss[1..]), Flatten(tt));
    }
  }

  // ----- order -----

  /** Some `a` stands before some `b`. */
  ghost predicate Before<T(!new)>(s: seq<T>, a: T, b: T) {
    exists i, j :: 0 <= i < j < |s| && s[i] == a && s[j] == b
  }

  lemma BeforeCons<T(!new)>(x: T, s: seq<T>, a: T, b: T)
    ensures Before([x] + s, a, b) <==> (x == a && b in s) || Before(s, a, b)
  {
    var whole := [x] + s;
    if i, j :| 0 <= i < j < |whole| && whole[i] == a && whole[j] == b {
      assert whole[j] == s[j - 1];
      if i > 0 { assert whole[i] == s[i - 1]; }
    }
    if x == a && b in s {
      var j :| 0 <= j < |s| && s[j] == b;
      assert whole[0] == a && whole[j + 1] == b;
    }
    if i, j :| 0 <= i < j < |s| && s[i] == a && s[j] == b {
      assert whole[i + 1] == a && whole[j + 1] == b;
    }
  }

  /** What is kept of a list keeps its order. */
  lemma {:induction false} FilterBefore<T(!new)>(p: T -> bool, s: seq<T>, a: T, b: T)
    ensures Before(Filter(p, s), a, b) <==> Before(s, a, b) && p(a) && p(b)
  {
    if s == [] {
    } else {
      FilterBefore(p, s[1..], a, b);
      assert s == [s[0]] + s[1..];
      BeforeCons(s[0], s[1..], a, b);
      BeforeCons(s[0], Filter(p, s[1..]), a, b);
    }
  }

  /** `t` is `s` at the places `at`, in their order. */
  ghost predicate Selects<T(!new)>(s: seq<T>, at: seq<nat>, t: seq<T>) {
    && |at| == |t|
    && (forall k | 0 <= k < |at| :: at[k] < |s| && s[at[k]] == t[k])
    && (forall k, l | 0 <= k < l < |at| :: at[k] < at[l])
  }

  function Moved(at: seq<nat>): (r: seq<nat>)
    ensures |r| == |at| && forall k | 0 <= k < |r| :: r[k] == at[k] + 1
  {
    seq(|at|, k requires 0 <= k < |at| => at[k] + 1)
  }

  lemma SelectsTail<T(!new)>(s: seq<T>, at: seq<nat>, t: seq<T>)
    requires s != [] && Selects(s[1..], at, t)
    ensures Selects(s, Moved(at), t) && Selects(s, [0] + Moved(at), [s[0]] + t)
  {
    var moved := Moved(at);
    assert Selects(s, moved, t);
    var longer, longer' := [0] + moved, [s[0]] + t;
    forall k | 0 <= k < |longer| ensures longer[k] < |s| && s[longer[k]] == longer'[k] {
      if k > 0 { assert longer[k] == moved[k - 1] && longer'[k] == t[k - 1]; }
    }
  }

  lemma MovedHas(at: seq<nat>, i: nat)
    ensures i in Moved(at) <==> i > 0 && i - 1 in at
  {
    if i > 0 && i - 1 in at {
      var k :| 0 <= k < |at| && at[k] == i - 1;
      assert Moved(at)[k] == i;
    }
  }

  /** A comprehension keeps exactly the places its condition holds at. */
  lemma {:induction false} FilterSelects<T(!new)>(p: T -> bool, s: seq<T>) returns (at: seq<nat>)
    ensures Selects(s, at, Filter(p, s))
    ensures forall i: nat | i < |s| :: i in at <==> p(s[i])
  {
    if s == [] {
      at := [];
    } else {
      var rest := FilterSelects(p, s[1..]);
      SelectsTail(s, rest, Filter(p, s[1..]));
      at := if p(s[0]) then [0] + Moved(rest) else Moved(rest);
      forall i: nat | i < |s| ensures i in at <==> p(s[i]) {
        MovedHas(rest, i);
        if i > 0 { assert s[1..][i - 1] == s[i]; }
      }
    }
  }

  /** `t` is what stands in `s` at exactly the places with an element of `other`. */
  ghost predicate IsShared<T(!new)>(s: seq<T>, other: seq<T>, t: seq<T>) {
    exists at: seq<nat> :: SharedAt(s, other, at) && Selects(s, at, t)
  }

  ghost predicate SharedAt<T(!new)>(s: seq<T>, other: seq<T>, at: seq<nat>) {
    forall i: nat :: i in at <==> i < |s| && s[i] in other
  }

  lemma SharedIsFilter<T(!new)>(s: seq<T>, other: seq<T>, t: seq<T>)
    ensures IsShared(s, other, t) <==> t == Filter((x: T) => x in other, s)
  {
    var kept := Filter((x: T) => x in other, s);
    var at := FilterSelects((x: T) => x in other, s);
    assert SharedAt(s, other, at);
    forall at', t' | SharedAt(s, other, at') && Selects(s, at', t') ensures t' == kept {
      SamePlaces(at, at');
    }
  }

  /** Places in increasing order are determined by which they are. */
  lemma SamePlaces(at: seq<nat>, at': seq<nat>)
    requires forall k, l | 0 <= k < l < |at| :: at[k] < at[l]
    requires forall k, l | 0 <= k < l < |at'| :: at'[k] < at'[l]
    requires forall i: nat :: i in at <==> i in at'
    ensures at == at'
  {
    forall a, b | Before(at, a, b) ensures !Before(at', b, a) {}
    SameOrder(at, at');
  }

  lemma NeverBothWays<T(!new)>(s: seq<T>, a: T, b: T)
    requires NoDuplicates(s) && Before(s, a, b)
    ensures !Before(s, b, a)
  {
  }

  lemma HeadsEqual<T(!new)>(s: seq<T>, t: seq<T>)
    requires s != [] && t != [] && t[0] in s && s[0] in t
    requires forall a, b :: Before(s, a, b) ==> !Before(t, b, a)
    ensures s[0] == t[0]
  {
    if s[0] != t[0] {
      var i :| 0 <= i < |s| && s[i] == t[0];
      var j :| 0 <= j < |t| && t[j] == s[0];
      assert Before(s, s[0], t[0]) && Before(t, t[0], s[0]);
    }
  }

  lemma EmptyOrHasHead<T(!new)>(s: seq<T>)
    ensures s == [] || s[0] in s
  {
  }

  /** Lists of the same distinct elements are equal if no two elements stand differently in them. */
  lemma {:induction false} SameOrder<T(!new)>(s: seq<T>, t: seq<T>)
    requires NoDuplicates(s) && NoDuplicates(t)
    requires forall x :: x in s <==> x in t
    requires forall a, b :: Before(s, a, b) ==> !Before(t, b, a)
    ensures s == t
  {
    if s == [] {
      EmptyOrHasHead(t);
    } else {
      assert s[0] in s;
      assert t != [];
      assert t[0] in t;
      HeadsEqual(s, t);
      var s', t' := s[1..], t[1..];
      assert s == [s[0]] + s' && t == [s[0]] + t';
      forall x ensures x in s' <==> x in t' {
        assert x in s <==> x == s[0] || x in s';
        assert x in t <==> x == s[0] || x in t';
        assert s[0] !in s' && s[0] !in t';
      }
      forall a, b | Before(s', a, b) ensures !Before(t', b, a) {
        BeforeCons(s[0], s', a, b);
        BeforeCons(s[0], t', b, a);
      }
      SameOrder(s', t');
    }
  }

  lemma {:induction false} FilterDistinct<T(!new)>(p: T -> bool, s: seq<T>)
    requires NoDuplicates(s)
    ensures NoDuplicates(Filter(p, s))
  {
    if s == [] {
    } else {
      FilterDistinct(p, s[1..]);
      assert forall x <- s[1..] :: x != s[0];
    }
  }

  // ----- de-duplication in first-seen order -----

  ghost predicate NoDuplicates<T(!new)>(s: seq<T>) {
    forall i, j | 0 <= i < j < |s| :: s[i] != s[j]
  }

  /** `list(dict.fromkeys(s))`. */
  function Dedup<T(==)>(s: seq<T>): (r: seq<T>)
    ensures (forall x <- r :: x in s) && (forall x <- s :: x in r)
  {
    if s == [] then [] else
      var last := s[|s| - 1];
      var r := Dedup(s[..|s| - 1]);
      assert s == s[..|s| - 1] + [last];
      if last in r then r else r + [last]
  }

  lemma {:induction false} DedupDistinct<T(!new)>(s: seq<T>)
    ensures NoDuplicates(Dedup(s))
  {
    if s != [] { DedupDistinct(s[..|s| - 1]); }
  }

  /** Place `i` is where `x` is first met. */
  ghost predicate FirstAt<T(!new)>(s: seq<T>, i: nat, x: T) { i < |s| && s[i] == x && x !in s[..i] }

  /** `a` is first met before `b` is. */
  ghost predicate MetBefore<T(!new)>(s: seq<T>, a: T, b: T) {
    exists i: nat, j: nat :: i < j && FirstAt(s, i, a) && FirstAt(s, j, b)
  }

  /** De-duplication goes by where each element is first met. */
  lemma {:induction false} DedupFirstSeen<T(!new)>(s: seq<T>, a: T, b: T)
    ensures Before(Dedup(s), a, b) <==> MetBefore(s, a, b)
  {
    if s == [] {
    } else {
      var init, last := s[..|s| - 1], s[|s| - 1];
      assert s == init + [last];
      DedupFirstSeen(init, a, b);
      DedupNext(init, last, a, b);
      MetNext(init, last, a, b);
    }
  }

  lemma MetNext<T(!new)>(init: seq<T>, last: T, a: T, b: T)
    ensures MetBefore(init + [last], a, b) <==> MetBefore(init, a, b) || (last !in init && b == last && a in init)
  {
    var s := init + [last];
    FirstAtNext(init, last, a);
    FirstAtNext(init, last, b);
    if i: nat, j: nat :| i < j && FirstAt(init, i, a) && FirstAt(init, j, b) {
      assert FirstAt(s, i, a) && FirstAt(s, j, b);
    }
    if last !in init && b == last && a in init {
      var i := FirstMet(init, a);
      assert FirstAt(s, i, a) && FirstAt(s, |init|, b);
    }
    if i: nat, j: nat :| i < j && FirstAt(s, i, a) && FirstAt(s, j, b) {
      assert FirstAt(init, i, a);
    }
  }

  lemma FirstAtNext<T(!new)>(init: seq<T>, last: T, x: T)
    ensures forall i: nat :: FirstAt(init + [last], i, x) <==>
              FirstAt(init, i, x) || (i == |init| && last == x && x !in init)
  {
    var s := init + [last];
    forall i: nat ensures FirstAt(s, i, x) <==> FirstAt(init, i, x) || (i == |init| && last == x && x !in init) {
      if i <= |init| { assert s[..i] == init[..i]; }
      assert init[..|init|] == init;
    }
  }

  lemma DedupNext<T(!new)>(init: seq<T>, last: T, a: T, b: T)
    ensures Before(Dedup(init + [last]), a, b) <==>
              Before(Dedup(init), a, b) || (last !in init && b == last && a in init)
  {
    var s, r := init + [last], Dedup(init);
    assert s[..|s| - 1] == init;
    if last !in init {
      var r' := r + [last];
      assert Dedup(s) == r';
      if i, j :| 0 <= i < j < |r'| && r'[i] == a && r'[j] == b {
        assert r'[i] == r[i];
        if j < |r| { assert r'[j] == r[j]; }
      }
      if i, j :| 0 <= i < j < |r| && r[i] == a && r[j] == b { assert r'[i] == a && r'[j] == b; }
      if b == last && a in init {
        var i :| 0 <= i < |r| && r[i] == a;
        assert r'[i] == a && r'[|r|] == b;
      }
    }
  }

  lemma {:induction false} FirstMet<T(!new)>(s: seq<T>, x: T) returns (i: nat)
    requires x in s
    ensures FirstAt(s, i, x)
  {
    if s[|s| - 1] == x && x !in s[..|s| - 1] {
      i := |s| - 1;
    } else {
      assert s == s[..|s| - 1] + [s[|s| - 1]];
      i := FirstMet(s[..|s| - 1], x);
      assert s[..|s| - 1][..i] == s[..i];
    }
  }

  /** What has no duplicates is kept as it is, so de-duplicating twice changes nothing. */
  lemma {:induction false} DedupIdentity<T(!new)>(s: seq<T>)
    requires NoDuplicates(s)
    ensures Dedup(s) == s
  {
    if s == [] {
    } else {
      var init := s[..|s| - 1];
      DedupIdentity(init);
      assert s[|s| - 1] !in init;
      assert s == init + [s[|s| - 1]];
    }
  }

  // ----- sorting -----

  function InsertBy<T>(leq: (T, T) -> bool, x: T, s: seq<T>): seq<T> {
    if s == [] || leq(x, s[0]) then [x] + s else [s[0]] + InsertBy(leq, x, s[1..])
  }

  /** `sorted`, which is stable: an element goes before every later one it is not above. */
  function SortBy<T>(leq: (T, T) -> bool, s: seq<T>): seq<T> {
    if s == [] then [] else InsertBy(leq, s[0], SortBy(leq, s[1..]))
  }

  ghost predicate SortedBy<T>(leq: (T, T) -> bool, s: seq<T>) {
    forall i, j | 0 <= i < j < |s| :: leq(s[i], s[j])
  }

  ghost predicate TotalPreorder<T(!new)>(leq: (T, T) -> bool) {
    && (forall x, y :: leq(x, y) || leq(y, x))
    && (forall x, y, z :: leq(x, y) && leq(y, z) ==> leq(x, z))
  }

  lemma {:induction false} InsertSorted<T(!new)>(leq: (T, T) -> bool, x: T, s: seq<T>)
    requires TotalPreorder(leq) && SortedBy(leq, s)
    ensures SortedBy(leq, InsertBy(leq, x, s))
    ensures multiset(InsertBy(leq, x, s)) == multiset{x} + multiset(s)
  {
    if s != [] && !leq(x, s[0]) {
      InsertSorted(leq, x, s[1..]);
      var r := InsertBy(leq, x, s[1..]);
      assert s == [s[0]] + s[1..];
      forall y <- r ensures leq(s[0], y) {
        assert y in multiset(r);
        assert y == x || y in s[1..];
      }
    }
  }

  lemma {:induction false} SortSorts<T(!new)>(leq: (T, T) -> bool, s: seq<T>)
    requires TotalPreorder(leq)
    ensures SortedBy(leq, SortBy(leq, s)) && multiset(SortBy(leq, s)) == multiset(s)
  {
    if s == [] {
    } else {
      SortSorts(leq, s[1..]);
      InsertSorted(leq, s[0], SortBy(leq, s[1..]));
      assert s == [s[0]] + s[1..];
    }
  }

  lemma {:induction false} FilterInsert<T(!new)>(leq: (T, T) -> bool, p: T -> bool, x: T, s: seq<T>)
    requires TotalPreorder(leq) && SortedBy(leq, s)
    ensures Filter(p, InsertBy(leq, x, s)) == if p(x) then InsertBy(leq, x, Filter(p, s)) else Filter(p, s)
  {
    if s == [] {
    } else if leq(x, s[0]) {
      var kept := Filter(p, s);
      assert ([x] + s)[1..] == s;
      if kept != [] {
        assert kept[0] in s;
        var j :| 0 <= j < |s| && s[j] == kept[0];
        assert j > 0 ==> leq(s[0], s[j]);
      }
    } else {
      FilterInsert(leq, p, x, s[1..]);
      assert ([s[0]] + InsertBy(leq, x, s[1..]))[1..] == InsertBy(leq, x, s[1..]);
    }
  }

  /** Dropping elements before sorting or after it comes to the same. */
  lemma {:induction false} FilterSort<T(!new)>(leq: (T, T) -> bool, p: T -> bool, s: seq<T>)
    requires TotalPreorder(leq)
    ensures Filter(p, SortBy(leq, s)) == SortBy(leq, Filter(p, s))
  {
    if s == [] {
    } else {
      FilterSort(leq, p, s[1..]);
      SortSorts(leq, s[1..]);
      FilterInsert(leq, p, s[0], SortBy(leq, s[1..]));
    }
  }

  lemma {:induction false} MapInsert<T(!new), U(!new)>(f: T -> U, leq: (T, T) -> bool, leq': (U, U) -> bool, x: T,
          s: seq<T>)
    requires forall y, z :: leq(y, z) == leq'(f(y), f(z))
    ensures Map(f, InsertBy(leq, x, s)) == InsertBy(leq', f(x), Map(f, s))
  {
    if s != [] && !leq(x, s[0]) {
      MapInsert(f, leq, leq', x, s[1..]);
      assert Map(f, s)[1..] == Map(f, s[1..]);
    }
  }

  /** A projection that keeps the order can be taken before sorting or after it. */
  lemma {:induction false} MapSort<T(!new), U(!new)>(f: T -> U, leq: (T, T) -> bool, leq': (U, U) -> bool, s: seq<T>)
    requires forall y, z :: leq(y, z) == leq'(f(y), f(z))
    ensures Map(f, SortBy(leq, s)) == SortBy(leq', Map(f, s))
  {
    if s == [] {
    } else {
      MapSort(f, leq, leq', s[1..]);
      MapInsert(f, leq, leq', s[0], SortBy(leq, s[1..]));
      assert Map(f, s)[1..] == Map(f, s[1..]);
    }
  }

  lemma {:induction false} InsertAgrees<T>(leq: (T, T) -> bool, leq': (T, T) -> bool, x: T, s: seq<T>)
    requires forall y <- s :: leq(x, y) == leq'(x, y)
    ensures InsertBy(leq, x, s) == InsertBy(leq', x, s)
  {
    if s != [] { InsertAgrees(leq, leq', x, s[1..]); }
  }

  /** Two orders that agree on every pair as it stands in the list sort it alike. */
  lemma {:induction false} SortAgrees<T(!new)>(leq: (T, T) -> bool, leq': (T, T) -> bool, s: seq<T>)
    requires TotalPreorder(leq)
    requires forall i, j | 0 <= i < j < |s| :: leq(s[i], s[j]) == leq'(s[i], s[j])
    ensures SortBy(leq, s) == SortBy(leq', s)
  {
    if s == [] {
    } else {
      SortAgrees(leq, leq', s[1..]);
      SortSorts(leq, s[1..]);
      forall y <- SortBy(leq, s[1..]) ensures leq(s[0], y) == leq'(s[0], y) {
        assert y in multiset(SortBy(leq, s[1..]));
        var j :| 0 <= j < |s[1..]| && s[1..][j] == y;
        assert s[0 + 1 + j] == y;
      }
      InsertAgrees(leq, leq', s[0], SortBy(leq, s[1..]));
    }
  }

  // ----- one list spliced into another -----

  /** `whole` is `base` with the elements of `added`, in their order, inserted anywhere. */
  ghost predicate Splice<T(!new)>(base: seq<T>, added: seq<T>, whole: seq<T>)
    decreases |whole|
  {
    if whole == [] then base == [] && added == []
    else
      || (base != [] && whole[0] == base[0] && Splice(base[1..], added, whole[1..]))
      || (added != [] && whole[0] == added[0] && Splice(base, added[1..], whole[1..]))
  }

  lemma {:induction false} SpliceMembers<T(!new)>(base: seq<T>, added: seq<T>, whole: seq<T>)
    requires Splice(base, added, whole)
    ensures forall x :: x in whole <==> x in base || x in added
    decreases |whole|
  {
    if whole == [] {
    } else {
      assert whole == [whole[0]] + whole[1..];
      if base != [] && whole[0] == base[0] && Splice(base[1..], added, whole[1..]) {
        SpliceMembers(base[1..], added, whole[1..]);
        assert base == [base[0]] + base[1..];
      } else {
        SpliceMembers(base, added[1..], whole[1..]);
        assert added == [added[0]] + added[1..];
      }
    }
  }
}
