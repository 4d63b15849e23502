/** Shared vocabulary of the model: optional values, the JavaScript array
    operations the mappers are built from (filter, map, find), substring
    search, decimal number text and the terminal colour wrappers. */
module Common {

  /** An SDK field that may be absent (`undefined` in the source). */
  datatype Option<+T> = None | Some(value: T) {
    /** The source's `x ?? d`: the value when present, else the default. */
    function GetOr(default: T): T {
      if Some? then value else default
    }
  }

  /** A resource tag as the SDK returns it: both halves may be absent. */
  datatype Tag = Tag(key: Option<string>, value: Option<string>)

  /** `b` is an order-preserving subsequence of `a`'s elements, i.e. `a` can be
      obtained by deleting elements of `b`. */
  ghost predicate Subseq<T>(a: seq<T>, b: seq<T>)
    decreases |b|
  {
    if a == [] then true
    else if b == [] then false
    else (a[0] == b[0] && Subseq(a[1..], b[1..])) || Subseq(a, b[1..])
  }

  /** `xs.filter(p)`: the elements satisfying `p`, in order. */
  function Filter<T(!new)>(xs: seq<T>, p: T -> bool): (r: seq<T>)
    ensures |r| <= |xs|
    ensures forall x :: x in r <==> x in xs && p(x)
    ensures Subseq(r, xs)
    ensures (forall x :: x in xs ==> p(x)) ==> r == xs
    ensures (forall x :: x in xs ==> !p(x)) ==> r == []
  {
    if xs == [] then []
    else
      var rest := Filter(xs[1..], p);
      assert forall x :: x in xs[1..] ==> x in xs;
      if p(xs[0]) then [xs[0]] + rest
      else rest
  }

  /** `xs.map(f)`. */
  function Map<A, B>(xs: seq<A>, f: A -> B): (r: seq<B>)
    ensures |r| == |xs|
    ensures forall i :: 0 <= i < |xs| ==> r[i] == f(xs[i])
  {
    seq(|xs|, i requires 0 <= i < |xs| => f(xs[i]))
  }

  /** Membership in a mapped list: the images of the members, and nothing else. */
  lemma MapMembership<A, B>(xs: seq<A>, f: A -> B)
    ensures forall x :: x in xs ==> f(x) in Map(xs, f)
    ensures forall y :: y in Map(xs, f) ==> exists x :: x in xs && f(x) == y
  {
    var r := Map(xs, f);
    forall x | x in xs ensures f(x) in r {
      var i :| 0 <= i < |xs| && xs[i] == x;
      assert r[i] == f(x);
    }
    forall y | y in r ensures exists x :: x in xs && f(x) == y {
      var i :| 0 <= i < |r| && r[i] == y;
      assert xs[i] in xs;
    }
  }

  /** Membership in `xs.filter(p).map(f)`: the images of the members that
      satisfy `p`, and nothing else. */
  lemma FilterMapMembership<A(!new), B>(xs: seq<A>, p: A -> bool, f: A -> B)
    ensures forall x :: x in xs && p(x) ==> f(x) in Map(Filter(xs, p), f)
    ensures forall y :: y in Map(Filter(xs, p), f) ==> exists x :: x in xs && p(x) && f(x) == y
  {
    MapMembership(Filter(xs, p), f);
  }

  /** One step of a loop that maps a list element by element: the mapped
      prefix grows by the image of the next element. */
  lemma MapStep<A, B>(xs: seq<A>, k: nat, f: A -> B, acc: seq<B>, y: B)
    requires k < |xs|
    requires acc == Map(xs[..k], f) && y == f(xs[k])
    ensures acc + [y] == Map(xs[..k + 1], f)
  {
    assert |acc + [y]| == |Map(xs[..k + 1], f)|;
  }

  /** `opt?.map(f) ?? []`: an absent list maps to the empty list. */
  function MapOpt<A, B>(xs: Option<seq<A>>, f: A -> B): (r: seq<B>)
    ensures xs.None? ==> r == []
    ensures xs.Some? ==> |r| == |xs.value| && forall i :: 0 <= i < |r| ==> r[i] == f(xs.value[i])
  {
    if xs.Some? then Map(xs.value, f) else []
  }

  /** `xs.flat(1)`. */
  function Flatten<T>(xss: seq<seq<T>>): (r: seq<T>)
    ensures |xss| == 0 ==> r == []
  {
    if xss == [] then [] else xss[0] + Flatten(xss[1..])
  }

  /** A value is in the flattened list iff it is in one of the inner lists. */
  lemma {:induction false} FlattenMembership<T>(xss: seq<seq<T>>, x: T)
    ensures x in Flatten(xss) <==> exists i :: 0 <= i < |xss| && x in xss[i]
  {
    if xss != [] {
      FlattenMembership(xss[1..], x);
      assert forall i :: 1 <= i < |xss| ==> xss[i] == xss[1..][i - 1];
      if x in Flatten(xss[1..]) {
        var i :| 0 <= i < |xss[1..]| && x in xss[1..][i];
        assert x in xss[i + 1];
      }
    }
  }

  /** Two complementary filters split a list: together they hold every
      element exactly as often as the list does. */
  lemma {:induction false} FilterSplits<T(!new)>(xs: seq<T>, p: T -> bool, q: T -> bool)
    requires forall x :: x in xs ==> q(x) == !p(x)
    ensures multiset(Filter(xs, p)) + multiset(Filter(xs, q)) == multiset(xs)
  {
    if xs != [] {
      var x, rest := xs[0], xs[1..];
      FilterSplits(rest, p, q);
      FilterCons(xs, p);
      FilterCons(xs, q);
      assert xs == [x] + rest;
      if p(x) {
        SplitStep(x, rest, Filter(rest, p), Filter(rest, q));
      } else {
        SplitStep(x, rest, Filter(rest, q), Filter(rest, p));
      }
    }
  }

  /** The multiset step of FilterSplits: the head joins one of the two parts. */
  lemma SplitStep<T>(x: T, rest: seq<T>, a: seq<T>, b: seq<T>)
    requires multiset(a) + multiset(b) == multiset(rest)
    ensures multiset([x] + a) + multiset(b) == multiset([x] + rest)
    ensures multiset(b) + multiset([x] + a) == multiset([x] + rest)
  {
  }

  /** One unfolding of Filter at the head of the list. */
  lemma FilterCons<T(!new)>(xs: seq<T>, p: T -> bool)
    requires xs != []
    ensures Filter(xs, p) == (if p(xs[0]) then [xs[0]] else []) + Filter(xs[1..], p)
  {
  }

  /** A list holding an element the filter rejects gets strictly shorter. */
  lemma {:induction false} FilterShorter<T(!new)>(xs: seq<T>, p: T -> bool, x: T)
    requires x in xs && !p(x)
    ensures |Filter(xs, p)| < |xs|
  {
    FilterCons(xs, p);
    if xs[0] != x {
      assert x in xs[1..];
      FilterShorter(xs[1..], p, x);
    }
  }

  /** Filtering by a stronger predicate keeps an order-preserving
      subsequence of what the weaker one keeps. */
  /** Exchanging two neighbours that the filter does not both keep leaves
      the filtered list unchanged. */
  lemma {:induction false} FilterSwapAdjacent<T(!new)>(xs: seq<T>, p: T -> bool, j: int)
    requires 0 < j < |xs| && !(p(xs[j - 1]) && p(xs[j]))
    ensures Filter(xs[j - 1 := xs[j]][j := xs[j - 1]], p) == Filter(xs, p)
  {
    var ys := xs[j - 1 := xs[j]][j := xs[j - 1]];
    FilterCons(xs, p);
    FilterCons(ys, p);
    if j == 1 {
      FilterCons(xs[1..], p);
      FilterCons(ys[1..], p);
      assert xs[1..][1..] == ys[1..][1..];
    } else {
      assert ys[1..] == xs[1..][j - 2 := xs[j]][j - 1 := xs[j - 1]];
      FilterSwapAdjacent(xs[1..], p, j - 1);
    }
  }

  lemma {:induction false} FilterMonotone<T(!new)>(xs: seq<T>, p: T -> bool, q: T -> bool)
    requires forall x :: x in xs && p(x) ==> q(x)
    ensures Subseq(Filter(xs, p), Filter(xs, q))
  {
    if xs != [] {
      var rest := xs[1..];
      assert forall x :: x in rest ==> x in xs;
      FilterMonotone(rest, p, q);
      if p(xs[0]) {
        assert Filter(xs, p) == [xs[0]] + Filter(rest, p);
        assert Filter(xs, q) == [xs[0]] + Filter(rest, q);
        assert Filter(xs, p)[1..] == Filter(rest, p);
        assert Filter(xs, q)[1..] == Filter(rest, q);
      } else if q(xs[0]) {
        assert Filter(xs, q) == [xs[0]] + Filter(rest, q);
        assert Filter(xs, q)[1..] == Filter(rest, q);
        SubseqCons(Filter(xs, p), Filter(rest, q), xs[0]);
      }
    }
  }

  lemma SubseqCons<T>(a: seq<T>, b: seq<T>, x: T)
    requires Subseq(a, b)
    ensures Subseq(a, [x] + b)
  {
    assert ([x] + b)[1..] == b;
  }

  /** Predicates that agree on the list's elements filter it alike. */
  lemma {:induction false} FilterCongruent<T(!new)>(xs: seq<T>, p: T -> bool, q: T -> bool)
    requires forall x :: x in xs ==> p(x) == q(x)
    ensures Filter(xs, p) == Filter(xs, q)
  {
    if xs != [] {
      assert forall x :: x in xs[1..] ==> x in xs;
      FilterCongruent(xs[1..], p, q);
    }
  }

  /** `xs.filter(p).map(f)`: the images of the elements satisfying `p`, in order. */
  function Select<A(!new), B(!new)>(xs: seq<A>, p: A -> bool, f: A -> B): (r: seq<B>)
    ensures |r| <= |xs|
    ensures r == Map(Filter(xs, p), f)
    ensures forall x :: x in xs && p(x) ==> f(x) in r
    ensures forall y :: y in r ==> exists x :: x in xs && p(x) && f(x) == y
    ensures (forall x :: x in xs ==> !p(x)) ==> r == []
  {
    var sel := Filter(xs, p);
    assert forall y :: y in Map(sel, f) ==> exists i :: 0 <= i < |sel| && f(sel[i]) == y;
    assert forall x :: x in sel ==> exists i :: 0 <= i < |sel| && sel[i] == x;
    Map(sel, f)
  }

  /** Index of the first element satisfying `p` (the position `find` stops at). */
  function FindIndex<T>(xs: seq<T>, p: T -> bool): (r: Option<nat>)
    ensures r.Some? ==> r.value < |xs| && p(xs[r.value])
    ensures r.Some? ==> forall j :: 0 <= j < r.value ==> !p(xs[j])
    ensures r.None? ==> forall i :: 0 <= i < |xs| ==> !p(xs[i])
  {
    if xs == [] then None
    else if p(xs[0]) then Some(0)
    else match FindIndex(xs[1..], p)
      case None => None
      case Some(k) => Some(k + 1)
  }

  /** `xs.find(p)`: the first element satisfying `p`, absent when there is none. */
  function Find<T>(xs: seq<T>, p: T -> bool): (r: Option<T>)
    ensures r.None? <==> forall i :: 0 <= i < |xs| ==> !p(xs[i])
    ensures r.Some? ==> exists i :: 0 <= i < |xs| && xs[i] == r.value && p(xs[i]) &&
                                    forall j :: 0 <= j < i ==> !p(xs[j])
    // Completeness: the first element satisfying `p` is what is found.
    ensures forall i :: 0 <= i < |xs| && p(xs[i]) && (forall j :: 0 <= j < i ==> !p(xs[j])) ==> r == Some(xs[i])
  {
    match FindIndex(xs, p)
    case None => None
    case Some(k) => Some(xs[k])
  }

  /** `tags?.find(it => it.Key == key)?.Value`. */
  function TagValue(tags: Option<seq<Tag>>, key: string): (r: Option<string>)
    ensures tags.None? ==> r.None?
    ensures r.Some? ==> exists i :: 0 <= i < |tags.value| && tags.value[i] == Tag(Some(key), r) &&
                                    forall j :: 0 <= j < i ==> tags.value[j].key != Some(key)
    // The first tag with the key decides.
    ensures tags.Some? ==>
              forall i :: 0 <= i < |tags.value| && tags.value[i].key == Some(key) && (forall j :: 0 <= j < i ==> tags.value[j].key != Some(key))
                ==> r == tags.value[i].value
  {
    if tags.None? then None
    else match Find(tags.value, (t: Tag) => t.key == Some(key))
      case None => None
      case Some(t) => t.value
  }

  /** `s.startsWith(t)`. */
  predicate StartsWith(s: string, t: string) {
    |t| <= |s| && s[..|t|] == t
  }

  /** `s.includes(t)`: `t` occurs in `s` as a contiguous substring. */
  predicate Contains(s: string, t: string)
    decreases |s|
  {
    StartsWith(s, t) || (|s| > 0 && Contains(s[1..], t))
  }

  /** `t` found at position `i` of `s` means `s.includes(t)`. */
  lemma {:induction false} ContainsAt(s: string, t: string, i: nat)
    requires i + |t| <= |s| && s[i..i + |t|] == t
    ensures Contains(s, t)
    decreases i
  {
    if i > 0 {
      assert s[1..][i - 1..i - 1 + |t|] == s[i..i + |t|];
      ContainsAt(s[1..], t, i - 1);
    } else {
      assert s[..|t|] == s[0..|t|];
    }
  }

  /** Conversely, `s.includes(t)` means `t` occurs at some position. */
  lemma {:induction false} ContainsWitness(s: string, t: string) returns (i: nat)
    requires Contains(s, t)
    ensures i + |t| <= |s| && s[i..i + |t|] == t
    decreases |s|
  {
    if StartsWith(s, t) {
      i := 0;
      assert s[0..|t|] == s[..|t|];
    } else {
      var k := ContainsWitness(s[1..], t);
      i := k + 1;
      assert s[1..][k..k + |t|] == s[i..i + |t|];
    }
  }

  /** JavaScript truthiness of an optional string: present and non-empty. */
  predicate Truthy(s: Option<string>) {
    s.Some? && s.value != ""
  }

  function DigitChar(d: nat): char
    requires d < 10
  {
    "0123456789"[d]
  }

  /** Decimal text of a natural number, without leading zeros. */
  function NatText(n: nat): (r: string)
    ensures |r| > 0
    ensures forall i :: 0 <= i < |r| ==> '0' <= r[i] <= '9'
  {
    if n < 10 then [DigitChar(n)] else NatText(n / 10) + [DigitChar(n % 10)]
  }

  /** `n.toString()` for an integral number. */
  function NumText(n: int): (r: string)
    ensures |r| > 0
    ensures (r[0] == '-') <==> n < 0
  {
    if n < 0 then "-" + NatText(-n) else NatText(n)
  }

  /** A number interpolated into a template literal: absent renders as "undefined". */
  function OptNumText(n: Option<int>): (r: string)
    ensures n.None? ==> r == "undefined"
    ensures n.Some? ==> r == NumText(n.value)
  {
    if n.Some? then NumText(n.value) else "undefined"
  }

  /** The `colors` package's wrappers: an ANSI open code, the text, the close code. */
  const Esc: char := 27 as char

  function Ansi(code: string, s: string): string {
    [Esc] + "[" + code + "m" + s + [Esc] + "[39m"
  }

  function Green(s: string): string { Ansi("32", s) }
  function Grey(s: string): string { Ansi("90", s) }
  function Red(s: string): string { Ansi("31", s) }
  function Cyan(s: string): string { Ansi("36", s) }

  /** `xs.join(sep)`. */
  function Join(xs: seq<string>, sep: string): string {
    if xs == [] then "" else if |xs| == 1 then xs[0] else xs[0] + sep + Join(xs[1..], sep)
  }

  /** `[...new Set(xs)]`: each value once, at the position of its first
      occurrence (a JavaScript Set iterates in insertion order). */
  function Distinct<T(==,!new)>(xs: seq<T>): (r: seq<T>)
    ensures forall x :: x in r <==> x in xs
    ensures forall i, j :: 0 <= i < j < |r| ==> r[i] != r[j]
    ensures |r| <= |xs|
    // First-occurrence order: every occurrence of a later element is preceded
    // by an occurrence of each earlier one.
    ensures forall i, j, k :: 0 <= i < j < |r| && 0 <= k < |xs| && xs[k] == r[j] ==> r[i] in xs[..k]
    decreases |xs|
  {
    if xs == [] then []
    else
      var n := |xs| - 1;
      var d := Distinct(xs[..n]);
      assert xs == xs[..n] + [xs[n]];
      assert forall k :: 0 <= k < n ==> xs[..k] == xs[..n][..k];
      if xs[n] in d then d else d + [xs[n]]
  }

  /** A duplicate-free list whose every element is `v`, and which holds `v`, is `[v]`. */
  lemma DistinctSingleton<T>(r: seq<T>, v: T)
    requires v in r && forall x :: x in r ==> x == v
    requires forall i, j :: 0 <= i < j < |r| ==> r[i] != r[j]
    ensures r == [v]
  {
    assert r[0] in r;
    FirstTwo(r);
  }

  /** The first two entries of a duplicate-free list, when it has two. */
  lemma FirstTwo<T>(r: seq<T>)
    requires forall i, j :: 0 <= i < j < |r| ==> r[i] != r[j]
    ensures |r| >= 2 ==> r[0] in r && r[1] in r && r[0] != r[1]
  {
  }

  /** Filter is monotone in the order sense: mapping an order-preserving
      subsequence keeps it one. */
  lemma {:induction false} MapSubseq<A, B>(a: seq<A>, b: seq<A>, f: A -> B)
    requires Subseq(a, b)
    ensures Subseq(Map(a, f), Map(b, f))
    decreases |b|
  {
    if a == [] {
    } else if a[0] == b[0] && Subseq(a[1..], b[1..]) {
      MapSubseq(a[1..], b[1..], f);
      assert Map(a, f)[1..] == Map(a[1..], f);
      assert Map(b, f)[1..] == Map(b[1..], f);
    } else {
      MapSubseq(a, b[1..], f);
      assert Map(b, f)[1..] == Map(b[1..], f);
    }
  }
}
