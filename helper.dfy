/** src/helper.ts: list intersection and difference, the two-part display
    name, and the fold that merges the pages of a paginated listing. */
module Helper {
  import opened Common

  /** `intersectionOf(a, b)`: the elements of `a` that occur in `b`, in `a`'s
      order and with `a`'s multiplicity. */
  function IntersectionOf<T(==,!new)>(a: seq<T>, b: seq<T>): (r: seq<T>)
    ensures Subseq(r, a)
    ensures forall x :: x in r <==> x in a && x in b
    ensures forall x :: multiset(r)[x] == if x in b then multiset(a)[x] else 0
    ensures |r| > 0 <==> exists x :: x in a && x in b
  {
    if a == [] then []
    else
      var rest := IntersectionOf(a[1..], b);
      assert a == [a[0]] + a[1..];
      assert forall x :: x in a <==> x == a[0] || x in a[1..];
      if a[0] in b then [a[0]] + rest else rest
  }

  /** `a.without(other)`: the elements of `a` that do not occur in `other`,
      in `a`'s order and with `a`'s multiplicity. */
  function Without<T(==,!new)>(a: seq<T>, other: seq<T>): (r: seq<T>)
    ensures Subseq(r, a)
    ensures forall x :: x in r <==> x in a && x !in other
    ensures forall x :: multiset(r)[x] == if x in other then 0 else multiset(a)[x]
    ensures r == [] <==> forall x :: x in a ==> x in other
  {
    if a == [] then []
    else
      var rest := Without(a[1..], other);
      assert a == [a[0]] + a[1..];
      assert forall x :: x in a <==> x == a[0] || x in a[1..];
      if a[0] !in other then [a[0]] + rest else rest
  }

  /** Chaining `without` is the same as removing the concatenation at once. */
  lemma {:induction false} WithoutWithout<T(!new)>(a: seq<T>, b: seq<T>, c: seq<T>)
    ensures Without(Without(a, b), c) == Without(a, b + c)
  {
    if a != [] {
      WithoutWithout(a[1..], b, c);
      var rest := Without(a[1..], b);
      if a[0] !in b {
        assert Without(a, b) == [a[0]] + rest;
        assert ([a[0]] + rest)[1..] == rest;
      } else {
        assert Without(a, b) == rest;
      }
    }
  }

  /** `makeName(a, b)`: a name and a secondary label, green and grey; empty
      strings count as absent, and a name longer than 50 characters is
      dropped in favour of the label. */
  function MakeName(a: Option<string>, b: Option<string>): (r: Option<string>)
    ensures Truthy(a) && Truthy(b) && |a.value| > 50 ==> r == Some(Grey(b.value))
    ensures Truthy(a) && Truthy(b) && |a.value| <= 50 ==> r == Some(Green(a.value) + " / " + Grey(b.value))
    ensures Truthy(a) && !Truthy(b) ==> r == Some(Green(a.value))
    ensures !Truthy(a) && Truthy(b) ==> r == Some(Grey(b.value))
    ensures r.None? <==> !Truthy(a) && !Truthy(b)
  {
    if Truthy(a) && Truthy(b) && |a.value| > 50 then Some(Grey(b.value))
    else if Truthy(a) && Truthy(b) then Some(Green(a.value) + " / " + Grey(b.value))
    else if Truthy(a) then Some(Green(a.value))
    else if Truthy(b) then Some(Grey(b.value))
    else None
  }

  /** `fields.filter(it => it)`: drops absent entries and present ones that
      JavaScript treats as false (`truthy` says which values those are). */
  function NonBlank<Q>(fields: seq<Option<Q>>, truthy: Q -> bool): (r: seq<Q>)
    ensures |r| <= |fields|
  {
    if fields == [] then []
    else (if fields[0].Some? && truthy(fields[0].value) then [fields[0].value] else [])
         + NonBlank(fields[1..], truthy)
  }

  /** What one page contributes: its selected list (nothing when the selector
      gives `undefined`) without blank entries. */
  function PageFields<P, Q>(page: P, select: P -> Option<seq<Option<Q>>>, truthy: Q -> bool): seq<Q> {
    NonBlank(select(page).GetOr([]), truthy)
  }

  /** The specification of `combineAllPages`: each page's contribution,
      concatenated in page order. */
  function AllPages<P, Q>(pages: seq<P>, select: P -> Option<seq<Option<Q>>>, truthy: Q -> bool): seq<Q>
  {
    if pages == [] then []
    else AllPages(pages[..|pages| - 1], select, truthy) + PageFields(pages[|pages| - 1], select, truthy)
  }

  /** `combineAllPages`: walks the pages in order, pushing each page's
      non-blank selected entries onto `results`. */
  method CombineAllPages<P, Q>(pages: seq<P>, select: P -> Option<seq<Option<Q>>>, truthy: Q -> bool)
    returns (results: seq<Q>)
    ensures results == AllPages(pages, select, truthy)
  {
    results := [];
    var i := 0;
    while i < |pages|
      invariant 0 <= i <= |pages|
      invariant results == AllPages(pages[..i], select, truthy)
    {
      var desiredFields := select(pages[i]).GetOr([]);
      var nonBlankField := NonBlank(desiredFields, truthy);
      results := results + nonBlankField;
      assert pages[..i + 1][..i] == pages[..i];
      i := i + 1;
    }
    assert pages[..|pages|] == pages;
  }

  /** An entry survives `filter(it => it)` exactly when it is present and truthy. */
  lemma {:induction false} NonBlankMembership<Q>(fields: seq<Option<Q>>, truthy: Q -> bool, q: Q)
    ensures q in NonBlank(fields, truthy) <==> Some(q) in fields && truthy(q)
  {
    if fields != [] {
      NonBlankMembership(fields[1..], truthy, q);
      assert fields == [fields[0]] + fields[1..];
    }
  }

  /** Merging pages commutes with splitting the page list. */
  lemma {:induction false} AllPagesAppend<P, Q>(p1: seq<P>, p2: seq<P>, select: P -> Option<seq<Option<Q>>>, truthy: Q -> bool)
    ensures AllPages(p1 + p2, select, truthy) == AllPages(p1, select, truthy) + AllPages(p2, select, truthy)
    decreases |p2|
  {
    if p2 == [] {
      assert p1 + p2 == p1;
    } else {
      var init, last := p2[..|p2| - 1], p2[|p2| - 1];
      AllPagesAppend(p1, init, select, truthy);
      assert (p1 + p2)[..|p1 + p2| - 1] == p1 + init;
      assert (p1 + p2)[|p1 + p2| - 1] == last;
      calc {
        AllPages(p1 + p2, select, truthy);
        AllPages(p1 + init, select, truthy) + PageFields(last, select, truthy);
        AllPages(p1, select, truthy) + (AllPages(init, select, truthy) + PageFields(last, select, truthy));
        AllPages(p1, select, truthy) + AllPages(p2, select, truthy);
      }
    }
  }

  /** An entry is in the merged result iff some page's selection holds it,
      present and truthy. */
  lemma {:induction false} AllPagesMembership<P, Q>(pages: seq<P>, select: P -> Option<seq<Option<Q>>>, truthy: Q -> bool, q: Q)
    ensures q in AllPages(pages, select, truthy) <==>
              truthy(q) && exists k :: 0 <= k < |pages| && Some(q) in select(pages[k]).GetOr([])
    decreases |pages|
  {
    if pages != [] {
      var n := |pages| - 1;
      AllPagesMembership(pages[..n], select, truthy, q);
      NonBlankMembership(select(pages[n]).GetOr([]), truthy, q);
      assert AllPages(pages, select, truthy) == AllPages(pages[..n], select, truthy) + PageFields(pages[n], select, truthy);
      PrefixPages(pages, n, select, q);
    }
  }

  /** Some page of `pages` holds `q` iff some page of the first `n` does or
      page `n` itself does. */
  lemma PrefixPages<P, Q>(pages: seq<P>, n: nat, select: P -> Option<seq<Option<Q>>>, q: Q)
    requires n == |pages| - 1
    ensures (exists k :: 0 <= k < |pages| && Some(q) in select(pages[k]).GetOr([])) <==>
            (exists k :: 0 <= k < n && Some(q) in select(pages[..n][k]).GetOr([])) || Some(q) in select(pages[n]).GetOr([])
  {
    if exists k :: 0 <= k < n && Some(q) in select(pages[..n][k]).GetOr([]) {
      var k :| 0 <= k < n && Some(q) in select(pages[..n][k]).GetOr([]);
      assert pages[..n][k] == pages[k];
    }
    if exists k :: 0 <= k < |pages| && Some(q) in select(pages[k]).GetOr([]) {
      var k :| 0 <= k < |pages| && Some(q) in select(pages[k]).GetOr([]);
      if k < n {
        assert pages[..n][k] == pages[k];
      }
    }
  }
}
