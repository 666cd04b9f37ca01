/** The part of the document store the product routes query through:
    `Product.find(query).sort({ createdAt: -1 }).limit(n)`. A query holds an
    optional case-insensitive pattern on `name` and an optional condition on
    `category`. */
module ProductQuery {
  import opened Common
  import opened Strings
  import opened ProductModel

  /** The condition on `category`: plain equality, or a case-insensitive pattern. */
  datatype CategoryCondition = Equals(category: string) | Pattern(pattern: string)

  /** The query object a route builds field by field. */
  datatype Query = Query(name: Option<string>, category: Option<CategoryCondition>)

  const EmptyQuery := Query(None, None)

  predicate CategoryHolds(c: CategoryCondition, category: string)
  {
    match c
    case Equals(v) => category == v
    case Pattern(v) => MatchesCaseInsensitive(category, v)
  }

  /** A product satisfies every condition the query carries. */
  predicate Matches(q: Query, p: Product)
  {
    (q.name.Some? ==> MatchesCaseInsensitive(p.name, q.name.value)) &&
    (q.category.Some? ==> CategoryHolds(q.category.value, p.category))
  }

  /** The products that satisfy the query, in stored order. */
  function Filter(products: seq<Product>, q: Query): (r: seq<Product>)
    ensures |r| <= |products|
    ensures forall p :: p in r <==> p in products && Matches(q, p)
    ensures multiset(r) <= multiset(products)
    decreases |products|
  {
    if products == [] then []
    else
      var rest := Filter(products[1..], q);
      assert products == [products[0]] + products[1..];
      if Matches(q, products[0]) then [products[0]] + rest else rest
  }

  /** Newest first: no product is preceded by an older one. */
  predicate NewestFirst(s: seq<Product>)
  {
    forall i, j :: 0 <= i < j < |s| ==> s[i].createdAt >= s[j].createdAt
  }

  /** Putting a product no older than any element in front keeps the order. */
  lemma ConsNewestFirst(head: Product, s: seq<Product>)
    requires NewestFirst(s)
    requires forall k :: 0 <= k < |s| ==> s[k].createdAt <= head.createdAt
    ensures NewestFirst([head] + s)
  {
    var r := [head] + s;
    forall i, j | 0 <= i < j < |r|
      ensures r[i].createdAt >= r[j].createdAt
    {
      if i > 0 {
        assert r[i] == s[i - 1] && r[j] == s[j - 1];
      } else {
        assert r[j] == s[j - 1];
      }
    }
  }

  /** A bound on the dates of two collections bounds the dates of their union. */
  lemma DatesBounded(r: seq<Product>, s: seq<Product>, p: Product, bound: nat)
    requires multiset(r) == multiset(s) + multiset{p}
    requires forall k :: 0 <= k < |s| ==> s[k].createdAt <= bound
    requires p.createdAt <= bound
    ensures forall k :: 0 <= k < |r| ==> r[k].createdAt <= bound
  {
    forall k | 0 <= k < |r|
      ensures r[k].createdAt <= bound
    {
      assert r[k] in multiset(r);
      if r[k] != p {
        assert r[k] in multiset(s);
        var m :| 0 <= m < |s| && s[m] == r[k];
      }
    }
  }

  /** Inserting p into a newest-first sequence at its place. */
  function InsertByDate(p: Product, s: seq<Product>): (r: seq<Product>)
    requires NewestFirst(s)
    ensures NewestFirst(r)
    ensures multiset(r) == multiset(s) + multiset{p}
    ensures |r| == |s| + 1
    decreases |s|
  {
    if s == [] || p.createdAt >= s[0].createdAt then
      ConsNewestFirst(p, s);
      [p] + s
    else
      var rest := InsertByDate(p, s[1..]);
      assert s == [s[0]] + s[1..];
      DatesBounded(rest, s[1..], p, s[0].createdAt);
      ConsNewestFirst(s[0], rest);
      [s[0]] + rest
  }

  /** `.sort({ createdAt: -1 })`: the same products, newest first. */
  function SortNewestFirst(s: seq<Product>): (r: seq<Product>)
    ensures NewestFirst(r)
    ensures multiset(r) == multiset(s)
    ensures |r| == |s|
    decreases |s|
  {
    if s == [] then []
    else
      assert s == [s[0]] + s[1..];
      InsertByDate(s[0], SortNewestFirst(s[1..]))
  }

  /** `.limit(n)`: the first n results. */
  function Take(s: seq<Product>, n: nat): (r: seq<Product>)
    ensures |r| == if |s| < n then |s| else n
    ensures r == s[..|r|]
  {
    if |s| <= n then s else s[..n]
  }

  /** `find(q).sort({ createdAt: -1 })`, with an optional `.limit(n)`. */
  function Find(products: seq<Product>, q: Query, limit: Option<nat>): (r: seq<Product>)
    ensures NewestFirst(r)
    ensures limit.None? ==> multiset(r) == multiset(Filter(products, q))
    ensures limit.Some? ==> |r| <= limit.value && multiset(r) <= multiset(Filter(products, q))
  {
    var sorted := SortNewestFirst(Filter(products, q));
    if limit.Some? then
      TakeNewestFirst(sorted, limit.value);
      PrefixMultiset(sorted, |Take(sorted, limit.value)|);
      Take(sorted, limit.value)
    else sorted
  }

  /** Without a limit, `Find` returns exactly the matching products (each as
      often as it is stored), newest first. */
  lemma FindUnlimited(products: seq<Product>, q: Query)
    ensures var r := Find(products, q, None);
      NewestFirst(r) &&
      multiset(r) == multiset(Filter(products, q)) &&
      (forall p :: p in r <==> p in products && Matches(q, p))
  {
    var f := Filter(products, q);
    var r := Find(products, q, None);
    forall p
      ensures p in r <==> p in f
    {
      assert p in r <==> p in multiset(r);
      assert p in f <==> p in multiset(f);
    }
  }

  /** The first n elements of a newest-first sequence are newest first, and
      none of the elements cut off is newer than one kept. */
  lemma TakeNewestFirst(s: seq<Product>, n: nat)
    requires NewestFirst(s)
    ensures var r := Take(s, n);
      NewestFirst(r) &&
      (forall p :: p in r ==> p in s) &&
      (forall i, j :: 0 <= i < |r| <= j < |s| ==> s[j].createdAt <= r[i].createdAt)
  {
    var r := Take(s, n);
    forall p | p in r
      ensures p in s
    {
      var k :| 0 <= k < |r| && r[k] == p;
      assert s[k] == p;
    }
    forall i, j | 0 <= i < |r| <= j < |s|
      ensures s[j].createdAt <= r[i].createdAt
    {
      assert r[i] == s[i];
    }
  }

  /** With a limit, `Find` returns at most that many matching products, newest
      first; when they are fewer than the limit it returns all of them, and a
      matching product it leaves out is no newer than any it returns. */
  lemma FindLimited(products: seq<Product>, q: Query, n: nat)
    ensures var r := Find(products, q, Some(n));
      var all := Find(products, q, None);
      |r| <= n && NewestFirst(r) && r == all[..|r|] &&
      (forall p :: p in r ==> p in products && Matches(q, p)) &&
      (|Filter(products, q)| <= n ==> r == all) &&
      (forall i, j :: 0 <= i < |r| <= j < |all| ==> all[j].createdAt <= r[i].createdAt)
  {
    FindUnlimited(products, q);
    var all := Find(products, q, None);
    assert Find(products, q, Some(n)) == Take(all, n);
    TakeNewestFirst(all, n);
  }

  /** A prefix of a sequence holds each element no more often than the sequence. */
  lemma PrefixMultiset(all: seq<Product>, k: nat)
    requires k <= |all|
    ensures multiset(all[..k]) <= multiset(all)
  {
    assert all == all[..k] + all[k..];
  }

  /** An element of a newest-first sequence that its first n elements leave
      out is no newer than any element they keep. */
  lemma TakeOmitsOlder(s: seq<Product>, n: nat)
    requires NewestFirst(s)
    ensures var r := Take(s, n);
      forall p, x :: p in s && p !in r && x in r ==> p.createdAt <= x.createdAt
  {
    var r := Take(s, n);
    forall p, x | p in s && p !in r && x in r
      ensures p.createdAt <= x.createdAt
    {
      var j :| 0 <= j < |s| && s[j] == p;
      var i :| 0 <= i < |r| && r[i] == x;
      assert j >= |r|;
      assert s[i] == x;
    }
  }

  /** A limited query leaves out only matching products that are no newer than
      every product it returns. */
  lemma FindLimitedOmitsOlder(products: seq<Product>, q: Query, n: nat)
    ensures var r := Find(products, q, Some(n));
      forall p, x :: p in products && Matches(q, p) && p !in r && x in r ==> p.createdAt <= x.createdAt
  {
    FindUnlimited(products, q);
    var all := Find(products, q, None);
    assert Find(products, q, Some(n)) == Take(all, n);
    TakeOmitsOlder(all, n);
  }

  /** What a limited query promises in terms of the stored products alone:
      only matching products, no more often than stored, newest first, at most
      n of them, all matches when fewer than n come back, and no match left out
      is newer than one returned. */
  lemma FindLimitedSelects(products: seq<Product>, q: Query, n: nat)
    ensures var r := Find(products, q, Some(n));
      |r| <= n && NewestFirst(r) && multiset(r) <= multiset(products) &&
      (forall p :: p in r ==> p in products && Matches(q, p)) &&
      (|r| < n ==> forall p :: p in products && Matches(q, p) ==> p in r) &&
      (forall p, x :: p in products && Matches(q, p) && p !in r && x in r ==> p.createdAt <= x.createdAt)
  {
    FindLimited(products, q, n);
    FindUnlimited(products, q);
    FindLimitedOmitsOlder(products, q, n);
    var r := Find(products, q, Some(n));
    var all := Find(products, q, None);
    PrefixMultiset(all, |r|);
    assert multiset(all) == multiset(Filter(products, q));
    if |r| < n {
      assert r == all;
    }
  }

  /** The empty query matches every product. */
  lemma EmptyQueryMatchesAll(products: seq<Product>)
    ensures Filter(products, EmptyQuery) == products
    decreases |products|
  {
    if products != [] {
      EmptyQueryMatchesAll(products[1..]);
      assert products == [products[0]] + products[1..];
    }
  }
}
