/** Generic sequence operations shared by the store, the route handlers and
    the client components: filtering, the stable descending sort the
    listings use, lookup by id, and the skip/limit pagination of the
    listing endpoints. */
module Collections {

  datatype Option<T> = None | Some(value: T)

  /** `xs.filter(p)`: the elements satisfying `p`, in their original order. */
  function Filter<T>(xs: seq<T>, p: T -> bool): (r: seq<T>)
    ensures |r| <= |xs|
    ensures forall i :: 0 <= i < |r| ==> p(r[i])
    ensures forall i :: 0 <= i < |r| ==> r[i] in xs
    ensures forall i :: 0 <= i < |xs| && p(xs[i]) ==> xs[i] in r
  {
    if xs == [] then
      []
    else
      var rest := Filter(xs[1..], p);
      assert xs == [xs[0]] + xs[1..];
      if p(xs[0]) then [xs[0]] + rest else rest
  }

  /** The filtered elements are a sub-multiset: nothing is duplicated. */
  lemma {:induction false} FilterMultiset<T>(xs: seq<T>, p: T -> bool)
    ensures multiset(Filter(xs, p)) <= multiset(xs)
  {
    if xs != [] {
      FilterMultiset(xs[1..], p);
      assert xs == [xs[0]] + xs[1..];
    }
  }

  /** Filtering by `p` and then by `q` is filtering once by their conjunction. */
  lemma {:induction false} FilterTwice<T>(xs: seq<T>, p: T -> bool, q: T -> bool, both: T -> bool)
    requires forall x :: both(x) <==> p(x) && q(x)
    ensures Filter(Filter(xs, p), q) == Filter(xs, both)
  {
    if xs != [] {
      FilterTwice(xs[1..], p, q, both);
    }
  }

  /** Two selectors that agree everywhere filter alike. */
  lemma {:induction false} FilterSame<T>(xs: seq<T>, p: T -> bool, q: T -> bool)
    requires forall x :: p(x) <==> q(x)
    ensures Filter(xs, p) == Filter(xs, q)
  {
    if xs != [] {
      FilterSame(xs[1..], p, q);
    }
  }

  /** A selector every element satisfies keeps the whole sequence. */
  lemma {:induction false} FilterAll<T>(xs: seq<T>, p: T -> bool)
    requires forall i :: 0 <= i < |xs| ==> p(xs[i])
    ensures Filter(xs, p) == xs
  {
    if xs != [] {
      FilterAll(xs[1..], p);
    }
  }

  /** A predicate and its negation split a sequence: the two counts add up to its length. */
  lemma {:induction false} FilterPartition<T>(xs: seq<T>, p: T -> bool, q: T -> bool)
    requires forall x :: q(x) <==> !p(x)
    ensures |Filter(xs, p)| + |Filter(xs, q)| == |xs|
  {
    if xs != [] {
      FilterPartition(xs[1..], p, q);
    }
  }

  /** Filtering keeps relative order: it distributes over concatenation. */
  lemma {:induction false} FilterAppend<T>(xs: seq<T>, ys: seq<T>, p: T -> bool)
    ensures Filter(xs + ys, p) == Filter(xs, p) + Filter(ys, p)
  {
    if xs == [] {
      assert xs + ys == ys;
    } else {
      assert (xs + ys)[1..] == xs[1..] + ys;
      FilterAppend(xs[1..], ys, p);
    }
  }

  /** Every pair of elements is ordered by `key`, largest first. */
  ghost predicate SortedDesc<T>(xs: seq<T>, key: T -> real) {
    forall i, j :: 0 <= i < j < |xs| ==> key(xs[i]) >= key(xs[j])
  }

  /** Inserts `x` before the first element whose key is smaller than its own. */
  function InsertDesc<T>(x: T, ys: seq<T>, key: T -> real): (r: seq<T>)
    ensures |r| == |ys| + 1
    ensures multiset(r) == multiset(ys) + multiset{x}
  {
    if ys == [] || key(x) >= key(ys[0]) then
      [x] + ys
    else
      assert ys == [ys[0]] + ys[1..];
      [ys[0]] + InsertDesc(x, ys[1..], key)
  }

  /** Inserting into a sorted sequence keeps it sorted. */
  lemma {:induction false} InsertDescSorted<T>(x: T, ys: seq<T>, key: T -> real)
    requires SortedDesc(ys, key)
    ensures SortedDesc(InsertDesc(x, ys, key), key)
    ensures InsertDesc(x, ys, key)[0] == x || (ys != [] && InsertDesc(x, ys, key)[0] == ys[0])
  {
    if ys != [] && key(x) < key(ys[0]) {
      var rest := InsertDesc(x, ys[1..], key);
      assert SortedDesc(ys[1..], key);
      InsertDescSorted(x, ys[1..], key);
      var r := [ys[0]] + rest;
      assert r == InsertDesc(x, ys, key);
      assert key(rest[0]) <= key(ys[0]);
      forall i, j | 0 <= i < j < |r| ensures key(r[i]) >= key(r[j]) {
        assert r[j] == rest[j - 1];
        if i > 0 {
          assert r[i] == rest[i - 1];
        } else {
          assert key(rest[0]) >= key(rest[j - 1]);
        }
      }
    }
  }

  /** The stable sort `Array.prototype.sort((a, b) => key(b) - key(a))` and
      MongoDB's `.sort({ field: -1 })`: a permutation ordered by key, largest first. */
  function SortDesc<T>(xs: seq<T>, key: T -> real): (r: seq<T>)
    ensures |r| == |xs|
    ensures multiset(r) == multiset(xs)
    ensures SortedDesc(r, key)
  {
    if xs == [] then
      []
    else
      assert xs == [xs[0]] + xs[1..];
      var rest := SortDesc(xs[1..], key);
      InsertDescSorted(xs[0], rest, key);
      InsertDesc(xs[0], rest, key)
  }

  /** Lookup by id: the first position whose key is `id`, or None when there is none. */
  function IndexOf<T>(xs: seq<T>, id: nat, key: T -> nat): (r: Option<nat>)
    ensures r.Some? ==> r.value < |xs| && key(xs[r.value]) == id
    ensures r.Some? ==> forall j :: 0 <= j < r.value ==> key(xs[j]) != id
    ensures r.None? <==> forall j :: 0 <= j < |xs| ==> key(xs[j]) != id
  {
    if xs == [] then
      None
    else if key(xs[0]) == id then
      Some(0)
    else
      match IndexOf(xs[1..], id, key)
      case None => None
      case Some(k) => Some(k + 1)
  }

  /** No two elements share a key. */
  ghost predicate UniqueKeys<T>(xs: seq<T>, key: T -> nat) {
    forall i, j :: 0 <= i < j < |xs| ==> key(xs[i]) != key(xs[j])
  }

  /** Every key is below `bound`, so `bound` itself is a fresh key. */
  ghost predicate KeysBelow<T>(xs: seq<T>, key: T -> nat, bound: nat) {
    forall i :: 0 <= i < |xs| ==> key(xs[i]) < bound
  }

  /** In a sequence with unique keys, the element found by id is the only one with that id. */
  lemma FoundIsOnly<T>(xs: seq<T>, id: nat, key: T -> nat)
    requires UniqueKeys(xs, key)
    requires IndexOf(xs, id, key).Some?
    ensures forall j :: 0 <= j < |xs| && key(xs[j]) == id ==> j == IndexOf(xs, id, key).value
  {
  }

  /** Appending an element keyed with the fresh bound keeps keys unique and
      moves the bound one up. */
  lemma AppendFresh<T>(xs: seq<T>, x: T, key: T -> nat, bound: nat)
    requires UniqueKeys(xs, key) && KeysBelow(xs, key, bound)
    requires key(x) == bound
    ensures UniqueKeys(xs + [x], key) && KeysBelow(xs + [x], key, bound + 1)
  {
  }

  /** Replacing an element by one with the same key keeps the keys as they were. */
  lemma ReplaceSameKey<T>(xs: seq<T>, i: nat, y: T, key: T -> nat, bound: nat)
    requires i < |xs| && key(y) == key(xs[i])
    requires UniqueKeys(xs, key) && KeysBelow(xs, key, bound)
    ensures UniqueKeys(xs[i := y], key) && KeysBelow(xs[i := y], key, bound)
  {
  }

  /** Removing an element keeps the remaining keys unique and below the bound. */
  lemma RemoveKeepsKeys<T>(xs: seq<T>, i: nat, key: T -> nat, bound: nat)
    requires i < |xs|
    requires UniqueKeys(xs, key) && KeysBelow(xs, key, bound)
    ensures UniqueKeys(RemoveAt(xs, i), key) && KeysBelow(RemoveAt(xs, i), key, bound)
  {
    var r := RemoveAt(xs, i);
    forall a | 0 <= a < |r| ensures r[a] == xs[if a < i then a else a + 1] {
    }
  }

  /** After removing the element found by id, no element carries that id any more. */
  lemma {:induction false} RemoveFound<T>(xs: seq<T>, id: nat, key: T -> nat)
    requires UniqueKeys(xs, key) && IndexOf(xs, id, key).Some?
    ensures IndexOf(RemoveAt(xs, IndexOf(xs, id, key).value), id, key).None?
  {
    var i := IndexOf(xs, id, key).value;
    var r := RemoveAt(xs, i);
    forall a | 0 <= a < |r| ensures key(r[a]) != id {
      assert r[a] == xs[if a < i then a else a + 1];
    }
  }

  /** A larger bound is still a bound. */
  lemma KeysBelowGrow<T>(xs: seq<T>, key: T -> nat, bound: nat, bound': nat)
    requires KeysBelow(xs, key, bound) && bound <= bound'
    ensures KeysBelow(xs, key, bound')
  {
  }

  /** A stored collection: unique keys below `bound`, every record accepted by `ok`. */
  ghost predicate Table<T>(xs: seq<T>, key: T -> nat, ok: T -> bool, bound: nat) {
    UniqueKeys(xs, key) && KeysBelow(xs, key, bound) && forall i :: 0 <= i < |xs| ==> ok(xs[i])
  }

  lemma TableAppend<T>(xs: seq<T>, x: T, key: T -> nat, ok: T -> bool, bound: nat)
    requires Table(xs, key, ok, bound) && key(x) == bound && ok(x)
    ensures Table(xs + [x], key, ok, bound + 1)
  {
    AppendFresh(xs, x, key, bound);
  }

  lemma TableReplace<T>(xs: seq<T>, i: nat, y: T, key: T -> nat, ok: T -> bool, bound: nat)
    requires i < |xs| && key(y) == key(xs[i]) && ok(y)
    requires Table(xs, key, ok, bound)
    ensures Table(xs[i := y], key, ok, bound)
  {
    ReplaceSameKey(xs, i, y, key, bound);
  }

  lemma TableRemove<T>(xs: seq<T>, i: nat, key: T -> nat, ok: T -> bool, bound: nat)
    requires i < |xs| && Table(xs, key, ok, bound)
    ensures Table(RemoveAt(xs, i), key, ok, bound)
  {
    RemoveKeepsKeys(xs, i, key, bound);
    var r := RemoveAt(xs, i);
    forall a | 0 <= a < |r| ensures ok(r[a]) {
      assert r[a] == xs[if a < i then a else a + 1];
    }
  }

  lemma TableGrow<T>(xs: seq<T>, key: T -> nat, ok: T -> bool, bound: nat)
    requires Table(xs, key, ok, bound)
    ensures Table(xs, key, ok, bound + 1)
  {
  }

  /** `xs.map(f)`. */
  function Map<A, B>(xs: seq<A>, f: A -> B): (r: seq<B>)
    ensures |r| == |xs|
    ensures forall i :: 0 <= i < |xs| ==> r[i] == f(xs[i])
  {
    if xs == [] then [] else [f(xs[0])] + Map(xs[1..], f)
  }

  /** Filtering the images by `p` is mapping the elements whose image passes `p`. */
  lemma {:induction false} FilterMap<A, B>(xs: seq<A>, f: A -> B, p: B -> bool, q: A -> bool)
    requires forall x :: q(x) <==> p(f(x))
    ensures Filter(Map(xs, f), p) == Map(Filter(xs, q), f)
  {
    if xs != [] {
      FilterMap(xs[1..], f, p, q);
      assert Map(xs, f)[1..] == Map(xs[1..], f);
    }
  }

  /** `xs.filter((_, j) => j !== i)`: drops position `i` and keeps every other
      element in order; an index outside the sequence removes nothing. */
  function RemoveAt<T>(xs: seq<T>, i: int): (r: seq<T>)
    ensures 0 <= i < |xs| ==> r == xs[..i] + xs[i + 1..]
    ensures !(0 <= i < |xs|) ==> r == xs
  {
    if xs == [] then
      []
    else
      var rest := RemoveAt(xs[1..], i - 1);
      assert xs == [xs[0]] + xs[1..];
      if i == 0 then rest else [xs[0]] + rest
  }

  /** Position `a` after removing position `i`. */
  lemma RemovedAt<T>(xs: seq<T>, i: int, a: int)
    requires 0 <= i < |xs| && 0 <= a < |xs| - 1
    ensures |RemoveAt(xs, i)| == |xs| - 1
    ensures RemoveAt(xs, i)[a] == xs[if a < i then a else a + 1]
  {
  }

  /** MongoDB's `.skip(skip).limit(limit)`; a limit of 0 means no limit. */
  function Window<T>(xs: seq<T>, skip: nat, limit: nat): (r: seq<T>)
    ensures limit > 0 ==> |r| <= limit
    ensures skip <= |xs| ==> skip + |r| <= |xs| && r == xs[skip..skip + |r|]
    ensures skip >= |xs| ==> r == []
    ensures limit == 0 && skip <= |xs| ==> |r| == |xs| - skip
    ensures limit > 0 && skip + limit <= |xs| ==> |r| == limit
  {
    var lo := if skip <= |xs| then skip else |xs|;
    var hi := if limit == 0 || lo + limit > |xs| then |xs| else lo + limit;
    xs[lo..hi]
  }

  /** The number of documents `.limit(limit)` lets through at most: MongoDB
      reads a negative limit as its absolute value. */
  function Abs(n: int): (r: nat)
    ensures r == n || r == -n
  {
    if n < 0 then -n else n
  }

  /** `(parseInt(page) - 1) * parseInt(limit)`, the skip of every listing. */
  function Skip(page: int, limit: int): int {
    (page - 1) * limit
  }

  /** MongoDB refuses a negative skip, which the routes answer with 500. */
  predicate SkipRefused(page: int, limit: int) {
    (page < 1 && limit > 0) || (page > 1 && limit < 0)
  }

  /** The ceiling quotient `(total + d - 1) / d` is the least count of
      `d`-sized pages covering a positive total. */
  lemma CeilBounds(total: nat, d: int)
    requires d > 0
    ensures (total + d - 1) / d >= 0
    ensures total > 0 ==> ((total + d - 1) / d - 1) * d < total <= ((total + d - 1) / d) * d
  {
    var n := total + d - 1;
    var q, m := n / d, n % d;
    assert n == q * d + m && 0 <= m < d;
    assert (q - 1) * d == q * d - d;
  }

  /** The ceiling of `total / limit` for a negative limit is minus the floor
      of `total / -limit`, and is bracketed the same way. */
  lemma NegativeCeilBounds(total: nat, limit: int)
    requires limit < 0
    ensures -(total / -limit) <= 0
    ensures -(total / -limit) * limit <= total < (-(total / -limit) - 1) * limit
  {
    var d := -limit;
    var q, m := total / d, total % d;
    assert total == q * d + m && 0 <= m < d;
    assert -q * limit == q * d;
    assert (-q - 1) * limit == q * d + d;
  }

  /** `Math.ceil(total / limit)`; None stands for the JSON `null` that the
      infinite or NaN quotient of a zero limit serialises to. A negative
      limit gives a quotient, and so a page count, of zero or below. */
  function PageCount(total: nat, limit: int): (r: Option<int>)
    ensures r.None? <==> limit == 0
    ensures r.Some? && total == 0 ==> r.value == 0
    ensures r.Some? && limit > 0 ==> r.value >= 0
    ensures r.Some? && limit > 0 && total > 0 ==> (r.value - 1) * limit < total <= r.value * limit
    ensures r.Some? && limit < 0 ==> r.value <= 0 && r.value * limit <= total < (r.value - 1) * limit
  {
    if limit == 0 then
      None
    else if limit > 0 then
      CeilBounds(total, limit);
      Some((total + limit - 1) / limit)
    else
      NegativeCeilBounds(total, limit);
      Some(-(total / -limit))
  }

  /** The `{ items, pagination: { page, limit, total, pages } }` body of a listing. */
  datatype Listing<T> = Listing(items: seq<T>, page: int, limit: int, total: nat, pages: Option<int>)

  /** The skip is negative exactly when MongoDB refuses it. */
  lemma SkipSign(page: int, limit: int)
    ensures Skip(page, limit) < 0 <==> SkipRefused(page, limit)
  {
    if page < 1 && limit > 0 {
      assert (page - 1) * limit <= -1 * limit;
    } else if page > 1 && limit < 0 {
      assert (page - 1) * limit <= 1 * limit;
    } else if page >= 1 && limit >= 0 {
      assert (page - 1) * limit >= 0;
    } else {
      assert page <= 1 && limit <= 0;
      assert (page - 1) * limit == (1 - page) * -limit;
    }
  }

  /** A window of a sorted sequence is sorted and holds only elements of it. */
  lemma WindowOfSorted<T>(xs: seq<T>, skip: nat, limit: nat, key: T -> real)
    requires SortedDesc(xs, key)
    ensures SortedDesc(Window(xs, skip, limit), key)
    ensures forall i :: 0 <= i < |Window(xs, skip, limit)| ==> Window(xs, skip, limit)[i] in xs
  {
    var w := Window(xs, skip, limit);
    if skip <= |xs| {
      forall i | 0 <= i < |w| ensures w[i] == xs[skip + i] {
      }
    }
  }

  /** A window starting at 0 that is unlimited or at least as long as the
      sequence is the whole sequence. */
  lemma WindowWhole<T>(xs: seq<T>, limit: nat)
    requires limit == 0 || limit >= |xs|
    ensures Window(xs, 0, limit) == xs
  {
    assert xs[0..|xs|] == xs;
  }

  /** A member of a filtered sequence is a member of the original satisfying the filter. */
  lemma InFilter<T>(xs: seq<T>, p: T -> bool, x: T)
    requires x in Filter(xs, p)
    ensures x in xs && p(x)
  {
    var r := Filter(xs, p);
    var i :| 0 <= i < |r| && r[i] == x;
  }

  /** What a listing page holds: selected elements of `xs`, sorted; with no
      limit, all of them. */
  lemma PageItems<T>(xs: seq<T>, sel: T -> bool, key: T -> real, skip: nat, limit: nat)
    ensures var items := Window(SortDesc(Filter(xs, sel), key), skip, limit);
      && (forall i :: 0 <= i < |items| ==> items[i] in xs && sel(items[i]))
      && SortedDesc(items, key)
      && (limit == 0 && skip == 0 ==> multiset(items) == multiset(Filter(xs, sel)))
  {
    var selected := Filter(xs, sel);
    var ordered := SortDesc(selected, key);
    var items := Window(ordered, skip, limit);
    WindowOfSorted(ordered, skip, limit, key);
    forall i | 0 <= i < |items| ensures items[i] in xs && sel(items[i]) {
      assert items[i] in multiset(ordered);
      InFilter(xs, sel, items[i]);
    }
    if limit == 0 && skip == 0 {
      WindowWhole(ordered, limit);
    }
  }

  /** `items` is the page that starts `skip` places into some newest-first
      ordering of `matches` and holds at most `limit` of them (all of them
      for a limit of 0). The order between equal keys is left open, as it
      is for a MongoDB sort. */
  ghost predicate IsPage<T(!new)>(items: seq<T>, matches: seq<T>, key: T -> real, skip: nat, limit: nat) {
    exists s :: multiset(s) == multiset(matches) && SortedDesc(s, key) && items == Window(s, skip, limit)
  }

  /** The shared shape of every listing endpoint: select with `sel`, order by
      `key` descending, skip `(page - 1) * limit` and take `limit`. A negative
      skip is refused by MongoDB, which the route turns into a 500 (None here). */
  function Query<T(!new)>(xs: seq<T>, sel: T -> bool, key: T -> real, page: int, limit: int): (r: Option<Listing<T>>)
    ensures r.None? <==> SkipRefused(page, limit)
    ensures r.Some? ==> r.value.total == |Filter(xs, sel)| && r.value.page == page && r.value.limit == limit
    ensures r.Some? ==> r.value.pages == PageCount(|Filter(xs, sel)|, limit)
    ensures r.Some? ==> forall i :: 0 <= i < |r.value.items| ==> r.value.items[i] in xs && sel(r.value.items[i])
    ensures r.Some? ==> SortedDesc(r.value.items, key)
    ensures r.Some? && limit != 0 ==> |r.value.items| <= Abs(limit)
    ensures r.Some? && limit == 0 ==> multiset(r.value.items) == multiset(Filter(xs, sel))
    ensures r.Some? ==> Skip(page, limit) >= 0 && IsPage(r.value.items, Filter(xs, sel), key, Skip(page, limit), Abs(limit))
  {
    SkipSign(page, limit);
    var skip := Skip(page, limit);
    if skip < 0 then
      None
    else
      assert limit == 0 ==> skip == 0;
      PageItems(xs, sel, key, skip, Abs(limit));
      var selected := Filter(xs, sel);
      var ordered := SortDesc(selected, key);
      var items := Window(ordered, skip, Abs(limit));
      assert IsPage(items, selected, key, skip, Abs(limit));
      Some(Listing(items, page, limit, |selected|, PageCount(|selected|, limit)))
  }

  /** The first page with a limit at least the number of matches holds every match. */
  lemma FirstPageHoldsAll<T(!new)>(xs: seq<T>, sel: T -> bool, key: T -> real, limit: nat)
    requires limit >= |Filter(xs, sel)|
    ensures Query(xs, sel, key, 1, limit).Some?
    ensures multiset(Query(xs, sel, key, 1, limit).value.items) == multiset(Filter(xs, sel))
  {
    WindowWhole(SortDesc(Filter(xs, sel), key), limit);
  }

  /** On the first page a negative limit lists the same documents as its
      absolute value, while its page count is zero or below. */
  lemma NegativeLimitFirstPage<T(!new)>(xs: seq<T>, sel: T -> bool, key: T -> real, limit: int)
    requires limit < 0
    ensures Query(xs, sel, key, 1, limit).Some? && Query(xs, sel, key, 1, -limit).Some?
    ensures Query(xs, sel, key, 1, limit).value.items == Query(xs, sel, key, 1, -limit).value.items
    ensures Query(xs, sel, key, 1, limit).value.pages.value <= 0
  {
    assert Skip(1, limit) == 0 && Skip(1, -limit) == 0;
  }
}
