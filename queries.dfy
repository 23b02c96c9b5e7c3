/**
 * The read side of the server as pure functions of the collection (a sequence
 * of records in natural order): the filtered, newest-first, windowed listing
 * with its page arithmetic, the category listing, the tag search and the
 * random pick.
 */
module Queries {
  import opened Wrappers
  import opened Text
  import opened Schema

  /** The three filters the handlers build. */
  datatype Criterion =
    | Listing(category: string, search: string)  // `""` leaves that filter out
    | InCategory(category: string)
    | AnyTag(tags: seq<string>)                    // `{tags: {$in: tags}}`

  predicate Matches(c: Criterion, t: Template) {
    match c
    case Listing(category, search) =>
      (category == "" || t.category == category)
      && (search == "" || ContainsIgnoringCase(t.name, search))
    case InCategory(category) => t.category == category
    case AnyTag(tags) => exists k :: 0 <= k < |t.tags| && t.tags[k] in tags
  }

  /** `find(filter)`: every matching record as often as it occurs, no other. */
  function Select(rs: seq<Record>, c: Criterion): (out: seq<Record>)
    ensures |out| <= |rs|
    ensures forall x :: multiset(out)[x] == if Matches(c, x.template) then multiset(rs)[x] else 0
  {
    if rs == [] then []
    else
      assert rs == [rs[0]] + rs[1..];
      if Matches(c, rs[0].template) then [rs[0]] + Select(rs[1..], c) else Select(rs[1..], c)
  }

  /** `sort({createdAt: -1})`. */
  predicate NewestFirst(rs: seq<Record>) {
    forall i, j :: 0 <= i < j < |rs| ==> rs[i].template.createdAt >= rs[j].template.createdAt
  }

  /** One step of the insertion sort: `r` goes before the first document no newer than it. */
  function Insert(r: Record, rs: seq<Record>): (out: seq<Record>)
    ensures multiset(out) == multiset(rs) + multiset{r}
    ensures forall x :: x in out <==> x == r || x in rs
  {
    if rs == [] || rs[0].template.createdAt <= r.template.createdAt then [r] + rs
    else
      assert rs == [rs[0]] + rs[1..];
      [rs[0]] + Insert(r, rs[1..])
  }

  lemma {:induction false} InsertNewestFirst(r: Record, rs: seq<Record>)
    requires NewestFirst(rs)
    ensures NewestFirst(Insert(r, rs))
  {
    if rs != [] && rs[0].template.createdAt > r.template.createdAt {
      var tail := rs[1..];
      assert NewestFirst(tail) by {
        forall i, j | 0 <= i < j < |tail|
          ensures tail[i].template.createdAt >= tail[j].template.createdAt
        {
          assert tail[i] == rs[i + 1] && tail[j] == rs[j + 1];
        }
      }
      InsertNewestFirst(r, tail);
      var rest := Insert(r, tail);
      var out := Insert(r, rs);
      assert out == [rs[0]] + rest;
      forall i, j | 0 <= i < j < |out|
        ensures out[i].template.createdAt >= out[j].template.createdAt
      {
        if i == 0 {
          assert out[j] == rest[j - 1];
          if out[j] != r {
            assert out[j] in tail;
            var k :| 0 <= k < |tail| && tail[k] == out[j];
            assert tail[k] == rs[k + 1];
          }
        } else {
          assert out[i] == rest[i - 1] && out[j] == rest[j - 1];
        }
      }
    }
  }

  /**
   * The documents newest first. MongoDB leaves the order of equal
   * timestamps open; this picks one.
   */
  function SortNewestFirst(rs: seq<Record>): (out: seq<Record>)
    ensures NewestFirst(out)
    ensures multiset(out) == multiset(rs)
  {
    if rs == [] then []
    else
      assert rs == [rs[0]] + rs[1..];
      InsertNewestFirst(rs[0], SortNewestFirst(rs[1..]));
      Insert(rs[0], SortNewestFirst(rs[1..]))
  }

  function Abs(n: int): nat {
    if n < 0 then -n else n
  }

  /**
   * `skip(skip).limit(limit)`: MongoDB skips first whatever the call order,
   * reads a limit of 0 as no limit and a negative limit as its absolute value.
   */
  function Window(rs: seq<Record>, skip: nat, limit: int): (out: seq<Record>)
    ensures skip >= |rs| ==> out == []
    ensures skip < |rs| && (limit == 0 || |rs| - skip <= Abs(limit)) ==> |out| == |rs| - skip
    ensures skip < |rs| && limit != 0 && Abs(limit) < |rs| - skip ==> |out| == Abs(limit)
    ensures forall i :: 0 <= i < |out| ==> skip + i < |rs| && out[i] == rs[skip + i]
  {
    var rest := if skip <= |rs| then rs[skip..] else [];
    if limit == 0 || |rest| <= Abs(limit) then rest else rest[..Abs(limit)]
  }

  /** A window of a newest-first sequence is newest first. */
  lemma WindowNewestFirst(rs: seq<Record>, skip: nat, limit: int)
    requires NewestFirst(rs)
    ensures NewestFirst(Window(rs, skip, limit))
  {
    var w := Window(rs, skip, limit);
    forall i, j | 0 <= i < j < |w|
      ensures w[i].template.createdAt >= w[j].template.createdAt
    {
      assert w[i] == rs[skip + i] && w[j] == rs[skip + j];
    }
  }

  /** `Math.floor(a / b)`. */
  function FloorDiv(a: int, b: int): int
    requires b != 0
  {
    if b > 0 then a / b else (-a) / (-b)
  }

  /** `Math.ceil(a / b)`. */
  function CeilDiv(a: int, b: int): int
    requires b != 0
  {
    -FloorDiv(-a, b)
  }

  /** `FloorDiv` rounds toward minus infinity and `CeilDiv` toward plus infinity. */
  lemma DivBounds(a: int, b: int)
    requires b != 0
    ensures b > 0 ==> FloorDiv(a, b) * b <= a < FloorDiv(a, b) * b + b
    ensures b < 0 ==> FloorDiv(a, b) * b + b < a <= FloorDiv(a, b) * b
  {
    if b < 0 {
      var q := (-a) / (-b);
      assert q * (-b) <= -a < q * (-b) + (-b);
    }
  }

  /** A positive `b` fits `a` into `CeilDiv(a, b)` groups of `b` and not into one fewer. */
  lemma CeilBounds(a: int, b: int)
    requires b > 0
    ensures (CeilDiv(a, b) - 1) * b < a <= CeilDiv(a, b) * b
  {
    var q := CeilDiv(a, b);
    DivBounds(-a, b);
    assert q == -FloorDiv(-a, b);
    assert (q - 1) * b == -(FloorDiv(-a, b) * b + b);
  }

  /** The documents the listing pages through: the matching ones, newest first. */
  function Listed(coll: seq<Record>, category: string, search: string): (out: seq<Record>)
    ensures NewestFirst(out)
    ensures multiset(out) == multiset(Select(coll, Listing(category, search)))
  {
    SortNewestFirst(Select(coll, Listing(category, search)))
  }

  /** The listed documents are exactly the matching records of the collection. */
  lemma ListedExactly(coll: seq<Record>, category: string, search: string)
    ensures var out := Listed(coll, category, search);
      forall x :: x in out <==> x in coll && Matches(Listing(category, search), x.template)
  {
    var out := Listed(coll, category, search);
    var m := Select(coll, Listing(category, search));
    forall x ensures x in out <==> x in coll && Matches(Listing(category, search), x.template) {
      assert x in out <==> multiset(out)[x] > 0;
      assert x in coll <==> multiset(coll)[x] > 0;
      assert multiset(out)[x] == multiset(m)[x];
    }
  }

  /** The listing's JSON: the page of documents and the pagination fields (`None` is JSON null). */
  datatype Page = Page(data: seq<Record>, total: nat, page: Option<int>, totalPages: Option<int>)

  /** `Math.floor(skip / limit) + 1`, which JSON writes as null when `limit` is 0. */
  function PageNumber(skip: nat, limit: int): (p: Option<int>)
    ensures p.None? <==> limit == 0
    ensures limit > 0 ==> p == Some(skip / limit + 1)
  {
    if limit == 0 then None else Some(FloorDiv(skip, limit) + 1)
  }

  /** `Math.ceil(total / limit)`, which JSON writes as null when `limit` is 0. */
  function PageCount(total: nat, limit: int): (p: Option<int>)
    ensures p.None? <==> limit == 0
    ensures limit > 0 ==> p == Some(CeilDiv(total, limit))
  {
    if limit == 0 then None else Some(CeilDiv(total, limit))
  }

  /**
   * GET /api/templates: `None` is the 500 answer MongoDB's refusal of a
   * negative skip produces. With a limit of 0, `skip / limit` and
   * `total / limit` are not finite, and JSON writes them as null.
   */
  function List(coll: seq<Record>, category: string, search: string, limit: int, skip: int): (r: Option<Page>)
    ensures r.None? <==> skip < 0
    ensures r.Some? ==> r.value.data == Window(Listed(coll, category, search), skip, limit)
    ensures r.Some? ==> r.value.total == |Listed(coll, category, search)|
    ensures r.Some? ==> (limit == 0 <==> r.value.page.None?) && (limit == 0 <==> r.value.totalPages.None?)
    ensures r.Some? && limit > 0 ==> r.value.page == Some(skip / limit + 1)
    ensures r.Some? && limit > 0 ==> r.value.totalPages == Some(CeilDiv(r.value.total, limit))
  {
    if skip < 0 then None
    else
      var listed := Listed(coll, category, search);
      Some(Page(Window(listed, skip, limit), |listed|, PageNumber(skip, limit), PageCount(|listed|, limit)))
  }

  /** The listing's defaults for a query string without `limit` or `skip`. */
  const DefaultLimit: int := 50
  const DefaultSkip: int := 0

  /**
   * GET /api/templates as the query string arrives: a missing or empty
   * `category` or `search` filters nothing, a missing `limit` is 50 and a
   * missing `skip` is 0, so a bare request answers the first page of at
   * most 50 documents.
   */
  function ListQuery(coll: seq<Record>, category: Option<string>, search: Option<string>,
                     limit: Option<int>, skip: Option<int>): (r: Option<Page>)
    ensures limit.None? && skip.None? ==> r.Some? && |r.value.data| <= DefaultLimit && r.value.page == Some(1)
    ensures r.None? <==> skip.Some? && skip.value < 0
  {
    var r := List(coll,
      if category.Some? then category.value else "",
      if search.Some? then search.value else "",
      if limit.Some? then limit.value else DefaultLimit,
      if skip.Some? then skip.value else DefaultSkip);
    if limit.None? && skip.None? then
      ListPage(coll, if category.Some? then category.value else "",
        if search.Some? then search.value else "", DefaultLimit, 0);
      r
    else r
  }

  /** A page holds matching documents only, newest first, and no more than the limit. */
  lemma ListPage(coll: seq<Record>, category: string, search: string, limit: int, skip: nat)
    ensures var p := List(coll, category, search, limit, skip).value;
      && NewestFirst(p.data)
      && (forall x :: x in p.data ==> x in coll && Matches(Listing(category, search), x.template))
      && (limit != 0 ==> |p.data| <= Abs(limit))
  {
    var listed := Listed(coll, category, search);
    WindowNewestFirst(listed, skip, limit);
    ListedExactly(coll, category, search);
    var w := Window(listed, skip, limit);
    forall x | x in w ensures x in listed {
      var i :| 0 <= i < |w| && w[i] == x;
    }
  }

  /** Every page from `skip` on, one after another. */
  function PagesFrom(rs: seq<Record>, limit: nat, skip: nat): seq<Record>
    requires limit > 0
    decreases |rs| - skip
  {
    if skip >= |rs| then [] else Window(rs, skip, limit) + PagesFrom(rs, limit, skip + limit)
  }

  /** With a positive limit, a window is the slice from `skip` of at most `limit` records. */
  lemma WindowSlice(rs: seq<Record>, skip: nat, limit: nat)
    requires limit > 0 && skip <= |rs|
    ensures skip + limit <= |rs| ==> Window(rs, skip, limit) == rs[skip..skip + limit]
    ensures skip + limit > |rs| ==> Window(rs, skip, limit) == rs[skip..]
  {
    if skip + limit <= |rs| {
      assert rs[skip..][..limit] == rs[skip..skip + limit];
    }
  }

  /** Walking the pages with a positive limit visits every document once, in order. */
  lemma {:induction false} PagesCoverAll(rs: seq<Record>, limit: nat, skip: nat)
    requires limit > 0 && skip <= |rs|
    ensures PagesFrom(rs, limit, skip) == rs[skip..]
    decreases |rs| - skip
  {
    if skip < |rs| {
      WindowSlice(rs, skip, limit);
      if skip + limit <= |rs| {
        PagesCoverAll(rs, limit, skip + limit);
        assert rs[skip..] == rs[skip..skip + limit] + rs[skip + limit..];
      } else {
        assert PagesFrom(rs, limit, skip + limit) == [];
        assert rs[skip..] + [] == rs[skip..];
      }
    }
  }

  /** With a positive limit, page `CeilDiv(|rs|, limit)` is the last one holding documents. */
  lemma LastPage(rs: seq<Record>, limit: int)
    requires limit > 0 && |rs| > 0
    ensures var last := CeilDiv(|rs|, limit);
      && last >= 1
      && Window(rs, (last - 1) * limit, limit) != []
      && Window(rs, last * limit, limit) == []
  {
    CeilBounds(|rs|, limit);
  }

  /** GET /api/templates/category/:category. */
  function ByCategory(coll: seq<Record>, category: string): (out: seq<Record>)
    ensures NewestFirst(out)
    ensures forall x :: x in out <==> x in coll && x.template.category == category
    ensures forall x :: multiset(out)[x] == if x.template.category == category then multiset(coll)[x] else 0
  {
    var sorted := SortNewestFirst(Select(coll, InCategory(category)));
    assert forall x :: x in sorted <==> x in multiset(sorted);
    sorted
  }

  /**
   * GET /api/templates/search/tags: `None` is the 500 answer when the `tags`
   * parameter is missing (`undefined.split` throws).
   */
  function SearchByTags(coll: seq<Record>, tags: Option<string>): (r: Option<seq<Record>>)
    ensures r.None? <==> tags.None?
    ensures r.Some? ==> NewestFirst(r.value)
    ensures r.Some? ==> forall x :: x in r.value <==>
      x in coll && Matches(AnyTag(SplitTrimmed(tags.value, ',')), x.template)
    ensures r.Some? ==> forall x ::
      multiset(r.value)[x] == if Matches(AnyTag(SplitTrimmed(tags.value, ',')), x.template) then multiset(coll)[x] else 0
  {
    if tags.None? then None
    else
      var m := Select(coll, AnyTag(SplitTrimmed(tags.value, ',')));
      var sorted := SortNewestFirst(m);
      assert forall x :: x in sorted <==> multiset(sorted)[x] > 0;
      assert forall x :: x in coll <==> multiset(coll)[x] > 0;
      Some(sorted)
  }

  /** `Math.floor(r * count)` for the value `r` of `Math.random()`. */
  function RandomIndex(count: nat, r: real): (i: int)
    requires 0.0 <= r < 1.0
    ensures count > 0 ==> 0 <= i < count
    ensures count == 0 ==> i == 0
  {
    var n := count as real;
    assert count > 0 ==> r * n < n by {
      if count > 0 {
        assert (1.0 - r) * n > 0.0;
      }
    }
    (r * n).Floor
  }

  /**
   * Each index owns the interval [i/count, (i+1)/count) of values of `r`, so
   * a uniform `r` picks every index with probability 1/count.
   */
  lemma RandomIndexInterval(count: nat, r: real, i: int)
    requires 0.0 <= r < 1.0 && count > 0
    ensures RandomIndex(count, r) == i <==>
      i as real / count as real <= r < (i + 1) as real / count as real
  {
    var n := count as real;
    DivideByPositive(i as real, n, r);
    DivideByPositive((i + 1) as real, n, r);
  }

  /** Comparing with a quotient by a positive `n` is comparing with `r * n`. */
  lemma DivideByPositive(a: real, n: real, r: real)
    requires n > 0.0
    ensures a / n <= r <==> a <= r * n
    ensures r < a / n <==> r * n < a
  {
    var q := a / n;
    assert q * n == a;
    assert (r - q) * n == r * n - a;
    if r >= q {
      assert (r - q) * n >= 0.0;
    } else {
      assert (r - q) * n < 0.0;
    }
  }

  /**
   * GET /api/templates/random: `findOne().skip(index)` in natural order; on
   * an empty collection the result is null.
   */
  function RandomPick(coll: seq<Record>, r: real): (pick: Option<Record>)
    requires 0.0 <= r < 1.0
    ensures pick.None? <==> coll == []
    ensures pick.Some? ==> pick.value == coll[RandomIndex(|coll|, r)]
  {
    var i := RandomIndex(|coll|, r);
    if i < |coll| then Some(coll[i]) else None
  }
}
