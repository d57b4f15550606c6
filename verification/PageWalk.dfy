/**
 The invoice listing: the database's filtered and ordered page query, the HTTP
 handler that serves one page, and the web client that walks every page while
 the table may be changing under it.
 */
module PageWalk {
  import opened Options

  /** `id` stands for the invoice id's place in the database's text order. */
  datatype Row = Row(id: int, createdAt: int, issuer: string, status: string, rest: nat)
  datatype Filter = Filter(status: string, issuer: string)
  type Table = seq<Row>

  predicate Matches(f: Filter, row: Row) {
    (f.status == "" || row.status == f.status) && (f.issuer == "" || row.issuer == f.issuer)
  }

  /** The primary key. */
  ghost predicate Keyed(t: Table) { forall i, j :: 0 <= i < j < |t| ==> t[i].id != t[j].id }

  // ----- the query -----

  function Where(f: Filter, t: Table): Table {
    if t == [] then []
    else if Matches(f, t[0]) then [t[0]] + Where(f, t[1..])
    else Where(f, t[1..])
  }

  /** ORDER BY created_at DESC, id DESC. */
  predicate Before(a: Row, b: Row) {
    a.createdAt > b.createdAt || (a.createdAt == b.createdAt && a.id > b.id)
  }

  function Place(row: Row, s: seq<Row>): seq<Row> {
    if s == [] || !Before(s[0], row) then [row] + s else [s[0]] + Place(row, s[1..])
  }

  function OrderBy(t: Table): seq<Row> {
    if t == [] then [] else Place(t[0], OrderBy(t[1..]))
  }

  function View(f: Filter, t: Table): seq<Row> { OrderBy(Where(f, t)) }

  /** LIMIT and OFFSET. */
  function Slice(v: seq<Row>, offset: nat, limit: nat): seq<Row> {
    if offset >= |v| then []
    else if offset + limit > |v| then v[offset..]
    else v[offset..offset + limit]
  }

  ghost predicate Ordered(s: seq<Row>) { forall i, j :: 0 <= i < j < |s| ==> Before(s[i], s[j]) }

  lemma {:induction false} WhereKeeps(f: Filter, t: Table)
    ensures forall row :: row in Where(f, t) <==> row in t && Matches(f, row)
    ensures Keyed(t) ==> Keyed(Where(f, t))
  {
    if t != [] {
      hide Matches;
      WhereKeeps(f, t[1..]);
      assert forall row :: row in t <==> row == t[0] || row in t[1..];
      if Keyed(t) {
        assert forall i :: 0 <= i < |t[1..]| ==> t[1..][i] == t[i + 1];
        forall i | 0 <= i < |Where(f, t[1..])| ensures Where(f, t[1..])[i].id != t[0].id {
          assert Where(f, t[1..])[i] in t[1..];
        }
      }
    }
  }

  lemma {:induction false} PlaceContents(row: Row, s: seq<Row>)
    ensures multiset(Place(row, s)) == multiset(s) + multiset{row}
  {
    if s != [] && Before(s[0], row) {
      hide Before;
      PlaceContents(row, s[1..]);
      assert s == [s[0]] + s[1..];
    }
  }

  lemma {:induction false} PlaceOrders(row: Row, s: seq<Row>)
    requires Ordered(s) && forall i :: 0 <= i < |s| ==> s[i].id != row.id
    ensures Ordered(Place(row, s))
  {
    if s != [] && Before(s[0], row) {
      PlaceOrders(row, s[1..]);
      PlaceContents(row, s[1..]);
      var tail := Place(row, s[1..]);
      assert forall x :: x in s[1..] ==> Before(s[0], x);
      hide Place, Before;
      forall j | 0 <= j < |tail| ensures Before(s[0], tail[j]) {
        assert tail[j] in multiset(tail);
      }
    }
  }

  lemma {:induction false} OrderByContents(t: Table)
    ensures multiset(OrderBy(t)) == multiset(t)
  {
    if t != [] {
      hide Place;
      OrderByContents(t[1..]);
      PlaceContents(t[0], OrderBy(t[1..]));
      assert t == [t[0]] + t[1..];
    }
  }

  lemma {:induction false} OrderByOrders(t: Table)
    requires Keyed(t)
    ensures Ordered(OrderBy(t))
  {
    if t != [] {
      hide Place, Ordered;
      var tail := OrderBy(t[1..]);
      OrderByOrders(t[1..]);
      OrderByContents(t[1..]);
      assert forall x :: x in t[1..] ==> x.id != t[0].id;
      forall i | 0 <= i < |tail| ensures tail[i].id != t[0].id {
        assert tail[i] in multiset(tail);
      }
      PlaceOrders(t[0], tail);
    }
  }

  /** The query returns exactly the matching rows, newest first; COUNT(*) is their number. */
  lemma ViewMeans(f: Filter, t: Table)
    requires Keyed(t)
    ensures Ordered(View(f, t))
    ensures forall row :: row in View(f, t) <==> row in t && Matches(f, row)
    ensures |View(f, t)| == |Where(f, t)|
  {
    hide Matches;
    WhereKeeps(f, t);
    OrderByOrders(Where(f, t));
    OrderByContents(Where(f, t));
    assert forall row :: row in View(f, t) <==> row in multiset(View(f, t));
    assert |multiset(View(f, t))| == |multiset(Where(f, t))|;
  }

  /** The same, spelled out: an empty filter field matches everything, newer rows come first and ties by the greater
      id, and no row comes twice. */
  lemma ViewSpelled(f: Filter, t: Table)
    requires Keyed(t)
    ensures forall row :: row in View(f, t) <==>
      row in t && (f.status == "" || row.status == f.status) && (f.issuer == "" || row.issuer == f.issuer)
    ensures forall i, j :: 0 <= i < j < |View(f, t)| ==>
      var a, b := View(f, t)[i], View(f, t)[j];
      a.createdAt > b.createdAt || (a.createdAt == b.createdAt && a.id > b.id)
  {
    ViewMeans(f, t);
    hide View;
  }

  // ----- the handler -----

  /** A query parameter after strconv.Atoi: an empty one counts as absent, one that is no machine integer as
      malformed. */
  datatype Param = Absent | Malformed | Number(value: int)

  datatype Response = Response(data: seq<Row>, total: nat, page: int, limit: nat, totalPages: nat)
  datatype Reply = BadRequest | InternalError | OK(body: Response)

  /** What the database shows one request: COUNT(*) and the page query run one after the other, outside a
      transaction. */
  datatype Snapshot = Down | Up(counted: Table, paged: Table)

  const MAX_INT: int := 0x7FFF_FFFF_FFFF_FFFF
  const TWO_TO_64: int := 0x1_0000_0000_0000_0000

  /** Go's int on a 64-bit machine. */
  function Wrap64(n: int): int {
    var m := n % TWO_TO_64;
    if m > MAX_INT then m - TWO_TO_64 else m
  }

  function PageNumber(p: Param): int { if p.Number? then p.value else 1 }

  function PageSize(p: Param): int { if p.Number? then (if p.value > 100 then 100 else p.value) else 20 }

  /** The number of pages; an empty listing still has one. */
  function Pages(total: nat, limit: nat): (n: nat)
    requires limit > 0
    ensures n >= 1 && total <= n * limit
    ensures (n - 1) * limit < total || n == 1
  {
    var n := (total + limit - 1) / limit;
    if n < 1 then 1 else n
  }

  /** Serves one page; the offset is a machine integer, and the database refuses a negative one. */
  method HandleGetInvoices(f: Filter, pageParam: Param, limitParam: Param, snap: Snapshot) returns (r: Reply)
    requires pageParam.Number? ==> pageParam.value <= MAX_INT
    ensures r == BadRequest <==>
      || pageParam.Malformed? || (pageParam.Number? && pageParam.value < 1)
      || limitParam.Malformed? || (limitParam.Number? && limitParam.value < 1)
    ensures r == InternalError <==>
      r != BadRequest && (snap.Down? || Wrap64((PageNumber(pageParam) - 1) * PageSize(limitParam)) < 0)
    ensures r.OK? ==>
      var limit := PageSize(limitParam);
      && 1 <= limit <= 100 && r.body.limit == limit
      && (limitParam.Absent? ==> limit == 20) && (pageParam.Absent? ==> r.body.page == 1)
      && (limitParam.Number? ==> limit == if limitParam.value < 100 then limitParam.value else 100)
      && (pageParam.Number? ==> r.body.page == pageParam.value)
      && r.body.page == PageNumber(pageParam)
      && r.body.total == |Where(f, snap.counted)|
      && r.body.totalPages == Pages(r.body.total, limit)
      && |r.body.data| <= limit
      && r.body.data == Slice(View(f, snap.paged), Wrap64((PageNumber(pageParam) - 1) * limit), limit)
  {
    var page, limit := 1, 20;
    match pageParam {
      case Absent =>
      case Malformed => return BadRequest;
      case Number(v) =>
        if v < 1 { return BadRequest; }
        page := v;
    }
    match limitParam {
      case Absent =>
      case Malformed => return BadRequest;
      case Number(v) =>
        if v < 1 { return BadRequest; }
        limit := if v > 100 then 100 else v;
    }
    var offset := Wrap64((page - 1) * limit);
    if snap.Down? || offset < 0 {
      return InternalError;
    }
    var total := |Where(f, snap.counted)|;
    var data := Slice(View(f, snap.paged), offset, limit);
    var totalPages := (total + limit - 1) / limit;
    if totalPages < 1 {
      totalPages := 1;
    }
    r := OK(Response(data, total, page, limit, totalPages));
  }

  // ----- every page once is the whole listing -----

  function Join(v: seq<Row>, limit: nat, pages: nat): seq<Row> {
    if pages == 0 then [] else Join(v, limit, pages - 1) + Slice(v, (pages - 1) * limit, limit)
  }

  lemma {:induction false} JoinIsPrefix(v: seq<Row>, limit: nat, pages: nat)
    ensures Join(v, limit, pages) == if pages * limit <= |v| then v[..pages * limit] else v
  {
    if pages > 0 {
      JoinIsPrefix(v, limit, pages - 1);
      assert pages * limit == (pages - 1) * limit + limit;
      SliceExtends(v, (pages - 1) * limit, limit);
      hide Slice;
    }
  }

  /** A page taken from where a prefix ends extends it. */
  lemma SliceExtends(v: seq<Row>, from: nat, limit: nat)
    ensures (if from <= |v| then v[..from] else v) + Slice(v, from, limit)
         == if from + limit <= |v| then v[..from + limit] else v
  {
  }

  lemma TimesGrows(a: nat, b: nat, c: nat)
    requires a <= b
    ensures a * c <= b * c
  {
    assert (b - a) * c >= 0;
  }

  /** For any page size the pages 1..totalPages, one after the other, are the listing, and later pages are empty. */
  lemma PagesCover(v: seq<Row>, limit: nat, page: nat)
    requires limit > 0
    ensures Join(v, limit, Pages(|v|, limit)) == v
    ensures page > Pages(|v|, limit) ==> Slice(v, (page - 1) * limit, limit) == []
  {
    var n := Pages(|v|, limit);
    assert |v| <= n * limit;
    hide Pages, Join;
    JoinIsPrefix(v, limit, n);
    assert n * limit == |v| ==> v[..n * limit] == v;
    if page > n {
      TimesGrows(n, page - 1, limit);
    }
  }

  /** Wrapping keeps the residue modulo 2^64 and lands in the range of a machine integer. */
  lemma WrapMeans(n: int)
    ensures -0x8000_0000_0000_0000 <= Wrap64(n) < 0x8000_0000_0000_0000
    ensures (n - Wrap64(n)) % 0x1_0000_0000_0000_0000 == 0
  {
    var m := n % TWO_TO_64;
    assert n == TWO_TO_64 * (n / TWO_TO_64) + m;
  }

  /** The offset is exact as long as it fits a machine integer. */
  lemma OffsetExact(page: int, limit: int)
    requires page >= 1 && 1 <= limit <= 100
    ensures Wrap64((page - 1) * limit) == (page - 1) * limit <==> (page - 1) * limit <= MAX_INT
    ensures Wrap64((page - 1) * limit) <= (page - 1) * limit
  {
    var n := (page - 1) * limit;
    assert n >= 0;
    if n <= MAX_INT {
      assert n % TWO_TO_64 == n;
    }
  }

  /** A request that is answered is served another page than the one it names exactly when its offset
      overflows and wraps to a place inside the listing; one that wraps past the end is still right. */
  lemma WrongPageIff(v: seq<Row>, page: int, limit: int)
    requires Keyed(v) && page >= 1 && 1 <= limit <= 100
    ensures var n := (page - 1) * limit;
      (Wrap64(n) >= 0 && Slice(v, Wrap64(n), limit) != Slice(v, n, limit)) <==> n > MAX_INT && 0 <= Wrap64(n) < |v|
  {
    OffsetExact(page, limit);
    var n := (page - 1) * limit;
    var w := Wrap64(n);
    hide Wrap64;
    if n > MAX_INT && 0 <= w < |v| {
      assert Slice(v, w, limit)[0] == v[w];
      assert n < |v| ==> Slice(v, n, limit)[0] == v[n] && v[w].id != v[n].id;
    }
  }

  /** Page 2^62 + 1 of size 4 is served the first page of any listing that has one. */
  lemma HugePageAliases(v: seq<Row>)
    requires Keyed(v) && v != []
    ensures var page, limit := 0x4000_0000_0000_0001, PageSize(Number(4));
      && page <= MAX_INT && Wrap64((page - 1) * limit) == 0
      && Slice(v, Wrap64((page - 1) * limit), limit) == Slice(v, 0, limit) != Slice(v, (page - 1) * limit, limit)
  {
    var page := 0x4000_0000_0000_0001;
    assert Wrap64((page - 1) * 4) == 0;
    WrongPageIff(v, page, 4);
  }

  // ----- the walking client -----

  const ALL_PAGE_SIZE: nat := 100
  const ALL_MAX_PAGES: nat := 100

  /** A JavaScript Map keyed by id: a known key keeps its place and takes the new value. */
  function Upsert(seen: seq<Row>, row: Row): seq<Row> {
    if seen == [] then [row]
    else if seen[0].id == row.id then [row] + seen[1..]
    else [seen[0]] + Upsert(seen[1..], row)
  }

  function Merge(seen: seq<Row>, data: seq<Row>): seq<Row> {
    if data == [] then seen else Upsert(Merge(seen, data[..|data| - 1]), data[|data| - 1])
  }

  function Data(f: Filter, snap: Snapshot, page: nat): seq<Row>
    requires snap.Up? && page >= 1
  {
    Slice(View(f, snap.paged), (page - 1) * ALL_PAGE_SIZE, ALL_PAGE_SIZE)
  }

  function Total(f: Filter, snap: Snapshot): nat
    requires snap.Up?
  {
    Pages(|Where(f, snap.counted)|, ALL_PAGE_SIZE)
  }

  /** The rest of a walk that has reached `page`; request number p is answered from net[p - 1]. */
  function Walk(f: Filter, net: seq<Snapshot>, page: nat, seen: seq<Row>): Option<seq<Row>>
    requires |net| == ALL_MAX_PAGES && 1 <= page <= ALL_MAX_PAGES
    decreases ALL_MAX_PAGES - page
  {
    var snap := net[page - 1];
    if snap.Down? then None
    else
      var data := Data(f, snap, page);
      var more := Merge(seen, data);
      if data == [] || page >= Total(f, snap) || page >= ALL_MAX_PAGES then Some(more)
      else Walk(f, net, page + 1, more)
  }

  lemma MergeSnoc(seen: seq<Row>, data: seq<Row>, i: nat)
    requires i < |data|
    ensures Merge(seen, data[..i + 1]) == Upsert(Merge(seen, data[..i]), data[i])
  {
    assert data[..i + 1][..i] == data[..i];
  }

  method GetAllInvoices(f: Filter, net: seq<Snapshot>) returns (r: Option<seq<Row>>)
    requires |net| == ALL_MAX_PAGES
    ensures r == Walk(f, net, 1, [])
  {
    hide View, Where, Pages, Wrap64;
    var byId: seq<Row> := [];
    var page, totalPages := 1, 1;
    while page <= totalPages && page <= ALL_MAX_PAGES
      invariant 1 <= page <= ALL_MAX_PAGES + 1
      invariant page <= totalPages && page <= ALL_MAX_PAGES ==> Walk(f, net, 1, []) == Walk(f, net, page, byId)
      invariant !(page <= totalPages && page <= ALL_MAX_PAGES) ==> Walk(f, net, 1, []) == Some(byId)
      decreases ALL_MAX_PAGES + 1 - page
    {
      OffsetExact(page, ALL_PAGE_SIZE);
      var res := HandleGetInvoices(f, Number(page), Number(ALL_PAGE_SIZE), net[page - 1]);
      if !res.OK? {
        return None;
      }
      totalPages := if res.body.totalPages == 0 then 1 else res.body.totalPages;
      ghost var seen := byId;
      var data := res.body.data;
      for i := 0 to |data|
        invariant byId == Merge(seen, data[..i])
      {
        MergeSnoc(seen, data, i);
        byId := Upsert(byId, data[i]);
      }
      assert data[..|data|] == data;
      if |data| == 0 {
        return Some(byId);
      }
      page := page + 1;
    }
    r := Some(byId);
  }

  // ----- what the Map holds -----

  ghost predicate Has(s: seq<Row>, id: int) { exists i :: 0 <= i < |s| && s[i].id == id }

  /** Known keys after an insert or update. */
  lemma {:induction false} UpsertHas(seen: seq<Row>, row: Row, id: int)
    ensures Has(Upsert(seen, row), id) <==> Has(seen, id) || id == row.id
  {
    var next := Upsert(seen, row);
    if seen != [] {
      HasCons(seen);
      HasCons(next);
      hide Has;
      if seen[0].id == row.id {
        assert next[1..] == seen[1..];
      } else {
        assert next[1..] == Upsert(seen[1..], row);
        UpsertHas(seen[1..], row, id);
      }
    } else {
      assert next[0] == row;
    }
  }

  lemma {:induction false} UpsertKeyed(seen: seq<Row>, row: Row)
    requires Keyed(seen)
    ensures Keyed(Upsert(seen, row))
  {
    if seen != [] && seen[0].id != row.id {
      var tail := Upsert(seen[1..], row);
      assert Keyed(seen[1..]);
      UpsertKeyed(seen[1..], row);
      UpsertHas(seen[1..], row, seen[0].id);
      hide Upsert;
      assert !Has(seen[1..], seen[0].id);
      assert !Has(tail, seen[0].id);
      assert Keyed([seen[0]] + tail);
    }
  }

  lemma {:induction false} UpsertFrom(seen: seq<Row>, row: Row)
    ensures forall x :: x in Upsert(seen, row) ==> x in seen || x == row
  {
    if seen != [] {
      UpsertFrom(seen[1..], row);
      assert forall x :: x in seen <==> x == seen[0] || x in seen[1..];
    }
  }

  lemma {:induction false} UpsertNew(seen: seq<Row>, row: Row)
    requires !Has(seen, row.id)
    ensures Upsert(seen, row) == seen + [row]
  {
    if seen != [] {
      HasCons(seen);
      UpsertNew(seen[1..], row);
    }
  }

  lemma HasCons(s: seq<Row>)
    requires s != []
    ensures forall id :: Has(s, id) <==> s[0].id == id || Has(s[1..], id)
  {
    forall id ensures Has(s, id) <==> s[0].id == id || Has(s[1..], id) {
      if Has(s[1..], id) {
        var i :| 0 <= i < |s[1..]| && s[1..][i].id == id;
        assert s[i + 1].id == id;
      }
      if Has(s, id) && s[0].id != id {
        var i :| 0 <= i < |s| && s[i].id == id;
        assert s[1..][i - 1].id == id;
      }
    }
  }

  lemma HasSnoc(s: seq<Row>, row: Row, id: int)
    ensures Has(s + [row], id) <==> Has(s, id) || id == row.id
  {
    var all := s + [row];
    assert all[|s|] == row;
    if Has(s, id) {
      var i :| 0 <= i < |s| && s[i].id == id;
      assert all[i].id == id;
    }
  }

  lemma {:induction false} MergeKeeps(seen: seq<Row>, data: seq<Row>)
    ensures Keyed(seen) ==> Keyed(Merge(seen, data))
    ensures forall id :: Has(Merge(seen, data), id) <==> Has(seen, id) || Has(data, id)
    ensures forall x :: x in Merge(seen, data) ==> x in seen || x in data
  {
    if data != [] {
      hide Keyed, Has;
      var init, row := data[..|data| - 1], data[|data| - 1];
      MergeKeeps(seen, init);
      var before := Merge(seen, init);
      if Keyed(seen) {
        UpsertKeyed(before, row);
      }
      UpsertFrom(before, row);
      assert data == init + [row];
      forall id ensures Has(Merge(seen, data), id) <==> Has(seen, id) || Has(data, id) {
        UpsertHas(before, row, id);
        HasSnoc(init, row, id);
      }
    }
  }

  /** Rows with new, distinct ids are appended in order. */
  lemma {:induction false} MergeFresh(seen: seq<Row>, data: seq<Row>)
    requires Keyed(seen + data)
    ensures Merge(seen, data) == seen + data
  {
    if data != [] {
      var init, row := data[..|data| - 1], data[|data| - 1];
      assert seen + data == (seen + init) + [row];
      KeyedPrefix(seen + init, row);
      MergeFresh(seen, init);
      UpsertNew(seen + init, row);
    }
  }

  lemma KeyedPrefix(s: seq<Row>, row: Row)
    requires Keyed(s + [row])
    ensures Keyed(s) && !Has(s, row.id)
  {
    assert forall i :: 0 <= i < |s| ==> (s + [row])[i] == s[i];
    assert (s + [row])[|s|] == row;
  }

  // ----- completeness of the walk -----

  predicate Same(a: Row, b: Row) { a.id == b.id && a.createdAt == b.createdAt }

  /** Matching rows stay in the listing: rows may be inserted anywhere in the order, and changed in place. */
  ghost predicate Kept(f: Filter, t: Table, u: Table) {
    forall row :: row in t && Matches(f, row) ==> exists now :: now in u && Matches(f, now) && Same(row, now)
  }

  /** At most 10,000 matching rows, each request sees at least what the previous one saw, and COUNT(*) reports every
      page its page query has. */
  ghost predicate Growing(f: Filter, net: seq<Snapshot>) {
    && (forall p :: 0 <= p < |net| ==> net[p].Up? ==>
         && Keyed(net[p].counted) && Keyed(net[p].paged)
         && |View(f, net[p].paged)| <= ALL_PAGE_SIZE * ALL_MAX_PAGES
         && |View(f, net[p].paged)| <= ALL_PAGE_SIZE * Total(f, net[p]))
    && (forall p :: 0 <= p && p + 1 < |net| ==> net[p].Up? && net[p + 1].Up? ==>
        Kept(f, net[p].paged, net[p + 1].paged))
  }

  /** When rows arrive only between requests, the condition on COUNT(*) holds by itself. */
  lemma ArrivalsBetweenRequests(f: Filter, net: seq<Snapshot>)
    requires forall p :: 0 <= p < |net| ==> net[p].Up? ==>
      net[p].counted == net[p].paged && Keyed(net[p].paged) && |View(f, net[p].paged)| <= ALL_PAGE_SIZE * ALL_MAX_PAGES
    requires forall p :: 0 <= p && p + 1 < |net| ==>
      net[p].Up? && net[p + 1].Up? ==> Kept(f, net[p].paged, net[p + 1].paged)
    ensures Growing(f, net)
  {
    forall p | 0 <= p < |net| && net[p].Up?
      ensures |View(f, net[p].paged)| <= ALL_PAGE_SIZE * Total(f, net[p])
    {
      ViewMeans(f, net[p].paged);
    }
  }

  ghost predicate At(v: seq<Row>, j: nat, row: Row) { j < |v| && Same(v[j], row) }

  ghost predicate Listed(v: seq<Row>, row: Row) { exists k: nat :: At(v, k, row) }

  /** A row's place never moves towards the front while matching rows stay. */
  lemma {:induction false} PlacesRise(v: seq<Row>, w: seq<Row>, j: nat)
    requires Ordered(v) && Ordered(w) && j < |v|
    requires forall i :: 0 <= i < |v| ==> Listed(w, v[i])
    ensures exists k :: k >= j && At(w, k, v[j])
  {
    var k: nat :| At(w, k, v[j]);
    if j > 0 {
      PlacesRise(v, w, j - 1);
      var b: nat :| b >= j - 1 && At(w, b, v[j - 1]);
      assert Before(v[j - 1], v[j]);
      assert Before(w[b], w[k]);
    }
  }

  lemma KeptView(f: Filter, t: Table, u: Table, j: nat, row: Row)
    requires Keyed(t) && Keyed(u) && Kept(f, t, u) && At(View(f, t), j, row)
    ensures exists k :: k >= j && At(View(f, u), k, row)
  {
    ViewMeans(f, t);
    ViewMeans(f, u);
    var v, w := View(f, t), View(f, u);
    hide View, Matches, Keyed, Ordered;
    forall i | 0 <= i < |v| ensures Listed(w, v[i]) {
      assert v[i] in t && Matches(f, v[i]);
      var now :| now in u && Matches(f, now) && Same(v[i], now);
      assert now in w;
      var k :| 0 <= k < |w| && w[k] == now;
      assert At(w, k, v[i]);
    }
    PlacesRise(v, w, j);
    var k :| k >= j && At(w, k, v[j]);
    assert At(w, k, row);
  }

  /** A page holds the rows at its places. */
  lemma OnPage(f: Filter, snap: Snapshot, page: nat, j: nat, row: Row)
    requires snap.Up? && page >= 1 && At(View(f, snap.paged), j, row)
    requires (page - 1) * ALL_PAGE_SIZE <= j < page * ALL_PAGE_SIZE
    ensures Has(Data(f, snap, page), row.id)
  {
    var v := View(f, snap.paged);
    hide View;
    assert Data(f, snap, page)[j - (page - 1) * ALL_PAGE_SIZE] == v[j];
  }

  /** From any page on: a row already seen, or not yet passed, is in the result. */
  lemma {:induction false} WalkFinds(f: Filter, net: seq<Snapshot>, page: nat, seen: seq<Row>, j: nat, row: Row)
    requires |net| == ALL_MAX_PAGES && 1 <= page <= ALL_MAX_PAGES
    requires Growing(f, net)
    requires net[page - 1].Up? ==> At(View(f, net[page - 1].paged), j, row)
    requires Has(seen, row.id) || j >= (page - 1) * ALL_PAGE_SIZE
    ensures Walk(f, net, page, seen).Some? ==> Has(Walk(f, net, page, seen).value, row.id)
    decreases ALL_MAX_PAGES - page
  {
    var snap := net[page - 1];
    if snap.Up? {
      var v := View(f, snap.paged);
      var data := Data(f, snap, page);
      var more := Merge(seen, data);
      MergeKeeps(seen, data);
      if (page - 1) * ALL_PAGE_SIZE <= j < page * ALL_PAGE_SIZE {
        OnPage(f, snap, page, j, row);
      }
      assert Has(more, row.id) || j >= page * ALL_PAGE_SIZE;
      hide View, Merge, Keyed, Kept;
      if !(data == [] || page >= Total(f, snap) || page >= ALL_MAX_PAGES) {
        if net[page].Up? {
          assert net[page - 1 + 1] == net[page];
          KeptView(f, snap.paged, net[page].paged, j, row);
          var k :| k >= j && At(View(f, net[page].paged), k, row);
          WalkFinds(f, net, page + 1, more, k, row);
        }
      }
    }
  }

  /** The result names nobody twice and holds only rows that some request showed. */
  lemma {:induction false} WalkSound(f: Filter, net: seq<Snapshot>, page: nat, seen: seq<Row>)
    requires |net| == ALL_MAX_PAGES && 1 <= page <= ALL_MAX_PAGES
    requires Keyed(seen) && forall p :: 0 <= p < |net| ==> net[p].Up? ==> Keyed(net[p].paged)
    ensures var r := Walk(f, net, page, seen);
      r.Some? ==>
        && Keyed(r.value)
        && forall row :: row in r.value ==>
             row in seen || (Matches(f, row) && exists p :: 0 <= p < |net| && net[p].Up? && row in net[p].paged)
    decreases ALL_MAX_PAGES - page
  {
    var snap := net[page - 1];
    if snap.Up? {
      var data := Data(f, snap, page);
      ViewMeans(f, snap.paged);
      hide Matches, Keyed, View, Ordered;
      MergeKeeps(seen, data);
      assert forall row :: row in data ==> row in snap.paged && Matches(f, row);
      var more := Merge(seen, data);
      if !(data == [] || page >= Total(f, snap) || page >= ALL_MAX_PAGES) {
        WalkSound(f, net, page + 1, more);
      }
    }
  }

  /** While matching rows only arrive or change in place, a walk that ends returns every row present at its start
      exactly once. */
  lemma WalkComplete(f: Filter, net: seq<Snapshot>, row: Row)
    requires |net| == ALL_MAX_PAGES && Growing(f, net)
    requires net[0].Up? && row in net[0].paged && Matches(f, row)
    ensures var r := Walk(f, net, 1, []);
      r.Some? ==>
        && exists i :: 0 <= i < |r.value| && r.value[i].id == row.id
             && forall k :: 0 <= k < |r.value| && r.value[k].id == row.id ==> k == i
  {
    ViewMeans(f, net[0].paged);
    var v := View(f, net[0].paged);
    var j :| 0 <= j < |v| && v[j] == row;
    WalkFinds(f, net, 1, [], j, row);
    WalkSound(f, net, 1, []);
    var r := Walk(f, net, 1, []);
    hide Walk, View, Growing;
    if r.Some? {
      var i :| 0 <= i < |r.value| && r.value[i].id == row.id;
      assert forall k :: 0 <= k < |r.value| && r.value[k].id == row.id ==> k == i;
    }
  }

  // ----- exactly which rows a walk misses -----

  /** Matching rows stay from each request's page query to the next one's. */
  ghost predicate Staying(f: Filter, net: seq<Snapshot>) {
    && (forall p :: 0 <= p < |net| ==> net[p].Up? ==> Keyed(net[p].paged))
    && (forall p :: 0 <= p && p + 1 < |net| ==> net[p].Up? && net[p + 1].Up? ==>
        Kept(f, net[p].paged, net[p + 1].paged))
  }

  /** The number of the last request a walk makes from `page` on. */
  function LastRequest(f: Filter, net: seq<Snapshot>, page: nat): (last: nat)
    requires |net| == ALL_MAX_PAGES && 1 <= page <= ALL_MAX_PAGES
    ensures page <= last <= ALL_MAX_PAGES
    decreases ALL_MAX_PAGES - page
  {
    var snap := net[page - 1];
    if snap.Down? || Data(f, snap, page) == [] || page >= Total(f, snap) || page >= ALL_MAX_PAGES then page
    else LastRequest(f, net, page + 1)
  }

  /** At request p the row lies behind the page that is requested. */
  ghost predicate Beyond(f: Filter, net: seq<Snapshot>, p: nat, row: Row) {
    1 <= p <= |net| && net[p - 1].Up? && Behind(View(f, net[p - 1].paged), row, p * ALL_PAGE_SIZE)
  }

  ghost predicate Behind(v: seq<Row>, row: Row, place: nat) { exists j: nat :: At(v, j, row) && j >= place }

  /** Behind the requested page at every request from `page` on. */
  ghost predicate AlwaysBeyond(f: Filter, net: seq<Snapshot>, page: nat, row: Row)
    requires |net| == ALL_MAX_PAGES && 1 <= page <= ALL_MAX_PAGES
  {
    forall p :: page <= p <= LastRequest(f, net, page) ==> Beyond(f, net, p, row)
  }

  lemma OnePlace(f: Filter, t: Table, i: nat, j: nat, row: Row)
    requires Keyed(t) && i < |View(f, t)| && View(f, t)[i].id == row.id && At(View(f, t), j, row)
    ensures i == j
  {
    OrderedKeyed(View(f, t), f, t);
    hide View;
  }

  /** A page holds a listed row exactly when the row's place is on it. */
  lemma OnPageIff(f: Filter, snap: Snapshot, page: nat, j: nat, row: Row)
    requires snap.Up? && page >= 1 && Keyed(snap.paged) && At(View(f, snap.paged), j, row)
    ensures Has(Data(f, snap, page), row.id) <==> (page - 1) * ALL_PAGE_SIZE <= j < page * ALL_PAGE_SIZE
  {
    if (page - 1) * ALL_PAGE_SIZE <= j < page * ALL_PAGE_SIZE {
      OnPage(f, snap, page, j, row);
    }
    if Has(Data(f, snap, page), row.id) {
      var i :| 0 <= i < |Data(f, snap, page)| && Data(f, snap, page)[i].id == row.id;
      var k := (page - 1) * ALL_PAGE_SIZE + i;
      assert Data(f, snap, page)[i] == View(f, snap.paged)[k] by { hide View; }
      OnePlace(f, snap.paged, k, j, row);
    }
  }

  lemma BeyondIff(f: Filter, net: seq<Snapshot>, p: nat, j: nat, row: Row)
    requires 1 <= p <= |net| && net[p - 1].Up? && Keyed(net[p - 1].paged) && At(View(f, net[p - 1].paged), j, row)
    ensures Beyond(f, net, p, row) <==> j >= p * ALL_PAGE_SIZE
  {
    if Beyond(f, net, p, row) {
      var k: nat :| At(View(f, net[p - 1].paged), k, row) && k >= p * ALL_PAGE_SIZE;
      OnePlace(f, net[p - 1].paged, k, j, row);
    }
  }

  lemma AlwaysBeyondStep(f: Filter, net: seq<Snapshot>, page: nat, row: Row)
    requires |net| == ALL_MAX_PAGES && 1 <= page < ALL_MAX_PAGES
        && LastRequest(f, net, page) == LastRequest(f, net, page + 1)
    ensures AlwaysBeyond(f, net, page, row) <==> Beyond(f, net, page, row) && AlwaysBeyond(f, net, page + 1, row)
  {
    hide Beyond, LastRequest;
  }

  lemma {:induction false} WalkMisses(f: Filter, net: seq<Snapshot>, page: nat, seen: seq<Row>, j: nat, row: Row)
    requires |net| == ALL_MAX_PAGES && 1 <= page <= ALL_MAX_PAGES && Staying(f, net)
    requires net[page - 1].Up? ==> At(View(f, net[page - 1].paged), j, row)
    requires Has(seen, row.id) || j >= (page - 1) * ALL_PAGE_SIZE
    ensures var r := Walk(f, net, page, seen);
      r.Some? ==> (!Has(r.value, row.id) <==> !Has(seen, row.id) && AlwaysBeyond(f, net, page, row))
    decreases ALL_MAX_PAGES - page
  {
    var snap := net[page - 1];
    if snap.Up? {
      hide View, Merge, Keyed, Kept, Has, Beyond, At, Data, Total;
      var data := Data(f, snap, page);
      var more := Merge(seen, data);
      MergeKeeps(seen, data);
      OnPageIff(f, snap, page, j, row);
      BeyondIff(f, net, page, j, row);
      if data == [] || page >= Total(f, snap) || page >= ALL_MAX_PAGES {
        assert LastRequest(f, net, page) == page;
      } else if net[page].Up? {
        AlwaysBeyondStep(f, net, page, row);
        assert net[page - 1 + 1] == net[page];
        KeptView(f, snap.paged, net[page].paged, j, row);
        var k :| k >= j && At(View(f, net[page].paged), k, row);
        hide AlwaysBeyond, LastRequest;
        WalkMisses(f, net, page + 1, more, k, row);
      }
    }
  }

  /**
   While matching rows stay, whatever arrives and whenever, a walk that ends misses a row of its start
   exactly when at every request the row lay behind the page requested.
   */
  lemma MissedIff(f: Filter, net: seq<Snapshot>, row: Row)
    requires |net| == ALL_MAX_PAGES && Staying(f, net)
    requires net[0].Up? && row in net[0].paged && Matches(f, row)
    ensures var r := Walk(f, net, 1, []);
      r.Some? ==> (!Has(r.value, row.id) <==> AlwaysBeyond(f, net, 1, row))
  {
    ViewMeans(f, net[0].paged);
    var v := View(f, net[0].paged);
    var j :| 0 <= j < |v| && v[j] == row;
    hide Walk, View, Staying, AlwaysBeyond;
    WalkMisses(f, net, 1, [], j, row);
  }

  /** COUNT(*) runs first, so while rows only arrive it never exceeds what the page query sees. */
  ghost predicate CountFirst(f: Filter, net: seq<Snapshot>) {
    forall p :: 0 <= p < |net| && net[p].Up? ==> |Where(f, net[p].counted)| <= |View(f, net[p].paged)|
  }

  /** The oldest row of the start stays last: only newer rows arrive. */
  ghost predicate OldestStays(f: Filter, net: seq<Snapshot>)
    requires net != [] && net[0].Up?
  {
    var v := View(f, net[0].paged);
    v != [] ==> forall p :: 0 <= p < |net| && net[p].Up? ==>
      var w := View(f, net[p].paged);
      w != [] && Same(w[|w| - 1], v[|v| - 1])
  }

  /** Every request before the last was answered, and its count announced a further page. */
  lemma {:induction false} Continues(f: Filter, net: seq<Snapshot>, page: nat, p: nat)
    requires |net| == ALL_MAX_PAGES && 1 <= page <= ALL_MAX_PAGES && page <= p < LastRequest(f, net, page)
    ensures net[p - 1].Up? && p < Total(f, net[p - 1])
    decreases p - page
  {
    hide Data, Total;
    if page < p {
      Continues(f, net, page + 1, p);
    }
  }

  lemma {:induction false} EndsUp(f: Filter, net: seq<Snapshot>, page: nat, seen: seq<Row>)
    requires |net| == ALL_MAX_PAGES && 1 <= page <= ALL_MAX_PAGES && Walk(f, net, page, seen).Some?
    ensures net[LastRequest(f, net, page) - 1].Up?
    decreases ALL_MAX_PAGES - page
  {
    hide Data, Total, Merge;
    var snap := net[page - 1];
    if !(Data(f, snap, page) == [] || page >= Total(f, snap) || page >= ALL_MAX_PAGES) {
      EndsUp(f, net, page + 1, Merge(seen, Data(f, snap, page)));
    }
  }

  /** The oldest row is behind the requested page exactly when the listing is longer than the pages so far. */
  lemma OldestBeyond(f: Filter, net: seq<Snapshot>, p: nat, row: Row)
    requires |net| == ALL_MAX_PAGES && Staying(f, net) && net[0].Up? && OldestStays(f, net)
    requires View(f, net[0].paged) != [] && row == View(f, net[0].paged)[|View(f, net[0].paged)| - 1]
    requires 1 <= p <= |net| && net[p - 1].Up?
    ensures Beyond(f, net, p, row) <==> |View(f, net[p - 1].paged)| > p * ALL_PAGE_SIZE
  {
    hide View, Keyed, Kept, Beyond;
    var w := View(f, net[p - 1].paged);
    assert At(w, |w| - 1, row);
    BeyondIff(f, net, p, |w| - 1, row);
  }

  lemma BeyondLong(f: Filter, net: seq<Snapshot>, p: nat, row: Row)
    requires Beyond(f, net, p, row)
    ensures net[p - 1].Up? && |View(f, net[p - 1].paged)| > p * ALL_PAGE_SIZE
  {
    hide View;
  }

  /**
   While matching rows stay, newer ones arrive whenever they like and the oldest stays last, a walk that ends is
   missing some row of its start exactly when its last page query saw more rows than the pages it had requested.
   */
  lemma WalkIncompleteIff(f: Filter, net: seq<Snapshot>)
    requires |net| == ALL_MAX_PAGES && net[0].Up? && Staying(f, net) && CountFirst(f, net) && OldestStays(f, net)
    ensures var r, last := Walk(f, net, 1, []), LastRequest(f, net, 1);
      r.Some? ==>
        && net[last - 1].Up?
        && ((exists row :: row in net[0].paged && Matches(f, row) && !Has(r.value, row.id))
            <==> |View(f, net[last - 1].paged)| > last * ALL_PAGE_SIZE)
  {
    var r, last := Walk(f, net, 1, []), LastRequest(f, net, 1);
    if r.Some? {
      EndsUp(f, net, 1, []);
      hide Walk, View, Where, Matches, Has, LastRequest, Beyond;
      if row :| row in net[0].paged && Matches(f, row) && !Has(r.value, row.id) {
        MissedIff(f, net, row);
        BeyondLong(f, net, last, row);
      }
      if |View(f, net[last - 1].paged)| > last * ALL_PAGE_SIZE {
        var row := OldestMissed(f, net, last);
        assert row in net[0].paged && Matches(f, row) && !Has(r.value, row.id);
      }
    }
  }

  /** The oldest row of the start. */
  lemma Oldest(f: Filter, t: Table) returns (row: Row)
    requires Keyed(t) && View(f, t) != []
    ensures row == View(f, t)[|View(f, t)| - 1] && row in t && Matches(f, row)
  {
    ViewMeans(f, t);
    var v := View(f, t);
    hide View, Matches, Keyed, Ordered;
    row := v[|v| - 1];
    assert row in v;
  }

  /** Every request but the last has a further page announced, so the oldest row is behind it. */
  lemma OldestBehindEarly(f: Filter, net: seq<Snapshot>, p: nat, row: Row)
    requires |net| == ALL_MAX_PAGES && Staying(f, net) && net[0].Up? && CountFirst(f, net) && OldestStays(f, net)
    requires View(f, net[0].paged) != [] && row == View(f, net[0].paged)[|View(f, net[0].paged)| - 1]
    requires 1 <= p < LastRequest(f, net, 1)
    ensures Beyond(f, net, p, row)
  {
    hide View, Where, Beyond, Staying, OldestStays, LastRequest, Pages;
    Continues(f, net, 1, p);
    MorePages(|Where(f, net[p - 1].counted)|, p);
    OldestBeyond(f, net, p, row);
  }

  lemma OldestAlwaysBeyond(f: Filter, net: seq<Snapshot>, row: Row)
    requires |net| == ALL_MAX_PAGES && Staying(f, net) && net[0].Up? && CountFirst(f, net) && OldestStays(f, net)
    requires View(f, net[0].paged) != [] && row == View(f, net[0].paged)[|View(f, net[0].paged)| - 1]
    requires Beyond(f, net, LastRequest(f, net, 1), row)
    ensures AlwaysBeyond(f, net, 1, row)
  {
    hide View, Beyond, Staying, CountFirst, OldestStays, LastRequest;
    forall p | 1 <= p < LastRequest(f, net, 1) ensures Beyond(f, net, p, row) {
      OldestBehindEarly(f, net, p, row);
    }
  }

  lemma OldestMissed(f: Filter, net: seq<Snapshot>, last: nat) returns (row: Row)
    requires |net| == ALL_MAX_PAGES && net[0].Up? && Staying(f, net) && CountFirst(f, net) && OldestStays(f, net)
    requires Walk(f, net, 1, []).Some? && last == LastRequest(f, net, 1) && net[last - 1].Up?
    requires |View(f, net[last - 1].paged)| > last * ALL_PAGE_SIZE
    ensures row in net[0].paged && Matches(f, row) && !Has(Walk(f, net, 1, []).value, row.id)
  {
    assert Keyed(net[0].paged);
    StartsListed(f, net, last) by { hide View, LastRequest, Staying, CountFirst, OldestStays; }
    row := Oldest(f, net[0].paged);
    hide Walk, View, Where, Matches, Has, LastRequest, Beyond, Keyed, Staying, CountFirst, OldestStays, AlwaysBeyond;
    OldestBeyond(f, net, last, row);
    OldestAlwaysBeyond(f, net, row);
    MissedIff(f, net, row);
  }

  /** A walk whose last page query saw a row began with one. */
  lemma StartsListed(f: Filter, net: seq<Snapshot>, last: nat)
    requires |net| == ALL_MAX_PAGES && net[0].Up? && last == LastRequest(f, net, 1) && net[last - 1].Up?
    requires View(f, net[last - 1].paged) != []
    ensures View(f, net[0].paged) != []
  {
    hide View, Where;
  }

  /** Request p ends a walk: it fails, serves nothing, is the last announced, or is the hundredth. */
  ghost predicate Ends(f: Filter, net: seq<Snapshot>, p: nat) {
    1 <= p <= |net| &&
    (net[p - 1].Down? || Data(f, net[p - 1], p) == [] || p >= Total(f, net[p - 1]) || p >= 100)
  }

  /** A walk makes its requests up to the first that ends it, and no more; it fails exactly when that one fails. */
  lemma {:induction false} StopsFirst(f: Filter, net: seq<Snapshot>, page: nat, seen: seq<Row>)
    requires |net| == ALL_MAX_PAGES && 1 <= page <= ALL_MAX_PAGES
    ensures var last := LastRequest(f, net, page);
      && Ends(f, net, last) && (forall p :: page <= p < last ==> !Ends(f, net, p))
      && (Walk(f, net, page, seen).None? <==> net[last - 1].Down?)
    decreases ALL_MAX_PAGES - page
  {
    hide Data, Total, Merge;
    var snap := net[page - 1];
    if snap.Up? && !(Data(f, snap, page) == [] || page >= Total(f, snap) || page >= ALL_MAX_PAGES) {
      StopsFirst(f, net, page + 1, Merge(seen, Data(f, snap, page)));
    }
  }

  // ----- which version of a row, and where -----

  /** Rows of the Map after a request: the request's own version of every id it served, the earlier one of the rest. */
  lemma {:induction false} MergeLatest(seen: seq<Row>, data: seq<Row>, x: Row)
    requires Keyed(data) && Keyed(seen) && x in Merge(seen, data)
    ensures x in data || (x in seen && !Has(data, x.id))
  {
    if data != [] {
      var init, row := data[..|data| - 1], data[|data| - 1];
      assert data == init + [row];
      KeyedPrefix(init, row);
      MergeKeeps(seen, init);
      hide Merge, Keyed;
      var before := Merge(seen, init);
      assert Merge(seen, data) == Upsert(before, row) by { MergeOne(seen, init, row); }
      UpsertLatest(before, row, x);
      if x != row {
        MergeLatest(seen, init, x);
        HasSnoc(init, row, x.id);
      }
    }
  }

  lemma MergeOne(seen: seq<Row>, data: seq<Row>, row: Row)
    ensures Merge(seen, data + [row]) == Upsert(Merge(seen, data), row)
  {
    assert (data + [row])[..|data|] == data;
  }

  /** An insert or update leaves the new version as the only one with its id. */
  lemma {:induction false} UpsertLatest(seen: seq<Row>, row: Row, x: Row)
    requires Keyed(seen) && x in Upsert(seen, row)
    ensures x == row || (x in seen && x.id != row.id)
  {
    if seen != [] {
      if seen[0].id == row.id {
        assert forall i :: 0 < i < |seen| ==> seen[i].id != row.id;
      } else if x != seen[0] {
        UpsertLatest(seen[1..], row, x);
      }
    }
  }

  /** Request q serves this id. */
  ghost predicate ServesId(f: Filter, net: seq<Snapshot>, q: nat, id: int) {
    1 <= q <= |net| && net[q - 1].Up? && Has(Data(f, net[q - 1], q), id)
  }

  /** Request p served this row, and no later request of the walk served its id. */
  ghost predicate ServedLast(f: Filter, net: seq<Snapshot>, last: nat, p: nat, x: Row) {
    && 1 <= p <= last <= |net| && net[p - 1].Up? && x in Data(f, net[p - 1], p)
    && forall q: nat :: p < q <= last ==> !ServesId(f, net, q, x.id)
  }

  /** No request from `page` on served this id. */
  ghost predicate NeverServed(f: Filter, net: seq<Snapshot>, page: nat, last: nat, id: int) {
    forall q: nat :: page <= q <= last ==> !ServesId(f, net, q, id)
  }

  lemma DataKeyed(f: Filter, snap: Snapshot, page: nat)
    requires snap.Up? && page >= 1 && Keyed(snap.paged)
    ensures Keyed(Data(f, snap, page))
  {
    OrderedKeyed(View(f, snap.paged), f, snap.paged);
    hide View;
  }

  /** The version that the last of the requests from `page` on to serve its id served, or an earlier one. */
  ghost predicate LatestFrom(f: Filter, net: seq<Snapshot>, page: nat, last: nat, seen: seq<Row>, x: Row) {
    || (exists p: nat :: page <= p && ServedLast(f, net, last, p, x))
    || (x in seen && NeverServed(f, net, page, last, x.id))
  }

  lemma LatestStep(f: Filter, net: seq<Snapshot>, page: nat, last: nat, seen: seq<Row>, x: Row)
    requires 1 <= page <= last <= |net| && net[page - 1].Up? && Keyed(seen) && Keyed(Data(f, net[page - 1], page))
    requires var more := Merge(seen, Data(f, net[page - 1], page));
      LatestFrom(f, net, page + 1, last, more, x)
    ensures LatestFrom(f, net, page, last, seen, x)
  {
    hide Data, Keyed, Has, Merge;
    var data := Data(f, net[page - 1], page);
    if p: nat :| page + 1 <= p && ServedLast(f, net, last, p, x) {
      assert page <= p;
    } else {
      MergeLatest(seen, data, x);
      if x in data {
        assert ServedLast(f, net, last, page, x);
      } else {
        assert !ServesId(f, net, page, x.id);
        assert NeverServed(f, net, page, last, x.id);
      }
    }
  }

  lemma {:induction false} WalkLatestFrom(f: Filter, net: seq<Snapshot>, page: nat, seen: seq<Row>, x: Row)
    requires |net| == ALL_MAX_PAGES && 1 <= page <= ALL_MAX_PAGES && Keyed(seen)
    requires forall p :: 0 <= p < |net| && net[p].Up? ==> Keyed(net[p].paged)
    requires Walk(f, net, page, seen).Some? && x in Walk(f, net, page, seen).value
    ensures LatestFrom(f, net, page, LastRequest(f, net, page), seen, x)
    decreases ALL_MAX_PAGES - page
  {
    var snap, last := net[page - 1], LastRequest(f, net, page);
    var data := Data(f, snap, page);
    var more := Merge(seen, data);
    DataKeyed(f, snap, page);
    MergeKeeps(seen, data);
    hide Data, Keyed, Has, Merge, Total, ServedLast;
    if data == [] || page >= Total(f, snap) || page >= ALL_MAX_PAGES {
      assert NeverServed(f, net, page + 1, last, x.id);
    } else {
      hide LatestFrom;
      WalkLatestFrom(f, net, page + 1, more, x);
    }
    LatestStep(f, net, page, last, seen, x);
  }

  /** Every row of a finished walk is the version that the last request serving its id served. */
  lemma WalkLatest(f: Filter, net: seq<Snapshot>, x: Row)
    requires |net| == ALL_MAX_PAGES && forall p :: 0 <= p < |net| && net[p].Up? ==> Keyed(net[p].paged)
    requires Walk(f, net, 1, []).Some? && x in Walk(f, net, 1, []).value
    ensures exists p: nat :: ServedLast(f, net, LastRequest(f, net, 1), p, x)
  {
    hide Walk, LastRequest, ServedLast, NeverServed;
    WalkLatestFrom(f, net, 1, [], x);
  }

  /** Everything the requests from `page` on serve, in order. */
  function Served(f: Filter, net: seq<Snapshot>, page: nat): seq<Row>
    requires |net| == ALL_MAX_PAGES && 1 <= page <= ALL_MAX_PAGES
    decreases ALL_MAX_PAGES - page
  {
    var snap := net[page - 1];
    if snap.Down? then []
    else
      var data := Data(f, snap, page);
      if data == [] || page >= Total(f, snap) || page >= ALL_MAX_PAGES then data
      else data + Served(f, net, page + 1)
  }

  lemma {:induction false} MergeJoins(seen: seq<Row>, a: seq<Row>, b: seq<Row>)
    ensures Merge(Merge(seen, a), b) == Merge(seen, a + b)
  {
    if b == [] {
      assert a + b == a;
    } else {
      var init, row := b[..|b| - 1], b[|b| - 1];
      MergeJoins(seen, a, init);
      assert a + b == (a + init) + [row];
      MergeOne(seen, a + init, row);
    }
  }

  lemma {:induction false} WalkMergesServed(f: Filter, net: seq<Snapshot>, page: nat, seen: seq<Row>)
    requires |net| == ALL_MAX_PAGES && 1 <= page <= ALL_MAX_PAGES && Walk(f, net, page, seen).Some?
    ensures Walk(f, net, page, seen) == Some(Merge(seen, Served(f, net, page)))
    decreases ALL_MAX_PAGES - page
  {
    hide Data, Total, Merge;
    var snap := net[page - 1];
    var data := Data(f, snap, page);
    if !(data == [] || page >= Total(f, snap) || page >= ALL_MAX_PAGES) {
      WalkMergesServed(f, net, page + 1, Merge(seen, data));
      MergeJoins(seen, data, Served(f, net, page + 1));
    }
  }

  /** Where an id is first served. */
  ghost function FirstPlace(s: seq<Row>, id: int): (i: nat)
    requires Has(s, id)
    ensures i < |s| && s[i].id == id && forall j :: 0 <= j < i ==> s[j].id != id
  {
    if s[0].id == id then 0
    else
      HasCons(s);
      var i := FirstPlace(s[1..], id);
      assert forall j :: 1 <= j < i + 1 ==> s[j] == s[1..][j - 1];
      i + 1
  }

  /** The rows of a Map stand in the order in which their ids were first set. */
  ghost predicate InFirstOrder(r: seq<Row>, served: seq<Row>) {
    && (forall i :: 0 <= i < |r| ==> Has(served, r[i].id))
    && (forall i, j :: 0 <= i < j < |r| ==> FirstPlace(served, r[i].id) < FirstPlace(served, r[j].id))
  }

  lemma FirstPlaceStays(s: seq<Row>, row: Row, id: int)
    requires Has(s, id)
    ensures Has(s + [row], id) && FirstPlace(s + [row], id) == FirstPlace(s, id)
  {
    HasSnoc(s, row, id);
    var i, k := FirstPlace(s, id), FirstPlace(s + [row], id);
    assert (s + [row])[i] == s[i];
    assert forall j :: 0 <= j < i ==> (s + [row])[j] == s[j];
  }

  lemma FirstPlaceNew(s: seq<Row>, row: Row)
    requires !Has(s, row.id)
    ensures Has(s + [row], row.id) && FirstPlace(s + [row], row.id) == |s|
  {
    HasSnoc(s, row, row.id);
    var k := FirstPlace(s + [row], row.id);
    assert forall j :: 0 <= j < |s| ==> (s + [row])[j] == s[j];
  }

  /** Setting a known key keeps every key's place. */
  lemma {:induction false} UpsertPlaces(seen: seq<Row>, row: Row)
    requires Has(seen, row.id)
    ensures |Upsert(seen, row)| == |seen| && forall i :: 0 <= i < |seen| ==> Upsert(seen, row)[i].id == seen[i].id
  {
    HasCons(seen);
    if seen[0].id != row.id {
      UpsertPlaces(seen[1..], row);
    }
  }

  lemma {:induction false} MergeOrder(served: seq<Row>)
    ensures InFirstOrder(Merge([], served), served)
  {
    if served != [] {
      var init, row := served[..|served| - 1], served[|served| - 1];
      assert served == init + [row];
      MergeOrder(init);
      MergeKeeps([], init);
      var before := Merge([], init);
      OrderSnoc(before, init, row);
    }
  }

  lemma OrderSnoc(r: seq<Row>, served: seq<Row>, row: Row)
    requires InFirstOrder(r, served) && (forall id :: Has(r, id) <==> Has(served, id))
    ensures InFirstOrder(Upsert(r, row), served + [row])
  {
    hide FirstPlace;
    forall i | 0 <= i < |r|
      ensures Has(served + [row], r[i].id) && FirstPlace(served + [row], r[i].id) == FirstPlace(served, r[i].id)
    {
      FirstPlaceStays(served, row, r[i].id);
    }
    if Has(r, row.id) {
      UpsertPlaces(r, row);
    } else {
      UpsertNew(r, row);
      FirstPlaceNew(served, row);
      forall i | 0 <= i < |r| ensures FirstPlace(served, r[i].id) < |served| {
        FirstPlaceIn(served, r[i].id);
      }
    }
  }

  lemma FirstPlaceIn(s: seq<Row>, id: int)
    requires Has(s, id)
    ensures FirstPlace(s, id) < |s|
  {
  }

  /** The rows of a finished walk stand in the order in which their ids were first served. */
  lemma WalkOrder(f: Filter, net: seq<Snapshot>)
    requires |net| == ALL_MAX_PAGES && Walk(f, net, 1, []).Some?
    ensures InFirstOrder(Walk(f, net, 1, []).value, Served(f, net, 1))
  {
    hide Walk, Served, InFirstOrder;
    WalkMergesServed(f, net, 1, []);
    MergeOrder(Served(f, net, 1));
  }

  // ----- a table at rest -----

  ghost predicate Still(net: seq<Snapshot>, t: Table) {
    forall p :: 0 <= p < |net| ==> net[p] == Up(t, t)
  }

  lemma OrderedKeyed(v: seq<Row>, f: Filter, t: Table)
    requires Keyed(t) && v == View(f, t)
    ensures Keyed(v)
  {
    ViewMeans(f, t);
    hide View, Matches;
    forall i, j | 0 <= i < j < |v| ensures v[i].id != v[j].id {
      assert Before(v[i], v[j]);
      assert v[i] in t && v[j] in t;
      var a :| 0 <= a < |t| && t[a] == v[i];
      var b :| 0 <= b < |t| && t[b] == v[j];
      assert a != b;
    }
  }

  /** One request of a table at rest extends the part of the listing already seen. */
  lemma StillPage(v: seq<Row>, page: nat, upto: nat)
    requires Keyed(v) && page >= 1 && (page - 1) * ALL_PAGE_SIZE <= |v|
    requires upto == if page * ALL_PAGE_SIZE <= |v| then page * ALL_PAGE_SIZE else |v|
    ensures Merge(v[..(page - 1) * ALL_PAGE_SIZE], Slice(v, (page - 1) * ALL_PAGE_SIZE, ALL_PAGE_SIZE)) == v[..upto]
  {
    var from := (page - 1) * ALL_PAGE_SIZE;
    assert Slice(v, from, ALL_PAGE_SIZE) == v[from..upto];
    assert v[..from] + v[from..upto] == v[..upto];
    MergeFresh(v[..from], v[from..upto]);
  }

  /** What a walk can carry home: the first 10,000 rows. */
  function Capped(v: seq<Row>): seq<Row> {
    if |v| <= ALL_PAGE_SIZE * ALL_MAX_PAGES then v else v[..ALL_PAGE_SIZE * ALL_MAX_PAGES]
  }

  lemma {:induction false} WalkStill(f: Filter, net: seq<Snapshot>, t: Table, v: seq<Row>, page: nat)
    requires |net| == ALL_MAX_PAGES && 1 <= page <= ALL_MAX_PAGES
    requires Still(net, t) && v == View(f, t) && |v| == |Where(f, t)| && Keyed(v)
    requires page > 1 ==> (page - 1) * ALL_PAGE_SIZE < |v|
    ensures Walk(f, net, page, v[..(page - 1) * ALL_PAGE_SIZE]) == Some(Capped(v))
    decreases ALL_MAX_PAGES - page
  {
    var snap := net[page - 1];
    assert snap == Up(t, t);
    hide View, Where, Keyed, Still, Merge;
    var upto := if page * ALL_PAGE_SIZE <= |v| then page * ALL_PAGE_SIZE else |v|;
    StillPage(v, page, upto);
    assert Data(f, snap, page) == Slice(v, (page - 1) * ALL_PAGE_SIZE, ALL_PAGE_SIZE);
    assert Total(f, snap) == Pages(|v|, ALL_PAGE_SIZE);
    if upto == |v| {
      assert v[..upto] == v;
      StillLast(v, page);
    } else if page < ALL_MAX_PAGES {
      StillMore(v, page);
      WalkStill(f, net, t, v, page + 1);
    }
  }

  lemma StillLast(v: seq<Row>, page: nat)
    requires page >= 1 && |v| <= page * ALL_PAGE_SIZE
    ensures page >= Pages(|v|, ALL_PAGE_SIZE)
  {
  }

  lemma StillMore(v: seq<Row>, page: nat)
    requires page >= 1 && |v| > page * ALL_PAGE_SIZE
    ensures page < Pages(|v|, ALL_PAGE_SIZE) && Slice(v, (page - 1) * ALL_PAGE_SIZE, ALL_PAGE_SIZE) != []
  {
  }

  /** With nothing changing the walk returns the filtered table in server order, exactly up to 10,000 rows. */
  lemma WalkExact(f: Filter, net: seq<Snapshot>, t: Table)
    requires |net| == ALL_MAX_PAGES && Keyed(t) && Still(net, t)
    ensures Walk(f, net, 1, []) == Some(Capped(View(f, t)))
    ensures Walk(f, net, 1, []) == Some(View(f, t)) <==> |View(f, t)| <= 10_000
  {
    ViewMeans(f, t);
    OrderedKeyed(View(f, t), f, t);
    WalkStill(f, net, t, View(f, t), 1);
    assert View(f, t)[..0] == [];
  }

  // ----- an insert between COUNT(*) and the page query -----

  /** Every request sees t, except that a newer row arrives between the two queries of request `last`. */
  ghost predicate LateInsert(net: seq<Snapshot>, t: Table, x: Row, last: nat) {
    && 1 <= last <= |net|
    && net[last - 1] == Up(t, [x] + t)
    && forall p :: 0 <= p < last - 1 ==> net[p] == Up(t, t)
  }

  lemma NewestFirst(f: Filter, t: Table, x: Row)
    requires Matches(f, x) && forall i :: 0 <= i < |View(f, t)| ==> Before(x, View(f, t)[i])
    ensures View(f, [x] + t) == [x] + View(f, t)
  {
    assert ([x] + t)[1..] == t;
    assert ([x] + Where(f, t))[1..] == Where(f, t);
  }

  lemma {:induction false} WalkUpTo(f: Filter, net: seq<Snapshot>, t: Table, v: seq<Row>, x: Row, last: nat, page: nat)
    requires |net| == ALL_MAX_PAGES && 1 <= page <= last && LateInsert(net, t, x, last)
    requires v == View(f, t) && |v| == |Where(f, t)| && Keyed(v)
    requires 0 < |v| && last == Pages(|v|, ALL_PAGE_SIZE) && View(f, [x] + t) == [x] + v
    ensures Walk(f, net, page, v[..(page - 1) * ALL_PAGE_SIZE])
         == Some(Merge(v[..(last - 1) * ALL_PAGE_SIZE], Slice([x] + v, (last - 1) * ALL_PAGE_SIZE, ALL_PAGE_SIZE)))
    decreases last - page
  {
    hide View, Where, Keyed, Merge, Slice, Pages, LateInsert;
    LateSnap(net, t, x, last, page);
    var snap := net[page - 1];
    assert Total(f, snap) == Pages(|v|, ALL_PAGE_SIZE);
    if page < last {
      MorePages(|v|, page);
      StillPage(v, page, page * ALL_PAGE_SIZE);
      StillMore(v, page);
      assert Data(f, snap, page) == Slice(v, (page - 1) * ALL_PAGE_SIZE, ALL_PAGE_SIZE);
      WalkUpTo(f, net, t, v, x, last, page + 1);
    } else {
      assert Data(f, snap, page) == Slice([x] + v, (page - 1) * ALL_PAGE_SIZE, ALL_PAGE_SIZE);
    }
  }

  lemma LateSnap(net: seq<Snapshot>, t: Table, x: Row, last: nat, page: nat)
    requires LateInsert(net, t, x, last) && 1 <= page <= last
    ensures last <= |net| && net[page - 1] == if page < last then Up(t, t) else Up(t, [x] + t)
  {
  }

  lemma MorePages(total: nat, page: nat)
    requires page < Pages(total, ALL_PAGE_SIZE) && page >= 1
    ensures total > page * ALL_PAGE_SIZE
  {
  }

  /**
   The oldest row is lost exactly when the listing fills its last page: the new row
   pushes it onto a page the count did not announce.
   */
  lemma LateInsertLosesIff(f: Filter, net: seq<Snapshot>, t: Table, x: Row, last: nat)
    requires |net| == ALL_MAX_PAGES && Keyed([x] + t) && LateInsert(net, t, x, last)
    requires Matches(f, x) && forall i :: 0 <= i < |View(f, t)| ==> Before(x, View(f, t)[i])
    requires 0 < |View(f, t)| && last == Pages(|View(f, t)|, ALL_PAGE_SIZE)
    ensures var r := Walk(f, net, 1, []);
      r.Some? && (Has(r.value, View(f, t)[|View(f, t)| - 1].id) <==> |View(f, t)| % ALL_PAGE_SIZE != 0)
  {
    var v := View(f, t);
    LateFacts(f, t, x);
    NewestFirst(f, t, x);
    hide View, Where, Matches, Before, Keyed;
    WalkUpTo(f, net, t, v, x, last, 1);
    assert v[..0] == [];
    hide Walk, LateInsert;
    LateMerge(v, x, last);
  }

  lemma LateFacts(f: Filter, t: Table, x: Row)
    requires Keyed([x] + t)
    ensures var v := View(f, t);
      Keyed(v) && |v| == |Where(f, t)| && forall i :: 0 <= i < |v| ==> v[i].id != x.id
  {
    assert forall i :: 0 <= i < |t| ==> ([x] + t)[i + 1] == t[i];
    ViewMeans(f, t);
    OrderedKeyed(View(f, t), f, t);
    assert ([x] + t)[0] == x;
    assert forall i :: 0 <= i < |t| ==> t[i].id != x.id;
    hide View, Where, Matches, Keyed;
    var v := View(f, t);
    forall i | 0 <= i < |v| ensures v[i].id != x.id {
      assert v[i] in t;
    }
  }

  lemma LateMerge(v: seq<Row>, x: Row, last: nat)
    requires Keyed(v) && 0 < |v| && v[|v| - 1].id != x.id && last == Pages(|v|, ALL_PAGE_SIZE)
    ensures Has(Merge(v[..(last - 1) * ALL_PAGE_SIZE], Slice([x] + v, (last - 1) * ALL_PAGE_SIZE, ALL_PAGE_SIZE)),
        v[|v| - 1].id)
       <==> |v| % ALL_PAGE_SIZE != 0
  {
    var from := (last - 1) * ALL_PAGE_SIZE;
    var seen, data := v[..from], Slice([x] + v, from, ALL_PAGE_SIZE);
    MergeKeeps(seen, data);
    LastOnPage(v, x, from, data);
    hide Merge, Slice;
    assert !Has(seen, v[|v| - 1].id);
  }

  lemma LastOnPage(v: seq<Row>, x: Row, from: nat, data: seq<Row>)
    requires Keyed(v) && 0 < |v| && x.id != v[|v| - 1].id
    requires from < |v| <= from + ALL_PAGE_SIZE && data == Slice([x] + v, from, ALL_PAGE_SIZE)
    ensures Has(data, v[|v| - 1].id) <==> |v| < from + ALL_PAGE_SIZE
  {
    var id := v[|v| - 1].id;
    if |v| < from + ALL_PAGE_SIZE {
      assert data[|data| - 1] == v[|v| - 1];
    } else {
      assert data == ([x] + v)[from..|v|];
      forall i | 0 <= i < |data| ensures data[i].id != id {
        assert data[i] == ([x] + v)[from + i];
      }
    }
  }

  lemma {:induction false} WhereAll(t: Table)
    ensures Where(Filter("", ""), t) == t
  {
    if t != [] {
      WhereAll(t[1..]);
    }
  }

  /** n rows, each newer than the one before. */
  function Ladder(n: nat): (t: Table)
    ensures |t| == n && forall i :: 0 <= i < n ==> t[i] == Row(i, i, "", "", 0)
  {
    seq(n, i => Row(i, i, "", "", 0))
  }

  /** A hundred invoices, a hundred-and-first between the two queries of the only request: one of the hundred is
      missing. */
  lemma {:induction false} LateInsertLosesRow(net: seq<Snapshot>)
    requires |net| == ALL_MAX_PAGES && net[0] == Up(Ladder(100), [Row(100, 100, "", "", 0)] + Ladder(100))
    ensures var r := Walk(Filter("", ""), net, 1, []);
      r.Some? && exists row :: row in Ladder(100) && !Has(r.value, row.id)
  {
    var f, t, x := Filter("", ""), Ladder(100), Row(100, 100, "", "", 0);
    LadderFacts(f, t, x);
    hide View, Where, Walk, Ladder, Keyed, Before;
    LateInsertLosesIff(f, net, t, x, 1);
  }

  lemma LadderKeyed(t: Table, x: Row)
    requires t == Ladder(100) && x == Row(100, 100, "", "", 0)
    ensures Keyed(t) && Keyed([x] + t) && forall row :: row in t ==> Before(x, row)
  {
  }

  lemma LadderFacts(f: Filter, t: Table, x: Row)
    requires f == Filter("", "") && t == Ladder(100) && x == Row(100, 100, "", "", 0)
    ensures Keyed([x] + t) && Matches(f, x) && |View(f, t)| == 100 && View(f, t)[99] in t
    ensures forall i :: 0 <= i < |View(f, t)| ==> Before(x, View(f, t)[i])
  {
    hide Keyed, Before, View, Where, Ordered;
    LadderKeyed(t, x);
    WhereAll(t);
    ViewMeans(f, t);
    var v := View(f, t);
    forall i | 0 <= i < |v| ensures Before(x, v[i]) {
      assert v[i] in t;
    }
    assert v[99] in t;
  }
}
