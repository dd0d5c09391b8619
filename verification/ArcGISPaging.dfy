/** The ArcGIS paging client, internal/ingest/arcgis.go, against servers that honour or ignore the
    requested offset and record count and that send or omit the transfer-limit flag. */
module ArcGISPaging {

  datatype Option<+T> = None | Some(value: T)
  datatype Result<+T> = Ok(value: T) | Err

  /** A layer row: its object id if the layer sends one, and whether it has geometry. */
  datatype Row = Row(oid: Option<int>, shaped: bool, attributes: string)

  /** A row as fetched, under the id the client gives it. */
  datatype Fetched = Fetched(id: int, row: Row)

  // ----------------------------------------------------------------- servers

  /** A truthful server over a fixed, ordered layer. Its responses hold at most maxRecordCount rows,
      and at most the requested count when it applies that too; a flag, on the pages that carry one,
      tells whether rows remain; the layer document, if it can be read, states maxRecordCount. */
  datatype Server = Server(rows: seq<Row>, maxRecordCount: nat, honoursOffset: bool, honoursCount: bool,
                           flagged: nat -> bool, described: bool)
  {
    function Cap(requested: nat): nat {
      if honoursCount && requested < maxRecordCount then requested else maxRecordCount
    }

    /** The rows a request could return: those from the offset on, or all of them. */
    function Available(offset: nat): seq<Row> {
      if !honoursOffset then rows else if offset <= |rows| then rows[offset..] else []
    }

    function Serve(offset: nat, page: nat, requested: nat): Page {
      var all := Available(offset);
      var n := if |all| <= Cap(requested) then |all| else Cap(requested);
      Page(all[..n], if flagged(page) then Some(|all| > n) else None)
    }

    function LayerMaxRecordCount(): Option<nat> {
      if described && maxRecordCount > 0 then Some(maxRecordCount) else None
    }
  }

  datatype Page = Page(rows: seq<Row>, exceeded: Option<bool>)

  // ----------------------------------------------------------------- pages

  /** rowsFromArcGISPage: rows with geometry, under their object id or their position. */
  function Kept(rows: seq<Row>, base: nat): seq<Fetched> {
    if rows == [] then []
    else
      var n := |rows| - 1;
      Kept(rows[..n], base) + if rows[n].shaped then [Fetched(IdAt(rows[n], base + n), rows[n])] else []
  }

  function IdAt(row: Row, position: nat): int {
    if row.oid.Some? then row.oid.value else position
  }

  datatype Outcome = Continue | Done | RepeatedRows | Truncated

  /** classifyArcGISPage. */
  function ClassifyArcGISPage(rawCount: nat, parsed: nat, newUnique: int, exceeded: Option<bool>): Outcome {
    if rawCount == 0 then Done
    else if exceeded == Some(false) then Done
    else if parsed > 0 && newUnique == 0 then
      if exceeded == Some(true) then Truncated else RepeatedRows
    else Continue
  }

  /** repeatedPageOutcome, with the count the client requests per page. */
  function RepeatedPageOutcome(rawCount: nat, maxRecordCount: Option<nat>, requested: nat): Outcome {
    if maxRecordCount.None? || maxRecordCount.value == 0 then Truncated
    else if rawCount > requested then
      if rawCount >= maxRecordCount.value then Truncated else RepeatedRows
    else if rawCount >= maxRecordCount.value || rawCount >= requested then Truncated
    else RepeatedRows
  }

  /** A repeated page is taken for the whole layer only when it is: a response that any cap could have
      cut is never accepted. */
  lemma RepeatedMeansWhole(s: Server, offset: nat, page: nat, requested: nat)
    requires !s.honoursOffset
    requires RepeatedPageOutcome(|s.Serve(offset, page, requested).rows|, s.LayerMaxRecordCount(), requested) ==
             RepeatedRows
    ensures s.Serve(offset, page, requested).rows == s.rows
  {
    assert s.rows[..|s.rows|] == s.rows;
  }

  // ---------------------------------------------------------------- deduping

  function Ids(rows: seq<Fetched>): set<int> {
    set i | 0 <= i < |rows| :: rows[i].id
  }

  ghost predicate DistinctIds(rows: seq<Fetched>) {
    forall i, j :: 0 <= i < j < |rows| ==> rows[i].id != rows[j].id
  }

  /** dst followed by the rows of src whose id is new. */
  function Unique(dst: seq<Fetched>, src: seq<Fetched>): seq<Fetched> {
    if src == [] then dst
    else
      var before, last := Unique(dst, src[..|src| - 1]), src[|src| - 1];
      if last.id in Ids(before) then before else before + [last]
  }

  /** appendUniqueRows, over the ids seen on every page so far. */
  method AppendUniqueRows(dst: seq<Fetched>, seen: set<int>, src: seq<Fetched>)
    returns (all: seq<Fetched>, known: set<int>)
    requires seen == Ids(dst)
    ensures all == Unique(dst, src) && known == Ids(all)
  {
    all, known := dst, seen;
    for i := 0 to |src|
      invariant all == Unique(dst, src[..i]) && known == Ids(all)
    {
      assert src[..i + 1][..i] == src[..i];
      if src[i].id !in known {
        IdsMore(all, src[i]);
        all, known := all + [src[i]], known + {src[i].id};
      }
    }
    assert src[..|src|] == src;
  }

  lemma IdsMore(rows: seq<Fetched>, row: Fetched)
    ensures Ids(rows + [row]) == Ids(rows) + {row.id}
  {
    var all := rows + [row];
    assert all[|rows|] == row;
    assert forall i :: 0 <= i < |rows| ==> all[i] == rows[i];
  }

  lemma {:induction false} UniqueOfNew(dst: seq<Fetched>, src: seq<Fetched>)
    requires DistinctIds(dst + src)
    ensures Unique(dst, src) == dst + src
  {
    if src != [] {
      var n := |src| - 1;
      var front := dst + src[..n];
      assert front == (dst + src)[..|dst| + n];
      UniqueOfNew(dst, src[..n]);
      assert (dst + src)[|dst| + n] == src[n];
      assert forall i :: 0 <= i < |front| ==> front[i] == (dst + src)[i];
      assert front + [src[n]] == dst + src;
    } else {
      assert dst + src == dst;
    }
  }

  lemma {:induction false} UniqueOfSeen(dst: seq<Fetched>, src: seq<Fetched>)
    requires forall i :: 0 <= i < |src| ==> src[i].id in Ids(dst)
    ensures Unique(dst, src) == dst
  {
    if src != [] {
      UniqueOfSeen(dst, src[..|src| - 1]);
    }
  }

  lemma {:induction false} UniqueIsDistinct(dst: seq<Fetched>, src: seq<Fetched>)
    requires DistinctIds(dst)
    ensures DistinctIds(Unique(dst, src)) && |Unique(dst, src)| >= |dst|
  {
    if src != [] {
      UniqueIsDistinct(dst, src[..|src| - 1]);
    }
  }

  // -------------------------------------------------------------- row pages

  /** rowsFromArcGISPage's loop. */
  method RowsFromPage(served: seq<Row>, base: nat) returns (rows: seq<Fetched>)
    ensures rows == Kept(served, base)
  {
    rows := [];
    for i := 0 to |served|
      invariant rows == Kept(served[..i], base)
    {
      assert served[..i + 1][..i] == served[..i];
      if served[i].shaped {
        rows := rows + [Fetched(IdAt(served[i], base + i), served[i])];
      }
    }
    assert served[..|served|] == served;
  }

  lemma {:induction false} KeptJoin(a: seq<Row>, b: seq<Row>, base: nat)
    ensures Kept(a + b, base) == Kept(a, base) + Kept(b, base + |a|)
  {
    if b == [] {
      assert a + b == a;
    } else {
      var n := |b| - 1;
      assert (a + b)[..|a| + n] == a + b[..n];
      KeptJoin(a, b[..n], base);
    }
  }

  /** Row i of a page as kept from an offset. */
  function KeptAt(rows: seq<Row>, base: nat, i: nat): Fetched
    requires i < |rows|
  {
    Fetched(IdAt(rows[i], base + i), rows[i])
  }

  /** What is kept of a page are its rows with geometry, as many at any offset. */
  lemma {:induction false} KeptMembers(rows: seq<Row>, base: nat)
    ensures forall x :: x in Kept(rows, base) ==>
            exists i: nat :: i < |rows| && rows[i].shaped && x == KeptAt(rows, base, i)
    ensures forall i: nat :: i < |rows| && rows[i].shaped ==> KeptAt(rows, base, i) in Kept(rows, base)
    ensures |Kept(rows, base)| == |Kept(rows, 0)|
  {
    if rows != [] {
      var n := |rows| - 1;
      var front := rows[..n];
      KeptMembers(front, base);
      forall x | x in Kept(rows, base)
        ensures exists i: nat :: i < |rows| && rows[i].shaped && x == KeptAt(rows, base, i)
      {
        if x in Kept(front, base) {
          var i: nat :| i < |front| && front[i].shaped && x == KeptAt(front, base, i);
          assert x == KeptAt(rows, base, i);
        } else {
          assert x == KeptAt(rows, base, n);
        }
      }
      forall i: nat | i < |rows| && rows[i].shaped
        ensures KeptAt(rows, base, i) in Kept(rows, base)
      {
        if i < n {
          assert KeptAt(front, base, i) in Kept(front, base);
        }
      }
    }
  }

  /** Positions are distinct, and lie within the page. */
  lemma {:induction false} KeptAnonymous(rows: seq<Row>, base: nat)
    requires forall i :: 0 <= i < |rows| ==> rows[i].oid.None?
    ensures DistinctIds(Kept(rows, base)) && |Kept(rows, base)| == |Kept(rows, 0)|
    ensures forall i :: 0 <= i < |Kept(rows, base)| ==> base <= Kept(rows, base)[i].id < base + |rows|
  {
    if rows != [] {
      KeptAnonymous(rows[..|rows| - 1], base);
    }
  }

  ghost predicate Rising(at: seq<nat>, n: nat) {
    (forall k :: 0 <= k < |at| ==> at[k] < n) && forall j, k :: 0 <= j < k < |at| ==> at[j] < at[k]
  }

  /** A row with geometry, under its object id if it has one and else its place in the layer. */
  predicate FetchedFrom(rows: seq<Row>, base: nat, i: nat, x: Fetched) {
    i < |rows| && rows[i].shaped &&
    x == Fetched(if rows[i].oid.Some? then rows[i].oid.value else base + i, rows[i])
  }

  /** The rows with geometry, at these positions, in order and no others. */
  ghost predicate ShapedRows(rows: seq<Row>, base: nat, kept: seq<Fetched>, at: seq<nat>) {
    && |at| == |kept| && Rising(at, |rows|)
    && (forall i: nat :: i < |rows| && rows[i].shaped ==> i in at)
    && (forall k :: 0 <= k < |at| ==> FetchedFrom(rows, base, at[k], kept[k]))
  }

  lemma ShapedMore(front: seq<Row>, row: Row, base: nat, kept: seq<Fetched>, at: seq<nat>)
    requires ShapedRows(front, base, kept, at)
    ensures var x := Fetched(IdAt(row, base + |front|), row);
            ShapedRows(front + [row], base, if row.shaped then kept + [x] else kept,
                       if row.shaped then at + [|front|] else at)
  {
    var rows, at' := front + [row], if row.shaped then at + [|front|] else at;
    var kept' := if row.shaped then kept + [Fetched(IdAt(row, base + |front|), row)] else kept;
    assert rows[|front|] == row;
    forall k | 0 <= k < |at'|
      ensures FetchedFrom(rows, base, at'[k], kept'[k])
    {
      if k < |at| {
        assert FetchedFrom(front, base, at[k], kept[k]);
        assert rows[at[k]] == front[at[k]];
      }
    }
    forall i: nat | i < |rows| && rows[i].shaped
      ensures i in at'
    {
      if i < |front| {
        assert i in at;
      } else {
        assert at'[|at|] == i;
      }
    }
  }

  /** What is kept of a page: its rows with geometry, each once, in order. */
  lemma {:induction false} KeptInFull(rows: seq<Row>, base: nat) returns (at: seq<nat>)
    ensures ShapedRows(rows, base, Kept(rows, base), at)
  {
    hide ShapedRows;
    if rows == [] {
      at := [];
      assert ShapedRows([], base, [], []) by { NoRowsShaped(base); }
    } else {
      var n := |rows| - 1;
      var front := KeptInFull(rows[..n], base);
      ShapedMore(rows[..n], rows[n], base, Kept(rows[..n], base), front);
      assert rows[..n] + [rows[n]] == rows;
      assert Kept(rows[..n], base) + [] == Kept(rows[..n], base);
      at := if rows[n].shaped then front + [n] else front;
    }
  }

  lemma NoRowsShaped(base: nat)
    ensures ShapedRows([], base, [], [])
  {
  }

  /** No row before it, of any page, has its id. */
  ghost predicate IsNew(dst: seq<Fetched>, src: seq<Fetched>, i: nat) {
    && i < |src|
    && (forall k :: 0 <= k < |dst| ==> dst[k].id != src[i].id) && (forall k :: 0 <= k < i ==> src[k].id != src[i].id)
  }

  /** dst, followed by the rows at these positions: those that are new, in order and no others. */
  ghost predicate NewRows(dst: seq<Fetched>, src: seq<Fetched>, all: seq<Fetched>, at: seq<nat>) {
    && |all| == |dst| + |at| && Rising(at, |src|)
    && (forall k :: 0 <= k < |dst| ==> all[k] == dst[k])
    && (forall i: nat :: IsNew(dst, src, i) ==> i in at)
    && (forall k :: 0 <= k < |at| ==> IsNew(dst, src, at[k]) && all[|dst| + k] == src[at[k]])
  }

  lemma NewBefore(dst: seq<Fetched>, front: seq<Fetched>, x: Fetched)
    ensures forall i: nat :: i < |front| ==> (IsNew(dst, front + [x], i) <==> IsNew(dst, front, i))
    ensures forall i: nat :: IsNew(dst, front + [x], i) ==> i <= |front|
  {
    var src := front + [x];
    assert forall k :: 0 <= k < |front| ==> src[k] == front[k];
  }

  /** A row that is not new changes nothing. */
  lemma NewSkips(dst: seq<Fetched>, front: seq<Fetched>, x: Fetched, all: seq<Fetched>, at: seq<nat>)
    requires NewRows(dst, front, all, at) && !IsNew(dst, front + [x], |front|)
    ensures NewRows(dst, front + [x], all, at)
  {
    NewBefore(dst, front, x);
    hide IsNew;
    var src := front + [x];
    forall i: nat | IsNew(dst, src, i)
      ensures i in at
    {
      assert IsNew(dst, front, i);
    }
    forall k | 0 <= k < |at|
      ensures IsNew(dst, src, at[k]) && all[|dst| + k] == src[at[k]]
    {
      assert IsNew(dst, front, at[k]);
    }
  }

  /** A new row goes last. */
  lemma NewAppends(dst: seq<Fetched>, front: seq<Fetched>, x: Fetched, all: seq<Fetched>, at: seq<nat>,
                   more: seq<Fetched>, to: seq<nat>)
    requires NewRows(dst, front, all, at) && IsNew(dst, front + [x], |front|)
    requires more == all + [x] && to == at + [|front|]
    ensures NewRows(dst, front + [x], more, to)
  {
    NewBefore(dst, front, x);
    hide IsNew;
    var src := front + [x];
    assert src[|front|] == x && to[|at|] == |front|;
    forall i: nat | IsNew(dst, src, i)
      ensures i in to
    {
      if i < |front| {
        assert IsNew(dst, front, i);
        InLonger(at, to, i);
      }
    }
    forall k | 0 <= k < |to|
      ensures IsNew(dst, src, to[k]) && more[|dst| + k] == src[to[k]]
    {
      if k < |at| {
        assert to[k] == at[k] && IsNew(dst, front, at[k]);
      }
    }
    StillRising(at, |front|, to);
  }

  lemma StillRising(at: seq<nat>, n: nat, to: seq<nat>)
    requires Rising(at, n) && to == at + [n]
    ensures Rising(to, n + 1)
  {
  }

  lemma InLonger(a: seq<nat>, b: seq<nat>, i: nat)
    requires i in a && |a| <= |b| && b[..|a|] == a
    ensures i in b
  {
    var k :| 0 <= k < |a| && a[k] == i;
    assert b[k] == b[..|a|][k];
  }

  /** What a page adds over all pages so far: in order, its rows whose id is new, the first of each id. */
  lemma {:induction false} UniqueInFull(dst: seq<Fetched>, src: seq<Fetched>) returns (at: seq<nat>)
    ensures NewRows(dst, src, Unique(dst, src), at)
  {
    hide NewRows, IsNew, Ids;
    if src == [] {
      at := [];
      NothingNew(dst);
    } else {
      var n := |src| - 1;
      var front := UniqueInFull(dst, src[..n]);
      assert src[..n] + [src[n]] == src;
      IdsSoFar(dst, src[..n]);
      NewIff(dst, src);
      if IsNew(dst, src, n) {
        at := front + [n];
        NewAppends(dst, src[..n], src[n], Unique(dst, src[..n]), front, Unique(dst, src), at);
      } else {
        at := front;
        NewSkips(dst, src[..n], src[n], Unique(dst, src), front);
      }
    }
  }

  lemma NothingNew(dst: seq<Fetched>)
    ensures NewRows(dst, [], dst, [])
  {
  }

  lemma {:induction false} IdsSoFar(dst: seq<Fetched>, src: seq<Fetched>)
    ensures Ids(Unique(dst, src)) == Ids(dst) + Ids(src)
  {
    hide Ids;
    if src != [] {
      var n := |src| - 1;
      IdsSoFar(dst, src[..n]);
      IdsMore(src[..n], src[n]);
      assert src[..n] + [src[n]] == src;
      IdsMore(Unique(dst, src[..n]), src[n]);
    } else {
      NoIds();
    }
  }

  lemma NoIds()
    ensures Ids([]) == {}
  {
  }

  lemma NewIff(dst: seq<Fetched>, src: seq<Fetched>)
    requires src != []
    ensures var n: nat := |src| - 1; IsNew(dst, src, n) <==> src[n].id !in Ids(dst) + Ids(src[..n])
  {
    var n := |src| - 1;
    var front := src[..n];
    assert forall k :: 0 <= k < n ==> front[k] == src[k];
  }

  // ----------------------------------------------------------------- layers

  /** What a complete fetch returns: every row with geometry, once, in order. */
  function Wanted(s: Server): seq<Fetched> {
    Kept(s.rows, 0)
  }

  /** Every row with geometry carries an object id of its own. */
  ghost predicate Identified(s: Server) {
    (forall i :: 0 <= i < |s.rows| && s.rows[i].shaped ==> s.rows[i].oid.Some?) && DistinctIds(Wanted(s))
  }

  /** No row carries an object id. */
  ghost predicate Anonymous(s: Server) {
    forall i :: 0 <= i < |s.rows| ==> s.rows[i].oid.None?
  }

  /** Where every row is served again from the offset after the last, each position it gives a row
      without an object id is already the id of some row. */
  ghost predicate Recurs(s: Server) {
    forall i :: 0 <= i < |s.rows| && s.rows[i].shaped && s.rows[i].oid.None? ==> |s.rows| + i in Ids(Wanted(s))
  }

  /** The whole layer under distinct ids, all of them met again when it is served twice. */
  ghost predicate Settled(s: Server) {
    DistinctIds(Wanted(s)) && Recurs(s)
  }

  /** The only response of a server that ignores offsets. */
  function Response(s: Server, requested: nat): seq<Row> {
    if |s.rows| <= s.Cap(requested) then s.rows else s.rows[..s.Cap(requested)]
  }

  lemma ServedWhenIgnoring(s: Server, offset: nat, page: nat, requested: nat)
    requires !s.honoursOffset
    ensures s.Serve(offset, page, requested).rows == Response(s, requested)
    ensures s.Serve(offset, page, requested).exceeded ==
            if s.flagged(page) then Some(|s.rows| > s.Cap(requested)) else None
  {
    assert s.rows[..|s.rows|] == s.rows;
  }

  // ------------------------------------------------- servers that honour offsets

  ghost predicate Honoured(s: Server, requested: nat, page: nat, offset: nat, all: seq<Fetched>) {
    && s.honoursOffset && DistinctIds(Wanted(s))
    && offset <= |s.rows| && all == Kept(s.rows[..offset], 0)
    && offset == Least(page * s.Cap(requested), |s.rows|)
    && (page > 0 ==> (page - 1) * s.Cap(requested) < |s.rows|)
    && (page > 0 && offset == |s.rows| ==> !s.flagged(page - 1))
  }

  function Least(a: int, b: int): int {
    if a <= b then a else b
  }

  lemma DistinctPrefix(all: seq<Fetched>, front: seq<Fetched>, back: seq<Fetched>)
    requires all == front + back && DistinctIds(all)
    ensures DistinctIds(front)
  {
    assert forall i :: 0 <= i < |front| ==> front[i] == all[i];
  }

  lemma HonouredStep(s: Server, requested: nat, page: nat, offset: nat, all: seq<Fetched>)
    requires Honoured(s, requested, page, offset, all) && s.Cap(requested) > 0
    ensures var served := s.Serve(offset, page, requested);
            var rows := Kept(served.rows, offset);
            && Unique(all, rows) == all + rows == Kept(s.rows[..offset + |served.rows|], 0)
            && |served.rows| == Least(s.Cap(requested), |s.rows| - offset)
            && (served.rows != [] && served.exceeded != Some(false) ==>
                Honoured(s, requested, page + 1, offset + |served.rows|, all + rows))
            && (served.rows == [] || served.exceeded == Some(false) ==> all + rows == Wanted(s))
  {
    hide DistinctIds, Unique, Kept;
    var served := s.Serve(offset, page, requested);
    var n := offset + |served.rows|;
    assert s.rows[..n] == s.rows[..offset] + served.rows;
    KeptJoin(s.rows[..offset], served.rows, 0);
    assert s.rows == s.rows[..n] + s.rows[n..];
    KeptJoin(s.rows[..n], s.rows[n..], 0);
    DistinctPrefix(Wanted(s), Kept(s.rows[..n], 0), Kept(s.rows[n..], n));
    UniqueOfNew(all, Kept(served.rows, offset));
    assert (page + 1) * s.Cap(requested) == page * s.Cap(requested) + s.Cap(requested);
    assert n == |s.rows| ==> s.rows[..n] == s.rows;
  }

  // ------------------------------------------------- servers that ignore offsets

  /** The result after one and after two pages of the same rows. */
  function AfterOne(s: Server, requested: nat): seq<Fetched> {
    Unique([], Kept(Response(s, requested), 0))
  }

  function AfterTwo(s: Server, requested: nat): seq<Fetched> {
    Unique(AfterOne(s, requested), Kept(Response(s, requested), |Response(s, requested)|))
  }

  /** The result after n pages of the same rows, each under the offset that the client has reached. */
  function AfterPages(s: Server, requested: nat, n: nat): seq<Fetched> {
    if n == 0 then []
    else Unique(AfterPages(s, requested, n - 1), Kept(Response(s, requested), (n - 1) * |Response(s, requested)|))
  }

  /** A page ends the fetch of a whole layer: it is flagged, or it has rows and adds none. */
  ghost predicate EndsAt(s: Server, requested: nat, page: nat) {
    s.flagged(page) || (Wanted(s) != [] && AfterPages(s, requested, page + 1) == AfterPages(s, requested, page))
  }

  ghost predicate Repeating(s: Server, requested: nat, page: nat, offset: nat, all: seq<Fetched>) {
    && !s.honoursOffset && offset == page * |Response(s, requested)| && all == AfterPages(s, requested, page)
    && (|s.rows| <= s.Cap(requested) ==> forall q: nat :: q < page ==> !EndsAt(s, requested, q))
    && (page == 0 ==> all == []) && (page == 1 ==> all == AfterOne(s, requested))
    && (page > 0 ==> s.rows != [] && (s.flagged(0) ==> |s.rows| > s.Cap(requested)))
    && (Kept(Response(s, requested), 0) == [] ==> all == [])
    && (page > 1 && Kept(Response(s, requested), 0) != [] ==>
          |all| >= |AfterTwo(s, requested)| > |AfterOne(s, requested)|)
  }

  /** The step that RepeatingStep and RepeatingEnds share: what one more page does to the result. */
  lemma NextPage(s: Server, requested: nat, page: nat)
    ensures AfterPages(s, requested, page + 1) ==
            Unique(AfterPages(s, requested, page), Kept(Response(s, requested), page * |Response(s, requested)|))
  {
  }

  lemma {:induction false} PagesDistinct(s: Server, requested: nat, n: nat)
    ensures DistinctIds(AfterPages(s, requested, n))
  {
    hide Kept, Unique;
    if n > 0 {
      PagesDistinct(s, requested, n - 1);
      UniqueIsDistinct(AfterPages(s, requested, n - 1),
                       Kept(Response(s, requested), (n - 1) * |Response(s, requested)|));
    }
  }

  lemma UniqueOfSome(src: seq<Fetched>)
    requires src != []
    ensures Unique([], src) != []
    decreases |src|
  {
    if |src| > 1 {
      UniqueOfSome(src[..|src| - 1]);
    }
  }

  lemma UniqueOfNone(dst: seq<Fetched>)
    ensures Unique(dst, []) == dst
  {
  }

  /** Nothing is added exactly when every id was there. */
  lemma {:induction false} UniqueAddsNothing(dst: seq<Fetched>, src: seq<Fetched>)
    requires DistinctIds(dst) && |Unique(dst, src)| == |dst|
    ensures AllIn(src, Ids(dst))
  {
    if src != [] {
      var n := |src| - 1;
      UniqueIsDistinct(dst, src[..n]);
      UniqueAddsNothing(dst, src[..n]);
      UniqueOfSeenAgain(dst, src[..n]);
      assert src == src[..n] + [src[n]];
    }
  }

  lemma UniqueOfSeenAgain(dst: seq<Fetched>, src: seq<Fetched>)
    requires AllIn(src, Ids(dst))
    ensures Unique(dst, src) == dst
  {
    forall i | 0 <= i < |src|
      ensures src[i].id in Ids(dst)
    {
      assert src[i] in src;
    }
    UniqueOfSeen(dst, src);
  }

  /** One more page of a server that ignores offsets, when the client goes on. */
  lemma RepeatingStep(s: Server, requested: nat, page: nat, offset: nat, all: seq<Fetched>)
    requires Repeating(s, requested, page, offset, all) && DistinctIds(all)
    requires var served := s.Serve(offset, page, requested);
             var rows := Kept(served.rows, offset);
             ClassifyArcGISPage(|served.rows|, |rows|, |Unique(all, rows)| - |all|, served.exceeded) == Continue
    ensures var served := s.Serve(offset, page, requested);
            Repeating(s, requested, page + 1, offset + |served.rows|, Unique(all, Kept(served.rows, offset)))
  {
    hide Unique, Kept, DistinctIds, AfterPages;
    ServedWhenIgnoring(s, offset, page, requested);
    var response := Response(s, requested);
    var n := |response|;
    assert (page + 1) * n == page * n + n;
    NextPage(s, requested, page);
    KeptMembers(response, offset);
    UniqueIsDistinct(all, Kept(response, offset));
    UniqueOfNone(all);
  }

  /** A row served again brings an id already there, if positions recur. */
  lemma RowRecurs(s: Server, i: nat)
    requires Recurs(s) && i < |s.rows| && s.rows[i].shaped
    ensures KeptAt(s.rows, |s.rows|, i).id in Ids(Wanted(s))
  {
    hide Kept, Ids;
    if s.rows[i].oid.Some? {
      KeptMembers(s.rows, 0);
      InIds(Wanted(s), KeptAt(s.rows, 0, i));
    }
  }

  ghost predicate AllIn(rows: seq<Fetched>, ids: set<int>) {
    forall x :: x in rows ==> x.id in ids
  }

  /** A page served again gives only ids already there exactly when every shifted position recurs. */
  lemma RecursIff(s: Server)
    ensures Recurs(s) <==> AllIn(Kept(s.rows, |s.rows|), Ids(Wanted(s)))
  {
    hide Kept, Ids, Wanted;
    var n := |s.rows|;
    KeptMembers(s.rows, n);
    if Recurs(s) {
      hide Recurs;
      forall x | x in Kept(s.rows, n)
        ensures x.id in Ids(Wanted(s))
      {
        var i: nat :| i < n && s.rows[i].shaped && x == KeptAt(s.rows, n, i);
        RowRecurs(s, i);
      }
    }
    if AllIn(Kept(s.rows, n), Ids(Wanted(s))) {
      forall i: nat | i < n && s.rows[i].shaped && s.rows[i].oid.None?
        ensures n + i in Ids(Wanted(s))
      {
        assert KeptAt(s.rows, n, i) in Kept(s.rows, n);
      }
    }
  }

  lemma InIds(rows: seq<Fetched>, x: Fetched)
    requires x in rows
    ensures x.id in Ids(rows)
  {
    var i :| 0 <= i < |rows| && rows[i] == x;
  }

  /** One page is the layer exactly when its ids are distinct; two are exactly when it is settled. */
  lemma WholeResponse(s: Server, requested: nat)
    requires |s.rows| <= s.Cap(requested)
    ensures DistinctIds(AfterOne(s, requested)) && DistinctIds(AfterTwo(s, requested))
    ensures AfterOne(s, requested) == Wanted(s) <==> DistinctIds(Wanted(s))
    ensures |AfterTwo(s, requested)| >= |AfterOne(s, requested)|
    ensures AfterTwo(s, requested) == Wanted(s) <==> Settled(s)
    ensures Settled(s) ==> AfterTwo(s, requested) == AfterOne(s, requested)
  {
    hide Unique, Kept, Recurs;
    var wanted, again := Wanted(s), Kept(s.rows, |s.rows|);
    assert DistinctIds([]);
    UniqueIsDistinct([], wanted);
    UniqueIsDistinct(AfterOne(s, requested), again);
    if DistinctIds(wanted) {
      assert [] + wanted == wanted;
      UniqueOfNew([], wanted);
      RecursIff(s);
      if Recurs(s) {
        UniqueOfSeenAgain(wanted, again);
      }
      if AfterTwo(s, requested) == wanted {
        UniqueAddsNothing(wanted, again);
      }
    }
  }

  /** The client takes the page as the last of a complete result. */
  function Accepts(s: Server, outcome: Outcome, rawCount: nat, requested: nat): bool {
    outcome == Done ||
    (outcome == RepeatedRows && RepeatedPageOutcome(rawCount, s.LayerMaxRecordCount(), requested) == RepeatedRows)
  }

  /** A server that ignores offsets, when it is taken for whole, has then been read exactly: its ids are
      distinct, and it says on its first page that nothing remains or a second page adds nothing. */
  ghost predicate Exact(s: Server) {
    DistinctIds(Wanted(s)) && (s.flagged(0) || Recurs(s))
  }

  /** The layer document proves a repeated page whole: no cap can have cut it. */
  ghost predicate Confirms(s: Server, requested: nat) {
    s.described && |s.rows| < s.maxRecordCount && |s.rows| != requested
  }

  lemma RepeatingEnds(s: Server, requested: nat, page: nat, offset: nat, all: seq<Fetched>)
    requires Repeating(s, requested, page, offset, all) && DistinctIds(all) && s.Cap(requested) > 0
    ensures var served := s.Serve(offset, page, requested);
            var rows := Kept(served.rows, offset);
            var fin := Unique(all, rows);
            var outcome := ClassifyArcGISPage(|served.rows|, |rows|, |fin| - |all|, served.exceeded);
            var accepted := Accepts(s, outcome, |served.rows|, requested);
            && (accepted ==> |s.rows| <= s.Cap(requested) && (fin == Wanted(s) <==> Exact(s)))
            && (outcome != Continue && s.rows != [] && |s.rows| <= s.Cap(requested) ==>
                  EndsAt(s, requested, page) && (accepted <==> s.flagged(page) || Confirms(s, requested)))
  {
    hide Unique, Kept, DistinctIds, Recurs, AfterPages;
    ServedWhenIgnoring(s, offset, page, requested);
    NextPage(s, requested, page);
    var response := Response(s, requested);
    var rows := Kept(response, offset);
    KeptMembers(response, offset);
    UniqueIsDistinct(all, rows);
    UniqueOfNone(all);
    if |s.rows| <= s.Cap(requested) {
      WholeResponse(s, requested);
      NothingWanted(s);
      if page == 0 && rows != [] {
        UniqueOfSome(rows);
      }
      if |Unique(all, rows)| == |all| {
        UniqueAddsNothing(all, rows);
        UniqueOfSeenAgain(all, rows);
      }
    }
  }

  lemma NothingWanted(s: Server)
    ensures Wanted(s) == [] ==> Settled(s)
    ensures s.rows == [] ==> Wanted(s) == []
  {
    hide Kept;
    KeptMembers(s.rows, 0);
    KeptNothing(0);
    assert forall i: nat :: i < |s.rows| && s.rows[i].shaped ==> KeptAt(s.rows, 0, i) in Wanted(s);
  }

  lemma KeptNothing(base: nat)
    ensures Kept([], base) == []
  {
  }

  // ---------------------------------------------------------------- fetching

  /** FetchAll, with arcgisMaxRecords requested per page and arcgisMaxPages pages at most. On success no
      cap has cut the layer, and the result is exactly the layer's rows with geometry if and only if
      its ids are distinct and, where offsets are ignored, the first page is flagged or a second adds
      no id. */
  method FetchAll(s: Server, requested: nat, maxPages: nat) returns (r: Result<seq<Fetched>>)
    requires s.maxRecordCount > 0 && requested > 0
    ensures r.Ok? ==> DistinctIds(r.value)
    ensures r.Ok? && s.honoursOffset ==> (r.value == Wanted(s) <==> DistinctIds(Wanted(s)))
    ensures r.Ok? && !s.honoursOffset ==> |s.rows| <= s.Cap(requested)
    ensures r.Ok? && !s.honoursOffset ==> (r.value == Wanted(s) <==> Exact(s))
    ensures maxPages > 0 && FirstIsFinal(s, requested) ==> r.Ok?
    ensures s.honoursOffset && DistinctIds(Wanted(s)) ==> (r.Ok? <==> Reachable(s, requested, maxPages))
    ensures !s.honoursOffset ==> (r.Ok? <==> Succeeds(s, requested, maxPages))
  {
    hide DistinctIds, Unique, Kept, Exact, Honoured, Repeating, Confirms, Succeeds;
    StartsEmpty(s, requested);
    var all: seq<Fetched> := [];
    var seen: set<int> := {};
    var offset: nat := 0;
    var page := 0;
    while true
      invariant page <= maxPages && DistinctIds(all) && seen == Ids(all)
      invariant if page == 0 then offset == 0 else !FirstIsFinal(s, requested)
      invariant s.honoursOffset && DistinctIds(Wanted(s)) ==> Honoured(s, requested, page, offset, all)
      invariant !s.honoursOffset ==> Repeating(s, requested, page, offset, all)
      decreases maxPages - page
    {
      if page >= maxPages {
        OutOfPages(s, requested, maxPages, offset, all);
        return Err;
      }
      var served := s.Serve(offset, page, requested);
      var rows := RowsFromPage(served.rows, offset);
      var before := all;
      all, seen := AppendUniqueRows(all, seen, rows);
      UniqueIsDistinct(before, rows);
      var outcome := ClassifyArcGISPage(|served.rows|, |rows|, |all| - |before|, served.exceeded);
      PageEnds(s, requested, maxPages, page, offset, before);
      if outcome == Done {
        return Ok(all);
      }
      if outcome == RepeatedRows {
        if RepeatedPageOutcome(|served.rows|, s.LayerMaxRecordCount(), requested) == Truncated {
          return Err;
        }
        return Ok(all);
      }
      if outcome == Truncated {
        return Err;
      }
      if !s.honoursOffset {
        RepeatingStep(s, requested, page, offset, before);
      }
      offset, page := offset + |served.rows|, page + 1;
    }
  }

  /** The first page holds the whole layer and says so. */
  ghost predicate FirstIsFinal(s: Server, requested: nat) {
    s.flagged(0) && |s.rows| <= s.Cap(requested)
  }

  /** The pages the client may ask for reach the end of the layer, and it is told or sees so. */
  ghost predicate Reachable(s: Server, requested: nat, maxPages: nat) {
    maxPages > 0 &&
    (|s.rows| <= (maxPages - 1) * s.Cap(requested) ||
     (|s.rows| <= maxPages * s.Cap(requested) && s.flagged(maxPages - 1)))
  }

  /** Where offsets are ignored: the layer is empty, or some page the client may ask for is the first to
      end the fetch and is flagged or confirmed; and no cap cuts the layer. */
  ghost predicate Succeeds(s: Server, requested: nat, maxPages: nat) {
    && |s.rows| <= s.Cap(requested) && maxPages > 0
    && (s.rows == [] || exists page: nat :: page < maxPages && EndsFirst(s, requested, page) &&
                                            (s.flagged(page) || Confirms(s, requested)))
  }

  ghost predicate EndsFirst(s: Server, requested: nat, page: nat) {
    EndsAt(s, requested, page) && forall q: nat :: q < page ==> !EndsAt(s, requested, q)
  }

  /** The one response is whole, and the server says so or the layer document proves it. */
  ghost predicate Provable(s: Server, requested: nat, maxPages: nat) {
    && |s.rows| <= s.Cap(requested) && maxPages > 0
    && (s.flagged(0) || (maxPages > 1 && (s.flagged(1) || Confirms(s, requested))))
  }

  /** Where the ids settle, the first or the second page ends the fetch. */
  lemma SettledSucceeds(s: Server, requested: nat, maxPages: nat)
    requires Settled(s) && Wanted(s) != []
    ensures Succeeds(s, requested, maxPages) <==> Provable(s, requested, maxPages)
  {
    hide DistinctIds, Kept, Unique, Settled, Confirms;
    if |s.rows| <= s.Cap(requested) {
      NothingWanted(s);
      WholeResponse(s, requested);
      FirstTwoPages(s, requested);
      UniqueOfSome(Wanted(s));
      assert EndsAt(s, requested, 0) <==> s.flagged(0);
      assert EndsAt(s, requested, 1);
      if s.flagged(0) {
        assert EndsFirst(s, requested, 0);
      } else {
        assert EndsFirst(s, requested, 1);
      }
    }
  }

  lemma FirstTwoPages(s: Server, requested: nat)
    ensures AfterPages(s, requested, 0) == [] && AfterPages(s, requested, 1) == AfterOne(s, requested)
    ensures AfterPages(s, requested, 2) == AfterTwo(s, requested)
  {
    hide Kept, Unique;
    NextPage(s, requested, 0);
    NextPage(s, requested, 1);
  }

  /** Without object ids every page adds its rows again, so only a flag ends the fetch. */
  lemma AnonymousSucceeds(s: Server, requested: nat, maxPages: nat)
    requires Anonymous(s) && s.rows != []
    ensures Succeeds(s, requested, maxPages) <==>
            |s.rows| <= s.Cap(requested) && exists page: nat :: page < maxPages && s.flagged(page)
  {
    hide Kept, Unique, AfterPages, Confirms;
    if |s.rows| <= s.Cap(requested) {
      forall page: nat
        ensures EndsAt(s, requested, page) <==> s.flagged(page)
      {
        AnonymousAdds(s, requested, page);
      }
      if page: nat :| page < maxPages && s.flagged(page) {
        var first := FirstFlag(s, page);
        assert EndsFirst(s, requested, first);
      }
    }
  }

  lemma {:induction false} FirstFlag(s: Server, page: nat) returns (first: nat)
    requires s.flagged(page)
    ensures first <= page && s.flagged(first) && forall q: nat :: q < first ==> !s.flagged(q)
  {
    if q: nat :| q < page && s.flagged(q) {
      first := FirstFlag(s, q);
    } else {
      first := page;
    }
  }

  /** Positions of later pages are new. */
  lemma {:induction false} AnonymousAdds(s: Server, requested: nat, n: nat)
    requires Anonymous(s) && |s.rows| <= s.Cap(requested)
    ensures forall i :: 0 <= i < |AfterPages(s, requested, n)| ==> AfterPages(s, requested, n)[i].id < n * |s.rows|
    ensures Wanted(s) != [] ==> AfterPages(s, requested, n + 1) != AfterPages(s, requested, n)
  {
    hide Kept, Unique, AfterPages, DistinctIds;
    NextPage(s, requested, n);
    PagesDistinct(s, requested, n);
    var before, more := AfterPages(s, requested, n), Kept(s.rows, n * |s.rows|);
    if n > 0 {
      AnonymousAdds(s, requested, n - 1);
      NextPage(s, requested, n - 1);
      var was, added := AfterPages(s, requested, n - 1), Kept(s.rows, (n - 1) * |s.rows|);
      assert (n - 1) * |s.rows| + |s.rows| == n * |s.rows|;
      KeptAnonymous(s.rows, (n - 1) * |s.rows|);
      PagesDistinct(s, requested, n - 1);
      AddsBeyond(was, added, (n - 1) * |s.rows|);
    } else {
      assert before == [] by { FirstTwoPages(s, requested); }
    }
    KeptAnonymous(s.rows, n * |s.rows|);
    AddsBeyond(before, more, n * |s.rows|);
  }

  /** Rows whose ids all lie at or beyond a point that no earlier id reaches are all added. */
  lemma AddsBeyond(before: seq<Fetched>, more: seq<Fetched>, from: int)
    requires DistinctIds(before) && DistinctIds(more)
    requires forall i :: 0 <= i < |before| ==> before[i].id < from
    requires forall i :: 0 <= i < |more| ==> from <= more[i].id
    ensures Unique(before, more) == before + more
  {
    UniqueOfNew(before, more);
  }

  lemma StartsEmpty(s: Server, requested: nat)
    ensures DistinctIds([]) && Ids([]) == {}
    ensures s.honoursOffset && DistinctIds(Wanted(s)) ==> Honoured(s, requested, 0, 0, [])
    ensures !s.honoursOffset ==> Repeating(s, requested, 0, 0, [])
  {
    assert s.rows[..0] == [];
  }

  lemma OutOfPages(s: Server, requested: nat, maxPages: nat, offset: nat, all: seq<Fetched>)
    requires s.Cap(requested) > 0
    requires s.honoursOffset && DistinctIds(Wanted(s)) ==> Honoured(s, requested, maxPages, offset, all)
    requires !s.honoursOffset ==> Repeating(s, requested, maxPages, offset, all)
    ensures s.honoursOffset && DistinctIds(Wanted(s)) ==> !Reachable(s, requested, maxPages)
    ensures !s.honoursOffset ==> !Succeeds(s, requested, maxPages)
  {
    hide DistinctIds, Kept, Unique, EndsAt, AfterPages;
  }

  lemma PageEnds(s: Server, requested: nat, maxPages: nat, page: nat, offset: nat, all: seq<Fetched>)
    requires s.Cap(requested) > 0 && page < maxPages && DistinctIds(all)
    requires s.honoursOffset && DistinctIds(Wanted(s)) ==> Honoured(s, requested, page, offset, all)
    requires !s.honoursOffset ==> Repeating(s, requested, page, offset, all)
    ensures var served := s.Serve(offset, page, requested);
            var rows := Kept(served.rows, offset);
            var fin := Unique(all, rows);
            var outcome := ClassifyArcGISPage(|served.rows|, |rows|, |fin| - |all|, served.exceeded);
            var accepted := Accepts(s, outcome, |served.rows|, requested);
            && (accepted && s.honoursOffset && DistinctIds(Wanted(s)) ==> fin == Wanted(s))
            && (accepted && !s.honoursOffset ==> |s.rows| <= s.Cap(requested))
            && (accepted && !s.honoursOffset ==> (fin == Wanted(s) <==> Exact(s)))
            && (outcome != Continue && s.honoursOffset && DistinctIds(Wanted(s)) ==>
                  accepted && Reachable(s, requested, maxPages))
            && (outcome == Continue && s.honoursOffset && DistinctIds(Wanted(s)) ==>
                  Honoured(s, requested, page + 1, offset + |served.rows|, fin))
            && (outcome != Continue && !s.honoursOffset ==> (accepted <==> Succeeds(s, requested, maxPages)))
  {
    hide DistinctIds, Kept, Unique, Exact, EndsAt, AfterPages, Confirms;
    if s.honoursOffset {
      if DistinctIds(Wanted(s)) {
        HonouredStep(s, requested, page, offset, all);
        var served := s.Serve(offset, page, requested);
        if served.rows == [] || served.exceeded == Some(false) {
          HonouredReach(s, requested, maxPages, page, offset, |served.rows|, all);
        }
      }
    } else {
      RepeatingEnds(s, requested, page, offset, all);
    }
  }

  lemma HonouredReach(s: Server, requested: nat, maxPages: nat, page: nat, offset: nat, served: nat, all: seq<Fetched>)
    requires Honoured(s, requested, page, offset, all) && s.Cap(requested) > 0 && page < maxPages
    requires served == Least(s.Cap(requested), |s.rows| - offset)
    requires served == 0 || (s.flagged(page) && |s.rows| - offset <= s.Cap(requested))
    ensures Reachable(s, requested, maxPages)
  {
    hide DistinctIds, Kept, Wanted;
    var cap := s.Cap(requested);
    assert (page + 1) * cap == page * cap + cap;
    MoreOf(page, maxPages - 1, cap);
    if page < maxPages - 1 {
      MoreOf(page + 1, maxPages - 1, cap);
    }
  }

  lemma MoreOf(a: nat, b: nat, c: nat)
    requires a <= b
    ensures a * c <= b * c
  {
  }

  /** Positions are distinct, so a layer without object ids that honours offsets is fetched whole; one
      that ignores them is settled only if no row has geometry. */
  lemma AnonymousIsDistinct(s: Server)
    requires Anonymous(s)
    ensures DistinctIds(Wanted(s)) && (Recurs(s) <==> Wanted(s) == [])
  {
    hide Kept;
    KeptAnonymous(s.rows, 0);
    KeptMembers(s.rows, 0);
    NothingWanted(s);
    if Wanted(s) != [] {
      assert Wanted(s)[0] in Wanted(s);
      var i: nat :| i < |s.rows| && s.rows[i].shaped && Wanted(s)[0] == KeptAt(s.rows, 0, i);
      assert |s.rows| + i !in Ids(Wanted(s));
    }
  }

  /** Where every row with geometry has an object id of its own, the layer is settled. */
  lemma IdentifiedIsSettled(s: Server)
    requires Identified(s)
    ensures Settled(s) && Exact(s)
  {
  }

  /** Object ids and positions share one space: where a layer sends an id on some rows only, the
      first page can lose a row and still be final, whether or not offsets are honoured. */
  lemma MixedIdsCollide(honoursOffset: bool, a: string, b: string)
    ensures var s := Server([Row(Some(1), true, a), Row(None, true, b)], 10, honoursOffset, true, page => true, true);
            var served := s.Serve(0, 0, 10);
            && served == Page(s.rows, Some(false))
            && ClassifyArcGISPage(2, 2, 1, served.exceeded) == Done
            && |Wanted(s)| == 2 && |Unique([], Wanted(s))| == 1 && !DistinctIds(Wanted(s))
  {
    var first, second := Row(Some(1), true, a), Row(None, true, b);
    assert [first, second][..2] == [first, second];
    CollidingPair(first, second);
  }

  lemma CollidingPair(first: Row, second: Row)
    requires first.shaped && second.shaped && first.oid == Some(1) && second.oid.None?
    ensures |Kept([first, second], 0)| == 2 && |Unique([], Kept([first, second], 0))| == 1
    ensures !DistinctIds(Kept([first, second], 0))
  {
    var rows := [first, second];
    assert rows[..1] == [first] && [first][..0] == [];
    assert Kept([first], 0) == [Fetched(1, first)];
    var wanted := Kept(rows, 0);
    assert wanted == [Fetched(1, first), Fetched(1, second)];
    UniqueOfNew([], [Fetched(1, first)]);
    assert wanted[..1] == [Fetched(1, first)];
    IdsMore([], Fetched(1, first));
    assert [] + [Fetched(1, first)] == [Fetched(1, first)];
  }

  /** Without object ids, a server that ignores offsets and flags only its second page has every row
      fetched twice, under two ids. */
  lemma FlaglessFirstPageDuplicates(row: Row, requested: nat)
    requires row.oid.None? && row.shaped && requested > 1
    ensures var s := Server([row], 10, false, true, page => page == 1, true);
            var first, again := s.Serve(0, 0, requested), s.Serve(1, 1, requested);
            && ClassifyArcGISPage(1, 1, 1, first.exceeded) == Continue
            && ClassifyArcGISPage(1, 1, 1, again.exceeded) == Done
            && Unique(Kept(first.rows, 0), Kept(again.rows, 1)) == [Fetched(0, row), Fetched(1, row)]
  {
    assert [row][..1] == [row] && [row][..0] == [];
    assert Kept([row], 0) == [Fetched(0, row)] && Kept([row], 1) == [Fetched(1, row)];
    UniqueOfNew([Fetched(0, row)], [Fetched(1, row)]);
  }
}
