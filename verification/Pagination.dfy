/** Keyset pages over the runs table, newest first, and the opaque cursor between them. */
module Pagination {
  import opened Arithmetic
  import opened Verdicts

  datatype Error = BadBase64 | Malformed | BadTime | BadId

  datatype Result<+T> = Ok(value: T) | Fail(error: Error)

  // ---- the cursor ----

  /** The codecs the cursor is built from: RFC 3339 times, UUID text, and raw URL base64. */
  datatype Codec = Codec(
    format: int -> string, parse: string -> Option<int>,
    show: nat -> string, read: string -> Option<nat>,
    armour: string -> string, unarmour: string -> Option<string>)
  {
    ghost predicate Lossless() {
      && (forall t: int :: parse(format(t)) == Some(t) && '|' !in format(t))
      && (forall i: nat :: read(show(i)) == Some(i))
      && (forall s: string :: unarmour(armour(s)) == Some(s))
      && unarmour("") == Some("")
    }
  }

  datatype Key = Key(createdAt: int, id: nat)

  /** Splits at the first bar. */
  function SplitBar(s: string): Option<(string, string)> {
    if s == "" then None
    else if s[0] == '|' then Some(("", s[1..]))
    else
      match SplitBar(s[1..])
      case None => None
      case Some((a, b)) => Some(([s[0]] + a, b))
  }

  lemma {:induction false} SplitsAtFirstBar(a: string, b: string)
    requires '|' !in a
    ensures SplitBar(a + "|" + b) == Some((a, b))
  {
    var s := a + "|" + b;
    if a == "" {
      assert s[1..] == b;
    } else {
      assert s[0] == a[0] && s[1..] == a[1..] + "|" + b;
      SplitsAtFirstBar(a[1..], b);
      assert [s[0]] + a[1..] == a;
    }
  }

  function EncodeCursor(c: Codec, k: Key): string { c.armour(c.format(k.createdAt) + "|" + c.show(k.id)) }

  /** The time and the identifier's text, which only the database will read. */
  function DecodeCursor(c: Codec, cursor: string): Result<(int, string)> {
    match c.unarmour(cursor)
    case None => Fail(BadBase64)
    case Some(raw) =>
      match SplitBar(raw)
      case None => Fail(Malformed)
      case Some((ts, id)) =>
        match c.parse(ts)
        case None => Fail(BadTime)
        case Some(t) => Ok((t, id))
  }

  /** The key a page starts below; none for the first page. */
  function StartOf(c: Codec, cursor: string): Result<Option<Key>> {
    if cursor == "" then Ok(None)
    else
      match DecodeCursor(c, cursor)
      case Fail(e) => Fail(e)
      case Ok((t, id)) =>
        match c.read(id)
        case None => Fail(BadId)
        case Some(i) => Ok(Some(Key(t, i)))
  }

  lemma CursorRoundTrip(c: Codec, k: Key)
    requires c.Lossless()
    ensures EncodeCursor(c, k) != "" && StartOf(c, EncodeCursor(c, k)) == Ok(Some(k))
  {
    var ts, id := c.format(k.createdAt), c.show(k.id);
    assert c.parse(ts) == Some(k.createdAt) && c.read(id) == Some(k.id);
    SplitsAtFirstBar(ts, id);
    assert c.unarmour(EncodeCursor(c, k)) == Some(ts + "|" + id);
  }

  lemma {:induction false} NoBarNoSplit(s: string)
    requires '|' !in s
    ensures SplitBar(s) == None
  {
    if s != "" {
      NoBarNoSplit(s[1..]);
    }
  }

  /** Where a page starts, or why a cursor is refused: it must be armour around a time, a bar, and an
      identifier. */
  lemma CursorMeans(c: Codec, cursor: string, ts: string, id: string)
    requires cursor != "" && '|' !in ts
    ensures c.unarmour(cursor) == None ==> StartOf(c, cursor) == Fail(BadBase64)
    ensures c.unarmour(cursor) == Some(ts) ==> StartOf(c, cursor) == Fail(Malformed)
    ensures c.unarmour(cursor) == Some(ts + "|" + id) ==>
              match (c.parse(ts), c.read(id))
              case (None, _) => StartOf(c, cursor) == Fail(BadTime)
              case (Some(t), None) => StartOf(c, cursor) == Fail(BadId)
              case (Some(t), Some(i)) => StartOf(c, cursor) == Ok(Some(Key(t, i)))
  {
    NoBarNoSplit(ts);
    SplitsAtFirstBar(ts, id);
  }

  // ---- the table in descending order ----

  datatype Run = Run(createdAt: int, id: nat, status: string)

  function KeyOf(r: Run): Key { Key(r.createdAt, r.id) }

  predicate Below(a: Key, b: Key) { a.createdAt < b.createdAt || (a.createdAt == b.createdAt && a.id < b.id) }

  /** Identifiers are the table's primary key. */
  ghost predicate Distinct(rows: seq<Run>) {
    forall i, j :: 0 <= i < j < |rows| ==> rows[i].id != rows[j].id
  }

  ghost predicate Descending(rows: seq<Run>) {
    forall i, j :: 0 <= i < j < |rows| ==> Below(KeyOf(rows[j]), KeyOf(rows[i]))
  }

  function Place(r: Run, sorted: seq<Run>): seq<Run> {
    if sorted == [] || Below(KeyOf(sorted[0]), KeyOf(r)) then [r] + sorted else [sorted[0]] + Place(r, sorted[1..])
  }

  predicate Wanted(r: Run, status: string, start: Option<Key>) {
    (status == "" || r.status == status) && (start.Some? ==> Below(KeyOf(r), start.value))
  }

  /** `WHERE ... ORDER BY created_at DESC, id DESC`. */
  function Select(rows: seq<Run>, status: string, start: Option<Key>): seq<Run> {
    if rows == [] then []
    else if Wanted(rows[0], status, start) then Place(rows[0], Select(rows[1..], status, start))
    else Select(rows[1..], status, start)
  }

  lemma {:induction false} PlaceKeeps(r: Run, sorted: seq<Run>)
    ensures forall x :: x in Place(r, sorted) <==> x == r || x in sorted
    ensures Descending(sorted) && (forall x :: x in sorted ==> x.id != r.id) ==> Descending(Place(r, sorted))
  {
    if sorted != [] && !Below(KeyOf(sorted[0]), KeyOf(r)) {
      var later := Place(r, sorted[1..]);
      PlaceKeeps(r, sorted[1..]);
      if Descending(sorted) && forall x :: x in sorted ==> x.id != r.id {
        forall j | 0 <= j < |later|
          ensures Below(KeyOf(later[j]), KeyOf(sorted[0]))
        {
          assert later[j] in later;
          assert sorted[0] in sorted;
        }
      }
    }
  }

  lemma {:induction false} SelectIsExact(rows: seq<Run>, status: string, start: Option<Key>)
    requires Distinct(rows)
    ensures Descending(Select(rows, status, start))
    ensures forall x :: x in Select(rows, status, start) <==> x in rows && Wanted(x, status, start)
  {
    if rows != [] {
      SelectIsExact(rows[1..], status, start);
      PlaceKeeps(rows[0], Select(rows[1..], status, start));
    }
  }

  /** The rows of a page, spelled out: of the status asked for, if one is, before the start in time or
      at its time with a smaller identifier, and strictly descending in that order. */
  lemma SelectMeans(rows: seq<Run>, status: string, start: Option<Key>)
    requires Distinct(rows)
    ensures var sel := Select(rows, status, start);
            && (forall i, j :: 0 <= i < j < |sel| ==>
                  sel[j].createdAt < sel[i].createdAt
                  || (sel[j].createdAt == sel[i].createdAt && sel[j].id < sel[i].id))
            && (forall x :: x in sel <==>
                  && x in rows && (status != "" ==> x.status == status)
                  && (start == None || x.createdAt < start.value.createdAt
                      || (x.createdAt == start.value.createdAt && x.id < start.value.id)))
  {
    SelectIsExact(rows, status, start);
  }

  lemma FirstIsGreatest(a: seq<Run>, x: Run)
    requires Descending(a) && x in a
    ensures x == a[0] || Below(KeyOf(x), KeyOf(a[0]))
  {
  }

  /** The same rows have only one descending order. */
  lemma {:induction false} OnlyOneOrder(a: seq<Run>, b: seq<Run>)
    requires Descending(a) && Descending(b) && forall x :: x in a <==> x in b
    ensures a == b
  {
    assert a != [] ==> a[0] in a;
    assert b != [] ==> b[0] in b;
    if a != [] && b != [] {
      FirstIsGreatest(a, b[0]);
      FirstIsGreatest(b, a[0]);
      assert a[0] == b[0];
      forall x
        ensures x in a[1..] <==> x in b[1..]
      {
        assert x in a[1..] <==> x in a && x != a[0];
        assert x in b[1..] <==> x in b && x != b[0];
      }
      OnlyOneOrder(a[1..], b[1..]);
    }
  }

  // ---- pages ----

  datatype Page = Page(rows: seq<Run>, next: string)

  function PageSize(limit: int): (n: nat)
    ensures 0 < n <= 100
  {
    if limit <= 0 || limit > 100 then 20 else limit
  }

  /** The rows seen are the first of all rows, and the cursor stands on the last of them. */
  ghost predicate Walked(c: Codec, all: seq<Run>, seen: seq<Run>, cursor: string) {
    && |seen| <= |all| && seen == all[..|seen|]
    && cursor == if seen == [] then "" else EncodeCursor(c, KeyOf(seen[|seen| - 1]))
  }

  lemma SliceMore(all: seq<Run>, m: nat, n: nat)
    requires m + n <= |all|
    ensures all[..m] + all[m..][..n] == all[..m + n]
    ensures all[..m] + all[m..] == all && (n == |all| - m ==> all[m..][..n] == all[m..])
    ensures n > 0 ==> all[m..][n - 1] == all[..m + n][m + n - 1]
  {
  }

  /** A page of the rows not yet seen takes the walk on, or ends it. */
  lemma PageTaken(c: Codec, all: seq<Run>, seen: seq<Run>, cursor: string, n: pos, page: Page)
    requires Walked(c, all, seen, cursor)
    requires var rest := all[|seen|..];
             page == if |rest| <= n then Page(rest, "")
                     else Page(rest[..n], EncodeCursor(c, KeyOf(rest[n - 1])))
    ensures page.next == "" && |all| - |seen| <= n ==> seen + page.rows == all
    ensures |all| - |seen| > n ==> page.rows != [] && Walked(c, all, seen + page.rows, page.next)
  {
    SliceMore(all, |seen|, |page.rows|);
  }

  ghost predicate Newer(rows: seq<Run>, arrivals: seq<Run>) {
    forall x, r :: x in arrivals && r in rows ==> Below(KeyOf(r), KeyOf(x))
  }

  /** A later table: the old rows, and others newer than all of them. */
  ghost predicate Extends(before: seq<Run>, now: seq<Run>) {
    && (forall x :: x in before ==> x in now)
    && (forall x, r :: x in now && x !in before && r in before ==> Below(KeyOf(r), KeyOf(x)))
  }

  lemma StillExtends(before: seq<Run>, now: seq<Run>, arrivals: seq<Run>)
    requires Extends(before, now) && Newer(before, arrivals)
    ensures forall next: seq<Run> ::
              (forall x :: x in now ==> x in next) && (forall x :: x in next ==> x in now || x in arrivals) ==>
                Extends(before, next)
  {
  }

  lemma PositionIsOrder(all: seq<Run>, x: Run, m: nat)
    requires Descending(all) && 0 < m <= |all|
    ensures x in all && Below(KeyOf(x), KeyOf(all[m - 1])) <==> x in all[m..]
  {
    if x in all {
      var i :| 0 <= i < |all| && all[i] == x;
      assert i >= m ==> all[m..][i - m] == x;
    }
  }

  /** What the cursor selects from the later table is the rest of the first table's rows. */
  lemma NextPage(c: Codec, before: seq<Run>, now: seq<Run>, status: string, m: nat, cursor: string)
    requires c.Lossless() && Distinct(before) && Distinct(now) && Extends(before, now)
    requires m <= |Select(before, status, None)|
    requires if m == 0 then cursor == "" && now == before
             else cursor == EncodeCursor(c, KeyOf(Select(before, status, None)[m - 1]))
    ensures StartOf(c, cursor).Ok?
    ensures Select(now, status, StartOf(c, cursor).value) == Select(before, status, None)[m..]
    ensures forall r: Run :: EncodeCursor(c, KeyOf(r)) != ""
  {
    var all := Select(before, status, None);
    forall r: Run
      ensures EncodeCursor(c, KeyOf(r)) != ""
    {
      CursorRoundTrip(c, KeyOf(r));
    }
    if m > 0 {
      var start := Some(KeyOf(all[m - 1]));
      CursorRoundTrip(c, KeyOf(all[m - 1]));
      SelectIsExact(before, status, None);
      SelectIsExact(now, status, start);
      forall x
        ensures x in Select(now, status, start) <==> x in all[m..]
      {
        PositionIsOrder(all, x, m);
        assert all[m - 1] in before;
      }
      OnlyOneOrder(Select(now, status, start), all[m..]);
    }
  }

  class Store {
    const codec: Codec
    var runs: seq<Run>

    constructor (codec: Codec)
      ensures this.codec == codec && runs == []
    {
      this.codec := codec;
      runs := [];
    }

    method InsertRun(r: Run) returns (ok: bool)
      modifies this
      ensures ok <==> forall x :: x in old(runs) ==> x.id != r.id
      ensures runs == if ok then old(runs) + [r] else old(runs)
    {
      ok := forall x | x in runs :: x.id != r.id;
      if ok {
        runs := runs + [r];
      }
    }

    /** One page: fetches one row too many to see whether there is a next one. */
    method ListRuns(status: string, limit: int, cursor: string) returns (r: Result<Page>)
      ensures StartOf(codec, cursor).Fail? ==> r == Fail(StartOf(codec, cursor).error)
      ensures StartOf(codec, cursor).Ok? ==>
                var all := Select(runs, status, StartOf(codec, cursor).value);
                var n := if 1 <= limit <= 100 then limit else 20;
                && r.Ok?
                && (|all| <= n ==> r.value == Page(all, ""))
                && (|all| > n ==> r.value == Page(all[..n], EncodeCursor(codec, KeyOf(all[n - 1]))))
    {
      var n := if limit <= 0 || limit > 100 then 20 else limit;
      var start: Option<Key> := None;
      if cursor != "" {
        var decoded := DecodeCursor(codec, cursor);
        if decoded.Fail? {
          return Fail(decoded.error);
        }
        var id := codec.read(decoded.value.1);
        if id.None? {
          return Fail(BadId);
        }
        start := Some(Key(decoded.value.0, id.value));
      }
      var found := Select(runs, status, start);
      var out := if |found| > n + 1 then found[..n + 1] else found;
      var next := "";
      if |out| > n {
        var last := out[n - 1];
        next := EncodeCursor(codec, KeyOf(last));
        out := out[..n];
      }
      return Ok(Page(out, next));
    }

    method InsertAll(rows: seq<Run>)
      requires Distinct(runs)
      modifies this
      ensures Distinct(runs)
      ensures forall x :: x in old(runs) ==> x in runs
      ensures forall x :: x in runs ==> x in old(runs) || x in rows
    {
      for i := 0 to |rows|
        invariant Distinct(runs)
        invariant forall x :: x in old(runs) ==> x in runs
        invariant forall x :: x in runs ==> x in old(runs) || x in rows
      {
        var ok := InsertRun(rows[i]);
      }
    }

    /** One step of a walk that began on the table `before`: the next rows, and where they end. */
    method TakePage(status: string, limit: int, cursor: string, ghost before: seq<Run>, ghost seen: seq<Run>)
      returns (more: seq<Run>, next: string)
      requires codec.Lossless() && Distinct(before) && Distinct(runs) && Extends(before, runs)
      requires Walked(codec, Select(before, status, None), seen, cursor) && (seen == [] ==> runs == before)
      ensures next == "" ==> seen + more == Select(before, status, None)
      ensures next != "" ==> more != [] && Walked(codec, Select(before, status, None), seen + more, next)
    {
      ghost var all := Select(before, status, None);
      NextPage(codec, before, runs, status, |seen|, cursor);
      var page := ListRuns(status, limit, cursor);
      more, next := page.value.rows, page.value.next;
      PageTaken(codec, all, seen, cursor, PageSize(limit), page.value);
    }

    /** Walks the pages to the end while newer rows arrive in between: every row that was there at
        the start appears exactly once, in descending order, and nothing else does. */
    method Walk(status: string, limit: int, arrivals: seq<seq<Run>>) returns (seen: seq<Run>)
      requires codec.Lossless() && Distinct(runs)
      requires forall i :: 0 <= i < |arrivals| ==> Newer(runs, arrivals[i])
      modifies this
      ensures seen == Select(old(runs), status, None)
    {
      ghost var all := Select(runs, status, None);
      var cursor, k := "", 0;
      seen := [];
      while true
        invariant Distinct(runs) && Extends(old(runs), runs)
        invariant Walked(codec, all, seen, cursor) && (seen == [] ==> runs == old(runs))
        decreases |all| - |seen|
      {
        var more, next := TakePage(status, limit, cursor, old(runs), seen);
        seen, cursor := seen + more, next;
        if cursor == "" {
          return;
        }
        if k < |arrivals| {
          StillExtends(old(runs), runs, arrivals[k]);
          InsertAll(arrivals[k]);
          k := k + 1;
        }
      }
    }
  }
}
