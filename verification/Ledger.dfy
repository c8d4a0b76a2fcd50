/** The transfer ledger: settled transfers are queued for the `transfers` table,
    dropped and counted when the queue is full; one consumer batches upserts and
    flushes the batch before any other mutation. */
module Ledger {
  import opened Options

  const QUEUE_CAP: nat := 4096
  const BATCH: nat := 500
  const PAGE: nat := 200  // row limit of the per-session query

  datatype TransferState = Queued | Running | Paused | Done | Failed | Canceled

  /** Only these states are ever stored. */
  predicate IsSettled(s: TransferState) { s != Queued && s != Running }

  /** `updatedAt` is the clock when the row is written. In an upsert it stands for
      the time at which the table will be written, whatever that turns out to be. */
  datatype Record = Record(
    id: string, session: string, upload: bool, local: string, remote: string,
    bytesDone: nat, bytesTotal: nat, state: TransferState, error: Option<string>, updatedAt: nat)

  type Table = map<string, Record>

  datatype Mutation =
    | Upsert(r: Record)
    | Remove(id: string)
    | ClearSession(session: string, states: set<TransferState>)
    | ClearAll
    | Resumable(id: string, session: string)

  /** Replies; the order of cleared rows is not modelled. */
  datatype Ack = Row(row: Option<Record>) | Rows(rows: Table) | Cleared(count: nat)

  // ---------- one by one ----------

  /** Insert, or on conflict overwrite progress, state, error and time only. */
  function PutRow(t: Table, r: Record): Table {
    if r.id in t then
      t[r.id := t[r.id].(bytesDone := r.bytesDone, bytesTotal := r.bytesTotal, state := r.state, error := r.error,
                         updatedAt := r.updatedAt)]
    else t[r.id := r]
  }

  function SessionRows(t: Table, session: string): set<string> {
    set id | id in t && t[id].session == session
  }

  function Matching(t: Table, ids: set<string>, states: set<TransferState>): set<string> {
    set id | id in ids && id in t && t[id].state in states
  }

  function Pick(t: Table, ids: set<string>): Table {
    map id | id in ids && id in t :: t[id]
  }

  function Find(t: Table, id: string): Option<Record> {
    if id in t then Some(t[id]) else None
  }

  /** The effect of one mutation on the table. */
  function Apply(t: Table, m: Mutation): Table {
    match m
    case Upsert(r) => PutRow(t, r)
    case Remove(id) => t - {id}
    case ClearSession(session, states) => t - Matching(t, SessionRows(t, session), states)
    case ClearAll => map[]
    case Resumable(_, _) => t
  }

  /** The reply to one mutation, if it has one. */
  function Reply(t: Table, m: Mutation): seq<Ack> {
    match m
    case Upsert(_) => []
    case Remove(id) => [Row(Find(t, id))]
    case ClearSession(session, states) => [Rows(Pick(t, Matching(t, SessionRows(t, session), states)))]
    case ClearAll => [Cleared(|t|)]
    case Resumable(id, session) =>
      [Row(if id in t && t[id].session == session && t[id].state == Paused then Some(t[id]) else None)]
  }

  /** The reference: mutations applied one at a time in queue order. */
  function Fold(t: Table, q: seq<Mutation>): Table {
    if q == [] then t else Apply(Fold(t, q[..|q| - 1]), q[|q| - 1])
  }

  function Replies(t: Table, q: seq<Mutation>): seq<Ack> {
    if q == [] then []
    else Replies(t, q[..|q| - 1]) + Reply(Fold(t, q[..|q| - 1]), q[|q| - 1])
  }

  // ---------- the consumer ----------

  function PutAll(t: Table, rs: seq<Record>): Table {
    if rs == [] then t else PutRow(PutAll(t, rs[..|rs| - 1]), rs[|rs| - 1])
  }

  method Flush(t: Table, upserts: seq<Record>) returns (u: Table)
    ensures u == PutAll(t, upserts)
  {
    u := t;
    for k := 0 to |upserts|
      invariant u == PutAll(t, upserts[..k])
    {
      u := PutRow(u, upserts[k]);
      assert upserts[..k + 1][..k] == upserts[..k];
    }
    assert upserts[..|upserts|] == upserts;
  }

  /** `top` are `n` of the rows `ids`, none of them older than any left out. */
  predicate Latest(t: Table, ids: set<string>, n: nat, top: set<string>)
    requires ids <= t.Keys
  {
    && top <= ids && |top| == n
    && forall p, o :: p in top && o in ids - top ==> t[p].updatedAt >= t[o].updatedAt
  }

  /** What the limited query may return: every row of the session if they fit
      on one page, otherwise a page of the most recently updated ones. Rows of
      equal time may come in any order. */
  predicate IsPage(t: Table, session: string, page: set<string>) {
    var rows := SessionRows(t, session);
    Latest(t, rows, if |rows| <= PAGE then |rows| else PAGE, page)
  }

  lemma {:induction false} Oldest(t: Table, ids: set<string>) returns (x: string)
    requires ids != {} && ids <= t.Keys
    ensures x in ids && forall o :: o in ids ==> t[x].updatedAt <= t[o].updatedAt
  {
    x :| x in ids;
    var rest := ids - {x};
    assert forall o :: o in ids ==> o == x || o in rest;
    if rest != {} {
      var y := Oldest(t, rest);
      if t[y].updatedAt < t[x].updatedAt {
        x := y;
      }
    }
  }

  /** There is always such a choice: drop the oldest until few enough are left. */
  lemma LatestExist(t: Table, ids: set<string>, n: nat) returns (top: set<string>)
    requires n <= |ids| && ids <= t.Keys
    ensures Latest(t, ids, n, top)
  {
    top := ids;
    while |top| > n
      invariant n <= |top| && Latest(t, ids, |top|, top)
      decreases |top|
    {
      var x := Oldest(t, top);
      top := top - {x};
    }
  }

  lemma FullSubset(a: set<string>, b: set<string>)
    requires a <= b && |a| == |b|
    ensures a == b
  {
    if x :| x in b && x !in a {
      assert a <= b - {x} && |b - {x}| == |b| - 1;
      SubsetSize(a, b - {x});
    }
  }

  lemma SubsetSize(a: set<string>, b: set<string>)
    requires a <= b
    ensures |a| <= |b|
  {
    if a != {} {
      var x :| x in a;
      SubsetSize(a - {x}, b - {x});
    }
  }

  /** Deletes the matching rows of a page one by one, in any order. */
  method DeleteMatching(t: Table, page: set<string>, states: set<TransferState>) returns (u: Table, hit: Table)
    requires page <= t.Keys
    ensures u == t - Matching(t, page, states) && hit == Pick(t, Matching(t, page, states))
  {
    assert Matching(t, page - page, states) == {};
    hide Matching, Pick;
    assert t - {} == t;
    var left := page;
    u, hit := t, map[];
    while left != {}
      invariant left <= page
      invariant u == t - Matching(t, page - left, states)
      invariant hit == Pick(t, Matching(t, page - left, states))
      decreases |left|
    {
      var id :| id in left;
      MatchingGrows(t, page - left, id, states);
      assert page - (left - {id}) == page - left + {id};
      left := left - {id};
      if t[id].state in states {
        u, hit := u - {id}, hit[id := t[id]];
      }
    }
    assert page - left == page;
  }

  lemma MatchingGrows(t: Table, ids: set<string>, id: string, states: set<TransferState>)
    requires id in t
    ensures var was, now := Matching(t, ids, states), Matching(t, ids + {id}, states);
            if t[id].state in states
            then t - now == t - was - {id} && Pick(t, now) == Pick(t, was)[id := t[id]]
            else now == was
  {
  }

  /** Reads a page of the session and deletes its matching rows. */
  method ClearPage(t: Table, session: string, states: set<TransferState>)
    returns (u: Table, hit: Table, page: set<string>)
    ensures IsPage(t, session, page)
    ensures u == t - Matching(t, page, states) && hit == Pick(t, Matching(t, page, states))
    ensures |SessionRows(t, session)| <= PAGE ==>
              u == Apply(t, ClearSession(session, states)) && [Rows(hit)] == Reply(t, ClearSession(session, states))
  {
    var rows := SessionRows(t, session);
    ghost var some := LatestExist(t, rows, if |rows| <= PAGE then |rows| else PAGE);
    assert IsPage(t, session, some);
    page :| IsPage(t, session, page);
    assert IsPage(t, session, page);
    if |rows| <= PAGE {
      FullSubset(page, rows);
    }
    u, hit := DeleteMatching(t, page, states);
  }

  /** The page limit matters: when more rows match than fit on a page, no page
      the query may return clears them all. */
  lemma PagedClearMisses(t: Table, session: string, states: set<TransferState>, page: set<string>)
    requires IsPage(t, session, page)
    requires |Matching(t, SessionRows(t, session), states)| > PAGE
    ensures t - Matching(t, page, states) != Apply(t, ClearSession(session, states))
  {
    var all := Matching(t, SessionRows(t, session), states);
    if all <= page {
      SubsetSize(all, page);
    }
    var id :| id in all && id !in page;
    assert id in t - Matching(t, page, states);
  }

  lemma PageClearsAll(t: Table, session: string, states: set<TransferState>, page: set<string>)
    requires IsPage(t, session, page)
    ensures t - Matching(t, page, states) == Apply(t, ClearSession(session, states)) <==>
            Matching(t, SessionRows(t, session), states) <= page
  {
    var all, some := Matching(t, SessionRows(t, session), states), Matching(t, page, states);
    assert some <= all;
    if all <= page {
      assert all == some;
    } else {
      var id :| id in all && id !in page;
      assert id in t - some && id !in t - all;
    }
  }

  /** The rows of the session updated no earlier than the row of `id`. */
  function NoOlder(t: Table, session: string, id: string): set<string>
    requires id in t
  {
    set o | o in SessionRows(t, session) && t[o].updatedAt >= t[id].updatedAt
  }

  /** Every page holds a row that few enough others are as recent as. */
  lemma RecentRowIsSeen(t: Table, session: string, page: set<string>, id: string)
    requires IsPage(t, session, page) && id in SessionRows(t, session) && |NoOlder(t, session, id)| <= PAGE
    ensures id in page
  {
    var rows := SessionRows(t, session);
    if id !in page {
      if |rows| <= PAGE {
        FullSubset(page, rows);
      } else {
        assert page + {id} <= NoOlder(t, session, id);
        SubsetSize(page + {id}, NoOlder(t, session, id));
      }
    }
  }

  /** And otherwise some page misses it. */
  lemma OlderRowIsMissed(t: Table, session: string, id: string) returns (page: set<string>)
    requires id in SessionRows(t, session) && |NoOlder(t, session, id)| > PAGE
    ensures IsPage(t, session, page) && id !in page
  {
    var rows, recent := SessionRows(t, session), NoOlder(t, session, id);
    SubsetSize(recent, rows);
    page := LatestExist(t, rows - {id}, PAGE);
    forall p | p in page ensures t[p].updatedAt >= t[id].updatedAt {
      if t[p].updatedAt < t[id].updatedAt {
        assert recent - {id} <= page - {p};
        SubsetSize(recent - {id}, page - {p});
      }
    }
  }

  /** Exactly when a clear does what it should whichever page the query returns,
      in terms of the table before the call: of every row to be cleared, at most a
      page of the session's rows are as recent as it. */
  lemma PagedClearExact(t: Table, session: string, states: set<TransferState>)
    ensures (forall page | IsPage(t, session, page) ::
               t - Matching(t, page, states) == Apply(t, ClearSession(session, states)))
            <==> forall id :: id in Matching(t, SessionRows(t, session), states) ==> |NoOlder(t, session, id)| <= 200
  {
    var rows := SessionRows(t, session);
    var all := Matching(t, rows, states);
    if forall id :: id in all ==> |NoOlder(t, session, id)| <= PAGE {
      forall page | IsPage(t, session, page)
        ensures t - Matching(t, page, states) == Apply(t, ClearSession(session, states))
      {
        forall id | id in all ensures id in page {
          RecentRowIsSeen(t, session, page, id);
        }
        PageClearsAll(t, session, states, page);
      }
    } else {
      var id :| id in all && |NoOlder(t, session, id)| > PAGE;
      var page := OlderRowIsMissed(t, session, id);
      PageClearsAll(t, session, states, page);
    }
  }

  /** In particular a session that fits on a page is always cleared. */
  lemma FittingSessionIsCleared(t: Table, session: string, states: set<TransferState>, page: set<string>)
    requires IsPage(t, session, page) && |SessionRows(t, session)| <= PAGE
    ensures t - Matching(t, page, states) == Apply(t, ClearSession(session, states))
  {
    FullSubset(page, SessionRows(t, session));
  }

  // ---------- one by one, with the pages the queries return ----------

  function ApplyPaged(t: Table, m: Mutation, page: set<string>): Table {
    if m.ClearSession? then t - Matching(t, page, m.states) else Apply(t, m)
  }

  function ReplyPaged(t: Table, m: Mutation, page: set<string>): seq<Ack> {
    if m.ClearSession? then [Rows(Pick(t, Matching(t, page, m.states)))] else Reply(t, m)
  }

  function FoldPaged(t: Table, q: seq<Mutation>, pages: seq<set<string>>): Table
    requires |q| == |pages|
  {
    if q == [] then t
    else
      var k := |q| - 1;
      ApplyPaged(FoldPaged(t, q[..k], pages[..k]), q[k], pages[k])
  }

  function RepliesPaged(t: Table, q: seq<Mutation>, pages: seq<set<string>>): seq<Ack>
    requires |q| == |pages|
  {
    if q == [] then []
    else
      var k := |q| - 1;
      RepliesPaged(t, q[..k], pages[..k]) + ReplyPaged(FoldPaged(t, q[..k], pages[..k]), q[k], pages[k])
  }

  /** What the queries may return when the mutations are taken one by one. */
  predicate LegalPages(t: Table, q: seq<Mutation>, pages: seq<set<string>>)
    requires |q| == |pages|
  {
    q == [] ||
    var k := |q| - 1;
    && LegalPages(t, q[..k], pages[..k])
    && (q[k].ClearSession? ==> IsPage(FoldPaged(t, q[..k], pages[..k]), q[k].session, pages[k]))
  }

  /** Every session clear meets at most one page of rows. */
  predicate AllFit(t: Table, q: seq<Mutation>) {
    forall k :: 0 <= k < |q| && q[k].ClearSession? ==> |SessionRows(Fold(t, q[..k]), q[k].session)| <= PAGE
  }

  lemma FitsPrefix(t: Table, q: seq<Mutation>, k: nat)
    requires AllFit(t, q) && k <= |q|
    ensures AllFit(t, q[..k])
  {
    forall j | 0 <= j < k && q[j].ClearSession? ensures |SessionRows(Fold(t, q[..k][..j]), q[j].session)| <= PAGE {
      assert q[..k][..j] == q[..j];
    }
  }

  lemma PageOfAll(t: Table, m: Mutation, page: set<string>)
    requires m.ClearSession? ==> IsPage(t, m.session, page) && |SessionRows(t, m.session)| <= PAGE
    ensures ApplyPaged(t, m, page) == Apply(t, m) && ReplyPaged(t, m, page) == Reply(t, m)
  {
    if m.ClearSession? {
      FullSubset(page, SessionRows(t, m.session));
    }
  }

  /** Where every session fits on a page, pages play no part. */
  lemma {:induction false} FittingPages(t: Table, q: seq<Mutation>, pages: seq<set<string>>)
    requires |q| == |pages| && LegalPages(t, q, pages) && AllFit(t, q)
    ensures FoldPaged(t, q, pages) == Fold(t, q) && RepliesPaged(t, q, pages) == Replies(t, q)
  {
    if q != [] {
      hide ApplyPaged, ReplyPaged, Apply, Reply, SessionRows, IsPage;
      var k := |q| - 1;
      FitsPrefix(t, q, k);
      FittingPages(t, q[..k], pages[..k]);
      PageOfAll(Fold(t, q[..k]), q[k], pages[k]);
    }
  }

  // ---------- the consumer's loops ----------

  /** Executes one mutation that is not an upsert; `page` is what the query of a
      session clear returned. */
  method Exec(t: Table, m: Mutation) returns (u: Table, ack: seq<Ack>, page: set<string>)
    requires !m.Upsert?
    ensures m.ClearSession? ==> IsPage(t, m.session, page)
    ensures u == ApplyPaged(t, m, page) && ack == ReplyPaged(t, m, page)
  {
    page := {};
    match m {
      case Upsert(r) => assert false;
      case Remove(id) =>
        var row := Find(t, id);
        u, ack := (if row.Some? then t - {id} else t), [Row(row)];
      case ClearSession(session, states) =>
        var hit;
        u, hit, page := ClearPage(t, session, states);
        ack := [Rows(hit)];
      case ClearAll =>
        u, ack := map[], [Cleared(|t|)];
      case Resumable(id, session) =>
        var row := Find(t, id);
        u, ack := t, [Row(if row.Some? && row.value.session == session && row.value.state == Paused then row else None)];
    }
  }

  lemma PutSnoc(t: Table, rs: seq<Record>, r: Record)
    ensures PutAll(t, rs + [r]) == PutRow(PutAll(t, rs), r)
  {
    assert (rs + [r])[..|rs|] == rs;
  }

  /** Table, pending upserts and replies stand where the messages `q`, taken one
      by one with the same pages, leave the reference. */
  ghost predicate InStep(
    t: Table, q: seq<Mutation>, u: Table, upserts: seq<Record>, acks: seq<Ack>, pages: seq<set<string>>)
  {
    && |q| == |pages| && LegalPages(t, q, pages)
    && PutAll(u, upserts) == FoldPaged(t, q, pages)
    && acks == RepliesPaged(t, q, pages)
  }

  lemma PagedSnoc(t: Table, q: seq<Mutation>, pages: seq<set<string>>, m: Mutation, page: set<string>)
    requires |q| == |pages|
    ensures FoldPaged(t, q + [m], pages + [page]) == ApplyPaged(FoldPaged(t, q, pages), m, page)
    ensures RepliesPaged(t, q + [m], pages + [page]) ==
            RepliesPaged(t, q, pages) + ReplyPaged(FoldPaged(t, q, pages), m, page)
    ensures LegalPages(t, q + [m], pages + [page]) ==
            (LegalPages(t, q, pages) && (m.ClearSession? ==> IsPage(FoldPaged(t, q, pages), m.session, page)))
  {
    hide ApplyPaged, ReplyPaged, IsPage;
    assert (q + [m])[..|q|] == q && (pages + [page])[..|q|] == pages;
  }

  lemma StepUpsert(
    t: Table, q: seq<Mutation>, u: Table, upserts: seq<Record>, acks: seq<Ack>, pages: seq<set<string>>, r: Record)
    requires InStep(t, q, u, upserts, acks, pages)
    ensures InStep(t, q + [Upsert(r)], u, upserts + [r], acks, pages + [{}])
  {
    hide LegalPages, FoldPaged, RepliesPaged, PutRow;
    PagedSnoc(t, q, pages, Upsert(r), {});
    PutSnoc(u, upserts, r);
  }

  lemma StepOther(
    t: Table, q: seq<Mutation>, u: Table, upserts: seq<Record>, acks: seq<Ack>, pages: seq<set<string>>,
    m: Mutation, page: set<string>)
    requires InStep(t, q, u, upserts, acks, pages)
    requires m.ClearSession? ==> IsPage(PutAll(u, upserts), m.session, page)
    ensures var w := PutAll(u, upserts);
            InStep(t, q + [m], ApplyPaged(w, m, page), [], acks + ReplyPaged(w, m, page), pages + [page])
  {
    hide LegalPages, FoldPaged, RepliesPaged, ApplyPaged, ReplyPaged, IsPage;
    PagedSnoc(t, q, pages, m, page);
  }

  lemma Flushed(t: Table, q: seq<Mutation>, u: Table, upserts: seq<Record>, acks: seq<Ack>, pages: seq<set<string>>)
    requires InStep(t, q, u, upserts, acks, pages)
    ensures InStep(t, q, PutAll(u, upserts), [], acks, pages)
  {
  }

  /** One batch: takes messages until BATCH of them, or until `try_recv` happens to find nothing. */
  method Batch(ghost t: Table, q: seq<Mutation>, from: nat, before: Table, replied: seq<Ack>, ghost seen: seq<set<string>>)
    returns (i: nat, u: Table, acks: seq<Ack>, ghost pages: seq<set<string>>)
    requires from < |q| && InStep(t, q[..from], before, [], replied, seen)
    ensures from < i <= |q| && i - from <= 500 && InStep(t, q[..i], u, [], acks, pages)
  {
    hide InStep;
    i, u, acks, pages := from, before, replied, seen;
    var upserts: seq<Record> := [];
    var n := 1;
    var more := true;
    while more
      invariant from <= i <= |q| && (more ==> i < |q| && n == i - from + 1 <= BATCH) && (!more ==> from < i <= from + BATCH)
      invariant InStep(t, q[..i], u, upserts, acks, pages)
      decreases |q| - i, more
    {
      assert q[..i + 1] == q[..i] + [q[i]];
      if q[i].Upsert? {
        StepUpsert(t, q[..i], u, upserts, acks, pages, q[i].r);
        upserts, pages := upserts + [q[i].r], pages + [{}];
      } else {
        var w := Flush(u, upserts);
        var v, ack, page := Exec(w, q[i]);
        StepOther(t, q[..i], u, upserts, acks, pages, q[i], page);
        u, upserts, acks, pages := v, [], acks + ack, pages + [page];
      }
      i := i + 1;
      var arrived: bool := *;  // whether another message is already queued
      more := n < BATCH && i < |q| && arrived;
      n := n + 1;
    }
    Flushed(t, q[..i], u, upserts, acks, pages);
    u := Flush(u, upserts);
  }

  /** The consumer over a whole queue: wherever its batches end and whatever
      pages its queries return, table and replies are those of taking the
      mutations one by one; and of the plain reference where sessions fit. */
  method Consume(t: Table, q: seq<Mutation>) returns (u: Table, acks: seq<Ack>, ghost pages: seq<set<string>>)
    ensures |pages| == |q| && LegalPages(t, q, pages)
    ensures u == FoldPaged(t, q, pages) && acks == RepliesPaged(t, q, pages)
    ensures AllFit(t, q) ==> u == Fold(t, q) && acks == Replies(t, q)
  {
    hide AllFit, Fold, Replies;
    u, acks, pages := t, [], [];
    var i := 0;
    assert InStep(t, q[..0], u, [], acks, pages);
    while i < |q|
      invariant 0 <= i <= |q|
      invariant InStep(t, q[..i], u, [], acks, pages)
    {
      i, u, acks, pages := Batch(t, q, i, u, acks, pages);
    }
    assert q[..|q|] == q;
    if AllFit(t, q) {
      FittingPages(t, q, pages);
    }
  }

  // ---------- what the order guarantees ----------

  /** Whether a mutation bears on the row of `id`, being `row` at the time. */
  predicate Touches(m: Mutation, id: string, row: Option<Record>) {
    match m
    case Upsert(r) => r.id == id
    case Remove(x) => x == id && row.Some?
    case ClearSession(session, states) => row.Some? && row.value.session == session && row.value.state in states
    case ClearAll => row.Some?
    case Resumable(_, _) => false
  }

  lemma UntouchedByOne(t: Table, m: Mutation, page: set<string>, id: string)
    requires !Touches(m, id, Find(t, id)) && (m.ClearSession? ==> IsPage(t, m.session, page))
    ensures Find(ApplyPaged(t, m, page), id) == Find(t, id)
  {
  }

  /** A row stays as it is until a mutation that bears on it. */
  lemma {:induction false} UntouchedRow(t: Table, q: seq<Mutation>, pages: seq<set<string>>, i: nat, id: string)
    requires i <= |q| == |pages| && LegalPages(t, q, pages)
    requires forall k :: i <= k < |q| ==> !Touches(q[k], id, Find(FoldPaged(t, q[..i], pages[..i]), id))
    ensures Find(FoldPaged(t, q, pages), id) == Find(FoldPaged(t, q[..i], pages[..i]), id)
  {
    hide ApplyPaged, Find, Touches, IsPage;
    if i == |q| {
      assert q[..i] == q && pages[..i] == pages;
    } else {
      var k := |q| - 1;
      assert q[..k][..i] == q[..i] && pages[..k][..i] == pages[..i];
      UntouchedRow(t, q[..k], pages[..k], i, id);
      UntouchedByOne(FoldPaged(t, q[..k], pages[..k]), q[k], pages[k], id);
    }
  }

  /** What an upsert leaves: the very row it carries if there was none, otherwise
      the old row with progress, state, error and time of the new one. */
  predicate Upserted(before: Option<Record>, r: Record, after: Option<Record>) {
    && after.Some?
    && (before.None? ==> after.value == r)
    && (before.Some? ==>
          && after.value.id == before.value.id && after.value.session == before.value.session
          && after.value.upload == before.value.upload
          && after.value.local == before.value.local && after.value.remote == before.value.remote
          && after.value.bytesDone == r.bytesDone && after.value.bytesTotal == r.bytesTotal
          && after.value.state == r.state && after.value.error == r.error && after.value.updatedAt == r.updatedAt)
  }

  lemma UpsertLands(t: Table, q: seq<Mutation>, pages: seq<set<string>>, i: nat)
    requires i < |q| == |pages| && q[i].Upsert?
    ensures var id := q[i].r.id;
            Upserted(Find(FoldPaged(t, q[..i], pages[..i]), id), q[i].r,
                     Find(FoldPaged(t, q[..i + 1], pages[..i + 1]), id))
  {
    assert q[..i + 1][..i] == q[..i] && pages[..i + 1][..i] == pages[..i];
  }

  /** A remove or an ordered read sees every upsert accepted before it, unless a
      mutation in between bears on the row. In particular a paused transfer that
      was not in the table is found again under the session it was sent with. */
  lemma LaterReadsSeeUpsert(
    t: Table, q: seq<Mutation>, pages: seq<set<string>>, i: nat, page: set<string>, session: string)
    requires i < |q| == |pages| && LegalPages(t, q, pages) && q[i].Upsert?
    requires var row := Find(FoldPaged(t, q[..i + 1], pages[..i + 1]), q[i].r.id);
             forall k :: i < k < |q| ==> !Touches(q[k], q[i].r.id, row)
    ensures var r, was, seen := q[i].r, Find(FoldPaged(t, q[..i], pages[..i]), q[i].r.id), Find(FoldPaged(t, q, pages), q[i].r.id);
            && Upserted(was, r, seen)
            && RepliesPaged(t, q + [Remove(r.id)], pages + [page]) == RepliesPaged(t, q, pages) + [Row(seen)]
            && RepliesPaged(t, q + [Resumable(r.id, session)], pages + [page]) ==
               RepliesPaged(t, q, pages) +
               [Row(if r.state == Paused && session == (if was.Some? then was.value.session else r.session) then seen else None)]
  {
    hide FoldPaged, RepliesPaged, LegalPages, Touches;
    UntouchedRow(t, q, pages, i + 1, q[i].r.id);
    UpsertLands(t, q, pages, i);
    hide Find;
    ReadReplies(t, q, pages, page, q[i].r.id, session);
  }

  /** What a remove and a resumable query answer after `q`. */
  lemma ReadReplies(t: Table, q: seq<Mutation>, pages: seq<set<string>>, page: set<string>, id: string, session: string)
    requires |q| == |pages|
    ensures var seen := Find(FoldPaged(t, q, pages), id);
            && RepliesPaged(t, q + [Remove(id)], pages + [page]) == RepliesPaged(t, q, pages) + [Row(seen)]
            && RepliesPaged(t, q + [Resumable(id, session)], pages + [page]) ==
               RepliesPaged(t, q, pages) +
               [Row(if seen.Some? && seen.value.session == session && seen.value.state == Paused then seen else None)]
  {
    hide FoldPaged, RepliesPaged, LegalPages;
    PagedSnoc(t, q, pages, Remove(id), page);
    PagedSnoc(t, q, pages, Resumable(id, session), page);
  }

  lemma StaysAbsent(t: Table, m: Mutation, page: set<string>, id: string)
    requires id !in t && !(m.Upsert? && m.r.id == id)
    ensures id !in ApplyPaged(t, m, page)
  {
  }

  /** A removed row stays absent until the row is upserted again: no upsert
      queued earlier can bring it back. */
  lemma {:induction false} RemovedStaysAbsent(t: Table, q: seq<Mutation>, pages: seq<set<string>>, i: nat, id: string)
    requires i < |q| == |pages| && q[i] == Remove(id)
    requires forall k :: i < k < |q| ==> !(q[k].Upsert? && q[k].r.id == id)
    ensures id !in FoldPaged(t, q, pages)
  {
    var k := |q| - 1;
    if i < k {
      hide ApplyPaged;
      RemovedStaysAbsent(t, q[..k], pages[..k], i, id);
      StaysAbsent(FoldPaged(t, q[..k], pages[..k]), q[k], pages[k], id);
    }
  }

  // ---------- the producing side ----------

  function Upserts(q: seq<Mutation>): nat {
    if q == [] then 0 else Upserts(q[..|q| - 1]) + if q[|q| - 1].Upsert? then 1 else 0
  }

  lemma {:induction false} UpsertsConcat(a: seq<Mutation>, b: seq<Mutation>)
    ensures Upserts(a + b) == Upserts(a) + Upserts(b)
  {
    if b == [] {
      assert a + b == a;
    } else {
      var k := |b| - 1;
      UpsertsConcat(a, b[..k]);
      assert (a + b)[..|a + b| - 1] == a + b[..k];
    }
  }

  lemma OnlyUpserts(m: Mutation)
    requires !m.Upsert?
    ensures Upserts([m]) == 0
  {
  }

  class TransferLedger {
    var queue: seq<Mutation>
    var dropped: nat
    ghost var offered: nat              // settled entries handed in
    ghost var received: seq<Mutation>   // what the consumer has taken, in order

    /** Every settled entry was dropped, or is queued, or has been received. */
    ghost predicate Valid()
      reads this
    {
      |queue| <= QUEUE_CAP && offered == Upserts(received) + Upserts(queue) + dropped
    }

    constructor ()
      ensures Valid() && queue == [] && dropped == 0 && offered == 0 && received == []
    {
      queue, dropped, offered, received := [], 0, 0, [];
    }

    /** Queues a settled entry, or drops and counts it when the queue is full.
        Entries that are not settled are refused. */
    method OnTerminal(entry: Record)
      requires Valid()
      modifies this
      ensures Valid() && received == old(received)
      ensures IsSettled(entry.state) <==> entry.state in {Paused, Done, Failed, Canceled}
      ensures !IsSettled(entry.state) ==> queue == old(queue) && dropped == old(dropped) && offered == old(offered)
      ensures IsSettled(entry.state) ==> offered == old(offered) + 1
      ensures IsSettled(entry.state) && |old(queue)| < 4096 ==>
                queue == old(queue) + [Upsert(entry)] && dropped == old(dropped)
      ensures IsSettled(entry.state) && |old(queue)| == 4096 ==>
                queue == old(queue) && dropped == old(dropped) + 1
    {
      if !IsSettled(entry.state) {
        return;
      }
      offered := offered + 1;
      if |queue| < QUEUE_CAP {
        UpsertsConcat(queue, [Upsert(entry)]);
        queue := queue + [Upsert(entry)];
      } else {
        dropped := dropped + 1;
      }
    }

    /** A reliable mutation waits for room while the consumer takes messages, so
        it is never dropped and never overtakes what was queued before it. */
    method SendReliable(m: Mutation)
      requires Valid() && !m.Upsert?
      modifies this
      ensures Valid() && dropped == old(dropped) && offered == old(offered)
      ensures received + queue == old(received) + old(queue) + [m]
      ensures queue != [] && queue[|queue| - 1] == m
      ensures |old(queue)| < QUEUE_CAP ==> received == old(received)
    {
      hide Upserts;
      AwaitRoom();
      UpsertsConcat(queue, [m]);
      OnlyUpserts(m);
      queue := queue + [m];
    }

    method AwaitRoom()
      requires Valid()
      modifies this`queue, this`received
      ensures Valid() && |queue| < QUEUE_CAP && received + queue == old(received) + old(queue)
      ensures |old(queue)| < QUEUE_CAP ==> received == old(received) && queue == old(queue)
    {
      hide Upserts;
      while |queue| == QUEUE_CAP
        invariant Valid() && received + queue == old(received) + old(queue)
        invariant |old(queue)| < QUEUE_CAP ==> received == old(received) && queue == old(queue)
        decreases |queue|
      {
        var _ := Receive();
      }
    }

    /** The consumer takes the oldest message. */
    method Receive() returns (m: Mutation)
      requires Valid() && queue != []
      modifies this`queue, this`received
      ensures Valid() && old(queue) == [m] + queue && received == old(received) + [m]
    {
      m := queue[0];
      assert queue == [m] + queue[1..];
      UpsertsConcat([m], queue[1..]);
      UpsertsConcat(received, [m]);
      queue := queue[1..];
      received := received + [m];
    }
  }
}
