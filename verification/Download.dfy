/** The download side of `transfer.rs`: the serial copy, the pipelined copy that
    keeps many offset reads in flight, and the resume logic that strings any
    number of interrupted attempts together. The server, the pause and cancel
    flags and the local disk are a script; the order of completions is free. */
module Download {

  type Byte = bv8
  type Bytes = seq<Byte>

  /** Bytes per read request, and how many requests may be in flight. */
  const CHUNK: nat := 256 * 1024
  const READ_AHEAD_DEPTH: nat := 16

  /** A requested byte range `[at, at + len)`. */
  datatype Span = Span(at: nat, len: nat) {
    predicate Has(p: nat) { at <= p < at + len }
  }

  /** How a read request may end. */
  datatype Completion = Data(bytes: Bytes) | Empty | Error

  datatype Outcome =
    | Done
    | Interrupted(done: nat, total: nat)
    | RemoteError
    | LocalError

  /** What the server may answer to READ(at, len) for remote content `r`: some
      prefix of the range, an error, or nothing at all. A `stable` server sends
      nothing only beyond the end of the file. */
  predicate Answers(r: Bytes, stable: bool, q: Span, c: Completion) {
    match c
    case Data(d) => 1 <= |d| <= q.len && q.at + |d| <= |r| && d == r[q.at..q.at + |d|]
    case Empty => stable ==> q.at >= |r|
    case Error => true
  }

  /** Everything outside the copy, as a script: whether pause or cancel is seen in
      round n, whether write n fails and how much of it still lands, and what the
      server answers in round n. */
  datatype World = World(
    stops: nat -> bool, fails: nat -> bool, lands: nat -> nat, answer: (nat, Span) -> Completion)

  /** The server keeps to the protocol. */
  ghost predicate Honest(w: World, r: Bytes, stable: bool) {
    forall n, q :: Answers(r, stable, q, w.answer(n, q))
  }

  /** An outcome other than Done has its reason in the script. */
  ghost predicate HasReason(w: World, out: Outcome) {
    match out
    case Done => true
    case Interrupted(_, _) => exists n :: w.stops(n)
    case RemoteError => exists n: nat, q: Span :: q.len > 0 && w.answer(n, q).Error?
    case LocalError => exists n :: w.fails(n)
  }

  // ---------- who holds each requested byte ----------

  /** Where a requested range is: in flight, waiting to be asked for again,
      buffered, or answered empty. */
  datatype Place = Flying | Missing | Held | Lost
  datatype Tag = Tag(span: Span, place: Place)

  /** A map with one tag per byte is a partition of its domain into spans. */
  type Owner = map<nat, Tag>

  /** The loop state of `pipelined_body`: next offset to request, end of the
      written prefix, requests in flight, short-read tails to re-request, data
      that arrived out of order, and whether an empty read was seen. */
  datatype Pipe = Pipe(
    next: nat, writeAt: nat, inFlight: set<Span>, missing: seq<Span>, reorder: map<nat, Bytes>, eof: bool)

  /** Every non-empty span of `s` owns exactly its own bytes, in `place`. */
  ghost predicate Owns(s: set<Span>, place: Place, own: Owner) {
    && (forall q :: q in s ==> 0 < q.len)
    && (forall q, x: nat :: q in s && q.Has(x) ==> x in own && own[x] == Tag(q, place))
    && (forall x: nat :: x in own && own[x].place == place ==> own[x].span in s && own[x].span.Has(x))
  }

  ghost function Spans(m: map<nat, Bytes>): set<Span> {
    set k | k in m :: Span(k, |m[k]|)
  }

  ghost function Members(q: seq<Span>): set<Span> {
    set x | x in q
  }

  ghost predicate NoRepeats(q: seq<Span>) {
    forall i, j :: 0 <= i < j < |q| ==> q[i] != q[j]
  }

  ghost predicate Faithful(r: Bytes, reorder: map<nat, Bytes>) {
    forall k :: k in reorder ==> k + |reorder[k]| <= |r| && reorder[k] == r[k..k + |reorder[k]|]
  }

  ghost predicate Spanning(own: Owner, lo: nat, hi: nat) {
    forall x: nat :: x in own <==> lo <= x < hi
  }

  ghost predicate NoneLost(own: Owner) {
    forall x: nat :: x in own ==> own[x].place != Lost
  }

  /** In-flight, missing and buffered ranges partition `[writeAt, next)`; a
      range can be lost only once an empty read has been seen. */
  ghost predicate Inv(r: Bytes, offset: nat, total: nat, p: Pipe, own: Owner) {
    && offset <= p.writeAt <= p.next <= total
    && (p.writeAt == offset || p.writeAt <= |r|)
    && Spanning(own, p.writeAt, p.next)
    && Owns(p.inFlight, Flying, own)
    && Owns(Members(p.missing), Missing, own)
    && Owns(Spans(p.reorder), Held, own)
    && NoRepeats(p.missing)
    && (!p.eof ==> NoneLost(own))
    && Faithful(r, p.reorder)
    && |p.inFlight| <= READ_AHEAD_DEPTH
  }

  /** Gives the bytes of `q` to `to`. */
  ghost function Retag(own: Owner, q: Span, to: Tag): Owner {
    map x | x in own :: if q.Has(x) then to else own[x]
  }

  /** Moving a span to another place. */
  lemma MoveSpan(s: set<Span>, a: Place, t: set<Span>, b: Place, own: Owner, q: Span)
    requires Owns(s, a, own) && Owns(t, b, own) && q in s && a != b
    ensures q !in t
    ensures Owns(s - {q}, a, Retag(own, q, Tag(q, b)))
    ensures Owns(t + {q}, b, Retag(own, q, Tag(q, b)))
  {
    assert q.Has(q.at);
  }

  lemma KeepSpans(t: set<Span>, c: Place, s: set<Span>, a: Place, own: Owner, q: Span, to: Tag)
    requires Owns(t, c, own) && Owns(s, a, own) && q in s && c != a && c != to.place
    ensures Owns(t, c, Retag(own, q, to))
  {
  }

  /** Cutting a span in two where it is. */
  lemma CutSpan(s: set<Span>, a: Place, own: Owner, q: Span, got: nat)
    requires Owns(s, a, own) && q in s && 1 <= got < q.len
    ensures var h, t := Span(q.at, got), Span(q.at + got, q.len - got);
            h !in s && t !in s && Owns(s - {q} + {h, t}, a, Retag(Retag(own, h, Tag(h, a)), t, Tag(t, a)))
  {
    var h, t := Span(q.at, got), Span(q.at + got, q.len - got);
    assert h.Has(h.at) && t.Has(t.at);
    forall x: nat | h.Has(x) || t.Has(x) ensures q.Has(x) {}
    forall x: nat | q.Has(x) ensures h.Has(x) || t.Has(x) {}
  }

  lemma CutElsewhere(t: set<Span>, c: Place, s: set<Span>, a: Place, own: Owner, q: Span, got: nat)
    requires Owns(t, c, own) && Owns(s, a, own) && q in s && c != a && 1 <= got < q.len
    ensures var h, u := Span(q.at, got), Span(q.at + got, q.len - got);
            Owns(t, c, Retag(Retag(own, h, Tag(h, a)), u, Tag(u, a)))
  {
    var h, u := Span(q.at, got), Span(q.at + got, q.len - got);
    forall x: nat | h.Has(x) || u.Has(x) ensures q.Has(x) {}
  }

  lemma SpansInsert(m: map<nat, Bytes>, k: nat, d: Bytes)
    requires k !in m
    ensures Spans(m[k := d]) == Spans(m) + {Span(k, |d|)}
  {
    var n := m[k := d];
    assert forall j :: j in m ==> j in n && n[j] == m[j];
    assert k in n && n[k] == d;
    forall x | x in Spans(m) + {Span(k, |d|)} ensures x in Spans(n) {
      assert x.at in n && x == Span(x.at, |n[x.at]|);
    }
  }

  lemma SpansRemove(m: map<nat, Bytes>, k: nat)
    requires k in m
    ensures Spans(m - {k}) == Spans(m) - {Span(k, |m[k]|)}
  {
    var n := m - {k};
    forall x | x in Spans(m) - {Span(k, |m[k]|)} ensures x in Spans(n) {
      assert x.at in n && x == Span(x.at, |n[x.at]|);
    }
  }

  lemma MembersAppend(q: seq<Span>, x: Span)
    requires x !in Members(q) && NoRepeats(q)
    ensures Members(q + [x]) == Members(q) + {x} && NoRepeats(q + [x])
  {
  }

  lemma MembersPop(q: seq<Span>)
    requires q != [] && NoRepeats(q)
    ensures Members(q[1..]) == Members(q) - {q[0]} && NoRepeats(q[1..])
  {
    assert forall x :: x in q <==> x == q[0] || x in q[1..];
  }

  ghost predicate Holds(s: set<Span>, x: nat) {
    exists q :: q in s && q.Has(x)
  }

  /** What the invariant says in the source's terms: before any empty read,
      each requested and unwritten byte is in flight, missing or buffered,
      never in two of those and never in two ranges of one. */
  lemma EachByteHeldOnce(r: Bytes, offset: nat, total: nat, p: Pipe, own: Owner, x: nat)
    requires Inv(r, offset, total, p, own) && !p.eof && p.writeAt <= x < p.next
    ensures Holds(p.inFlight, x) || Holds(Members(p.missing), x) || Holds(Spans(p.reorder), x)
    ensures !(Holds(p.inFlight, x) && Holds(Members(p.missing), x))
    ensures !(Holds(p.inFlight, x) && Holds(Spans(p.reorder), x))
    ensures !(Holds(Members(p.missing), x) && Holds(Spans(p.reorder), x))
    ensures var all := p.inFlight + Members(p.missing) + Spans(p.reorder);
            forall a, b | a in all && b in all && a.Has(x) && b.Has(x) :: a == b
  {
    assert x in own && own[x].span.Has(x);
  }

  // ---------- the pipeline ----------

  /** Bytes of the file neither written nor buffered. */
  ghost function Unread(total: nat, p: Pipe): set<nat> {
    set x: nat | p.writeAt <= x < total && !Buffered(p.reorder, x)
  }

  ghost predicate Buffered(reorder: map<nat, Bytes>, x: nat) {
    exists q :: q in Spans(reorder) && q.Has(x)
  }

  function Resend(p: Pipe): Pipe
    requires p.missing != []
  {
    p.(inFlight := p.inFlight + {p.missing[0]}, missing := p.missing[1..])
  }

  lemma ResendKeeps(r: Bytes, offset: nat, total: nat, p: Pipe, own: Owner)
    requires Inv(r, offset, total, p, own) && p.missing != [] && |p.inFlight| < READ_AHEAD_DEPTH
    ensures |Resend(p).inFlight| == |p.inFlight| + 1
    ensures Inv(r, offset, total, Resend(p), Retag(own, p.missing[0], Tag(p.missing[0], Flying)))
  {
    var q := p.missing[0];
    MembersPop(p.missing);
    MoveSpan(Members(p.missing), Missing, p.inFlight, Flying, own, q);
    KeepSpans(Spans(p.reorder), Held, Members(p.missing), Missing, own, q, Tag(q, Flying));
  }

  function Request(p: Pipe, len: nat): Pipe {
    p.(inFlight := p.inFlight + {Span(p.next, len)}, next := p.next + len)
  }

  ghost function Extend(own: Owner, q: Span): Owner {
    own + map x: nat | x < q.at + q.len && q.Has(x) :: Tag(q, Flying)
  }

  lemma ExtendOwns(s: set<Span>, a: Place, own: Owner, q: Span)
    requires Owns(s, a, own) && 0 < q.len
    requires forall x: nat :: q.Has(x) ==> x !in own
    ensures a != Flying ==> Owns(s, a, Extend(own, q))
    ensures a == Flying ==> q !in s && Owns(s + {q}, a, Extend(own, q))
  {
    assert q.Has(q.at);
  }

  lemma RequestKeeps(r: Bytes, offset: nat, total: nat, p: Pipe, len: nat, own: Owner)
    requires Inv(r, offset, total, p, own) && |p.inFlight| < READ_AHEAD_DEPTH
    requires 0 < len && p.next + len <= total
    ensures |Request(p, len).inFlight| == |p.inFlight| + 1
    ensures Inv(r, offset, total, Request(p, len), Extend(own, Span(p.next, len)))
  {
    var q := Span(p.next, len);
    ExtendOwns(p.inFlight, Flying, own, q);
    ExtendOwns(Members(p.missing), Missing, own, q);
    ExtendOwns(Spans(p.reorder), Held, own, q);
  }

  /** Refills the window: re-requests first, then new ranges. */
  method FillWindow(r: Bytes, offset: nat, total: nat, before: Pipe, ghost owner: Owner)
    returns (p: Pipe, ghost own: Owner)
    requires Inv(r, offset, total, before, owner)
    ensures Inv(r, offset, total, p, own)
    ensures p.writeAt == before.writeAt && p.reorder == before.reorder && p.eof == before.eof
    ensures before.eof ==> p == before
    ensures p.inFlight == {} && !p.eof ==> p.next == total && p.missing == []
    // the window is filled as far as it goes, with requests of at most a block
    ensures |p.inFlight| <= 16 && (!p.eof ==> |p.inFlight| == 16 || (p.next == total && p.missing == []))
    ensures forall q :: q in p.inFlight - before.inFlight ==> q in before.missing || q.len <= 256 * 1024
  {
    p, own := before, owner;
    while !p.eof && |p.inFlight| < READ_AHEAD_DEPTH
      invariant Inv(r, offset, total, p, own)
      invariant p.writeAt == before.writeAt && p.reorder == before.reorder && p.eof == before.eof
      invariant before.eof ==> p == before
      invariant forall q :: q in p.missing ==> q in before.missing
      invariant forall q :: q in p.inFlight - before.inFlight ==> q in before.missing || q.len <= CHUNK
      decreases READ_AHEAD_DEPTH - |p.inFlight|
    {
      if p.missing != [] {
        ResendKeeps(r, offset, total, p, own);
        own := Retag(own, p.missing[0], Tag(p.missing[0], Flying));
        p := Resend(p);
      } else if p.next < total {
        var len := if total - p.next < CHUNK then total - p.next else CHUNK;
        RequestKeeps(r, offset, total, p, len, own);
        own := Extend(own, Span(p.next, len));
        p := Request(p, len);
      } else {
        break;
      }
    }
  }

  /** Buffers the data of request `q`, re-queueing the tail of a short read. */
  function Accept(p: Pipe, q: Span, d: Bytes): Pipe {
    p.(inFlight := p.inFlight - {q},
       reorder := p.reorder[q.at := d],
       missing := if |d| < q.len then p.missing + [Span(q.at + |d|, q.len - |d|)] else p.missing)
  }

  ghost function AcceptOwner(own: Owner, q: Span, got: nat): Owner {
    if got < q.len then
      var h, t := Span(q.at, got), Span(q.at + got, q.len - got);
      var cut := Retag(Retag(own, h, Tag(h, Flying)), t, Tag(t, Flying));
      Retag(Retag(cut, h, Tag(h, Held)), t, Tag(t, Missing))
    else Retag(own, q, Tag(q, Held))
  }

  /** The ownership part of `Accept` for a short read, on the collections as
      sets: cut the request, move the head, then move the tail. */
  lemma ShortOwns(fly: set<Span>, miss: set<Span>, held: set<Span>, own: Owner, q: Span, got: nat)
    requires Owns(fly, Flying, own) && Owns(miss, Missing, own) && Owns(held, Held, own)
    requires q in fly && 1 <= got < q.len
    ensures var h, t, own' := Span(q.at, got), Span(q.at + got, q.len - got), AcceptOwner(own, q, got);
            && Owns(fly - {q}, Flying, own')
            && Owns(held + {h}, Held, own')
            && Owns(miss + {t}, Missing, own')
            && t !in miss
  {
    hide Owns, Retag;
    var h, t := Span(q.at, got), Span(q.at + got, q.len - got);
    var cut := Retag(Retag(own, h, Tag(h, Flying)), t, Tag(t, Flying));
    CutSpan(fly, Flying, own, q, got);
    CutElsewhere(miss, Missing, fly, Flying, own, q, got);
    CutElsewhere(held, Held, fly, Flying, own, q, got);
    var fly' := fly - {q} + {h, t};
    assert fly' - {h} - {t} == fly - {q};
    HeadThenTail(fly', miss, held, cut, h, t);
  }

  lemma HeadThenTail(fly: set<Span>, miss: set<Span>, held: set<Span>, own: Owner, h: Span, t: Span)
    requires Owns(fly, Flying, own) && Owns(miss, Missing, own) && Owns(held, Held, own)
    requires h in fly && t in fly && h != t
    ensures var own' := Retag(Retag(own, h, Tag(h, Held)), t, Tag(t, Missing));
            && Owns(fly - {h} - {t}, Flying, own')
            && Owns(held + {h}, Held, own')
            && Owns(miss + {t}, Missing, own')
            && t !in miss
  {
    var mid := Retag(own, h, Tag(h, Held));
    MoveSpan(fly, Flying, held, Held, own, h);
    KeepSpans(miss, Missing, fly, Flying, own, h, Tag(h, Held));
    MoveSpan(fly - {h}, Flying, miss, Missing, mid, t);
    KeepSpans(held + {h}, Held, fly - {h}, Flying, mid, t, Tag(t, Missing));
  }

  lemma FullOwns(fly: set<Span>, miss: set<Span>, held: set<Span>, own: Owner, q: Span)
    requires Owns(fly, Flying, own) && Owns(miss, Missing, own) && Owns(held, Held, own) && q in fly
    ensures var own' := AcceptOwner(own, q, q.len);
            Owns(fly - {q}, Flying, own') && Owns(held + {q}, Held, own') && Owns(miss, Missing, own')
  {
    hide Owns, Retag;
    MoveSpan(fly, Flying, held, Held, own, q);
    KeepSpans(miss, Missing, fly, Flying, own, q, Tag(q, Held));
  }

  lemma AcceptDomain(own: Owner, q: Span, got: nat, lo: nat, hi: nat)
    requires 1 <= got <= q.len && Spanning(own, lo, hi)
    ensures Spanning(AcceptOwner(own, q, got), lo, hi)
    ensures NoneLost(own) ==> NoneLost(AcceptOwner(own, q, got))
  {
  }

  lemma AcceptFaithful(r: Bytes, m: map<nat, Bytes>, at: nat, d: Bytes)
    requires Faithful(r, m) && at + |d| <= |r| && d == r[at..at + |d|]
    ensures Faithful(r, m[at := d])
  {
  }

  lemma AcceptKeeps(r: Bytes, offset: nat, total: nat, p: Pipe, q: Span, d: Bytes, own: Owner)
    requires Inv(r, offset, total, p, own) && q in p.inFlight
    requires 1 <= |d| <= q.len && q.at + |d| <= |r| && d == r[q.at..q.at + |d|]
    ensures Inv(r, offset, total, Accept(p, q, d), AcceptOwner(own, q, |d|))
  {
    hide Owns, AcceptOwner, NoneLost, Buffered, Spanning, Faithful, NoRepeats, Members, Spans;
    AcceptFaithful(r, p.reorder, q.at, d);
    AcceptDomain(own, q, |d|, p.writeAt, p.next);
    KeyIsFree(p, q, own);
    SpansInsert(p.reorder, q.at, d);
    if |d| < q.len {
      ShortOwns(p.inFlight, Members(p.missing), Spans(p.reorder), own, q, |d|);
      MembersAppend(p.missing, Span(q.at + |d|, q.len - |d|));
    } else {
      FullOwns(p.inFlight, Members(p.missing), Spans(p.reorder), own, q);
    }
    assert |p.inFlight - {q}| <= |p.inFlight|;
  }

  /** A completion never overwrites buffered data. */
  lemma KeyIsFree(p: Pipe, q: Span, own: Owner)
    requires Owns(p.inFlight, Flying, own) && Owns(Spans(p.reorder), Held, own) && q in p.inFlight
    ensures q.at !in p.reorder
    ensures !Buffered(p.reorder, q.at)
  {
    assert q.Has(q.at);
    if q.at in p.reorder {
      var x := Span(q.at, |p.reorder[q.at]|);
      assert x in Spans(p.reorder);
      assert x.Has(q.at);
    }
  }

  lemma AcceptReads(r: Bytes, offset: nat, total: nat, p: Pipe, q: Span, d: Bytes, own: Owner)
    requires Inv(r, offset, total, p, own) && q in p.inFlight && 1 <= |d| <= q.len
    ensures Unread(total, Accept(p, q, d)) < Unread(total, p)
  {
    var n := Accept(p, q, d);
    KeyIsFree(p, q, own);
    SpansInsert(p.reorder, q.at, d);
    assert Unread(total, n) <= Unread(total, p);
    assert Span(q.at, |d|) in Spans(n.reorder) && Span(q.at, |d|).Has(q.at);
    assert q.at !in Unread(total, n);
    assert q.Has(q.at);
    assert q.at in Unread(total, p);
  }

  /** The buffered block at `writeAt` is the next part of the remote file. */
  ghost predicate Block(r: Bytes, offset: nat, total: nat, p: Pipe)
    requires p.writeAt in p.reorder
  {
    var d := p.reorder[p.writeAt];
    offset <= p.writeAt && 0 < |d| && p.writeAt + |d| <= total && p.writeAt + |d| <= |r| &&
    d == r[p.writeAt..p.writeAt + |d|]
  }

  function Advance(p: Pipe): Pipe
    requires p.writeAt in p.reorder
  {
    p.(writeAt := p.writeAt + |p.reorder[p.writeAt]|, reorder := p.reorder - {p.writeAt})
  }

  ghost function Forget(own: Owner, hi: nat): Owner {
    map x | x in own && hi <= x :: own[x]
  }

  /** Dropping the owned bytes of the first span from the bottom of the range. */
  lemma ForgetOwns(s: set<Span>, a: Place, held: set<Span>, own: Owner, q: Span, hi: nat)
    requires Owns(s, a, own) && Owns(held, Held, own) && q in held
    requires Spanning(own, q.at, hi)
    ensures a == Held && s == held ==> Owns(s - {q}, a, Forget(own, q.at + q.len))
    ensures a != Held ==> Owns(s, a, Forget(own, q.at + q.len))
    ensures 0 < q.len && q.at + q.len <= hi
    ensures Spanning(Forget(own, q.at + q.len), q.at + q.len, hi)
  {
    assert q.Has(q.at) && q.Has(q.at + q.len - 1);
    forall y, x: nat | y in s && y.Has(x) ensures y == q || x in Forget(own, q.at + q.len) {
      assert own[x] == Tag(y, a);
      assert q.Has(x) ==> own[x] == Tag(q, Held);
    }
  }

  /** Writing the block at `writeAt` moves the prefix on by its length. */
  lemma AdvanceKeeps(r: Bytes, offset: nat, total: nat, p: Pipe, own: Owner)
    requires Inv(r, offset, total, p, own) && p.writeAt in p.reorder
    ensures Block(r, offset, total, p)
    ensures Inv(r, offset, total, Advance(p), Forget(own, p.writeAt + |p.reorder[p.writeAt]|))
    ensures Unread(total, Advance(p)) <= Unread(total, p)
  {
    hide Owns;
    var q := Span(p.writeAt, |p.reorder[p.writeAt]|);
    assert q in Spans(p.reorder);
    SpansRemove(p.reorder, p.writeAt);
    ForgetOwns(p.inFlight, Flying, Spans(p.reorder), own, q, p.next);
    ForgetOwns(Members(p.missing), Missing, Spans(p.reorder), own, q, p.next);
    ForgetOwns(Spans(p.reorder), Held, Spans(p.reorder), own, q, p.next);
    forall x | x in Unread(total, Advance(p)) ensures x in Unread(total, p) {
      forall y | y in Spans(p.reorder) ensures !y.Has(x) {
        assert y == q || y in Spans(p.reorder) - {q};
      }
    }
  }

  function Lose(p: Pipe, q: Span): Pipe {
    p.(inFlight := p.inFlight - {q}, eof := true)
  }

  lemma LoseOwns(s: set<Span>, a: Place, fly: set<Span>, own: Owner, q: Span)
    requires Owns(s, a, own) && Owns(fly, Flying, own) && q in fly && a != Lost
    ensures a == Flying && s == fly ==> Owns(s - {q}, a, Retag(own, q, Tag(q, Lost)))
    ensures a != Flying ==> Owns(s, a, Retag(own, q, Tag(q, Lost)))
  {
  }

  /** An empty read gives up its range and stops new requests. */
  lemma LoseKeeps(r: Bytes, offset: nat, total: nat, p: Pipe, q: Span, own: Owner)
    requires Inv(r, offset, total, p, own) && q in p.inFlight
    ensures Inv(r, offset, total, Lose(p, q), Retag(own, q, Tag(q, Lost)))
  {
    hide Owns, Faithful, NoRepeats;
    LoseOwns(p.inFlight, Flying, p.inFlight, own, q);
    LoseOwns(Members(p.missing), Missing, p.inFlight, own, q);
    LoseOwns(Spans(p.reorder), Held, p.inFlight, own, q);
    assert |p.inFlight - {q}| <= |p.inFlight|;
  }

  lemma KeysAbove(m: map<nat, Bytes>, own: Owner, lo: nat, hi: nat)
    requires Owns(Spans(m), Held, own) && Spanning(own, lo, hi)
    ensures forall k :: k in m ==> lo <= k
  {
    forall k | k in m ensures lo <= k {
      var q := Span(k, |m[k]|);
      assert q in Spans(m) && q.Has(k);
    }
  }

  /** With nothing in flight, missing or lost, everything requested is written. */
  lemma AllWritten(r: Bytes, offset: nat, total: nat, p: Pipe, own: Owner)
    requires Inv(r, offset, total, p, own)
    requires p.inFlight == {} && p.missing == [] && !p.eof && p.writeAt !in p.reorder
    ensures p.writeAt == p.next && p.reorder == map[]
  {
    KeysAbove(p.reorder, own, p.writeAt, p.next);
    assert p.writeAt < p.next ==>
        p.writeAt in own && own[p.writeAt].place == Held && own[p.writeAt].span.at in p.reorder;
    forall k | k in p.reorder ensures false {
      var q := Span(k, |p.reorder[k]|);
      assert q in Spans(p.reorder) && q.Has(k);
    }
  }

  lemma InvBounds(r: Bytes, offset: nat, total: nat, p: Pipe, own: Owner)
    requires Inv(r, offset, total, p, own)
    ensures offset <= p.writeAt <= p.next <= total && (p.writeAt == offset || p.writeAt <= |r|)
    ensures p.writeAt in p.reorder ==> FirstKeyIs(p.reorder, p.writeAt)
  {
    KeysAbove(p.reorder, own, p.writeAt, p.next);
  }

  /** `r[lo..hi]`, or nothing when the range is empty or out of bounds. */
  function Range(r: Bytes, lo: nat, hi: nat): Bytes {
    if lo <= hi <= |r| then r[lo..hi] else []
  }

  lemma RangeGrows(r: Bytes, lo: nat, hi: nat, d: Bytes)
    requires lo <= hi && (lo == hi || hi <= |r|) && hi + |d| <= |r| && d == r[hi..hi + |d|]
    ensures Range(r, lo, hi) + d == Range(r, lo, hi + |d|)
  {
  }

  /** `BTreeMap::first_key_value` is at key `k`. */
  predicate FirstKeyIs(m: map<nat, Bytes>, k: nat) {
    k in m && forall j :: j in m ==> k <= j
  }

  /** Writes the buffered data that continues the written prefix. A failing
      write may still have put part of its block on disk. */
  method Drain(
    r: Bytes, offset: nat, total: nat, w: World, count: nat, before: Pipe, written: Bytes, ghost owner: Owner)
    returns (p: Pipe, file: Bytes, ok: bool, end: nat, writes: nat, ghost own: Owner)
    requires Inv(r, offset, total, before, owner)
    requires written == Range(r, offset, before.writeAt)
    ensures Inv(r, offset, total, p, own)
    ensures p == before.(writeAt := p.writeAt, reorder := p.reorder) && before.writeAt <= p.writeAt
    ensures Unread(total, p) <= Unread(total, before)
    ensures p.writeAt <= end <= total && (end == offset || end <= |r|) && file == Range(r, offset, end)
    ensures ok ==> end == p.writeAt && p.writeAt !in p.reorder
    ensures !ok ==> exists n :: w.fails(n)
  {
    hide Inv, Unread, Range, Forget;
    InvBounds(r, offset, total, before, owner);
    p, file, own, end, ok, writes := before, written, owner, before.writeAt, true, count;
    while FirstKeyIs(p.reorder, p.writeAt)
      invariant Inv(r, offset, total, p, own)
      invariant p == before.(writeAt := p.writeAt, reorder := p.reorder) && before.writeAt <= p.writeAt
      invariant Unread(total, p) <= Unread(total, before)
      invariant offset <= end == p.writeAt <= total && (end == offset || end <= |r|)
      invariant file == Range(r, offset, end)
      decreases p.reorder.Keys
    {
      var d := p.reorder[p.writeAt];
      AdvanceKeeps(r, offset, total, p, own);
      RangeGrows(r, offset, p.writeAt, d);
      if w.fails(writes) {
        var k := if w.lands(writes) < |d| then w.lands(writes) else |d|;
        RangeGrows(r, offset, p.writeAt, d[..k]);
        file, end, ok := file + d[..k], p.writeAt + k, false;
        return;
      }
      file := file + d;
      own := Forget(own, p.writeAt + |d|);
      p := Advance(p);
      end := p.writeAt;
      writes := writes + 1;
    }
    InvBounds(r, offset, total, p, own);
  }

  lemma EmptyPipe(r: Bytes, offset: nat, total: nat)
    requires offset <= total
    ensures Inv(r, offset, total, Pipe(offset, offset, {}, [], map[], false), map[])
  {
  }

  /** Every in-flight request lies inside the file as it was sized. */
  lemma RequestInside(r: Bytes, offset: nat, total: nat, p: Pipe, own: Owner, q: Span)
    requires Inv(r, offset, total, p, own) && q in p.inFlight
    ensures q.at + q.len <= total && 0 < q.len
  {
    assert q.Has(q.at + q.len - 1);
  }

  /** The pipelined copy. `end` is where the local file ends, `bytesDone` the
      progress counter, `sawEmpty` whether any read came back empty. */
  method PipelinedBody(r: Bytes, stable: bool, offset: nat, total: nat, w: World)
    returns (out: Outcome, file: Bytes, end: nat, bytesDone: nat, sawEmpty: bool)
    requires offset <= total && Honest(w, r, stable)
    // whatever happens, what was written is exactly the remote bytes from `offset`
    ensures offset <= end <= total && (end == offset || end <= |r|) && file == Range(r, offset, end)
    // the counter equals the written prefix, except after a failed local write
    ensures if out == LocalError then bytesDone <= end else bytesDone == end
    ensures out.Interrupted? ==> out == Interrupted(end, total)
    ensures out.Done? && !sawEmpty ==> end == total
    ensures stable && total <= |r| ==> !sawEmpty
    // short, full and empty answers in any order never make it give up
    ensures HasReason(w, out)
  {
    hide Inv, Unread, Spanning, Owns;
    var round: nat, writes: nat := 0, 0;
    EmptyPipe(r, offset, total);
    var p := Pipe(offset, offset, {}, [], map[], false);
    ghost var own: Owner := map[];
    file, bytesDone, sawEmpty, end := [], offset, false, offset;
    while true
      invariant Inv(r, offset, total, p, own)
      invariant offset <= p.writeAt == bytesDone == end <= total && (end == offset || end <= |r|)
      invariant p.writeAt !in p.reorder
      invariant file == Range(r, offset, end)
      invariant sawEmpty == p.eof
      invariant stable && total <= |r| ==> !sawEmpty
      decreases !p.eof, Unread(total, p), p.inFlight
    {
      ghost var unread := Unread(total, p);
      ghost var head := p;
      p, own := FillWindow(r, offset, total, p, own);
      assert Unread(total, p) == unread by { SameUnread(total, p, head); }
      if p.inFlight == {} {
        if !p.eof {
          AllWritten(r, offset, total, p, own);
        }
        out := Done;
        return;
      }
      if w.stops(round) {
        out := Interrupted(p.writeAt, total);
        return;
      }
      var q :| q in p.inFlight;
      var c := w.answer(round, q);
      assert Answers(r, stable, q, c);
      RequestInside(r, offset, total, p, own, q);
      round := round + 1;
      match c {
        case Empty =>
          assert Answers(r, stable, q, Empty);
          LoseKeeps(r, offset, total, p, q, own);
          own := Retag(own, q, Tag(q, Lost));
          ghost var flying := p.inFlight;
          p := Lose(p, q);
          assert Unread(total, p) == unread by { SameUnread(total, p, head); }
          assert p.inFlight < flying;
          sawEmpty := true;
          continue;
        case Error =>
          out := RemoteError;
          return;
        case Data(d) =>
          assert Answers(r, stable, q, Data(d));
          AcceptKeeps(r, offset, total, p, q, d, own);
          AcceptReads(r, offset, total, p, q, d, own);
          own := AcceptOwner(own, q, |d|);
          p := Accept(p, q, d);
      }
      var ok;
      p, file, ok, end, writes, own := Drain(r, offset, total, w, writes, p, file, own);
      InvBounds(r, offset, total, p, own);
      if !ok {
        out := LocalError;
        return;
      }
      bytesDone := p.writeAt;
      assert Unread(total, p) < unread;
    }
  }

  lemma SameUnread(total: nat, p: Pipe, q: Pipe)
    requires p.writeAt == q.writeAt && p.reorder == q.reorder
    ensures Unread(total, p) == Unread(total, q)
  {
  }

  // ---------- attempts and whole transfers ----------

  datatype Mode = Resume | Overwrite

  /** Where an attempt starts: the existing length, unless the target is longer
      than the source or is to be overwritten. */
  function ResumeOffset(targetLen: nat, sourceLen: nat, mode: Mode): nat {
    if mode == Overwrite || targetLen > sourceLen then 0 else targetLen
  }

  lemma SliceGrows(r: Bytes, lo: nat, hi: nat, d: Bytes)
    requires lo <= hi && hi + |d| <= |r| && d == r[hi..hi + |d|]
    ensures r[lo..hi] + d == r[lo..hi + |d|]
  {
  }

  /** The serial copy: reads from `offset` until a read returns nothing, which
      an honest source does exactly at the end of the file. */
  method SerialBody(r: Bytes, offset: nat, total: nat, w: World)
    returns (out: Outcome, file: Bytes, end: nat, bytesDone: nat)
    requires offset <= total == |r| && Honest(w, r, true)
    ensures offset <= end <= total && file == r[offset..end]
    ensures if out == LocalError then bytesDone <= end else bytesDone == end
    ensures out.Interrupted? ==> out == Interrupted(end, total)
    ensures out.Done? ==> end == total
    ensures HasReason(w, out)
  {
    file, end, bytesDone := [], offset, offset;
    var round := 0;
    while true
      invariant offset <= bytesDone == end <= total && file == r[offset..end]
      decreases total - end
    {
      if w.stops(round) {
        return Interrupted(bytesDone, total), file, end, bytesDone;
      }
      var c := w.answer(round, Span(end, CHUNK));
      assert Answers(r, true, Span(end, CHUNK), c);
      if c.Error? {
        return RemoteError, file, end, bytesDone;
      }
      if c.Empty? {
        return Done, file, end, bytesDone;
      }
      if w.fails(round) {
        var k := if w.lands(round) < |c.bytes| then w.lands(round) else |c.bytes|;
        SliceGrows(r, offset, end, c.bytes[..k]);
        return LocalError, file + c.bytes[..k], end + k, bytesDone;
      }
      SliceGrows(r, offset, end, c.bytes);
      file, end := file + c.bytes, end + |c.bytes|;
      bytesDone := bytesDone + |c.bytes|;
      round := round + 1;
    }
  }

  /** What an attempt meets: whether the local file can be opened, whether the
      session offers raw offset reads, whether the remote file can be opened, and
      whether the final flush fails. */
  datatype Attempt = Attempt(openFails: bool, raw: bool, remoteFails: bool, flushFails: bool, world: World)

  /** Nothing goes wrong and nobody interferes. */
  ghost predicate Smooth(a: Attempt) {
    && !a.openFails && !a.remoteFails && !a.flushFails
    && (forall n :: !a.world.stops(n)) && (forall n :: !a.world.fails(n))
    && (forall n: nat, q: Span :: q.len > 0 ==> !a.world.answer(n, q).Error?)
  }

  /** The answer of a server that always has a byte for a request inside the file. */
  function ByteByByte(r: Bytes): (nat, Span) -> Completion {
    (n: nat, q: Span) =>
      if q.at >= |r| then Empty else if q.len == 0 then Error else Data(r[q.at..q.at + 1])
  }

  /** Such attempts exist for every remote file, even with a server that only ever
      answers one byte at a time. */
  lemma SmoothExists(r: Bytes, raw: bool) returns (a: Attempt)
    ensures Smooth(a) && Honest(a.world, r, true)
  {
    a := Attempt(false, raw, false, false, World(n => false, n => false, n => 0, ByteByByte(r)));
  }

  /** One attempt. `touched` tells whether the destination was opened, hence
      truncated or continued; if not, the local file stays as it was. */
  method DownloadOnce(r: Bytes, local: Bytes, mode: Mode, a: Attempt)
    returns (out: Outcome, file: Bytes, touched: bool, bytesDone: nat)
    requires Honest(a.world, r, true)
    ensures touched <==> !a.openFails
    ensures !touched ==> file == local && !out.Done?
    ensures touched ==>
              var offset := ResumeOffset(|local|, |r|, mode);
              offset <= |file| <= |r| && file == (if offset == 0 then [] else local) + r[offset..|file|]
    ensures out.Done? ==> touched && |file| == |r|
    ensures touched && out != LocalError ==> bytesDone == |file|
    ensures out.Interrupted? ==> out == Interrupted(|file|, |r|)
    ensures Smooth(a) ==> out == Done
  {
    var total := |r|;
    var offset := ResumeOffset(|local|, total, mode);
    bytesDone := offset;
    file, touched := local, false;
    if a.openFails {
      return LocalError, file, touched, bytesDone;
    }
    touched := true;
    var base := if offset == 0 then [] else local;
    file := base;
    if a.remoteFails {
      return RemoteError, file, touched, bytesDone;
    }
    var more, end;
    if a.raw && total - offset > CHUNK {
      var sawEmpty;
      out, more, end, bytesDone, sawEmpty := PipelinedBody(r, true, offset, total, a.world);
    } else {
      out, more, end, bytesDone := SerialBody(r, offset, total, a.world);
    }
    file := base + more;
    if out.Done? && a.flushFails {
      out := LocalError;
    }
  }

  /** What a completed transfer is built on: nothing, or the bytes already there. */
  function Start(r: Bytes, local: Bytes, mode: Mode): Bytes {
    if mode == Overwrite || |local| > |r| then [] else local
  }

  /** The local file is the start followed by the matching part of the remote. */
  predicate Continues(r: Bytes, start: Bytes, file: Bytes) {
    |start| <= |file| <= |r| && file == start + r[|start|..|file|]
  }

  /** Any number of attempts, each started on what the previous one left, until
      one completes, which the first smooth one does if none did before. Before any attempt opens the file it is untouched; after
      that it always continues `Start`, and completion makes it full length. */
  method RunTransfer(r: Bytes, local: Bytes, mode: Mode, attempts: seq<Attempt>)
    returns (done: bool, file: Bytes)
    requires forall a :: a in attempts ==> Honest(a.world, r, true)
    ensures file == local || Continues(r, Start(r, local, mode), file)
    ensures done ==> file == Start(r, local, mode) + r[|Start(r, local, mode)|..]
    ensures (exists a :: a in attempts && Smooth(a)) ==> done
  {
    hide Honest;
    var start := Start(r, local, mode);
    file, done := local, false;
    for k := 0 to |attempts|
      invariant file == local || Continues(r, start, file)
      invariant !done && forall j :: 0 <= j < k ==> !Smooth(attempts[j])
    {
      assert attempts[k] in attempts;
      var out, next, touched, bytesDone := DownloadOnce(r, file, mode, attempts[k]);
      file := next;
      if touched {
        assert Continues(r, start, file);
      }
      if out.Done? {
        assert r[|start|..|r|] == r[|start|..];
        done := true;
        return;
      }
    }
  }

  /** A completed transfer leaves exactly the remote file if and only if it was
      told to overwrite, or the local file was too long, or was a prefix. */
  lemma CompletedIsRemoteIff(r: Bytes, local: Bytes, mode: Mode)
    ensures var start := Start(r, local, mode);
            start + r[|start|..] == r <==> mode == Overwrite || |local| > |r| || local <= r
  {
    var start := Start(r, local, mode);
    if start + r[|start|..] == r {
      assert r[..|start|] == start;
    }
    if start <= r {
      assert r[..|start|] == start;
      assert r[..|start|] + r[|start|..] == r;
    }
  }

  /** When the start is sound, every file an attempt leaves is a prefix of the
      remote, so it can itself be resumed. */
  lemma OpenedFilesArePrefixes(r: Bytes, local: Bytes, mode: Mode, file: Bytes)
    requires mode == Overwrite || |local| > |r| || local <= r
    requires Continues(r, Start(r, local, mode), file)
    ensures file <= r
  {
    var start := Start(r, local, mode);
    assert r[..|start|] == start;
    assert r[..|start|] + r[|start|..|file|] == r[..|file|];
  }
}
