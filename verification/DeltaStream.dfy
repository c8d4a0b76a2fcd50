/** The incremental event stream of `transfer_subscribe`: one snapshot, then on
    every tick the difference to the previous state, split into bounded frames.
    The subscriber applies events to a map and must end up with the full state. */
module DeltaStream {

  const MAX_EVENTS_PER_FRAME: nat := 256
  const MAX_FRAME_BYTES: nat := 256 * 1024
  const ENVELOPE: nat := 64

  datatype Kind = Transfer | Job
  datatype Change = Upsert(payload: string) | Remove

  datatype Event = Event(id: string, kind: Kind, change: Change, seqNo: nat)

  /** A live entity: its key ("t:" or "j:" and an id) and its serialised view. */
  datatype Entity = Entity(key: string, kind: Kind, payload: string)

  predicate IsJobKey(key: string) { |key| >= 2 && key[0] == 'j' && key[1] == ':' }
  function KindOf(key: string): Kind { if IsJobKey(key) then Job else Transfer }

  /** What one collection yields: distinct keys whose prefix tells the kind. */
  predicate Collected(cur: seq<Entity>) {
    && (forall i :: 0 <= i < |cur| ==> cur[i].kind == KindOf(cur[i].key))
    && (forall i, j :: 0 <= i < j < |cur| ==> cur[i].key != cur[j].key)
  }

  function MapOf(cur: seq<Entity>): map<string, string> {
    if cur == [] then map[] else MapOf(cur[..|cur| - 1])[cur[|cur| - 1].key := cur[|cur| - 1].payload]
  }

  // ---------- the subscriber ----------

  function ApplyEvent(m: map<string, string>, e: Event): map<string, string> {
    if e.change.Upsert? then m[e.id := e.change.payload] else m - {e.id}
  }

  function ApplyAll(m: map<string, string>, log: seq<Event>): map<string, string> {
    if log == [] then m else ApplyEvent(ApplyAll(m, log[..|log| - 1]), log[|log| - 1])
  }

  function CountOf(log: seq<Event>, id: string): nat {
    if log == [] then 0 else CountOf(log[..|log| - 1], id) + if log[|log| - 1].id == id then 1 else 0
  }

  /** The events of each id are numbered 1, 2, 3, ... in order. */
  ghost predicate WellNumbered(log: seq<Event>) {
    forall k :: 0 <= k < |log| ==> log[k].seqNo == CountOf(log[..k], log[k].id) + 1
  }

  lemma LogGrows(log: seq<Event>, e: Event)
    ensures ApplyAll(map[], log + [e]) == ApplyEvent(ApplyAll(map[], log), e)
    ensures forall id :: CountOf(log + [e], id) == CountOf(log, id) + if e.id == id then 1 else 0
    ensures WellNumbered(log) && e.seqNo == CountOf(log, e.id) + 1 ==> WellNumbered(log + [e])
  {
    var more := log + [e];
    assert more[..|log|] == log;
    if WellNumbered(log) && e.seqNo == CountOf(log, e.id) + 1 {
      forall k | 0 <= k < |more| ensures more[k].seqNo == CountOf(more[..k], more[k].id) + 1 {
        if k < |log| {
          assert more[..k] == log[..k];
        }
      }
    }
  }

  lemma {:induction false} ApplySplit(m: map<string, string>, a: seq<Event>, b: seq<Event>)
    ensures ApplyAll(m, a + b) == ApplyAll(ApplyAll(m, a), b)
  {
    if b == [] {
      assert a + b == a;
    } else {
      var k := |b| - 1;
      ApplySplit(m, a, b[..k]);
      assert (a + b)[..|a + b| - 1] == a + b[..k];
    }
  }

  // ---------- the publisher ----------

  lemma MapOfSnoc(cur: seq<Entity>, k: nat)
    requires k < |cur|
    ensures MapOf(cur[..k + 1]) == MapOf(cur[..k])[cur[k].key := cur[k].payload]
  {
    assert cur[..k + 1][..k] == cur[..k];
  }

  lemma {:induction false} MapOfKeys(cur: seq<Entity>)
    ensures forall x :: x in MapOf(cur) <==> exists i :: 0 <= i < |cur| && cur[i].key == x
  {
    if cur != [] {
      var k := |cur| - 1;
      MapOfKeys(cur[..k]);
      forall x | x in MapOf(cur) ensures exists i :: 0 <= i < |cur| && cur[i].key == x {
        if x != cur[k].key {
          assert x in MapOf(cur[..k]);
          var i :| 0 <= i < |cur[..k]| && cur[..k][i].key == x;
          assert cur[i].key == x;
        } else {
          assert cur[k].key == x;
        }
      }
      forall i | 0 <= i < |cur| ensures cur[i].key in MapOf(cur) {
        if i < k {
          assert cur[..k][i].key == cur[i].key;
        }
      }
    }
  }

  function Number(seqs: map<string, nat>, id: string): nat {
    if id in seqs then seqs[id] else 0
  }

  /** The subscriber's map is the publisher's `prev`, numbers have no gap, the
      number book knows how many events each id has had, kinds fit the keys. */
  ghost predicate Consistent(prev: map<string, string>, seqs: map<string, nat>, log: seq<Event>) {
    && ApplyAll(map[], log) == prev
    && WellNumbered(log)
    && (forall id :: CountOf(log, id) == Number(seqs, id))
    && (forall k :: 0 <= k < |log| ==> log[k].kind == KindOf(log[k].id))
  }

  lemma EmitConsistent(prev: map<string, string>, seqs: map<string, nat>, log: seq<Event>, e: Event)
    requires Consistent(prev, seqs, log) && e.kind == KindOf(e.id) && e.seqNo == Number(seqs, e.id) + 1
    ensures Consistent(ApplyEvent(prev, e), seqs[e.id := e.seqNo], log + [e])
  {
    LogGrows(log, e);
    forall id ensures CountOf(log + [e], id) == Number(seqs[e.id := e.seqNo], id) {
      assert CountOf(log, id) == Number(seqs, id);
    }
  }

  class Subscription {
    var prev: map<string, string>
    var seqs: map<string, nat>
    ghost var log: seq<Event>  // everything emitted so far, in order

    ghost predicate Valid()
      reads this
    {
      Consistent(prev, seqs, log)
    }

    constructor ()
      ensures Valid() && log == [] && prev == map[]
    {
      prev, seqs, log := map[], map[], [];
    }

    /** Makes one event with the next number of its id and records it. */
    method Emit(id: string, change: Change) returns (e: Event)
      requires Valid()
      modifies this
      ensures Valid()
      ensures e.id == id && e.kind == KindOf(id) && e.change == change
      ensures log == old(log) + [e] && prev == ApplyEvent(old(prev), e)
    {
      hide Consistent;
      var n := Number(seqs, id) + 1;
      e := Event(id, KindOf(id), change, n);
      EmitConsistent(prev, seqs, log, e);
      seqs := seqs[id := n];
      prev := if change.Upsert? then prev[id := change.payload] else prev - {id};
      log := log + [e];
    }

    /** The first collection: every entity is new, so each gets number 1. */
    method Snapshot(cur: seq<Entity>) returns (events: seq<Event>)
      requires Valid() && log == [] && prev == map[] && Collected(cur)
      modifies this
      ensures Valid() && log == events && prev == MapOf(cur)
    {
      hide Consistent;
      events := [];
      for k := 0 to |cur|
        invariant Valid() && log == events && prev == MapOf(cur[..k])
      {
        var e := Emit(cur[k].key, Upsert(cur[k].payload));
        events := events + [e];
        MapOfSnoc(cur, k);
      }
      assert cur[..|cur|] == cur;
    }

    /** One tick: upserts for new and changed entities, then removals for those
        that disappeared. Nothing is emitted exactly when nothing changed. */
    method Tick(cur: seq<Entity>) returns (batch: seq<Event>)
      requires Valid() && Collected(cur)
      modifies this
      ensures Valid()
      ensures log == old(log) + batch
      ensures prev == MapOf(cur)
      ensures exists k :: 0 <= k <= |batch| && Upserts(batch[..k], Differing(old(prev), cur)) &&
                          Removes(batch[k..], old(prev).Keys - MapOf(cur).Keys)
      ensures batch == [] <==> old(prev) == MapOf(cur)
    {
      hide Consistent, MapOf, Upserts, Removes, Differing;
      var changed := Changed(cur);
      var gone := Vanished(cur);
      batch := changed + gone;
      TickParts(old(prev), cur, changed, gone);
    }

    /** Upserts for exactly the entities that are new or differ from what was last
        sent, in the order they were collected. */
    method Changed(cur: seq<Entity>) returns (batch: seq<Event>)
      requires Valid() && Collected(cur)
      modifies this
      ensures Valid() && log == old(log) + batch
      ensures prev == old(prev) + MapOf(cur)
      ensures Upserts(batch, Differing(old(prev), cur))
    {
      hide Consistent, MapOf, Upserts, ApplyEvent, Differing;
      MapOfEmpty();
      NoUpserts(old(prev));
      batch := [];
      for k := 0 to |cur|
        invariant Valid() && log == old(log) + batch
        invariant prev == old(prev) + MapOf(cur[..k])
        invariant Upserts(batch, Differing(old(prev), cur[..k]))
      {
        MapOfSnoc(cur, k);
        DifferingSnoc(old(prev), cur, k);
        NotYetSent(cur, k);
        var x := cur[k];
        Overlay(old(prev), MapOf(cur[..k]), x.key, x.payload);
        if !(x.key in prev && prev[x.key] == x.payload) {
          var e := Emit(x.key, Upsert(x.payload));
          UpsertsSnoc(batch, Differing(old(prev), cur[..k]), e, x);
          batch := batch + [e];
        }
      }
      assert cur[..|cur|] == cur;
    }

    /** One removal, in any order, for exactly each key that is no longer there. */
    method Vanished(cur: seq<Entity>) returns (batch: seq<Event>)
      requires Valid()
      requires forall x :: x in MapOf(cur) ==> x in prev && prev[x] == MapOf(cur)[x]
      modifies this
      ensures Valid() && log == old(log) + batch
      ensures prev == MapOf(cur)
      ensures Removes(batch, old(prev).Keys - MapOf(cur).Keys)
    {
      hide Consistent, MapOf, Removes, ApplyEvent, Purged;
      batch := [];
      var now := MapOf(cur);
      var gone := prev.Keys - now.Keys;
      PurgeStart(prev, now);
      while gone != {}
        invariant Valid() && log == old(log) + batch
        invariant Purged(old(prev), now, gone, prev, batch)
        decreases |gone|
      {
        var key :| key in gone;
        ghost var before := prev;
        var e := Emit(key, Remove);
        PurgeStep(old(prev), now, gone, before, batch, e);
        gone := gone - {key};
        batch := batch + [e];
      }
      PurgeEnd(old(prev), now, prev, batch);
    }
  }

  /** Of the keys that are gone, those in `gone` are still to be removed. */
  ghost predicate Purged(
    was: map<string, string>, now: map<string, string>, gone: set<string>, prev: map<string, string>, batch: seq<Event>)
  {
    var all := was.Keys - now.Keys;
    gone <= all && prev == was - (all - gone) && Removes(batch, all - gone)
  }

  lemma PurgeStart(was: map<string, string>, now: map<string, string>)
    ensures Purged(was, now, was.Keys - now.Keys, was, [])
  {
    var all := was.Keys - now.Keys;
    assert all - all == {} && was - {} == was;
  }

  lemma PurgeStep(
    was: map<string, string>, now: map<string, string>, gone: set<string>, prev: map<string, string>,
    batch: seq<Event>, e: Event)
    requires Purged(was, now, gone, prev, batch) && e.change == Remove && e.id in gone
    ensures Purged(was, now, gone - {e.id}, ApplyEvent(prev, e), batch + [e])
  {
    hide Removes;
    var all := was.Keys - now.Keys;
    MinusOne(was, all, gone, e.id);
    RemovesSnoc(batch, all - gone, e);
  }

  lemma PurgeEnd(was: map<string, string>, now: map<string, string>, prev: map<string, string>, batch: seq<Event>)
    requires Purged(was, now, {}, prev, batch) && forall x :: x in now ==> x in was && was[x] == now[x]
    ensures prev == now && Removes(batch, was.Keys - now.Keys)
  {
    hide Removes;
    var all := was.Keys - now.Keys;
    assert all - {} == all;
    assert was - all == now;
  }

  /** What a tick's events are, and when there are none. */
  lemma TickParts(was: map<string, string>, cur: seq<Entity>, changed: seq<Event>, gone: seq<Event>)
    requires Collected(cur) && Upserts(changed, Differing(was, cur))
    requires Removes(gone, (was + MapOf(cur)).Keys - MapOf(cur).Keys)
    ensures var batch := changed + gone;
            && (exists k :: 0 <= k <= |batch| && Upserts(batch[..k], Differing(was, cur)) &&
                            Removes(batch[k..], was.Keys - MapOf(cur).Keys))
            && (batch == [] <==> was == MapOf(cur))
  {
    hide Upserts, Removes, Differing, MapOf;
    var batch, now := changed + gone, MapOf(cur);
    assert (was + now).Keys - now.Keys == was.Keys - now.Keys;
    assert batch[..|changed|] == changed && batch[|changed|..] == gone;
    NothingDiffers(was, cur);
    NothingGone(gone, was, now);
    SameCount(changed, Differing(was, cur));
  }

  lemma SameCount(batch: seq<Event>, xs: seq<Entity>)
    requires Upserts(batch, xs)
    ensures |batch| == |xs|
  {
  }

  /** The entities of `cur` that `prev` does not have, or has differently. */
  function Differing(prev: map<string, string>, cur: seq<Entity>): seq<Entity> {
    if cur == [] then []
    else
      var k := |cur| - 1;
      var x := cur[k];
      Differing(prev, cur[..k]) + if x.key in prev && prev[x.key] == x.payload then [] else [x]
  }

  /** The events are the upserts of these entities, one each and in order. */
  ghost predicate Upserts(batch: seq<Event>, xs: seq<Entity>) {
    && |batch| == |xs|
    && forall k :: 0 <= k < |xs| ==> batch[k].id == xs[k].key && batch[k].change == Upsert(xs[k].payload)
  }

  /** The events are removals of these keys, one each. */
  ghost predicate Removes(batch: seq<Event>, keys: set<string>) {
    && (forall e :: e in batch ==> e.change == Remove && e.id in keys)
    && (forall x :: x in keys ==> exists k :: 0 <= k < |batch| && batch[k].id == x)
    && (forall i, j :: 0 <= i < j < |batch| ==> batch[i].id != batch[j].id)
  }

  lemma DifferingSnoc(prev: map<string, string>, cur: seq<Entity>, k: nat)
    requires k < |cur|
    ensures if cur[k].key in prev && prev[cur[k].key] == cur[k].payload
            then Differing(prev, cur[..k + 1]) == Differing(prev, cur[..k])
            else Differing(prev, cur[..k + 1]) == Differing(prev, cur[..k]) + [cur[k]]
  {
    assert cur[..k + 1][..k] == cur[..k];
  }

  /** One more entry on top of an overlay that does not have its key yet. */
  lemma Overlay(was: map<string, string>, m: map<string, string>, key: string, v: string)
    requires key !in m
    ensures var p := was + m;
            && ((key in p && p[key] == v) <==> (key in was && was[key] == v))
            && (key in p && p[key] == v ==> p == was + m[key := v])
            && forall e: Event :: e.id == key && e.change == Upsert(v) ==> ApplyEvent(p, e) == was + m[key := v]
  {
  }

  lemma NoUpserts(prev: map<string, string>)
    ensures forall cur: seq<Entity> :: |cur| == 0 ==> Upserts([], Differing(prev, cur))
  {
  }

  lemma UpsertsSnoc(batch: seq<Event>, xs: seq<Entity>, e: Event, x: Entity)
    requires Upserts(batch, xs) && e.id == x.key && e.change == Upsert(x.payload)
    ensures Upserts(batch + [e], xs + [x])
  {
  }

  /** Keys are collected once, so what came before says nothing of this one. */
  lemma NotYetSent(cur: seq<Entity>, k: nat)
    requires Collected(cur) && k < |cur|
    ensures cur[k].key !in MapOf(cur[..k])
  {
    MapOfKeys(cur[..k]);
  }

  lemma NothingGone(gone: seq<Event>, was: map<string, string>, now: map<string, string>)
    requires Removes(gone, was.Keys - now.Keys)
    ensures gone == [] <==> was.Keys <= now.Keys
  {
    assert gone != [] ==> gone[0] in gone;
    assert forall x :: x in was.Keys && x !in now.Keys ==> x in was.Keys - now.Keys;
  }

  lemma MinusOne(m: map<string, string>, all: set<string>, gone: set<string>, key: string)
    requires key in gone && gone <= all
    ensures all - gone + {key} == all - (gone - {key})
    ensures forall e: Event :: e.id == key && e.change == Remove ==>
              ApplyEvent(m - (all - gone), e) == m - (all - (gone - {key}))
  {
  }

  lemma RemovesSnoc(batch: seq<Event>, keys: set<string>, e: Event)
    requires Removes(batch, keys) && e.change == Remove && e.id !in keys
    ensures Removes(batch + [e], keys + {e.id})
  {
    forall x | x in keys + {e.id} ensures exists k :: 0 <= k < |batch + [e]| && (batch + [e])[k].id == x {
      if x == e.id {
        assert (batch + [e])[|batch|].id == x;
      } else {
        var k :| 0 <= k < |batch| && batch[k].id == x;
        assert (batch + [e])[k].id == x;
      }
    }
  }

  lemma {:induction false} NothingDiffers(prev: map<string, string>, cur: seq<Entity>)
    requires Collected(cur)
    ensures Differing(prev, cur) == [] <==> forall x :: x in MapOf(cur) ==> x in prev && prev[x] == MapOf(cur)[x]
  {
    MapOfKeys(cur);
    if cur != [] {
      var k := |cur| - 1;
      assert Collected(cur[..k]);
      NothingDiffers(prev, cur[..k]);
      NotYetSent(cur, k);
      assert MapOf(cur) == MapOf(cur[..k])[cur[k].key := cur[k].payload];
    }
  }

  lemma MapOfEmpty()
    ensures forall cur :: |cur| == 0 ==> MapOf(cur) == map[]
  {
  }

  // ---------- frames ----------

  function Flatten(frames: seq<seq<Event>>): seq<Event> {
    if frames == [] then [] else Flatten(frames[..|frames| - 1]) + frames[|frames| - 1]
  }

  function Bytes(frame: seq<Event>, size: Event -> nat): nat {
    if frame == [] then ENVELOPE else Bytes(frame[..|frame| - 1], size) + size(frame[|frame| - 1]) + 1
  }

  /** Within both limits, except that one oversized event travels alone. */
  predicate FrameOk(frame: seq<Event>, size: Event -> nat) {
    && frame != []
    && |frame| <= MAX_EVENTS_PER_FRAME
    && (|frame| == 1 || Bytes(frame, size) <= MAX_FRAME_BYTES)
  }

  ghost predicate AllOk(frames: seq<seq<Event>>, size: Event -> nat) {
    forall f :: f in frames ==> FrameOk(f, size)
  }

  /** Closing a frame. */
  lemma FrameAdded(frames: seq<seq<Event>>, f: seq<Event>, size: Event -> nat)
    requires AllOk(frames, size) && FrameOk(f, size)
    ensures Flatten(frames + [f]) == Flatten(frames) + f && AllOk(frames + [f], size)
  {
    hide FrameOk, Flatten;
    FlattenSnoc(frames, f);
  }

  lemma FlattenSnoc(frames: seq<seq<Event>>, f: seq<Event>)
    ensures Flatten(frames + [f]) == Flatten(frames) + f
  {
    assert (frames + [f])[..|frames|] == frames;
  }

  lemma BytesSnoc(frame: seq<Event>, e: Event, size: Event -> nat)
    ensures Bytes(frame + [e], size) == Bytes(frame, size) + size(e) + 1
  {
    var more := frame + [e];
    assert more[..|more| - 1] == frame && more[|more| - 1] == e;
  }

  predicate Room(frame: seq<Event>, e: Event, size: Event -> nat) {
    |frame| < 256 && Bytes(frame, size) + size(e) + 1 <= 256 * 1024
  }

  lemma FrameGrows(frame: seq<Event>, e: Event, size: Event -> nat)
    requires frame == [] || (FrameOk(frame, size) && Room(frame, e, size))
    ensures FrameOk(frame + [e], size)
  {
    hide Bytes;
    BytesSnoc(frame, e, size);
  }

  /** A frame is followed by another only because its first event had no room. */
  ghost predicate Greedy(frames: seq<seq<Event>>, size: Event -> nat) {
    forall i, j :: 0 <= i && j == i + 1 < |frames| ==> FullBefore(frames[i], frames[j], size)
  }

  ghost predicate FullBefore(a: seq<Event>, b: seq<Event>, size: Event -> nat) {
    b != [] && !Room(a, b[0], size)
  }

  /** The last frame has no room for `e`. */
  ghost predicate LastFull(frames: seq<seq<Event>>, e: Event, size: Event -> nat) {
    frames == [] || !Room(frames[|frames| - 1], e, size)
  }

  /** The loop's variables after the events `done`. */
  ghost predicate Chunked(
    done: seq<Event>, frames: seq<seq<Event>>, cur: seq<Event>, bytes: nat, size: Event -> nat)
  {
    && Flatten(frames) + cur == done
    && AllOk(frames, size) && (cur != [] ==> FrameOk(cur, size))
    && Greedy(frames, size) && (cur != [] ==> LastFull(frames, cur[0], size))
    && bytes == Bytes(cur, size)
  }

  lemma ChunkClose(done: seq<Event>, frames: seq<seq<Event>>, cur: seq<Event>, bytes: nat, size: Event -> nat)
    requires Chunked(done, frames, cur, bytes, size) && cur != []
    ensures Chunked(done, frames + [cur], [], ENVELOPE, size)
  {
    hide AllOk, FrameOk, Flatten, Room;
    FrameAdded(frames, cur, size);
  }

  lemma ClosedFull(frames: seq<seq<Event>>, cur: seq<Event>, e: Event, size: Event -> nat)
    requires !Room(cur, e, size)
    ensures LastFull(frames + [cur], e, size)
  {
  }

  lemma NoneFull(e: Event, size: Event -> nat)
    ensures LastFull([], e, size)
  {
  }

  lemma ChunkAdd(
    done: seq<Event>, frames: seq<seq<Event>>, cur: seq<Event>, bytes: nat, e: Event, size: Event -> nat)
    requires Chunked(done, frames, cur, bytes, size)
    requires if cur == [] then LastFull(frames, e, size) else Room(cur, e, size)
    ensures Chunked(done + [e], frames, cur + [e], bytes + size(e) + 1, size)
  {
    hide AllOk, FrameOk, Flatten, Bytes, Greedy, Room;
    FrameGrows(cur, e, size);
    BytesSnoc(cur, e, size);
    assert (cur + [e])[0] == if cur == [] then e else cur[0];
    assert Flatten(frames) + (cur + [e]) == (Flatten(frames) + cur) + [e];
  }

  lemma HasRoom(done: seq<Event>, frames: seq<seq<Event>>, cur: seq<Event>, bytes: nat, e: Event, size: Event -> nat)
    requires Chunked(done, frames, cur, bytes, size)
    ensures Room(cur, e, size) <==> |cur| < MAX_EVENTS_PER_FRAME && bytes + size(e) + 1 <= MAX_FRAME_BYTES
  {
  }

  /** Splits events into frames; `size` is the serialised length of an event. */
  method ChunkFrames(events: seq<Event>, size: Event -> nat) returns (frames: seq<seq<Event>>)
    ensures Flatten(frames) == events
    ensures forall f :: f in frames ==> FrameOk(f, size)
    ensures Greedy(frames, size)
    ensures forall f :: f in frames ==> |f| <= 256 && (|f| == 1 || 64 + Lengths(f, size) <= 256 * 1024)
  {
    frames := [];
    var cur: seq<Event> := [];
    var bytes: nat := ENVELOPE;
    assert Chunked(events[..0], frames, cur, bytes, size);
    hide Chunked, Flatten, Bytes, FrameOk, AllOk, Greedy, Room, LastFull;
    for k := 0 to |events|
      invariant Chunked(events[..k], frames, cur, bytes, size)
      invariant cur == [] ==> frames == []
    {
      var len := size(events[k]) + 1;
      HasRoom(events[..k], frames, cur, bytes, events[k], size);
      if cur != [] && (|cur| >= MAX_EVENTS_PER_FRAME || bytes + len > MAX_FRAME_BYTES) {
        ChunkClose(events[..k], frames, cur, bytes, size);
        ClosedFull(frames, cur, events[k], size);
        frames := frames + [cur];
        cur := [];
        bytes := ENVELOPE;
      }
      NoneFull(events[k], size);
      ChunkAdd(events[..k], frames, cur, bytes, events[k], size);
      assert events[..k + 1] == events[..k] + [events[k]];
      bytes := bytes + len;
      cur := cur + [events[k]];
    }
    assert events[..|events|] == events;
    if cur != [] {
      ChunkClose(events, frames, cur, bytes, size);
      frames := frames + [cur];
      cur, bytes := [], ENVELOPE;
    }
    ChunksDone(events, frames, bytes, size);
    forall f | f in frames ensures |f| <= 256 && (|f| == 1 || 64 + Lengths(f, size) <= 256 * 1024) {
      FrameLimits(f, size);
    }
  }

  /** The events of a frame as text, each with a separator. */
  function Lengths(frame: seq<Event>, size: Event -> nat): nat {
    if frame == [] then 0 else Lengths(frame[..|frame| - 1], size) + size(frame[|frame| - 1]) + 1
  }

  lemma {:induction false} EstimateIs(frame: seq<Event>, size: Event -> nat)
    ensures Bytes(frame, size) == 64 + Lengths(frame, size)
  {
    if frame != [] {
      EstimateIs(frame[..|frame| - 1], size);
    }
  }

  lemma FrameLimits(frame: seq<Event>, size: Event -> nat)
    requires FrameOk(frame, size)
    ensures |frame| <= 256 && (|frame| == 1 || 64 + Lengths(frame, size) <= 256 * 1024)
  {
    EstimateIs(frame, size);
  }

  lemma ChunksDone(events: seq<Event>, frames: seq<seq<Event>>, bytes: nat, size: Event -> nat)
    requires Chunked(events, frames, [], bytes, size)
    ensures Flatten(frames) == events && Greedy(frames, size) && forall f :: f in frames ==> FrameOk(f, size)
  {
    hide FrameOk, Flatten, Greedy;
    assert Flatten(frames) + [] == Flatten(frames);
  }

  /** The snapshot is always announced, even when it is empty. */
  method SnapshotFrames(events: seq<Event>, size: Event -> nat) returns (frames: seq<seq<Event>>)
    ensures frames != [] && Flatten(frames) == events && Greedy(frames, size)
    ensures events != [] ==> forall f :: f in frames ==> FrameOk(f, size)
    ensures events == [] ==> frames == [[]]
  {
    frames := ChunkFrames(events, size);
    if frames != [] {
      FramesHoldEvents(frames, size);
    }
    if frames == [] {
      frames := [[]];
      assert Flatten([[]][..0]) == [];
    }
  }

  lemma FramesHoldEvents(frames: seq<seq<Event>>, size: Event -> nat)
    requires frames != [] && forall f :: f in frames ==> FrameOk(f, size)
    ensures Flatten(frames) != []
  {
    assert FrameOk(frames[|frames| - 1], size);
  }

  function ApplyFrames(m: map<string, string>, frames: seq<seq<Event>>): map<string, string> {
    if frames == [] then m else ApplyAll(ApplyFrames(m, frames[..|frames| - 1]), frames[|frames| - 1])
  }

  /** Applying frames one after another is applying their events in order. */
  lemma {:induction false} FramesAsEvents(m: map<string, string>, frames: seq<seq<Event>>)
    ensures ApplyFrames(m, frames) == ApplyAll(m, Flatten(frames))
  {
    if frames != [] {
      var k := |frames| - 1;
      FramesAsEvents(m, frames[..k]);
      ApplySplit(m, Flatten(frames[..k]), frames[k]);
    }
  }

  /** A whole subscription: after the snapshot and any number of ticks, all the
      frames sent, applied to an empty map, give exactly the current entities,
      and every id's events are numbered 1, 2, 3, ... across removals too. */
  method Subscribe(first: seq<Entity>, ticks: seq<seq<Entity>>, size: Event -> nat)
    returns (frames: seq<seq<Event>>)
    requires Collected(first) && forall k :: 0 <= k < |ticks| ==> Collected(ticks[k])
    ensures ApplyFrames(map[], frames) == MapOf(if ticks == [] then first else ticks[|ticks| - 1])
    ensures WellNumbered(Flatten(frames))
    ensures forall f :: f in frames ==> f == [] || FrameOk(f, size)
    ensures KindsFit(Flatten(frames))
  {
    hide Consistent, MapOf, ApplyFrames, FrameOk, Flatten, Upserts, Removes, Differing, Greedy, KindsFit, WellNumbered;
    hide Collected;
    var sub := new Subscription();
    var events := sub.Snapshot(first);
    frames := SnapshotFrames(events, size);
    for k := 0 to |ticks|
      invariant sub.Valid() && fresh(sub)
      invariant Flatten(frames) == sub.log
      invariant forall f :: f in frames ==> f == [] || FrameOk(f, size)
      invariant sub.prev == MapOf(if k == 0 then first else ticks[k - 1])
    {
      var batch := sub.Tick(ticks[k]);
      var more := ChunkFrames(batch, size);
      FlattenConcat(frames, more);
      frames := frames + more;
    }
    FramesAsEvents(map[], frames);
    LogFacts(sub.prev, sub.seqs, sub.log);
  }

  /** Job events are those of keys that start with "j:". */
  ghost predicate KindsFit(log: seq<Event>) {
    forall e :: e in log ==> (e.kind == Job <==> "j:" <= e.id)
  }

  lemma LogFacts(prev: map<string, string>, seqs: map<string, nat>, log: seq<Event>)
    requires Consistent(prev, seqs, log)
    ensures ApplyAll(map[], log) == prev && WellNumbered(log)
    ensures KindsFit(log)
  {
    assert forall key: string :: IsJobKey(key) <==> "j:" <= key;
  }

  lemma {:induction false} FlattenConcat(a: seq<seq<Event>>, b: seq<seq<Event>>)
    ensures Flatten(a + b) == Flatten(a) + Flatten(b)
  {
    if b == [] {
      assert a + b == a;
    } else {
      hide Flatten;
      var k := |b| - 1;
      assert b == b[..k] + [b[k]] && a + b == (a + b[..k]) + [b[k]];
      FlattenConcat(a, b[..k]);
      FlattenSnoc(a + b[..k], b[k]);
      FlattenSnoc(b[..k], b[k]);
    }
  }
}
