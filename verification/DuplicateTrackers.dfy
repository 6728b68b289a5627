/** How each change to a log is mirrored in its trackers: appending an entry, taking one out
    of the middle, dropping the oldest. */
module DuplicateTrackers {
  import opened Sequences
  import opened DuplicateLog

  lemma OwnSnoc(log: seq<Entry>, e: Entry, h: Hash)
    ensures Own(log + [e], h) == Own(log, h) + if e.hash == h then [e] else []
  {
    FilterSnoc(OfHash(h), log, e);
  }

  lemma {:induction false} PositiveIdsAppend(a: seq<Entry>, b: seq<Entry>)
    ensures PositiveIds(a + b) == PositiveIds(a) + PositiveIds(b)
  {
    if b == [] {
      assert a + b == a;
    } else {
      var front, x := b[..|b| - 1], b[|b| - 1];
      PositiveIdsAppend(a, front);
      assert a + b == (a + front) + [x];
      PositiveIdsSnoc(a + front, x);
    }
  }

  /** The tracker a scan holds after one more entry of its content. */
  function Scanned(t: Tracker, e: Entry): Tracker {
    Tracker(t.count + 1,
            if e.id > 0 then t.ids + [e.id] else t.ids,
            if t.first.None? then Some(e.time) else t.first,
            Some(e.time))
  }

  function TrackerOr(trk: map<Hash, Tracker>, h: Hash): Tracker {
    if h in trk then trk[h] else NO_TRACKER
  }

  lemma ScanStep(trk: map<Hash, Tracker>, log: seq<Entry>, e: Entry)
    requires TableExact(trk, log)
    ensures TableExact(trk[e.hash := Scanned(TrackerOr(trk, e.hash), e)], log + [e])
  {
    var trk' := trk[e.hash := Scanned(TrackerOr(trk, e.hash), e)];
    forall h ensures ExactAt(trk', log + [e], h) {
      assert ExactAt(trk, log, h);
      OwnSnoc(log, e, h);
      if h == e.hash {
        PositiveIdsSnoc(Own(log, h), e);
        assert PositiveIds([]) == [];
      }
    }
  }

  // Taking the entry of a moved message out of the middle.

  lemma KeptAll(live: seq<Entry>, h: Hash, id: int)
    requires forall e :: e in live ==> NotMoved(h, id)(e)
    ensures Kept(live, h, id) == live
  {
    FilterAll(NotMoved(h, id), live);
  }

  lemma KeptWithout(live: seq<Entry>, i: nat, h: Hash, id: int)
    requires UniqueIds(live) && i < |live|
    requires id > 0 && live[i].id == id && live[i].hash != h
    ensures Kept(live, h, id) == live[..i] + live[i + 1..]
  {
    var p := NotMoved(h, id);
    FilterAround(p, live, i);
    forall j | 0 <= j < |live| && j != i ensures p(live[j]) {
      assert j < i ==> live[j].id != live[i].id;
      assert i < j ==> live[i].id != live[j].id;
    }
    FilterAll(p, live[..i]);
    FilterAll(p, live[i + 1..]);
  }

  lemma OwnWithout(log: seq<Entry>, i: nat, h: Hash)
    requires i < |log|
    ensures Own(log, h) == Own(log[..i], h) + (if log[i].hash == h then [log[i]] else []) + Own(log[i + 1..], h)
    ensures Own(log[..i] + log[i + 1..], h) == Own(log[..i], h) + Own(log[i + 1..], h)
    ensures log[i].hash != h ==> Own(log[..i] + log[i + 1..], h) == Own(log, h)
  {
    FilterAround(OfHash(h), log, i);
    FilterAppend(OfHash(h), log[..i], log[i + 1..]);
  }

  lemma OwnCons(e: Entry, rest: seq<Entry>, h: Hash)
    ensures Own([e] + rest, h) == if e.hash == h then [e] + Own(rest, h) else Own(rest, h)
  {
    FilterCons(OfHash(h), e, rest);
  }

  /** Removing a unique id from the list of ids of a content. */
  lemma IdsWithout(a: seq<Entry>, e: Entry, b: seq<Entry>)
    requires UniqueIds(a + [e] + b) && e.id > 0
    ensures RemoveFirst(PositiveIds(a + [e] + b), e.id) == PositiveIds(a + b)
  {
    PositiveIdsAppend(a + [e], b);
    PositiveIdsSnoc(a, e);
    PositiveIdsAppend(a, b);
    var ids := PositiveIds(a) + [e.id] + PositiveIds(b);
    var k := |PositiveIds(a)|;
    assert ids[k] == e.id && ids[..k] == PositiveIds(a) && ids[k + 1..] == PositiveIds(b);
    forall j | 0 <= j < |a| ensures a[j].id != e.id {
      assert (a + [e] + b)[j] == a[j] && (a + [e] + b)[|a|] == e;
    }
    PositiveIdsMember(a, e.id);
    RemoveFirstAt(ids, k);
  }

  /** The old content's tracker after one of its messages was edited away. */
  function Reduced(t: Tracker, id: int): Tracker {
    t.(ids := RemoveFirst(t.ids, id), count := t.count - 1)
  }

  function Lowered(trk: map<Hash, Tracker>, h: Hash, t: Tracker): map<Hash, Tracker> {
    if t.count == 0 then trk - {h} else trk[h := t]
  }

  lemma MovedTracker(t: Tracker, live: seq<Entry>, i: nat)
    requires UniqueIds(live) && i < |live| && live[i].id > 0
    requires Agrees(t, live, live[i].hash, false)
    ensures var own := Own(live[..i] + live[i + 1..], live[i].hash);
            var t' := Reduced(t, live[i].id);
            t'.count == |own| && t'.ids == PositiveIds(own)
  {
    var h := live[i].hash;
    OwnWithout(live, i, h);
    FilterKeepsUnique(OfHash(h), live);
    IdsWithout(Own(live[..i], h), live[i], Own(live[i + 1..], h));
  }

  lemma MoveStep(trk: map<Hash, Tracker>, live: seq<Entry>, i: nat, h: Hash)
    requires TableExact(trk, live) && UniqueIds(live)
    requires i < |live| && live[i].id > 0 && live[i].hash != h
    ensures live[i].hash in trk
    ensures var trk' := Lowered(trk, live[i].hash, Reduced(trk[live[i].hash], live[i].id));
            var log' := live[..i] + live[i + 1..];
            TableAgrees(trk', log', None) && ExactAt(trk', log', h)
  {
    var e := live[i];
    OwnOfNonEmpty(live, e);
    assert ExactAt(trk, live, e.hash);
    var trk' := Lowered(trk, e.hash, Reduced(trk[e.hash], e.id));
    var log' := live[..i] + live[i + 1..];
    forall x ensures AgreesAt(trk', log', x, None) && (x != e.hash ==> ExactAt(trk', log', x)) {
      assert ExactAt(trk, live, x);
      OwnWithout(live, i, x);
      if x == e.hash {
        MovedTracker(trk[x], live, i);
      }
    }
  }

  // Appending the current message.

  lemma AppendStep(trk: map<Hash, Tracker>, kept: seq<Entry>, e: Entry, t: Tracker)
    requires TableAgrees(trk, kept, None) && ExactAt(trk, kept, e.hash)
    requires t.count == TrackerOr(trk, e.hash).count + 1
    requires var ids := TrackerOr(trk, e.hash).ids;
             t.ids == if e.id > 0 then LastN(ids + [e.id], MAX_IDS) else ids
    requires t.first == if e.hash in trk then trk[e.hash].first else Some(e.time)
    requires t.last == Some(e.time)
    ensures TableAgrees(trk[e.hash := t], kept + [e], if e.id > 0 then Some(e.hash) else None)
    ensures Own(kept + [e], e.hash) != [] && t.first == Some(Own(kept + [e], e.hash)[0].time)
  {
    var trk', log := trk[e.hash := t], kept + [e];
    var trimmed := if e.id > 0 then Some(e.hash) else None;
    OwnSnoc(kept, e, e.hash);
    PositiveIdsSnoc(Own(kept, e.hash), e);
    assert PositiveIds([]) == [];
    forall h ensures AgreesAt(trk', log, h, trimmed) {
      assert AgreesAt(trk, kept, h, None);
      OwnSnoc(kept, e, h);
    }
  }

  // Dropping the oldest entry.

  function Shortened(trk: map<Hash, Tracker>, e: Entry): map<Hash, Tracker> {
    if e.hash !in trk then trk
    else
      var t := trk[e.hash];
      Lowered(trk, e.hash, if e.id > 0 then Reduced(t, e.id) else t.(count := t.count - 1))
  }

  lemma LastNWithoutFirst(x: int, rest: seq<int>, n: nat)
    requires x !in rest && n > 0
    ensures RemoveFirst(LastN([x] + rest, n), x) == LastN(rest, n)
  {
    if |rest| < n {
      assert ([x] + rest)[1..] == rest;
    } else {
      assert LastN([x] + rest, n) == LastN(rest, n);
      RemoveFirstAbsent(LastN(rest, n), x);
    }
  }

  lemma RemoveHead(x: int, rest: seq<int>)
    ensures RemoveFirst([x] + rest, x) == rest
  {
    assert ([x] + rest)[1..] == rest;
  }

  lemma FirstIdOnce(e: Entry, es: seq<Entry>)
    requires UniqueIds([e] + es) && e.id > 0
    ensures e.id !in PositiveIds(es)
  {
    var all := [e] + es;
    forall j | 0 <= j < |es| ensures es[j].id != e.id {
      assert all[0] == e && all[j + 1] == es[j];
    }
    PositiveIdsMember(es, e.id);
  }

  lemma ShortenIds(e: Entry, es: seq<Entry>, trimmed: bool, ids: seq<int>)
    requires UniqueIds([e] + es)
    requires ids == if trimmed then LastN(PositiveIds([e] + es), MAX_IDS) else PositiveIds([e] + es)
    ensures (if e.id > 0 then RemoveFirst(ids, e.id) else ids)
         == if trimmed then LastN(PositiveIds(es), MAX_IDS) else PositiveIds(es)
  {
    PositiveIdsCons(e, es);
    if e.id > 0 {
      FirstIdOnce(e, es);
      if trimmed {
        LastNWithoutFirst(e.id, PositiveIds(es), MAX_IDS);
      } else {
        RemoveHead(e.id, PositiveIds(es));
      }
    }
  }

  lemma ShortenTracker(t: Tracker, e: Entry, rest: seq<Entry>, trimmed: bool)
    requires UniqueIds([e] + rest) && Agrees(t, [e] + rest, e.hash, trimmed)
    ensures var own := Own(rest, e.hash);
            var ids := if e.id > 0 then RemoveFirst(t.ids, e.id) else t.ids;
            t.count - 1 == |own| && ids == TrackedIds(rest, e.hash, trimmed)
  {
    OwnCons(e, rest, e.hash);
    FilterKeepsUnique(OfHash(e.hash), [e] + rest);
    ShortenIds(e, Own(rest, e.hash), trimmed, t.ids);
  }

  lemma DropStep(trk: map<Hash, Tracker>, e: Entry, rest: seq<Entry>, trimmed: Option<Hash>)
    requires UniqueIds([e] + rest) && TableAgrees(trk, [e] + rest, trimmed)
    ensures TableAgrees(Shortened(trk, e), rest, trimmed)
    ensures forall h :: h in Shortened(trk, e) ==>
              h in trk && trk[h].first == Shortened(trk, e)[h].first && trk[h].last == Shortened(trk, e)[h].last
  {
    var trk' := Shortened(trk, e);
    forall h ensures AgreesAt(trk', rest, h, trimmed) {
      assert AgreesAt(trk, [e] + rest, h, trimmed);
      OwnCons(e, rest, h);
      if h == e.hash {
        ShortenTracker(trk[h], e, rest, trimmed == Some(h));
      }
    }
  }
}
