/** The history of recent requests: a ring that must agree with a plain list of pushes. */
module History {
  import opened Sequences

  /** maxMsgLen, in bytes; characters stand for bytes here. */
  const MAX_MSG_LEN: nat := 1024

  datatype Request = Request(msg: string, userId: string)

  function Clipped(r: Request): (c: Request)
    ensures c.msg <= r.msg && c.userId == r.userId
    ensures |c.msg| == if |r.msg| <= 1024 then |r.msg| else 1024
  {
    if |r.msg| > MAX_MSG_LEN then r.(msg := r.msg[..MAX_MSG_LEN]) else r
  }

  /** What Last(n) shows of a list of pushes: the oldest n of those the ring still holds. */
  function Shown(pushed: seq<Request>, size: nat, n: int): seq<Request> {
    var kept := LastN(pushed, size);
    if n < 1 then [] else if n < |kept| then kept[..n] else kept
  }

  /** Place by place: of what the ring keeps, from the oldest on, n or all. */
  lemma ShownMeans(pushed: seq<Request>, size: nat, n: int, kept: nat, i: nat)
    requires kept == if |pushed| < size then |pushed| else size
    ensures |Shown(pushed, size, n)| == if n < 1 then 0 else if n < kept then n else kept
    ensures i < |Shown(pushed, size, n)| ==> Shown(pushed, size, n)[i] == pushed[|pushed| - kept + i]
  {
    var shown := Shown(pushed, size, n);
    assert |LastN(pushed, size)| == kept;
    ShownFront(LastN(pushed, size), n, shown);
    if i < |shown| {
      KeptAt(pushed, size, i);
      assert shown[i] == pushed[|pushed| - kept + i];
    }
  }

  lemma ShownFront(kept: seq<Request>, n: int, shown: seq<Request>)
    requires shown == if n < 1 then [] else if n < |kept| then kept[..n] else kept
    ensures |shown| == (if n < 1 then 0 else if n < |kept| then n else |kept|)
    ensures forall i :: 0 <= i < |shown| ==> shown[i] == kept[i]
  {
  }

  /** A position in a ring, at most one turn ahead. */
  function Wrap(p: nat, size: nat): (q: nat)
    requires p < 2 * size
    ensures q < size && (q == p || q == p - size)
  {
    if p < size then p else p - size
  }

  /** The slot i steps after the head. */
  function RingAt(ring: seq<Option<Request>>, head: nat, i: nat): Option<Request>
    requires head < |ring| && i < |ring|
  {
    ring[Wrap(head + i, |ring|)]
  }

  /** What it should hold: the slots from the head on are the last pushes, oldest first. */
  function Expected(pushed: seq<Request>, size: nat, i: nat): Option<Request>
    requires i < size
  {
    var j := |pushed| - size + i;
    if j < 0 then None else Some(pushed[j])
  }

  lemma PushKeepsRing(ring: seq<Option<Request>>, head: nat, pushed: seq<Request>, r: Request, i: nat)
    requires head < |ring| && i < |ring|
    requires forall k :: 0 <= k < |ring| ==> RingAt(ring, head, k) == Expected(pushed, |ring|, k)
    ensures RingAt(ring[head := Some(r)], if head + 1 == |ring| then 0 else head + 1, i)
         == Expected(pushed + [r], |ring|, i)
  {
    if i < |ring| - 1 {
      assert RingAt(ring, head, i + 1) == Expected(pushed, |ring|, i + 1);
    }
  }

  /** What walking the ring from the head has collected after i slots. */
  function Walked(pushed: seq<Request>, size: nat, i: nat): seq<Request>
    requires i <= size
  {
    var empty := if |pushed| < size then size - |pushed| else 0;
    if i <= empty then [] else LastN(pushed, size)[..i - empty]
  }

  lemma WalkedStep(pushed: seq<Request>, size: nat, i: nat)
    requires i < size
    ensures var slot := Expected(pushed, size, i);
            Walked(pushed, size, i + 1) == Walked(pushed, size, i) + if slot.Some? then [slot.value] else []
  {
    var empty := if |pushed| < size then size - |pushed| else 0;
    if i >= empty {
      var kept := LastN(pushed, size);
      KeptAt(pushed, size, i - empty);
      OneMore(kept, i - empty);
      assert i + 1 - empty == i - empty + 1;
      assert Walked(pushed, size, i + 1) == kept[..i - empty + 1];
      assert Walked(pushed, size, i) == kept[..i - empty];
    }
  }

  lemma KeptAt(pushed: seq<Request>, size: nat, k: nat)
    requires k < |LastN(pushed, size)|
    ensures LastN(pushed, size)[k] == pushed[|pushed| - |LastN(pushed, size)| + k]
  {
  }

  lemma OneMore(kept: seq<Request>, k: nat)
    requires k < |kept|
    ensures kept[..k + 1] == kept[..k] + [kept[k]]
  {
  }

  class LastRequests {
    const slots: array<Option<Request>>
    var head: nat
    /** Everything pushed so far, as it was stored. */
    ghost var pushed: seq<Request>

    ghost predicate Valid()
      reads this, slots
    {
      && head < slots.Length
      && forall i :: 0 <= i < slots.Length ==> RingAt(slots[..], head, i) == Expected(pushed, slots.Length, i)
    }

    constructor (size: int)
      ensures Valid() && fresh(slots)
      ensures slots.Length == (if size < 1 then 1 else size) && pushed == []
    {
      slots := new Option<Request>[if size < 1 then 1 else size](_ => None);
      head, pushed := 0, [];
      new;
      assert forall i :: 0 <= i < slots.Length ==> slots[..][i] == None;
    }

    method Push(req: Request)
      requires Valid()
      modifies this, slots
      ensures Valid() && pushed == old(pushed) + [Clipped(req)]
    {
      var r := req;
      if |r.msg| > MAX_MSG_LEN {
        r := r.(msg := r.msg[..MAX_MSG_LEN]);
      }
      ghost var ring, h := slots[..], head;
      slots[head] := Some(r);
      assert slots[..] == ring[h := Some(r)];
      head := if head + 1 == slots.Length then 0 else head + 1;
      forall i | 0 <= i < slots.Length
        ensures RingAt(slots[..], head, i) == Expected(pushed + [r], slots.Length, i)
      {
        PushKeepsRing(ring, h, pushed, r, i);
      }
      pushed := pushed + [r];
    }

    method Last(n: int) returns (result: seq<Request>)
      requires Valid()
      ensures result == Shown(pushed, slots.Length, n)
      ensures var kept := LastN(pushed, slots.Length);
              result == kept[..if n < 1 then 0 else if n < |kept| then n else |kept|]
    {
      result := Collect(n);
      assert var kept := LastN(pushed, slots.Length); kept[..|kept|] == kept;
    }

    method Collect(n: int) returns (result: seq<Request>)
      requires Valid()
      ensures result == Shown(pushed, slots.Length, n)
    {
      if n < 1 {
        return [];
      }
      var size := slots.Length;
      var limit := if n > size then size else n;
      result := [];
      var p := head;
      for i := 0 to size
        invariant p == Wrap(head + i, size)
        invariant result == Walked(pushed, size, i)
      {
        WalkedStep(pushed, size, i);
        assert slots[p] == RingAt(slots[..], head, i) == Expected(pushed, size, i);
        if slots[p].Some? {
          result := result + [slots[p].value];
        }
        p := if p + 1 == size then 0 else p + 1;
      }
      if |result| > limit {
        result := result[..limit];
      }
    }
  }

  function Numbered(n: nat): (rs: seq<Request>)
    ensures |rs| == n && forall i :: 0 <= i < n ==> |rs[i].userId| == i
  {
    seq(n, i requires 0 <= i < n => Request("", seq(i, _ => 'x')))
  }

  function Latest(p: seq<Request>, size: nat, n: nat): seq<Request> {
    LastN(p, if n < size then n else size)
  }

  /** The comment on Last promises the n last requests, as far as they are kept. That is what it
      returns, for all contents, exactly when n covers everything kept; otherwise it returns the
      oldest kept ones. */
  lemma ShownAreLatestIff(size: nat, count: nat, n: nat)
    requires size >= 1 && n >= 1
    ensures (forall p: seq<Request> :: |p| == count ==> Shown(p, size, n) == Latest(p, size, n))
       <==> n >= size || n >= count
  {
    if n < size && n < count {
      var p := Numbered(count);
      assert Shown(p, size, n)[0] == LastN(p, size)[0];
      assert Shown(p, size, n)[0] != Latest(p, size, n)[0];
    } else {
      forall p: seq<Request> | |p| == count ensures Shown(p, size, n) == Latest(p, size, n) {
      }
    }
  }
}
