/** process_msg and its neighbours as they run between the steps of other threads
    (src/opo/client.c:125-157, 180-246, 507-567). */
module PendingRing {
  import opened Bytes
  import opened Trees
  import opened Wire
  import opened Frames
  import opened Rings
  import opened Pending
  import opened PendingInv

  datatype Outcome = Delivered | NotFound | Duplicate

  /** What skipping over a query does to its slot. */
  function Passed(x: Slot, id: nat): Slot {
    if x.cb then x.(resp := Some(Lost(id)), state := Ready) else x
  }

  /** From the slots `was`, the queries from..to-1 passed over and the rest as they were. */
  ghost predicate PassedOver(was: seq<Slot>, now: seq<Slot>, from: nat, to: nat, id: nat) {
    && 0 < |was| == |now| && from <= to
    && (forall k: nat :: from <= k < to ==> SlotAt(now, k) == Passed(SlotAt(was, k), id))
    && (forall k: nat :: to <= k < from + |was| ==> SlotAt(now, k) == SlotAt(was, k))
  }

  class Ring {
    const q: array<Slot>
    var head: nat
    var onDeck: nat
    var tail: nat
    var nextId: nat
    /** Queries handed back, taken, decided and sent so far. */
    ghost var freed: nat
    ghost var taken: nat
    ghost var decided: nat
    ghost var sent: nat

    ghost predicate Valid()
      reads this, q
    {
      && q.Length > 0
      && freed <= taken <= freed + 1 && taken <= decided <= sent <= freed + q.Length
      && head == Ix(taken, q.Length) && onDeck == Ix(decided, q.Length) && tail == Ix(sent, q.Length)
      && nextId == sent + 1
      && (forall k: nat :: freed <= k < freed + q.Length ==> Right(k, SlotAt(q[..], k)))
    }

    /** x is a possible content of query k's slot. */
    ghost predicate Right(k: nat, x: Slot)
      reads this
    {
      if k < sent then
        && x.id == k + 1
        && (k < taken ==> x.state.Taken?)
        && (taken <= k < decided ==> x.state.Ready? || (x.state.Sent? && !x.cb))
        && (decided <= k ==> x.state.Sent? && x.resp.None?)
      else x.id == 0 && x.state.Clear? && x.resp.None?
    }

    constructor (pendingMax: int)
      ensures Valid() && fresh(q) && q.Length == (if pendingMax < 1 then 1 else pendingMax)
      ensures sent == 0
    {
      q := new Slot[if pendingMax < 1 then 1 else pendingMax](_ => Slot(0, false, Clear, None));
      head, onDeck, tail, nextId := 0, 0, 0, 1;
      freed, taken, decided, sent := 0, 0, 0, 0;
    }

    /** opo_client_query: the next id, or None when the ring is full. */
    method Query(cb: bool) returns (id: Option<nat>)
      requires Valid()
      modifies this, q
      ensures Valid()
      ensures id == if old(sent - freed) == q.Length then None else Some(old(sent) + 1)
      ensures sent == if id.Some? then old(sent) + 1 else old(sent)
      ensures freed == old(freed) && taken == old(taken) && decided == old(decided)
      ensures id.Some? ==> SlotAt(q[..], old(sent)) == Slot(old(sent) + 1, cb, Sent, None)
      ensures forall k: nat :: freed <= k < freed + q.Length && k != old(sent) ==>
                SlotAt(q[..], k) == old(SlotAt(q[..], k))
      ensures id.None? ==> q[..] == old(q[..]) && tail == old(tail)
    {
      hide Ix;
      assert q[tail] == SlotAt(q[..], sent);
      if !q[tail].state.Clear? {
        return None;
      }
      FullTurn(q[..], freed);
      PutAt(q[..], sent, Slot(nextId, cb, Sent, q[tail].resp));
      IxNext(sent, q.Length);
      id := Some(nextId);
      ghost var was := q[..];
      q[tail] := q[tail].(id := nextId, cb := cb, state := Sent);
      assert q[..] == was[tail := q[tail]];
      nextId := nextId + 1;
      tail := Next(tail, q.Length);
      sent := sent + 1;
      forall k: nat | freed <= k < freed + q.Length
        ensures Right(k, SlotAt(q[..], k))
      {
        assert k != sent - 1 ==> SlotAt(q[..], k) == SlotAt(was, k);
      }
    }

    /** take_next_ready: the oldest query's slot when it is READY. */
    method TakeNextReady() returns (r: Option<nat>)
      requires Valid() && freed == taken
      modifies this, q
      ensures Valid()
      ensures r.Some? <==> old(taken < decided && SlotAt(q[..], taken).state.Ready?)
      ensures r.Some? ==> r.value == Ix(old(taken), q.Length) && taken == old(taken) + 1
      ensures r.Some? ==> SlotAt(q[..], old(taken)) == old(SlotAt(q[..], taken)).(state := Taken)
      ensures r.None? ==> taken == old(taken) && q[..] == old(q[..])
      ensures freed == old(freed) && decided == old(decided) && sent == old(sent)
      ensures forall k: nat :: freed <= k < freed + q.Length && k != old(taken) ==>
                SlotAt(q[..], k) == old(SlotAt(q[..], k))
    {
      hide Ix;
      assert q[head] == SlotAt(q[..], taken);
      if !q[head].state.Ready? {
        return None;
      }
      r := Some(head);
      PutAt(q[..], taken, q[head].(state := Taken));
      IxNext(taken, q.Length);
      ghost var was := q[..];
      q[head] := q[head].(state := Taken);
      assert q[..] == was[head := q[head]];
      head := Next(head, q.Length);
      taken := taken + 1;
      forall k: nat | freed <= k < freed + q.Length
        ensures Right(k, SlotAt(q[..], k))
      {
        assert k != taken - 1 ==> SlotAt(q[..], k) == SlotAt(was, k);
      }
    }

    /** The end of a pass of opo_client_process: hand the taken slot back. */
    method Release(i: nat)
      requires Valid() && taken == freed + 1 && i == Ix(freed, q.Length)
      modifies this, q
      ensures Valid() && freed == old(freed) + 1
      ensures taken == old(taken) && decided == old(decided) && sent == old(sent)
      ensures forall k: nat :: freed <= k < old(freed) + q.Length ==> SlotAt(q[..], k) == old(SlotAt(q[..], k))
    {
      hide Ix;
      var x := Slot(0, q[i].cb, Clear, None);
      PutAt(q[..], freed, x);
      IxDistinct(freed, freed + q.Length, q.Length);
      ghost var was := q[..];
      q[i] := q[i].(id := 0, resp := None);
      q[i] := q[i].(state := Clear);
      assert q[..] == was[i := x];
      freed := freed + 1;
      forall k: nat | freed <= k < freed + q.Length
        ensures Right(k, SlotAt(q[..], k))
      {
        assert k != freed - 1 + q.Length ==> SlotAt(q[..], k) == SlotAt(was, k);
      }
    }

    /** How many slots pending_find looks at: the pending ones, or the whole ring when there is none. */
    ghost function Span(): nat
      reads this
      requires decided <= sent
    {
      if decided == sent then q.Length else sent - decided
    }

    /** pending_find: the first slot from on_deck on that has the id. */
    method PendingFind(id: nat) returns (r: Option<nat>, ghost at: nat)
      requires Valid()
      ensures r.Some? ==> decided <= at < decided + Span() && r.value == Ix(at, q.Length) && SlotAt(q[..], at).id == id
      ensures r.Some? ==> forall k: nat :: decided <= k < at ==> SlotAt(q[..], k).id != id
      ensures r.None? ==> forall k: nat :: decided <= k < decided + Span() ==> SlotAt(q[..], k).id != id
    {
      hide Ix;
      var i := onDeck;
      var looped := false;
      at := decided;
      while true
        invariant decided <= at < decided + Span() && i == Ix(at, q.Length)
        invariant looped <==> Ix(at, q.Length) < Ix(decided, q.Length)
        invariant forall k: nat :: decided <= k < at ==> SlotAt(q[..], k).id != id
        decreases decided + Span() - at
      {
        if q[i].id == id {
          return Some(i), at;
        }
        ScanMeets(decided, at, sent, q.Length);
        if q.Length <= i + 1 {
          if looped {
            return None, at;
          }
          i := 0;
          looped := true;
        } else {
          i := i + 1;
        }
        at := at + 1;
        if i == tail {
          return None, at;
        }
      }
    }

    /** Responses that pending_find takes for an answer to a query already decided: with nothing pending, the id of
        a query not handed back. */
    ghost predicate Stray(id: nat)
      reads this, q
      requires Valid()
    {
      && decided == sent && freed < id <= decided
      && (id == freed + 1 && sent == freed + q.Length ==> SlotAt(q[..], freed).state.Sent?)
    }

    /** The id in the slot a scan looks at. */
    lemma IdAt(k: nat)
      requires Valid() && decided <= k < decided + Span()
      ensures SlotAt(q[..], k).id == if k < sent then k + 1
                                     else if k < freed + q.Length then 0
                                     else k - q.Length + 1
    {
      hide Ix, SlotAt;
      if freed + q.Length <= k {
        FullTurn(q[..], k - q.Length);
      }
    }

    lemma NoStray(id: nat)
      requires Valid() && forall k: nat :: decided <= k < decided + Span() ==> SlotAt(q[..], k).id != id
      ensures !Stray(id) && !(decided < id <= sent)
    {
      hide Ix, SlotAt;
      if decided < id <= sent {
        IdAt(id - 1);
      }
      if decided == sent && freed < id <= decided {
        IdAt(id - 1 + q.Length);
      }
    }

    /** With nothing pending, the first slot with the id belongs to a stray, or is the one at on_deck. */
    lemma StrayAt(id: nat, at: nat)
      requires Valid() && decided == sent && decided <= at < decided + q.Length && SlotAt(q[..], at).id == id
      requires forall k: nat :: decided <= k < at ==> SlotAt(q[..], k).id != id
      ensures Stray(id) <==> decided < at || SlotAt(q[..], at).state.Sent?
    {
      hide Ix, SlotAt;
      IdAt(at);
      IdAt(decided);
      if freed + q.Length <= at {
        FullTurn(q[..], at - q.Length);
      }
    }

    /** process_msg. The response to a pending query is delivered and the queries before it are passed over; nothing
        else changes. Any other response is dropped without effect iff it is no stray. */
    method ProcessMsg(m: Packet) returns (r: Outcome)
      requires Valid()
      modifies this, q
      ensures freed == old(freed) && taken == old(taken) && sent == old(sent)
      ensures head == old(head) && tail == old(tail) && nextId == old(nextId)
      ensures old(decided < m.id <= sent) ==>
                r == Delivered && Valid() && decided == m.id
                && PassedOver(old(q[..])[Ix(m.id - 1, q.Length) :=
                                old(SlotAt(q[..], m.id - 1)).(resp := Some(m), state := Ready)],
                              q[..], old(decided), m.id - 1, m.id)
      ensures !old(decided < m.id <= sent) ==>
                decided == old(decided)
                && (r != Delivered && onDeck == old(onDeck) && q[..] == old(q[..]) <==> !old(Stray(m.id)))
    {
      hide Ix, SlotAt, PassedOver;
      ghost var was, from, at := q[..], decided, decided;
      AtIs(was, from);
      var i := onDeck;
      if m.id != q[onDeck].id {
        var found;
        found, at := PendingFind(m.id);
        if found.None? {
          NoStray(m.id);
          return NotFound;
        }
        i := found.value;
      }
      Located(m.id, at);
      PassOver(i, m.id, at);
      AtIs(q[..], at);
      PassedEnds(was, q[..], from, at, m.id);
      IxDistinct(from, at, q.Length);
      if !q[i].state.Sent? {
        return Duplicate;
      }
      ghost var passed := q[..];
      q[i] := q[i].(resp := Some(m));
      q[i] := q[i].(state := Ready);
      onDeck := Next(onDeck, q.Length);
      if from < sent {
        decided := m.id;
        assert q[..] == passed[i := q[i]];
        IxNext(at, q.Length);
        PassedThenPut(was, passed, from, at, m.id, q[i]);
        Handled(was, q[..], from, at, m.id, q[i]);
      }
      r := Delivered;
    }

    /** The loop that passes over the queries before q. */
    method PassOver(i: nat, id: nat, ghost at: nat)
      requires q.Length > 0 && decided <= at < decided + q.Length
      requires onDeck == Ix(decided, q.Length) && i == Ix(at, q.Length)
      modifies this`onDeck, q
      ensures onDeck == i && PassedOver(old(q[..]), q[..], decided, at, id)
    {
      hide Ix, SlotAt;
      ghost var was := q[..];
      ghost var d := decided;
      while i != onDeck
        invariant decided <= d <= at && onDeck == Ix(d, q.Length)
        invariant PassedOver(was, q[..], decided, d, id)
        decreases at - d
      {
        IxDistinct(d, at, q.Length);
        AtIs(q[..], d);
        ghost var before := q[..];
        PutAt(before, d, Passed(before[onDeck], id));
        if q[onDeck].cb {
          q[onDeck] := q[onDeck].(resp := Some(Lost(id)));
          q[onDeck] := q[onDeck].(state := Ready);
        }
        assert q[..] == before[Ix(d, q.Length) := Passed(before[onDeck], id)];
        IxNext(d, q.Length);
        onDeck := Next(onDeck, q.Length);
        d := d + 1;
      }
      IxDistinct(d, at, q.Length);
    }

    /** What the found slot says about the response. */
    lemma Located(id: nat, at: nat)
      requires Valid() && decided <= at < decided + Span() && SlotAt(q[..], at).id == id
      requires forall k: nat :: decided <= k < at ==> SlotAt(q[..], k).id != id
      ensures at < decided + q.Length
      ensures decided < sent ==> at == id - 1 && decided < id <= sent && SlotAt(q[..], at).state.Sent?
      ensures decided == sent ==> (Stray(id) <==> decided < at || SlotAt(q[..], at).state.Sent?)
    {
      hide Ix, SlotAt;
      if decided < sent {
        IdAt(at);
      } else {
        StrayAt(id, at);
      }
    }

    /** The queries passed over and the one answered are right for their new standing. */
    lemma Handled(was: seq<Slot>, now: seq<Slot>, from: nat, at: nat, id: nat, x: Slot)
      requires now == q[..] && |was| == q.Length > 0 && x.state.Ready? && x.id == at + 1
      requires freed <= taken <= freed + 1 && taken <= from <= at < sent <= freed + q.Length && decided == at + 1
      requires PassedOver(was[Ix(at, |was|) := x], now, from, at, id)
      requires forall k: nat :: freed <= k < freed + q.Length && k != at ==>
                 Right(k, SlotAt(was, k)) || (from <= k < at && SlotAt(was, k).state.Sent? && SlotAt(was, k).id == k + 1)
      ensures forall k: nat :: freed <= k < freed + q.Length ==> Right(k, SlotAt(now, k))
    {
      hide Ix, SlotAt;
      PutAt(was, at, x);
      KeptAround(was[Ix(at, |was|) := x], now, from, at, id);
      forall k: nat | freed <= k < freed + q.Length
        ensures Right(k, SlotAt(now, k))
      {
        if k < from {
          assert at <= k + |was|;
          assert SlotAt(now, k) == SlotAt(was, k);
        } else if k < at {
          assert SlotAt(now, k) == Passed(SlotAt(was, k), id);
        } else if k > at {
          assert SlotAt(now, k) == SlotAt(was, k);
        }
      }
    }
  }

  lemma PassedEnds(was: seq<Slot>, now: seq<Slot>, from: nat, to: nat, id: nat)
    requires PassedOver(was, now, from, to, id) && to < from + |was|
    ensures |now| == |was| && SlotAt(now, to) == SlotAt(was, to)
    ensures from == to ==> now == was
  {
    if from == to {
      hide SlotAt;
      forall i | 0 <= i < |was|
        ensures now[i] == was[i]
      {
        var k := Reaches(from, i, |was|);
        AtIs(was, k);
        AtIs(now, k);
      }
    }
  }

  /** A turn from any point visits every slot. */
  lemma Reaches(from: nat, i: nat, n: nat) returns (k: nat)
    requires i < n
    ensures from <= k < from + n && Ix(k, n) == i
  {
    var b := Ix(from, n);
    k := if b <= i then from + (i - b) else from + (i + n - b);
    IxPlus(from, k - from, n);
  }

  lemma PassedThenPut(was: seq<Slot>, mid: seq<Slot>, from: nat, at: nat, id: nat, x: Slot)
    requires PassedOver(was, mid, from, at, id) && at < from + |was|
    ensures |was| > 0 && |mid| == |was|
    ensures PassedOver(was[Ix(at, |was|) := x], mid[Ix(at, |was|) := x], from, at, id)
  {
    hide Ix, SlotAt;
    PutAt(was, at, x);
    PutAt(mid, at, x);
    var was', mid' := was[Ix(at, |was|) := x], mid[Ix(at, |was|) := x];
    forall k: nat | from <= k < from + |was|
      ensures k < at ==> SlotAt(mid', k) == Passed(SlotAt(was', k), id)
      ensures at <= k ==> SlotAt(mid', k) == SlotAt(was', k)
    {
      assert k != at ==> SlotAt(mid', k) == SlotAt(mid, k) && SlotAt(was', k) == SlotAt(was, k);
    }
  }

  /** Slots behind the ones passed over are those ahead, a turn later. */
  lemma KeptAround(was: seq<Slot>, now: seq<Slot>, from: nat, to: nat, id: nat)
    requires PassedOver(was, now, from, to, id)
    ensures forall k: nat :: k < from && to <= k + |was| ==> SlotAt(now, k) == SlotAt(was, k)
  {
    hide Ix, SlotAt;
    forall k: nat | k < from && to <= k + |was|
      ensures SlotAt(now, k) == SlotAt(was, k)
    {
      FullTurn(was, k);
      FullTurn(now, k);
    }
  }

  lemma FullTurn(slots: seq<Slot>, k: nat)
    requires |slots| > 0
    ensures SlotAt(slots, k + |slots|) == SlotAt(slots, k)
  {
    IxDistinct(k, k + |slots|, |slots|);
  }

  lemma IxNext(k: nat, n: nat)
    requires n > 0
    ensures Ix(k + 1, n) == Next(Ix(k, n), n)
  {
  }

  /** Stepping from `at`, less than a turn after `from`: where the scan wraps, and when it meets tail. */
  lemma ScanMeets(from: nat, at: nat, sent: nat, n: nat)
    requires n > 0 && from <= sent <= from + n && from <= at < from + n
    requires at < (if from == sent then from + n else sent)
    ensures Ix(at + 1, n) == Next(Ix(at, n), n)
    ensures n <= Ix(at, n) + 1 ==> at + 1 == from + n || !(Ix(at, n) < Ix(from, n))
    ensures at + 1 < from + n ==>
              (Ix(at + 1, n) < Ix(from, n) <==> n <= Ix(at, n) + 1 || Ix(at, n) < Ix(from, n))
    ensures Ix(at + 1, n) == Ix(sent, n) <==> at + 1 == (if from == sent then from + n else sent)
  {
    hide Ix;
    IxNext(at, n);
    IxPlus(from, at - from, n);
    IxPlus(from, at + 1 - from, n);
    IxPlus(from, sent - from, n);
  }
}
