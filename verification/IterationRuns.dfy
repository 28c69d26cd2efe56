/** What an iteration delivers. */
module IterationRuns {
  import opened Bytes
  import opened Trees
  import opened Wire
  import opened Iteration
  import Uuids

  /** A token of the depth-first reading of a value. */
  datatype Token = Begin(kind: Kind) | End(kind: Kind) | Name(key: seq<byte>) | Atom(x: Scalar)

  function Linear(v: Val): seq<Token>
    decreases v
  {
    match v
    case Leaf(x) => [Atom(x)]
    case Node(kind, items) => [Begin(kind)] + LinearItems(items) + [End(kind)]
  }

  function LinearItems(items: seq<Member>): seq<Token>
    decreases items
  {
    if items == [] then [] else LinearItem(items[0]) + LinearItems(items[1..])
  }

  function LinearItem(it: Member): seq<Token>
    decreases it
  {
    (match it.key case None => [] case Some(k) => [Name(k)]) + Linear(it.val)
  }

  /** The token's event, if its callback is installed. */
  function Seen(cb: Callbacks, token: Token): seq<Event> {
    var e := match token
      case Begin(kind) => Some(BeginEvent(kind))
      case End(kind) => Some(EndEvent(kind))
      case Name(k) => Some(Event(OnKey, Text(k)))
      case Atom(x) => ScalarEvent(cb, x);
    if e.Some? && e.value.slot in cb.installed then [e.value] else []
  }

  /** The token sequence filtered to the installed callbacks. */
  function Filtered(cb: Callbacks, tokens: seq<Token>): seq<Event> {
    if tokens == [] then [] else Seen(cb, tokens[0]) + Filtered(cb, tokens[1..])
  }

  /** The last event's callback answered false and is not one of the four that are not asked. */
  predicate Stopped(cb: Callbacks, trace: seq<Event>) {
    trace != [] && trace[|trace| - 1].slot !in {OnUuid, OnUuidStr, OnTime, OnTimeStr} && !cb.goesOn(trace)
  }

  /** No callback reports an error and every time that has to be rendered can be. */
  ghost predicate Calm(cb: Callbacks) {
    (forall t: seq<Event> :: !cb.fails(t, false)) && (OnTimeStr in cb.installed ==> forall ns: int :: cb.stamp(ns).Some?)
  }

  /** Deliver events in order, stopping after the first whose callback answers false. */
  function Deliver(cb: Callbacks, events: seq<Event>, trace: seq<Event>): St {
    if events == [] then St(trace, true, false)
    else if Stopped(cb, trace + [events[0]]) then St(trace + [events[0]], false, false)
    else Deliver(cb, events[1..], trace + [events[0]])
  }

  lemma {:induction false} DeliverAppend(cb: Callbacks, a: seq<Event>, b: seq<Event>, trace: seq<Event>)
    ensures Deliver(cb, a + b, trace)
            == var mid := Deliver(cb, a, trace); if mid.cont then Deliver(cb, b, mid.trace) else mid
    decreases |a|
  {
    if a == [] {
      assert a + b == b;
    } else {
      assert (a + b)[1..] == a[1..] + b;
      if !Stopped(cb, trace + [a[0]]) {
        DeliverAppend(cb, a[1..], b, trace + [a[0]]);
      }
    }
  }

  lemma {:induction false} FilteredAppend(cb: Callbacks, a: seq<Token>, b: seq<Token>)
    ensures Filtered(cb, a + b) == Filtered(cb, a) + Filtered(cb, b)
  {
    if a == [] {
      assert a + b == b;
    } else {
      assert (a + b)[1..] == a[1..] + b;
      FilteredAppend(cb, a[1..], b);
    }
  }

  /** Delivering the filtered tokens from a trace. */
  function Delivery(cb: Callbacks, tokens: seq<Token>, trace: seq<Event>): St {
    Deliver(cb, Filtered(cb, tokens), trace)
  }

  lemma DeliveryAppend(cb: Callbacks, a: seq<Token>, b: seq<Token>, trace: seq<Event>)
    ensures Delivery(cb, a + b, trace)
            == var mid := Delivery(cb, a, trace); if mid.cont then Delivery(cb, b, mid.trace) else mid
  {
    FilteredAppend(cb, a, b);
    DeliverAppend(cb, Filtered(cb, a), Filtered(cb, b), trace);
  }

  lemma {:induction false} DeliveryCalm(cb: Callbacks, events: seq<Event>, trace: seq<Event>)
    ensures !Deliver(cb, events, trace).err
    decreases |events|
  {
    if events != [] && !Stopped(cb, trace + [events[0]]) {
      DeliveryCalm(cb, events[1..], trace + [events[0]]);
    }
  }

  lemma OneToken(cb: Callbacks, token: Token, trace: seq<Event>)
    requires Calm(cb)
    ensures token.Atom? ==> Delivery(cb, [token], trace) == IterScalar(cb, token.x, St(trace, true, false))
    ensures token.Begin? ==> Delivery(cb, [token], trace) == Fire(cb, St(trace, true, false), BeginEvent(token.kind))
    ensures token.End? ==> Delivery(cb, [token], trace) == Fire(cb, St(trace, true, false), EndEvent(token.kind))
    ensures token.Name? ==>
              Delivery(cb, [token], trace) == Fire(cb, St(trace, true, false), Event(OnKey, Text(token.key)))
  {
    assert Filtered(cb, [token]) == Seen(cb, token);
    if Seen(cb, token) != [] {
      OneEvent(cb, Seen(cb, token)[0], trace);
    }
  }

  lemma OneEvent(cb: Callbacks, e: Event, trace: seq<Event>)
    requires Calm(cb) && e.slot in cb.installed
    ensures Deliver(cb, [e], trace) == Fire(cb, St(trace, true, false), e)
  {
    var next := trace + [e];
    assert next[|next| - 1] == e;
    assert Deliver(cb, [], next) == St(next, true, false);
  }

  /** Without errors, iterating is delivering the filtered depth-first sequence up to the first refusal. */
  lemma {:induction false} IterDelivers(cb: Callbacks, v: Val, trace: seq<Event>)
    requires Calm(cb)
    ensures IterVal(cb, v, St(trace, true, false)) == Delivery(cb, Linear(v), trace)
    decreases v
  {
    var st := St(trace, true, false);
    match v
    case Leaf(x) => OneToken(cb, Atom(x), trace);
    case Node(kind, items) =>
      var head, body, tail := [Begin(kind)], LinearItems(items), [End(kind)];
      OneToken(cb, Begin(kind), trace);
      DeliveryAppend(cb, head + body, tail, trace);
      DeliveryAppend(cb, head, body, trace);
      var begun := Fire(cb, st, BeginEvent(kind));
      DeliveryCalm(cb, Filtered(cb, head), trace);
      if begun.cont {
        IterItemsDeliver(cb, items, begun.trace);
        var inner := IterItems(cb, items, begun);
        DeliveryCalm(cb, Filtered(cb, body), begun.trace);
        OneToken(cb, End(kind), inner.trace);
      }
  }

  lemma {:induction false} IterItemsDeliver(cb: Callbacks, items: seq<Member>, trace: seq<Event>)
    requires Calm(cb)
    ensures IterItems(cb, items, St(trace, true, false)) == Delivery(cb, LinearItems(items), trace)
    decreases items
  {
    if items != [] {
      var it := items[0];
      IterItemDelivers(cb, it, trace);
      DeliveryAppend(cb, LinearItem(it), LinearItems(items[1..]), trace);
      var next := IterItem(cb, it, St(trace, true, false));
      DeliveryCalm(cb, Filtered(cb, LinearItem(it)), trace);
      if next.cont {
        IterItemsDeliver(cb, items[1..], next.trace);
      }
    }
  }

  lemma {:induction false} IterItemDelivers(cb: Callbacks, it: Member, trace: seq<Event>)
    requires Calm(cb)
    ensures IterItem(cb, it, St(trace, true, false)) == Delivery(cb, LinearItem(it), trace)
    decreases it
  {
    assert it.val < it;
    match it.key
    case None =>
      IterDelivers(cb, it.val, trace);
      assert LinearItem(it) == Linear(it.val);
    case Some(k) =>
      OneToken(cb, Name(k), trace);
      DeliveryAppend(cb, [Name(k)], Linear(it.val), trace);
      var named := Fire(cb, St(trace, true, false), Event(OnKey, Text(k)));
      DeliveryCalm(cb, Filtered(cb, [Name(k)]), trace);
      if named.cont {
        IterDelivers(cb, it.val, named.trace);
      }
  }

  /** In closed form: a prefix of the events, cut right after the first refusal, whole when there is none. */
  lemma {:induction false} DeliverPrefix(cb: Callbacks, events: seq<Event>, trace: seq<Event>) returns (n: nat)
    ensures n <= |events| && Deliver(cb, events, trace).trace == trace + events[..n]
    ensures Deliver(cb, events, trace).cont ==> n == |events|
    ensures !Deliver(cb, events, trace).cont ==> n > 0
    ensures forall k :: 0 < k <= n ==>
              (Stopped(cb, trace + events[..k]) <==> k == n && !Deliver(cb, events, trace).cont)
    decreases |events|
  {
    if events == [] {
      n := 0;
    } else {
      var next := trace + [events[0]];
      assert forall k :: 0 < k <= |events| ==> trace + events[..k] == next + events[1..][..k - 1];
      assert next + events[1..][..0] == next;
      if Stopped(cb, next) {
        n := 1;
      } else {
        var m := DeliverPrefix(cb, events[1..], next);
        n := m + 1;
        forall k | 0 < k <= n
          ensures Stopped(cb, trace + events[..k]) <==> k == n && !Deliver(cb, events, trace).cont
        {
          if k > 1 {
            assert trace + events[..k] == next + events[1..][..k - 1];
          }
        }
      }
    }
  }

  /** When every callback continues, iteration emits exactly the filtered depth-first sequence. */
  lemma AllDelivered(cb: Callbacks, v: Val)
    requires Calm(cb) && (forall t: seq<Event> :: cb.goesOn(t))
    ensures IterVal(cb, v, St([], true, false)) == St(Filtered(cb, Linear(v)), true, false)
  {
    IterDelivers(cb, v, []);
    var events := Filtered(cb, Linear(v));
    var n := DeliverPrefix(cb, events, []);
    if !Deliver(cb, events, []).cont {
      NeverRefused(cb, events, []);
    }
    DeliveryCalm(cb, events, []);
    assert events[..|events|] == events;
  }

  lemma {:induction false} NeverRefused(cb: Callbacks, events: seq<Event>, trace: seq<Event>)
    requires forall t: seq<Event> :: cb.goesOn(t)
    ensures Deliver(cb, events, trace).cont
    decreases |events|
  {
    if events != [] {
      NeverRefused(cb, events[1..], trace + [events[0]]);
    }
  }

  // ---- with errors ----

  /** st continues the run from `was`, and no event follows one whose callback answered false. */
  predicate Obedient(cb: Callbacks, was: seq<Event>, st: St) {
    && |was| <= |st.trace| && st.trace[..|was|] == was
    && (forall k :: |was| < k < |st.trace| ==> !Stopped(cb, st.trace[..k]))
    && (st.cont <==> |was| == |st.trace| || !Stopped(cb, st.trace))
  }

  lemma ObedientThen(cb: Callbacks, was: seq<Event>, mid: St, st: St)
    requires Obedient(cb, was, mid) && mid.cont && Obedient(cb, mid.trace, st)
    ensures Obedient(cb, was, st)
  {
    assert st.trace[..|was|] == st.trace[..|mid.trace|][..|was|];
    assert st.trace[..|st.trace|] == st.trace;
    forall k | |was| < k < |st.trace|
      ensures !Stopped(cb, st.trace[..k])
    {
      if k < |mid.trace| {
        assert st.trace[..k] == st.trace[..|mid.trace|][..k];
      }
    }
  }

  lemma FireObeys(cb: Callbacks, st: St, e: Event)
    requires st.cont
    ensures Obedient(cb, st.trace, Fire(cb, st, e))
  {
  }

  /** Whatever errors the callbacks report, nothing is delivered after a refusal. */
  lemma {:induction false} IterObeys(cb: Callbacks, v: Val, st: St)
    requires st.cont
    ensures Obedient(cb, st.trace, IterVal(cb, v, st))
    decreases v
  {
    match v
    case Leaf(x) =>
      if ScalarEvent(cb, x).Some? {
        FireObeys(cb, st, ScalarEvent(cb, x).value);
      }
    case Node(kind, items) =>
      var begun := Fire(cb, st, BeginEvent(kind));
      FireObeys(cb, st, BeginEvent(kind));
      if begun.cont {
        var inner := IterItems(cb, items, begun);
        IterItemsObey(cb, items, begun);
        ObedientThen(cb, st.trace, begun, inner);
        if inner.cont {
          FireObeys(cb, inner, EndEvent(kind));
          ObedientThen(cb, st.trace, inner, Fire(cb, inner, EndEvent(kind)));
        }
      }
  }

  lemma {:induction false} IterItemsObey(cb: Callbacks, items: seq<Member>, st: St)
    requires st.cont
    ensures Obedient(cb, st.trace, IterItems(cb, items, st))
    decreases items
  {
    if items != [] {
      var it := items[0];
      assert it.val < it;
      var next := IterItem(cb, it, st);
      if it.key.Some? {
        var e := Event(OnKey, Text(it.key.value));
        var named := Fire(cb, st, e);
        FireObeys(cb, st, e);
        if !Halted(named) {
          IterObeys(cb, it.val, named);
          ObedientThen(cb, st.trace, named, next);
        }
      } else {
        IterObeys(cb, it.val, st);
      }
      if !Halted(next) {
        IterItemsObey(cb, items[1..], next);
        ObedientThen(cb, st.trace, next, IterItems(cb, items[1..], next));
      }
    }
  }

  // ---- refusals that are not asked for ----

  /** The number of events up to and including the first whose callback answers false, UUIDs and times included. */
  function FirstRefusal(cb: Callbacks, events: seq<Event>, k: nat): (n: nat)
    requires k <= |events|
    ensures k <= n <= |events|
    ensures forall j :: k < j < n ==> cb.goesOn(events[..j])
    ensures n < |events| ==> n > k && !cb.goesOn(events[..n])
    decreases |events| - k
  {
    if k == |events| then k
    else if !cb.goesOn(events[..k + 1]) then k + 1
    else FirstRefusal(cb, events, k + 1)
  }

  /** The kth event's callback is asked and answers false. */
  predicate Asked(cb: Callbacks, events: seq<Event>, k: nat)
    requires 0 < k <= |events|
  {
    !Mute(events[k - 1].slot) && !cb.goesOn(events[..k])
  }

  lemma FromStart(cb: Callbacks, events: seq<Event>) returns (m: nat)
    ensures m <= |events| && Deliver(cb, events, []).trace == events[..m]
    ensures m < |events| ==> m > 0 && Asked(cb, events, m)
    ensures forall k :: 0 < k < m ==> !Asked(cb, events, k)
  {
    m := DeliverPrefix(cb, events, []);
    assert [] + events[..m] == events[..m];
    forall k | 0 < k <= m
      ensures Stopped(cb, [] + events[..k]) <==> Asked(cb, events, k)
    {
      assert [] + events[..k] == events[..k];
    }
  }

  /** The events end right after the first refusal of any callback iff that is not a UUID's or a time's, or there is
      no further event. */
  lemma EndsAtRefusal(cb: Callbacks, v: Val)
    requires Calm(cb)
    ensures var events := Filtered(cb, Linear(v));
            var n := FirstRefusal(cb, events, 0);
            IterVal(cb, v, St([], true, false)).trace == events[..n]
            <==> n == |events| || events[n - 1].slot !in {OnUuid, OnUuidStr, OnTime, OnTimeStr}
  {
    var events := Filtered(cb, Linear(v));
    IterDelivers(cb, v, []);
    hide Filtered, Linear, IterVal, Deliver, FirstRefusal, Calm;
    var n := FirstRefusal(cb, events, 0);
    var m := FromStart(cb, events);
    Prefixes(events, m, n);
    Meets(cb, events, m, n);
  }

  lemma Meets(cb: Callbacks, events: seq<Event>, m: nat, n: nat)
    requires m <= |events| && (m < |events| ==> m > 0 && Asked(cb, events, m))
    requires forall k :: 0 < k < m ==> !Asked(cb, events, k)
    requires n <= |events| && (forall j :: 0 < j < n ==> cb.goesOn(events[..j]))
    requires n < |events| ==> n > 0 && !cb.goesOn(events[..n])
    ensures m == n <==> n == |events| || !Mute(events[n - 1].slot)
  {
    assert n > 0 ==> (Asked(cb, events, n) <==> !Mute(events[n - 1].slot) && !cb.goesOn(events[..n]));
    assert m > 0 ==> (Asked(cb, events, m) <==> !Mute(events[m - 1].slot) && !cb.goesOn(events[..m]));
  }

  lemma Prefixes(events: seq<Event>, m: nat, n: nat)
    requires m <= |events| && n <= |events|
    ensures events[..m] == events[..n] <==> m == n
  {
    assert |events[..m]| == m && |events[..n]| == n;
  }

  /** A refused UUID is followed by the next event all the same. */
  lemma UuidRefusalIgnored(hi: nat, lo: nat)
    ensures var cb := Callbacks({OnUuid, OnNull}, t => false, (t, err) => err, ns => None);
            IterVal(cb, Node(Arr, [Item(None, Leaf(Uuid(hi, lo))), Item(None, Leaf(Null))]), St([], true, false)).trace
            == [Event(OnUuid, Pair(hi, lo)), Event(OnNull, NoArg)]
  {
    var cb := Callbacks({OnUuid, OnNull}, t => false, (t, err) => err, ns => None);
    var items := [Item(None, Leaf(Uuid(hi, lo))), Item(None, Leaf(Null))];
    var st := St([], true, false);
    var first := IterItem(cb, items[0], st);
    assert first == IterVal(cb, items[0].val, st) == Fire(cb, st, Event(OnUuid, Pair(hi, lo)));
    assert first == St([Event(OnUuid, Pair(hi, lo))], true, false);
    var second := IterItem(cb, items[1], first);
    assert second == IterVal(cb, items[1].val, first) == Fire(cb, first, Event(OnNull, NoArg));
    assert second == St([Event(OnUuid, Pair(hi, lo)), Event(OnNull, NoArg)], false, false);
    assert IterItems(cb, items[1..], first) == second;
  }

  // ---- errors: one pass over the tokens ----

  function Meet(cb: Callbacks, t: Token, st: St): St {
    match t
    case Begin(kind) => Fire(cb, st, BeginEvent(kind))
    case End(kind) => Fire(cb, st, EndEvent(kind))
    case Name(k) => Fire(cb, st, Event(OnKey, Text(k)))
    case Atom(x) => IterScalar(cb, x, st)
  }

  /** From the end of the innermost container on that is open before the tokens. */
  function Skip(tokens: seq<Token>, d: nat): (r: seq<Token>)
    ensures |r| <= |tokens|
    ensures r != [] ==> r[0].End?
  {
    if tokens == [] then []
    else if tokens[0].Begin? then Skip(tokens[1..], d + 1)
    else if !tokens[0].End? then Skip(tokens[1..], d)
    else if d == 0 then tokens
    else Skip(tokens[1..], d - 1)
  }

  /** The tokens after t with an error set: a container just begun goes on to its first token, after any other token
      the rest of the innermost open container is left out. */
  function Next(t: Token, rest: seq<Token>): (r: seq<Token>)
    ensures |r| <= |rest|
  {
    if t.Begin? then rest else Skip(rest, 0)
  }

  /** The reading in one pass: stop at a refusal, leave out tokens after an error. */
  function Flow(cb: Callbacks, tokens: seq<Token>, st: St): St
    decreases |tokens|
  {
    if tokens == [] || !st.cont then st
    else
      var next := Meet(cb, tokens[0], st);
      Flow(cb, if next.err then Next(tokens[0], tokens[1..]) else tokens[1..], next)
  }

  lemma {:induction false} SkipVal(v: Val, k: seq<Token>, d: nat)
    ensures Skip(Linear(v) + k, d) == Skip(k, d)
    decreases v
  {
    match v
    case Leaf(x) =>
      assert (Linear(v) + k)[1..] == k;
    case Node(kind, items) =>
      var inner := LinearItems(items) + ([End(kind)] + k);
      assert Linear(v) + k == [Begin(kind)] + inner;
      assert ([Begin(kind)] + inner)[1..] == inner;
      SkipItems(items, [End(kind)] + k, d + 1);
      assert ([End(kind)] + k)[1..] == k;
  }

  lemma {:induction false} SkipItems(items: seq<Member>, k: seq<Token>, d: nat)
    ensures Skip(LinearItems(items) + k, d) == Skip(k, d)
    decreases items
  {
    if items == [] {
      assert LinearItems(items) + k == k;
    } else {
      var it, rest := items[0], LinearItems(items[1..]) + k;
      assert it.val < it;
      assert LinearItems(items) + k == LinearItem(it) + rest;
      SkipItem(it, rest, d);
      SkipItems(items[1..], k, d);
    }
  }

  lemma {:induction false} SkipItem(it: Member, k: seq<Token>, d: nat)
    ensures Skip(LinearItem(it) + k, d) == Skip(k, d)
    decreases it
  {
    assert it.val < it;
    SkipVal(it.val, k, d);
    match it.key
    case None =>
      assert LinearItem(it) == Linear(it.val);
    case Some(key) =>
      assert LinearItem(it) + k == [Name(key)] + (Linear(it.val) + k);
      assert ([Name(key)] + (Linear(it.val) + k))[1..] == Linear(it.val) + k;
  }

  /** What follows a value whose reading ended in r. */
  function Resume(cb: Callbacks, r: St, k: seq<Token>): St {
    Flow(cb, if r.err then Skip(k, 0) else k, r)
  }

  lemma FlowStep(cb: Callbacks, t: Token, k: seq<Token>, st: St)
    requires st.cont
    ensures var next := Meet(cb, t, st);
            Flow(cb, [t] + k, st) == Flow(cb, if next.err then Next(t, k) else k, next)
  {
    assert ([t] + k)[1..] == k;
  }

  lemma {:induction false} FlowVal(cb: Callbacks, v: Val, k: seq<Token>, st: St)
    requires st.cont
    ensures Flow(cb, Linear(v) + k, st) == Resume(cb, IterVal(cb, v, st), k)
    decreases v
  {
    match v
    case Leaf(x) =>
      FlowStep(cb, Atom(x), k, st);
    case Node(kind, items) =>
      var tail := [End(kind)] + k;
      var begun := Fire(cb, st, BeginEvent(kind));
      assert Linear(v) + k == [Begin(kind)] + (LinearItems(items) + tail);
      FlowStep(cb, Begin(kind), LinearItems(items) + tail, st);
      if begun.cont {
        FlowItems(cb, items, tail, begun);
        var inner := IterItems(cb, items, begun);
        if inner.cont {
          FlowStep(cb, End(kind), k, inner);
        }
      }
  }

  lemma {:induction false} FlowItems(cb: Callbacks, items: seq<Member>, tail: seq<Token>, st: St)
    requires st.cont && tail != [] && tail[0].End?
    ensures Flow(cb, LinearItems(items) + tail, st) == Flow(cb, tail, IterItems(cb, items, st))
    decreases items
  {
    if items == [] {
      assert LinearItems(items) + tail == tail;
    } else {
      var it, rest := items[0], LinearItems(items[1..]);
      assert LinearItems(items) + tail == LinearItem(it) + (rest + tail);
      FlowItem(cb, it, rest + tail, st);
      SkipItems(items[1..], tail, 0);
      var next := IterItem(cb, it, st);
      if !Halted(next) {
        FlowItems(cb, items[1..], tail, next);
      }
    }
  }

  lemma {:induction false} FlowItem(cb: Callbacks, it: Member, k: seq<Token>, st: St)
    requires st.cont
    ensures Flow(cb, LinearItem(it) + k, st) == Resume(cb, IterItem(cb, it, st), k)
    decreases it
  {
    assert it.val < it;
    match it.key
    case None =>
      assert LinearItem(it) == Linear(it.val);
      FlowVal(cb, it.val, k, st);
    case Some(key) =>
      var named := Fire(cb, st, Event(OnKey, Text(key)));
      assert LinearItem(it) + k == [Name(key)] + (Linear(it.val) + k);
      FlowStep(cb, Name(key), Linear(it.val) + k, st);
      SkipVal(it.val, k, 0);
      if !Halted(named) {
        FlowVal(cb, it.val, k, named);
      }
  }

  /** Whatever the callbacks do with errors, iterating is that one pass over the tokens. */
  lemma IterFlows(cb: Callbacks, v: Val, st: St)
    requires st.cont
    ensures IterVal(cb, v, st) == Flow(cb, Linear(v), st)
  {
    FlowVal(cb, v, [], st);
    assert Linear(v) + [] == Linear(v);
  }

  // ---- after the first error ----

  /** The moment an error is first set: the state right after, the token met and those behind it. */
  datatype Mishap = Mishap(st: St, token: Token, rest: seq<Token>)

  function FirstError(cb: Callbacks, tokens: seq<Token>, st: St): Option<Mishap>
    decreases |tokens|
  {
    if tokens == [] || !st.cont then None
    else
      var next := Meet(cb, tokens[0], st);
      if next.err then Some(Mishap(next, tokens[0], tokens[1..])) else FirstError(cb, tokens[1..], next)
  }

  /** The tokens still met while the error stays set. */
  function Left(t: Token, rest: seq<Token>): seq<Token>
    decreases |rest|
  {
    var r := Next(t, rest);
    if r == [] then [] else [r[0]] + Left(r[0], r[1..])
  }

  /** The ends of the containers open before the tokens. */
  function Closers(tokens: seq<Token>, d: nat): seq<Token> {
    if tokens == [] then []
    else if tokens[0].Begin? then Closers(tokens[1..], d + 1)
    else if !tokens[0].End? then Closers(tokens[1..], d)
    else if d == 0 then [tokens[0]] + Closers(tokens[1..], 0)
    else Closers(tokens[1..], d - 1)
  }

  lemma {:induction false} ClosersSkip(tokens: seq<Token>, d: nat)
    ensures Closers(tokens, d) == var s := Skip(tokens, d); if s == [] then [] else [s[0]] + Closers(s[1..], 0)
  {
    if tokens != [] {
      if tokens[0].Begin? {
        ClosersSkip(tokens[1..], d + 1);
      } else if !tokens[0].End? {
        ClosersSkip(tokens[1..], d);
      } else if d > 0 {
        ClosersSkip(tokens[1..], d - 1);
      }
    }
  }

  /** They are the first token of a container just begun, and then the ends of the open containers. */
  lemma {:induction false} LeftIs(t: Token, rest: seq<Token>)
    ensures Left(t, rest)
            == if t.Begin? && rest != [] then [rest[0]] + Left(rest[0], rest[1..]) else Closers(rest, 0)
    decreases |rest|
  {
    if !t.Begin? {
      ClosersSkip(rest, 0);
      var r := Skip(rest, 0);
      if r != [] {
        LeftIs(r[0], r[1..]);
      }
    }
  }

  lemma {:induction false} FlowToError(cb: Callbacks, tokens: seq<Token>, st: St)
    requires !st.err
    ensures match FirstError(cb, tokens, st)
            case None => !Flow(cb, tokens, st).err
            case Some(h) => h.st.err && Flow(cb, tokens, st) == Flow(cb, Next(h.token, h.rest), h.st)
    decreases |tokens|
  {
    if tokens != [] && st.cont {
      var next := Meet(cb, tokens[0], st);
      if !next.err {
        FlowToError(cb, tokens[1..], next);
      }
    }
  }

  lemma {:induction false} FlowExtends(cb: Callbacks, tokens: seq<Token>, st: St)
    ensures |Flow(cb, tokens, st).trace| >= |st.trace|
    decreases |tokens|
  {
    if tokens != [] && st.cont {
      var next := Meet(cb, tokens[0], st);
      FlowExtends(cb, if next.err then Next(tokens[0], tokens[1..]) else tokens[1..], next);
    }
  }

  /** Meeting a token without a callback changes nothing when an error is set already; with one it adds an event. */
  lemma MeetSeen(cb: Callbacks, t: Token, st: St)
    requires st.err
    ensures if Seen(cb, t) == [] then Meet(cb, t, st) == st else Meet(cb, t, st).trace == st.trace + Seen(cb, t)
  {
  }

  lemma {:induction false} QuietFlow(cb: Callbacks, t: Token, rest: seq<Token>, st: St)
    requires st.err && st.cont
    ensures Flow(cb, Next(t, rest), st).trace == st.trace <==> Filtered(cb, Left(t, rest)) == []
    decreases |rest|
  {
    var r := Next(t, rest);
    if r != [] {
      var next := Meet(cb, r[0], st);
      MeetSeen(cb, r[0], st);
      assert Left(t, rest)[1..] == Left(r[0], r[1..]);
      if Seen(cb, r[0]) == [] {
        QuietFlow(cb, r[0], r[1..], next);
      } else {
        FlowExtends(cb, if next.err then Next(r[0], r[1..]) else r[1..], next);
      }
    }
  }

  /** No event follows the first error iff its callback refused, or none of the tokens still met has a callback. */
  lemma ErrorEndsEvents(cb: Callbacks, v: Val, trace: seq<Event>)
    requires FirstError(cb, Linear(v), St(trace, true, false)).Some?
    ensures var h := FirstError(cb, Linear(v), St(trace, true, false)).value;
            IterVal(cb, v, St(trace, true, false)).trace == h.st.trace
            <==> !h.st.cont || Filtered(cb, Left(h.token, h.rest)) == []
  {
    var st := St(trace, true, false);
    var h := FirstError(cb, Linear(v), st).value;
    IterFlows(cb, v, st);
    FlowToError(cb, Linear(v), st);
    if h.st.cont {
      QuietFlow(cb, h.token, h.rest, h.st);
    }
  }

  /** No callback takes an error back. */
  ghost predicate Sticky(cb: Callbacks) {
    forall t: seq<Event> :: cb.fails(t, true)
  }

  /** Meet tokens up to the first refusal. */
  function MeetAll(cb: Callbacks, tokens: seq<Token>, st: St): St
    decreases |tokens|
  {
    if tokens == [] || !st.cont then st else MeetAll(cb, tokens[1..], Meet(cb, tokens[0], st))
  }

  lemma {:induction false} ErrorFlow(cb: Callbacks, t: Token, rest: seq<Token>, st: St)
    requires Sticky(cb) && st.err
    ensures Flow(cb, Next(t, rest), st) == MeetAll(cb, Left(t, rest), st)
    decreases |rest|
  {
    var r := Next(t, rest);
    if r != [] && st.cont {
      var next := Meet(cb, r[0], st);
      assert next.err;
      assert Left(t, rest)[1..] == Left(r[0], r[1..]);
      ErrorFlow(cb, r[0], r[1..], next);
    }
  }

  /** Exactly what follows the first error when no callback takes it back: the first token of a container just begun,
      then the ends of the open containers, up to a refusal. */
  lemma AfterError(cb: Callbacks, v: Val, trace: seq<Event>)
    requires Sticky(cb)
    ensures match FirstError(cb, Linear(v), St(trace, true, false))
            case None => !IterVal(cb, v, St(trace, true, false)).err
            case Some(h) => IterVal(cb, v, St(trace, true, false)) == MeetAll(cb, Left(h.token, h.rest), h.st)
  {
    var st := St(trace, true, false);
    IterFlows(cb, v, st);
    FlowToError(cb, Linear(v), st);
    if FirstError(cb, Linear(v), st).Some? {
      var h := FirstError(cb, Linear(v), st).value;
      ErrorFlow(cb, h.token, h.rest, h.st);
    }
  }

  /** An error set by a begin callback still lets the first member and the end through; one set by a member's own
      callback still lets the end through. */
  lemma ErrorRunsOn(a: int, b: int)
    ensures var v := Node(Arr, [Item(None, Leaf(Int(a))), Item(None, Leaf(Int(b)))]);
            var cb := Callbacks({OnBeginArray, OnFixnum, OnEndArray}, t => true, (t, err) => true, ns => None);
            IterVal(cb, v, St([], true, false)).trace
            == [Event(OnBeginArray, NoArg), Event(OnFixnum, Num(a)), Event(OnEndArray, NoArg)]
            && IterVal(cb.(installed := {OnFixnum, OnEndArray}), v, St([], true, false)).trace
               == [Event(OnFixnum, Num(a)), Event(OnEndArray, NoArg)]
  {
    var cb := Callbacks({OnBeginArray, OnFixnum, OnEndArray}, t => true, (t, err) => true, ns => None);
    var items := [Item(None, Leaf(Int(a))), Item(None, Leaf(Int(b)))];
    FirstOnly(cb, items, Fire(cb, St([], true, false), BeginEvent(Arr)));
    FirstOnly(cb.(installed := {OnFixnum, OnEndArray}), items, St([], true, false));
  }

  lemma FirstOnly(cb: Callbacks, items: seq<Member>, st: St)
    requires items != [] && st.cont && OnFixnum in cb.installed && items[0].key.None?
    requires items[0].val.Leaf? && items[0].val.leaf.Int?
    requires cb.goesOn(st.trace + [Event(OnFixnum, Num(items[0].val.leaf.i))])
    requires cb.fails(st.trace + [Event(OnFixnum, Num(items[0].val.leaf.i))], st.err)
    ensures IterItems(cb, items, st) == St(st.trace + [Event(OnFixnum, Num(items[0].val.leaf.i))], true, true)
  {
    var e := Event(OnFixnum, Num(items[0].val.leaf.i));
    assert IterItem(cb, items[0], st) == IterVal(cb, items[0].val, st) == Fire(cb, st, e);
  }

  // ---- what each callback is given ----

  function When(cb: Callbacks, slot: Slot, arg: Arg): seq<Event> {
    if slot in cb.installed then [Event(slot, arg)] else []
  }

  /** The event of each scalar: its own slot and payload, the raw form of a UUID or time before its text, nothing
      without a callback. */
  lemma ScalarTrace(cb: Callbacks, x: Scalar, trace: seq<Event>)
    requires Calm(cb)
    ensures var events := IterVal(cb, Leaf(x), St(trace, true, false)).trace;
            && (x.Null? ==> events == trace + When(cb, OnNull, NoArg))
            && (x.Bool? ==> events == trace + When(cb, OnBoolean, Flag(x.b)))
            && (x.Int? ==> events == trace + When(cb, OnFixnum, Num(x.i)))
            && (x.Str? ==> events == trace + When(cb, OnString, Text(x.s)))
            && (x.Dec? ==> events == trace + When(cb, OnDecimal, Text(x.text)))
            && (x.Uuid? && OnUuid in cb.installed ==> events == trace + [Event(OnUuid, Pair(x.hi, x.lo))])
            && (x.Uuid? && OnUuid !in cb.installed ==>
                  events == trace + When(cb, OnUuidStr, Text(Uuids.PrintUuid(x.hi, x.lo))))
            && (x.Time? && OnTime in cb.installed ==> events == trace + [Event(OnTime, Num(x.ns))])
            && (x.Time? && OnTime !in cb.installed && OnTimeStr in cb.installed ==>
                  events == trace + [Event(OnTimeStr, Text(cb.stamp(x.ns).value))])
            && (x.Time? && OnTime !in cb.installed && OnTimeStr !in cb.installed ==> events == trace)
  {
    hide Uuids.PrintUuid;
  }

  /** A time that cannot be rendered raises an error and no event, where only the text form is wanted. */
  lemma UnprintableTime(cb: Callbacks, ns: int, trace: seq<Event>)
    requires cb.stamp(ns).None? && OnTime !in cb.installed
    ensures IterVal(cb, Leaf(Time(ns)), St(trace, true, false)) == St(trace, true, OnTimeStr in cb.installed)
  {
  }

  lemma FilteredOne(cb: Callbacks, t: Token)
    ensures Filtered(cb, [t]) == Seen(cb, t)
  {
    assert [t][1..] == [];
  }

  /** The events of a value when every callback goes on. */
  function Events(cb: Callbacks, v: Val): seq<Event> {
    IterVal(cb, v, St([], true, false)).trace
  }

  /** A keyed member: begin, key, the member's events, end, each where its callback is installed. */
  lemma ObjectEvents(cb: Callbacks, key: seq<byte>, v: Val)
    requires Calm(cb) && (forall t: seq<Event> :: cb.goesOn(t))
    ensures Events(cb, Node(Obj, [Item(Some(key), v)]))
            == When(cb, OnBeginObject, NoArg) + When(cb, OnKey, Text(key)) + Events(cb, v) + When(cb, OnEndObject, NoArg)
    ensures Events(cb, Node(Arr, [Item(None, v)]))
            == When(cb, OnBeginArray, NoArg) + Events(cb, v) + When(cb, OnEndArray, NoArg)
  {
    AllDelivered(cb, v);
    AllDelivered(cb, Node(Obj, [Item(Some(key), v)]));
    AllDelivered(cb, Node(Arr, [Item(None, v)]));
    KeyedLinear(key, v);
    hide IterVal, Linear;
    var b, k, e, n := [Begin(Obj)], [Name(key)], [End(Obj)], Linear(v);
    FilteredAppend(cb, b + k + n, e);
    FilteredAppend(cb, b + k, n);
    FilteredAppend(cb, b, k);
    FilteredOne(cb, Begin(Obj));
    FilteredOne(cb, Name(key));
    FilteredOne(cb, End(Obj));
    FilteredAppend(cb, [Begin(Arr)] + n, [End(Arr)]);
    FilteredAppend(cb, [Begin(Arr)], n);
    FilteredOne(cb, Begin(Arr));
    FilteredOne(cb, End(Arr));
    hide Filtered;
  }

  lemma KeyedLinear(key: seq<byte>, v: Val)
    ensures Linear(Node(Obj, [Item(Some(key), v)])) == [Begin(Obj)] + [Name(key)] + Linear(v) + [End(Obj)]
    ensures Linear(Node(Arr, [Item(None, v)])) == [Begin(Arr)] + Linear(v) + [End(Arr)]
  {
    var a, b: seq<Member> := [Item(Some(key), v)], [Item(None, v)];
    assert a[1..] == [] && b[1..] == [];
    assert LinearItems(a[1..]) == [] && LinearItems(b[1..]) == [];
    assert LinearItems(a) == LinearItem(a[0]) && LinearItems(b) == LinearItem(b[0]);
  }

  /** After one event: its callback's answer decides, but a UUID's or a time's is dropped. */
  lemma RefusalStops(cb: Callbacks, v: Val)
    requires Calm(cb) && |Filtered(cb, Linear(v))| >= 2 && (forall t: seq<Event> :: !cb.goesOn(t))
    ensures var first := Filtered(cb, Linear(v))[0].slot;
            |Events(cb, v)| == 1
            <==> first in {OnNull, OnBoolean, OnFixnum, OnString, OnDecimal, OnKey, OnBeginObject, OnEndObject,
                           OnBeginArray, OnEndArray}
  {
    var events := Filtered(cb, Linear(v));
    EndsAtRefusal(cb, v);
    hide IterVal, Filtered, Linear;
    assert FirstRefusal(cb, events, 0) == 1;
    IterDelivers(cb, v, []);
    var m := FromStart(cb, events);
    Prefixes(events, m, 1);
    assert Events(cb, v) == events[..m] && |events[..m]| == m;
    var first := events[0].slot;
    assert events[1 - 1].slot == first;
    SlotKinds(first);
  }

  lemma SlotKinds(slot: Slot)
    ensures slot in {OnNull, OnBoolean, OnFixnum, OnString, OnDecimal, OnKey, OnBeginObject, OnEndObject,
                     OnBeginArray, OnEndArray}
        <==> slot !in {OnUuid, OnUuidStr, OnTime, OnTimeStr}
  {
  }
}
