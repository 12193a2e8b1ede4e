/**
  The buffer gate: writes are passed on in order, and are kept in a bounded buffer while the gate below
  cannot take them.  Each accepted write has a ticket, its place among the accepted ones.
 */
module BufferGate {
  import opened Bytes
  import opened Sequences

  type Data = seq<Byte>

  datatype Entry = Entry(ticket: nat, data: Data, sent: bool)

  /** A write the gate below was given. */
  datatype Item = Item(ticket: nat, data: Data)

  /** accepted, down and dropped are histories: the writes taken, those passed on, those removed unsent. */
  datatype Gate = Gate(buffer: seq<Entry>, soft: bool, linked: bool, writable: bool,
                       accepted: seq<Data>, down: seq<Item>, dropped: set<nat>)

  const INITIAL := Gate([], true, false, false, [], [], {})

  // What the operations do

  /** The buffer after at most n of its unsent entries are sent, in order. */
  function SentBuffer(b: seq<Entry>, n: nat): (r: seq<Entry>)
    ensures |r| == |b|
  {
    if b == [] || n == 0 then b
    else if b[0].sent then [b[0]] + SentBuffer(b[1..], n)
    else [b[0].(sent := true)] + SentBuffer(b[1..], n - 1)
  }

  function SentItems(b: seq<Entry>, n: nat): (r: seq<Item>)
    ensures |r| <= n
  {
    if b == [] || n == 0 then []
    else if b[0].sent then SentItems(b[1..], n)
    else [Item(b[0].ticket, b[0].data)] + SentItems(b[1..], n - 1)
  }

  /** DrainBuffer, when the gate below stops being writable once it has taken room + 1 writes. */
  function Drained(g: Gate, room: nat): (r: Gate) {
    if !g.writable then g
    else
      var items := SentItems(g.buffer, room + 1);
      g.(buffer := SentBuffer(g.buffer, room + 1), down := g.down + items, writable := |items| <= room)
  }

  function Written(g: Gate, max: nat, data: Data): (r: Gate) {
    var t := |g.accepted|;
    if !g.writable || !g.linked || g.buffer != [] then
      if !g.soft then g
      else
        g.(buffer := g.buffer + [Entry(t, data, false)], accepted := g.accepted + [data],
           soft := |g.buffer| + 1 != max)
    else g.(accepted := g.accepted + [data], down := g.down + [Item(t, data)])
  }

  /** The i-th buffered write is finished: sent and answered, or stopped. */
  function Removed(g: Gate, i: nat): (r: Gate)
    requires i < |g.buffer|
  {
    var e := g.buffer[i];
    g.(buffer := g.buffer[..i] + g.buffer[i + 1..], soft := true,
       dropped := g.dropped + if e.sent then {} else {e.ticket})
  }

  function Updated(g: Gate, linked: bool, writable: bool, room: nat): (r: Gate) {
    var g' := g.(linked := linked, writable := writable);
    if linked then Drained(g', room) else g'
  }

  // Runs

  datatype Event =
    | Write(data: Data)
    | Remove(i: nat, room: nat)
    | Update(linked: bool, writable: bool, room: nat)

  function Apply(g: Gate, max: nat, e: Event): (r: Gate) {
    match e
    case Write(data) => Written(g, max, data)
    case Remove(i, room) => if i < |g.buffer| then Drained(Removed(g, i), room) else g
    case Update(linked, writable, room) => Updated(g, linked, writable, room)
  }

  function After(g: Gate, max: nat, run: seq<Event>): (r: Gate) {
    if run == [] then g else Apply(After(g, max, run[..|run| - 1]), max, run[|run| - 1])
  }

  /** Tickets rise, and all belong to accepted writes with these data. */
  ghost predicate InOrder(items: seq<Item>, accepted: seq<Data>) {
    && (forall i :: 0 <= i < |items| ==> items[i].ticket < |accepted| && items[i].data == accepted[items[i].ticket])
    && forall i, j :: 0 <= i < j < |items| ==> items[i].ticket < items[j].ticket
  }

  /** What is in the buffer and not sent yet. */
  function Waiting(b: seq<Entry>): (r: seq<Item>) {
    if b == [] then []
    else (if b[0].sent then [] else [Item(b[0].ticket, b[0].data)]) + Waiting(b[1..])
  }

  /** Everything passed on and then everything waiting is in order, and what is in neither was dropped. */
  ghost predicate Ordered(g: Gate) {
    && InOrder(g.down + Waiting(g.buffer), g.accepted)
    && (forall t :: t in g.dropped ==> t < |g.accepted|)
    && forall t :: 0 <= t < |g.accepted| ==> (t in g.dropped <==> !HasTicket(g.down + Waiting(g.buffer), t))
  }

  ghost predicate HasTicket(items: seq<Item>, t: nat) {
    exists i :: 0 <= i < |items| && items[i].ticket == t
  }

  /** The buffer is within its bound, and writable exactly when it has room; a bound of zero is none. */
  ghost predicate Bounded(g: Gate, max: nat) {
    if max == 0 then g.soft else |g.buffer| <= max && (g.soft <==> |g.buffer| < max)
  }

  lemma {:induction false} SendingMovesItems(b: seq<Entry>, n: nat)
    ensures SentItems(b, n) + Waiting(SentBuffer(b, n)) == Waiting(b)
  {
    if b == [] || n == 0 {
    } else {
      SendingMovesItems(b[1..], if b[0].sent then n else n - 1);
    }
  }

  lemma {:induction false} WaitingConcat(a: seq<Entry>, b: seq<Entry>)
    ensures Waiting(a + b) == Waiting(a) + Waiting(b)
  {
    if a == [] {
      assert a + b == b;
    } else {
      WaitingConcat(a[1..], b);
      assert (a + b)[1..] == a[1..] + b && (a + b)[0] == a[0];
      var first := if a[0].sent then [] else [Item(a[0].ticket, a[0].data)];
      assert first + (Waiting(a[1..]) + Waiting(b)) == first + Waiting(a[1..]) + Waiting(b);
    }
  }

  lemma DrainKeeps(g: Gate, room: nat)
    requires Ordered(g)
    ensures Ordered(Drained(g, room)) && forall max :: Bounded(g, max) ==> Bounded(Drained(g, room), max)
  {
    if g.writable {
      SendingMovesItems(g.buffer, room + 1);
      var r := Drained(g, room);
      assert r.down + Waiting(r.buffer) == g.down + (SentItems(g.buffer, room + 1) + Waiting(r.buffer));
    }
  }

  lemma WriteKeeps(g: Gate, max: nat, data: Data)
    requires Ordered(g)
    ensures Ordered(Written(g, max, data))
  {
    var t := |g.accepted|;
    var all := g.down + Waiting(g.buffer);
    var r := Written(g, max, data);
    if r != g {
      WaitingConcat(g.buffer, [Entry(t, data, false)]);
      assert r.down + Waiting(r.buffer) == all + [Item(t, data)];
      Appended(all, g.accepted, data);
    }
  }

  lemma Appended(items: seq<Item>, accepted: seq<Data>, data: Data)
    requires InOrder(items, accepted)
    ensures InOrder(items + [Item(|accepted|, data)], accepted + [data])
    ensures forall t :: HasTicket(items + [Item(|accepted|, data)], t) <==> HasTicket(items, t) || t == |accepted|
  {
    var more := items + [Item(|accepted|, data)];
    assert more[|items|].ticket == |accepted|;
    assert forall i :: 0 <= i < |items| ==> more[i] == items[i];
  }

  lemma RemoveKeeps(g: Gate, i: nat)
    requires Ordered(g) && i < |g.buffer|
    ensures Ordered(Removed(g, i)) && forall max :: Bounded(g, max) ==> Bounded(Removed(g, i), max)
  {
    hide Waiting, InOrder, HasTicket;
    var e, a, b := g.buffer[i], g.buffer[..i], g.buffer[i + 1..];
    assert g.buffer == a + [e] + b;
    WaitingWithout(a, e, b);
    var left, right := g.down + Waiting(a), Waiting(b);
    assert g.down + (Waiting(a) + right) == left + right;
    if !e.sent {
      var x := Item(e.ticket, e.data);
      assert g.down + (Waiting(a) + [x] + right) == left + [x] + right;
      DroppedOrder(left, x, right, g.accepted);
      DroppedTickets(left, x, right, g.accepted);
    }
  }

  lemma WaitingOne(e: Entry)
    ensures Waiting([e]) == if e.sent then [] else [Item(e.ticket, e.data)]
  {
    assert [e][1..] == [];
  }

  lemma WaitingWithout(a: seq<Entry>, e: Entry, b: seq<Entry>)
    ensures Waiting(a + b) == Waiting(a) + Waiting(b)
    ensures e.sent ==> Waiting(a + [e] + b) == Waiting(a) + Waiting(b)
    ensures !e.sent ==> Waiting(a + [e] + b) == Waiting(a) + [Item(e.ticket, e.data)] + Waiting(b)
  {
    hide Waiting;
    WaitingOne(e);
    WaitingConcat(a, b);
    WaitingConcat(a, [e]);
    WaitingConcat(a + [e], b);
    assert Waiting(a) + [] == Waiting(a);
  }

  lemma DroppedOrder(a: seq<Item>, x: Item, b: seq<Item>, accepted: seq<Data>)
    requires InOrder(a + [x] + b, accepted)
    ensures x.ticket < |accepted| && InOrder(a + b, accepted)
  {
    var all, rest := a + [x] + b, a + b;
    assert all[|a|] == x;
    assert forall i :: 0 <= i < |a| ==> rest[i] == all[i];
    assert forall i :: |a| <= i < |rest| ==> rest[i] == all[i + 1];
  }

  lemma DroppedTickets(a: seq<Item>, x: Item, b: seq<Item>, accepted: seq<Data>)
    requires InOrder(a + [x] + b, accepted)
    ensures forall t :: HasTicket(a + b, t) <==> HasTicket(a + [x] + b, t) && t != x.ticket
  {
    var all, rest := a + [x] + b, a + b;
    assert all[|a|] == x;
    forall t
      ensures HasTicket(rest, t) <==> HasTicket(all, t) && t != x.ticket
    {
      if HasTicket(rest, t) {
        var i :| 0 <= i < |rest| && rest[i].ticket == t;
        assert all[if i < |a| then i else i + 1] == rest[i];
      }
      if HasTicket(all, t) && t != x.ticket {
        var i :| 0 <= i < |all| && all[i].ticket == t;
        assert rest[if i < |a| then i else i - 1] == all[i];
      }
    }
  }

  lemma StepKeeps(g: Gate, max: nat, e: Event)
    requires Ordered(g)
    ensures Ordered(Apply(g, max, e))
    ensures Bounded(g, max) ==> Bounded(Apply(g, max, e), max)
  {
    match e
    case Write(data) => WriteKeeps(g, max, data);
    case Remove(i, room) =>
      if i < |g.buffer| {
        RemoveKeeps(g, i);
        DrainKeeps(Removed(g, i), room);
      }
    case Update(linked, writable, room) => DrainKeeps(g.(linked := linked, writable := writable), room);
  }

  /** After every run the buffer is bounded, and writable exactly when it has room; what was passed on is in order. */
  lemma {:induction false} RunsKeepOrderAndBound(max: nat, run: seq<Event>)
    ensures var g := After(INITIAL, max, run);
            && InOrder(g.down, g.accepted) && Ordered(g)
            && Bounded(g, max)
  {
    if run == [] {
    } else {
      RunsKeepOrderAndBound(max, run[..|run| - 1]);
      StepKeeps(After(INITIAL, max, run[..|run| - 1]), max, run[|run| - 1]);
    }
    var g := After(INITIAL, max, run);
    assert forall i :: 0 <= i < |g.down| ==> g.down[i] == (g.down + Waiting(g.buffer))[i];
  }

  /** With a bound of zero the buffer is never full: n writes to a gate without a link are all kept. */
  lemma {:induction false} ZeroIsNoBound(data: Data, n: nat) returns (run: seq<Event>)
    ensures |After(INITIAL, 0, run).buffer| == n
    ensures After(INITIAL, 0, run).soft && !After(INITIAL, 0, run).linked
  {
    if n == 0 {
      run := [];
    } else {
      var before := ZeroIsNoBound(data, n - 1);
      run := before + [Write(data)];
      assert run[..|run| - 1] == before;
    }
  }

  lemma SentLeaves(b: seq<Entry>, i: nat)
    requires i < |b|
    ensures b[i].sent ==> Waiting(b[..i] + b[i + 1..]) == Waiting(b)
  {
    hide Waiting;
    assert b == b[..i] + [b[i]] + b[i + 1..];
    WaitingWithout(b[..i], b[i], b[i + 1..]);
  }

  /** A gate that is still writable after draining has nothing waiting. */
  lemma {:induction false} NothingLeft(b: seq<Entry>, n: nat)
    requires |SentItems(b, n)| < n
    ensures Waiting(SentBuffer(b, n)) == []
  {
    if b == [] {
    } else {
      NothingLeft(b[1..], if b[0].sent then n else n - 1);
    }
  }

  // What is passed on when

  lemma {:induction false} SentCount(b: seq<Entry>, n: nat)
    ensures |SentItems(b, n)| == if n <= |Waiting(b)| then n else |Waiting(b)|
  {
    if b == [] || n == 0 {
    } else {
      SentCount(b[1..], if b[0].sent then n else n - 1);
    }
  }

  /** What is sent is what waits, from the front, and as much of it as there is room for. */
  lemma SentAreFirst(b: seq<Entry>, n: nat)
    ensures var k := if n <= |Waiting(b)| then n else |Waiting(b)|;
            SentItems(b, n) == Waiting(b)[..k] && Waiting(SentBuffer(b, n)) == Waiting(b)[k..]
  {
    hide SentItems, SentBuffer, Waiting;
    SentCount(b, n);
    SendingMovesItems(b, n);
    Parted(SentItems(b, n), Waiting(SentBuffer(b, n)));
  }

  /** How many of the writes that wait the gate below takes. */
  ghost function Taken(b: seq<Entry>, room: nat): (n: nat) {
    if |Waiting(b)| <= room then |Waiting(b)| else room + 1
  }

  /** The gate below was given the first n of the writes that waited, and nothing else. */
  ghost predicate PassedOn(g: Gate, r: Gate, n: nat) {
    n <= |Waiting(g.buffer)| && r.down == g.down + Waiting(g.buffer)[..n] && Waiting(r.buffer) == Waiting(g.buffer)[n..]
  }

  /** Draining passes on all that waits up to the write that makes the gate below refuse the next one. */
  lemma DrainMeans(g: Gate, room: nat)
    ensures var r, waiting := Drained(g, room), |Waiting(g.buffer)|;
            && PassedOn(g, r, if g.writable then Taken(g.buffer, room) else 0)
            && (r.writable <==> g.writable && waiting <= room)
  {
    SentAreFirst(g.buffer, room + 1);
    assert g.down + [] == g.down;
  }

  /** A write is passed on at once exactly when the gate below can take it and nothing is buffered. */
  lemma WriteMeans(g: Gate, max: nat, data: Data)
    requires Bounded(g, max)
    ensures var r, t := Written(g, max, data), |g.accepted|;
            if g.linked && g.writable && g.buffer == []
            then r.buffer == [] && r.down == g.down + [Item(t, data)] && r.accepted == g.accepted + [data]
            else if max == 0 || |g.buffer| < max
            then r.buffer == g.buffer + [Entry(t, data, false)] && r.down == g.down && r.accepted == g.accepted + [data]
            else r == g
  {
  }

  ghost predicate SentFirst(b: seq<Entry>) {
    forall i, j :: 0 <= i < j < |b| && b[j].sent ==> b[i].sent
  }

  /** The gate below could take what waits. */
  ghost predicate WaitsThoughReady(g: Gate) {
    g.linked && g.writable && Waiting(g.buffer) != []
  }

  lemma {:induction false} SendingKeepsFirst(b: seq<Entry>, n: nat)
    requires SentFirst(b)
    ensures SentFirst(SentBuffer(b, n))
    ensures |SentItems(b, n)| < n && b != [] ==> SentBuffer(b, n)[0].sent
  {
    if b == [] || n == 0 {
    } else {
      var rest, r := b[1..], SentBuffer(b, n);
      SendingKeepsFirst(rest, if b[0].sent then n else n - 1);
      assert r[0].sent && SentFirst(r[1..]);
      assert forall j :: 0 < j < |r| ==> r[j] == r[1..][j - 1];
    }
  }

  /** The sent entries are in front; one of them is there whenever something is buffered and the gate below is ready. */
  ghost predicate BehindSent(g: Gate) {
    SentFirst(g.buffer) && (g.linked && g.writable && g.buffer != [] ==> g.buffer[0].sent)
  }

  lemma DrainKeepsBehind(g: Gate, room: nat)
    requires SentFirst(g.buffer)
    ensures BehindSent(Drained(g, room)) || !g.writable
    ensures SentFirst(Drained(g, room).buffer)
  {
    SendingKeepsFirst(g.buffer, room + 1);
  }

  lemma StepKeepsBehind(g: Gate, max: nat, e: Event)
    requires BehindSent(g)
    ensures BehindSent(Apply(g, max, e))
  {
    match e
    case Write(data) =>
    case Remove(i, room) =>
      if i < |g.buffer| {
        var r := Removed(g, i);
        assert forall j :: 0 <= j < |r.buffer| ==> r.buffer[j] == g.buffer[if j < i then j else j + 1];
        DrainKeepsBehind(r, room);
      }
    case Update(linked, writable, room) => DrainKeepsBehind(g.(linked := linked, writable := writable), room);
  }

  /** After every run: what waits while the gate below is ready waits behind a write passed on and not answered yet. */
  lemma {:induction false} RunsWaitBehindSent(max: nat, run: seq<Event>)
    ensures var g := After(INITIAL, max, run);
            BehindSent(g) && (WaitsThoughReady(g) ==> g.buffer[0].sent)
  {
    if run == [] {
    } else {
      RunsWaitBehindSent(max, run[..|run| - 1]);
      StepKeepsBehind(After(INITIAL, max, run[..|run| - 1]), max, run[|run| - 1]);
    }
  }

  /** And it waits because it was written there: every other event passes on all that waits, as far as it can. */
  lemma WaitsThoughReadyIff(g: Gate, max: nat, e: Event)
    requires e.Remove? ==> e.i < |g.buffer|
    ensures WaitsThoughReady(Apply(g, max, e)) <==>
              e.Write? && g.linked && g.writable && g.buffer != [] && (g.soft || Waiting(g.buffer) != [])
  {
    match e
    case Write(data) => WaitingConcat(g.buffer, [Entry(|g.accepted|, data, false)]);
    case Remove(i, room) => DrainMeans(Removed(g, i), room);
    case Update(linked, writable, room) => DrainMeans(g.(linked := linked, writable := writable), room);
  }

  /** Such as a second write, while the first one, passed on in the meantime, is not answered. */
  lemma SecondWriteWaits() returns (run: seq<Event>)
    ensures WaitsThoughReady(After(INITIAL, 4, run)) && After(INITIAL, 4, run).down == [Item(0, [1])]
  {
    run := [Write([1]), Update(true, true, 3), Write([2])];
    var g := After(INITIAL, 4, []);
    assert run[..0] == [] && run[..1][..0] == [] && run[..2][..1] == run[..1] && run[..3] == run && run[..3][..2] == run[..2];
    assert After(INITIAL, 4, run[..1]) == g.(buffer := [Entry(0, [1], false)], accepted := [[1]]);
    var sent := Gate([Entry(0, [1], true)], true, true, true, [[1]], [Item(0, [1])], {});
    assert After(INITIAL, 4, run[..2]) == sent by {
      assert [Entry(0, [1], false)][1..] == [];
    }
    WaitsThoughReadyIff(sent, 4, Write([2]));
  }

  class BufferGate {
    const bufferMax: nat
    var buffer: seq<Entry>
    var soft: bool
    var linked: bool
    var writable: bool
    /** Histories: the writes taken, and what the gate below was given. */
    var accepted: seq<Data>
    var down: seq<Item>
    ghost var dropped: set<nat>

    ghost function State(): (g: Gate)
      reads this
    {
      Gate(buffer, soft, linked, writable, accepted, down, dropped)
    }

    ghost predicate Valid()
      reads this
    {
      Ordered(State()) && Bounded(State(), bufferMax)
    }

    /** What was passed on, and then what is still to be passed on. */
    ghost function Order(): (items: seq<Item>)
      reads this
    {
      down + Waiting(buffer)
    }

    constructor (bufferMax: nat)
      ensures Valid() && this.bufferMax == bufferMax && State() == INITIAL
    {
      this.bufferMax := bufferMax;
      buffer, soft, linked, writable := [], true, false, false;
      accepted, down, dropped := [], [], {};
    }

    /** A write goes last, behind all that was accepted; it is declined exactly when the buffer is full. */
    method Write(data: Data) returns (ok: bool)
      requires Valid()
      modifies this
      ensures Valid() && State() == Written(old(State()), bufferMax, data)
      ensures ok <==> bufferMax == 0 || |old(buffer)| < bufferMax
      ensures ok ==> accepted == old(accepted) + [data] && Order() == old(Order()) + [Item(|old(accepted)|, data)]
      ensures !ok ==> State() == old(State())
      ensures old(linked) && old(writable) && old(buffer) == [] ==>
                buffer == [] && down == old(down) + [Item(|old(accepted)|, data)]
      ensures !(old(linked) && old(writable) && old(buffer) == []) ==>
                down == old(down) && (ok ==> buffer == old(buffer) + [Entry(|old(accepted)|, data, false)])
    {
      hide Ordered;
      StepKeeps(State(), bufferMax, Event.Write(data));
      WaitingConcat(buffer, [Entry(|accepted|, data, false)]);
      ghost var before := Order();
      var ticket := |accepted|;
      ok := true;
      if !writable || !linked || buffer != [] {
        if !soft {
          return false;
        }
        buffer := buffer + [Entry(ticket, data, false)];
        if |buffer| == bufferMax {
          soft := false;
        }
      } else {
        down := down + [Item(ticket, data)];
      }
      accepted := accepted + [data];
      assert Order() == before + [Item(ticket, data)];
    }

    /** A buffered write is finished: there is room again, and only what was not sent leaves the order. */
    method RemoveAction(i: nat, room: nat)
      requires Valid() && i < |buffer|
      modifies this
      ensures Valid() && State() == Drained(Removed(old(State()), i), room)
      ensures soft && |buffer| == |old(buffer)| - 1 && accepted == old(accepted)
      ensures old(buffer[i].sent) ==> Order() == old(Order())
      ensures dropped == old(dropped) + if old(buffer[i].sent) then {} else {old(buffer[i].ticket)}
      ensures writable ==> Waiting(buffer) == []
    {
      hide Waiting, Ordered, Drained;
      RemoveKeeps(State(), i);
      SentLeaves(buffer, i);
      var e := buffer[i];
      if !e.sent {
        dropped := dropped + {e.ticket};
      }
      buffer := buffer[..i] + buffer[i + 1..];
      soft := true;
      assert old(dropped) + {} == old(dropped);
      assert State() == Removed(old(State()), i);
      DrainBuffer(room);
    }

    /** Nothing changes in the order; what waits is passed on as far as the gate below takes it. */
    method UpdateGate(nowLinked: bool, nowWritable: bool, room: nat)
      requires Valid()
      modifies this
      ensures Valid() && State() == Updated(old(State()), nowLinked, nowWritable, room)
      ensures Order() == old(Order()) && accepted == old(accepted) && dropped == old(dropped)
      ensures linked && writable ==> Waiting(buffer) == []
      ensures PassedOn(old(State()), State(), if nowLinked && nowWritable then Taken(old(buffer), room) else 0)
      ensures linked == nowLinked && (writable <==> nowWritable && (nowLinked ==> |Waiting(old(buffer))| <= room))
    {
      linked, writable := nowLinked, nowWritable;
      if linked {
        DrainBuffer(room);
      }
    }

    method DrainBuffer(room: nat)
      requires Valid()
      modifies this
      ensures Valid() && State() == Drained(old(State()), room)
      ensures Order() == old(Order()) && |buffer| == |old(buffer)| && soft == old(soft) && accepted == old(accepted) && dropped == old(dropped)
      ensures writable ==> Waiting(buffer) == []
      ensures PassedOn(old(State()), State(), if old(writable) then Taken(old(buffer), room) else 0)
      ensures linked == old(linked) && (writable <==> old(writable) && |Waiting(old(buffer))| <= room)
    {
      DrainMeans(State(), room);
      hide SentBuffer, SentItems, Waiting, Ordered;
      DrainKeeps(State(), room);
      if writable {
        SendingMovesItems(buffer, room + 1);
        ghost var b, d := buffer, down;
        var items;
        buffer, items, writable := SendWaiting(buffer, room);
        down := down + items;
        Regroup(d, items, Waiting(buffer));
        if writable {
          NothingLeft(b, room + 1);
        }
      }
    }
  }

  /** The loop of DrainBuffer; the gate below reports that it is not writable any more after room + 1 writes. */
  method SendWaiting(b: seq<Entry>, room: nat) returns (r: seq<Entry>, items: seq<Item>, writable: bool)
    ensures r == SentBuffer(b, room + 1) && items == SentItems(b, room + 1)
    ensures writable <==> |items| <= room
  {
    hide SentBuffer, SentItems;
    r, items, writable := [], [], true;
    var i := 0;
    assert b[0..] == b;
    while i < |b| && writable
      invariant i <= |b| && |items| <= room + 1 && (writable <==> |items| <= room)
      invariant r + SentBuffer(b[i..], room + 1 - |items|) == SentBuffer(b, room + 1)
      invariant items + SentItems(b[i..], room + 1 - |items|) == SentItems(b, room + 1)
      decreases |b| - i
    {
      var e := b[i];
      SendFirst(b[i..], room + 1 - |items|);
      assert b[i..][1..] == b[i + 1..];
      if e.sent {
        Regroup(r, [e], SentBuffer(b[i + 1..], room + 1 - |items|));
        r := r + [e];
      } else {
        Regroup(r, [e.(sent := true)], SentBuffer(b[i + 1..], room - |items|));
        Regroup(items, [Item(e.ticket, e.data)], SentItems(b[i + 1..], room - |items|));
        r := r + [e.(sent := true)];
        items := items + [Item(e.ticket, e.data)];
        writable := |items| <= room;
      }
      i := i + 1;
    }
    SendNone(b[i..], room + 1 - |items|);
    r := r + b[i..];
  }

  lemma SendFirst(b: seq<Entry>, n: nat)
    requires b != [] && n > 0
    ensures SentBuffer(b, n) ==
            if b[0].sent then [b[0]] + SentBuffer(b[1..], n) else [b[0].(sent := true)] + SentBuffer(b[1..], n - 1)
    ensures SentItems(b, n) ==
            if b[0].sent then SentItems(b[1..], n) else [Item(b[0].ticket, b[0].data)] + SentItems(b[1..], n - 1)
  {
  }

  lemma SendNone(b: seq<Entry>, n: nat)
    requires b == [] || n == 0
    ensures SentBuffer(b, n) == b && SentItems(b, n) == []
  {
  }
}
