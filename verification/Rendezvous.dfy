/** Matching of received transfers with the AWAIT_PUSHes that wait for them. */
module Rendezvous {
  import opened Grid
  import opened Commands

  /** Payload of a PUSH: the data of every cell of its range. */
  datatype Transfer = Transfer(pushCid: Cid, data: map<Cell, int>)

  /** Who has been awaited and received, what has been written to the buffers, and in which order. */
  datatype Board = Board(awaited: set<Cid>, received: map<Cid, Transfer>, written: seq<Cid>, memory: map<Cell, int>)

  datatype Event = Await(cid: Cid) | Receive(transfer: Transfer)

  function Id(e: Event): Cid {
    match e
    case Await(cid) => cid
    case Receive(t) => t.pushCid
  }

  function Write(b: Board, t: Transfer): Board {
    b.(written := b.written + [t.pushCid], memory := b.memory + t.data)
  }

  function Awaits(b: Board, cid: Cid): Board {
    var b' := b.(awaited := b.awaited + {cid});
    if cid in b.received then Write(b', b.received[cid]) else b'
  }

  function Receives(b: Board, t: Transfer): Board {
    var b' := b.(received := b.received[t.pushCid := t]);
    if t.pushCid in b.awaited then Write(b', t) else b'
  }

  function Step(b: Board, e: Event): Board {
    match e
    case Await(cid) => Awaits(b, cid)
    case Receive(t) => Receives(b, t)
  }

  /** The board after the events, oldest first. */
  function After(b: Board, events: seq<Event>): Board {
    if events == [] then b else Step(After(b, events[..|events| - 1]), events[|events| - 1])
  }

  function Start(memory: map<Cell, int>): Board {
    Board({}, map[], [], memory)
  }

  /** Each PUSH is received at most once and awaited at most once. */
  ghost predicate OncePerKind(events: seq<Event>) {
    forall i, j :: 0 <= i < j < |events| && Id(events[i]) == Id(events[j]) ==> events[i].Await? != events[j].Await?
  }

  ghost predicate Exact(b: Board) {
    && (forall c :: c in b.written <==> c in b.awaited && c in b.received)
    && (forall i, j :: 0 <= i < j < |b.written| ==> b.written[i] != b.written[j])
    && (forall c :: c in b.received ==> b.received[c].pushCid == c)
  }

  /** PUSHes that have been received but not awaited, or awaited but not received. */
  function Unmatched(b: Board): set<Cid> {
    (b.awaited - b.received.Keys) + (b.received.Keys - b.awaited)
  }

  lemma AwaitsIs(b: Board, cid: Cid)
    requires cid !in b.awaited
    ensures var b' := Awaits(b, cid);
            && b'.awaited == b.awaited + {cid} && b'.received == b.received
            && b'.memory == (if cid in b.received then b.memory + b.received[cid].data else b.memory)
            && Unmatched(b') == (if cid in b.received then Unmatched(b) - {cid} else Unmatched(b) + {cid})
  {
  }

  lemma ReceivesIs(b: Board, t: Transfer)
    requires t.pushCid !in b.received
    ensures var b' := Receives(b, t);
            && b'.awaited == b.awaited && b'.received == b.received[t.pushCid := t]
            && b'.memory == (if t.pushCid in b.awaited then b.memory + t.data else b.memory)
            && Unmatched(b') == (if t.pushCid in b.awaited then Unmatched(b) - {t.pushCid}
                                 else Unmatched(b) + {t.pushCid})
  {
  }

  lemma UnmatchedIs(b: Board, c: Cid)
    ensures c in Unmatched(b) <==> (c in b.awaited) != (c in b.received)
  {
  }

  lemma StepExact(b: Board, e: Event)
    requires Exact(b) && (if e.Await? then e.cid !in b.awaited else e.transfer.pushCid !in b.received)
    ensures Exact(Step(b, e))
  {
  }

  lemma {:induction false} Happened(b: Board, events: seq<Event>, c: Cid)
    requires b.awaited == {} && b.received == map[]
    ensures var b' := After(b, events);
            && (c in b'.awaited <==> Await(c) in events)
            && (c in b'.received <==> exists t: Transfer :: t.pushCid == c && Receive(t) in events)
  {
    if events != [] {
      var rest, last := events[..|events| - 1], events[|events| - 1];
      Happened(b, rest, c);
      assert events == rest + [last];
      if last.Receive? && last.transfer.pushCid == c { assert Receive(last.transfer) in events; }
      forall e | e in rest
        ensures e in events
      {
      }
    }
  }

  /**
    * After any events, in any order: a payload has been written exactly when it has been received and awaited, and only
    * once. As this holds after every prefix, nothing is written before it is awaited.
    */
  lemma {:induction false} WrittenOnce(memory: map<Cell, int>, events: seq<Event>)
    requires OncePerKind(events)
    ensures Exact(After(Start(memory), events))
  {
    if events != [] {
      var rest, last := events[..|events| - 1], events[|events| - 1];
      WrittenOnce(memory, rest);
      assert events == rest + [last];
      NotBefore(memory, rest, last);
      StepExact(After(Start(memory), rest), last);
    }
  }

  /** An event does not repeat an earlier one. */
  lemma NotBefore(memory: map<Cell, int>, rest: seq<Event>, last: Event)
    requires OncePerKind(rest + [last])
    ensures var b := After(Start(memory), rest);
            if last.Await? then last.cid !in b.awaited else last.transfer.pushCid !in b.received
  {
    Happened(Start(memory), rest, Id(last));
    forall e | e in rest && Id(e) == Id(last)
      ensures e.Await? != last.Await?
    {
      var i :| 0 <= i < |rest| && rest[i] == e;
      assert (rest + [last])[i] == e && (rest + [last])[|rest|] == last;
    }
    if last.Await? {
      assert Await(last.cid) !in rest;
    } else {
      forall t: Transfer | t.pushCid == last.transfer.pushCid
        ensures Receive(t) !in rest
      {
        assert Id(Receive(t)) == Id(last);
      }
    }
  }

  /** The buffers after writing the payloads one after the other. */
  ghost function Replayed(memory: map<Cell, int>, written: seq<Cid>, received: map<Cid, Transfer>): map<Cell, int>
    requires forall c :: c in written ==> c in received
  {
    if written == [] then memory
    else
      var last := written[|written| - 1];
      Replayed(memory, written[..|written| - 1], received) + received[last].data
  }

  lemma {:induction false} SameReplay(memory: map<Cell, int>, written: seq<Cid>, r: map<Cid, Transfer>,
                                      r': map<Cid, Transfer>)
    requires forall c :: c in written ==> c in r && c in r' && r'[c] == r[c]
    ensures Replayed(memory, written, r') == Replayed(memory, written, r)
  {
    if written != [] {
      SameReplay(memory, written[..|written| - 1], r, r');
      assert written[|written| - 1] in written;
    }
  }

  /** The buffers hold what the payloads leave in them when written in the order that the board records. */
  lemma {:induction false} WrittenInOrder(memory: map<Cell, int>, events: seq<Event>)
    requires OncePerKind(events)
    ensures var b := After(Start(memory), events);
            (forall c :: c in b.written ==> c in b.received) && b.memory == Replayed(memory, b.written, b.received)
  {
    hide Exact, Step, OncePerKind, Replayed;
    WrittenOnce(memory, events);
    ExactParts(After(Start(memory), events));
    if events == [] {
      NothingReplayed(memory);
    } else {
      var rest, last := events[..|events| - 1], events[|events| - 1];
      assert events == rest + [last];
      OnceBefore(rest, last);
      WrittenInOrder(memory, rest);
      WrittenOnce(memory, rest);
      NotBefore(memory, rest, last);
      StepReplays(memory, After(Start(memory), rest), last);
    }
  }

  lemma ExactParts(b: Board)
    requires Exact(b)
    ensures forall c :: c in b.written ==> c in b.received
  {
  }

  lemma NothingReplayed(memory: map<Cell, int>)
    ensures Replayed(memory, [], map[]) == memory
  {
  }

  lemma OnceBefore(rest: seq<Event>, last: Event)
    requires OncePerKind(rest + [last])
    ensures OncePerKind(rest)
  {
    assert forall i :: 0 <= i < |rest| ==> (rest + [last])[i] == rest[i];
  }

  lemma StepReplays(memory: map<Cell, int>, b: Board, e: Event)
    requires Exact(b) && if e.Await? then e.cid !in b.awaited else e.transfer.pushCid !in b.received
    requires b.memory == Replayed(memory, b.written, b.received)
    ensures var b' := Step(b, e);
            (forall c :: c in b'.written ==> c in b'.received) && b'.memory == Replayed(memory, b'.written, b'.received)
  {
    var b' := Step(b, e);
    SameReplay(memory, b.written, b.received, b'.received);
    if b'.written != b.written {
      hide Replayed;
      assert b'.written == b.written + [Id(e)] && b'.memory == b.memory + b'.received[Id(e)].data;
      OneMoreWritten(memory, b.written, Id(e), b'.received);
    }
  }

  lemma OneMoreWritten(memory: map<Cell, int>, written: seq<Cid>, c: Cid, received: map<Cid, Transfer>)
    requires forall d :: d in written + [c] ==> d in received
    ensures forall d :: d in written ==> d in received
    ensures Replayed(memory, written + [c], received) == Replayed(memory, written, received) + received[c].data
  {
    assert (written + [c])[..|written + [c]| - 1] == written;
    forall d | d in written
      ensures d in received
    {
      assert d in written + [c];
    }
  }

  /** A PUSH that arrives before it is awaited and one that arrives after leave the same board. */
  lemma EitherOrder(b: Board, t: Transfer)
    requires t.pushCid !in b.awaited && t.pushCid !in b.received
    ensures Awaits(Receives(b, t), t.pushCid) == Receives(Awaits(b, t.pushCid), t)
    ensures Awaits(Receives(b, t), t.pushCid).memory == b.memory + t.data
  {
  }

  /** What an event writes to the buffers. */
  function Effect(b: Board, e: Event): map<Cell, int> {
    match e
    case Await(cid) => if cid in b.received then b.received[cid].data else map[]
    case Receive(t) => if t.pushCid in b.awaited then t.data else map[]
  }

  lemma StepMemory(b: Board, e: Event)
    ensures Step(b, e).memory == b.memory + Effect(b, e)
  {
    assert b.memory + map[] == b.memory;
  }

  lemma EffectStays(b: Board, e: Event, e': Event)
    requires Id(e) != Id(e')
    ensures Effect(Step(b, e), e') == Effect(b, e')
  {
  }

  lemma SwapWrites(m: map<Cell, int>, d: map<Cell, int>, d': map<Cell, int>)
    requires d.Keys !! d'.Keys
    ensures m + d + d' == m + d' + d
  {
  }

  /** Events about different PUSHes that write different cells can be swapped, up to the order of the writes. */
  lemma SwapApart(b: Board, e: Event, e': Event)
    requires Id(e) != Id(e') && Effect(b, e).Keys !! Effect(b, e').Keys
    ensures var x, y := Step(Step(b, e), e'), Step(Step(b, e'), e);
            x.awaited == y.awaited && x.received == y.received && x.memory == y.memory
  {
    SwapSets(b, e, e');
    SwapMemory(b, e, e');
  }

  lemma SwapSets(b: Board, e: Event, e': Event)
    requires Id(e) != Id(e')
    ensures var x, y := Step(Step(b, e), e'), Step(Step(b, e'), e);
            x.awaited == y.awaited && x.received == y.received
  {
    StepSets(b, e);
    StepSets(b, e');
    StepSets(Step(b, e), e');
    StepSets(Step(b, e'), e);
    hide Step;
  }

  lemma StepSets(b: Board, e: Event)
    ensures Step(b, e).awaited == if e.Await? then b.awaited + {e.cid} else b.awaited
    ensures Step(b, e).received == if e.Await? then b.received else b.received[e.transfer.pushCid := e.transfer]
  {
  }

  lemma SwapMemory(b: Board, e: Event, e': Event)
    requires Id(e) != Id(e') && Effect(b, e).Keys !! Effect(b, e').Keys
    ensures Step(Step(b, e), e').memory == Step(Step(b, e'), e).memory
  {
    hide *;
    StepMemory(b, e);
    StepMemory(b, e');
    StepMemory(Step(b, e), e');
    StepMemory(Step(b, e'), e);
    EffectStays(b, e, e');
    EffectStays(b, e', e);
    SwapWrites(b.memory, Effect(b, e), Effect(b, e'));
  }
}
