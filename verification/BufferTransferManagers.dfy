/** The buffer transfer manager of a node and the job that waits for a transfer. */
module BufferTransferManagers {
  import opened Options
  import opened Grid
  import opened Commands
  import opened Rendezvous

  class TransferHandle {
    ghost const cid: Cid             // the PUSH it stands for
    var complete: bool
    var transfer: Option<Transfer>

    constructor (ghost cid: Cid)
      ensures this.cid == cid && !complete && transfer.None?
    {
      this.cid := cid;
      complete, transfer := false, None;
    }
  }

  class BufferTransferManager {
    var blackboard: map<Cid, TransferHandle>
    var incoming: seq<Transfer>                    // being received
    var memory: map<Cell, int>                     // buffer contents of the node
    ghost var board: Board
    ghost var handles: map<Cid, TransferHandle>    // what the awaiting jobs hold

    /** On the blackboard are the complete handles of transfers nobody awaits yet, and the handles of jobs that wait. */
    ghost predicate BlackboardOk()
      reads this, blackboard.Values
    {
      && blackboard.Keys == Unmatched(board)
      && (forall c :: c in blackboard ==> blackboard[c].cid == c)
      && (forall c :: c in blackboard && c in board.received ==>
                        blackboard[c].complete && blackboard[c].transfer == Some(board.received[c]))
      && (forall c :: c in blackboard && c in handles ==> blackboard[c] == handles[c])
    }

    /** The handle of a job is complete exactly when the data has arrived. */
    ghost predicate HandlesOk()
      reads this, handles.Values
    {
      && (forall c :: c in handles <==> c in board.awaited)
      && (forall c :: c in handles ==> handles[c].cid == c && (handles[c].complete <==> c in board.received))
    }

    ghost predicate IncomingOk()
      reads this
    {
      && (forall i, j :: 0 <= i < j < |incoming| ==> incoming[i].pushCid != incoming[j].pushCid)
      && (forall i :: 0 <= i < |incoming| ==> incoming[i].pushCid !in board.received)
    }

    ghost predicate Valid()
      reads this, blackboard.Values, handles.Values
    {
      Exact(board) && board.memory == memory && BlackboardOk() && HandlesOk() && IncomingOk()
    }

    constructor (memory: map<Cell, int>)
      ensures Valid() && board == Start(memory) && blackboard == map[] && incoming == []
    {
      blackboard, incoming, handles := map[], [], map[];
      this.memory := memory;
      board := Start(memory);
    }

    /** The handle that tells when the data of a PUSH has been written; `box` is the range of that PUSH. */
    method AwaitPush(cid: Cid, box: set<Cell>) returns (h: TransferHandle)
      requires Valid() && cid !in board.awaited
      requires cid in board.received ==> board.received[cid].data.Keys == box
      modifies this
      ensures Valid() && board == Awaits(old(board), cid) && handles == old(handles)[cid := h]
      ensures incoming == old(incoming)
    {
      hide Exact, Awaits, Unmatched;
      UnmatchedIs(board, cid);
      if cid in blackboard {
        h := Claim(cid, box);
      } else {
        h := Register(cid);
      }
    }

    /** The transfer is already there: its data is written now. */
    method Claim(cid: Cid, box: set<Cell>) returns (h: TransferHandle)
      requires Valid() && cid in blackboard && cid !in board.awaited && cid in board.received
      requires board.received[cid].data.Keys == box
      modifies this
      ensures Valid() && board == Awaits(old(board), cid) && handles == old(handles)[cid := h]
      ensures incoming == old(incoming)
    {
      hide Exact, Awaits, Unmatched;
      AwaitsIs(board, cid);
      StepExact(board, Await(cid));
      h := blackboard[cid];
      blackboard := blackboard - {cid};
      assert h.transfer.Some? && h.complete;
      var t := h.transfer.value;
      assert t.data.Keys == box;
      memory := memory + t.data;
      board := Awaits(board, cid);
      handles := handles[cid := h];
    }

    /** A new handle is left on the blackboard for the transfer to find. */
    /** Notes that the transfer is awaited with the given handle, which is on the blackboard. */
    ghost method Note(cid: Cid, h: TransferHandle)
      requires Exact(Awaits(board, cid)) && cid !in board.awaited && cid !in board.received && cid !in handles
      requires Awaits(board, cid).memory == memory && Awaits(board, cid).received == board.received
      requires Awaits(board, cid).awaited == board.awaited + {cid}
      requires blackboard.Keys == Unmatched(Awaits(board, cid)) && cid in blackboard && blackboard[cid] == h
      requires h.cid == cid && !h.complete && HandlesOk() && IncomingOk()
      requires forall c :: c in blackboard ==> blackboard[c].cid == c
      requires forall c :: c in blackboard && c in board.received ==>
                             blackboard[c].complete && blackboard[c].transfer == Some(board.received[c])
      requires forall c :: c in blackboard && c in handles ==> blackboard[c] == handles[c]
      modifies this`board, this`handles
      ensures Valid() && board == Awaits(old(board), cid) && handles == old(handles)[cid := h]
    {
      hide Exact, Awaits, Unmatched;
      board := Awaits(board, cid);
      handles := handles[cid := h];
    }

    method Register(cid: Cid) returns (h: TransferHandle)
      requires Valid() && cid !in blackboard && cid !in board.awaited && cid !in board.received
      modifies this
      ensures Valid() && board == Awaits(old(board), cid) && handles == old(handles)[cid := h]
      ensures incoming == old(incoming)
    {
      hide Exact, Awaits, Unmatched;
      AwaitsIs(board, cid);
      StepExact(board, Await(cid));
      h := new TransferHandle(cid);
      blackboard := blackboard[cid := h];
      Note(cid, h);
    }

    /** A transfer has arrived in full. */
    method Arrive(t: Transfer)
      requires Valid() && t.pushCid !in board.received
      requires forall i :: 0 <= i < |incoming| ==> incoming[i].pushCid != t.pushCid
      modifies this`blackboard, this`memory, this`board, blackboard.Values
      ensures Valid() && board == Receives(old(board), t)
      ensures forall c :: c in blackboard && c !in old(blackboard) ==> fresh(blackboard[c])
      ensures forall c :: c in blackboard && c in old(blackboard) ==> blackboard[c] == old(blackboard)[c]
    {
      hide Exact, Receives, Unmatched;
      UnmatchedIs(board, t.pushCid);
      if t.pushCid in blackboard {
        Deliver(t);
      } else {
        Store(t);
      }
    }

    /** Somebody waits: the data is written, and then the handle is complete. */
    method Deliver(t: Transfer)
      requires Valid() && t.pushCid in blackboard && t.pushCid in board.awaited && t.pushCid !in board.received
      requires forall i :: 0 <= i < |incoming| ==> incoming[i].pushCid != t.pushCid
      modifies this`blackboard, this`memory, this`board, blackboard.Values
      ensures Valid() && board == Receives(old(board), t) && blackboard == old(blackboard) - {t.pushCid}
    {
      hide Exact, Receives, Unmatched;
      ReceivesIs(board, t);
      StepExact(board, Receive(t));
      var h := blackboard[t.pushCid];
      blackboard := blackboard - {t.pushCid};
      memory := memory + t.data;
      CompleteHandle(h, t);
      NoteDelivery(t);
    }

    /** Notes that the awaited transfer has arrived, after its data has been written and its handle completed. */
    ghost method NoteDelivery(t: Transfer)
      requires Exact(Receives(board, t)) && Receives(board, t).memory == memory
      requires Receives(board, t).awaited == board.awaited
      requires Receives(board, t).received == board.received[t.pushCid := t]
      requires blackboard.Keys == Unmatched(Receives(board, t)) && t.pushCid !in blackboard && IncomingOk()
      requires forall i :: 0 <= i < |incoming| ==> incoming[i].pushCid != t.pushCid
      requires forall c :: c in handles <==> c in board.awaited
      requires forall c :: c in handles ==> handles[c].cid == c
      requires forall c :: c in handles ==> (handles[c].complete <==> c in board.received || c == t.pushCid)
      requires forall c :: c in blackboard ==> blackboard[c].cid == c
      requires forall c :: c in blackboard && c in board.received ==>
                             blackboard[c].complete && blackboard[c].transfer == Some(board.received[c])
      requires forall c :: c in blackboard && c in handles ==> blackboard[c] == handles[c]
      modifies this`board
      ensures Valid() && board == Receives(old(board), t)
    {
      hide Exact, Receives, Unmatched;
      board := Receives(board, t);
    }

    /** Completing the handle of one transfer does not touch those of the others. */
    method CompleteHandle(h: TransferHandle, t: Transfer)
      requires HandlesOk() && t.pushCid in handles && handles[t.pushCid] == h
      requires forall c :: c in blackboard ==> blackboard[c].cid == c && c != t.pushCid
      modifies h`transfer, h`complete
      ensures forall c :: c in handles ==> handles[c].cid == c
      ensures forall c :: c in handles ==> (handles[c].complete <==> c in board.received || c == t.pushCid)
      ensures forall c :: c in blackboard ==>
                            && blackboard[c].cid == c && blackboard[c].complete == old(blackboard[c].complete)
                            && blackboard[c].transfer == old(blackboard[c].transfer)
    {
      h.transfer := Some(t);
      h.complete := true;
    }

    /** Nobody waits yet: a complete handle with the data is left on the blackboard. */
    method Store(t: Transfer)
      requires Valid() && t.pushCid !in blackboard && t.pushCid !in board.awaited && t.pushCid !in board.received
      requires forall i :: 0 <= i < |incoming| ==> incoming[i].pushCid != t.pushCid
      modifies this`blackboard, this`board
      ensures Valid() && board == Receives(old(board), t)
      ensures t.pushCid in blackboard && fresh(blackboard[t.pushCid])
      ensures blackboard == old(blackboard)[t.pushCid := blackboard[t.pushCid]]
    {
      hide Exact, Receives, Unmatched;
      ReceivesIs(board, t);
      StepExact(board, Receive(t));
      var h := new TransferHandle(t.pushCid);
      blackboard := blackboard[t.pushCid := h];
      h.transfer := Some(t);
      h.complete := true;
      board := Receives(board, t);
    }

    /** A message announces itself; its PUSH has not been received before. */
    method PollIncoming(t: Transfer)
      requires Valid() && t.pushCid !in board.received
      requires forall i :: 0 <= i < |incoming| ==> incoming[i].pushCid != t.pushCid
      modifies this`incoming
      ensures Valid() && incoming == old(incoming) + [t]
    {
      hide Exact, Unmatched;
      incoming := incoming + [t];
    }

    /** Takes in the transfers whose reception has completed, as `completed` says of each. */
    method UpdateIncoming(completed: seq<bool>)
      requires Valid() && |completed| == |incoming|
      modifies this, blackboard.Values
      ensures Valid() && incoming == Kept(old(incoming), completed, |completed|)
      ensures board == After(old(board), Arrived(old(incoming), completed, |completed|))
      ensures handles == old(handles)
    {
      hide After, Valid, Kept, Arrived;
      var i := 0;
      ghost var ts, first := incoming, board;
      AfterNothing(first);
      NothingKept(ts, completed);
      for k := 0 to |completed|
        invariant i == |Kept(ts, completed, k)| && incoming == Kept(ts, completed, k) + ts[k..]
        invariant Valid() && handles == old(handles) && board == After(first, Arrived(ts, completed, k))
        invariant forall c :: c in blackboard ==> blackboard[c] in old(blackboard.Values) || fresh(blackboard[c])
      {
        KeptNext(ts, completed, k);
        if !completed[k] {
          i := i + 1;
        } else {
          AfterOneMore(first, Arrived(ts, completed, k), Receive(ts[k]));
          TakeArrived(i);
        }
      }
    }

    /** Takes a completed reception. */
    method TakeArrived(i: nat)
      requires Valid() && i < |incoming|
      modifies this`incoming, this`blackboard, this`memory, this`board, blackboard.Values
      ensures Valid() && incoming == old(incoming)[..i] + old(incoming)[i + 1..]
      ensures board == Step(old(board), Receive(old(incoming)[i]))
      ensures forall c :: c in blackboard ==> blackboard[c] in old(blackboard.Values) || fresh(blackboard[c])
    {
      var t := incoming[i];
      TakeOut(t, i);
      Arrive(t);
    }

    method TakeOut(t: Transfer, i: nat)
      requires Valid() && i < |incoming| && incoming[i] == t
      modifies this`incoming
      ensures Valid() && incoming == old(incoming)[..i] + old(incoming)[i + 1..]
      ensures forall j :: 0 <= j < |incoming| ==> incoming[j].pushCid != t.pushCid
      ensures t.pushCid !in board.received
    {
      hide Exact, Unmatched;
      incoming := incoming[..i] + incoming[i + 1..];
    }
  }

  function Kept(ts: seq<Transfer>, completed: seq<bool>, n: nat): seq<Transfer>
    requires n <= |ts| == |completed|
  {
    if n == 0 then [] else Kept(ts, completed, n - 1) + (if completed[n - 1] then [] else [ts[n - 1]])
  }

  function Arrived(ts: seq<Transfer>, completed: seq<bool>, n: nat): seq<Event>
    requires n <= |ts| == |completed|
  {
    if n == 0 then [] else Arrived(ts, completed, n - 1) + (if completed[n - 1] then [Receive(ts[n - 1])] else [])
  }

  lemma NothingKept(ts: seq<Transfer>, completed: seq<bool>)
    requires |ts| == |completed|
    ensures Kept(ts, completed, 0) == [] && Arrived(ts, completed, 0) == []
  {
  }

  lemma KeptNext(ts: seq<Transfer>, completed: seq<bool>, k: nat)
    requires k < |ts| == |completed|
    ensures var kept := Kept(ts, completed, k);
            var all := kept + ts[k..];
            && all[|kept|] == ts[k]
            && (if completed[k]
                then Kept(ts, completed, k + 1) == kept && all[..|kept|] + all[|kept| + 1..] == kept + ts[k + 1..]
                else Kept(ts, completed, k + 1) == kept + [ts[k]] && all == kept + [ts[k]] + ts[k + 1..])
    ensures Arrived(ts, completed, k + 1) == if completed[k] then Arrived(ts, completed, k) + [Receive(ts[k])]
              else Arrived(ts, completed, k)
  {
    var kept := Kept(ts, completed, k);
    TakeOutAt(kept, ts[k..]);
    assert ts[k..][1..] == ts[k + 1..];
    hide Kept, Arrived;
  }

  lemma TakeOutAt(a: seq<Transfer>, b: seq<Transfer>)
    requires |b| > 0
    ensures (a + b)[|a|] == b[0] && (a + b)[..|a|] + (a + b)[|a| + 1..] == a + b[1..] && a + b == a + [b[0]] + b[1..]
  {
    assert (a + b)[..|a|] == a && (a + b)[|a| + 1..] == b[1..];
    assert b == [b[0]] + b[1..];
  }

  lemma AfterNothing(b: Board)
    ensures After(b, []) == b
  {
  }

  lemma AfterOneMore(b: Board, events: seq<Event>, e: Event)
    ensures After(b, events + [e]) == Step(After(b, events), e)
  {
    assert (events + [e])[..|events + [e]| - 1] == events;
  }

  /** The job of an AWAIT_PUSH: asks once, and is done when the data has been written. */
  class AwaitPushJob {
    const source: Cid
    const box: set<Cell>
    var dataHandle: TransferHandle?

    constructor (source: Cid, box: set<Cell>)
      ensures this.source == source && this.box == box && dataHandle == null
    {
      this.source, this.box, dataHandle := source, box, null;
    }

    ghost predicate Holds(btm: BufferTransferManager)
      reads this, btm
    {
      if dataHandle == null then source !in btm.board.awaited
          else source in btm.handles && btm.handles[source] == dataHandle
    }

    method Execute(btm: BufferTransferManager) returns (done: bool)
      requires btm.Valid() && Holds(btm)
      requires source in btm.board.received ==> btm.board.received[source].data.Keys == box
      modifies this, btm
      ensures btm.Valid() && Holds(btm) && dataHandle != null
      ensures btm.board == if old(dataHandle) == null then Awaits(old(btm.board), source) else old(btm.board)
      ensures done <==> source in btm.board.written
    {
      if dataHandle == null {
        dataHandle := btm.AwaitPush(source, box);
      }
      done := dataHandle.complete;
    }
  }
}
