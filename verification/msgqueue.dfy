/** The queue of outgoing messages of `mbbmsgqueue.c`: any number of threads push, one pops and
writes as many bytes as the connection takes.
 */
module MsgQueues {
  import opened Sequences
  import opened Slices

  type Bytes = seq<nat>

  /** A `struct msg_entry`; its number stands for its address. */
  datatype Msg = Msg(id: nat, text: Bytes, off: nat)

  /** Where the popping thread is in `mbb_msg_queue_pop`. */
  datatype Popper =
    | Outside
    | Peeked(id: nat)                      // has the head of the queue, without the mutex
    | Written(id: nat, n: int, len: nat)   // the write took `n` of `len` bytes

  /** `sent` is what the connection has taken, `pushed` all messages in the order of their pushes. */
  datatype State = State(queue: seq<Msg>, next: nat, popper: Popper, sent: Bytes, pushed: seq<Bytes>)

  /** A push by any thread, or the next step of the popper, with the number of bytes that a write
      takes: below 0 for an error, and never more than offered. */
  datatype Move = Push(text: Bytes) | Pop(n: int)

  datatype Outcome = Blocked | Crash | Next(s: State)

  function Find(q: seq<Msg>, id: nat): (r: Option<nat>)
    ensures r.Some? ==> r.value < |q| && q[r.value].id == id
  {
    if q == [] then None
    else if q[0].id == id then Some(0)
    else match Find(q[1..], id) case None => None case Some(i) => Some(i + 1)
  }

  function Rest(m: Msg): Bytes {
    if m.off <= |m.text| then m.text[m.off..] else []
  }

  /** `mbb_msg_queue_push_entry`. */
  function PushEntry(s: State, text: Bytes): State {
    s.(queue := s.queue + [Msg(s.next, text, 0)], next := s.next + 1, pushed := s.pushed + [text])
  }

  /** `mbb_msg_queue_pop`. The entry is used outside the mutex; whatever is then the head of the
      queue is taken out, and the entry freed. */
  function PopStep(s: State, n: int): Outcome {
    match s.popper
    case Outside => Next(if s.queue == [] then s else s.(popper := Peeked(s.queue[0].id)))
    case Peeked(id) =>
      (match Find(s.queue, id)
       case None => Crash
       case Some(i) =>
         var rest := Rest(s.queue[i]);
         if n > |rest| then Blocked
         else Next(s.(popper := Written(id, n, |rest|), sent := s.sent + if n > 0 then rest[..n] else [])))
    case Written(id, k, len) =>
      if k <= 0 then Next(s.(popper := Outside))
      else
        (match Find(s.queue, id)
         case None => Crash
         case Some(i) =>
           if k < len then Next(s.(popper := Outside, queue := s.queue[i := s.queue[i].(off := s.queue[i].off + k)]))
           else if i > 0 then Crash
           else Next(s.(popper := Outside, queue := s.queue[1..])))
  }

  function Step(s: State, m: Move): Outcome {
    match m
    case Push(text) => Next(PushEntry(s, text))
    case Pop(n) => PopStep(s, n)
  }

  // ---------------------------------------------------------------- conservation

  function Concat(ts: seq<Bytes>): Bytes {
    if ts == [] then [] else ts[0] + Concat(ts[1..])
  }

  /** What the queue has still to send. */
  function Unsent(q: seq<Msg>): Bytes {
    if q == [] then [] else Rest(q[0]) + Unsent(q[1..])
  }

  lemma {:induction false} ConcatEnd(ts: seq<Bytes>, t: Bytes)
    ensures Concat(ts + [t]) == Concat(ts) + t
  {
    if ts == [] {
      assert ts + [t] == [t];
      assert Concat([t]) == t + Concat([]);
    } else {
      assert (ts + [t])[1..] == ts[1..] + [t];
      ConcatEnd(ts[1..], t);
    }
  }

  lemma {:induction false} UnsentEnd(q: seq<Msg>, m: Msg)
    ensures Unsent(q + [m]) == Unsent(q) + Rest(m)
  {
    if q == [] {
      assert q + [m] == [m];
      assert Unsent([m]) == Rest(m) + Unsent([]);
    } else {
      assert (q + [m])[1..] == q[1..] + [m];
      UnsentEnd(q[1..], m);
    }
  }

  /** How many of the unsent bytes a write has taken already. */
  function Taken(p: Popper): nat {
    if p.Written? && p.n > 0 then p.n else 0
  }

  /** The popper's entry is the head of the queue, and no byte is lost or repeated: those sent,
      followed by those unsent, are all messages in the order of their pushes. */
  ghost predicate Inv(s: State) {
    && (forall i :: 0 <= i < |s.queue| ==> s.queue[i].off <= |s.queue[i].text| && s.queue[i].id < s.next)
    && (s.popper != Outside ==> s.queue != [] && s.queue[0].id == s.popper.id)
    && (s.popper.Written? ==> s.popper.len == |Rest(s.queue[0])| && s.popper.n <= s.popper.len)
    && Taken(s.popper) <= |Unsent(s.queue)|
    && s.sent + Unsent(s.queue)[Taken(s.popper)..] == Concat(s.pushed)
  }

  lemma DropConcat(a: Bytes, b: Bytes, c: Bytes, k: nat)
    requires k <= |b|
    ensures a + (b + c)[k..] == a + b[k..] + c
  {
  }

  lemma PushKept(s: State, text: Bytes)
    requires Inv(s)
    ensures Inv(PushEntry(s, text))
  {
    var r := PushEntry(s, text);
    UnsentEnd(s.queue, Msg(s.next, text, 0));
    ConcatEnd(s.pushed, text);
    DropConcat(s.sent, Unsent(s.queue), text, Taken(s.popper));
    assert s.popper != Outside ==> r.queue[0] == s.queue[0];
  }

  lemma WriteKept(s: State, n: int)
    requires Inv(s) && s.popper.Peeked?
    ensures PopStep(s, n) != Crash
    ensures PopStep(s, n).Next? ==> Inv(PopStep(s, n).s)
  {
    if PopStep(s, n).Next? {
      var rest := Rest(s.queue[0]);
      assert n > 0 ==> Unsent(s.queue)[..n] == rest[..n];
      assert Unsent(s.queue)[0..] == Unsent(s.queue);
    }
  }

  lemma BookKept(s: State, n: int)
    requires Inv(s) && s.popper.Written?
    ensures PopStep(s, n).Next? && Inv(PopStep(s, n).s)
  {
    if s.popper.n > 0 {
      var k := s.popper.n;
      var r := PopStep(s, n).s;
      if k < s.popper.len {
        assert r.queue[1..] == s.queue[1..] && Rest(r.queue[0]) == Rest(s.queue[0])[k..];
      }
      assert Unsent(r.queue) == Unsent(s.queue)[k..];
      assert Unsent(r.queue)[0..] == Unsent(r.queue);
    }
  }

  lemma PopKept(s: State, n: int)
    requires Inv(s)
    ensures PopStep(s, n) != Crash
    ensures PopStep(s, n).Next? ==> Inv(PopStep(s, n).s)
  {
    match s.popper
    case Outside =>
    case Peeked(_) => WriteKept(s, n);
    case Written(_, _, _) => BookKept(s, n);
  }

  const Start := State([], 0, Outside, [], [])

  /** A write that would take more than offered does not happen. */
  function Moved(s: State, m: Move): Outcome {
    match Step(s, m)
    case Blocked => Next(s)
    case o => o
  }

  /** What some moves make of a state. */
  function From(s: State, moves: seq<Move>): Outcome
    decreases |moves|
  {
    if moves == [] then Next(s)
    else
      match Moved(s, moves[0])
      case Next(r) => From(r, moves[1..])
      case o => o
  }

  function After(moves: seq<Move>): Outcome {
    From(Start, moves)
  }

  lemma MoveKept(s: State, m: Move)
    requires Inv(s)
    ensures Moved(s, m).Next? && Inv(Moved(s, m).s)
  {
    match m
    case Push(text) => PushKept(s, text);
    case Pop(k) => PopKept(s, k);
  }

  lemma {:induction false} RunOk(s: State, moves: seq<Move>)
    requires Inv(s)
    ensures From(s, moves).Next? && Inv(From(s, moves).s)
    decreases |moves|
  {
    if moves != [] {
      MoveKept(s, moves[0]);
      RunOk(Moved(s, moves[0]).s, moves[1..]);
    }
  }

  /** The messages that the moves push, in order. */
  function Texts(moves: seq<Move>): seq<Bytes> {
    if moves == [] then [] else (if moves[0].Push? then [moves[0].text] else []) + Texts(moves[1..])
  }

  lemma {:induction false} PushesKept(s: State, moves: seq<Move>)
    requires From(s, moves).Next?
    ensures From(s, moves).s.pushed == s.pushed + Texts(moves)
    decreases |moves|
  {
    if moves != [] {
      var r := Moved(s, moves[0]).s;
      PushesKept(r, moves[1..]);
      assert r.pushed == s.pushed + if moves[0].Push? then [moves[0].text] else [];
      Associative(s.pushed, if moves[0].Push? then [moves[0].text] else [], Texts(moves[1..]));
    }
  }

  /** In every run the popper uses no freed entry, and whenever it is not between a write and its
      bookkeeping, the bytes sent and the rest of the queue are all messages in the order of the
      pushes. */
  lemma Conserved(moves: seq<Move>)
    ensures After(moves).Next?
    ensures var s := After(moves).s; !s.popper.Written? ==> s.sent + Unsent(s.queue) == Concat(Texts(moves))
  {
    RunOk(Start, moves);
    PushesKept(Start, moves);
    assert Start.pushed + Texts(moves) == Texts(moves);
    var s := After(moves).s;
    assert Unsent(s.queue)[0..] == Unsent(s.queue);
  }

  // ---------------------------------------------------------------- progress

  /** All messages of `q` are still there, as they were and in their place. */
  predicate Stays(q: seq<Msg>, r: seq<Msg>) {
    |q| <= |r| && r[..|q|] == q
  }

  /** A write takes the head of the queue forward exactly when it takes a byte. */
  lemma Progress(s: State, n: int, k: int)
    requires Inv(s) && s.popper.Peeked? && n <= |Rest(s.queue[0])|
    ensures PopStep(s, n).Next? && PopStep(PopStep(s, n).s, k).Next?
    ensures var r := PopStep(PopStep(s, n).s, k).s;
      && (|Unsent(r.queue)| < |Unsent(s.queue)| <==> n > 0)
      && (Stays(s.queue, r.queue) <==> n <= 0)
  {
    var s1 := PopStep(s, n).s;
    var r := PopStep(s1, k).s;
    if 0 < n < |Rest(s.queue[0])| {
      assert r.queue[1..] == s.queue[1..] && Rest(r.queue[0]) == Rest(s.queue[0])[n..];
    }
  }

  /** The message at the head has no byte left to write. */
  predicate Jammed(s: State) {
    s.queue != [] && Rest(s.queue[0]) == []
  }

  lemma JammedMove(s: State, m: Move)
    requires Inv(s) && Jammed(s)
    ensures Moved(s, m).Next? && Stays(s.queue, Moved(s, m).s.queue) && Jammed(Moved(s, m).s)
    ensures Moved(s, m).s.sent == s.sent
  {
    MoveKept(s, m);
    var r := Moved(s, m).s;
    assert r.queue[0] == s.queue[0];
  }

  /** Behind a message without bytes nothing is sent or taken out in any later run. */
  lemma {:induction false} JammedForGood(s: State, moves: seq<Move>)
    requires Inv(s) && Jammed(s)
    ensures From(s, moves).Next? && Stays(s.queue, From(s, moves).s.queue) && From(s, moves).s.sent == s.sent
    decreases |moves|
  {
    if moves != [] {
      var r := Moved(s, moves[0]).s;
      JammedMove(s, moves[0]);
      MoveKept(s, moves[0]);
      JammedForGood(r, moves[1..]);
      assert s.queue == r.queue[..|s.queue|] == From(s, moves).s.queue[..|s.queue|];
    }
  }

  /** A head with bytes left moves on when the connection takes one of them. */
  lemma Unjammed(s: State) returns (moves: seq<Move>)
    requires Inv(s) && s.queue != [] && !Jammed(s)
    ensures From(s, moves).Next? && !Stays(s.queue, From(s, moves).s.queue)
  {
    match s.popper
    case Outside =>
      var r := Moved(s, Pop(0)).s;
      var rest := PeekedMoves(r);
      moves := [Pop(0)] + rest;
      assert moves[1..] == rest;
    case Peeked(_) => moves := PeekedMoves(s);
    case Written(_, n, _) =>
      var r := Moved(s, Pop(0)).s;
      if n > 0 {
        moves := [Pop(0)];
        assert moves[1..] == [];
        assert From(s, moves) == Next(r);
      } else {
        MoveKept(s, Pop(0));
        var r1 := Moved(r, Pop(0)).s;
        MoveKept(r, Pop(0));
        var rest := PeekedMoves(r1);
        moves := [Pop(0), Pop(0)] + rest;
        assert moves[1..] == [Pop(0)] + rest && ([Pop(0)] + rest)[1..] == rest;
        assert From(r, [Pop(0)] + rest) == From(r1, rest);
      }
  }

  lemma PeekedMoves(s: State) returns (moves: seq<Move>)
    requires Inv(s) && s.popper.Peeked? && !Jammed(s)
    ensures From(s, moves).Next? && !Stays(s.queue, From(s, moves).s.queue)
  {
    moves := [Pop(1), Pop(0)];
    assert moves[1..] == [Pop(0)] && [Pop(0)][1..] == [];
    Progress(s, 1, 0);
    var r := Moved(s, Pop(1)).s;
    assert From(r, [Pop(0)]) == Moved(r, Pop(0));
  }

  /** A queue is stuck, whatever its threads do, if and only if the message at its head has no bytes. */
  lemma StuckExactly(s: State)
    requires Inv(s) && s.queue != []
    ensures Rest(s.queue[0]) == [] <==> forall moves :: From(s, moves).Next? && Stays(s.queue, From(s, moves).s.queue)
  {
    if Jammed(s) {
      forall moves
        ensures From(s, moves).Next? && Stays(s.queue, From(s, moves).s.queue)
      {
        JammedForGood(s, moves);
      }
    } else {
      var moves := Unjammed(s);
    }
  }
}
