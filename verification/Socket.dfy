/** A connection object with its flag, as one goroutine at a time uses it. */
module Sockets {
  import opened Options
  import opened Framing
  import opened Transfer

  const CONNECTED_NO := 0
  const CONNECTING := 1
  const CONNECTED_YES := 2

  /** What dialling meets: nobody answers, or a connection on which these bytes will arrive. */
  datatype Dial = Refused | Accepted(incoming: seq<byte>)

  /** The write events `Send` meets: on a closed connection the deadline cannot be set. */
  function Faced(open: bool, env: WriteEnv): WriteEnv {
    if open then env else (i: nat) => DeadlineError
  }

  /** What `Receive` reads off a connection. */
  ghost function Heard(open: bool, deadlineSet: bool, stream: seq<byte>, env: ReadEnv): Reading
    requires Flowing(env)
  {
    if open && deadlineSet then RecvRun(stream, 0, env, 0) else Nothing
  }

  /** io.ReadFull on a stream of which `start` has been read: reads on until there are `target` bytes, or
      fails. */
  method ReadFull(stream: seq<byte>, start: seq<byte>, target: nat, env: ReadEnv, from: nat)
    returns (got: seq<byte>, ok: bool, i: nat)
    requires Flowing(env) && ReadPoint(stream, start, target)
    ensures ReadPoint(stream, got, target) && |start| <= |got|
    ensures ok ==> |got| == target && RecvRun(stream, target, env, i) == RecvRun(stream, |start|, env, from)
    ensures !ok ==> RecvRun(stream, |start|, env, from).Nothing?
  {
    got, i := start, from;
    while |got| < target
      invariant ReadPoint(stream, got, target) && |start| <= |got|
      invariant RecvRun(stream, |got|, env, i) == RecvRun(stream, |start|, env, from)
      decreases target - |got|
    {
      if env(i).ReadError? || |got| == |stream| {
        RecvEnds(stream, got, target, env, i);
        return got, false, i;
      }
      var n := Min(env(i).n, Min(target - |got|, |stream| - |got|));
      RecvTurn(stream, got, target, env, i, n);
      got := got + stream[|got|..|got| + n];
      i := i + 1;
    }
    return got, true, i;
  }

  /** A socket with what its user attaches to it: a task socket carries the pool it belongs to. */
  class Socket<T> {
    const tag: T
    var connected: int          // the flag
    var dialled: bool           // there is a network connection, open or closed
    var open: bool              // the network connection is open
    var wire: seq<byte>         // bytes written to it
    var incoming: seq<byte>     // bytes that arrive on it
    var pos: nat                // how many of them have been read

    constructor (tag: T)
      ensures Valid() && connected == CONNECTED_NO && !dialled && this.tag == tag
    {
      this.tag := tag;
      connected, dialled, open, wire, incoming, pos := CONNECTED_NO, false, false, [], [], 0;
    }

    ghost predicate Valid()
      reads this
    {
      && (connected == CONNECTED_NO || connected == CONNECTING || connected == CONNECTED_YES)
      && (connected == CONNECTED_YES <==> open)
      && (open ==> dialled)
      && pos <= |incoming|
    }

    predicate IsConnected()
      reads this
    {
      connected == CONNECTED_YES
    }

    /** The bytes that have arrived or will arrive and have not been read. */
    function Ahead(): seq<byte>
      reads this
    {
      if pos <= |incoming| then incoming[pos..] else []
    }

    /** As Connect leaves it after a successful dial. */
    predicate Dialled(dial: Dial)
      reads this
    {
      dial.Accepted? && IsConnected() && wire == [] && incoming == dial.incoming && pos == 0
    }

    method CloseConn()
      requires Valid()
      modifies this`connected, this`open
      ensures Valid() && connected == if old(connected) == CONNECTED_YES then CONNECTED_NO else old(connected)
    {
      if connected == CONNECTED_YES {
        connected := CONNECTED_NO;
        open := false;
      }
    }

    method Close()
      requires Valid()
      modifies this`connected, this`open
      ensures Valid() && connected == CONNECTED_NO
    {
      if connected == CONNECTING {
        connected := CONNECTED_NO;
        return;
      }
      CloseConn();
    }

    /** `closing` tells whether another goroutine calls Close while the dial is under way: that resets the
        flag, and the connection just made is closed again. */
    method Connect(dial: Dial, closing: bool) returns (ok: bool)
      requires Valid()
      modifies this
      ensures Valid() && ok == (old(connected) == CONNECTED_NO && dial.Accepted? && !closing)
      ensures ok ==> Dialled(dial)
      ensures !ok ==> connected == old(connected) && open == old(open) && dialled == old(dialled)
      ensures !ok ==> wire == old(wire) && Ahead() == old(Ahead())
    {
      ok := false;
      if connected == CONNECTED_NO {
        connected := CONNECTING;
        if closing {
          Close();
        }
        if dial.Accepted? {
          if connected == CONNECTING {
            connected := CONNECTED_YES;
            dialled, open, wire, incoming, pos := true, true, [], dial.incoming, 0;
            ok := true;
          }
        }
        if connected == CONNECTING {
          connected := CONNECTED_NO;
        }
      }
    }

    /** Exactly the bytes of the frame that the network has taken are on the wire. `last` is the turn that ends
        the loop, the first that fails or completes the frame. The result is true when no turn has failed. It is
        false with the connection still up exactly when the deadline could not be set, or a write timed out
        before any byte had gone out. On a closed connection nothing happens. */
    method Send(message: Message, env: WriteEnv) returns (ok: bool, ghost last: nat)
      requires Valid() && dialled && Progress(env)
      modifies this`wire, this`connected, this`open
      ensures Valid() && (!old(open) ==> Progress(Faced(false, env)))
      ensures var r := SendRun(Frame(message), 0, Faced(old(open), env), 0);
              && ok == r.verdict.Sent?
              && wire == old(wire) + Frame(message)[..r.done]
              && connected == if r.verdict == Failed(true) then CONNECTED_NO else old(connected)
      ensures old(open) ==> ByEvents(message, env, last, old(wire), wire, ok, IsConnected())
      ensures !old(open) ==> !ok && wire == old(wire) && connected == old(connected)
    {
      var totalLen := |message|;
      var data := BigEndian(totalLen, 4) + message;
      totalLen := totalLen + 4;
      last := SendRun(Frame(message), 0, Faced(open, env), 0).last;
      SendByEvents(message, Faced(open, env), wire);
      assert data == Frame(message);
      ok := Write(data, totalLen, env);
    }

    /** The loop of Send: as the run of the write loop says. */
    method Write(f: seq<byte>, totalLen: nat, env: WriteEnv) returns (ok: bool)
      requires Valid() && dialled && Progress(env) && |f| == totalLen > 0
      modifies this`wire, this`connected, this`open
      ensures Valid() && (!old(open) ==> Progress(Faced(false, env)))
      ensures var r := SendRun(f, 0, Faced(old(open), env), 0);
              && ok == r.verdict.Sent?
              && wire == old(wire) + f[..r.done]
              && connected == if r.verdict == Failed(true) then CONNECTED_NO else old(connected)
    {
      var data := f;
      ghost var e := Faced(open, env);
      ghost var goal := SendRun(f, 0, e, 0);
      ghost var done := 0;
      var i := 0;
      assert wire + f[..0] == wire;
      while true
        invariant done < |f| && data == f[done..]
        invariant SendRun(f, done, e, i) == goal
        invariant wire == old(wire) + f[..done] && connected == old(connected) && open == old(open)
        decreases |data|
      {
        var ev := Faced(open, env)(i);
        ghost var turn := WriteTurn(f, done, ev, i);
        assert turn.verdict.Continue? || turn == goal;
        if ev.DeadlineError? {
          return false;
        }
        var writeLen := Min(ev.n, |data|);
        Slices(old(wire), f, done, writeLen);
        wire := wire + data[..writeLen];
        if ev.Wrote? {
          if writeLen == |data| {
            return true;
          }
          data := data[writeLen..];
          done := done + writeLen;
          i := i + 1;
          continue;
        }
        if ev.timeout && totalLen == |data[writeLen..]| {
          return false;
        }
        CloseConn();
        return false;
      }
    }

    static lemma Slices(w: seq<byte>, f: seq<byte>, done: nat, n: nat)
      requires done + n <= |f|
      ensures (w + f[..done]) + f[done..][..n] == w + f[..done + n]
      ensures f[done..][n..] == f[done + n..]
    {
    }

    /** The body of the next frame, which is all that is consumed, or nil; nil leaves the connection down. On an
        open connection whose deadline can be set, and without a read error, the frame is returned exactly when
        it is there. */
    method Receive(deadlineSet: bool, env: ReadEnv) returns (res: Option<Message>)
      requires Valid() && dialled && Flowing(env)
      modifies this`pos, this`connected, this`open
      ensures Valid()
      ensures var r := Heard(old(open), deadlineSet, old(Ahead()), env);
              && res == (if r.Whole? then Some(r.body) else None)
              && (r.Whole? ==> connected == old(connected) && incoming == old(incoming) && pos == old(pos) + r.used)
      ensures res.None? ==> !IsConnected()
      ensures res.Some? ==>
        && old(open) && deadlineSet && StartsWhole(old(Ahead()))
        && res.value == old(Ahead())[4..Need(old(Ahead()))] && Ahead() == old(Ahead())[Need(old(Ahead()))..]
        && IsConnected()
      ensures old(open) && deadlineSet && ErrorFree(env) ==> (res.Some? <==> StartsWhole(old(Ahead())))
    {
      if !(open && deadlineSet) {
        CloseConn();
        return None;
      }
      var stream := incoming[pos..];
      RecvExact(stream, 0, env, 0);
      var header, ok, i := ReadFull(stream, [], 4, env, 0);
      if !ok {
        pos := pos + |header|;
        CloseConn();
        return None;
      }
      var dataLen := FromBigEndian(header);
      assert header[..4] == header;
      var data;
      data, ok, i := ReadFull(stream, header, 4 + dataLen, env, i);
      pos := pos + |data|;
      if !ok {
        CloseConn();
        return None;
      }
      assert data[..4] == header;
      return Some(data[4..]);
    }
  }
}
