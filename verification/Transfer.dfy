/**
 One turn of the write loop of `Send` and of the read loop behind `Receive`, as functions of what the
 network does in that turn, and the two loops run to their end.
 */
module Transfer {
  import opened Framing

  function Min(a: nat, b: nat): (m: nat)
    ensures m <= a && m <= b && (m == a || m == b)
  {
    if a < b then a else b
  }

  // ---------------------------------------------------------------- sending

  /** What one turn of the write loop meets: the deadline cannot be set, bytes go out without an
      error, or the write reports an error after some bytes. */
  datatype WriteEvent =
    | DeadlineError
    | Wrote(n: nat)
    | WriteError(n: nat, timeout: bool)

  type WriteEnv = nat -> WriteEvent

  /** Every error-free write makes progress. */
  ghost predicate Progress(env: WriteEnv) {
    forall i: nat :: env(i).Wrote? ==> env(i).n > 0
  }

  datatype Verdict = Continue | Sent | Failed(down: bool)

  /** `done` bytes of the frame are on the wire; `last` is the turn that was reached. */
  datatype SendState = SendState(done: nat, verdict: Verdict, last: nat)

  function WriteTurn(f: seq<byte>, done: nat, ev: WriteEvent, i: nat): (r: SendState)
    requires done < |f|
    ensures done <= r.done <= |f| && r.last == i
    ensures r.verdict.Continue? ==> r.done < |f|
    ensures r.verdict == Failed(false) <==> ev.DeadlineError? || (ev.WriteError? && ev.timeout && r.done == 0)
    ensures r.verdict.Sent? <==> ev.Wrote? && r.done == |f|
  {
    match ev
    case DeadlineError => SendState(done, Failed(false), i)
    case Wrote(n) =>
      var d := done + Min(n, |f| - done);
      SendState(d, if d == |f| then Sent else Continue, i)
    case WriteError(n, timeout) =>
      var d := done + Min(n, |f| - done);
      SendState(d, Failed(!(timeout && d == 0)), i)
  }

  ghost function SendRun(f: seq<byte>, done: nat, env: WriteEnv, i: nat): (r: SendState)
    requires done < |f| && Progress(env)
    ensures !r.verdict.Continue? && done <= r.done <= |f|
    decreases |f| - done
  {
    var r := WriteTurn(f, done, env(i), i);
    if r.verdict.Continue? then SendRun(f, r.done, env, i + 1) else r
  }

  /** The deadline could not be set although a short write had already put bytes on the wire: the one
      way out of `Send` that leaves a live connection with part of a frame on it. */
  ghost predicate Spoils(env: WriteEnv, last: nat) {
    env(last).DeadlineError? && last > 0
  }

  lemma {:induction false} SendRunVerdict(f: seq<byte>, done: nat, env: WriteEnv, i: nat)
    requires done < |f| && Progress(env) && (done == 0 <==> i == 0)
    ensures var r := SendRun(f, done, env, i);
            && i <= r.last && done <= r.done <= |f|
            && (r.verdict.Sent? <==> r.done == |f| && env(r.last).Wrote?)
            && (r.verdict == Failed(false)
                <==> env(r.last).DeadlineError? || (env(r.last).WriteError? && env(r.last).timeout && r.done == 0))
            && (r.verdict == Failed(true) <==> env(r.last).WriteError? && (!env(r.last).timeout || r.done > 0))
            && (r.verdict == Failed(false) ==> (r.done == 0 <==> !Spoils(env, r.last)))
            && (r.verdict == Failed(false) ==> r.done < |f|)
    decreases |f| - done
  {
    var r := WriteTurn(f, done, env(i), i);
    if r.verdict.Continue? {
      SendRunVerdict(f, r.done, env, i + 1);
    }
  }

  /** How many bytes the network takes or would take in one turn. */
  function Moved(ev: WriteEvent): nat {
    match ev
    case DeadlineError => 0
    case Wrote(n) => n
    case WriteError(n, _) => n
  }

  ghost function Gone(env: WriteEnv, turns: nat): nat {
    if turns == 0 then 0 else Gone(env, turns - 1) + Moved(env(turns - 1))
  }

  /** Turn `i` fails, or brings what has gone out to `size` bytes. */
  ghost predicate Ends(env: WriteEnv, size: nat, i: nat) {
    !env(i).Wrote? || Gone(env, i + 1) >= size
  }

  ghost predicate LastTurn(env: WriteEnv, size: nat, last: nat) {
    Ends(env, size, last) && forall i :: 0 <= i < last ==> !Ends(env, size, i)
  }

  lemma OneLast(env: WriteEnv, size: nat, i: nat, j: nat)
    requires LastTurn(env, size, i) && LastTurn(env, size, j)
    ensures i == j
  {
  }

  /** The loop stops at the first turn that fails or completes the frame, and until then every byte the network
      takes is a byte of the frame. */
  lemma {:induction false} SendRunEvents(f: seq<byte>, done: nat, env: WriteEnv, i: nat)
    requires done < |f| && Progress(env) && done == Gone(env, i)
    requires forall j :: 0 <= j < i ==> !Ends(env, |f|, j)
    ensures var r := SendRun(f, done, env, i);
            LastTurn(env, |f|, r.last) && r.done == Min(|f|, Gone(env, r.last + 1))
    decreases |f| - done
  {
    var r := WriteTurn(f, done, env(i), i);
    assert Gone(env, i + 1) == done + Moved(env(i));
    if r.verdict.Continue? {
      SendRunEvents(f, r.done, env, i + 1);
    }
  }

  /** What a Send of `m` on an open connection comes to, told by the events it meets: `last` is the first turn that
      fails or completes the frame; what the network has taken by then is on the wire; the result is true when
      that turn has not failed; false leaves the connection up exactly when the deadline could not be set, or a
      write timed out before any byte had gone out. */
  ghost predicate ByEvents(m: Message, env: WriteEnv, last: nat, wire: seq<byte>, wire': seq<byte>, ok: bool, up: bool)
  {
    && LastTurn(env, |m| + 4, last)
    && wire' == wire + Frame(m)[..Min(|m| + 4, Gone(env, last + 1))]
    && (ok <==> env(last).Wrote?)
    && (ok ==> up)
    && (!ok && up <==> env(last).DeadlineError? || (env(last).WriteError? && env(last).timeout && wire' == wire))
  }

  lemma SendByEvents(m: Message, env: WriteEnv, wire: seq<byte>)
    requires Progress(env)
    ensures var r := SendRun(Frame(m), 0, env, 0);
            ByEvents(m, env, r.last, wire, wire + Frame(m)[..r.done], r.verdict.Sent?, r.verdict != Failed(true))
  {
    var f := Frame(m);
    SendRunVerdict(f, 0, env, 0);
    SendRunEvents(f, 0, env, 0);
    assert |wire + f[..SendRun(f, 0, env, 0).done]| == |wire| + SendRun(f, 0, env, 0).done;
  }

  /** No write fails and no deadline. */
  ghost predicate FaultFree(env: WriteEnv) {
    forall i: nat :: env(i).Wrote?
  }

  /** On a network that delivers, a Send puts the whole frame on the wire, however it is cut. */
  lemma FaultFreeSends(m: Message, env: WriteEnv)
    requires Progress(env) && FaultFree(env)
    ensures var r := SendRun(Frame(m), 0, env, 0); r.verdict.Sent? && r.done == |Frame(m)|
    ensures Frame(m)[..SendRun(Frame(m), 0, env, 0).done] == Frame(m)
  {
    SendRunVerdict(Frame(m), 0, env, 0);
  }

  /** For every series of short writes and errors: `Send` returning true has put exactly the whole
      frame on the wire, and returning false with the connection up has put none of it there if and
      only if the deadline did not fail after a short write. */
  lemma SendExact(m: Message, env: WriteEnv)
    requires Progress(env)
    ensures var r := SendRun(Frame(m), 0, env, 0);
            && (r.verdict.Sent? ==> Frame(m)[..r.done] == Frame(m))
            && (r.verdict == Failed(false) ==> (Frame(m)[..r.done] == [] <==> !Spoils(env, r.last)))
  {
    SendRunVerdict(Frame(m), 0, env, 0);
    var r := SendRun(Frame(m), 0, env, 0);
    assert |Frame(m)[..r.done]| == r.done;
  }

  /** One write of a single byte followed by a deadline error: the connection stays up with a piece of
      a frame on it. */
  lemma SpoiledWire(m: Message)
    ensures var env := (i: nat) => if i == 0 then Wrote(1) else DeadlineError;
            && Progress(env)
            && SendRun(Frame(m), 0, env, 0) == SendState(1, Failed(false), 1)
  {
  }

  // ------------------------------------------------- a series of sends on one connection

  datatype Attempt = Attempt(message: Message, env: WriteEnv)

  /** The wire after a series of sends, which stops when a send tears the connection down. */
  datatype Line = Line(wire: seq<byte>, up: bool, delivered: seq<Message>)

  ghost predicate Honest(as_: seq<Attempt>) {
    forall i :: 0 <= i < |as_| ==> Progress(as_[i].env) && Fits(as_[i].message)
  }

  ghost function SendMany(as_: seq<Attempt>): Line
    requires Honest(as_)
  {
    if as_ == [] then Line([], true, [])
    else
      var l := SendMany(as_[..|as_| - 1]);
      if !l.up then l
      else
        var a := as_[|as_| - 1];
        var r := SendRun(Frame(a.message), 0, a.env, 0);
        Line(l.wire + Frame(a.message)[..r.done],
             r.verdict != Failed(true),
             if r.verdict.Sent? then l.delivered + [a.message] else l.delivered)
  }

  ghost predicate NeverSpoils(as_: seq<Attempt>)
    requires Honest(as_)
  {
    forall i :: 0 <= i < |as_| ==>
      var r := SendRun(Frame(as_[i].message), 0, as_[i].env, 0);
      r.verdict == Failed(false) ==> !Spoils(as_[i].env, r.last)
  }

  lemma {:induction false} UnspoiledWire(as_: seq<Attempt>)
    requires Honest(as_) && NeverSpoils(as_) && SendMany(as_).up
    ensures SendMany(as_).wire == EncodeAll(SendMany(as_).delivered)
    ensures Decode(SendMany(as_).wire) == Decoded(SendMany(as_).delivered, [])
    decreases |as_|
  {
    if as_ != [] {
      var front, a := as_[..|as_| - 1], as_[|as_| - 1];
      UnspoiledWire(front);
      var l := SendMany(front);
      SendExact(a.message, a.env);
      var r := SendRun(Frame(a.message), 0, a.env, 0);
      if r.verdict.Sent? {
        EncodeConcat(l.delivered, [a.message]);
        EncodeOne(a.message);
        WireGrows(l.wire, a.message, 0, |Frame(a.message)|);
        assert Frame(a.message)[0..|Frame(a.message)|] == Frame(a.message);
      } else {
        assert l.wire + [] == l.wire;
      }
    }
  }

  lemma NeverSpoilsNext(as_: seq<Attempt>)
    requires Honest(as_) && as_ != []
    ensures var n := |as_| - 1;
            var r := SendRun(Frame(as_[n].message), 0, as_[n].env, 0);
            NeverSpoils(as_) <==> NeverSpoils(as_[..n])
                                  && (r.verdict == Failed(false) ==> !Spoils(as_[n].env, r.last))
  {
    assert as_ == as_[..|as_| - 1] + [as_[|as_| - 1]];
  }

  /** Every spoiled send leaves bytes on the wire that belong to no delivered frame. */
  lemma {:induction false} WireExcess(as_: seq<Attempt>)
    requires Honest(as_) && SendMany(as_).up
    ensures |SendMany(as_).wire| >= |EncodeAll(SendMany(as_).delivered)|
    ensures |SendMany(as_).wire| == |EncodeAll(SendMany(as_).delivered)| ==> NeverSpoils(as_)
    decreases |as_|
  {
    if as_ != [] {
      var front, a := as_[..|as_| - 1], as_[|as_| - 1];
      WireExcess(front);
      NeverSpoilsNext(as_);
      SendExact(a.message, a.env);
      var l := SendMany(front);
      EncodeConcat(l.delivered, [a.message]);
      EncodeOne(a.message);
    }
  }

  /** The wire of a live connection is the concatenation of the frames whose `Send` returned true, and the peer
      reads exactly those messages with nothing left over, if and only if no deadline failed after a short
      write. */
  lemma LiveWireIsWhole(as_: seq<Attempt>)
    requires Honest(as_) && SendMany(as_).up
    ensures SendMany(as_).wire == EncodeAll(SendMany(as_).delivered) <==> NeverSpoils(as_)
    ensures Decode(SendMany(as_).wire) == Decoded(SendMany(as_).delivered, []) <==> NeverSpoils(as_)
  {
    var l := SendMany(as_);
    WireExcess(as_);
    if NeverSpoils(as_) {
      UnspoiledWire(as_);
    }
    if Decode(l.wire) == Decoded(l.delivered, []) {
      DecodeIsFaithful(l.wire);
      assert EncodeAll(l.delivered) + [] == l.wire;
    }
  }

  // ---------------------------------------------------------------- receiving

  /** What one turn of a read meets: up to `n` bytes, or an error (deadline, reset, end of stream). */
  datatype ReadEvent = Arrived(n: nat) | ReadError

  type ReadEnv = nat -> ReadEvent

  ghost predicate Flowing(env: ReadEnv) {
    forall i: nat :: env(i).Arrived? ==> env(i).n > 0
  }

  ghost predicate ErrorFree(env: ReadEnv) {
    forall i: nat :: env(i).Arrived?
  }

  /** How many bytes a turn takes: never beyond the frame being read, nor beyond what has arrived. */
  function Take(got: seq<byte>, available: nat, n: nat): (k: nat)
    ensures k <= available && (|got| <= Need(got) ==> |got| + k <= Need(got))
  {
    if |got| >= Need(got) then 0 else Min(n, Min(Need(got) - |got|, available))
  }

  datatype Reading = Nothing | Whole(body: Message, used: nat)

  /** Reads one frame from `stream`, whose first `pos` bytes are already in `got`. */
  ghost function RecvRun(stream: seq<byte>, pos: nat, env: ReadEnv, i: nat): (r: Reading)
    requires pos <= |stream| && pos <= Need(stream[..pos]) && Flowing(env)
    decreases |stream| - pos
  {
    var got := stream[..pos];
    if StartsWhole(got) then Whole(got[4..], pos)
    else if env(i).ReadError? || pos == |stream| then Nothing
    else
      var k := Take(got, |stream| - pos, env(i).n);
      TakeStays(stream, pos, k);
      RecvRun(stream, pos + k, env, i + 1)
  }

  lemma TakeStays(stream: seq<byte>, pos: nat, k: nat)
    requires pos + k <= |stream| && pos + k <= Need(stream[..pos])
    ensures pos + k <= Need(stream[..pos + k])
  {
    if pos >= 4 {
      assert stream[..pos][..4] == stream[..pos + k][..4];
    }
  }

  /** `got` is what has been read of `stream` on the way to `target` bytes: the header, then the rest of
      the frame it announces. */
  predicate ReadPoint(stream: seq<byte>, got: seq<byte>, target: nat) {
    && |got| <= |stream| && got == stream[..|got|] && |got| <= Need(got) && |got| <= target
    && (|got| < target ==> if |got| < 4 then target == 4 else target == Need(got))
  }

  lemma RecvTurn(stream: seq<byte>, got: seq<byte>, target: nat, env: ReadEnv, i: nat, n: nat)
    requires ReadPoint(stream, got, target) && |got| < target && |got| < |stream| && Flowing(env) && env(i).Arrived?
    requires n == Min(env(i).n, Min(target - |got|, |stream| - |got|))
    ensures ReadPoint(stream, got + stream[|got|..|got| + n], target) && n > 0
    ensures RecvRun(stream, |got|, env, i) == RecvRun(stream, |got| + n, env, i + 1)
  {
    var k := |got|;
    assert n == Take(stream[..k], |stream| - k, env(i).n);
    TakeStays(stream, k, n);
    assert got + stream[k..k + n] == stream[..k + n];
    if k >= 4 {
      assert stream[..k][..4] == stream[..k + n][..4];
    }
  }

  lemma RecvEnds(stream: seq<byte>, got: seq<byte>, target: nat, env: ReadEnv, i: nat)
    requires ReadPoint(stream, got, target) && |got| < target && Flowing(env)
    requires env(i).ReadError? || |got| == |stream|
    ensures RecvRun(stream, |got|, env, i).Nothing?
  {
  }

  /** What is read is the first frame of the stream, however the reads are cut; without a read error
      it is read whenever it is there. */
  lemma {:induction false} RecvExact(stream: seq<byte>, pos: nat, env: ReadEnv, i: nat)
    requires pos <= |stream| && pos <= Need(stream[..pos]) && Flowing(env)
    ensures var r := RecvRun(stream, pos, env, i);
            && (r.Whole? ==> StartsWhole(stream) && r.used == Need(stream) && r.body == stream[4..r.used])
            && (ErrorFree(env) ==> (r.Whole? <==> StartsWhole(stream)))
    decreases |stream| - pos
  {
    var got := stream[..pos];
    if pos >= 4 {
      assert got[..4] == stream[..4];
    }
    if StartsWhole(got) {
      assert got[4..] == stream[4..pos];
    } else if !(env(i).ReadError? || pos == |stream|) {
      var k := Take(got, |stream| - pos, env(i).n);
      TakeStays(stream, pos, k);
      RecvExact(stream, pos + k, env, i + 1);
    } else if pos == |stream| {
      assert got == stream;
    }
  }

  /** Repeated receives until the first nil. */
  ghost function ReceiveMany(stream: seq<byte>, envs: nat -> ReadEnv, i: nat): (ms: seq<Message>)
    requires forall j: nat :: Flowing(envs(j))
    decreases |stream|
  {
    RecvExact(stream, 0, envs(i), 0);
    var r := RecvRun(stream, 0, envs(i), 0);
    if r.Nothing? then [] else [r.body] + ReceiveMany(stream[r.used..], envs, i + 1)
  }

  /** Repeated receives return exactly the whole frames of the stream, whatever the chunking. */
  lemma {:induction false} ReceiveManyIsDecode(stream: seq<byte>, envs: nat -> ReadEnv, i: nat)
    requires forall j: nat :: Flowing(envs(j)) && ErrorFree(envs(j))
    ensures ReceiveMany(stream, envs, i) == Decode(stream).frames
    decreases |stream|
  {
    RecvExact(stream, 0, envs(i), 0);
    if StartsWhole(stream) {
      ReceiveManyIsDecode(stream[Need(stream)..], envs, i + 1);
    }
  }

  /** End to end: what the peer receives on a live connection is what was sent successfully. */
  lemma SentIsReceived(as_: seq<Attempt>, envs: nat -> ReadEnv)
    requires Honest(as_) && NeverSpoils(as_) && SendMany(as_).up
    requires forall j: nat :: Flowing(envs(j)) && ErrorFree(envs(j))
    ensures ReceiveMany(SendMany(as_).wire, envs, 0) == SendMany(as_).delivered
  {
    LiveWireIsWhole(as_);
    ReceiveManyIsDecode(SendMany(as_).wire, envs, 0);
  }
}
