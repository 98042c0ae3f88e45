/**
 Request and reply stay aligned: over every run, whatever is lost, cut or delayed, the bytes a query
 unmarshals are the gateway's reply to that very query.
 */
module TaskPoolAlignment {
  import opened Framing
  import opened Transfer
  import opened TaskPool
  import opened TaskPoolOwnership

  // ---------------------------------------------------------------- the invariant

  /** The gateway's side: replies answer the queries on the wire one for one and in order. */
  ghost predicate Logged(cfg: Config, k: Conn) {
    var qs := Queries(cfg, k.out);
    && |k.replies| <= |qs|
    && (forall j :: 0 <= j < |k.replies| ==> cfg.answers(qs[j], k.replies[j]))
    && AllFit(k.replies)
    && k.read <= |EncodeAll(k.replies)|
  }

  /** Every query on the wire has been answered and every reply has been read. */
  ghost predicate Drained(cfg: Config, k: Conn) {
    |k.replies| == |Queries(cfg, k.out)| && k.read == |EncodeAll(k.replies)|
  }

  /** Nothing is pending in either direction and the wire ends between two frames. */
  ghost predicate Settled(cfg: Config, k: Conn) {
    Drained(cfg, k) && Decode(k.out).rest == []
  }

  ghost predicate LastQueryIs(cfg: Config, k: Conn, msg: Message) {
    var qs := Queries(cfg, k.out);
    |qs| > 0 && qs[|qs| - 1] == msg
  }

  /** The last query on the wire is `msg` and the gateway's reply to it is `body`. */
  ghost predicate AnsweredBy(cfg: Config, k: Conn, msg: Message, body: Message) {
    && LastQueryIs(cfg, k, msg)
    && |k.replies| == |Queries(cfg, k.out)|
    && k.replies[|k.replies| - 1] == body
  }

  /** Sent, not answered yet. */
  ghost predicate Outstanding(cfg: Config, k: Conn) {
    |k.replies| == |Queries(cfg, k.out)| - 1 && k.read == |EncodeAll(k.replies)|
  }

  /** Answered, and `got` has been read of the last reply. */
  ghost predicate PartlyRead(cfg: Config, k: Conn, got: seq<byte>) {
    var n := |k.replies|;
    && n > 0 && n == |Queries(cfg, k.out)|
    && k.read == |EncodeAll(k.replies[..n - 1])| + |got|
    && |got| <= |Frame(k.replies[n - 1])| && got == Frame(k.replies[n - 1])[..|got|]
  }

  /** While a query's Receive runs: either the query never reached the wire as a whole frame, or it is
      the last query there. */
  ghost predicate Awaiting(cfg: Config, k: Conn, msg: Message, got: seq<byte>) {
    || (Drained(cfg, k) && got == [])
    || (&& Decode(k.out).rest == [] && LastQueryIs(cfg, k, msg)
        && ((Outstanding(cfg, k) && got == []) || PartlyRead(cfg, k, got)))
  }

  /** What is true of a live connection according to where its holder is. */
  ghost predicate InPhase(cfg: Config, p: PC, k: Conn) {
    match p
    case Sending(_, msg, done, job) =>
      && Fits(msg) && done < |Frame(msg)|
      && Drained(cfg, k) && Decode(k.out).rest == Frame(msg)[..done]
    case Receiving(_, msg, got) => Awaiting(cfg, k, msg, got)
    case Answered(_, msg, body) => Settled(cfg, k) && AnsweredBy(cfg, k, msg, body)
    case Shutting(_, _) => true
    case _ => Settled(cfg, k)
  }

  ghost predicate HolderInPhase(cfg: Config, p: PC, conns: seq<Conn>) {
    0 <= Sock(p) < |conns| && conns[Sock(p)].up ==> InPhase(cfg, p, conns[Sock(p)])
  }

  /** A query is sent to be answered, everything else is not. */
  predicate JobMatches(cfg: Config, p: PC) {
    p.Sending? ==> (p.job.Query? <==> cfg.isQuery(p.msg))
  }

  ghost predicate AllLogged(cfg: Config, s: State) {
    forall c :: 0 <= c < |s.conns| ==> Logged(cfg, s.conns[c])
  }

  ghost predicate HoldersInPhase(cfg: Config, s: State) {
    forall i :: 0 <= i < |s.threads| ==> HolderInPhase(cfg, s.threads[i], s.conns) && JobMatches(cfg, s.threads[i])
  }

  ghost predicate IdleSettled(cfg: Config, s: State) {
    forall i :: 0 <= i < |s.idle| ==> s.idle[i] < |s.conns| && Settled(cfg, s.conns[s.idle[i]])
  }

  ghost predicate Aligned(cfg: Config, s: State) {
    AllLogged(cfg, s) && HoldersInPhase(cfg, s) && IdleSettled(cfg, s)
  }

  /** The one event that breaks alignment: a one-way Send whose deadline cannot be set after a short
      write returns false and leaves the connection up with part of a frame on it. */
  predicate Clean(s: State, step: Step) {
    !(&& step.WriteOnce? && step.wev.DeadlineError?
      && step.t < |s.threads| && s.threads[step.t].Sending?
      && s.threads[step.t].job.OneWay? && s.threads[step.t].done > 0)
  }

  predicate CleanRun(cfg: Config, s: State, steps: seq<Step>)
    requires Legal(cfg, s, steps)
    decreases |steps|
  {
    steps == [] || (Clean(s, steps[0]) && CleanRun(cfg, Do(cfg, s, steps[0]), steps[1..]))
  }

  // ---------------------------------------------------------------- queries on a growing wire

  lemma {:induction false} SelectConcat(f: Message -> bool, a: seq<Message>, b: seq<Message>)
    ensures Select(f, a + b) == Select(f, a) + Select(f, b)
    decreases |b|
  {
    if b == [] {
      assert a + b == a;
    } else {
      var last := |b| - 1;
      SelectConcat(f, a, b[..last]);
      assert (a + b)[..|a + b| - 1] == a + b[..last];
    }
  }

  lemma SelectOne(f: Message -> bool, m: Message)
    ensures Select(f, [m]) == if f(m) then [m] else []
  {
    assert [m][..0] == [];
  }

  lemma QueriesOnlyGrow(cfg: Config, out: seq<byte>, more: seq<byte>)
    ensures Queries(cfg, out) <= Queries(cfg, out + more)
  {
    FramesOnlyGrow(out, more);
    var a, b := Decode(out).frames, Decode(out + more).frames;
    SelectConcat(cfg.isQuery, a, b[|a|..]);
    assert a + b[|a|..] == b;
  }

  lemma WriteLogged(cfg: Config, k: Conn, more: seq<byte>, up: bool)
    requires Logged(cfg, k)
    ensures Logged(cfg, k.(out := k.out + more, up := up))
  {
    QueriesOnlyGrow(cfg, k.out, more);
  }

  // ---------------------------------------------------------------- one turn of Send

  /** Part of the frame goes out and the frame is not complete. */
  lemma WritePart(cfg: Config, k: Conn, msg: Message, done: nat, n: nat)
    requires Fits(msg) && done <= n < |Frame(msg)| && Decode(k.out).rest == Frame(msg)[..done] && Drained(cfg, k)
    ensures var k' := k.(out := k.out + Frame(msg)[done..n]);
            Drained(cfg, k') && Decode(k'.out).rest == Frame(msg)[..n]
  {
    WireGrows(k.out, msg, done, n);
  }

  /** The last part of the frame goes out. */
  lemma WriteRest(cfg: Config, k: Conn, msg: Message, done: nat)
    requires Fits(msg) && done < |Frame(msg)| && Decode(k.out).rest == Frame(msg)[..done] && Drained(cfg, k)
    ensures var k' := k.(out := k.out + Frame(msg)[done..|Frame(msg)|]);
            && Decode(k'.out).rest == []
            && (!cfg.isQuery(msg) ==> Settled(cfg, k'))
            && (cfg.isQuery(msg) ==> LastQueryIs(cfg, k', msg) && Outstanding(cfg, k'))
  {
    WireGrows(k.out, msg, done, |Frame(msg)|);
    SelectConcat(cfg.isQuery, Decode(k.out).frames, [msg]);
    SelectOne(cfg.isQuery, msg);
  }

  /** One turn of Send on a live connection, seen from the connection alone. */
  lemma WriteConn(cfg: Config, k: Conn, c: nat, msg: Message, done: nat, job: Job, ev: WriteEvent)
    requires InPhase(cfg, Sending(c, msg, done, job), k) && (job.Query? <==> cfg.isQuery(msg))
    ensures var r := WriteTurn(Frame(msg), done, ev, 0);
            var k' := k.(out := k.out + Frame(msg)[done..r.done]);
            var p' := if r.verdict.Continue? then Sending(c, msg, r.done, job)
                      else AfterSend(c, msg, job, r.verdict.Sent?);
            r.verdict != Failed(true) ==>
              (InPhase(cfg, p', k') <==> !(ev.DeadlineError? && job.OneWay? && done > 0))
  {
    var r := WriteTurn(Frame(msg), done, ev, 0);
    match r.verdict
    case Sent => WriteSent(cfg, k, c, msg, done, job);
    case Continue => WritePart(cfg, k, msg, done, r.done);
    case Failed(down) =>
      if !down {
        assert k.out + Frame(msg)[done..done] == k.out;
        WriteStopped(cfg, k, c, msg, done, job);
      }
  }

  /** Send returns true. */
  lemma WriteSent(cfg: Config, k: Conn, c: nat, msg: Message, done: nat, job: Job)
    requires InPhase(cfg, Sending(c, msg, done, job), k) && (job.Query? <==> cfg.isQuery(msg))
    ensures InPhase(cfg, AfterSend(c, msg, job, true), k.(out := k.out + Frame(msg)[done..|Frame(msg)|]))
  {
    WriteRest(cfg, k, msg, done);
  }

  /** Send returns false and the connection stays up. */
  lemma WriteStopped(cfg: Config, k: Conn, c: nat, msg: Message, done: nat, job: Job)
    requires InPhase(cfg, Sending(c, msg, done, job), k)
    ensures InPhase(cfg, AfterSend(c, msg, job, false), k) <==> !(job.OneWay? && done > 0)
  {
    assert |Frame(msg)[..done]| == done;
  }

  /** After one turn of Send the sender is in phase unless the turn was the one that is not clean. */
  lemma WritePhase(cfg: Config, s: State, t: nat, ev: WriteEvent)
    requires Enabled(cfg, s, WriteOnce(t, ev)) && JobMatches(cfg, s.threads[t])
    requires Upright(s.threads[t], s.conns) && HolderInPhase(cfg, s.threads[t], s.conns)
    ensures var s' := DoWrite(s, t, ev);
            HolderInPhase(cfg, s'.threads[t], s'.conns) <==> Clean(s, WriteOnce(t, ev))
  {
    var Sending(c, msg, done, job) := s.threads[t];
    if s.conns[c].up {
      WriteConn(cfg, s.conns[c], c, msg, done, job, ev);
    }
  }

  lemma WriteTraffic(cfg: Config, s: State, t: nat, ev: WriteEvent)
    requires Enabled(cfg, s, WriteOnce(t, ev)) && AllLogged(cfg, s)
    ensures AllLogged(cfg, DoWrite(s, t, ev))
  {
    var Sending(c, msg, done, job) := s.threads[t];
    var r := WriteTurn(Frame(msg), done, ev, 0);
    WriteLogged(cfg, s.conns[c], Frame(msg)[done..r.done], s.conns[c].up && r.verdict != Failed(true));
  }

  // ---------------------------------------------------------------- one turn of Receive

  lemma LastReply(k: Conn)
    requires |k.replies| > 0
    ensures var n := |k.replies|;
            EncodeAll(k.replies) == EncodeAll(k.replies[..n - 1]) + Frame(k.replies[n - 1])
  {
    var n := |k.replies|;
    EncodeConcat(k.replies[..n - 1], [k.replies[n - 1]]);
    EncodeOne(k.replies[n - 1]);
    assert k.replies[..n - 1] + [k.replies[n - 1]] == k.replies;
  }

  lemma Extend(f: seq<byte>, k: nat, m: nat)
    requires k + m <= |f|
    ensures f[..k] + f[k..][..m] == f[..k + m]
  {
  }

  lemma UnreadOfLast(cfg: Config, k: Conn, got: seq<byte>)
    requires Logged(cfg, k) && PartlyRead(cfg, k, got)
    ensures var f := Frame(k.replies[|k.replies| - 1]); got == f[..|got|] && Unread(k) == f[|got|..]
  {
    LastReply(k);
  }

  /** A reply of which the whole frame has been read. */
  lemma WholeReply(k: Conn, last: Message, got: seq<byte>)
    requires |k.replies| > 0 && last == k.replies[|k.replies| - 1] && Fits(last)
    requires |got| <= |Frame(last)| && got == Frame(last)[..|got|] && StartsWhole(got)
    requires k.read == |EncodeAll(k.replies[..|k.replies| - 1])| + |got|
    ensures k.read == |EncodeAll(k.replies)| && got[4..] == last
  {
    PartOfFrame(last, |got|);
    LastReply(k);
    assert got == Frame(last);
  }

  /** Reading more of the last reply. */
  lemma ReadPart(cfg: Config, k: Conn, got: seq<byte>, m: nat)
    requires Logged(cfg, k) && PartlyRead(cfg, k, got) && m <= |Unread(k)|
    ensures var got' := got + Unread(k)[..m];
            var k' := k.(read := k.read + m);
            && PartlyRead(cfg, k', got')
            && (StartsWhole(got') ==> Drained(cfg, k') && got'[4..] == k.replies[|k.replies| - 1])
  {
    var last := k.replies[|k.replies| - 1];
    UnreadOfLast(cfg, k, got);
    Extend(Frame(last), |got|, m);
    var got' := got + Unread(k)[..m];
    if StartsWhole(got') {
      WholeReply(k.(read := k.read + m), last, got');
    }
  }

  lemma ReadConn(cfg: Config, k: Conn, c: nat, msg: Message, got: seq<byte>, n: nat)
    requires Logged(cfg, k) && Awaiting(cfg, k, msg, got) && !StartsWhole(got) && |got| <= Need(got)
    ensures var m := Take(got, |Unread(k)|, n);
            var got' := got + Unread(k)[..m];
            var k' := k.(read := k.read + m);
            if StartsWhole(got') then InPhase(cfg, Answered(c, msg, got'[4..]), k')
            else InPhase(cfg, Receiving(c, msg, got'), k')
  {
    var m := Take(got, |Unread(k)|, n);
    if Decode(k.out).rest == [] && LastQueryIs(cfg, k, msg) && PartlyRead(cfg, k, got) {
      ReadPart(cfg, k, got, m);
    } else {
      assert Unread(k) == [];
      assert got + Unread(k)[..m] == got;
      assert k.(read := k.read + m) == k;
    }
  }

  lemma ReadLogged(cfg: Config, k: Conn, m: nat, up: bool)
    requires Logged(cfg, k) && m <= |Unread(k)|
    ensures Logged(cfg, k.(read := k.read + m)) && Logged(cfg, k.(up := up))
  {
  }

  lemma ReadPhase(cfg: Config, s: State, t: nat, ev: ReadEvent)
    requires Enabled(cfg, s, ReadOnce(t, ev)) && Logged(cfg, s.conns[s.threads[t].c])
    requires Upright(s.threads[t], s.conns) && HolderInPhase(cfg, s.threads[t], s.conns)
    ensures var s' := DoRead(s, t, ev);
            HolderInPhase(cfg, s'.threads[t], s'.conns)
  {
    if ev.Arrived? {
      var Receiving(c, msg, got) := s.threads[t];
      ReadConn(cfg, s.conns[c], c, msg, got, ev.n);
    }
  }

  lemma ReadTraffic(cfg: Config, s: State, t: nat, ev: ReadEvent)
    requires Enabled(cfg, s, ReadOnce(t, ev)) && AllLogged(cfg, s)
    ensures AllLogged(cfg, DoRead(s, t, ev))
  {
    var Receiving(c, msg, got) := s.threads[t];
    var k := s.conns[c];
    ReadLogged(cfg, k, if ev.Arrived? then Take(got, |Unread(k)|, ev.n) else 0, false);
  }

  // ---------------------------------------------------------------- the gateway replies

  lemma ReplyConn(cfg: Config, p: PC, k: Conn, body: Message)
    requires Logged(cfg, k) && InPhase(cfg, p, k) && Fits(body)
    requires |k.replies| < |Queries(cfg, k.out)| && cfg.answers(Queries(cfg, k.out)[|k.replies|], body)
    ensures InPhase(cfg, p, k.(replies := k.replies + [body]))
  {
    var k' := k.(replies := k.replies + [body]);
    if p.Receiving? {
      assert k'.replies[..|k.replies|] == k.replies;
      assert Frame(body)[..0] == [];
      assert PartlyRead(cfg, k', []);
    }
  }

  lemma ReplyLogged(cfg: Config, k: Conn, body: Message)
    requires Logged(cfg, k) && Fits(body)
    requires |k.replies| < |Queries(cfg, k.out)| && cfg.answers(Queries(cfg, k.out)[|k.replies|], body)
    ensures Logged(cfg, k.(replies := k.replies + [body]))
  {
    EncodeConcat(k.replies, [body]);
  }

  lemma ReplyAligned(cfg: Config, s: State, c: nat, body: Message)
    requires Owned(cfg, s) && Aligned(cfg, s) && Enabled(cfg, s, Reply(c, body))
    ensures Aligned(cfg, Do(cfg, s, Reply(c, body)))
  {
    var s' := Do(cfg, s, Reply(c, body));
    ReplyLogged(cfg, s.conns[c], body);
    forall i | 0 <= i < |s'.threads| ensures HolderInPhase(cfg, s'.threads[i], s'.conns) {
      assert HolderInPhase(cfg, s.threads[i], s.conns);
      if Sock(s.threads[i]) == c && s.conns[c].up {
        ReplyConn(cfg, s.threads[i], s.conns[c], body);
        assert InPhase(cfg, s.threads[i], s.conns[c].(replies := s.conns[c].replies + [body]));
      }
    }
  }

  // ---------------------------------------------------------------- every step

  lemma FreshSettled(cfg: Config)
    ensures Settled(cfg, FRESH) && Logged(cfg, FRESH)
  {
  }

  // Steps that neither write nor read.

  predicate QuietStep(step: Step) {
    CallerStep(step) || BeatStep(step) || CloseStep(step) || GiveStep(step)
  }

  predicate SameTraffic(s: State, s': State) {
    && |s.conns| <= |s'.conns|
    && (forall c :: 0 <= c < |s.conns| ==> s'.conns[c] == s.conns[c] || s'.conns[c] == s.conns[c].(up := false))
    && (forall c :: |s.conns| <= c < |s'.conns| ==> s'.conns[c] == FRESH)
  }

  lemma SameConns(cfg: Config, s: State, step: Step)
    requires Enabled(cfg, s, step) && QuietStep(step) && !step.DialResult? && !step.Shut?
    ensures Do(cfg, s, step).conns == s.conns
  {
  }

  lemma NewTraffic(cfg: Config, s: State, step: Step)
    requires Enabled(cfg, s, step) && (step.DialResult? || step.Shut?)
    ensures SameTraffic(s, Do(cfg, s, step))
  {
  }

  lemma QuietTraffic(cfg: Config, s: State, step: Step)
    requires Enabled(cfg, s, step) && QuietStep(step)
    ensures SameTraffic(s, Do(cfg, s, step))
  {
    if step.DialResult? || step.Shut? {
      NewTraffic(cfg, s, step);
    } else {
      SameConns(cfg, s, step);
    }
  }

  lemma LoggedKept(cfg: Config, s: State, s': State)
    requires AllLogged(cfg, s) && SameTraffic(s, s')
    ensures AllLogged(cfg, s')
  {
    forall c | 0 <= c < |s'.conns| ensures Logged(cfg, s'.conns[c]) {
      if c < |s.conns| {
        ReadLogged(cfg, s.conns[c], 0, false);
      } else {
        FreshSettled(cfg);
      }
    }
  }

  lemma CallerPhase(cfg: Config, s: State, step: Step)
    requires Enabled(cfg, s, step) && CallerStep(step)
    requires IdleSettled(cfg, s) && HolderInPhase(cfg, s.threads[step.t], s.conns)
    ensures HolderInPhase(cfg, Do(cfg, s, step).threads[step.t], Do(cfg, s, step).conns)
  {
    FreshSettled(cfg);
    if step.Begin? {
      assert Frame(step.msg)[..0] == [];
    }
  }

  lemma BeatPhase(cfg: Config, s: State, step: Step)
    requires Sane(cfg) && Enabled(cfg, s, step) && BeatStep(step)
    requires IdleSettled(cfg, s) && HolderInPhase(cfg, s.threads[step.t], s.conns)
    ensures HolderInPhase(cfg, Do(cfg, s, step).threads[step.t], Do(cfg, s, step).conns)
  {
    assert Frame(cfg.beat)[..0] == [];
  }

  lemma ClosePhase(cfg: Config, s: State, step: Step)
    requires Enabled(cfg, s, step) && CloseStep(step)
    ensures HolderInPhase(cfg, Do(cfg, s, step).threads[step.t], Do(cfg, s, step).conns)
  {
  }

  lemma GivePhase(cfg: Config, s: State, step: Step)
    requires Enabled(cfg, s, step) && GiveStep(step)
    requires Upright(s.threads[step.t], s.conns) && HolderInPhase(cfg, s.threads[step.t], s.conns)
    ensures HolderInPhase(cfg, Do(cfg, s, step).threads[step.t], Do(cfg, s, step).conns)
  {
  }

  lemma ThreadTraffic(cfg: Config, s: State, step: Step)
    requires Enabled(cfg, s, step) && !step.Spawn? && !step.Reply? && AllLogged(cfg, s)
    ensures AllLogged(cfg, Do(cfg, s, step))
  {
    if step.WriteOnce? {
      WriteTraffic(cfg, s, step.t, step.wev);
    } else if step.ReadOnce? {
      ReadTraffic(cfg, s, step.t, step.rev);
    } else {
      QuietTraffic(cfg, s, step);
      LoggedKept(cfg, s, Do(cfg, s, step));
    }
  }

  lemma ThreadPhase(cfg: Config, s: State, step: Step)
    requires Sane(cfg) && Owned(cfg, s) && Aligned(cfg, s)
    requires Enabled(cfg, s, step) && !step.Spawn? && !step.Reply?
    ensures HolderInPhase(cfg, Do(cfg, s, step).threads[step.t], Do(cfg, s, step).conns) <==> Clean(s, step)
  {
    assert Upright(s.threads[step.t], s.conns) && HolderInPhase(cfg, s.threads[step.t], s.conns);
    if CallerStep(step) {
      CallerPhase(cfg, s, step);
    } else if BeatStep(step) {
      BeatPhase(cfg, s, step);
    } else if CloseStep(step) {
      ClosePhase(cfg, s, step);
    } else if GiveStep(step) {
      GivePhase(cfg, s, step);
    } else if step.WriteOnce? {
      WritePhase(cfg, s, step.t, step.wev);
    } else {
      ReadPhase(cfg, s, step.t, step.rev);
    }
  }

  lemma ThreadJob(cfg: Config, s: State, step: Step)
    requires Sane(cfg) && Enabled(cfg, s, step) && !step.Spawn? && !step.Reply?
    requires JobMatches(cfg, s.threads[step.t])
    ensures JobMatches(cfg, Do(cfg, s, step).threads[step.t])
  {
  }

  lemma MoveAligned(cfg: Config, s: State, s': State, t: nat)
    requires Owned(cfg, s) && Aligned(cfg, s) && Move(s, s', t)
    requires AllLogged(cfg, s') && JobMatches(cfg, s'.threads[t])
    ensures Aligned(cfg, s') <==> HolderInPhase(cfg, s'.threads[t], s'.conns)
  {
    var p, p' := s.threads[t], s'.threads[t];
    forall i | 0 <= i < |s'.threads| && i != t
      ensures HolderInPhase(cfg, s'.threads[i], s'.conns) && JobMatches(cfg, s'.threads[i])
    {
      MoveOthers(s, s', t, i);
      assert HolderInPhase(cfg, s.threads[i], s.conns) && JobMatches(cfg, s.threads[i]);
    }
    if Sock(p) >= 0 {
      assert HeldBy(s.threads, t, Sock(p));
    }
    assert HolderInPhase(cfg, p, s.conns);
  }

  /** The exact condition: a step from an aligned state keeps it aligned if and only if it is not a
      one-way Send whose deadline fails after a short write. */
  lemma StepAligned(cfg: Config, s: State, step: Step)
    requires Sane(cfg) && Owned(cfg, s) && Aligned(cfg, s) && Enabled(cfg, s, step)
    ensures Aligned(cfg, Do(cfg, s, step)) <==> Clean(s, step)
  {
    if step.Spawn? {
      SpawnAligned(cfg, s);
    } else if step.Reply? {
      ReplyAligned(cfg, s, step.c, step.body);
    } else {
      EveryMove(cfg, s, step);
      ThreadTraffic(cfg, s, step);
      ThreadJob(cfg, s, step);
      MoveAligned(cfg, s, Do(cfg, s, step), step.t);
      ThreadPhase(cfg, s, step);
    }
  }

  lemma SpawnAligned(cfg: Config, s: State)
    requires Aligned(cfg, s)
    ensures Aligned(cfg, s.(threads := s.threads + [Idle]))
  {
    var s' := s.(threads := s.threads + [Idle]);
    forall i | 0 <= i < |s'.threads|
      ensures HolderInPhase(cfg, s'.threads[i], s'.conns) && JobMatches(cfg, s'.threads[i])
    {
      if i < |s.threads| {
        assert HolderInPhase(cfg, s.threads[i], s.conns) && JobMatches(cfg, s.threads[i]);
      }
    }
  }

  // ---------------------------------------------------------------- every run

  lemma {:induction false} AlignedRun(cfg: Config, s: State, steps: seq<Step>)
    requires Sane(cfg) && Owned(cfg, s) && Aligned(cfg, s)
    requires Legal(cfg, s, steps) && CleanRun(cfg, s, steps)
    ensures Aligned(cfg, Run(cfg, s, steps)) && Owned(cfg, Run(cfg, s, steps))
    decreases |steps|
  {
    if steps != [] {
      StepAligned(cfg, s, steps[0]);
      OwnedStep(cfg, s, steps[0]);
      AlignedRun(cfg, Do(cfg, s, steps[0]), steps[1..]);
    }
  }

  /** In every clean run, the body a query is about to unmarshal is the gateway's answer to that very
      query: the query is the last one on its connection, the body is the reply with the same number,
      and no reply is left unread. */
  lemma RepliesAnswerTheirQueries(cfg: Config, steps: seq<Step>, t: nat)
    requires Sane(cfg) && Legal(cfg, NewPool(cfg), steps) && CleanRun(cfg, NewPool(cfg), steps)
    ensures var s := Run(cfg, NewPool(cfg), steps);
            t < |s.threads| && s.threads[t].Answered? ==>
              var Answered(c, msg, body) := s.threads[t];
              && c < |s.conns|
              && cfg.answers(msg, body)
              && AnsweredBy(cfg, s.conns[c], msg, body)
              && Settled(cfg, s.conns[c])
  {
    NewPoolOwned(cfg);
    AlignedRun(cfg, NewPool(cfg), steps);
    var s := Run(cfg, NewPool(cfg), steps);
    if t < |s.threads| && s.threads[t].Answered? {
      assert HeldBy(s.threads, t, s.threads[t].c);
      assert Upright(s.threads[t], s.conns) && HolderInPhase(cfg, s.threads[t], s.conns);
      assert Logged(cfg, s.conns[s.threads[t].c]);
    }
  }

  /** In every clean run a connection in the pool is up, its wire is a list of whole frames, every query
      on it has been answered and every reply has been read. */
  lemma PooledConnectionsAreSettled(cfg: Config, steps: seq<Step>)
    requires Sane(cfg) && Legal(cfg, NewPool(cfg), steps) && CleanRun(cfg, NewPool(cfg), steps)
    ensures var s := Run(cfg, NewPool(cfg), steps);
            forall i :: 0 <= i < |s.idle| ==>
              s.idle[i] < |s.conns| && s.conns[s.idle[i]].up && Settled(cfg, s.conns[s.idle[i]])
  {
    NewPoolOwned(cfg);
    AlignedRun(cfg, NewPool(cfg), steps);
  }

  /** A Receive that returns nil leaves the connection down, and whatever happens afterwards that
      connection is never in the pool again. */
  lemma NilReceiveIsFinal(cfg: Config, steps: seq<Step>, t: nat, later: seq<Step>)
    requires Legal(cfg, NewPool(cfg), steps)
    requires Enabled(cfg, Run(cfg, NewPool(cfg), steps), ReadOnce(t, ReadError))
    requires Legal(cfg, Do(cfg, Run(cfg, NewPool(cfg), steps), ReadOnce(t, ReadError)), later)
    ensures var s := Run(cfg, NewPool(cfg), steps);
            var s' := Run(cfg, Do(cfg, s, ReadOnce(t, ReadError)), later);
            var c := s.threads[t].c;
            c < |s'.conns| && !s'.conns[c].up && c !in s'.idle
  {
    NewPoolOwned(cfg);
    OwnedRun(cfg, NewPool(cfg), steps);
    var s := Run(cfg, NewPool(cfg), steps);
    OwnedStep(cfg, s, ReadOnce(t, ReadError));
    DownForever(cfg, Do(cfg, s, ReadOnce(t, ReadError)), later, s.threads[t].c);
  }
}
