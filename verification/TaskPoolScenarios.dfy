/**
 Runs of the pool written out step by step: what the model can reach.
 */
module TaskPoolScenarios {
  import opened Framing
  import opened Transfer
  import opened TaskPool
  import opened TaskPoolAlignment
  import opened TaskPoolWakeup

  /** The steps can be taken from `s` and lead to `s'`. */
  predicate Leads(cfg: Config, s: State, steps: seq<Step>, s': State) {
    Legal(cfg, s, steps) && Run(cfg, s, steps) == s'
  }

  lemma First(cfg: Config, s: State, step: Step, mid: State, rest: seq<Step>, s': State)
    requires Enabled(cfg, s, step) && Do(cfg, s, step) == mid && Leads(cfg, mid, rest, s')
    ensures Leads(cfg, s, [step] + rest, s')
  {
    assert ([step] + rest)[1..] == rest;
  }

  lemma FourThen(cfg: Config, s0: State, a: Step, s1: State, b: Step, s2: State, c: Step, s3: State, d: Step,
                 s4: State, rest: seq<Step>, s': State)
    requires Enabled(cfg, s0, a) && Do(cfg, s0, a) == s1
    requires Enabled(cfg, s1, b) && Do(cfg, s1, b) == s2
    requires Enabled(cfg, s2, c) && Do(cfg, s2, c) == s3
    requires Enabled(cfg, s3, d) && Do(cfg, s3, d) == s4
    requires Leads(cfg, s4, rest, s')
    ensures Leads(cfg, s0, [a, b, c, d] + rest, s')
  {
    First(cfg, s3, d, s4, rest, s');
    First(cfg, s2, c, s3, [d] + rest, s');
    First(cfg, s1, b, s2, [c] + ([d] + rest), s');
    First(cfg, s0, a, s1, [b] + ([c] + ([d] + rest)), s');
    assert [a] + ([b] + ([c] + ([d] + rest))) == [a, b, c, d] + rest;
  }

  /** A pool of one connection; only the message [1] is a query. */
  function SmallPool(): Config {
    Config(1, false, [], m => m == [1], (q, r) => true)
  }

  lemma SmallFrame(m: Message)
    requires |m| < 256
    ensures Frame(m) == [0, 0, 0, |m|] + m
  {
    var n := |m|;
    assert n / 256 == 0;
    assert BigEndian(n, 4) == BigEndian(0, 3) + [n];
    assert BigEndian(0, 3) == BigEndian(0, 2) + [0];
    assert BigEndian(0, 2) == BigEndian(0, 1) + [0];
    assert BigEndian(0, 1) == BigEndian(0, 0) + [0];
  }

  // ---------------------------------------------------------------- a stranded waiter

  const QUERIED := Conn(true, [0, 0, 0, 1, 1], [], 0)

  const STRANDED := State([Idle, Waiting], 1, [], [QUERIED.(up := false)], false)

  /** One caller borrows the only connection, another finds the pool empty and waits; the borrower
      queries, the connection is lost while it reads, and the borrower releases it. */
  function DialSteps(): seq<Step> {
    [Spawn, Spawn, GetTest(0), GetSelect(0)]
  }

  function WaitSteps(): seq<Step> {
    [DialResult(0, true), GetTest(1), GetSelect(1), Begin(0, [1])]
  }

  function LoseSteps(): seq<Step> {
    [WriteOnce(0, Wrote(5)), ReadOnce(0, ReadError), Release(0), SendToken(0)]
  }

  lemma QueryWritten()
    ensures var s := State([Sending(0, [1], 0, Query), Waiting], 0, [], [FRESH], false);
            && Enabled(SmallPool(), s, WriteOnce(0, Wrote(5)))
            && Do(SmallPool(), s, WriteOnce(0, Wrote(5)))
               == State([Receiving(0, [1], []), Waiting], 0, [], [QUERIED], false)
  {
    SmallFrame([1]);
    assert FRESH.out + Frame([1])[0..5] == QUERIED.out;
  }

  lemma LoseRun()
    ensures Leads(SmallPool(), State([Sending(0, [1], 0, Query), Waiting], 0, [], [FRESH], false), LoseSteps(),
                  STRANDED)
  {
    var cfg := SmallPool();
    var down := [QUERIED.(up := false)];
    QueryWritten();
    assert Leads(cfg, STRANDED, [], STRANDED);
    FourThen(cfg, State([Sending(0, [1], 0, Query), Waiting], 0, [], [FRESH], false),
             WriteOnce(0, Wrote(5)), State([Receiving(0, [1], []), Waiting], 0, [], [QUERIED], false),
             ReadOnce(0, ReadError), State([Holding(0), Waiting], 0, [], down, false),
             Release(0), State([PutToken(ToCaller), Waiting], 0, [], down, false),
             SendToken(0), STRANDED, [], STRANDED);
    assert LoseSteps() + [] == LoseSteps();
  }

  lemma WaitRun(rest: seq<Step>, s': State)
    requires Leads(SmallPool(), State([Sending(0, [1], 0, Query), Waiting], 0, [], [FRESH], false), rest, s')
    ensures Leads(SmallPool(), State([Dialing, Idle], 0, [], [], false), WaitSteps() + rest, s')
  {
    FourThen(SmallPool(), State([Dialing, Idle], 0, [], [], false),
             DialResult(0, true), State([Holding(0), Idle], 0, [], [FRESH], false),
             GetTest(1), State([Holding(0), SawEmpty], 0, [], [FRESH], false),
             GetSelect(1), State([Holding(0), Waiting], 0, [], [FRESH], false),
             Begin(0, [1]), State([Sending(0, [1], 0, Query), Waiting], 0, [], [FRESH], false), rest, s');
  }

  lemma DialRun(rest: seq<Step>, s': State)
    requires Leads(SmallPool(), State([Dialing, Idle], 0, [], [], false), rest, s')
    ensures Leads(SmallPool(), NewPool(SmallPool()), DialSteps() + rest, s')
  {
    FourThen(SmallPool(), NewPool(SmallPool()),
             Spawn, State([Idle], 1, [], [], false),
             Spawn, State([Idle, Idle], 1, [], [], false),
             GetTest(0), State([SawEmpty, Idle], 1, [], [], false),
             GetSelect(0), State([Dialing, Idle], 0, [], [], false), rest, s');
  }

  lemma StrandedIsStuck()
    ensures EmptyHanded(STRANDED) && Stuck(SmallPool(), STRANDED, 1)
  {
  }

  /** The lost wakeup: the only connection dies in its borrower's hands while another caller waits for
      it. The token goes back to `size`, nobody holds anything, and the waiter has no step to take. */
  lemma StrandedWaiter()
    ensures Leads(SmallPool(), NewPool(SmallPool()), DialSteps() + (WaitSteps() + LoseSteps()), STRANDED)
    ensures STRANDED.threads[1].Waiting? && EmptyHanded(STRANDED) && Stuck(SmallPool(), STRANDED, 1)
  {
    LoseRun();
    WaitRun(LoseSteps(), STRANDED);
    DialRun(WaitSteps() + LoseSteps(), STRANDED);
    StrandedIsStuck();
  }

  // ---------------------------------------------------------------- the pool fills up

  /** `k` callers have dialled a connection each and hold it. */
  function Lent(cfg: Config, k: nat): State
    requires k <= cfg.cap
  {
    State(seq(k, (i: nat) => Holding(i)), cfg.cap - k, [], seq(k, i => FRESH), false)
  }

  lemma OneMore(cfg: Config, k: nat, rest: seq<Step>, s': State)
    requires k < cfg.cap && Leads(cfg, Lent(cfg, k + 1), rest, s')
    ensures Leads(cfg, Lent(cfg, k), [Spawn, GetTest(k), GetSelect(k), DialResult(k, true)] + rest, s')
  {
    var s := Lent(cfg, k);
    var s1 := s.(threads := s.threads + [Idle]);
    var s2 := s.(threads := s.threads + [SawEmpty]);
    var s3 := s.(threads := s.threads + [Dialing], tokens := s.tokens - 1);
    FourThen(cfg, s, Spawn, s1, GetTest(k), s2, GetSelect(k), s3, DialResult(k, true), Lent(cfg, k + 1), rest, s');
  }

  lemma {:induction false} FillFrom(cfg: Config, k: nat, n: nat) returns (steps: seq<Step>)
    requires k <= n <= cfg.cap
    ensures Leads(cfg, Lent(cfg, k), steps, Lent(cfg, n))
    decreases n - k
  {
    if k == n {
      steps := [];
    } else {
      var rest := FillFrom(cfg, k + 1, n);
      OneMore(cfg, k, rest, Lent(cfg, n));
      steps := [Spawn, GetTest(k), GetSelect(k), DialResult(k, true)] + rest;
    }
  }

  /** The size is not only a bound: for every number of connections up to it some run from a new pool has them all
      up, each held by another thread. */
  lemma SizeIsReached(cfg: Config, n: nat) returns (steps: seq<Step>)
    requires n <= cfg.cap
    ensures Legal(cfg, NewPool(cfg), steps)
    ensures var s := Run(cfg, NewPool(cfg), steps);
            && |s.threads| == |s.conns| == n && s.tokens == cfg.cap - n
            && forall i :: 0 <= i < n ==> s.threads[i] == Holding(i) && s.conns[i].up
  {
    assert Lent(cfg, 0) == NewPool(cfg);
    steps := FillFrom(cfg, 0, n);
  }

  // ---------------------------------------------------------------- a query that is answered

  /** What a reader of a settled reply stream sees once one more reply is on it. */
  lemma NewReply(k: Conn, body: Message)
    requires Fits(body) && k.read == |EncodeAll(k.replies)|
    ensures Unread(k.(replies := k.replies + [body])) == Frame(body)
  {
    EncodeConcat(k.replies, [body]);
    EncodeOne(body);
  }

  lemma GatewayReplies(cfg: Config, s: State, t: nat, body: Message)
    requires InRange(s, t) && s.threads[t].Receiving? && s.threads[t].got == [] && Fits(body)
    requires var k := s.conns[s.threads[t].c];
             k.up && Outstanding(cfg, k) && LastQueryIs(cfg, k, s.threads[t].msg)
    requires cfg.answers(s.threads[t].msg, body)
    ensures var c := s.threads[t].c;
            && Enabled(cfg, s, Reply(c, body))
            && var s' := Do(cfg, s, Reply(c, body));
               s'.threads == s.threads && InRange(s', t) && s'.conns[c].up && Unread(s'.conns[c]) == Frame(body)
  {
    NewReply(s.conns[s.threads[t].c], body);
  }

  lemma ReadHeader(cfg: Config, s: State, t: nat, body: Message)
    requires Fits(body) && InRange(s, t) && s.threads[t].Receiving? && s.threads[t].got == []
    requires var k := s.conns[s.threads[t].c]; k.up && Unread(k) == Frame(body)
    ensures Enabled(cfg, s, ReadOnce(t, Arrived(4)))
    ensures var Receiving(c, msg, _) := s.threads[t];
            var s' := Do(cfg, s, ReadOnce(t, Arrived(4)));
            && s'.conns[c] == s.conns[c].(read := s.conns[c].read + 4)
            && s'.threads[t] == if body == [] then Answered(c, msg, body) else Receiving(c, msg, Frame(body)[..4])
  {
    PartOfFrame(body, 4);
    assert [] + Frame(body)[..4] == Frame(body)[..4];
  }

  lemma ReadBody(cfg: Config, s: State, t: nat, body: Message)
    requires Fits(body) && body != [] && InRange(s, t)
    requires s.threads[t].Receiving? && s.threads[t].got == Frame(body)[..4]
    requires var k := s.conns[s.threads[t].c]; k.up && Unread(k) == body
    ensures Enabled(cfg, s, ReadOnce(t, Arrived(|body|)))
    ensures var Receiving(c, msg, _) := s.threads[t];
            Do(cfg, s, ReadOnce(t, Arrived(|body|))).threads[t] == Answered(c, msg, body)
  {
    PartOfFrame(body, 4);
    PartOfFrame(body, |Frame(body)|);
    assert Frame(body)[..4] + body == Frame(body)[..|Frame(body)|];
    assert body[..|body|] == body;
  }

  /** A query that is on the wire of a live connection can be answered with any body the gateway may
      give, and its Receive then returns that body, after which the caller goes on with the connection:
      alignment is not bought by never answering. */
  lemma QueryCanComplete(cfg: Config, s: State, t: nat, body: Message)
    requires InRange(s, t) && s.threads[t].Receiving? && s.threads[t].got == [] && Fits(body)
    requires var k := s.conns[s.threads[t].c];
             k.up && Outstanding(cfg, k) && LastQueryIs(cfg, k, s.threads[t].msg)
    requires cfg.answers(s.threads[t].msg, body)
    ensures exists steps, s' :: Leads(cfg, s, steps, s') && t < |s'.threads|
                                && s'.threads[t] == Answered(s.threads[t].c, s.threads[t].msg, body)
                                && InRange(s', t) && Do(cfg, s', Digest(t)).threads[t] == Holding(s.threads[t].c)
  {
    var Receiving(c, msg, _) := s.threads[t];
    GatewayReplies(cfg, s, t, body);
    var s1 := Do(cfg, s, Reply(c, body));
    ReadHeader(cfg, s1, t, body);
    var s2 := Do(cfg, s1, ReadOnce(t, Arrived(4)));
    if body != [] {
      NewReplyBody(s1.conns[c], body);
    }
    var rest, s' := ReadRest(cfg, s2, t, c, msg, body);
    TwoSteps(cfg, s, Reply(c, body), s1, ReadOnce(t, Arrived(4)), s2, rest, s');
  }

  /** After the header the body can be read in one piece, if there is one. */
  lemma ReadRest(cfg: Config, s: State, t: nat, c: nat, msg: Message, body: Message)
    returns (rest: seq<Step>, s': State)
    requires Fits(body) && InRange(s, t)
    requires if body == [] then s.threads[t] == Answered(c, msg, body)
             else s.threads[t] == Receiving(c, msg, Frame(body)[..4]) && s.conns[c].up && Unread(s.conns[c]) == body
    ensures Leads(cfg, s, rest, s') && InRange(s', t) && s'.threads[t] == Answered(c, msg, body)
  {
    if body == [] {
      rest, s' := [], s;
    } else {
      ReadBody(cfg, s, t, body);
      s' := Do(cfg, s, ReadOnce(t, Arrived(|body|)));
      assert Leads(cfg, s', [], s');
      First(cfg, s, ReadOnce(t, Arrived(|body|)), s', [], s');
      rest := [ReadOnce(t, Arrived(|body|))] + [];
    }
  }

  lemma NewReplyBody(k: Conn, body: Message)
    requires Unread(k) == Frame(body)
    ensures Unread(k.(read := k.read + 4)) == body
  {
    var stream := EncodeAll(k.replies);
    assert stream[k.read..][4..] == stream[k.read + 4..];
    assert Frame(body)[4..] == body;
  }

  lemma TwoSteps(cfg: Config, s0: State, a: Step, s1: State, b: Step, s2: State, rest: seq<Step>, s': State)
    requires Enabled(cfg, s0, a) && Do(cfg, s0, a) == s1
    requires Enabled(cfg, s1, b) && Do(cfg, s1, b) == s2
    requires Leads(cfg, s2, rest, s')
    ensures Leads(cfg, s0, [a] + ([b] + rest), s')
  {
    First(cfg, s1, b, s2, rest, s');
    First(cfg, s0, a, s1, [b] + rest, s');
  }
}
