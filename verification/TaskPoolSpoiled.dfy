/**
 What a one-way Send whose deadline fails after a short write does to the pool: the connection goes back
 with part of a frame on it, and the next query on it is lost or gets the answer to another one.
 */
module TaskPoolSpoiled {
  import opened Framing
  import opened Transfer
  import opened TaskPool
  import opened TaskPoolAlignment
  import opened TaskPoolScenarios

  /** A caller borrows the first connection of a new pool. */
  function HoldSteps(): seq<Step> {
    [Spawn, GetTest(0), GetSelect(0), DialResult(0, true)]
  }

  /** It sends `msg` one way: `n` bytes go out, then the write deadline cannot be set, and the connection,
      still up, is released. */
  function PolluteSteps(msg: Message, n: nat): seq<Step> {
    [Begin(0, msg), WriteOnce(0, Wrote(n)), WriteOnce(0, DeadlineError), Release(0)]
  }

  /** The connection goes back to the pool and is borrowed again for the query `q`. */
  function ReuseSteps(q: Message): seq<Step> {
    [SendIdle(0), GetTest(0), TakeIdle(0), Begin(0, q)]
  }

  /** The connection with these bytes on it and nothing read. */
  function Written(out: seq<byte>): Conn {
    Conn(true, out, [], 0)
  }

  lemma HoldRun(cfg: Config, rest: seq<Step>, s': State)
    requires cfg.cap == 1 && Leads(cfg, State([Holding(0)], 0, [], [FRESH], false), rest, s')
    ensures Leads(cfg, NewPool(cfg), HoldSteps() + rest, s')
  {
    FourThen(cfg, NewPool(cfg),
             Spawn, State([Idle], 1, [], [], false),
             GetTest(0), State([SawEmpty], 1, [], [], false),
             GetSelect(0), State([Dialing], 0, [], [], false),
             DialResult(0, true), State([Holding(0)], 0, [], [FRESH], false), rest, s');
  }

  lemma PolluteRun(cfg: Config, msg: Message, n: nat, rest: seq<Step>, s': State)
    requires Fits(msg) && !cfg.isQuery(msg) && 0 < n < |Frame(msg)|
    requires Leads(cfg, State([PutIdle(0, ToCaller)], 0, [], [Written(Frame(msg)[..n])], false), rest, s')
    ensures Leads(cfg, State([Holding(0)], 0, [], [FRESH], false), PolluteSteps(msg, n) + rest, s')
  {
    var k := Written(Frame(msg)[..n]);
    assert FRESH.out + Frame(msg)[0..n] == k.out;
    assert k.out + Frame(msg)[n..n] == k.out;
    FourThen(cfg, State([Holding(0)], 0, [], [FRESH], false),
             Begin(0, msg), State([Sending(0, msg, 0, OneWay)], 0, [], [FRESH], false),
             WriteOnce(0, Wrote(n)), State([Sending(0, msg, n, OneWay)], 0, [], [k], false),
             WriteOnce(0, DeadlineError), State([Holding(0)], 0, [], [k], false),
             Release(0), State([PutIdle(0, ToCaller)], 0, [], [k], false), rest, s');
  }

  lemma ReuseRun(cfg: Config, k: Conn, q: Message, rest: seq<Step>, s': State)
    requires cfg.cap == 1 && Fits(q) && cfg.isQuery(q)
    requires Leads(cfg, State([Sending(0, q, 0, Query)], 0, [], [k], false), rest, s')
    ensures Leads(cfg, State([PutIdle(0, ToCaller)], 0, [], [k], false), ReuseSteps(q) + rest, s')
  {
    FourThen(cfg, State([PutIdle(0, ToCaller)], 0, [], [k], false),
             SendIdle(0), State([Idle], 0, [0], [k], false),
             GetTest(0), State([Waiting], 0, [0], [k], false),
             TakeIdle(0), State([Holding(0)], 0, [], [k], false),
             Begin(0, q), State([Sending(0, q, 0, Query)], 0, [], [k], false), rest, s');
  }

  lemma QueryRun(cfg: Config, out: seq<byte>, q: Message, rest: seq<Step>, s': State)
    requires cfg.isQuery(q)
    requires Leads(cfg, State([Receiving(0, q, [])], 0, [], [Written(out + Frame(q))], false), rest, s')
    ensures Leads(cfg, State([Sending(0, q, 0, Query)], 0, [], [Written(out)], false),
                  [WriteOnce(0, Wrote(|Frame(q)|))] + rest, s')
  {
    assert Frame(q)[0..|Frame(q)|] == Frame(q);
    First(cfg, State([Sending(0, q, 0, Query)], 0, [], [Written(out)], false), WriteOnce(0, Wrote(|Frame(q)|)),
          State([Receiving(0, q, [])], 0, [], [Written(out + Frame(q))], false), rest, s');
  }

  /** From a new pool to a query sent whole behind the first `n` bytes of a one-way message. */
  function SpoilSteps(msg: Message, n: nat, q: Message, rest: seq<Step>): seq<Step> {
    HoldSteps() + (PolluteSteps(msg, n) + (ReuseSteps(q) + ([WriteOnce(0, Wrote(|Frame(q)|))] + rest)))
  }

  function Spoiled(msg: Message, n: nat, q: Message): State
    requires n <= |Frame(msg)|
  {
    State([Receiving(0, q, [])], 0, [], [Written(Frame(msg)[..n] + Frame(q))], false)
  }

  /** The part of that run up to the moment the connection is back in the pool. */
  function PooledSteps(msg: Message, n: nat): seq<Step> {
    HoldSteps() + (PolluteSteps(msg, n) + [SendIdle(0)])
  }

  lemma PooledRun(cfg: Config, msg: Message, n: nat)
    requires cfg.cap == 1 && Fits(msg) && !cfg.isQuery(msg) && 0 < n < |Frame(msg)|
    ensures Leads(cfg, NewPool(cfg), PooledSteps(msg, n), State([Idle], 0, [0], [Written(Frame(msg)[..n])], false))
  {
    var s' := State([Idle], 0, [0], [Written(Frame(msg)[..n])], false);
    assert Leads(cfg, s', [], s');
    First(cfg, State([PutIdle(0, ToCaller)], 0, [], [Written(Frame(msg)[..n])], false), SendIdle(0), s', [], s');
    assert [SendIdle(0)] + [] == [SendIdle(0)];
    PolluteRun(cfg, msg, n, [SendIdle(0)], s');
    HoldRun(cfg, PolluteSteps(msg, n) + [SendIdle(0)], s');
  }

  /** In every pool of size one, whatever the message, the place of the cut and the query: the run from a new
      pool leads to a query that waits for its reply behind part of another frame. On the way the pool has been
      in a state where everybody is idle and its one connection is in the queue, up but not settled. */
  lemma SpoilRun(cfg: Config, msg: Message, n: nat, q: Message, rest: seq<Step>, s': State)
    requires cfg.cap == 1 && Fits(msg) && Fits(q) && !cfg.isQuery(msg) && cfg.isQuery(q) && 0 < n < |Frame(msg)|
    requires Leads(cfg, Spoiled(msg, n, q), rest, s')
    ensures Leads(cfg, NewPool(cfg), SpoilSteps(msg, n, q, rest), s')
    ensures PooledSteps(msg, n) <= SpoilSteps(msg, n, q, rest)
    ensures var k := Written(Frame(msg)[..n]);
            && Leads(cfg, NewPool(cfg), PooledSteps(msg, n), State([Idle], 0, [0], [k], false))
            && k.up && !Settled(cfg, k)
  {
    var out := Frame(msg)[..n];
    var write := [WriteOnce(0, Wrote(|Frame(q)|))];
    QueryRun(cfg, out, q, rest, s');
    ReuseRun(cfg, Written(out), q, write + rest, s');
    PolluteRun(cfg, msg, n, ReuseSteps(q) + (write + rest), s');
    HoldRun(cfg, PolluteSteps(msg, n) + (ReuseSteps(q) + (write + rest)), s');
    PooledRun(cfg, msg, n);
    PartOfFrame(msg, n);
    assert SpoilSteps(msg, n, q, rest)
           == PooledSteps(msg, n) + ([GetTest(0), TakeIdle(0), Begin(0, q)] + (write + rest));
  }

  /** An empty one-way message cut after one byte: the gateway does not find the query in the stream, so its
      reply can never come. */
  lemma SpoiledConnection()
    ensures var cfg := SmallPool();
            var s := Spoiled([], 1, [1]);
            && Leads(cfg, NewPool(cfg), SpoilSteps([], 1, [1], []), s)
            && Queries(cfg, s.conns[0].out) == []
  {
    var cfg := SmallPool();
    SmallFrame([]);
    SmallFrame([1]);
    assert Leads(cfg, Spoiled([], 1, [1]), [], Spoiled([], 1, [1]));
    SpoilRun(cfg, [], 1, [1], [], Spoiled([], 1, [1]));
    FrameFront([], [1, 1]);
    assert Frame([])[..1] + Frame([1]) == Frame([]) + [1, 1];
    assert Decode([1, 1]) == Decoded([], [1, 1]);
    var none: seq<Message> := [[]];
    assert Decode(Frame([]) + [1, 1]).frames == none && none[..0] == [];
  }

  // ---------------------------------------------------------------- a wrong answer

  /** A pool of one connection to a gateway that answers the queries [0] and [1] with themselves. */
  function EchoPool(): Config {
    Config(1, false, [], m => m == [0] || m == [1], (q, r) => q == r)
  }

  function AnswerSteps(): seq<Step> {
    [Reply(0, [0]), ReadOnce(0, Arrived(4)), ReadOnce(0, Arrived(1))]
  }

  /** The gateway finds the query [0] in the stream, not [1]. */
  lemma EchoQueries()
    ensures Queries(EchoPool(), Frame([7])[..4] + Frame([1])) == [[0]]
  {
    SmallFrame([7]);
    SmallFrame([1]);
    SmallFrame([0]);
    var rest: seq<byte> := [0, 0, 1, 1];
    FrameFront([0], rest);
    assert Frame([7])[..4] + Frame([1]) == Frame([0]) + rest;
    HeaderOf257();
    assert Decode(rest) == Decoded([], rest);
    SelectOne(EchoPool().isQuery, [0]);
  }

  lemma HeaderOf257()
    ensures !StartsWhole([0, 0, 1, 1])
  {
    var b: seq<byte> := [0, 0, 1, 1];
    assert b[..4] == b;
    assert b[..3] == [0, 0, 1] && b[..3][..2] == [0, 0] && b[..3][..2][..1] == [0];
    assert FromBigEndian([0]) == 0;
    assert FromBigEndian([0, 0]) == 0;
    assert FromBigEndian([0, 0, 1]) == 1;
    assert FromBigEndian(b) == 257;
  }

  /** Without the hypothesis of a clean run the headline fails: the one-way message [7], cut after the four
      bytes of its header, turns the header of the next query into the body of another one. The caller that
      asked [1] is about to unmarshal the answer to [0]. */
  lemma WrongAnswer()
    ensures Sane(EchoPool())
    ensures var steps := SpoilSteps([7], 4, [1], AnswerSteps());
            && Legal(EchoPool(), NewPool(EchoPool()), steps)
            && (var s := Run(EchoPool(), NewPool(EchoPool()), steps);
                0 < |s.threads| && s.threads[0] == Answered(0, [1], [0]))
            && !EchoPool().answers([1], [0])
            && !CleanRun(EchoPool(), NewPool(EchoPool()), steps)
  {
    var cfg := EchoPool();
    var s' := AnswerRun();
    SmallFrame([7]);
    SpoilRun(cfg, [7], 4, [1], AnswerSteps(), s');
    var steps := SpoilSteps([7], 4, [1], AnswerSteps());
    if CleanRun(cfg, NewPool(cfg), steps) {
      RepliesAnswerTheirQueries(cfg, steps, 0);
    }
  }

  lemma ReadWhole(cfg: Config, s: State, t: nat, body: Message) returns (s': State)
    requires Fits(body) && body != [] && InRange(s, t) && s.threads[t].Receiving? && s.threads[t].got == []
    requires var k := s.conns[s.threads[t].c]; k.up && Unread(k) == Frame(body)
    ensures Leads(cfg, s, [ReadOnce(t, Arrived(4))] + ([ReadOnce(t, Arrived(|body|))] + []), s')
    ensures t < |s'.threads| && s'.threads[t] == Answered(s.threads[t].c, s.threads[t].msg, body)
  {
    ReadHeader(cfg, s, t, body);
    var s1 := Do(cfg, s, ReadOnce(t, Arrived(4)));
    NewReplyBody(s.conns[s.threads[t].c], body);
    ReadBody(cfg, s1, t, body);
    s' := Do(cfg, s1, ReadOnce(t, Arrived(|body|)));
    assert Leads(cfg, s', [], s');
    TwoSteps(cfg, s, ReadOnce(t, Arrived(4)), s1, ReadOnce(t, Arrived(|body|)), s', [], s');
  }

  lemma AnswerRun() returns (s': State)
    ensures Leads(EchoPool(), Spoiled([7], 4, [1]), AnswerSteps(), s')
    ensures 0 < |s'.threads| && s'.threads[0] == Answered(0, [1], [0])
  {
    var cfg, s := EchoPool(), Spoiled([7], 4, [1]);
    EchoQueries();
    var s1 := Do(cfg, s, Reply(0, [0]));
    NewReply(s.conns[0], [0]);
    s' := ReadWhole(cfg, s1, 0, [0]);
    var rest := [ReadOnce(0, Arrived(4))] + ([ReadOnce(0, Arrived(1))] + []);
    First(cfg, s, Reply(0, [0]), s1, rest, s');
    assert AnswerSteps() == [Reply(0, [0])] + rest;
  }
}
