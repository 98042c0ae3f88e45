/**
 The packet format shared by every connection: a 4-byte big-endian length followed by the body.
 `EncodeAll` is what a sender puts on the wire, `Decode` is what a reader of that wire can make of it.
 */
module Framing {
  import opened Collections


  type byte = x: int | 0 <= x < 256

  type Message = seq<byte>

  const U32_SIZE := 0x1_0000_0000

  // ---------------------------------------------------------------- big-endian integers

  /** The `w` lowest bytes of `n`, most significant first: what PutUint16 and PutUint32 write after
      the conversion to the narrower type has truncated `n`. */
  function BigEndian(n: nat, w: nat): (b: seq<byte>)
    ensures |b| == w
  {
    if w == 0 then [] else BigEndian(n / 256, w - 1) + [n % 256]
  }

  function FromBigEndian(b: seq<byte>): nat {
    if b == [] then 0 else FromBigEndian(b[..|b| - 1]) * 256 + b[|b| - 1] as nat
  }

  lemma {:induction false} BigEndianStep(n: nat, w: nat)
    requires w > 0
    ensures FromBigEndian(BigEndian(n, w)) == FromBigEndian(BigEndian(n / 256, w - 1)) * 256 + n % 256
  {
    var b := BigEndian(n, w);
    assert b[..|b| - 1] == BigEndian(n / 256, w - 1);
  }

  lemma {:induction false} U32RoundTrip(n: nat)
    ensures FromBigEndian(BigEndian(n, 4)) == n % U32_SIZE
  {
    var a := n / 256;
    var b := a / 256;
    var c := b / 256;
    BigEndianStep(n, 4);
    BigEndianStep(a, 3);
    BigEndianStep(b, 2);
    BigEndianStep(c, 1);
    assert FromBigEndian(BigEndian(c / 256, 0)) == 0;
    FourDigits(n, a, b, c);
  }

  lemma FourDigits(n: nat, a: nat, b: nat, c: nat)
    requires a == n / 256 && b == a / 256 && c == b / 256
    ensures (((c % 256) * 256 + b % 256) * 256 + a % 256) * 256 + n % 256 == n % U32_SIZE
  {
    var low := (((c % 256) * 256 + b % 256) * 256 + a % 256) * 256 + n % 256;
    var q := c / 256;
    assert n == q * U32_SIZE + low by {
      assert n == a * 256 + n % 256 && a == b * 256 + a % 256 && b == c * 256 + b % 256 && c == q * 256 + c % 256;
    }
    Remainder(n, q, low);
  }

  lemma Remainder(n: nat, q: nat, low: nat)
    requires n == q * U32_SIZE + low && low < U32_SIZE
    ensures n % U32_SIZE == low
  {
  }

  lemma {:induction false} FromBigEndianInverse(b: seq<byte>)
    ensures BigEndian(FromBigEndian(b), |b|) == b
    decreases |b|
  {
    if b != [] {
      FromBigEndianInverse(b[..|b| - 1]);
    }
  }

  lemma {:induction false} HeaderBound(b: seq<byte>)
    requires |b| == 4
    ensures FromBigEndian(b) < U32_SIZE
  {
    FromBigEndianInverse(b);
    U32RoundTrip(FromBigEndian(b));
  }

  // ---------------------------------------------------------------- writing

  function Frame(m: Message): (f: seq<byte>)
    ensures |f| == |m| + 4
  {
    BigEndian(|m|, 4) + m
  }

  /** The header, byte by byte: the length modulo 2^32, most significant byte first. */
  lemma HeaderBytes(m: Message)
    ensures Frame(m)[0] == |m| / 0x100_0000 % 256 && Frame(m)[1] == |m| / 0x1_0000 % 256
    ensures Frame(m)[2] == |m| / 0x100 % 256 && Frame(m)[3] == |m| % 256
    ensures Frame(m)[4..] == m
  {
    var n := |m|;
    assert n / 256 / 256 == n / 0x1_0000 && n / 256 / 256 / 256 == n / 0x100_0000;
    assert BigEndian(n, 4) == BigEndian(n / 256, 3) + [n % 256];
    assert BigEndian(n / 256, 3) == BigEndian(n / 256 / 256, 2) + [n / 256 % 256];
    assert BigEndian(n / 256 / 256, 2) == BigEndian(n / 256 / 256 / 256, 1) + [n / 256 / 256 % 256];
    assert BigEndian(n / 256 / 256 / 256, 1)
           == BigEndian(n / 256 / 256 / 256 / 256, 0) + [n / 256 / 256 / 256 % 256];
  }

  function EncodeAll(ms: seq<Message>): seq<byte> {
    if ms == [] then [] else Frame(ms[0]) + EncodeAll(ms[1..])
  }

  /** The length header is exact only below 2^32. */
  predicate Fits(m: Message) {
    |m| < U32_SIZE
  }

  predicate AllFit(ms: seq<Message>) {
    forall i :: 0 <= i < |ms| ==> Fits(ms[i])
  }

  // ---------------------------------------------------------------- reading

  /** Whole frames found at the front of a byte stream, and the bytes left over. */
  datatype Decoded = Decoded(frames: seq<Message>, rest: seq<byte>)

  /** How many bytes the frame that starts with `got` has, as far as its header is known. */
  function Need(got: seq<byte>): (n: nat)
    ensures n >= 4
  {
    if |got| < 4 then 4 else 4 + FromBigEndian(got[..4])
  }

  /** A reader takes the four bytes of the header for the same number. */
  lemma NeedBytes(got: seq<byte>)
    requires |got| >= 4
    ensures Need(got)
            == 4 + 0x100_0000 * (got[0] as nat) + 0x1_0000 * (got[1] as nat) + 0x100 * (got[2] as nat) + got[3] as nat
  {
    var h := got[..4];
    assert h[..3][..2][..1] == [got[0]] && h[..3][..2] == [got[0], got[1]] && h[..3] == [got[0], got[1], got[2]];
    assert FromBigEndian([got[0]]) == got[0] as nat;
    assert FromBigEndian([got[0], got[1]]) == 256 * (got[0] as nat) + got[1] as nat;
    assert FromBigEndian(h[..3]) == 256 * (256 * (got[0] as nat) + got[1] as nat) + got[2] as nat;
  }

  /** `got` starts with a whole frame. */
  predicate StartsWhole(got: seq<byte>) {
    |got| >= 4 && |got| >= Need(got)
  }

  function Decode(s: seq<byte>): (d: Decoded)
    decreases |s|
  {
    if !StartsWhole(s) then Decoded([], s)
    else
      var tail := Decode(s[Need(s)..]);
      Decoded([s[4..Need(s)]] + tail.frames, tail.rest)
  }

  lemma {:induction false} FrameFront(m: Message, s: seq<byte>)
    requires Fits(m)
    ensures StartsWhole(Frame(m) + s) && Need(Frame(m) + s) == |Frame(m)|
    ensures (Frame(m) + s)[4..|Frame(m)|] == m && (Frame(m) + s)[|Frame(m)|..] == s
    ensures Decode(Frame(m) + s) == Decoded([m] + Decode(s).frames, Decode(s).rest)
  {
    var f := Frame(m) + s;
    assert f[..4] == BigEndian(|m|, 4);
    U32RoundTrip(|m|);
    assert f[4..|Frame(m)|] == m;
    assert f[|Frame(m)|..] == s;
  }

  /** Reading the concatenated frames of any messages below 2^32 bytes gives back those messages. */
  lemma {:induction false} RoundTrip(ms: seq<Message>, tail: seq<byte>)
    requires AllFit(ms)
    ensures Decode(EncodeAll(ms) + tail) == Decoded(ms + Decode(tail).frames, Decode(tail).rest)
    decreases |ms|
  {
    if ms == [] {
      assert EncodeAll(ms) + tail == tail;
    } else {
      RoundTrip(ms[1..], tail);
      Regroup(Frame(ms[0]), EncodeAll(ms[1..]), tail);
      FrameFront(ms[0], EncodeAll(ms[1..]) + tail);
      Regroup([ms[0]], ms[1..], Decode(tail).frames);
      assert [ms[0]] + ms[1..] == ms;
    }
  }

  lemma FrontFrame(s: seq<byte>)
    requires StartsWhole(s)
    ensures Fits(s[4..Need(s)]) && Frame(s[4..Need(s)]) == s[..Need(s)]
  {
    FromBigEndianInverse(s[..4]);
    HeaderBound(s[..4]);
  }

  /** Decoding loses nothing: the frames found and the bytes left over are the stream. */
  lemma {:induction false} DecodeIsFaithful(s: seq<byte>)
    ensures AllFit(Decode(s).frames)
    ensures EncodeAll(Decode(s).frames) + Decode(s).rest == s
    ensures !StartsWhole(Decode(s).rest)
    decreases |s|
  {
    if StartsWhole(s) {
      var n := Need(s);
      var d := Decode(s[n..]);
      DecodeIsFaithful(s[n..]);
      FrontFrame(s);
      Regroup([s[4..n]], d.frames, []);
      Regroup(s[..n], EncodeAll(d.frames), d.rest);
      assert s == s[..n] + s[n..];
    } else {
      assert EncodeAll([]) + s == s;
    }
  }

  /** The first frame of a stream is found whatever comes after it. */
  lemma FirstFrameStays(s: seq<byte>, t: seq<byte>)
    requires StartsWhole(s)
    ensures StartsWhole(s + t) && Need(s + t) == Need(s) && (s + t)[Need(s)..] == s[Need(s)..] + t
    ensures (s + t)[4..Need(s)] == s[4..Need(s)]
  {
    assert (s + t)[..4] == s[..4];
  }

  /** A reader may stop anywhere and go on when more bytes come: what is found does not depend on
      how the stream is cut. */
  lemma {:induction false} DecodeAppend(s: seq<byte>, t: seq<byte>)
    ensures Decode(s + t) == Decoded(Decode(s).frames + Decode(Decode(s).rest + t).frames,
                                     Decode(Decode(s).rest + t).rest)
    decreases |s|
  {
    if StartsWhole(s) {
      var tail := s[Need(s)..];
      FirstFrameStays(s, t);
      DecodeAppend(tail, t);
      Regroup([s[4..Need(s)]], Decode(tail).frames, Decode(Decode(tail).rest + t).frames);
    } else {
      assert [] + Decode(s + t).frames == Decode(s + t).frames;
    }
  }

  /** The stream of any messages decodes to those messages with nothing left over. */
  lemma WholeStream(ms: seq<Message>)
    requires AllFit(ms)
    ensures Decode(EncodeAll(ms)) == Decoded(ms, [])
  {
    RoundTrip(ms, []);
    assert EncodeAll(ms) + [] == EncodeAll(ms);
    assert ms + [] == ms;
  }

  /** Any byte prefix of a stream of frames decodes to a prefix of the messages. */
  lemma PrefixOfStream(ms: seq<Message>, k: nat)
    requires AllFit(ms) && k <= |EncodeAll(ms)|
    ensures Decode(EncodeAll(ms)[..k]).frames <= ms
  {
    var s := EncodeAll(ms);
    WholeStream(ms);
    FramesOnlyGrow(s[..k], s[k..]);
    assert s[..k] + s[k..] == s;
  }

  lemma {:induction false} EncodeConcat(a: seq<Message>, b: seq<Message>)
    ensures EncodeAll(a + b) == EncodeAll(a) + EncodeAll(b)
    decreases |a|
  {
    if a == [] {
      assert a + b == b;
    } else {
      EncodeConcat(a[1..], b);
      assert (a + b)[1..] == a[1..] + b;
    }
  }

  lemma EncodeOne(m: Message)
    ensures EncodeAll([m]) == Frame(m)
  {
    assert EncodeAll([m]) == Frame(m) + EncodeAll([]);
  }

  /** A strict prefix of a frame is not a whole frame, and names the frame's length as soon as its
      header is complete. */
  lemma {:induction false} PartOfFrame(m: Message, k: nat)
    requires Fits(m) && k <= |Frame(m)|
    ensures StartsWhole(Frame(m)[..k]) <==> k == |Frame(m)|
    ensures Need(Frame(m)[..k]) == if k < 4 then 4 else |Frame(m)|
    ensures k < |Frame(m)| ==> Decode(Frame(m)[..k]) == Decoded([], Frame(m)[..k])
  {
    U32RoundTrip(|m|);
    if k >= 4 {
      assert Frame(m)[..k][..4] == BigEndian(|m|, 4);
    }
  }

  /** The single-frame round trip holds exactly below 2^32 bytes: above, the truncated header makes
      the reader cut a shorter frame. */
  lemma {:induction false} FrameExact(m: Message)
    ensures Decode(Frame(m)) == Decoded([m], []) <==> Fits(m)
  {
    if Fits(m) {
      FrameFront(m, []);
      assert Frame(m) + [] == Frame(m);
      assert [m] + [] == [m];
    } else {
      var f := Frame(m);
      assert f[..4] == BigEndian(|m|, 4);
      U32RoundTrip(|m|);
      assert Need(f) < |f|;
      assert |Decode(f).frames[0]| == Need(f) - 4 < |m|;
    }
  }

  // ------------------------------------------- a wire that grows by parts of a frame

  /** Writing more of a frame whose first `k` bytes are the unfinished tail of the wire. */
  lemma {:induction false} WireGrows(out: seq<byte>, m: Message, k: nat, n: nat)
    requires Fits(m) && k <= n <= |Frame(m)| && k < |Frame(m)|
    requires Decode(out).rest == Frame(m)[..k]
    ensures var out' := out + Frame(m)[k..n];
            if n < |Frame(m)| then Decode(out') == Decoded(Decode(out).frames, Frame(m)[..n])
            else Decode(out') == Decoded(Decode(out).frames + [m], [])
  {
    var out' := out + Frame(m)[k..n];
    DecodeAppend(out, Frame(m)[k..n]);
    assert Frame(m)[..k] + Frame(m)[k..n] == Frame(m)[..n];
    PartOfFrame(m, n);
    if n == |Frame(m)| {
      FrameExact(m);
      assert Frame(m)[..n] == Frame(m);
    } else {
      assert Decode(out).frames + [] == Decode(out).frames;
    }
  }

  /** Whatever is appended to a wire, the frames already on it stay. */
  lemma FramesOnlyGrow(out: seq<byte>, more: seq<byte>)
    ensures Decode(out).frames <= Decode(out + more).frames
  {
    DecodeAppend(out, more);
  }
}
