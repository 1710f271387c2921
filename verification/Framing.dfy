/**
  The byte-level frame format both ends share: a 4-byte big-endian length followed by
  that many body bytes.

  `Split` is the whole-stream meaning of a byte stream.  It is pinned down by two lemmas
  that do not mention its recursion: whatever it returns reassembles to the stream
  (`SplitSound`), and no other way of cutting the stream exists (`SplitUnique`).
*/
module Framing {
  type Byte = x: int | 0 <= x < 256

  const MAX_BODY_LEN: nat := 16 * 1024 * 1024
  const UINT32: nat := 0x1_0000_0000

  // ---------------------------------------------------------------- length prefix

  function Be32(b: seq<Byte>): nat
    requires |b| >= 4
  {
    ((b[0] as int * 256 + b[1]) * 256 + b[2]) * 256 + b[3]
  }

  /** The prefix written for a body of `n` bytes; `n` is first cast to 32 bits. */
  function Header(n: nat): (h: seq<Byte>)
    ensures |h| == 4 && Be32(h) == n % UINT32
  {
    var m := n % UINT32;
    var q1 := m / 256;
    var q2 := q1 / 256;
    [q2 / 256, q2 % 256, q1 % 256, m % 256]
  }

  function Frame(body: seq<Byte>): (f: seq<Byte>)
    ensures |f| == 4 + |body|
  {
    Header(|body|) + body
  }

  function Encode(bodies: seq<seq<Byte>>): seq<Byte> {
    if bodies == [] then [] else Frame(bodies[0]) + Encode(bodies[1..])
  }

  predicate LegalBody(b: seq<Byte>) {
    1 <= |b| <= MAX_BODY_LEN
  }

  ghost predicate AllLegal(bodies: seq<seq<Byte>>) {
    forall i :: 0 <= i < |bodies| ==> LegalBody(bodies[i])
  }

  /** An unfinished frame: more bytes may complete it. */
  predicate Unfinished(rest: seq<Byte>) {
    |rest| < 4 || (1 <= Be32(rest) <= MAX_BODY_LEN && |rest| < 4 + Be32(rest))
  }

  /** A length field no receiver accepts. */
  predicate Poisoned(rest: seq<Byte>) {
    |rest| >= 4 && (Be32(rest) == 0 || Be32(rest) > MAX_BODY_LEN)
  }

  // ---------------------------------------------------------------- cutting a stream

  datatype Cut = Cut(bodies: seq<seq<Byte>>, rest: seq<Byte>, bad: bool)

  function Split(s: seq<Byte>): Cut {
    if Unfinished(s) then Cut([], s, false)
    else if Poisoned(s) then Cut([], s, true)
    else
      var n := 4 + Be32(s);
      var c := Split(s[n..]);
      Cut([s[4..n]] + c.bodies, c.rest, c.bad)
  }

  lemma FrameOf(s: seq<Byte>)
    requires !Unfinished(s) && !Poisoned(s)
    ensures LegalBody(s[4..4 + Be32(s)])
    ensures Frame(s[4..4 + Be32(s)]) == s[..4 + Be32(s)]
  {
    var n := Be32(s);
    var h := Header(n);
    assert Be32(h) == n;
    assert h[0] == s[0] && h[1] == s[1] && h[2] == s[2] && h[3] == s[3];
    assert s[..4 + n] == s[..4] + s[4..4 + n];
    assert h == s[..4];
  }

  lemma Assoc(a: seq<Byte>, b: seq<Byte>, c: seq<Byte>)
    ensures (a + b) + c == a + (b + c)
  {
  }

  lemma EncodeCons(b: seq<Byte>, bodies: seq<seq<Byte>>)
    ensures Encode([b] + bodies) == Frame(b) + Encode(bodies)
  {
    assert ([b] + bodies)[1..] == bodies;
  }

  lemma SplitOne(s: seq<Byte>)
    requires !Unfinished(s) && !Poisoned(s)
    ensures var n, c := 4 + Be32(s), Split(s[4 + Be32(s)..]); Split(s) == Cut([s[4..n]] + c.bodies, c.rest, c.bad)
  {
  }

  lemma SoundCons(b: seq<Byte>, bodies: seq<seq<Byte>>, rest: seq<Byte>)
    ensures Encode([b] + bodies) + rest == Frame(b) + (Encode(bodies) + rest)
  {
    hide Encode, Frame;
    EncodeCons(b, bodies);
    Assoc(Frame(b), Encode(bodies), rest);
  }

  lemma HeadTail(s: seq<Byte>, n: nat)
    requires n <= |s|
    ensures s[..n] + s[n..] == s
  {
  }

  lemma SoundStep(s: seq<Byte>, bodies: seq<seq<Byte>>, rest: seq<Byte>)
    requires !Unfinished(s) && !Poisoned(s) && s[4 + Be32(s)..] == Encode(bodies) + rest
    ensures s == Encode([s[4..4 + Be32(s)]] + bodies) + rest
  {
    FrameOf(s);
    hide Be32, Encode, Frame, Unfinished, Poisoned;
    SoundCons(s[4..4 + Be32(s)], bodies, rest);
    HeadTail(s, 4 + Be32(s));
  }

  lemma LegalCons(b: seq<Byte>, bodies: seq<seq<Byte>>)
    requires LegalBody(b) && AllLegal(bodies)
    ensures AllLegal([b] + bodies)
  {
    hide LegalBody;
  }

  lemma {:induction false} SplitSound(s: seq<Byte>)
    ensures var c := Split(s);
      && s == Encode(c.bodies) + c.rest
      && AllLegal(c.bodies)
      && (if c.bad then Poisoned(c.rest) else Unfinished(c.rest))
    decreases |s|
  {
    hide Be32, Header, Frame;
    if Unfinished(s) || Poisoned(s) {
      assert [] + s == s;
    } else {
      var tail := s[4 + Be32(s)..];
      var c := Split(tail);
      SplitSound(tail);
      SplitOne(s);
      FrameOf(s);
      SoundStep(s, c.bodies, c.rest);
      hide Split, Encode, AllLegal, Unfinished, Poisoned, LegalBody;
      LegalCons(s[4..4 + Be32(s)], c.bodies);
    }
  }

  lemma Reassembles(s: seq<Byte>)
    ensures Encode(Split(s).bodies) + Split(s).rest == s
  {
    SplitSound(s);
  }

  /** The length field is read from the first four bytes only. */
  lemma PrefixDecides(s: seq<Byte>, t: seq<Byte>)
    requires |s| >= 4
    ensures Be32(s + t) == Be32(s)
  {
    assert (s + t)[0] == s[0] && (s + t)[1] == s[1] && (s + t)[2] == s[2] && (s + t)[3] == s[3];
  }

  lemma FrameHead(body: seq<Byte>, tail: seq<Byte>)
    requires LegalBody(body)
    ensures var s := Frame(body) + tail;
      && |s| >= 4 && Be32(s) == |body| && |s| >= 4 + |body|
      && s[4..4 + |body|] == body && s[4 + |body|..] == tail
  {
    Assoc(Header(|body|), body, tail);
    PrefixDecides(Header(|body|), body + tail);
  }

  lemma LegalAppend(a: seq<seq<Byte>>, b: seq<seq<Byte>>)
    ensures AllLegal(a + b) <==> AllLegal(a) && AllLegal(b)
  {
    assert forall i :: 0 <= i < |a| ==> (a + b)[i] == a[i];
    assert forall i :: 0 <= i < |b| ==> (a + b)[|a| + i] == b[i];
  }

  lemma {:induction false} SplitUnique(bodies: seq<seq<Byte>>, rest: seq<Byte>)
    requires AllLegal(bodies)
    requires Unfinished(rest) || Poisoned(rest)
    ensures Split(Encode(bodies) + rest) == Cut(bodies, rest, Poisoned(rest))
    decreases |bodies|
  {
    hide Be32, Header, Frame;
    if bodies == [] {
      assert [] + rest == rest;
    } else {
      var b, bs := bodies[0], bodies[1..];
      var tail := Encode(bs) + rest;
      assert bodies == [b] + bs;
      LegalAppend([b], bs);
      assert LegalBody([b][0]);
      Assoc(Frame(b), Encode(bs), rest);
      FrameHead(b, tail);
      SplitUnique(bs, rest);
    }
  }

  lemma {:induction false} EncodeAppend(a: seq<seq<Byte>>, b: seq<seq<Byte>>)
    ensures Encode(a + b) == Encode(a) + Encode(b)
    decreases |a|
  {
    if a == [] {
      assert a + b == b;
    } else {
      assert (a + b)[1..] == a[1..] + b;
      EncodeAppend(a[1..], b);
    }
  }

  lemma EncodeOne(body: seq<Byte>)
    ensures Encode([body]) == Frame(body)
  {
    assert Encode([body]) == Frame(body) + Encode([][..]);
  }

  /** Cutting `s + t` is cutting `s`, then cutting what was left over followed by `t`. */
  lemma SplitAppend(s: seq<Byte>, t: seq<Byte>)
    ensures var c := Split(s); var d := Split(c.rest + t);
      Split(s + t) == Cut(c.bodies + d.bodies, d.rest, d.bad)
  {
    var c := Split(s);
    var d := Split(c.rest + t);
    SplitSound(s);
    SplitSound(c.rest + t);
    EncodeAppend(c.bodies, d.bodies);
    Assoc(Encode(c.bodies), c.rest, t);
    Assoc(Encode(c.bodies), Encode(d.bodies), d.rest);
    LegalAppend(c.bodies, d.bodies);
    SplitUnique(c.bodies + d.bodies, d.rest);
  }

  /** Once a length field is unacceptable, nothing that follows changes the cut. */
  lemma BadStaysBad(s: seq<Byte>, t: seq<Byte>)
    requires Split(s).bad
    ensures Split(s + t) == Cut(Split(s).bodies, Split(s).rest + t, true)
  {
    SplitSound(s);
    SplitAppend(s, t);
    PrefixDecides(Split(s).rest, t);
  }

  /** A receiver that cuts the frame of `body` gets `body` back exactly when its size is
      between 1 byte and 16 MiB.  The client's sender does not enforce that limit. */
  lemma FrameRoundTrip(body: seq<Byte>)
    ensures Split(Frame(body)) == Cut([body], [], false) <==> LegalBody(body)
  {
    if LegalBody(body) {
      EncodeOne(body);
      SplitUnique([body], []);
      assert Encode([body]) + [] == Frame(body);
    } else {
      SplitSound(Frame(body));
    }
  }

  lemma SplitNothing()
    ensures Split([]) == Cut([], [], false)
  {
  }

  /** No frame hides in what a cut leaves over, and the leftover is short. */
  lemma RestIsShort(s: seq<Byte>)
    ensures var c := Split(s); !c.bad ==> |c.rest| <= MAX_BODY_LEN + 3 && Split(c.rest) == Cut([], c.rest, false)
  {
    SplitSound(s);
  }
}
