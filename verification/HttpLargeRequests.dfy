/** Whole requests with a streamed body: the head may share a read with the
    first bytes of the body, and the reads may fall anywhere. */
module HttpLargeRequests {
  import opened HttpTables
  import opened HttpStream
  import opened HttpParser
  import opened HttpReference
  import opened HttpRefinement
  import opened HttpCalls
  import opened HttpGrammar
  import opened HttpLimits
  import opened HttpAccepts
  import opened HttpSession
  import opened HttpChunks
  import opened HttpLargeBody

  // The machine and the code agree inside the head, with nothing outstanding.
  ghost predicate HeadRel(p: Parser, s: Stream, r: Ref) {
    Rel(p, s, r) && InHead(r) && r.p == p && Sound(r)
  }

  /** The rest of a head that announces a streamed body. */
  ghost predicate HeadRest(r: Ref, bytes: seq<byte>, q: Ref, out: seq<Piece>) {
    Reads(r, bytes, q, out) && q.Ref? && q.p.state == HN && q.p.meta == STR && RequestEnd !in out && NoLong(out)
  }

  lemma HeadStepRel(p: Parser, s: Stream, r: Ref)
    requires HeadRel(p, s, r) && s.Wf() && s.index < s.length && !RefStep(r, s.buf[s.index]).0.Beyond?
    ensures Matches(p, s, Step(p, s), 1, RefStep(r, s.buf[s.index]).0, RefStep(r, s.buf[s.index]).1)
  {
    hide Coupled, Counted, Tokened, Label, Enter, EnterStream, RefStep, ControlByte, Raw, NextState, Step, Rel, Leads;
    var c := s.buf[s.index];
    var s0 := s.(consumed := false);
    var to := NextState(p.state, p.meta, c);
    HeadFacts(p, s, r);
    HeadEdges(p, c);
    assert Rel(p, s0, r) && Carries(s0, r) by { FlagRel(p, s, r); }
    RefStepIs(r, c);
    StepLabel(p, s, to);
    if to == BR {
      ErrorRel(p, s, r);
    } else {
      ControlRel(p, s0, r, to);
    }
  }

  lemma HeadFacts(p: Parser, s: Stream, r: Ref)
    requires HeadRel(p, s, r)
    ensures Inv(p, s) && Pending(p) == [] && Carries(s, r) && p.meta != END && p.meta != SEN && HeadState(p.state)
  {
  }

  lemma HeadEdges(p: Parser, c: byte)
    requires HeadState(p.state)
    ensures var to := NextState(p.state, p.meta, c); HeadState(to) || to == HN || to == BR
  {
  }

  /** Coming to a streamed body is signalled. */
  lemma SignalOut(r: Ref, c: byte)
    requires Sound(r) && InHead(r) && RefStep(r, c).0.Ref? && RefStep(r, c).0.p.state == HN && RefStep(r, c).0.p.meta == STR
    ensures RefStep(r, c).1 != []
  {
    hide RefStep, NextState, ControlByte, Sound, Ready;
    var to := NextState(r.p.state, r.p.meta, c);
    HeadEdges(r.p, c);
    RefStepIs(r, c);
    ControlSignal(r, c, to);
  }

  lemma ControlSignal(r: Ref, c: byte, to: State)
    requires r.Ref? && r.p.meta != ERR && Ready(Enter(r.p, to)) && (HeadState(to) || to == HN) && HeadState(r.p.state)
    ensures var (r1, out) := ControlByte(r, c, to); r1.Ref? && r1.p.state == HN && r1.p.meta == STR ==> out != []
  {
    hide Act, Enter, Ready, InRange;
  }

  // The code after a step in the head: in step again, or at the streamed body.
  lemma HeadNext(p: Parser, s: Stream, r: Ref, res: Result, n: int, r1: Ref, o1: seq<Piece>)
    requires HeadRel(p, s, r) && Matches(p, s, res, n, r1, o1) && r1.Ref? && Sound(r1) && RequestEnd !in o1
    requires InHead(r1) || (r1.p.state == HN && r1.p.meta == STR)
    ensures res.Ok? && res.token.typ != TError && res.parser == r1.p && Pending(res.parser) == []
    ensures o1 == Handed(res.token, res.stream)
    ensures Inv(res.parser, res.stream) && res.stream.index == s.index + n && res.stream.length == s.length
    ensures res.stream.buf == s.buf
    ensures InHead(r1) ==> HeadRel(res.parser, res.stream, r1)
    ensures !InHead(r1) ==> Streaming(res.parser, res.stream) && res.stream.index == r1.pos
  {
    HeadFacts(p, s, r);
    assert [] + o1 == o1;
    assert Handed(res.token, res.stream) + [] == Handed(res.token, res.stream);
  }

  lemma HeadSplit(r: Ref, bytes: seq<byte>, q: Ref, out: seq<Piece>)
    requires InHead(r) && bytes != [] && HeadRest(r, bytes, q, out)
    ensures Sound(r)
    ensures var (r1, o1) := RefStep(r, bytes[0]);
            && Sound(r1) && r1.Ref? && RequestEnd !in o1
            && (if |bytes| == 1 then r1 == q && o1 == out && o1 != []
                else |o1| <= |out| && out[..|o1|] == o1 && InHead(r1) && HeadRest(r1, bytes[1..], q, out[|o1|..]))
  {
    hide Sound, RefStep, NoLong;
    RefStepSound(r, bytes[0]);
    var (r1, o1) := RefStep(r, bytes[0]);
    var (r2, o2) := RefRun(r1, bytes[1..]);
    RefRunSound(r1, bytes[1..]);
    NoLongJoin(o1, o2);
    if |bytes| == 1 {
      assert o1 + [] == o1;
      SignalOut(r, bytes[0]);
    } else {
      assert (o1 + o2)[|o1|..] == o2 && (o1 + o2)[..|o1|] == o1;
      Sticky(r1, bytes[1..]);
      if !InHead(r1) {
        NoReturn(r1, bytes[1..]);
      }
    }
  }

  // What a call made in the head does with the rest of it.
  ghost predicate HeadCalled(p: Parser, s: Stream, bytes: seq<byte>, q: Ref, out: seq<Piece>, res: Result, n: int, r1: Ref) {
    && 0 < n <= |bytes| && res.Ok? && res.token.typ != TNone && res.token.typ != TError
    && var o1 := Handed(res.token, res.stream);
       && r1.Ref? && res.parser == r1.p && Inv(res.parser, res.stream)
       && res.stream.index == s.index + n && res.stream.length == s.length && res.stream.buf == s.buf
       && |o1| <= |out| && out[..|o1|] == o1
       && if n == |bytes| then r1 == q && o1 == out && Streaming(res.parser, res.stream) && res.stream.index == q.pos
          else HeadRel(res.parser, res.stream, r1) && HeadRest(r1, bytes[n..], q, out[|o1|..])
  }

  lemma UnreadTail(s: Stream, t: Stream, n: nat, bytes: seq<byte>)
    requires s.Wf() && t.Wf() && t.buf == s.buf && t.index == s.index + n && t.length == s.length
    requires n <= |bytes| <= |s.Unread()| && bytes == s.Unread()[..|bytes|]
    ensures t.Unread() == s.Unread()[n..]
    ensures bytes[n..] == t.Unread()[..|bytes| - n]
    ensures t.Unread()[|bytes| - n..] == s.Unread()[|bytes|..]
  {
  }

  lemma HeadLoop(p: Parser, s: Stream, r: Ref, bytes: seq<byte>, q: Ref, out: seq<Piece>) returns (n: nat, r1: Ref)
    requires HeadRel(p, s, r) && HeadRest(r, bytes, q, out) && bytes != [] && s.Wf()
    requires |bytes| <= |s.Unread()| && bytes == s.Unread()[..|bytes|]
    ensures Inv(p, s) && p.meta != SEN && p.meta != END && HeadCalled(p, s, bytes, q, out, Loop(p, s), n, r1)
    decreases |bytes|
  {
    hide Counted, Coupled, Tokened, RefStep, Step, Loop, Rel, Sound, Carries;
    HeadFacts(p, s, r);
    HeadSplit(r, bytes, q, out);
    var c := bytes[0];
    assert c == s.buf[s.index];
    HeadStepRel(p, s, r);
    n := 1;
    r1 := RefStep(r, c).0;
    var o1 := RefStep(r, c).1;
    var res := Step(p, s);
    HeadNext(p, s, r, res, 1, r1, o1);
    LoopUnroll(p, s);
    if res.token.typ == TNone {
      var k: nat;
      assert out[|o1|..] == out;
      UnreadTail(s, res.stream, 1, bytes);
      k, r1 := HeadLoop(res.parser, res.stream, r1, bytes[1..], q, out);
      n := k + 1;
      assert bytes[1..][k..] == bytes[n..];
    }
  }

  lemma HeadParse(p: Parser, s: Stream, r: Ref, bytes: seq<byte>, q: Ref, out: seq<Piece>) returns (n: nat, r1: Ref)
    requires HeadRel(p, s, r) && HeadRest(r, bytes, q, out) && bytes != [] && s.Wf()
    requires |bytes| <= |s.Unread()| && bytes == s.Unread()[..|bytes|]
    ensures Inv(p, s) && HeadCalled(p, s, bytes, q, out, Parse(p, s), n, r1)
  {
    hide Counted, Coupled, Tokened, Loop, HeadCalled;
    n, r1 := HeadLoop(p, s, r, bytes, q, out);
    LoopKeepsInv(p, s);
    CalledToken(p, s, bytes, q, out, Loop(p, s), n, r1);
  }

  lemma CalledToken(p: Parser, s: Stream, bytes: seq<byte>, q: Ref, out: seq<Piece>, res: Result, n: int, r1: Ref)
    requires HeadCalled(p, s, bytes, q, out, res, n, r1)
    ensures res.Ok? && res.token.typ != TNone
  {
  }

  /** The loop reads the rest of the head, hands out its tokens, and goes on with
      whatever of the body is in the buffer already. */
  lemma HeadDrain(p: Parser, s: Stream, r: Ref, bytes: seq<byte>, q: Ref, out: seq<Piece>) returns (t: Stream)
    requires HeadRel(p, s, r) && HeadRest(r, bytes, q, out) && bytes != [] && s.Wf()
    requires |bytes| <= |s.Unread()| && bytes == s.Unread()[..|bytes|]
    ensures Inv(p, s) && q.Ref? && Streaming(q.p, t) && t.Wf() && t.index == q.pos && t.Unread() == s.Unread()[|bytes|..]
    ensures Drain(p, s) == Trace(out + Drain(q.p, t).tokens, Drain(q.p, t).status)
    decreases |bytes|
  {
    hide Counted, Coupled, Tokened, Parse, Rank, Rel, Sound, Drain, HeadRel, HeadRest, Handed;
    var n, r1 := HeadParse(p, s, r, bytes, q, out);
    var res := Parse(p, s);
    var o1 := Handed(res.token, res.stream);
    DrainOnce(p, s);
    if n == |bytes| {
      t := res.stream;
      assert q.Ref?;
    } else {
      UnreadTail(s, res.stream, n, bytes);
      t := HeadDrain(res.parser, res.stream, r1, bytes[n..], q, out[|o1|..]);
      assert o1 + (out[|o1|..] + Drain(q.p, t).tokens) == out + Drain(q.p, t).tokens;
    }
  }

  // ---- any reads ----

  lemma HeadRestSplit(r: Ref, bytes: seq<byte>, q: Ref, out: seq<Piece>, n: nat)
    requires InHead(r) && HeadRest(r, bytes, q, out) && n < |bytes|
    ensures Sound(r)
    ensures var (r1, o1) := RefRun(r, bytes[..n]);
            && Sound(r1) && InHead(r1) && !Overlong(r1) && |o1| <= |out| && out[..|o1|] == o1
            && HeadRest(r1, bytes[n..], q, out[|o1|..])
  {
    hide Sound, RefStep, NoLong;
    var (r1, o1) := RefRun(r, bytes[..n]);
    RefRunSound(r, bytes[..n]);
    PrefixWithin(r, bytes, n);
    var o2 := RefRun(r1, bytes[n..]).1;
    assert (o1 + o2)[|o1|..] == o2 && (o1 + o2)[..|o1|] == o1;
    if !InHead(r1) {
      NoReturn(r1, bytes[n..]);
    }
    NoLongJoin(o1, o2);
    StartsQuietly(r1, bytes[n..], q, o2);
  }

  /** With no token beyond the limit in the rest of the head, none is in progress. */
  lemma StartsQuietly(r: Ref, bytes: seq<byte>, q: Ref, out: seq<Piece>)
    requires HeadRest(r, bytes, q, out)
    ensures !Overlong(r)
  {
    hide NoLong, RefRun;
    if Overlong(r) {
      LongRun(r, bytes);
    }
  }

  /** A loop that does not reach the end of the head. */
  lemma PartDrain(p: Parser, s: Stream, r: Ref)
    requires HeadRel(p, s, r) && s.Wf() && InHead(RefRun(r, s.Unread()).0) && !Overlong(RefRun(r, s.Unread()).0)
    ensures Inv(p, s)
    ensures var t := Drain(p, s); var (r1, o1) := RefRun(r, s.Unread());
            t.status.Live? && t.tokens == o1 && t.status.s.Wf() && t.status.s.Unread() == []
            && Sound(r1) && HeadRel(t.status.p, t.status.s, r1) && Inv(t.status.p, t.status.s)
  {
    hide Coupled, Counted, Tokened, RefRun, Drain, Calls, Sound, Rel, StandsAt, Overlong, Erred, CutAt;
    HeadFacts(p, s, r);
    var n := DrainIsCalls(p, s);
    IdleConcat(n);
    DrainKeepsInv(p, s);
    var bytes := s.Unread();
    assert bytes + [] == bytes;
    CallsRel(p, s, r, Idle(n));
    assert Ahead(s, Idle(n)) == |bytes|;
    DrainLength(p, s);
    var t := Drain(p, s);
    if t.status.Live? {
      PartLive(p, r, bytes, t.status.p, t.status.s, t.tokens);
    } else {
      PartStops(p, r, bytes, t.tokens);
    }
  }

  lemma PartLive(p: Parser, r: Ref, bytes: seq<byte>, p1: Parser, s1: Stream, tokens: seq<Piece>)
    requires Sound(r) && Pending(p) == [] && StandsAt(p, r, bytes, p1, s1, tokens)
    requires InHead(RefRun(r, bytes).0) && s1.Wf() && s1.Unread() == [] && p1.meta != END
    ensures tokens == RefRun(r, bytes).1 && HeadRel(p1, s1, RefRun(r, bytes).0)
  {
    hide Coupled, Counted, Tokened, RefRun, Sound, Rel;
    assert bytes[..|bytes|] == bytes;
    var (r1, o1) := RefRun(r, bytes);
    assert [] + o1 == o1;
    HeadAgain(p1, s1, r1);
    assert tokens + [] == tokens;
  }

  lemma PartStops(p: Parser, r: Ref, bytes: seq<byte>, tokens: seq<Piece>)
    requires Sound(r) && InHead(RefRun(r, bytes).0) && !Overlong(RefRun(r, bytes).0)
    ensures !Erred(p, r, bytes, tokens) && !CutShort(p, r, bytes, |bytes|, tokens)
  {
    hide RefRun, Overlong;
    assert bytes[..|bytes|] == bytes;
  }

  lemma HeadAgain(p: Parser, s: Stream, r: Ref)
    requires Rel(p, s, r) && InHead(r) && p.meta != END
    ensures HeadRel(p, s, r) && Pending(p) == [] && Sound(r)
  {
  }

  lemma AppendHead(p: Parser, s: Stream, r: Ref, bytes: seq<byte>)
    requires HeadRel(p, s, r) && CanRead(s, bytes)
    ensures HeadRel(p, Append(s, bytes), r)
  {
    hide Rel;
    AppendRel(p, s, r, bytes);
  }

  /** Going on without a read first. */
  lemma ResumeServed(p: Parser, s: Stream, rest: seq<seq<byte>>)
    requires Inv(p, s)
    ensures var d := Drain(p, s);
            && (d.status.Live? ==> Inv(d.status.p, d.status.s))
            && Served(p, s, [[]] + rest) ==
               if d.status.Live? then
                 Trace(d.tokens + Served(d.status.p, d.status.s, rest).tokens, Served(d.status.p, d.status.s, rest).status)
               else d
  {
    hide Coupled, Counted, Tokened, Drain, Append;
    AppendNothing(s);
    DrainKeepsInv(p, s);
    assert ([[]] + rest)[1..] == rest;
  }

  // The session after a head, from the streamed body on.
  ghost predicate Passes(bytes: seq<byte>, q: Ref, out: seq<Piece>, inputs: seq<seq<byte>>, all: Trace, t: Stream, more: seq<seq<byte>>)
    requires |bytes| <= |Concat(inputs)|
  {
    && q.Ref? && Streaming(q.p, t) && t.Wf() && t.index == q.pos && (more == [] ==> t.Unread() == [])
    && Concat(Received(t, more)) == Concat(inputs)[|bytes|..]
    && all == Trace(out + Served(q.p, t, more).tokens, Served(q.p, t, more).status)
  }

  lemma HeadCrossed(p: Parser, s: Stream, r: Ref, bytes: seq<byte>, q: Ref, out: seq<Piece>, inputs: seq<seq<byte>>)
    returns (t: Stream, more: seq<seq<byte>>)
    requires HeadRel(p, s, r) && HeadRest(r, bytes, q, out) && bytes != [] && s.Wf() && s.Unread() == []
    requires inputs != [] && |bytes| <= |inputs[0]| && inputs[0][..|bytes|] == bytes && |bytes| <= |Concat(inputs)|
    requires Inv(p, s) && CanRead(s, inputs[0])
    ensures Passes(bytes, q, out, inputs, Served(p, s, inputs), t, more)
  {
    hide Coupled, Counted, Tokened, RefRun, Drain, Sound, Rel, HeadRest, HeadRel, Append, Served, Received, Concat;
    var x, rest := inputs[0], inputs[1..];
    AppendKeepsInv(p, s, x);
    AppendHead(p, s, r, x);
    var s1 := Append(s, x);
    assert s1.Unread() == x;
    t := HeadDrain(p, s1, r, bytes, q, out);
    more := [[]] + rest;
    ServedAs(p, s, inputs, out, q.p, t);
    ReceivedFirst(t, rest);
    ConcatCut(inputs, |bytes|);
  }

  lemma ConcatCut(inputs: seq<seq<byte>>, n: nat)
    requires inputs != [] && n <= |inputs[0]|
    ensures Concat(inputs)[n..] == inputs[0][n..] + Concat(inputs[1..])
  {
  }

  lemma ReceivedFirst(t: Stream, rest: seq<seq<byte>>)
    requires t.Wf()
    ensures Concat(Received(t, [[]] + rest)) == t.Unread() + Concat(rest)
  {
    assert t.Unread() + [] == t.Unread();
    assert ([[]] + rest)[1..] == rest;
    ConcatHead(t.Unread(), rest);
  }

  lemma ServedAs(p: Parser, s: Stream, inputs: seq<seq<byte>>, out: seq<Piece>, q: Parser, t: Stream)
    requires Inv(p, s) && inputs != [] && CanRead(s, inputs[0]) && Inv(p, Append(s, inputs[0])) && Inv(q, t)
    requires Drain(p, Append(s, inputs[0])) == Trace(out + Drain(q, t).tokens, Drain(q, t).status)
    ensures var later := Served(q, t, [[]] + inputs[1..]);
            Served(p, s, inputs) == Trace(out + later.tokens, later.status)
  {
    hide Coupled, Counted, Tokened, Drain, Append;
    DrainKeepsInv(p, Append(s, inputs[0]));
    ResumeServed(q, t, inputs[1..]);
    var d := Drain(q, t);
    if d.status.Live? {
      var later := Served(d.status.p, d.status.s, inputs[1..]).tokens;
      assert (out + d.tokens) + later == out + (d.tokens + later);
    }
  }

  /** The reads of a head and whatever follows it: the head's tokens come out, and
      the session goes on from the streamed body with the bytes that are left. */
  lemma HeadServed(p: Parser, s: Stream, r: Ref, bytes: seq<byte>, q: Ref, out: seq<Piece>, inputs: seq<seq<byte>>)
    returns (t: Stream, more: seq<seq<byte>>)
    requires HeadRel(p, s, r) && HeadRest(r, bytes, q, out) && bytes != [] && s.Wf() && s.Unread() == []
    requires |bytes| <= |Concat(inputs)| && Concat(inputs)[..|bytes|] == bytes
    requires Inv(p, s) && Served(p, s, inputs).status != NotARead
    ensures Passes(bytes, q, out, inputs, Served(p, s, inputs), t, more)
    decreases |inputs|
  {
    hide Coupled, Counted, Tokened, RefRun, Drain, Sound, Rel, HeadRest, HeadRel, Append, Concat, Passes, Served, CanRead;
    assert inputs != [] by { NothingConcat(inputs); }
    var x, rest := inputs[0], inputs[1..];
    ConcatSplit(inputs, |bytes|);
    if |bytes| <= |x| {
      FirstRefused(p, s, inputs);
      t, more := HeadCrossed(p, s, r, bytes, q, out, inputs);
    } else {
      var p1, s1, r1, o1 := HeadPart(p, s, r, bytes, q, out, inputs);
      t, more := HeadServed(p1, s1, r1, bytes[|x|..], q, out[|o1|..], rest);
      PassesOn(bytes, q, out, inputs, o1, Served(p1, s1, rest), t, more);
    }
  }

  /** A read that lies within the head. */
  lemma HeadPart(p: Parser, s: Stream, r: Ref, bytes: seq<byte>, q: Ref, out: seq<Piece>, inputs: seq<seq<byte>>)
    returns (p1: Parser, s1: Stream, r1: Ref, o1: seq<Piece>)
    requires HeadRel(p, s, r) && HeadRest(r, bytes, q, out) && s.Wf() && s.Unread() == [] && Inv(p, s)
    requires inputs != [] && |inputs[0]| < |bytes| && bytes[..|inputs[0]|] == inputs[0] && Served(p, s, inputs).status != NotARead
    ensures HeadRel(p1, s1, r1) && Inv(p1, s1) && s1.Wf() && s1.Unread() == []
    ensures |o1| <= |out| && out[..|o1|] == o1 && HeadRest(r1, bytes[|inputs[0]|..], q, out[|o1|..])
    ensures Served(p, s, inputs) == Then(o1, Served(p1, s1, inputs[1..]))
  {
    hide Coupled, Counted, Tokened, RefRun, Drain, Sound, Rel, HeadRest, Append, Overlong;
    var x := inputs[0];
    AppendKeepsInv(p, s, x);
    AppendHead(p, s, r, x);
    var t := Append(s, x);
    assert [] + x == x && t.Unread() == x;
    HeadRestSplit(r, bytes, q, out, |x|);
    PartDrain(p, t, r);
    r1, o1 := RefRun(r, x).0, RefRun(r, x).1;
    var d := Drain(p, t);
    p1, s1 := d.status.p, d.status.s;
  }

  lemma PassesOn(bytes: seq<byte>, q: Ref, out: seq<Piece>, inputs: seq<seq<byte>>, o1: seq<Piece>, later: Trace,
                 t: Stream, more: seq<seq<byte>>)
    requires inputs != [] && |inputs[0]| < |bytes| <= |Concat(inputs)| && |o1| <= |out| && out[..|o1|] == o1
    requires |bytes| - |inputs[0]| <= |Concat(inputs[1..])|
    requires Concat(inputs[1..])[|bytes| - |inputs[0]|..] == Concat(inputs)[|bytes|..]
    requires Passes(bytes[|inputs[0]|..], q, out[|o1|..], inputs[1..], later, t, more)
    ensures Passes(bytes, q, out, inputs, Then(o1, later), t, more)
  {
    hide Concat, Served, Received, Streaming, Inv;
    assert Inv(q.p, t) by { StreamingInv(q.p, t); }
    var last := Served(q.p, t, more).tokens;
    assert o1 + (out[|o1|..] + last) == out + last;
  }

  lemma StreamingInv(p: Parser, s: Stream)
    requires Streaming(p, s)
    ensures Inv(p, s)
  {
  }

  lemma FirstRefused(p: Parser, s: Stream, inputs: seq<seq<byte>>)
    requires Inv(p, s) && inputs != [] && Served(p, s, inputs).status != NotARead
    ensures CanRead(s, inputs[0])
  {
  }

  lemma NothingConcat(inputs: seq<seq<byte>>)
    ensures inputs == [] ==> Concat(inputs) == []
  {
  }

  lemma ConcatSplit(inputs: seq<seq<byte>>, n: nat)
    requires inputs != [] && n <= |Concat(inputs)|
    ensures var x, bytes := inputs[0], Concat(inputs)[..n];
            if n <= |x| then bytes == x[..n]
            else
              && bytes[..|x|] == x && n - |x| <= |Concat(inputs[1..])| && bytes[|x|..] == Concat(inputs[1..])[..n - |x|]
              && Concat(inputs[1..])[n - |x|..] == Concat(inputs)[n..]
  {
  }

  // ---- whole requests ----

  /** A head, none of its texts beyond the limit, that announces a length that is
      not small. */
  predicate Large(h: Head, n: int) {
    && WellFormed(h) && Short(h) && |Print(h)| <= MAX_REQUEST_BUF_SIZE && Frame(h.headers, NoLength) == Length(n)
    && 0 <= n && !Small(n, |Print(h)|)
  }

  /** What ought to come out of it: the head, the signal, the body in pieces, one
      empty chunk, the end. */
  ghost predicate Whole(h: Head, body: seq<byte>, t: Trace) {
    exists pieces :: Parts(pieces) && TextsOf(pieces) == body && Finishes(HeadPieces(h, 0) + [StreamSignal] + pieces, t)
  }

  lemma FreshHead()
    ensures HeadRel(FreshParser, EmptyStream, Start) && EmptyStream.Wf() && EmptyStream.Unread() == []
  {
    FreshRel();
  }

  // The machine at the blank line of a large request.
  function LargeStart(h: Head, n: int): Ref {
    Between(Parser(n, 0, 0, |h.headers|, HN, STR), |Print(h)|)
  }

  lemma LargeHead(h: Head, n: int)
    requires Large(h, n)
    ensures HeadRest(Start, Print(h), LargeStart(h, n), HeadPieces(h, 0) + [StreamSignal])
    ensures Print(h) != [] && 0 <= n
  {
    hide Sound, WellFormed, Print, HeadPieces, RefRun, Short, NoLong;
    assert AfterHead(|h.headers|, Length(n), |Print(h)|) == (LargeStart(h, n), [StreamSignal]);
    HeadRun(h, 0);
    assert Start == Between(FreshParser, 0);
    NoEnd(h);
    ShortPieces(h, 0);
    SignalShort();
    NoLongJoin(HeadPieces(h, 0), [StreamSignal]);
  }

  lemma WholeJoin(h: Head, body: seq<byte>, later: Trace)
    ensures Complete(body, later) <==> Whole(h, body, Trace(HeadPieces(h, 0) + [StreamSignal] + later.tokens, later.status))
  {
    hide HeadPieces;
    var out := HeadPieces(h, 0) + [StreamSignal];
    forall pieces
      ensures Finishes(pieces, later) <==> Finishes(out + pieces, Trace(out + later.tokens, later.status))
    {
      var end := [EmptyChunk, RequestEnd];
      assert out + pieces + end == out + (pieces + end);
      assert (out + (pieces + end))[|out|..] == pieces + end && (out + later.tokens)[|out|..] == later.tokens;
    }
  }

  /** The session of a large request from its body on. */
  lemma LargeFrom(inputs: seq<seq<byte>>, h: Head, n: int, body: seq<byte>) returns (t: Stream, more: seq<seq<byte>>)
    requires Large(h, n) && Concat(inputs) == Print(h) + body && Serve(inputs).status != NotARead
    ensures var p := LargeStart(h, n).p;
            && Streaming(p, t) && t.Wf() && t.index == |Print(h)| && (more == [] ==> t.Unread() == [])
            && 0 <= n && Concat(Received(t, more)) == body
            && Serve(inputs) == Trace(HeadPieces(h, 0) + [StreamSignal] + Served(p, t, more).tokens, Served(p, t, more).status)
  {
    hide Sound, Rel, Served, Large, Print, HeadPieces, Received, Coupled, Counted, Tokened, HeadRest, HeadRel, Concat;
    LargeHead(h, n);
    FreshHead();
    FreshRel();
    assert (Print(h) + body)[..|Print(h)|] == Print(h) && (Print(h) + body)[|Print(h)|..] == body;
    t, more := HeadServed(FreshParser, EmptyStream, Start, Print(h), LargeStart(h, n), HeadPieces(h, 0) + [StreamSignal], inputs);
  }

  /** However it is cut into reads, a large request comes out whole exactly when
      head and body together are no longer than an int can count. */
  lemma LargeServed(inputs: seq<seq<byte>>, h: Head, body: seq<byte>)
    requires Large(h, |body|) && Concat(inputs) == Print(h) + body && Serve(inputs).status != NotARead
    ensures Whole(h, body, Serve(inputs)) <==> |Print(h)| + |body| <= INT_MAX
  {
    hide Served, Large, Print, HeadPieces, Complete, Whole, Received, Coupled, Counted, Tokened, Concat, Serve;
    var t, more := LargeFrom(inputs, h, |body|, body);
    var p := LargeStart(h, |body|).p;
    LaterRead(inputs, h, |body|, t, more);
    StreamedExactly(p, t, more);
    WholeJoin(h, body, Served(p, t, more));
  }

  lemma LaterRead(inputs: seq<seq<byte>>, h: Head, n: int, t: Stream, more: seq<seq<byte>>)
    requires Streaming(LargeStart(h, n).p, t) && Serve(inputs).status != NotARead
    requires Serve(inputs).status == Served(LargeStart(h, n).p, t, more).status
    ensures Served(LargeStart(h, n).p, t, more).status != NotARead
  {
  }

  /** A request whose length is a multiple of 2^32 is over before a byte of its body
      is looked at: an empty piece comes out, an empty chunk and the end. */
  lemma FourGigabytes(inputs: seq<seq<byte>>, h: Head, n: int, body: seq<byte>)
    requires Large(h, n) && n % 0x1_0000_0000 == 0 && body != []
    requires Concat(inputs) == Print(h) + body && Serve(inputs).status != NotARead
    ensures var head := HeadPieces(h, 0) + [StreamSignal]; var tokens := Serve(inputs).tokens;
            |tokens| >= |head| && tokens[..|head|] == head && EndsAtOnce(tokens[|head|..])
  {
    hide Served, Large, Print, HeadPieces, Received, Coupled, Counted, Tokened, Concat, Serve, Int32;
    var t, more := LargeFrom(inputs, h, n, body);
    var p := LargeStart(h, n).p;
    LaterRead(inputs, h, n, t, more);
    NoneOf(n);
    NothingLeft(p, t, more);
    var head, later := HeadPieces(h, 0) + [StreamSignal], Served(p, t, more).tokens;
    assert (head + later)[..|head|] == head && (head + later)[|head|..] == later;
  }

  lemma NoneOf(n: int)
    requires 0 <= n && n % 0x1_0000_0000 == 0
    ensures Int32(n) == 0
  {
    if n != 0 {
      assert (n + 0x8000_0000) % 0x1_0000_0000 == 0x8000_0000;
    }
  }
}
