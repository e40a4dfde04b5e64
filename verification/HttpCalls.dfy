/** Whole sessions: http_parse called over and over while socket reads keep
    refilling the buffer, and what such a session hands out in the end. */
module HttpCalls {
  import opened HttpTables
  import opened HttpStream
  import opened HttpParser
  import opened HttpReference
  import opened HttpRefinement

  datatype Status =
    | Live(p: Parser, s: Stream)
    | Stopped                 // an error token came out
    | Gone(why: Reason)
    | NotARead                // a read before the buffer was used up, or without room

  datatype Trace = Trace(tokens: seq<Piece>, status: Status)

  predicate CanRead(s: Stream, bytes: seq<byte>) {
    bytes == [] || (s.index >= s.length && Fits(s, bytes))
  }

  ghost function Concat(cuts: seq<seq<byte>>): seq<byte> {
    if cuts == [] then [] else cuts[0] + Concat(cuts[1..])
  }

  /** A session: every element is one call of http_parse and the bytes, possibly
      none, that a socket read put into the buffer just before it. */
  ghost function Calls(p: Parser, s: Stream, cuts: seq<seq<byte>>): Trace
    requires Inv(p, s)
    decreases |cuts|
  {
    if cuts == [] then Trace([], Live(p, s))
    else if !CanRead(s, cuts[0]) then Trace([], NotARead)
    else
      AppendKeepsInv(p, s, cuts[0]);
      var s1 := Append(s, cuts[0]);
      ParseKeepsInv(p, s1);
      var res := Parse(p, s1);
      if res.Outside? then Trace([], Gone(res.why))
      else if res.token.typ == TError then Trace([ErrorPiece], Stopped)
      else
        var rest := Calls(res.parser, res.stream, cuts[1..]);
        Trace(Handed(res.token, res.stream) + rest.tokens, rest.status)
  }

  lemma AppendKeepsInv(p: Parser, s: Stream, bytes: seq<byte>)
    requires Inv(p, s) && CanRead(s, bytes)
    ensures Inv(p, Append(s, bytes))
    ensures Append(s, bytes).Unread() == s.Unread() + bytes
    ensures Append(s, bytes).buf[..s.length] == s.buf[..s.length]
  {
    hide Coupled, Counted;
  }

  lemma ParseKeepsInv(p: Parser, s: Stream)
    requires Inv(p, s)
    ensures var res := Parse(p, s); res.Ok? && res.token.typ != TError ==> Inv(res.parser, res.stream)
  {
    hide Counted, Loop, Shift;
    if p.meta != END && p.meta != SEN {
      LoopKeepsInv(p, s);
      var res := Loop(p, s);
      if res.Ok? && res.token.typ == TNone {
        TailKeepsInv(res.parser, res.stream);
      }
    } else {
      FreshInv(p, s);
    }
  }

  lemma FreshInv(p: Parser, s: Stream)
    requires Inv(p, s)
    ensures p.meta == END ==> Inv(FreshParser, s)
    ensures p.meta == SEN ==> Inv(p.(meta := END), s)
  {
    if p.meta == END {
      AtEnd(p);
    } else if p.meta == SEN {
      EndPending(p);
    }
  }

  lemma TailKeepsInv(p: Parser, s: Stream)
    requires Inv(p, s) && s.index == s.length
    ensures p.state == CB ==> Shiftable(s) && Inv(p, Shift(s))
    ensures p.meta == END ==> Inv(FreshParser, s)
    ensures p.meta == SEN ==> Inv(p.(meta := END), s)
    ensures p.state == CB ==> p.meta != SEN && p.meta != END
  {
    FreshInv(p, s);
    hide Counted;
    if p.state == CB {
      ChunkTokenAbove(p, s);
      ShiftKeepsText(s);
    }
  }

  lemma ChunkTokenAbove(p: Parser, s: Stream)
    requires Inv(p, s) && p.state == CB
    ensures s.token.typ == TChunkBody && s.anchor <= s.token.index && p.meta == CBD
  {
  }

  lemma AppendRel(p: Parser, s: Stream, r: Ref, bytes: seq<byte>)
    requires Rel(p, s, r) && CanRead(s, bytes) && (r.Done? ==> bytes == [])
    ensures Rel(p, Append(s, bytes), r)
  {
    AppendKeepsInv(p, s, bytes);
    hide Coupled, Counted, Tokened, Sound;
    if r.Ref? && r.typ != TNone && p.meta != END && Carries(s, r) {
      AppendText(s, bytes);
    }
  }

  lemma AppendText(s: Stream, bytes: seq<byte>)
    requires s.Wf() && s.token.typ != TNone
    ensures Append(s, bytes).buf[s.token.index..s.index] == s.buf[s.token.index..s.index]
  {
  }

  // ---- the main results ----

  /** The first error token of the bytes has come out. */
  ghost predicate Erred(p: Parser, r: Ref, bytes: seq<byte>, tokens: seq<Piece>)
    requires Sound(r)
  {
    var (r1, out) := RefRun(r, bytes);
    r1.Failed? && tokens == Pending(p) + out
  }

  /** The first n bytes end in a token beyond the limit, and a read ended there. */
  ghost predicate CutAt(p: Parser, r: Ref, bytes: seq<byte>, n: nat, tokens: seq<Piece>)
    requires Sound(r)
  {
    n <= |bytes| &&
    var (r1, out) := RefRun(r, bytes[..n]);
    Overlong(r1) && tokens == Pending(p) + out + [ErrorPiece]
  }

  ghost predicate CutShort(p: Parser, r: Ref, bytes: seq<byte>, low: nat, tokens: seq<Piece>)
    requires Sound(r)
  {
    exists n :: low <= n && CutAt(p, r, bytes, n, tokens)
  }

  ghost predicate StandsAt(p: Parser, r: Ref, bytes: seq<byte>, p1: Parser, s1: Stream, tokens: seq<Piece>)
    requires Sound(r)
  {
    && Inv(p1, s1) && |s1.Unread()| <= |bytes|
    && var n := |bytes| - |s1.Unread()|;
       && s1.Unread() == bytes[n..]
       && var (r1, out) := RefRun(r, bytes[..n]);
          Rel(p1, s1, r1) && Pending(p) + out == tokens + Pending(p1)
  }

  /** What a session has handed out, against the bytes it has read, the first low
      of them at once. */
  ghost predicate SessionMatches(p: Parser, r: Ref, bytes: seq<byte>, low: nat, t: Trace)
    requires Sound(r)
  {
    match t.status
    case Live(p1, s1) => StandsAt(p, r, bytes, p1, s1, t.tokens)
    case Stopped => Erred(p, r, bytes, t.tokens) || CutShort(p, r, bytes, low, t.tokens)
    case _ => false
  }

  lemma Regroup<T>(a: seq<T>, b: seq<T>, c: seq<T>, d: seq<T>, e: seq<T>)
    requires a + b == c + d
    ensures a + (b + e) == c + (d + e)
  {
    assert a + (b + e) == (a + b) + e;
    assert c + (d + e) == (c + d) + e;
  }

  // One call, and what is known after it.
  ghost predicate AfterCall(p: Parser, r: Ref, bytes: seq<byte>, n: nat, handed: seq<Piece>, p1: Parser)
    requires Sound(r)
  {
    && n <= |bytes| && Sound(RefRun(r, bytes[..n]).0) && !RefRun(r, bytes).0.Beyond?
    && Pending(p) + RefRun(r, bytes[..n]).1 == handed + Pending(p1)
  }

  /** The tokens of a call and of what follows it are those of the bytes of both. */
  lemma CallThen(p: Parser, r: Ref, bytes: seq<byte>, n: nat, handed: seq<Piece>, p1: Parser, k: nat)
    requires Sound(r) && AfterCall(p, r, bytes, n, handed, p1) && k <= |bytes| - n
    ensures var r1 := RefRun(r, bytes[..n]).0;
            var (r2, out2) := RefRun(r1, bytes[n..][..k]);
            && RefRun(r, bytes[..n + k]).0 == r2
            && Pending(p) + RefRun(r, bytes[..n + k]).1 == handed + (Pending(p1) + out2)
  {
    hide Sound, Pending, RefRun;
    var (r1, out1) := RefRun(r, bytes[..n]);
    assert bytes[..n + k] == bytes[..n] + bytes[n..][..k];
    RunSplit(r, bytes[..n], bytes[n..][..k]);
    Regroup(Pending(p), out1, handed, Pending(p1), RefRun(r1, bytes[n..][..k]).1);
  }

  lemma JoinLive(p: Parser, r: Ref, bytes: seq<byte>, n: nat, handed: seq<Piece>, p1: Parser, p2: Parser, s2: Stream, tokens: seq<Piece>)
    requires Sound(r) && AfterCall(p, r, bytes, n, handed, p1)
    requires StandsAt(p1, RefRun(r, bytes[..n]).0, bytes[n..], p2, s2, tokens)
    ensures StandsAt(p, r, bytes, p2, s2, handed + tokens)
  {
    hide Sound, Rel, Pending, RefRun, Coupled, Counted, Tokened;
    var k := |bytes| - n - |s2.Unread()|;
    assert bytes[n..][k..] == bytes[n + k..];
    CallThen(p, r, bytes, n, handed, p1, k);
    assert handed + (tokens + Pending(p2)) == (handed + tokens) + Pending(p2);
  }

  lemma JoinErred(p: Parser, r: Ref, bytes: seq<byte>, n: nat, handed: seq<Piece>, p1: Parser, tokens: seq<Piece>)
    requires Sound(r) && AfterCall(p, r, bytes, n, handed, p1)
    requires Erred(p1, RefRun(r, bytes[..n]).0, bytes[n..], tokens)
    ensures Erred(p, r, bytes, handed + tokens)
  {
    hide Sound, Pending, RefRun;
    CallThen(p, r, bytes, n, handed, p1, |bytes| - n);
    assert bytes[n..][..|bytes| - n] == bytes[n..] && bytes[..n + (|bytes| - n)] == bytes;
  }

  lemma JoinCut(p: Parser, r: Ref, bytes: seq<byte>, n: nat, handed: seq<Piece>, p1: Parser, k: nat, tokens: seq<Piece>)
    requires Sound(r) && AfterCall(p, r, bytes, n, handed, p1)
    requires CutAt(p1, RefRun(r, bytes[..n]).0, bytes[n..], k, tokens)
    ensures CutAt(p, r, bytes, n + k, handed + tokens)
  {
    hide Sound, Pending, RefRun;
    CallThen(p, r, bytes, n, handed, p1, k);
    var out2 := RefRun(RefRun(r, bytes[..n]).0, bytes[n..][..k]).1;
    assert handed + (Pending(p1) + out2 + [ErrorPiece]) == handed + (Pending(p1) + out2) + [ErrorPiece];
  }

  lemma SessionJoin(p: Parser, r: Ref, bytes: seq<byte>, low: nat, n: nat, handed: seq<Piece>,
                    p1: Parser, rest: Trace, low1: nat)
    requires Sound(r) && AfterCall(p, r, bytes, n, handed, p1) && low <= n + low1
    requires SessionMatches(p1, RefRun(r, bytes[..n]).0, bytes[n..], low1, rest)
    ensures SessionMatches(p, r, bytes, low, Trace(handed + rest.tokens, rest.status))
  {
    hide Sound, RefRun, Pending, StandsAt, Erred, CutAt;
    var r1 := RefRun(r, bytes[..n]).0;
    match rest.status
    case Live(p2, s2) =>
      JoinLive(p, r, bytes, n, handed, p1, p2, s2, rest.tokens);
    case Stopped =>
      if CutShort(p1, r1, bytes[n..], low1, rest.tokens) {
        var k :| low1 <= k && CutAt(p1, r1, bytes[n..], k, rest.tokens);
        JoinCut(p, r, bytes, n, handed, p1, k, rest.tokens);
      } else {
        JoinErred(p, r, bytes, n, handed, p1, rest.tokens);
      }
  }

  lemma NoCalls(p: Parser, s: Stream, r: Ref, low: nat)
    requires Rel(p, s, r) && Inv(p, s) && Sound(r)
    ensures SessionMatches(p, r, s.Unread(), low, Trace([], Live(p, s)))
  {
    hide Coupled, Counted, Tokened, Sound, Rel;
    var bytes := s.Unread();
    assert bytes[0..] == bytes && bytes[..0] == [];
    assert Pending(p) + [] == [] + Pending(p);
  }

  lemma ErrorCall(p: Parser, r: Ref, bytes: seq<byte>, low: nat, n: nat)
    requires Sound(r) && low <= |bytes| && n <= |bytes| && Sound(RefRun(r, bytes[..n]).0) && !RefRun(r, bytes).0.Beyond?
    requires var (r1, out) := RefRun(r, bytes[..n]);
             || (r1.Failed? && Pending(p) + out == [ErrorPiece])
             || (Overlong(r1) && low <= n && Pending(p) + out == [])
    ensures SessionMatches(p, r, bytes, low, Trace([ErrorPiece], Stopped))
  {
    hide Sound, RefRun;
    PrefixWithin(r, bytes, n);
    var (r1, out1) := RefRun(r, bytes[..n]);
    Sticky(r1, bytes[n..]);
    assert out1 + [] == out1;
    if Overlong(r1) {
      assert [] + [ErrorPiece] == [ErrorPiece];
      assert CutAt(p, r, bytes, n, [ErrorPiece]);
    }
  }

  /** The first call of a session against the bytes it consumes. */
  lemma FirstCall(p: Parser, s: Stream, r: Ref, cuts: seq<seq<byte>>) returns (n: nat)
    requires Rel(p, s, r) && Inv(p, s) && Sound(r) && cuts != [] && CanRead(s, cuts[0])
    requires !RefRun(r, s.Unread() + Concat(cuts)).0.Beyond?
    ensures var s1 := Append(s, cuts[0]); var bytes := s.Unread() + Concat(cuts);
            && Inv(p, s1) && n <= |s1.Unread()| && bytes == s1.Unread() + Concat(cuts[1..])
            && s1.Unread()[..n] == bytes[..n]
            && ParseMatches(p, s1, Parse(p, s1), n, RefRun(r, bytes[..n]).0, RefRun(r, bytes[..n]).1)
  {
    hide Coupled, Counted, Tokened, Sound, Rel, Parse, ParseMatches, RefRun, Append, CanRead;
    var bytes := s.Unread() + Concat(cuts);
    var s1 := Append(s, cuts[0]);
    AppendKeepsInv(p, s, cuts[0]);
    FirstBytes(s.Unread(), cuts);
    NothingAfterDone(r, s.Unread(), cuts);
    PrefixWithin(r, bytes, |s1.Unread()|);
    AppendRel(p, s, r, cuts[0]);
    n := ParseRel(p, s1, r);
    assert s1.Unread()[..n] == bytes[..n];
  }

  lemma FirstBytes(unread: seq<byte>, cuts: seq<seq<byte>>)
    requires cuts != []
    ensures var bytes := unread + Concat(cuts); var first := unread + cuts[0];
            bytes == first + Concat(cuts[1..]) && |first| <= |bytes| && bytes[..|first|] == first
  {
    assert unread + (cuts[0] + Concat(cuts[1..])) == (unread + cuts[0]) + Concat(cuts[1..]);
    hide Concat;
  }

  lemma NothingAfterDone(r: Ref, unread: seq<byte>, cuts: seq<seq<byte>>)
    requires Sound(r) && cuts != [] && !RefRun(r, unread + Concat(cuts)).0.Beyond?
    ensures r.Done? ==> cuts[0] == []
  {
    hide Sound, RefRun;
    Sticky(r, unread + Concat(cuts));
  }

  // The bytes the first call of a session sees.
  ghost function Ahead(s: Stream, cuts: seq<seq<byte>>): nat
    requires s.Wf()
  {
    |s.Unread()| + if cuts == [] then 0 else |cuts[0]|
  }

  /** A session that stays within the model hands out what the reference machine does. */
  lemma CallsRel(p: Parser, s: Stream, r: Ref, cuts: seq<seq<byte>>)
    requires Rel(p, s, r) && Inv(p, s) && Sound(r)
    requires !RefRun(r, s.Unread() + Concat(cuts)).0.Beyond?
    requires Calls(p, s, cuts).status != NotARead
    ensures SessionMatches(p, r, s.Unread() + Concat(cuts), Ahead(s, cuts), Calls(p, s, cuts))
    decreases |cuts|
  {
    hide Coupled, Counted, Tokened, Sound, Rel, Parse, SessionMatches, Append, Handed, Pending, RefRun;
    var bytes := s.Unread() + Concat(cuts);
    var low := Ahead(s, cuts);
    if cuts == [] {
      assert bytes == s.Unread();
      NoCalls(p, s, r, low);
    } else {
      var n := FirstCall(p, s, r, cuts);
      var s1 := Append(s, cuts[0]);
      ParseKeepsInv(p, s1);
      PrefixWithin(r, bytes, n);
      var res := Parse(p, s1);
      if res.token.typ == TError {
        ErrorCall(p, r, bytes, low, n);
      } else {
        var rest := Calls(res.parser, res.stream, cuts[1..]);
        assert res.stream.Unread() + Concat(cuts[1..]) == bytes[n..];
        CallsRel(res.parser, res.stream, RefRun(r, bytes[..n]).0, cuts[1..]);
        SessionJoin(p, r, bytes, low, n, Handed(res.token, res.stream), res.parser, rest, Ahead(res.stream, cuts[1..]));
      }
    }
  }

  /** A fresh session. */
  ghost function Session(cuts: seq<seq<byte>>): Trace {
    FreshRel();
    Calls(FreshParser, EmptyStream, cuts)
  }

  lemma FreshRel()
    ensures Inv(FreshParser, EmptyStream) && Sound(Start) && Rel(FreshParser, EmptyStream, Start)
  {
  }

  // Everything read has been looked at and every token has been handed out.
  ghost predicate Settled(t: Trace) {
    match t.status
    case Live(p, s) => s.Wf() && s.Unread() == [] && Pending(p) == []
    case _ => false
  }

  /** However the bytes are cut into reads, a session that has handed out all it
      can hands out the tokens of the reference machine, with the same texts at
      the same offsets. It stops early only at the first error of the bytes, or
      where a read ends inside a token that is beyond the limit already. */
  lemma AnyCut(cuts: seq<seq<byte>>)
    requires !RefRun(Start, Concat(cuts)).0.Beyond? && Session(cuts).status != NotARead
    ensures !Session(cuts).status.Gone?
    ensures Settled(Session(cuts)) ==> Session(cuts).tokens == RefRun(Start, Concat(cuts)).1
    ensures Session(cuts).status.Stopped? ==>
              || (RefRun(Start, Concat(cuts)).0.Failed? && Session(cuts).tokens == RefRun(Start, Concat(cuts)).1)
              || exists n :: CutAt(FreshParser, Start, Concat(cuts), n, Session(cuts).tokens)
  {
    hide Coupled, Counted, Tokened, Sound, Rel, RefRun, CutAt, Calls;
    FreshRel();
    var bytes := Concat(cuts);
    assert EmptyStream.Unread() + bytes == bytes;
    CallsRel(FreshParser, EmptyStream, Start, cuts);
    hide Concat;
    var t := Session(cuts);
    assert [] + RefRun(Start, bytes).1 == RefRun(Start, bytes).1;
    if Settled(t) {
      assert bytes[..|bytes|] == bytes && t.tokens + [] == t.tokens;
    }
  }

  // ---- what is handed out stays readable ----

  // The first n bytes of the buffer lie below everything a shift can touch.
  ghost predicate BelowShift(p: Parser, s: Stream, n: nat) {
    && n <= s.index
    && (p.state in {BD, CS, CB, CE, CR, CN, CD, C1, C2} && p.meta != END ==> n <= s.anchor)
  }

  lemma BodyKeepsHead(p: Parser, s: Stream, n: nat)
    requires AtBody(p) && s.Wf() && s.index < s.length && BodyToken(p, s) && n <= s.anchor
    ensures var res := BodyLabel(p, s);
            res.Ok? ==> res.stream.buf == s.buf && res.stream.anchor == s.anchor && n <= res.stream.index
  {
    hide Int32;
  }

  lemma ControlKeepsHead(p: Parser, s: Stream, c: byte, to: State, n: nat)
    requires Inv(p, s) && s.index < s.length && Leads(p.state, to) && p.state != BD && p.meta != ERR && !s.consumed
    requires p.state == C2 || p.state == HN ==> p.meta == ZER
    requires to == HV && p.meta == CLV ==> IsDigit(c)
    requires Ready(Enter(p, to)) && Enter(p, to).state == to && to != BD && to != CB && to != BR && BelowShift(p, s, n)
    ensures var res := Label(Enter(p, to), EnterStream(s, p.state, to), p.state, c);
            res.Ok? ==> res.stream.buf == s.buf && BelowShift(res.parser, res.stream, n)
  {
    hide Enter, EnterStream, Coupled, Counted, Tokened, Act, Pre, Consume, Emits, StartToken;
    assert s.token.typ == StartToken(p.state) by { TokenOf(p, s); }
    AdvanceKeepsWf(s, p.state, to);
    ControlInv(p, s, c, to);
    if p.meta == END {
      EndPending(p);
    }
    BelowNext(p, s, Act(Enter(p, to), c, s.index), Advance(s, p.state, to), n);
    hide BelowShift;
  }

  lemma BelowNext(p: Parser, s: Stream, q: Parser, t: Stream, n: nat)
    requires BelowShift(p, s, n) && Leads(p.state, q.state) && p.meta != END && t.index == s.index + 1
    requires t.anchor == if p.state == HN then s.index else s.anchor
    ensures BelowShift(q, t, n)
  {
  }

  lemma StepKeepsHead(p: Parser, s: Stream, n: nat)
    requires Inv(p, s) && s.index < s.length && (p.meta == SEN || p.meta == END ==> p.state == C2) && BelowShift(p, s, n)
    ensures var res := Step(p, s);
            res.Ok? && res.token.typ != TError ==> BelowShift(res.parser, res.stream, n) && res.stream.buf == s.buf
  {
    hide NextState, Label, Enter, EnterStream, Coupled, Lengths, Tokened, Leads, AtBody, Pre;
    var c := s.buf[s.index];
    StepCases(p, s, c);
    var to := NextState(p.state, p.meta, c);
    var s0 := s.(consumed := false);
    if p.state == C2 && p.meta == END {
    } else if to == BD || to == CB {
      BodyHeads(p, s0, to, c, n);
    } else if to == BR {
      ErrorLabel(p, s0, c);
    } else if !(to == HV && p.meta == CLV && !IsDigit(c)) {
      ControlKeepsHead(p, s0, c, to, n);
    }
  }

  lemma BodyHeads(p: Parser, s: Stream, to: State, c: byte, n: nat)
    requires Inv(p, s) && s.index < s.length && BelowShift(p, s, n) && p.meta != ERR
    requires Ready(Enter(p, to)) && AtBody(Enter(p, to)) && (to == BD || to == CB)
    requires if to == BD then p.state == HN || p.state == BD else p.state == CN || p.state == CB
    ensures var res := Label(Enter(p, to), EnterStream(s, p.state, to), p.state, c);
            res.Ok? ==> BelowShift(res.parser, res.stream, n) && res.stream.buf == s.buf
  {
    hide Coupled, Counted, Tokened, BodyLabel;
    EnterBody(p, s, to);
    BodyKeepsHead(Enter(p, to), EnterStream(s, p.state, to), n);
  }

  lemma LoopKeepsHead(p: Parser, s: Stream, n: nat)
    requires Inv(p, s) && (p.meta == SEN || p.meta == END ==> p.state == C2) && BelowShift(p, s, n)
    ensures var res := Loop(p, s);
            res.Ok? && res.token.typ != TError ==> BelowShift(res.parser, res.stream, n) && res.stream.buf == s.buf
    decreases s.length - s.index
  {
    hide Coupled, Counted, Tokened, Step, BelowShift;
    if s.index < s.length {
      StepKeepsInv(p, s);
      StepKeepsHead(p, s, n);
      var res := Step(p, s);
      if res.Ok? && res.token.typ == TNone {
        LoopKeepsHead(res.parser, res.stream, n);
      }
    } else {
      assert BelowShift(p, s.(consumed := false), n) by { BelowFlag(p, s, n); }
    }
  }

  lemma BelowFlag(p: Parser, s: Stream, n: nat)
    requires BelowShift(p, s, n)
    ensures BelowShift(p, s.(consumed := false), n) && n <= s.index
    ensures BelowShift(FreshParser, s, n)
  {
  }

  /** Once read, the request line and the headers stay where they are: later
      calls, which shift the body area about, never touch them. */
  lemma ParseKeepsHead(p: Parser, s: Stream, n: nat)
    requires Inv(p, s) && BelowShift(p, s, n) && n <= |s.buf|
    ensures var res := Parse(p, s);
            res.Ok? && res.token.typ != TError ==>
              BelowShift(res.parser, res.stream, n) && n <= |res.stream.buf| && res.stream.buf[..n] == s.buf[..n]
  {
    hide Counted, Loop, Shift;
    BelowFlag(p, s, n);
    if p.meta != END && p.meta != SEN {
      LoopKeepsHead(p, s, n);
      LoopKeepsInv(p, s);
      var res := Loop(p, s);
      if res.Ok? && res.token.typ == TNone {
        BelowFlag(res.parser, res.stream, n);
        if res.parser.state == CB {
          TailKeepsInv(res.parser, res.stream);
          ShiftKeepsHead(res.parser, res.stream, n);
        }
      }
    }
  }

  lemma ShiftKeepsHead(p: Parser, s: Stream, n: nat)
    requires Inv(p, s) && BelowShift(p, s, n) && p.state == CB && s.index == s.length && n <= |s.buf|
    ensures Shiftable(s) && BelowShift(p, Shift(s), n) && n <= |Shift(s).buf| && Shift(s).buf[..n] == s.buf[..n]
  {
    hide Counted;
    ChunkTokenAbove(p, s);
    ShiftKeepsText(s);
  }

  // The tokens whose text is read after later calls too.
  predicate Lasting(typ: TokenType) {
    typ != TNone && typ != TError && typ != TChunkBody
  }

  lemma BodyTokenBelow(p: Parser, s: Stream)
    requires AtBody(p) && s.Wf() && s.index < s.length && BodyToken(p, s)
    ensures var res := BodyLabel(p, s);
            res.Ok? && Lasting(res.token.typ) ==>
              0 <= res.token.index <= res.token.index + res.token.len <= res.stream.index && res.parser.meta == END
  {
    hide Int32;
  }

  lemma ControlTokenBelow(p: Parser, s: Stream, c: byte, to: State)
    requires Inv(p, s) && s.index < s.length && Leads(p.state, to) && p.state != BD && p.meta != ERR && !s.consumed
    requires p.state == C2 || p.state == HN ==> p.meta == ZER
    requires to == HV && p.meta == CLV ==> IsDigit(c)
    requires Ready(Enter(p, to)) && Enter(p, to).state == to && to != BD && to != CB && to != BR
    ensures var res := Label(Enter(p, to), EnterStream(s, p.state, to), p.state, c);
            res.Ok? && Lasting(res.token.typ) ==>
              0 <= res.token.index <= res.token.index + res.token.len && BelowShift(res.parser, res.stream, res.token.index + res.token.len)
  {
    hide Enter, EnterStream, Coupled, Counted, Tokened, Act, Pre, Consume, StartToken;
    assert s.token.typ == StartToken(p.state) by { TokenOf(p, s); }
    AdvanceKeepsWf(s, p.state, to);
    ControlInv(p, s, c, to);
    if Emits(p.state, to) {
      EmitsToken(p.state, to);
    } else {
      ControlKeepsHead(p, s, c, to, 0);
    }
  }

  /** A token that is handed out lies below everything a later shift can touch. */
  lemma StepTokenBelow(p: Parser, s: Stream)
    requires Inv(p, s) && s.index < s.length && (p.meta == SEN || p.meta == END ==> p.state == C2)
    ensures var res := Step(p, s);
            res.Ok? && Lasting(res.token.typ) ==>
              0 <= res.token.index <= res.token.index + res.token.len && BelowShift(res.parser, res.stream, res.token.index + res.token.len)
  {
    hide NextState, Label, Enter, EnterStream, Coupled, Lengths, Tokened, Leads, AtBody, Pre;
    var c := s.buf[s.index];
    StepCases(p, s, c);
    var to := NextState(p.state, p.meta, c);
    var s0 := s.(consumed := false);
    if p.state == C2 && p.meta == END {
    } else if to == BD || to == CB {
      BodyTokenEnds(p, s0, to, c);
    } else if to == BR {
      ErrorLabel(p, s0, c);
    } else if !(to == HV && p.meta == CLV && !IsDigit(c)) {
      ControlTokenBelow(p, s0, c, to);
    }
  }

  lemma BodyTokenEnds(p: Parser, s: Stream, to: State, c: byte)
    requires Inv(p, s) && s.index < s.length && p.meta != ERR
    requires Ready(Enter(p, to)) && AtBody(Enter(p, to)) && (to == BD || to == CB)
    requires if to == BD then p.state == HN || p.state == BD else p.state == CN || p.state == CB
    ensures var res := Label(Enter(p, to), EnterStream(s, p.state, to), p.state, c);
            res.Ok? && Lasting(res.token.typ) ==>
              0 <= res.token.index <= res.token.index + res.token.len && BelowShift(res.parser, res.stream, res.token.index + res.token.len)
  {
    hide Coupled, Counted, Tokened, BodyLabel;
    EnterBody(p, s, to);
    BodyTokenBelow(Enter(p, to), EnterStream(s, p.state, to));
  }

  lemma LoopTokenBelow(p: Parser, s: Stream)
    requires Inv(p, s) && (p.meta == SEN || p.meta == END ==> p.state == C2)
    ensures var res := Loop(p, s);
            res.Ok? && Lasting(res.token.typ) ==>
              0 <= res.token.index <= res.token.index + res.token.len && BelowShift(res.parser, res.stream, res.token.index + res.token.len)
    decreases s.length - s.index
  {
    hide Coupled, Counted, Tokened, Step, BelowShift;
    if s.index < s.length {
      StepKeepsInv(p, s);
      StepTokenBelow(p, s);
      var res := Step(p, s);
      if res.Ok? && res.token.typ == TNone {
        LoopTokenBelow(res.parser, res.stream);
      }
    }
  }

  lemma ParseTokenBelow(p: Parser, s: Stream)
    requires Inv(p, s)
    ensures var res := Parse(p, s);
            res.Ok? && Lasting(res.token.typ) ==>
              0 <= res.token.index <= res.token.index + res.token.len && BelowShift(res.parser, res.stream, res.token.index + res.token.len)
  {
    hide Counted, Loop, Shift;
    if p.meta != END && p.meta != SEN {
      LoopTokenBelow(p, s);
      LoopKeepsInv(p, s);
      var res := Loop(p, s);
      if res.Ok? && res.token.typ == TNone {
        TailKeepsInv(res.parser, res.stream);
      }
    }
  }

  /** Every lasting piece is still where it was handed out, below n. */
  ghost predicate HeldIn(s: Stream, pieces: seq<Piece>, n: int) {
    forall i :: 0 <= i < |pieces| && Lasting(pieces[i].typ) ==>
      && 0 <= pieces[i].start <= pieces[i].start + |pieces[i].text| <= n
      && TextAt(s.buf, pieces[i].start, |pieces[i].text|) == pieces[i].text
  }

  lemma HeldStays(s: Stream, t: Stream, pieces: seq<Piece>, n: nat, m: int)
    requires HeldIn(s, pieces, n) && n <= m && n <= |s.buf| && n <= |t.buf| && t.buf[..n] == s.buf[..n]
    ensures HeldIn(t, pieces, m)
  {
    forall i | 0 <= i < |pieces| && Lasting(pieces[i].typ)
      ensures TextAt(t.buf, pieces[i].start, |pieces[i].text|) == pieces[i].text
    {
      var a, b := pieces[i].start, pieces[i].start + |pieces[i].text|;
      assert t.buf[a..b] == t.buf[..n][a..b] == s.buf[..n][a..b] == s.buf[a..b];
    }
  }

  lemma HeldMore(s: Stream, pieces: seq<Piece>, token: Token, n: nat)
    requires HeldIn(s, pieces, n) && n <= |s.buf|
    requires Lasting(token.typ) ==> 0 <= token.index <= token.index + token.len <= n
    ensures HeldIn(s, pieces + Handed(token, s), n)
  {
  }

  /** One call adds at most one piece to those that are held. */
  lemma CallKeepsHeld(p: Parser, s: Stream, bytes: seq<byte>, pieces: seq<Piece>, n: nat) returns (m: nat)
    requires Inv(p, s) && CanRead(s, bytes) && BelowShift(p, s, n) && HeldIn(s, pieces, n)
    ensures Inv(p, Append(s, bytes))
    ensures var res := Parse(p, Append(s, bytes));
            res.Ok? && res.token.typ != TError ==>
              BelowShift(res.parser, res.stream, m) && HeldIn(res.stream, pieces + Handed(res.token, res.stream), m)
  {
    hide Coupled, Counted, Tokened, Parse;
    AppendKeepsInv(p, s, bytes);
    var s1 := Append(s, bytes);
    assert s1.buf[..n] == s1.buf[..s.length][..n] == s.buf[..s.length][..n] == s.buf[..n];
    HeldStays(s, s1, pieces, n, n);
    ParseKeepsHead(p, s1, n);
    ParseTokenBelow(p, s1);
    ParseKeepsInv(p, s1);
    var res := Parse(p, s1);
    m := n;
    if res.Ok? && res.token.typ != TError {
      if Lasting(res.token.typ) && res.token.index + res.token.len > n {
        m := res.token.index + res.token.len;
      }
      HeldStays(s1, res.stream, pieces, n, m);
      HeldMore(res.stream, pieces, res.token, m);
    }
  }

  /** The pieces of a whole session that last are in the buffer when it ends. */
  lemma CallsKeepHeld(p: Parser, s: Stream, cuts: seq<seq<byte>>, pieces: seq<Piece>, n: nat)
    requires Inv(p, s) && BelowShift(p, s, n) && HeldIn(s, pieces, n)
    ensures var t := Calls(p, s, cuts); t.status.Live? ==> HeldIn(t.status.s, pieces + t.tokens, t.status.s.length)
    decreases |cuts|
  {
    hide Coupled, Counted, Tokened, Parse, Append;
    if cuts == [] {
      HeldStays(s, s, pieces, n, s.length);
      assert pieces + [] == pieces;
    } else if CanRead(s, cuts[0]) {
      var s1 := Append(s, cuts[0]);
      var m := CallKeepsHeld(p, s, cuts[0], pieces, n);
      ParseKeepsInv(p, s1);
      var res := Parse(p, s1);
      if res.Ok? && res.token.typ != TError {
        var now := pieces + Handed(res.token, res.stream);
        CallsKeepHeld(res.parser, res.stream, cuts[1..], now, m);
        var rest := Calls(res.parser, res.stream, cuts[1..]).tokens;
        assert now + rest == pieces + (Handed(res.token, res.stream) + rest);
      }
    }
  }
}
