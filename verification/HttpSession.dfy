/** The driver loop (hs_read_and_process_request): after every socket read it
    calls http_parse until no token is left. It terminates, and what it hands
    out over any reads is what the reference machine does. */
module HttpSession {
  import opened HttpTables
  import opened HttpStream
  import opened HttpParser
  import opened HttpReference
  import opened HttpRefinement
  import opened HttpCalls
  import opened HttpMachine

  // ---- termination ----

  function Left(s: Stream): int { s.length - s.index }

  /** How many calls may still hand out a token without consuming a byte. */
  function Rank(p: Parser): nat {
    if p.meta == STR then 3
    else if p.meta == SEN then 2
    else if p.meta == END || p.state == CN || p.state == CB then 1
    else 0
  }

  // Something has been used up: bytes, or the rank.
  predicate Shrinks(p: Parser, s: Stream, q: Parser, t: Stream) {
    Left(t) < Left(s) || (Left(t) == Left(s) && Rank(q) < Rank(p))
  }

  // What a body label that hands out a token has used up.
  predicate Spends(p: Parser, s: Stream, res: Result) {
    res.Ok? && res.token.typ != TNone ==>
      || Left(res.stream) < Left(s)
      || (Left(res.stream) == Left(s) && Rank(res.parser) < if p.meta == STR then 3 else if p.state == CB then 1 else 0)
  }

  lemma BodyShrinks(p: Parser, s: Stream)
    requires AtBody(p) && s.Wf() && s.index < s.length && BodyToken(p, s)
    requires Lengths(p.meta, p.contentLength) && 0 <= p.bodyConsumed
    requires p.contentLength > 0 ==> p.bodyConsumed < p.contentLength
    ensures Spends(p, s, BodyLabel(p, s))
  {
    hide BodyLabel, Spends;
    if p.meta == STR {
      StreamedShrinks(p, s);
    } else {
      WholeShrinks(p, s);
    }
  }

  lemma StreamedShrinks(p: Parser, s: Stream)
    requires AtBody(p) && s.Wf() && s.index < s.length && BodyToken(p, s) && p.meta == STR
    ensures Spends(p, s, BodyLabel(p, s))
  {
    hide Int32;
  }

  lemma WholeShrinks(p: Parser, s: Stream)
    requires AtBody(p) && s.Wf() && s.index < s.length && BodyToken(p, s) && p.meta != STR
    requires Lengths(p.meta, p.contentLength) && 0 <= p.bodyConsumed
    requires p.contentLength > 0 ==> p.bodyConsumed < p.contentLength
    ensures Spends(p, s, BodyLabel(p, s))
  {
    hide Int32;
    if p.meta == BDY {
      SmallInt(p.contentLength - p.bodyConsumed);
    }
  }

  lemma SmallInt(x: int)
    requires 0 < x <= INT_MAX
    ensures Int32(x) == x
  {
  }

  lemma BodyStepShrinks(p: Parser, s: Stream, to: State, c: byte)
    requires Inv(p, s) && s.index < s.length && p.meta != ERR
    requires Ready(Enter(p, to)) && AtBody(Enter(p, to)) && (to == BD || to == CB)
    requires if to == BD then p.state == HN || p.state == BD else p.state == CN || p.state == CB
    ensures var res := Label(Enter(p, to), EnterStream(s, p.state, to), p.state, c);
            res.Ok? && res.token.typ != TNone ==> Shrinks(p, s, res.parser, res.stream)
  {
    hide Coupled, Counted, Tokened, BodyLabel, Lengths, StartToken, Enter, EnterStream;
    EnterBody(p, s, to);
    EnterMeta(p, to);
    BodyShrinks(Enter(p, to), EnterStream(s, p.state, to));
  }

  lemma EnterMeta(p: Parser, to: State)
    requires p.meta != ERR && p.state != CS && (to == BD || to == CB)
    ensures Enter(p, to).meta == p.meta && Enter(p, to).state == to
  {
  }

  /** Every iteration of http_parse advances, or returns a token and lowers the rank. */
  lemma StepShrinks(p: Parser, s: Stream)
    requires Inv(p, s) && s.index < s.length && (p.meta == SEN || p.meta == END ==> p.state == C2)
    ensures var res := Step(p, s);
            res.Ok? && res.token.typ != TError ==>
              if res.token.typ == TNone then Left(res.stream) < Left(s) else Shrinks(p, s, res.parser, res.stream)
  {
    StepKeepsInv(p, s);
    hide NextState, Label, Enter, EnterStream, Coupled, Lengths, Tokened, Leads, AtBody, Pre;
    var c := s.buf[s.index];
    StepCases(p, s, c);
    var to := NextState(p.state, p.meta, c);
    var s0 := s.(consumed := false);
    if p.state == C2 && p.meta == END {
    } else if to == BD || to == CB {
      BodyStepShrinks(p, s0, to, c);
    } else if to == BR {
      ErrorLabel(p, s0, c);
    } else if !(to == HV && p.meta == CLV && !IsDigit(c)) {
      ControlShrinks(p, s0, c, to);
    }
  }

  lemma ControlShrinks(p: Parser, s: Stream, c: byte, to: State)
    requires Inv(p, s) && s.index < s.length && Leads(p.state, to) && p.state != BD && p.meta != ERR && !s.consumed
    requires p.state == C2 || p.state == HN ==> p.meta == ZER
    requires to == HV && p.meta == CLV ==> IsDigit(c)
    requires Ready(Enter(p, to)) && Enter(p, to).state == to && to != BD && to != CB && to != BR
    ensures var res := Label(Enter(p, to), EnterStream(s, p.state, to), p.state, c);
            res.Ok? ==> Left(res.stream) < Left(s)
  {
    hide Enter, EnterStream, Coupled, Counted, Tokened, Act, Pre, Consume, Emits, StartToken, Leads;
    ControlInv(p, s, c, to);
  }

  lemma LoopShrinks(p: Parser, s: Stream)
    requires Inv(p, s) && (p.meta == SEN || p.meta == END ==> p.state == C2)
    ensures var res := Loop(p, s);
            res.Ok? && res.token.typ != TError ==>
              if res.token.typ == TNone then Left(res.stream) == 0 && (Left(s) == 0 ==> res.parser == p)
              else Shrinks(p, s, res.parser, res.stream)
    decreases s.length - s.index
  {
    hide Coupled, Counted, Tokened, Step, Rank;
    if s.index < s.length {
      StepKeepsInv(p, s);
      StepShrinks(p, s);
      var res := Step(p, s);
      if res.Ok? && res.token.typ == TNone {
        LoopShrinks(res.parser, res.stream);
      }
    }
  }

  /** A call that hands out a token uses something up; one that does not has read everything. */
  lemma ParseShrinks(p: Parser, s: Stream)
    requires Inv(p, s)
    ensures var res := Parse(p, s);
            res.Ok? && res.token.typ != TError ==>
              if res.token.typ == TNone then Left(res.stream) == 0 else Shrinks(p, s, res.parser, res.stream)
  {
    hide Counted, Tokened, Loop, Shift;
    if p.meta != END && p.meta != SEN {
      LoopShrinks(p, s);
      LoopKeepsInv(p, s);
      var res := Loop(p, s);
      if res.Ok? && res.token.typ == TNone && res.parser.state == CB {
        TailKeepsInv(res.parser, res.stream);
        ShiftEnds(res.parser, res.stream);
      }
    }
  }

  lemma ShiftEnds(p: Parser, s: Stream)
    requires Inv(p, s) && p.state == CB && s.index == s.length
    ensures Shiftable(s) && Left(Shift(s)) == 0
  {
    ChunkTokenAbove(p, s);
    ShiftKeepsText(s);
  }

  // ---- the loop ----

  /** http_parse until it has nothing to say. */
  ghost function Drain(p: Parser, s: Stream): Trace
    requires Inv(p, s)
    decreases Left(s), Rank(p)
  {
    hide Counted, Coupled, Tokened, Parse, Rank;
    ParseKeepsInv(p, s);
    ParseShrinks(p, s);
    LeftNat(p, s);
    var res := Parse(p, s);
    if res.Outside? then Trace([], Gone(res.why))
    else if res.token.typ == TError then Trace([ErrorPiece], Stopped)
    else if res.token.typ == TNone then Trace([], Live(res.parser, res.stream))
    else
      LeftNat(res.parser, res.stream);
      var rest := Drain(res.parser, res.stream);
      Trace(Handed(res.token, res.stream) + rest.tokens, rest.status)
  }

  lemma LeftNat(p: Parser, s: Stream)
    requires Inv(p, s)
    ensures 0 <= Left(s) && (Left(s) == 0 <==> s.Unread() == [])
  {
  }

  // One trace after another.
  function Then(first: seq<Piece>, rest: Trace): Trace {
    Trace(first + rest.tokens, rest.status)
  }

  lemma ThenThen(a: seq<Piece>, b: seq<Piece>, t: Trace)
    ensures Then(a, Then(b, t)) == Then(a + b, t)
  {
    assert a + (b + t.tokens) == (a + b) + t.tokens;
  }

  /** The loop, unrolled once. */
  lemma DrainOnce(p: Parser, s: Stream)
    requires Inv(p, s)
    ensures var res := Parse(p, s);
            if res.Outside? then Drain(p, s) == Trace([], Gone(res.why))
            else if res.token.typ == TError then Drain(p, s) == Trace([ErrorPiece], Stopped)
            else if res.token.typ == TNone then Drain(p, s) == Trace([], Live(res.parser, res.stream))
            else Inv(res.parser, res.stream)
                 && Drain(p, s) == Then(Handed(res.token, res.stream), Drain(res.parser, res.stream))
  {
    hide Counted, Coupled, Tokened, Parse, Rank;
    ParseKeepsInv(p, s);
  }

  // ---- the loop with its test of the session's state ----

  /** The tokens at which the driver hands over to the application, whose answer
      decides whether the session is still reading when the loop is tested. */
  predicate HandsOver(typ: TokenType) {
    typ == TBody || typ == TBodyStream || typ == TChunkBody
  }

  /** What one run of the driver loop did: waiting if a callback ended it. */
  datatype Turn = Turn(trace: Trace, waiting: bool)

  // The next callback leaves the session in a state other than reading.
  predicate Pauses(typ: TokenType, resumes: seq<bool>) {
    HandsOver(typ) && resumes != [] && !resumes[0]
  }

  function NextResumes(typ: TokenType, resumes: seq<bool>): seq<bool> {
    if HandsOver(typ) && resumes != [] then resumes[1..] else resumes
  }

  /** The driver loop: resumes says of each callback whether it goes on reading,
      and callbacks beyond its end do. */
  ghost function Drive(p: Parser, s: Stream, resumes: seq<bool>): Turn
    requires Inv(p, s)
    decreases Left(s), Rank(p)
  {
    hide Counted, Coupled, Tokened, Parse, Rank;
    ParseKeepsInv(p, s);
    ParseShrinks(p, s);
    LeftNat(p, s);
    var res := Parse(p, s);
    if res.Outside? then Turn(Trace([], Gone(res.why)), false)
    else if res.token.typ == TError then Turn(Trace([ErrorPiece], Stopped), false)
    else if res.token.typ == TNone then Turn(Trace([], Live(res.parser, res.stream)), false)
    else if Pauses(res.token.typ, resumes) then
      Turn(Trace(Handed(res.token, res.stream), Live(res.parser, res.stream)), true)
    else
      LeftNat(res.parser, res.stream);
      var rest := Drive(res.parser, res.stream, NextResumes(res.token.typ, resumes));
      Turn(Then(Handed(res.token, res.stream), rest.trace), rest.waiting)
  }

  lemma DriveOnce(p: Parser, s: Stream, resumes: seq<bool>)
    requires Inv(p, s)
    ensures var res := Parse(p, s);
            if res.Outside? then Drive(p, s, resumes) == Turn(Trace([], Gone(res.why)), false)
            else if res.token.typ == TError then Drive(p, s, resumes) == Turn(Trace([ErrorPiece], Stopped), false)
            else if res.token.typ == TNone then Drive(p, s, resumes) == Turn(Trace([], Live(res.parser, res.stream)), false)
            else Inv(res.parser, res.stream)
                 && if Pauses(res.token.typ, resumes) then
                      Drive(p, s, resumes) == Turn(Trace(Handed(res.token, res.stream), Live(res.parser, res.stream)), true)
                    else
                      var rest := Drive(res.parser, res.stream, NextResumes(res.token.typ, resumes));
                      Drive(p, s, resumes) == Turn(Then(Handed(res.token, res.stream), rest.trace), rest.waiting)
  {
    hide Counted, Coupled, Tokened, Parse, Rank;
    ParseKeepsInv(p, s);
  }

  /** A loop that a callback ended has handed out the first of the tokens, and
      picking it up from there hands out the others. */
  lemma DriveThenDrain(p: Parser, s: Stream, resumes: seq<bool>)
    requires Inv(p, s)
    ensures var t := Drive(p, s, resumes);
            if t.waiting then
              t.trace.status.Live? && Inv(t.trace.status.p, t.trace.status.s)
              && Drain(p, s) == Then(t.trace.tokens, Drain(t.trace.status.p, t.trace.status.s))
            else Drain(p, s) == t.trace
    decreases Left(s), Rank(p)
  {
    hide Counted, Coupled, Tokened, Parse, Rank, Drive, Drain, Handed;
    DriveOnce(p, s, resumes);
    DrainOnce(p, s);
    ParseShrinks(p, s);
    LeftNat(p, s);
    var res := Parse(p, s);
    if res.Ok? && res.token.typ != TError && res.token.typ != TNone && !Pauses(res.token.typ, resumes) {
      LeftNat(res.parser, res.stream);
      var next := NextResumes(res.token.typ, resumes);
      DriveThenDrain(res.parser, res.stream, next);
      var rest := Drive(res.parser, res.stream, next);
      if rest.waiting {
        ThenThen(Handed(res.token, res.stream), rest.trace.tokens, Drain(rest.trace.status.p, rest.trace.status.s));
      }
    }
  }

  /** The pieces among these that the application was called back with: bodies,
      signals of a streamed body, and chunks. */
  function Callbacks(pieces: seq<Piece>): nat {
    if pieces == [] then 0
    else
      (match pieces[0].typ
       case TBody => 1
       case TBodyStream => 1
       case TChunkBody => 1
       case _ => 0) + Callbacks(pieces[1..])
  }

  lemma {:induction false} CallbacksJoin(a: seq<Piece>, b: seq<Piece>)
    ensures Callbacks(a + b) == Callbacks(a) + Callbacks(b)
    decreases |a|
  {
    if a == [] {
      assert a + b == b;
    } else {
      assert (a + b)[1..] == a[1..] + b;
      CallbacksJoin(a[1..], b);
    }
  }

  lemma CallbackOne(x: Piece)
    ensures Callbacks([x]) == if x.typ == TBody || x.typ == TBodyStream || x.typ == TChunkBody then 1 else 0
  {
    assert [x][1..] == [];
  }

  /** The first callback that does not go on reading is the k-th, from 0. */
  predicate FirstPause(resumes: seq<bool>, k: nat) {
    k < |resumes| && !resumes[k] && forall i :: 0 <= i < k ==> resumes[i]
  }

  // A turn has come as far as the callbacks let it.
  predicate Obeys(t: Turn, resumes: seq<bool>) {
    var n := Callbacks(t.trace.tokens);
    && (forall i :: 0 <= i < n - (if t.waiting then 1 else 0) && i < |resumes| ==> resumes[i])
    && (t.waiting ==> t.trace.tokens != [] && 0 < n <= |resumes| && !resumes[n - 1]
                      && Callbacks([t.trace.tokens[|t.trace.tokens| - 1]]) == 1)
  }

  lemma ObeysThen(x: Piece, rest: Turn, resumes: seq<bool>, next: seq<bool>)
    requires Obeys(rest, next)
    requires if Callbacks([x]) == 1 && resumes != [] then resumes[0] && next == resumes[1..] else next == resumes
    ensures Obeys(Turn(Then([x], rest.trace), rest.waiting), resumes)
  {
    var tokens := [x] + rest.trace.tokens;
    CallbacksJoin([x], rest.trace.tokens);
    CallbackOne(x);
    if rest.waiting {
      assert tokens[|tokens| - 1] == rest.trace.tokens[|rest.trace.tokens| - 1];
    }
    var n := Callbacks(tokens) - if rest.waiting then 1 else 0;
    forall i | 0 <= i < n && i < |resumes|
      ensures resumes[i]
    {
      if Callbacks([x]) == 1 && i > 0 {
        assert resumes[i] == next[i - 1];
      }
    }
  }

  lemma ObeysNow(x: Piece, status: Status, resumes: seq<bool>)
    requires resumes != [] && !resumes[0] && Callbacks([x]) == 1
    ensures Obeys(Turn(Trace([x], status), true), resumes)
  {
  }

  lemma ObeysEnd(tokens: seq<Piece>, status: Status, resumes: seq<bool>)
    requires tokens == [] || tokens == [ErrorPiece]
    ensures Obeys(Turn(Trace(tokens, status), false), resumes)
  {
    CallbackOne(ErrorPiece);
  }

  lemma PieceOf(t: Token, s: Stream)
    requires t.typ != TNone
    ensures Handed(t, s) == [Seen(t, s)] && (Callbacks([Seen(t, s)]) == 1 <==> HandsOver(t.typ))
    ensures Callbacks([Seen(t, s)]) <= 1
  {
    CallbackOne(Seen(t, s));
  }

  lemma DriveObeys(p: Parser, s: Stream, resumes: seq<bool>)
    requires Inv(p, s)
    ensures Obeys(Drive(p, s, resumes), resumes)
    decreases Left(s), Rank(p)
  {
    hide Counted, Coupled, Tokened, Parse, Rank, Drive, Handed, Seen, Obeys, Callbacks, HandsOver;
    DriveOnce(p, s, resumes);
    ParseShrinks(p, s);
    LeftNat(p, s);
    var res := Parse(p, s);
    if res.Ok? && res.token.typ != TError && res.token.typ != TNone {
      LeftNat(res.parser, res.stream);
      var x := Seen(res.token, res.stream);
      PieceOf(res.token, res.stream);
      if Pauses(res.token.typ, resumes) {
        ObeysNow(x, Live(res.parser, res.stream), resumes);
      } else {
        var next := NextResumes(res.token.typ, resumes);
        DriveObeys(res.parser, res.stream, next);
        ObeysThen(x, Drive(res.parser, res.stream, next), resumes, next);
      }
    } else {
      ObeysEnd(Drive(p, s, resumes).trace.tokens, Drive(p, s, resumes).trace.status, resumes);
    }
  }

  /** Where the loop stops: with the first pausing callback the k-th, exactly at the
      k-th of the pieces that call back, which is the last one handed out, if the
      bytes hold that many; and nowhere before the end otherwise. */
  lemma DriveStops(p: Parser, s: Stream, resumes: seq<bool>, k: nat)
    requires Inv(p, s) && FirstPause(resumes, k)
    ensures var t := Drive(p, s, resumes);
            && (t.waiting <==> k < Callbacks(Drain(p, s).tokens))
            && (t.waiting ==>
                  && Callbacks(t.trace.tokens) == k + 1 && t.trace.tokens != []
                  && t.trace.tokens[|t.trace.tokens| - 1].typ in {TBody, TBodyStream, TChunkBody}
                  && |t.trace.tokens| <= |Drain(p, s).tokens|
                  && t.trace.tokens == Drain(p, s).tokens[..|t.trace.tokens|])
            && (!t.waiting ==> t.trace == Drain(p, s))
  {
    hide Counted, Coupled, Tokened, Parse, Rank, Drive, Drain, Callbacks;
    DriveObeys(p, s, resumes);
    DriveThenDrain(p, s, resumes);
    var t := Drive(p, s, resumes);
    var tokens := t.trace.tokens;
    if t.waiting {
      CallbacksJoin(tokens, Drain(t.trace.status.p, t.trace.status.s).tokens);
      CallbackOne(tokens[|tokens| - 1]);
    }
  }

  /** With callbacks that all go on reading it never waits. */
  lemma DriveNeverWaits(p: Parser, s: Stream, resumes: seq<bool>)
    requires Inv(p, s) && forall i :: 0 <= i < |resumes| ==> resumes[i]
    ensures !Drive(p, s, resumes).waiting && Drive(p, s, resumes).trace == Drain(p, s)
  {
    hide Drive, Drain, Callbacks, Counted, Coupled, Tokened;
    DriveObeys(p, s, resumes);
    DriveThenDrain(p, s, resumes);
  }

  /** With callbacks that go on reading, the loop ends when no token is left. */
  lemma DriveAll(p: Parser, s: Stream)
    requires Inv(p, s)
    ensures Drive(p, s, []) == Turn(Drain(p, s), false)
    decreases Left(s), Rank(p)
  {
    hide Counted, Coupled, Tokened, Parse, Rank, Drive, Drain, Handed;
    DriveOnce(p, s, []);
    DrainOnce(p, s);
    ParseShrinks(p, s);
    LeftNat(p, s);
    var res := Parse(p, s);
    if res.Ok? && res.token.typ != TError && res.token.typ != TNone {
      LeftNat(res.parser, res.stream);
      DriveAll(res.parser, res.stream);
    }
  }

  /** The driver loop of hs_read_and_process_request over parser and stream in
      place. It is not ok where http_parse leaves the model. */
  method ProcessAll(parser: RequestParser, stream: HsStream, resumes: seq<bool>)
    returns (ok: bool, pieces: seq<Piece>, failed: bool, waiting: bool)
    requires Inv(parser.View(), stream.View())
    modifies parser, stream, stream.buf
    ensures var t := Drive(old(parser.View()), old(stream.View()), resumes);
            && ok == !t.trace.status.Gone? && pieces == t.trace.tokens
            && failed == t.trace.status.Stopped? && waiting == t.waiting
            && (ok && !failed ==> t.trace.status == Live(parser.View(), stream.View()))
  {
    hide Counted, Coupled, Tokened, Parse, Rank, Drive;
    ok, pieces, failed, waiting := true, [], false, false;
    var next := resumes;
    ghost var whole := Drive(parser.View(), stream.View(), resumes);
    assert whole.trace == Then([], whole.trace) by { assert [] + whole.trace.tokens == whole.trace.tokens; }
    while true
      invariant Inv(parser.View(), stream.View()) && stream.buf == old(stream.buf)
      invariant ok && !failed && !waiting
      invariant var rest := Drive(parser.View(), stream.View(), next);
                whole == Turn(Then(pieces, rest.trace), rest.waiting)
      decreases Left(stream.View()), Rank(parser.View())
    {
      ghost var p, s := parser.View(), stream.View();
      LeftNat(p, s);
      DriveOnce(p, s, next);
      ParseShrinks(p, s);
      var token;
      ok, token := parser.Run(stream);
      if !ok {
        assert pieces + [] == pieces;
        return;
      }
      if token.typ == TError {
        pieces, failed := pieces + [ErrorPiece], true;
        return;
      }
      if token.typ == TNone {
        assert pieces + [] == pieces;
        return;
      }
      LeftNat(parser.View(), stream.View());
      var text := TextAt(stream.buf[..], token.index, token.len);
      var piece := Piece(token.typ, if token.typ == TChunkBody then 0 else token.index, text);
      if HandsOver(token.typ) && next != [] {
        if !next[0] {
          pieces, waiting := pieces + [piece], true;
          return;
        }
        next := next[1..];
      }
      ThenThen(pieces, [piece], Drive(parser.View(), stream.View(), next).trace);
      pieces := pieces + [piece];
    }
  }

  // ---- reads ----

  /** A session seen from the socket: each read is followed by the driver loop. */
  ghost function Served(p: Parser, s: Stream, inputs: seq<seq<byte>>): Trace
    requires Inv(p, s)
    decreases |inputs|
  {
    if inputs == [] then Trace([], Live(p, s))
    else if !CanRead(s, inputs[0]) then Trace([], NotARead)
    else
      AppendKeepsInv(p, s, inputs[0]);
      var t := Drain(p, Append(s, inputs[0]));
      DrainKeepsInv(p, Append(s, inputs[0]));
      if !t.status.Live? then t
      else
        var rest := Served(t.status.p, t.status.s, inputs[1..]);
        Trace(t.tokens + rest.tokens, rest.status)
  }

  /** When the loop ends without an error, everything read has been looked at
      and nothing is left to hand out. */
  lemma DrainKeepsInv(p: Parser, s: Stream)
    requires Inv(p, s)
    ensures var t := Drain(p, s); t.status.Live? ==> Inv(t.status.p, t.status.s) && t.status.s.Unread() == []
    ensures Drain(p, s).status != NotARead
    decreases Left(s), Rank(p)
  {
    hide Counted, Coupled, Tokened, Parse, Rank;
    ParseKeepsInv(p, s);
    ParseShrinks(p, s);
    LeftNat(p, s);
    var res := Parse(p, s);
    if res.Ok? && res.token.typ != TError {
      LeftNat(res.parser, res.stream);
      if res.token.typ != TNone {
        DrainKeepsInv(res.parser, res.stream);
      }
    }
  }

  // ---- the loop as a series of calls ----

  function Idle(n: nat): seq<seq<byte>> {
    seq(n, i => [])
  }

  lemma IdleConcat(n: nat)
    ensures Concat(Idle(n)) == []
  {
    if n > 0 {
      assert Idle(n)[1..] == Idle(n - 1);
      IdleConcat(n - 1);
    }
  }

  lemma IdleFirst(n: nat)
    requires n > 0
    ensures |Idle(n)| == n && Idle(n)[0] == [] && Idle(n)[1..] == Idle(n - 1)
  {
  }

  lemma NoCallsLeft(res: Result, cuts: seq<seq<byte>>)
    requires cuts == [] && (res.Ok? && res.token.typ != TError ==> Inv(res.parser, res.stream))
    ensures res.Ok? && res.token.typ != TError ==> Calls(res.parser, res.stream, cuts) == Trace([], Live(res.parser, res.stream))
    ensures res.Ok? ==> Handed(res.token, res.stream) + [] == Handed(res.token, res.stream)
  {
  }

  lemma AppendNothing(s: Stream)
    requires s.Wf()
    ensures Append(s, []) == s
  {
    assert s.buf[..s.length] + [] + s.buf[s.length..] == s.buf;
  }

  lemma DriveIsCalls(p: Parser, s: Stream, resumes: seq<bool>) returns (n: nat)
    requires Inv(p, s)
    ensures n > 0 && Calls(p, s, Idle(n)) == Drive(p, s, resumes).trace
    decreases Left(s), Rank(p)
  {
    hide Counted, Coupled, Tokened, Parse, Rank, Append, Drive, Calls;
    AppendNothing(s);
    DriveOnce(p, s, resumes);
    ParseShrinks(p, s);
    LeftNat(p, s);
    var res := Parse(p, s);
    n := 1;
    IdleFirst(1);
    if res.Ok? && res.token.typ != TError && res.token.typ != TNone && !Pauses(res.token.typ, resumes) {
      LeftNat(res.parser, res.stream);
      var m := DriveIsCalls(res.parser, res.stream, NextResumes(res.token.typ, resumes));
      n := m + 1;
      IdleFirst(n);
    }
    CallsOnce(p, s, Idle(n));
    if n == 1 {
      assert Idle(1)[1..] == [];
      NoCallsLeft(res, Idle(1)[1..]);
    }
  }

  lemma DrainIsCalls(p: Parser, s: Stream) returns (n: nat)
    requires Inv(p, s)
    ensures n > 0 && Calls(p, s, Idle(n)) == Drain(p, s)
  {
    hide Calls, Drain, Drive;
    DriveAll(p, s);
    n := DriveIsCalls(p, s, []);
  }

  lemma CallsOnce(p: Parser, s: Stream, cuts: seq<seq<byte>>)
    requires Inv(p, s) && cuts != [] && CanRead(s, cuts[0])
    ensures Inv(p, Append(s, cuts[0]))
    ensures var res := Parse(p, Append(s, cuts[0]));
            if res.Outside? then Calls(p, s, cuts) == Trace([], Gone(res.why))
            else if res.token.typ == TError then Calls(p, s, cuts) == Trace([ErrorPiece], Stopped)
            else Inv(res.parser, res.stream)
                 && Calls(p, s, cuts) == Then(Handed(res.token, res.stream), Calls(res.parser, res.stream, cuts[1..]))
  {
    hide Counted, Coupled, Tokened, Parse, Append, Handed;
    AppendKeepsInv(p, s, cuts[0]);
    ParseKeepsInv(p, Append(s, cuts[0]));
  }

  lemma CallsJoin(p: Parser, s: Stream, a: seq<seq<byte>>, b: seq<seq<byte>>)
    requires Inv(p, s)
    ensures var t := Calls(p, s, a);
            && (t.status.Live? ==> Inv(t.status.p, t.status.s))
            && Calls(p, s, a + b) == if t.status.Live? then Then(t.tokens, Calls(t.status.p, t.status.s, b)) else t
    decreases |a|
  {
    hide Counted, Coupled, Tokened, Parse, Append, Handed;
    if a == [] {
      assert a + b == b;
      var u := Calls(p, s, b);
      assert [] + u.tokens == u.tokens;
    } else {
      assert (a + b)[1..] == a[1..] + b;
      if CanRead(s, a[0]) {
        CallsOnce(p, s, a);
        CallsOnce(p, s, a + b);
        hide Calls;
        var res := Parse(p, Append(s, a[0]));
        if res.Ok? && res.token.typ != TError {
          CallsJoin(res.parser, res.stream, a[1..], b);
          var t1 := Calls(res.parser, res.stream, a[1..]);
          if t1.status.Live? {
            ThenThen(Handed(res.token, res.stream), t1.tokens, Calls(t1.status.p, t1.status.s, b));
          }
        }
      }
    }
  }

  lemma FirstRead(p: Parser, s: Stream, bytes: seq<byte>, n: nat)
    requires Inv(p, s) && CanRead(s, bytes) && n > 0
    ensures Inv(p, Append(s, bytes))
    ensures Calls(p, s, [bytes] + Idle(n - 1)) == Calls(p, Append(s, bytes), Idle(n))
  {
    hide Counted, Coupled, Tokened, Parse, Append;
    AppendKeepsInv(p, s, bytes);
    AppendNothing(Append(s, bytes));
    assert ([bytes] + Idle(n - 1))[1..] == Idle(n - 1) == Idle(n)[1..];
  }

  lemma ConcatJoin(a: seq<seq<byte>>, b: seq<seq<byte>>)
    ensures Concat(a + b) == Concat(a) + Concat(b)
  {
    if a == [] {
      assert a + b == b;
    } else {
      assert (a + b)[1..] == a[1..] + b;
      ConcatJoin(a[1..], b);
    }
  }

  // ---- visits ----

  /** One visit of hs_read_and_process_request: the bytes that the socket had, none
      if bytes were still unread, and what the callbacks of its loop will do. */
  datatype Visit = Visit(bytes: seq<byte>, resumes: seq<bool>)

  ghost function Inputs(visits: seq<Visit>): (cuts: seq<seq<byte>>)
    ensures |cuts| == |visits|
  {
    if visits == [] then [] else [visits[0].bytes] + Inputs(visits[1..])
  }

  ghost function Driven(p: Parser, s: Stream, visits: seq<Visit>): Trace
    requires Inv(p, s)
    decreases |visits|
  {
    hide Counted, Coupled, Tokened, Drive, Append;
    if visits == [] then Trace([], Live(p, s))
    else if !CanRead(s, visits[0].bytes) then Trace([], NotARead)
    else
      AppendKeepsInv(p, s, visits[0].bytes);
      var t := Drive(p, Append(s, visits[0].bytes), visits[0].resumes).trace;
      DriveKeepsInv(p, Append(s, visits[0].bytes), visits[0].resumes);
      if !t.status.Live? then t else Then(t.tokens, Driven(t.status.p, t.status.s, visits[1..]))
  }

  lemma DriveKeepsInv(p: Parser, s: Stream, resumes: seq<bool>)
    requires Inv(p, s)
    ensures var t := Drive(p, s, resumes).trace; t.status.Live? ==> Inv(t.status.p, t.status.s)
  {
    hide Counted, Coupled, Tokened, Drive, Drain;
    DriveThenDrain(p, s, resumes);
    DrainKeepsInv(p, s);
  }

  lemma FirstVisit(p: Parser, s: Stream, visit: Visit) returns (cuts: seq<seq<byte>>)
    requires Inv(p, s) && CanRead(s, visit.bytes)
    ensures Inv(p, Append(s, visit.bytes)) && cuts != [] && cuts[0] == visit.bytes && Concat(cuts) == visit.bytes
    ensures Calls(p, s, cuts) == Drive(p, Append(s, visit.bytes), visit.resumes).trace
  {
    hide Counted, Coupled, Tokened, Append, Drive, Calls;
    AppendKeepsInv(p, s, visit.bytes);
    var n := DriveIsCalls(p, Append(s, visit.bytes), visit.resumes);
    FirstRead(p, s, visit.bytes, n);
    cuts := [visit.bytes] + Idle(n - 1);
    ConcatJoin([visit.bytes], Idle(n - 1));
    IdleConcat(n - 1);
    assert [visit.bytes][1..] == [];
    assert Concat([visit.bytes]) == visit.bytes + [] == visit.bytes;
  }

  /** Visits are a series of calls over the same bytes. */
  lemma DrivenIsCalls(p: Parser, s: Stream, visits: seq<Visit>) returns (cuts: seq<seq<byte>>)
    requires Inv(p, s)
    ensures Concat(cuts) == Concat(Inputs(visits)) && Calls(p, s, cuts) == Driven(p, s, visits)
    ensures visits != [] ==> cuts != [] && cuts[0] == visits[0].bytes
    decreases |visits|
  {
    hide Counted, Coupled, Tokened, Append, Drive;
    if visits == [] {
      cuts := [];
    } else if !CanRead(s, visits[0].bytes) {
      cuts := Inputs(visits);
    } else {
      var first := FirstVisit(p, s, visits[0]);
      var t := Drive(p, Append(s, visits[0].bytes), visits[0].resumes).trace;
      DriveKeepsInv(p, Append(s, visits[0].bytes), visits[0].resumes);
      var rest := Inputs(visits[1..]);
      if t.status.Live? {
        rest := DrivenIsCalls(t.status.p, t.status.s, visits[1..]);
      }
      cuts := first + rest;
      assert Inputs(visits)[1..] == Inputs(visits[1..]);
      hide Calls;
      CallsJoin(p, s, first, rest);
      ConcatJoin(first, rest);
    }
  }

  // Reads whose callbacks all go on reading.
  function Resumed(inputs: seq<seq<byte>>): (visits: seq<Visit>)
    ensures |visits| == |inputs|
  {
    if inputs == [] then [] else [Visit(inputs[0], [])] + Resumed(inputs[1..])
  }

  lemma ResumedInputs(inputs: seq<seq<byte>>)
    ensures Inputs(Resumed(inputs)) == inputs
  {
    if inputs != [] {
      assert Resumed(inputs)[1..] == Resumed(inputs[1..]);
    }
  }

  lemma ServedIsDriven(p: Parser, s: Stream, inputs: seq<seq<byte>>)
    requires Inv(p, s)
    ensures Driven(p, s, Resumed(inputs)) == Served(p, s, inputs)
    decreases |inputs|
  {
    hide Counted, Coupled, Tokened, Append, Drive, Drain;
    if inputs != [] && CanRead(s, inputs[0]) {
      AppendKeepsInv(p, s, inputs[0]);
      var s1 := Append(s, inputs[0]);
      DriveAll(p, s1);
      DrainKeepsInv(p, s1);
      var t := Drain(p, s1);
      assert Resumed(inputs)[1..] == Resumed(inputs[1..]);
      if t.status.Live? {
        ServedIsDriven(t.status.p, t.status.s, inputs[1..]);
      }
    }
  }

  /** Reads and driver loops are a series of calls over the same bytes. */
  lemma ServedIsCalls(p: Parser, s: Stream, inputs: seq<seq<byte>>) returns (cuts: seq<seq<byte>>)
    requires Inv(p, s)
    ensures Concat(cuts) == Concat(inputs) && Calls(p, s, cuts) == Served(p, s, inputs)
    ensures inputs != [] ==> cuts != [] && cuts[0] == inputs[0]
  {
    hide Served, Driven, Calls;
    ServedIsDriven(p, s, inputs);
    ResumedInputs(inputs);
    cuts := DrivenIsCalls(p, s, Resumed(inputs));
  }

  // ---- room in the buffer ----

  lemma BodyLength(p: Parser, s: Stream)
    requires AtBody(p) && s.Wf() && s.index < s.length && BodyToken(p, s)
    ensures var res := BodyLabel(p, s); res.Ok? ==> res.stream.length <= s.length
  {
    hide Int32;
  }

  lemma BodyStepLength(p: Parser, s: Stream, to: State, c: byte)
    requires Inv(p, s) && s.index < s.length && p.meta != ERR
    requires Ready(Enter(p, to)) && AtBody(Enter(p, to)) && (to == BD || to == CB)
    requires if to == BD then p.state == HN || p.state == BD else p.state == CN || p.state == CB
    ensures var res := Label(Enter(p, to), EnterStream(s, p.state, to), p.state, c);
            res.Ok? ==> res.stream.length <= s.length
  {
    hide Coupled, Counted, Tokened, BodyLabel, Lengths, StartToken, Enter, EnterStream;
    EnterBody(p, s, to);
    EnterMeta(p, to);
    BodyLength(Enter(p, to), EnterStream(s, p.state, to));
  }

  lemma ControlLength(p: Parser, s: Stream, c: byte, to: State)
    requires Inv(p, s) && s.index < s.length && Leads(p.state, to) && p.state != BD && p.meta != ERR && !s.consumed
    requires p.state == C2 || p.state == HN ==> p.meta == ZER
    requires to == HV && p.meta == CLV ==> IsDigit(c)
    requires Ready(Enter(p, to)) && Enter(p, to).state == to && to != BD && to != CB && to != BR
    ensures var res := Label(Enter(p, to), EnterStream(s, p.state, to), p.state, c);
            res.Ok? ==> res.stream.length <= s.length
  {
    hide Enter, EnterStream, Coupled, Counted, Tokened, Act, Pre, Consume, Emits, StartToken, Leads;
    ControlInv(p, s, c, to);
  }

  lemma StepLength(p: Parser, s: Stream)
    requires Inv(p, s) && s.index < s.length && (p.meta == SEN || p.meta == END ==> p.state == C2)
    ensures var res := Step(p, s); res.Ok? && res.token.typ != TError ==> res.stream.length <= s.length
  {
    hide NextState, Label, Enter, EnterStream, Coupled, Lengths, Tokened, Leads, AtBody, Pre;
    var c := s.buf[s.index];
    StepCases(p, s, c);
    var to := NextState(p.state, p.meta, c);
    var s0 := s.(consumed := false);
    if p.state == C2 && p.meta == END {
    } else if to == BD || to == CB {
      BodyStepLength(p, s0, to, c);
    } else if to == BR {
      ErrorLabel(p, s0, c);
    } else if !(to == HV && p.meta == CLV && !IsDigit(c)) {
      ControlLength(p, s0, c, to);
    }
  }

  lemma LoopLength(p: Parser, s: Stream)
    requires Inv(p, s) && (p.meta == SEN || p.meta == END ==> p.state == C2)
    ensures var res := Loop(p, s); res.Ok? && res.token.typ != TError ==> res.stream.length <= s.length
    decreases s.length - s.index
  {
    hide Coupled, Counted, Tokened, Step;
    if s.index < s.length {
      StepKeepsInv(p, s);
      StepLength(p, s);
      var res := Step(p, s);
      if res.Ok? && res.token.typ == TNone {
        LoopLength(res.parser, res.stream);
      }
    }
  }

  /** A call never makes the buffer fuller, and a quiet one leaves neither the end
      of a request pending nor a token beyond the limit in progress. */
  lemma ParseLength(p: Parser, s: Stream)
    requires Inv(p, s)
    ensures var res := Parse(p, s);
            && (res.Ok? && res.token.typ != TError ==> res.stream.length <= s.length)
            && (res.Ok? && res.token.typ == TNone ==> res.parser.meta != END && !TooLong(res.stream.token))
  {
    hide Counted, Tokened, Loop, Shift;
    if p.meta != END && p.meta != SEN {
      LoopLength(p, s);
      LoopKeepsInv(p, s);
      var res := Loop(p, s);
      if res.Ok? && res.token.typ == TNone && res.parser.state == CB {
        TailKeepsInv(res.parser, res.stream);
        ShiftLength(res.parser, res.stream);
      }
    }
  }

  lemma ShiftLength(p: Parser, s: Stream)
    requires Inv(p, s) && p.state == CB && s.index == s.length
    ensures Shiftable(s) && Shift(s).length <= s.length
  {
    ChunkTokenAbove(p, s);
    ShiftKeepsText(s);
  }

  lemma DrainLength(p: Parser, s: Stream)
    requires Inv(p, s)
    ensures var t := Drain(p, s); t.status.Live? ==> t.status.s.length <= s.length && t.status.p.meta != END && !TooLong(t.status.s.token)
    decreases Left(s), Rank(p)
  {
    hide Counted, Coupled, Tokened, Parse, Rank;
    ParseKeepsInv(p, s);
    ParseShrinks(p, s);
    ParseLength(p, s);
    LeftNat(p, s);
    var res := Parse(p, s);
    if res.Ok? && res.token.typ != TError && res.token.typ != TNone {
      LeftNat(res.parser, res.stream);
      DrainLength(res.parser, res.stream);
    }
  }

  /** Bytes that all fit are never refused. */
  lemma ServedRoom(p: Parser, s: Stream, inputs: seq<seq<byte>>)
    requires Inv(p, s) && s.Unread() == [] && s.length + |Concat(inputs)| <= MAX_REQUEST_BUF_SIZE
    ensures Served(p, s, inputs).status != NotARead
    decreases |inputs|
  {
    hide Counted, Coupled, Tokened, Drain;
    if inputs != [] {
      LeftNat(p, s);
      AppendKeepsInv(p, s, inputs[0]);
      var s1 := Append(s, inputs[0]);
      DrainKeepsInv(p, s1);
      DrainLength(p, s1);
      var t := Drain(p, s1);
      if t.status.Live? {
        ServedRoom(t.status.p, t.status.s, inputs[1..]);
      }
    }
  }

  lemma ServedEnds(p: Parser, s: Stream, inputs: seq<seq<byte>>)
    requires Inv(p, s) && s.Unread() == [] && p.meta != END && !TooLong(s.token)
    ensures var t := Served(p, s, inputs);
            t.status.Live? ==>
              && Inv(t.status.p, t.status.s) && t.status.s.Unread() == []
              && t.status.p.meta != END && !TooLong(t.status.s.token)
    decreases |inputs|
  {
    hide Counted, Coupled, Tokened, Drain;
    if inputs != [] && CanRead(s, inputs[0]) {
      AppendKeepsInv(p, s, inputs[0]);
      var s1 := Append(s, inputs[0]);
      DrainKeepsInv(p, s1);
      DrainLength(p, s1);
      var t := Drain(p, s1);
      if t.status.Live? {
        ServedEnds(t.status.p, t.status.s, inputs[1..]);
      }
    }
  }

  // ---- a chunk of size zero never waits ----

  /** A body label that ends a chunk hands out its text, or a byte is still unread. */
  lemma BodyRests(p: Parser, s: Stream)
    requires AtBody(p) && s.Wf() && s.index < s.length && BodyToken(p, s)
    ensures Rests(BodyLabel(p, s))
  {
    hide Int32;
  }

  // What leads to the end of a chunk.
  ghost predicate Rests(res: Result) {
    res.Ok? && res.token.typ != TError && res.parser.state == CD ==>
      res.token.typ == TChunkBody && (res.stream.index < res.stream.length || Seen(res.token, res.stream) != EmptyChunk)
  }

  lemma BodyStepRests(p: Parser, s: Stream, to: State, c: byte)
    requires Inv(p, s) && s.index < s.length && p.meta != ERR
    requires Ready(Enter(p, to)) && AtBody(Enter(p, to)) && (to == BD || to == CB)
    requires if to == BD then p.state == HN || p.state == BD else p.state == CN || p.state == CB
    ensures Rests(Label(Enter(p, to), EnterStream(s, p.state, to), p.state, c))
  {
    hide Coupled, Counted, Tokened, BodyLabel, Lengths, StartToken, Enter, EnterStream, Rests;
    EnterBody(p, s, to);
    EnterMeta(p, to);
    BodyRests(Enter(p, to), EnterStream(s, p.state, to));
  }

  lemma ControlRests(p: Parser, s: Stream, c: byte, to: State)
    requires p.meta != ERR && Leads(p.state, to) && to != BD && to != CB && to != BR && Ready(Enter(p, to)) && Enter(p, to).state == to
    ensures Rests(Label(Enter(p, to), EnterStream(s, p.state, to), p.state, c))
  {
    hide Enter, EnterStream, Act, Pre, Consume, Emits, StartToken, Leads;
    LeadsOut(p.state, to);
  }

  lemma StepRests(p: Parser, s: Stream)
    requires Inv(p, s) && s.index < s.length && (p.meta == SEN || p.meta == END ==> p.state == C2)
    ensures Rests(Step(p, s))
  {
    hide NextState, Label, Enter, EnterStream, Coupled, Lengths, Tokened, Leads, AtBody, Pre;
    var c := s.buf[s.index];
    StepCases(p, s, c);
    var to := NextState(p.state, p.meta, c);
    var s0 := s.(consumed := false);
    if p.state == C2 && p.meta == END {
    } else if to == BD || to == CB {
      BodyStepRests(p, s0, to, c);
    } else if to == BR {
      ErrorLabel(p, s0, c);
    } else if !(to == HV && p.meta == CLV && !IsDigit(c)) {
      ControlRests(p, s0, c, to);
    }
  }

  // No call ends in the state after a chunk unless it handed out the chunk, or did nothing.
  ghost predicate RestsFrom(p: Parser, s: Stream, res: Result) {
    Rests(res) || (res.token.typ == TNone && res.parser == p && s.index == s.length)
  }

  lemma LoopRests(p: Parser, s: Stream)
    requires Inv(p, s) && (p.meta == SEN || p.meta == END ==> p.state == C2)
    ensures RestsFrom(p, s, Loop(p, s))
    decreases s.length - s.index
  {
    hide Coupled, Counted, Tokened, Step, Seen;
    if s.index < s.length {
      StepKeepsInv(p, s);
      StepRests(p, s);
      var res := Step(p, s);
      if res.Ok? && res.token.typ == TNone {
        LoopRests(res.parser, res.stream);
      }
    }
  }

  lemma ParseRests(p: Parser, s: Stream)
    requires Inv(p, s)
    ensures RestsFrom(p, s, Parse(p, s))
  {
    hide Counted, Coupled, Tokened, Loop, Shift, Seen;
    if p.meta == END || p.meta == SEN {
      assert p.state != CD by { AtEndPending(p); }
    } else {
      LoopRests(p, s);
    }
  }

  lemma AtEndPending(p: Parser)
    requires Coupled(p.state, p.meta) && (p.meta == END || p.meta == SEN)
    ensures p.state != CD
  {
  }

  predicate EndsEmpty(tokens: seq<Piece>) {
    tokens != [] && tokens[|tokens| - 1] == EmptyChunk
  }

  // Past a chunk of size zero a byte is waiting to be read.
  ghost predicate Restless(p: Parser, s: Stream, tokens: seq<Piece>) {
    p.state == CD && EndsEmpty(tokens) ==> s.index < s.length
  }

  lemma CallRests(p: Parser, s: Stream, before: seq<Piece>)
    requires Inv(p, s) && Restless(p, s, before)
    ensures var res := Parse(p, s);
            res.Ok? && res.token.typ != TError ==> Restless(res.parser, res.stream, before + Handed(res.token, res.stream))
  {
    hide Counted, Coupled, Tokened, Parse, Seen;
    ParseRests(p, s);
    ParseShrinks(p, s);
    var res := Parse(p, s);
    if res.Ok? && res.token.typ == TNone {
      assert before + [] == before;
    }
  }

  lemma DrainRests(p: Parser, s: Stream, before: seq<Piece>)
    requires Inv(p, s) && Restless(p, s, before)
    ensures var t := Drain(p, s); t.status.Live? ==> Restless(t.status.p, t.status.s, before + t.tokens)
    decreases Left(s), Rank(p)
  {
    hide Counted, Coupled, Tokened, Parse, Rank, Restless, Drain, Handed;
    CallRests(p, s, before);
    DrainOnce(p, s);
    ParseKeepsInv(p, s);
    ParseShrinks(p, s);
    LeftNat(p, s);
    var res := Parse(p, s);
    if res.Ok? && res.token.typ != TError {
      LeftNat(res.parser, res.stream);
      if res.token.typ != TNone {
        var now := before + Handed(res.token, res.stream);
        DrainRests(res.parser, res.stream, now);
        var rest := Drain(res.parser, res.stream).tokens;
        assert now + rest == before + (Handed(res.token, res.stream) + rest);
      } else {
        NoneHandedOut(res);
      }
    }
  }

  lemma NoneHandedOut(res: Result)
    requires res.Ok? && res.token.typ == TNone
    ensures Handed(res.token, res.stream) == []
  {
  }

  lemma ServedRests(p: Parser, s: Stream, inputs: seq<seq<byte>>, before: seq<Piece>)
    requires Inv(p, s) && s.Unread() == [] && Restless(p, s, before)
    ensures var t := Served(p, s, inputs);
            t.status.Live? ==> t.status.s.Wf() && !(t.status.p.state == CD && EndsEmpty(before + t.tokens))
    decreases |inputs|
  {
    hide Counted, Coupled, Tokened, Drain, EndsEmpty;
    if inputs == [] {
      assert before + [] == before;
      LeftNat(p, s);
    } else if CanRead(s, inputs[0]) {
      AppendKeepsInv(p, s, inputs[0]);
      var s1 := Append(s, inputs[0]);
      DrainKeepsInv(p, s1);
      DrainRests(p, s1, before);
      var t := Drain(p, s1);
      if t.status.Live? {
        var now := before + t.tokens;
        ServedRests(t.status.p, t.status.s, inputs[1..], now);
        var rest := Served(t.status.p, t.status.s, inputs[1..]).tokens;
        assert now + rest == before + (t.tokens + rest);
      }
    }
  }

  // ---- the main result ----

  ghost function Serve(inputs: seq<seq<byte>>): Trace {
    FreshRel();
    Served(FreshParser, EmptyStream, inputs)
  }

  // The bytes of the first read.
  function AtOnce(inputs: seq<seq<byte>>): nat {
    if inputs == [] then 0 else |inputs[0]|
  }

  /** What the driver has handed out of a run once all bytes are read: an empty
      chunk still waits for the byte after it. */
  function AtRest(r: Ref, out: seq<Piece>): seq<Piece> {
    if r.Ref? && r.p.state == CD && EndsEmpty(out) then out[..|out| - 1] else out
  }

  /** How a session stands that has read on quietly to where the machine is. */
  ghost predicate LiveAfter(p: Parser, s: Stream, r: Ref, tokens: seq<Piece>, out: seq<Piece>) {
    && Inv(p, s) && s.Unread() == [] && Rel(p, s, r) && tokens + Pending(p) == out && p.meta != END
    && !Overlong(r) && !r.Failed? && tokens == AtRest(r, out)
  }

  /** Over any reads that the buffer has room for, the driver loop hands out the
      tokens of the reference machine, up to and including the first error. A read
      that ends inside a token beyond the limit makes that token the error. */
  lemma ServeAnyCut(inputs: seq<seq<byte>>)
    requires !RefRun(Start, Concat(inputs)).0.Beyond? && Serve(inputs).status != NotARead
    ensures var t := Serve(inputs); var (r, out) := RefRun(Start, Concat(inputs));
            match t.status
            case Live(p, s) => LiveAfter(p, s, r, t.tokens, out)
            case Stopped =>
              || (r.Failed? && t.tokens == out)
              || CutShort(FreshParser, Start, Concat(inputs), AtOnce(inputs), t.tokens)
            case _ => false
  {
    hide Coupled, Counted, Tokened, Sound, Rel, RefRun, Served, Calls, CutShort, EndsEmpty, StandsAt, Erred, LiveAfter;
    FreshRel();
    var bytes := Concat(inputs);
    assert EmptyStream.Unread() == [] && [] + bytes == bytes;
    var cuts := ServedIsCalls(FreshParser, EmptyStream, inputs);
    CallsRel(FreshParser, EmptyStream, Start, cuts);
    ServedEnds(FreshParser, EmptyStream, inputs);
    ServedRests(FreshParser, EmptyStream, inputs, []);
    var t := Serve(inputs);
    assert [] + t.tokens == t.tokens;
    if t.status.Live? {
      LiveOutcome(bytes, t.status.p, t.status.s, t.tokens);
    } else {
      ErredOutcome(bytes, t.tokens);
    }
  }

  lemma LiveOutcome(bytes: seq<byte>, p: Parser, s: Stream, tokens: seq<Piece>)
    requires Sound(Start) && StandsAt(FreshParser, Start, bytes, p, s, tokens)
    requires Inv(p, s) && s.Unread() == [] && p.meta != END && !TooLong(s.token) && !(p.state == CD && EndsEmpty(tokens))
    ensures LiveAfter(p, s, RefRun(Start, bytes).0, tokens, RefRun(Start, bytes).1)
  {
    hide Coupled, Counted, Tokened, Sound, Rel, RefRun, EndsEmpty;
    var (r, out) := RefRun(Start, bytes);
    assert [] + out == out && bytes[..|bytes|] == bytes;
    NotFailed(p, s, r);
    TokenLength(p, s, r);
    RestIs(p, s, r, tokens, out);
  }

  lemma ErredOutcome(bytes: seq<byte>, tokens: seq<Piece>)
    requires Sound(Start)
    ensures Erred(FreshParser, Start, bytes, tokens) ==> RefRun(Start, bytes).0.Failed? && tokens == RefRun(Start, bytes).1
  {
    hide Sound, RefRun;
    assert [] + RefRun(Start, bytes).1 == RefRun(Start, bytes).1;
  }

  lemma RestIs(p: Parser, s: Stream, r: Ref, tokens: seq<Piece>, out: seq<Piece>)
    requires Rel(p, s, r) && p.meta != END && tokens + Pending(p) == out && !(p.state == CD && EndsEmpty(tokens))
    ensures tokens == AtRest(r, out)
  {
    hide Coupled, Counted, Tokened, Sound;
    if p.state == CN && p.contentLength == 0 {
      RestEnds(tokens);
    } else {
      assert tokens + [] == tokens;
    }
  }

  lemma RestEnds(tokens: seq<Piece>)
    ensures EndsEmpty(tokens + [EmptyChunk]) && (tokens + [EmptyChunk])[..|tokens + [EmptyChunk]| - 1] == tokens
  {
  }

  lemma NotFailed(p: Parser, s: Stream, r: Ref)
    requires Rel(p, s, r)
    ensures !r.Failed? && s.Wf()
  {
  }

  /** The same when callbacks decide after each body token whether the loop goes
      on: whatever they decide, what has been handed out is what the bytes looked
      at so far amount to. */
  lemma DrivenAnyCut(visits: seq<Visit>)
    requires !RefRun(Start, Concat(Inputs(visits))).0.Beyond?
    requires Inv(FreshParser, EmptyStream) && Driven(FreshParser, EmptyStream, visits).status != NotARead
    ensures Sound(Start)
    ensures SessionMatches(FreshParser, Start, Concat(Inputs(visits)), AtOnce(Inputs(visits)),
                           Driven(FreshParser, EmptyStream, visits))
  {
    hide Coupled, Counted, Tokened, Sound, Rel, RefRun, Driven, Calls, CutShort;
    FreshRel();
    assert EmptyStream.Unread() == [] && [] + Concat(Inputs(visits)) == Concat(Inputs(visits));
    var cuts := DrivenIsCalls(FreshParser, EmptyStream, visits);
    CallsRel(FreshParser, EmptyStream, Start, cuts);
  }

  /** Every settled session seen from the socket is one seen call by call. */
  lemma ServeIsSession(inputs: seq<seq<byte>>) returns (cuts: seq<seq<byte>>)
    ensures Concat(cuts) == Concat(inputs) && Session(cuts) == Serve(inputs)
  {
    hide Calls, Served;
    FreshRel();
    cuts := ServedIsCalls(FreshParser, EmptyStream, inputs);
  }

  /** Any reads of at most a buffer's worth of bytes are accepted. */
  lemma ServeRoom(inputs: seq<seq<byte>>)
    requires |Concat(inputs)| <= MAX_REQUEST_BUF_SIZE
    ensures Serve(inputs).status != NotARead
  {
    FreshRel();
    assert EmptyStream.Unread() == [];
    ServedRoom(FreshParser, EmptyStream, inputs);
  }
}
