/** Streamed bodies: a Content-Length body too large for the buffer is passed on
    read by read. Nothing is lost or added as long as the length, and its offset
    in the buffer, fit in an int; beyond that the body is cut short. */
module HttpLargeBody {
  import opened HttpTables
  import opened HttpStream
  import opened HttpParser
  import opened HttpReference
  import opened HttpRefinement
  import opened HttpCalls
  import opened HttpSession

  /** body_left as hs_transition_action computes it. */
  function BodyLeft32(p: Parser): int {
    Int32(p.contentLength - p.bodyConsumed)
  }

  /** The parser while a body is being streamed. */
  ghost predicate Streaming(p: Parser, s: Stream) {
    Inv(p, s) && p.meta == STR && (p.state == HN || p.state == BD)
  }

  lemma Int32Less(x: int, d: int)
    requires 0 <= d <= Int32(x)
    ensures Int32(x - d) == Int32(x) - d
  {
  }

  // The parser and the stream on entering the body state.
  function InStream(p: Parser): Parser {
    p.(state := BD, matchIndex := if p.state == BD then p.matchIndex else 0)
  }

  function Anchored(p: Parser, s: Stream): Stream {
    if p.state == HN then s.(anchor := s.index, token := Token(s.index, 0, TBody)) else s
  }

  lemma StreamEntry(p: Parser, s: Stream)
    requires Streaming(p, s)
    ensures p.meta != ERR && Ready(Enter(p, BD)) && AtBody(InStream(p))
    ensures Enter(p, BD) == InStream(p) && EnterStream(s, p.state, BD) == Anchored(p, s)
    ensures Anchored(p, s).token.len == 0 && Streaming(p, s.(consumed := false))
  {
    assert s.token.len == 0 && p.meta == STR by { hide Counted, Coupled; }
    hide Counted;
  }

  /** The body label while streaming, in closed form. */
  lemma StreamLabel(p: Parser, s: Stream)
    requires p.state == BD && p.meta == STR && s.index < s.length && s.token.len == 0
    ensures var w := BodyLeft32(p);
            var res := BodyLabel(p, s);
            if w < 0 then res == Outside(NegativeJump)
            else if s.index + w > INT_MAX then res == Outside(LengthOverflow)
            else if s.index + w <= s.length then
              res == Ok(Token(s.index, w, TChunkBody), Sent(p), s.(consumed := true, index := s.index + w, token := NoToken))
            else
              res == Ok(Token(s.index, Left(s), TChunkBody), Partly(p, Left(s)),
                        Shift(s.(consumed := true, index := s.length, token := NoToken)))
  {
    hide Int32, Shift;
  }

  // The parser after the last piece, and after a piece of n bytes.
  function Sent(p: Parser): Parser {
    p.(meta := SEN, contentLength := 0, bodyConsumed := 0)
  }

  function Partly(p: Parser, n: int): Parser {
    p.(bodyConsumed := p.bodyConsumed + n)
  }

  lemma BodyNext(state: State, meta: Meta, c: byte)
    requires state == HN || state == BD
    requires meta != ZER
    ensures NextState(state, meta, c) == BD
  {
  }

  lemma ParseFirst(p: Parser, s: Stream)
    requires Streaming(p, s) && s.index < s.length
    requires Step(p, s).Ok? ==> Step(p, s).token.typ != TNone
    ensures Parse(p, s) == Step(p, s)
  {
    hide Coupled, Counted, Tokened, Step;
    StepKeepsInv(p, s);
  }

  /** A call that finds bytes of a streamed body passes them all on, up to the
      length the code believes is left. */
  lemma StreamCall(p: Parser, s: Stream)
    requires Streaming(p, s) && s.index < s.length
    ensures Parse(p, s) == BodyLabel(InStream(p), Anchored(p, s.(consumed := false)))
    ensures AtBody(InStream(p))
  {
    var c := s.buf[s.index];
    var s0 := s.(consumed := false);
    BodyNext(p.state, p.meta, c);
    StreamEntry(p, s);
    StreamEntry(p, s0);
    StreamLabel(InStream(p), Anchored(p, s0));
    hide Coupled, Counted, Tokened, Enter, EnterStream, Int32, NextState, BodyLabel;
    StepLabel(p, s, BD);
    assert Step(p, s) == BodyLabel(InStream(p), Anchored(p, s0));
    ParseFirst(p, s);
  }

  // What such a call leaves and hands out.
  ghost predicate Passed(p: Parser, s: Stream, res: Result)
    requires s.Wf()
  {
    var w := BodyLeft32(p);
    var u := s.Unread();
    if w < 0 || s.index + w > INT_MAX then res.Outside?
    else
      && res.Ok? && res.token.typ == TChunkBody && res.stream.Wf()
      && Handed(res.token, res.stream) == [Piece(TChunkBody, 0, if w <= |u| then u[..w] else u)]
      && (if w <= |u| then res.parser.meta == SEN && res.stream.Unread() == u[w..]
          else
            && res.parser.state == BD && res.parser.meta == STR && res.stream.Unread() == []
            && res.parser.contentLength == p.contentLength && res.parser.bodyConsumed == p.bodyConsumed + |u|
            && res.stream.index <= s.length)
  }

  lemma LabelPasses(p: Parser, s: Stream, p1: Parser, s1: Stream)
    requires s.Wf() && s.index < s.length && p1.state == BD && p1.meta == p.meta == STR
    requires p1.contentLength == p.contentLength && p1.bodyConsumed == p.bodyConsumed
    requires s1.buf == s.buf && s1.index == s.index && s1.length == s.length && s1.token.len == 0
    requires 0 <= s1.anchor <= s1.index
    ensures Passed(p, s, BodyLabel(p1, s1))
  {
    hide BodyLabel, Int32;
    StreamLabel(p1, s1);
    var w := BodyLeft32(p);
    assert BodyLeft32(p1) == w;
    if 0 <= w && s.index + w <= s.length {
      UnreadCut(s, w);
    } else if 0 <= w {
      assert s.buf[s.index..s.length] == s.Unread();
      ShiftEmpty(s1.(consumed := true, index := s1.length, token := NoToken));
    }
  }

  lemma ShiftEmpty(s: Stream)
    requires s.token == NoToken && 0 <= s.anchor <= s.index == s.length <= |s.buf| && s.length <= MAX_REQUEST_BUF_SIZE
    ensures Shift(s).Wf() && Shift(s).Unread() == [] && Shift(s).buf == s.buf && Shift(s).index <= s.index
  {
  }

  lemma StreamPasses(p: Parser, s: Stream)
    requires Streaming(p, s) && s.index < s.length
    ensures Passed(p, s, Parse(p, s))
  {
    hide Coupled, Counted, Tokened, BodyLabel, Parse, Passed;
    StreamCall(p, s);
    FlagStreaming(p, s);
    StreamEntry(p, s.(consumed := false));
    AnchorBelow(p, s.(consumed := false));
    LabelPasses(p, s, InStream(p), Anchored(p, s.(consumed := false)));
  }

  lemma FlagStreaming(p: Parser, s: Stream)
    requires Streaming(p, s)
    ensures Streaming(p, s.(consumed := false))
  {
    hide Coupled, Counted;
  }

  lemma AnchorBelow(p: Parser, s: Stream)
    requires Streaming(p, s)
    ensures Anchored(p, s).anchor <= s.index && Anchored(p, s).token.len == 0
  {
    hide Counted;
  }

  // ---- the driver loop on a streamed body ----

  lemma ParseQuietly(p: Parser, s: Stream)
    requires Inv(p, s) && s.index == s.length && (p == FreshParser || (p.state in {HN, BD} && p.meta == STR))
    ensures Parse(p, s) == Ok(NoToken, p, s.(consumed := false))
  {
    hide Counted;
    LoopAtEnd(p, s);
    assert s.token.typ == TNone && s.token.len == 0;
  }

  lemma QuietDrain(p: Parser, s: Stream)
    requires Inv(p, s) && s.Unread() == [] && (Streaming(p, s) || p == FreshParser)
    ensures Drain(p, s) == Trace([], Live(p, s.(consumed := false)))
  {
    LeftNat(p, s);
    ParseQuietly(p, s);
  }

  /** Once the last piece is out, an empty chunk and the end of the request follow. */
  lemma EndDrain(p: Parser, s: Stream)
    requires Inv(p, s) && p.meta == SEN
    ensures Inv(FreshParser, s)
    ensures Drain(p, s) == Trace([EmptyChunk, RequestEnd] + Drain(FreshParser, s).tokens, Drain(FreshParser, s).status)
  {
    hide Counted, Coupled, Tokened;
    FreshInv(p, s);
    FreshInv(p.(meta := END), s);
    var rest := Drain(FreshParser, s).tokens;
    assert [EmptyChunk] + ([RequestEnd] + rest) == [EmptyChunk, RequestEnd] + rest;
  }

  function ChunkOf(text: seq<byte>): Piece {
    Piece(TChunkBody, 0, text)
  }

  // What the loop does with u unread bytes when it believes w are left.
  ghost predicate Drained(p: Parser, s: Stream, t: Trace)
    requires s.Wf()
  {
    var w := BodyLeft32(p);
    var u := s.Unread();
    if u == [] then t == Trace([], Live(p, s.(consumed := false)))
    else if w < 0 || s.index + w > INT_MAX then t.tokens == [] && t.status.Gone?
    else if |u| < w then
      && t.tokens == [ChunkOf(u)] && t.status.Live? && Streaming(t.status.p, t.status.s) && t.status.s.Unread() == []
      && t.status.p.contentLength == p.contentLength && t.status.p.bodyConsumed == p.bodyConsumed + |u|
      && t.status.s.index <= s.length
    else
      && |t.tokens| >= 3 && t.tokens[0] == ChunkOf(u[..w]) && t.tokens[1] == EmptyChunk && t.tokens[2] == RequestEnd
      && (|u| == w ==> |t.tokens| == 3 && t.status.Live? && t.status.p == FreshParser && Inv(FreshParser, t.status.s)
                       && t.status.s.Unread() == [])
  }

  lemma StreamDrain(p: Parser, s: Stream)
    requires Streaming(p, s)
    ensures Drained(p, s, Drain(p, s))
  {
    hide Counted, Coupled, Tokened, Parse, Int32, Rank;
    if s.Unread() == [] {
      QuietDrain(p, s);
    } else {
      StreamPasses(p, s);
      ParseKeepsInv(p, s);
      ParseShrinks(p, s);
      var res := Parse(p, s);
      if res.Ok? {
        if res.parser.meta == SEN {
          SentDrain(p, s);
        } else {
          QuietDrain(res.parser, res.stream);
          assert Handed(res.token, res.stream) + [] == Handed(res.token, res.stream);
          FlagStreaming(res.parser, res.stream);
        }
      }
    }
  }

  lemma SentDrain(p: Parser, s: Stream)
    requires Streaming(p, s) && s.Unread() != [] && Parse(p, s).Ok? && Passed(p, s, Parse(p, s)) && Parse(p, s).parser.meta == SEN
    ensures Drained(p, s, Drain(p, s))
  {
    hide Counted, Coupled, Tokened, Parse, Int32, Rank;
    ParseKeepsInv(p, s);
    ParseShrinks(p, s);
    var res := Parse(p, s);
    EndDrain(res.parser, res.stream);
    if res.stream.Unread() == [] {
      QuietDrain(FreshParser, res.stream);
      FlagFresh(res.stream);
    }
  }

  lemma FlagFresh(s: Stream)
    requires Inv(FreshParser, s)
    ensures Inv(FreshParser, s.(consumed := false))
  {
  }

  // ---- any reads ----

  /** The bytes of each driver loop: those still unread, then read by read. */
  ghost function Received(s: Stream, inputs: seq<seq<byte>>): seq<seq<byte>>
    requires s.Wf()
  {
    if inputs == [] then [] else [s.Unread() + inputs[0]] + inputs[1..]
  }

  function Pieces(texts: seq<seq<byte>>): seq<Piece> {
    if texts == [] then []
    else (if texts[0] == [] then [] else [ChunkOf(texts[0])]) + Pieces(texts[1..])
  }

  /** The pieces say what the bytes say, and none of them is empty. */
  lemma {:induction false} PiecesConserve(texts: seq<seq<byte>>)
    ensures TextsOf(Pieces(texts)) == Concat(texts)
    ensures Parts(Pieces(texts))
    decreases |texts|
  {
    if texts != [] {
      PiecesConserve(texts[1..]);
      if texts[0] == [] {
        assert [] + Pieces(texts[1..]) == Pieces(texts[1..]);
      } else {
        assert Pieces(texts)[1..] == Pieces(texts[1..]);
      }
    }
  }

  function TextsOf(pieces: seq<Piece>): seq<byte> {
    if pieces == [] then [] else pieces[0].text + TextsOf(pieces[1..])
  }

  lemma FreshServed(s: Stream, inputs: seq<seq<byte>>)
    requires Inv(FreshParser, s) && s.Unread() == [] && Concat(inputs) == []
    ensures var t := Served(FreshParser, s, inputs);
            t.tokens == [] && t.status.Live? && t.status.p == FreshParser
    decreases |inputs|
  {
    hide Counted, Coupled, Tokened, Drain;
    if inputs != [] {
      assert inputs[0] == [] && Concat(inputs[1..]) == [];
      AppendNothing(s);
      QuietDrain(FreshParser, s);
      FlagFresh(s);
      FreshServed(s.(consumed := false), inputs[1..]);
    }
  }

  // How a streamed body stands after some reads.
  ghost predicate Stands(p: Parser, texts: seq<seq<byte>>, t: Trace) {
    && t.status.Live?
    && if |Concat(texts)| == BodyLeft32(p) then
         t.tokens == Pieces(texts) + [EmptyChunk, RequestEnd] && t.status.p == FreshParser
       else
         && t.tokens == Pieces(texts) && Streaming(t.status.p, t.status.s)
         && t.status.p.bodyConsumed == p.bodyConsumed + |Concat(texts)| < t.status.p.contentLength == p.contentLength
  }

  lemma BelowLength(p: Parser, s: Stream)
    requires Streaming(p, s)
    ensures p.bodyConsumed < p.contentLength
  {
  }

  lemma AppendStreaming(p: Parser, s: Stream, bytes: seq<byte>)
    requires Streaming(p, s) && CanRead(s, bytes)
    ensures Streaming(p, Append(s, bytes)) && Append(s, bytes).Unread() == s.Unread() + bytes
    ensures Append(s, bytes).index == s.index && Append(s, bytes).length == s.length + |bytes|
  {
    hide Counted, Coupled, Tokened;
    AppendKeepsInv(p, s, bytes);
  }

  lemma NoPieces(texts: seq<seq<byte>>)
    requires Concat(texts) == []
    ensures Pieces(texts) == []
  {
    if texts != [] {
      NoPieces(texts[1..]);
    }
  }

  lemma EndStands(p: Parser, u: seq<byte>, rest: seq<seq<byte>>, t: Trace, later: Trace)
    requires u != [] && |u| == BodyLeft32(p) && Concat(rest) == []
    requires t.tokens == [ChunkOf(u), EmptyChunk, RequestEnd]
    requires later.tokens == [] && later.status.Live? && later.status.p == FreshParser
    ensures Stands(p, [u] + rest, Trace(t.tokens + later.tokens, later.status))
  {
    hide Int32;
    NoPieces(rest);
    assert ([u] + rest)[1..] == rest;
    assert Pieces([u] + rest) == [ChunkOf(u)];
    assert Concat([u] + rest) == u + [] == u;
  }

  lemma MoreStands(p: Parser, u: seq<byte>, rest: seq<seq<byte>>, t: Trace, later: Trace)
    requires t.status.Live? && Stands(t.status.p, rest, later)
    requires t.tokens == if u == [] then [] else [ChunkOf(u)]
    requires t.status.p.contentLength == p.contentLength && t.status.p.bodyConsumed == p.bodyConsumed + |u|
    requires BodyLeft32(t.status.p) == BodyLeft32(p) - |u|
    ensures Stands(p, [u] + rest, Trace(t.tokens + later.tokens, later.status))
  {
    hide Int32, Streaming;
    assert ([u] + rest)[1..] == rest;
    assert Pieces([u] + rest) == t.tokens + Pieces(rest);
    assert t.tokens + (Pieces(rest) + [EmptyChunk, RequestEnd]) == (t.tokens + Pieces(rest)) + [EmptyChunk, RequestEnd];
  }

  /** A loop that leaves something of the body to come. */
  lemma StreamedMore(p: Parser, s: Stream, t: Trace)
    requires s.Wf() && Streaming(p, s)
    requires 0 < BodyLeft32(p) && s.index + BodyLeft32(p) <= INT_MAX && |s.Unread()| < BodyLeft32(p)
    requires Drained(p, s, t)
    ensures t.status.Live? && Streaming(t.status.p, t.status.s) && t.status.s.Unread() == []
    ensures t.tokens == if s.Unread() == [] then [] else [ChunkOf(s.Unread())]
    ensures t.status.p.contentLength == p.contentLength && t.status.p.bodyConsumed == p.bodyConsumed + |s.Unread()|
    ensures BodyLeft32(t.status.p) == BodyLeft32(p) - |s.Unread()|
    ensures t.status.s.index <= s.length
  {
    hide Counted, Coupled, Tokened, Int32, Streaming;
    Int32Less(p.contentLength - p.bodyConsumed, |s.Unread()|);
    FlagStreaming(p, s);
  }

  lemma NothingUnread(s: Stream, inputs: seq<seq<byte>>)
    requires s.Wf() && s.Unread() == []
    ensures Received(s, inputs) == inputs
  {
    if inputs != [] {
      assert [] + inputs[0] == inputs[0];
      assert [inputs[0]] + inputs[1..] == inputs;
    }
  }

  lemma ConcatHead(u: seq<byte>, rest: seq<seq<byte>>)
    ensures Concat([u] + rest) == u + Concat(rest)
  {
    assert ([u] + rest)[1..] == rest;
  }

  /** Over any reads, the pieces are the bytes read, one piece to a read, and the
      count of consumed bytes stays below the length until the last piece; then
      exactly one empty chunk and the end of the request follow. */
  lemma StreamedServed(p: Parser, s: Stream, inputs: seq<seq<byte>>)
    requires Streaming(p, s) && 0 < BodyLeft32(p) && s.index + BodyLeft32(p) <= INT_MAX
    requires inputs == [] ==> s.Unread() == []
    requires |Concat(Received(s, inputs))| <= BodyLeft32(p) && Served(p, s, inputs).status != NotARead
    ensures Stands(p, Received(s, inputs), Served(p, s, inputs))
    decreases |inputs|
  {
    hide Counted, Coupled, Tokened, Drain, Int32, Append;
    if inputs == [] {
      BelowLength(p, s);
    } else {
      AppendKeepsInv(p, s, inputs[0]);
      AppendStreaming(p, s, inputs[0]);
      var s1 := Append(s, inputs[0]);
      var u := s1.Unread();
      var rest := inputs[1..];
      assert Received(s, inputs) == [u] + rest;
      ConcatHead(u, rest);
      StreamDrain(p, s1);
      DrainKeepsInv(p, s1);
      var t := Drain(p, s1);
      if |u| == BodyLeft32(p) {
        assert u[..|u|] == u && Concat(rest) == [];
        FreshServed(t.status.s, rest);
        EndStands(p, u, rest, t, Served(FreshParser, t.status.s, rest));
      } else {
        StreamedMore(p, s1, t);
        NothingUnread(t.status.s, rest);
        StreamedServed(t.status.p, t.status.s, rest);
        MoreStands(p, u, rest, t, Served(t.status.p, t.status.s, rest));
      }
    }
  }

  // ---- exactly when nothing is lost ----

  // Chunk tokens, each with some text.
  predicate Parts(pieces: seq<Piece>) {
    forall i :: 0 <= i < |pieces| ==> pieces[i].typ == TChunkBody && pieces[i].text != []
  }

  predicate Finishes(pieces: seq<Piece>, t: Trace) {
    t.status.Live? && t.status.p == FreshParser && t.tokens == pieces + [EmptyChunk, RequestEnd]
  }

  /** The outcome a streamed body ought to have: pieces that say what it says,
      one empty chunk, the end of the request. */
  ghost predicate Complete(body: seq<byte>, t: Trace) {
    exists pieces :: Parts(pieces) && TextsOf(pieces) == body && Finishes(pieces, t)
  }

  // What the session hands out begins with what its first loop does.
  predicate StartsWith(t: Trace, later: Trace) {
    if t.status.Live? then |t.tokens| <= |later.tokens| && later.tokens[..|t.tokens|] == t.tokens else later == t
  }

  /** A loop that reaches the end the code believes in before the body is over. */
  lemma EndsEarly(p: Parser, s: Stream, t: Trace, pieces: seq<Piece>, later: Trace)
    requires s.Wf() && Drained(p, s, t) && s.Unread() != [] && StartsWith(t, later)
    requires BodyLeft32(p) <= |s.Unread()| && BodyLeft32(p) < |TextsOf(pieces)| && Parts(pieces)
    ensures !Finishes(pieces, later)
  {
    hide Int32, Streaming;
    var u := s.Unread();
    var w := BodyLeft32(p);
    if 0 <= w && s.index + w <= INT_MAX && t.status.Live? {
      assert later.tokens[0] == ChunkOf(u[..w]) && later.tokens[1] == EmptyChunk;
      OnePiece(pieces);
    }
  }

  lemma OnePiece(pieces: seq<Piece>)
    ensures |pieces| == 1 ==> TextsOf(pieces) == pieces[0].text
  {
    if |pieces| == 1 {
      assert pieces[1..] == [] && pieces[0].text + [] == pieces[0].text;
    }
  }

  lemma LaterEnds(u: seq<byte>, pieces: seq<Piece>, t: Trace, later: Trace)
    requires t.tokens == (if u == [] then [] else [ChunkOf(u)]) && Parts(pieces) && TextsOf(pieces) != []
    requires Finishes(pieces, Trace(t.tokens + later.tokens, later.status))
    ensures u == [] ==> Finishes(pieces, later)
    ensures u != [] ==> Finishes(pieces[1..], later) && Parts(pieces[1..]) && |TextsOf(pieces[1..])| == |TextsOf(pieces)| - |u|
  {
    var joined := t.tokens + later.tokens;
    assert joined[|t.tokens|..] == later.tokens;
    if u == [] {
      assert joined == later.tokens;
    } else {
      assert joined[0] == ChunkOf(u) == pieces[0];
      assert (pieces + [EmptyChunk, RequestEnd])[1..] == pieces[1..] + [EmptyChunk, RequestEnd];
    }
  }

  /** A body longer than the code believes is cut short. */
  lemma Truncated(p: Parser, s: Stream, inputs: seq<seq<byte>>, pieces: seq<Piece>)
    requires Streaming(p, s) && (inputs == [] ==> s.Unread() == [])
    requires Parts(pieces) && BodyLeft32(p) < |TextsOf(pieces)| && TextsOf(pieces) != []
    ensures !Finishes(pieces, Served(p, s, inputs))
    decreases |inputs|, 0
  {
    hide Counted, Coupled, Tokened, Drain, Int32, Append, Drained, Finishes;
    if inputs != [] && CanRead(s, inputs[0]) {
      AppendStreaming(p, s, inputs[0]);
      var s1 := Append(s, inputs[0]);
      var u := s1.Unread();
      StreamDrain(p, s1);
      DrainKeepsInv(p, s1);
      var t := Drain(p, s1);
      if u != [] && BodyLeft32(p) <= |u| {
        EndsEarly(p, s1, t, pieces, Served(p, s, inputs));
      } else {
        StreamedOn(p, s1, t);
        if t.status.Live? {
          TruncatedLater(p, t, u, inputs[1..], pieces);
        } else {
          NotEnded(pieces, t);
        }
      }
    } else {
      NotEnded(pieces, Served(p, s, inputs));
    }
  }

  lemma TruncatedLater(p: Parser, t: Trace, u: seq<byte>, rest: seq<seq<byte>>, pieces: seq<Piece>)
    requires t.status.Live? && Streaming(t.status.p, t.status.s) && t.status.s.Wf() && t.status.s.Unread() == []
    requires t.tokens == if u == [] then [] else [ChunkOf(u)]
    requires BodyLeft32(t.status.p) == BodyLeft32(p) - |u| && (u == [] || |u| < BodyLeft32(p))
    requires Parts(pieces) && BodyLeft32(p) < |TextsOf(pieces)| && TextsOf(pieces) != []
    ensures var later := Served(t.status.p, t.status.s, rest); !Finishes(pieces, Trace(t.tokens + later.tokens, later.status))
    decreases |rest|, 1
  {
    hide Int32, Finishes, Counted, Coupled, Tokened;
    var later := Served(t.status.p, t.status.s, rest);
    if Finishes(pieces, Trace(t.tokens + later.tokens, later.status)) {
      LaterEnds(u, pieces, t, later);
      Truncated(t.status.p, t.status.s, rest, if u == [] then pieces else pieces[1..]);
    }
  }

  lemma NotEnded(pieces: seq<Piece>, t: Trace)
    requires !t.status.Live? || t.status.p.meta == STR
    ensures !Finishes(pieces, t)
  {
  }

  /** A loop that finds nothing, or less than the code believes is left. */
  lemma StreamedOn(p: Parser, s: Stream, t: Trace)
    requires s.Wf() && Streaming(p, s) && Drained(p, s, t) && (s.Unread() == [] || |s.Unread()| < BodyLeft32(p))
    ensures t.status.Live? ==>
              && Streaming(t.status.p, t.status.s) && t.status.s.Wf() && t.status.s.Unread() == []
              && t.tokens == (if s.Unread() == [] then [] else [ChunkOf(s.Unread())])
              && BodyLeft32(t.status.p) == BodyLeft32(p) - |s.Unread()|
  {
    hide Counted, Coupled, Tokened, Int32;
    if s.Unread() != [] {
      Int32Less(p.contentLength - p.bodyConsumed, |s.Unread()|);
    }
    FlagStreaming(p, s);
  }

  /** A length the code cannot hold, or an offset beyond int: the first byte of
      the body is outside what the code defines. */
  lemma Overflows(p: Parser, s: Stream, inputs: seq<seq<byte>>)
    requires Streaming(p, s) && (inputs == [] ==> s.Unread() == [])
    requires BodyLeft32(p) < 0 || s.index + BodyLeft32(p) > INT_MAX
    requires Concat(Received(s, inputs)) != []
    ensures !Served(p, s, inputs).status.Live?
    decreases |inputs|
  {
    hide Counted, Coupled, Tokened, Drain, Int32, Append;
    if CanRead(s, inputs[0]) {
      AppendStreaming(p, s, inputs[0]);
      var s1 := Append(s, inputs[0]);
      var u := s1.Unread();
      var rest := inputs[1..];
      assert Received(s, inputs) == [u] + rest;
      ConcatHead(u, rest);
      StreamDrain(p, s1);
      DrainKeepsInv(p, s1);
      if u == [] {
        FlagStreaming(p, s1);
        assert [] + Concat(rest) == Concat(rest);
        NothingUnread(s1.(consumed := false), rest);
        Overflows(p, s1.(consumed := false), rest);
      }
    }
  }

  /** A streamed body comes out whole, and the request ends with it, exactly when
      what is left of it, counted from its place in the buffer, fits in an int. */
  lemma StreamedExactly(p: Parser, s: Stream, inputs: seq<seq<byte>>)
    requires Streaming(p, s) && (inputs == [] ==> s.Unread() == [])
    requires |Concat(Received(s, inputs))| == p.contentLength - p.bodyConsumed
    requires Served(p, s, inputs).status != NotARead
    ensures Complete(Concat(Received(s, inputs)), Served(p, s, inputs)) <==> s.index + p.contentLength - p.bodyConsumed <= INT_MAX
  {
    var left := p.contentLength - p.bodyConsumed;
    BelowLength(p, s);
    Int32Cases(left);
    assert 0 <= s.index;
    hide Counted, Coupled, Tokened, Int32, Served;
    var body := Concat(Received(s, inputs));
    if s.index + left <= INT_MAX {
      StreamedServed(p, s, inputs);
      PiecesConserve(Received(s, inputs));
      assert Finishes(Pieces(Received(s, inputs)), Served(p, s, inputs));
    } else if left <= INT_MAX {
      Overflows(p, s, inputs);
    } else {
      forall pieces | Parts(pieces) && TextsOf(pieces) == body
        ensures !Finishes(pieces, Served(p, s, inputs))
      {
        Truncated(p, s, inputs, pieces);
      }
    }
  }

  lemma Int32Cases(x: int)
    requires 0 < x
    ensures if x <= INT_MAX then Int32(x) == x else Int32(x) < x
  {
  }

  // The tokens of a request that is over before a byte of its body is read.
  predicate EndsAtOnce(tokens: seq<Piece>) {
    |tokens| >= 3 && tokens[0] == ChunkOf([]) && tokens[1] == EmptyChunk && tokens[2] == RequestEnd
  }

  /** A length that is a multiple of 2^32, of which the code keeps nothing. */
  lemma NothingLeft(p: Parser, s: Stream, inputs: seq<seq<byte>>)
    requires Streaming(p, s) && (inputs == [] ==> s.Unread() == [])
    requires BodyLeft32(p) == 0 && Concat(Received(s, inputs)) != [] && Served(p, s, inputs).status != NotARead
    ensures EndsAtOnce(Served(p, s, inputs).tokens)
    decreases |inputs|
  {
    hide Counted, Coupled, Tokened, Drain, Int32, Append;
    AppendStreaming(p, s, inputs[0]);
    AppendKeepsInv(p, s, inputs[0]);
    var s1 := Append(s, inputs[0]);
    var u := s1.Unread();
    var rest := inputs[1..];
    assert Received(s, inputs) == [u] + rest;
    ConcatHead(u, rest);
    StreamDrain(p, s1);
    DrainKeepsInv(p, s1);
    if u == [] {
      FlagStreaming(p, s1);
      assert [] + Concat(rest) == Concat(rest);
      NothingUnread(s1.(consumed := false), rest);
      NothingLeft(p, s1.(consumed := false), rest);
      var later := Served(p, s1.(consumed := false), rest).tokens;
      assert [] + later == later;
    } else {
      assert u[..0] == [];
    }
  }
}
