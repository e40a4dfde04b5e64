/** http_parse over any sequence of reads produces exactly the tokens of the
    reference machine, whatever the buffer does underneath. */
module HttpRefinement {
  import opened HttpTables
  import opened HttpStream
  import opened HttpParser
  import opened HttpReference

  // ---- runs of the reference machine ----

  lemma RunSplit(r: Ref, a: seq<byte>, b: seq<byte>)
    requires Sound(r)
    ensures Sound(RefRun(r, a).0)
    ensures RefRun(r, a + b) == (RefRun(RefRun(r, a).0, b).0, RefRun(r, a).1 + RefRun(RefRun(r, a).0, b).1)
    decreases |a|
  {
    hide Sound, RefStep;
    RefRunSound(r, a);
    if a == [] {
      assert a + b == b && [] + RefRun(r, b).1 == RefRun(r, b).1;
    } else {
      assert (a + b)[1..] == a[1..] + b;
      RefStepSound(r, a[0]);
      var (r1, out1) := RefStep(r, a[0]);
      RunSplit(r1, a[1..], b);
      var (r2, out2) := RefRun(r1, a[1..]);
      assert out1 + (out2 + RefRun(r2, b).1) == (out1 + out2) + RefRun(r2, b).1;
    }
  }

  /** Outside the model once, outside for good; failed once, failed for good. */
  lemma Sticky(r: Ref, bytes: seq<byte>)
    requires Sound(r)
    ensures r.Beyond? ==> RefRun(r, bytes) == (r, [])
    ensures r.Failed? ==> RefRun(r, bytes) == (r, [])
    ensures r.Done? && bytes != [] ==> RefRun(r, bytes) == (Beyond(AfterLastChunk), [])
    decreases |bytes|
  {
    if bytes != [] {
      RefStepSound(r, bytes[0]);
      if !r.Ref? {
        var (r1, out1) := RefStep(r, bytes[0]);
        assert out1 == [];
        Sticky(r1, bytes[1..]);
        assert [] + RefRun(r1, bytes[1..]).1 == RefRun(r1, bytes[1..]).1;
      }
    }
  }

  lemma PrefixWithin(r: Ref, bytes: seq<byte>, n: nat)
    requires Sound(r) && n <= |bytes| && !RefRun(r, bytes).0.Beyond?
    ensures !RefRun(r, bytes[..n]).0.Beyond? && Sound(RefRun(r, bytes[..n]).0)
    ensures RefRun(r, bytes) == (RefRun(RefRun(r, bytes[..n]).0, bytes[n..]).0,
                                 RefRun(r, bytes[..n]).1 + RefRun(RefRun(r, bytes[..n]).0, bytes[n..]).1)
  {
    hide Sound;
    assert bytes == bytes[..n] + bytes[n..];
    RunSplit(r, bytes[..n], bytes[n..]);
    Sticky(RefRun(r, bytes[..n]).0, bytes[n..]);
  }

  // What is left of the body in progress.
  function BodyLeft(r: Ref): int
    requires r.Ref?
  {
    r.p.contentLength - r.p.bodyConsumed
  }

  ghost predicate InBodyOf(r: Ref, to: State) {
    && r.Ref? && Sound(r)
    && (if to == BD then (r.p.state == HN || r.p.state == BD) && r.p.meta == BDY
        else to == CB && (r.p.state == CN || r.p.state == CB))
  }

  /** Byte by byte, a body comes out as one piece. */
  lemma BodyRun(r: Ref, bytes: seq<byte>, to: State)
    requires InBodyOf(r, to) && 0 < |bytes| <= BodyLeft(r)
    requires to == BD ==> r.pos + |bytes| <= MAX_REQUEST_BUF_SIZE
    ensures RefRun(r, bytes) == BodyTake(r, bytes, to)
    decreases |bytes|
  {
    hide Sound, RefStep, BodyTake;
    BodyStepIs(r, bytes[0], to);
    assert bytes[..1] == [bytes[0]];
    RefStepSound(r, bytes[0]);
    var (r1, out1) := RefStep(r, bytes[0]);
    if |bytes| == 1 {
      assert bytes[1..] == [] && bytes[..1] == bytes && out1 + [] == out1;
    } else {
      BodyTakeMore(r, bytes, to);
      BodyRun(r1, bytes[1..], to);
      assert [] + BodyTake(r, bytes, to).1 == BodyTake(r, bytes, to).1;
    }
  }

  lemma BodyStepIs(r: Ref, c: byte, to: State)
    requires InBodyOf(r, to) && 0 < BodyLeft(r)
    requires to == BD ==> r.pos < MAX_REQUEST_BUF_SIZE
    ensures RefStep(r, c) == BodyTake(r, [c], to)
  {
    hide BodyTake, ControlByte, Coupled, Counted;
    BodyLeads(r, c, to);
  }

  // Where a byte of a body leads.
  lemma BodyLeads(r: Ref, c: byte, to: State)
    requires InBodyOf(r, to)
    ensures r.p.state != BR && NextState(r.p.state, r.p.meta, c) == to && r.p.meta != STR && r.p.meta != ERR
    ensures to == BD || to == CB
    ensures to == CB ==> InChunks(r.p.meta)
    ensures (r.p.meta == SEN || r.p.meta == END) ==> r.p.state == C2
    ensures Coupled(r.p.state, r.p.meta) && 0 <= r.p.matchIndex
  {
    AtChunk(r.p);
    NextLeads(r.p, c);
    hide NextState;
  }

  lemma BodyTakeMore(r: Ref, bytes: seq<byte>, to: State)
    requires InBodyOf(r, to) && 1 < |bytes| <= BodyLeft(r)
    requires to == BD ==> r.pos + |bytes| <= MAX_REQUEST_BUF_SIZE
    ensures var (r1, out1) := BodyTake(r, bytes[..1], to);
            && out1 == [] && InBodyOf(r1, to) && BodyLeft(r1) == BodyLeft(r) - 1
            && r1.pos == r.pos + 1
            && BodyTake(r1, bytes[1..], to) == BodyTake(r, bytes, to)
  {
    assert bytes[..1] == [bytes[0]];
    BodyStepIs(r, bytes[0], to);
    RefStepSound(r, bytes[0]);
    BodyTakeAgain(r, bytes, to);
  }

  lemma BodyTakeAgain(r: Ref, bytes: seq<byte>, to: State)
    requires r.Ref? && 1 < |bytes| <= BodyLeft(r)
    requires if r.p.state != to then r.p.bodyConsumed == 0 else |r.text| == r.p.bodyConsumed
    ensures var (r1, out1) := BodyTake(r, bytes[..1], to);
            && out1 == [] && r1.Ref? && r1.p.state == to && r1.p.meta == r.p.meta && r1.pos == r.pos + 1
            && BodyLeft(r1) == BodyLeft(r) - 1
            && BodyTake(r1, bytes[1..], to) == BodyTake(r, bytes, to)
  {
    if r.p.state != to {
      assert bytes[..1] + bytes[1..] == bytes;
    } else {
      assert r.text + bytes[..1] + bytes[1..] == r.text + bytes;
    }
  }

  // ---- the relation ----

  /** The tokens a later call hands out although their bytes are already read. */
  function Pending(p: Parser): seq<Piece> {
    if p.meta == END then [RequestEnd]
    else if p.state == CN && p.contentLength == 0 then [EmptyChunk]
    else []
  }

  function TextAt(buf: seq<byte>, index: int, len: int): seq<byte> {
    if 0 <= index <= index + len <= |buf| then buf[index..index + len] else []
  }

  /** A token as the application sees it in the buffer. */
  function Seen(t: Token, s: Stream): Piece {
    Piece(t.typ, if t.typ == TChunkBody then 0 else t.index, TextAt(s.buf, t.index, t.len))
  }

  function Handed(t: Token, s: Stream): seq<Piece> {
    if t.typ == TNone then [] else [Seen(t, s)]
  }

  /** The token in progress covers the text the reference machine holds. */
  ghost predicate Carries(s: Stream, r: Ref)
    requires r.Ref? && s.Wf()
  {
    && s.token.typ == r.typ
    && (r.typ == TNone ==> r.text == [])
    && (r.typ != TNone ==> s.buf[s.token.index..s.index] == r.text)
    && (r.typ != TNone && r.typ != TChunkBody ==> s.token.index == r.start)
    && (r.typ == TChunkBody ==> r.start == 0)
  }

  ghost predicate Rel(p: Parser, s: Stream, r: Ref) {
    && Inv(p, s) && Sound(r) && p.meta != SEN && !(p.state == BD && p.meta == STR)
    && match r
       case Done => (p.state == C2 && p.meta == END) || (p == FreshParser && s.index == s.length)
       case Ref(q, typ, start, text, pos) =>
         && (!InChunks(p.meta) ==> s.index == pos)
         && if p.meta == END then p.state != C2 && q == FreshParser && text == []
            else if p.state == CN && p.contentLength == 0 then q == p.(state := CD, matchIndex := 0)
            else q == p && Carries(s, r)
       case _ => false
  }

  /** One result of the code against some bytes of the reference machine. */
  ghost predicate Matches(p: Parser, s: Stream, res: Result, n: int, r1: Ref, out: seq<Piece>) {
    && res.Ok?
    && if res.token.typ == TError then r1.Failed? && Pending(p) + out == [ErrorPiece]
       else
         && res.stream.index == s.index + n && res.stream.length == s.length && res.stream.buf == s.buf
         && Rel(res.parser, res.stream, r1)
         && Pending(p) + out == Handed(res.token, res.stream) + Pending(res.parser)
  }

  // ---- one iteration ----

  lemma ActOffset(p: Parser, c: byte, i: int, j: int)
    requires Ready(p) && p.state != BD && p.state != CB && p.state != BR && p.state != HN
    ensures Act(p, c, i) == Act(p, c, j)
  {
  }

  /** The stream half of a byte outside the bodies. */
  lemma ControlCarries(p: Parser, s: Stream, r: Ref, q: Parser, c: byte)
    requires Inv(p, s) && s.index < s.length && c == s.buf[s.index] && !s.consumed
    requires r.Ref? && Sound(r) && r.p == p && Carries(s, r) && Leads(p.state, q.state)
    requires !InChunks(p.meta) ==> s.index == r.pos
    requires StartToken(q.state) == TNone || (!InChunks(p.meta) && StartToken(q.state) != TChunkBody)
    ensures var t := Advance(s, p.state, q.state);
            && t.Wf() && Carries(t, Extend(r, q, c)) && t.index == s.index + 1
            && t.length == s.length && t.buf == s.buf && t.consumed
    ensures Emits(p.state, q.state) ==>
              s.token.typ == r.typ != TNone && r.typ != TError && Seen(s.token, s) == Piece(r.typ, r.start, r.text)
  {
    hide Coupled, Counted, Leads, Emits, StartToken, Raw, InChunks;
    assert s.token.typ == StartToken(p.state) by { LeadsFrom(p, s, q.state); }
    AdvanceKeepsWf(s, p.state, q.state);
    TokenEdges(p.state, q.state);
    if Emits(p.state, q.state) {
      EmitsToken(p.state, q.state);
    }
    Snoc(s.buf, s.index, s.index);
    if r.typ != TNone {
      Snoc(s.buf, s.token.index, s.index);
    }
  }

  lemma Snoc(buf: seq<byte>, i: int, j: int)
    requires 0 <= i <= j < |buf|
    ensures buf[i..j + 1] == buf[i..j] + [buf[j]]
  {
  }

  lemma LeadsFrom(p: Parser, s: Stream, to: State)
    requires Tokened(p, s) && Leads(p.state, to)
    ensures s.token.typ == StartToken(p.state)
  {
  }

  lemma EmitsToken(from: State, to: State)
    requires Leads(from, to) && Emits(from, to)
    ensures StartToken(from) !in {TNone, TChunkBody, TBody, TError}
  {
  }

  /** What is signalled or left pending on reaching a state. */
  lemma SettleRel(q: Parser, t: Stream, x: Ref, entering: bool)
    requires x.Ref? && Raw(x) && x.p == q && Inv(q, t) && Carries(t, x)
    requires q.state != BD && q.state != CB && q.meta != SEN && (q.meta == END ==> q.state == HN || q.state == C2)
    requires !InChunks(q.meta) && q.state != C2 ==> t.index == x.pos
    requires !Settle(x, entering).0.Beyond?
    requires q.state == HN ==> entering
    ensures var (r1, more) := Settle(x, entering);
            var signal := Signal(q, entering);
            if signal == TError then r1 == Failed && more == [ErrorPiece]
            else Rel(q, t, r1) && more == Handed(NoToken.(typ := signal), t) + Pending(q)
  {
    SettleSound(x, entering);
    hide Coupled, Counted, Tokened;
  }

  lemma EmitsQuietly(q: Parser, from: State)
    requires Coupled(q.state, q.meta) && Emits(from, q.state)
    ensures Signal(q, from != q.state) == TNone && Pending(q) == []
  {
  }

  lemma ControlRel(p: Parser, s: Stream, r: Ref, to: State)
    requires Rel(p, s, r) && r.Ref? && r.p == p && Carries(s, r) && Pending(p) == [] && s.index < s.length && !s.consumed
    requires Leads(p.state, to) && p.meta != ERR && Ready(Enter(p, to)) && to != BD && to != CB && to != BR
    requires p.state == C2 || p.state == HN ==> p.meta == ZER
    requires to == HV && p.meta == CLV ==> IsDigit(s.buf[s.index])
    requires !ControlByte(r, s.buf[s.index], to).0.Beyond?
    ensures var c := s.buf[s.index];
            var (r1, out) := ControlByte(r, c, to);
            Matches(p, s, Label(Enter(p, to), EnterStream(s, p.state, to), p.state, c), 1, r1, out)
  {
    hide Coupled, Counted, Tokened, Leads, Act, Enter, EnterStream, Consume, Settle, Extend, Signal, Emits, StartToken, Raw;
    var c := s.buf[s.index];
    EnterLeads(p, to);
    ChunkZone(p, to);
    ControlInv(p, s, c, to);
    var q := Act(Enter(p, to), c, s.index);
    if InChunks(p.meta) {
      ActOffset(Enter(p, to), c, s.index, Offset(r));
    }
    var t := Advance(s, p.state, to);
    ChunksLeadToChunks(p, q);
    ControlCarries(p, s, r, q, c);
    ExtendRaw(r, q, c);
    SettleRel(q, t, Extend(r, q, c), p.state != to);
    if Emits(p.state, to) {
      EmitsQuietly(q, p.state);
    }
  }

  lemma ChunkZone(p: Parser, to: State)
    requires Coupled(p.state, p.meta) && Leads(p.state, to)
    ensures InChunks(p.meta) ==> to != HN && StartToken(to) == TNone
    ensures StartToken(to) != TChunkBody && p.state != BD && (to == HN ==> p.state != to)
  {
  }

  /** A chunk of size zero comes out before the byte that brings it out is read. */
  lemma ZeroChunkRel(p: Parser, s: Stream, r: Ref, c: byte)
    requires Rel(p, s, r) && r.Ref? && s.index < s.length && p.state == CN && p.contentLength == 0
    ensures Ready(Enter(p, CB))
    ensures Matches(p, s, Label(Enter(p, CB), EnterStream(s, CN, CB), CN, c), 0, r, [])
  {
    hide Coupled, Label, Enter, EnterStream, Sound, Ready;
    AtChunk(p);
    ZeroChunkIs(p, s, c);
    var t := s.(consumed := true, token := NoToken);
    ZeroChunkAfter(p, s, r, t);
    assert Seen(Token(s.index, 0, TChunkBody), t) == EmptyChunk;
    assert [EmptyChunk] + [] == [EmptyChunk];
  }

  lemma ZeroChunkAfter(p: Parser, s: Stream, r: Ref, t: Stream)
    requires Rel(p, s, r) && r.Ref? && p.state == CN && p.contentLength == 0 && t == s.(consumed := true, token := NoToken)
    ensures Rel(r.p, t, r) && r.p == p.(state := CD, matchIndex := 0)
    ensures Pending(p) == [EmptyChunk] && Pending(r.p) == []
  {
    AtChunk(p);
    assert Tokened(r.p, t) && t.Wf();
    hide Sound;
  }

  lemma ZeroChunkIs(p: Parser, s: Stream, c: byte)
    requires s.Wf() && Tokened(p, s) && s.index < s.length && p.state == CN
    requires p.contentLength == 0 && p.bodyConsumed == 0 && (p.meta == CBD || p.meta == LST)
    ensures Ready(Enter(p, CB))
    ensures Label(Enter(p, CB), EnterStream(s, CN, CB), CN, c)
         == Ok(Token(s.index, 0, TChunkBody), p.(state := CD, matchIndex := 0), s.(consumed := true, token := NoToken))
  {
  }

  lemma AtChunk(p: Parser)
    requires Coupled(p.state, p.meta)
    ensures p.state == CN ==> p.meta == CBD || p.meta == LST
    ensures p.state == CB ==> p.meta == CBD
    ensures p.state == BD ==> p.meta == BDY || p.meta == STR || p.meta == SEN || p.meta == END
  {
  }

  // How many bytes of the body in progress the buffer holds.
  function HeldOfBody(s: Stream, r: Ref): int
    requires r.Ref?
  {
    if s.index + BodyLeft(r) <= s.length then BodyLeft(r) else s.length - s.index
  }

  // The token and the stream a body label leaves, n bytes further on.
  function BodyToken1(p: Parser, s: Stream, to: State, n: int): Token {
    if p.state != to then Token(s.index, n, StartToken(to)) else s.token.(len := s.token.len + n)
  }

  function BodyStream1(p: Parser, s: Stream, n: int, token: Token): Stream {
    s.(consumed := true, index := s.index + n, token := token, anchor := if p.state == HN then s.index else s.anchor)
  }

  /** The body labels in closed form, for a body that is not streamed. */
  lemma BodyLabelIs(p: Parser, s: Stream, to: State, c: byte)
    requires s.Wf() && s.index < s.length && Tokened(p, s)
    requires if to == BD then (p.state == HN || p.state == BD) && p.meta == BDY
             else to == CB && (p.state == CN || p.state == CB) && p.meta == CBD
    requires 0 < p.contentLength - p.bodyConsumed <= INT_MAX - MAX_REQUEST_BUF_SIZE
    ensures Ready(Enter(p, to)) && p.meta != ERR
    ensures forall n :: BodyToken1(p, s, to, n).typ == StartToken(to)
    ensures var left := p.contentLength - p.bodyConsumed;
            var held := s.length - s.index;
            Label(Enter(p, to), EnterStream(s, p.state, to), p.state, c) ==
            if left <= held then Ok(BodyToken1(p, s, to, left), WholeBody(p, to), BodyStream1(p, s, left, NoToken))
            else Ok(NoToken, PartBody(p, to, held), BodyStream1(p, s, held, BodyToken1(p, s, to, held)))
  {
    hide Enter, EnterStream, Tokened, BodyLabel, AtBody, Lengths;
    BodyEntry(p, s, to);
    assert p.contentLength - PartBody(p, to, 0).bodyConsumed == p.contentLength - p.bodyConsumed;
    EnteredBodyIs(p, s, to);
  }

  lemma EnteredBodyIs(p: Parser, s: Stream, to: State)
    requires s.Wf() && s.index < s.length && (p.state == to ==> s.token.typ == StartToken(to))
    requires if to == BD then (p.state == HN || p.state == BD) && p.meta == BDY
             else to == CB && (p.state == CN || p.state == CB) && p.meta == CBD
    requires 0 < p.contentLength - p.bodyConsumed <= INT_MAX - MAX_REQUEST_BUF_SIZE && (p.state != to ==> s.token.len == 0)
    ensures AtBody(PartBody(p, to, 0))
    ensures var left := p.contentLength - p.bodyConsumed;
            var held := s.length - s.index;
            BodyLabel(PartBody(p, to, 0),
                      s.(anchor := if p.state == HN then s.index else s.anchor,
                         token := if p.state != to then Token(s.index, 0, StartToken(to)) else s.token)) ==
            if left <= held then Ok(BodyToken1(p, s, to, left), WholeBody(p, to), BodyStream1(p, s, left, NoToken))
            else Ok(NoToken, PartBody(p, to, held), BodyStream1(p, s, held, BodyToken1(p, s, to, held)))
  {
  }

  // The parser and the stream on entering a body that is not streamed.
  lemma BodyEntry(p: Parser, s: Stream, to: State)
    requires s.Wf() && Tokened(p, s)
    requires if to == BD then (p.state == HN || p.state == BD) && p.meta == BDY
             else to == CB && (p.state == CN || p.state == CB) && p.meta == CBD
    ensures p.meta != ERR && Ready(Enter(p, to)) && AtBody(Enter(p, to))
    ensures Enter(p, to) == PartBody(p, to, 0) && s.token.typ == StartToken(p.state)
    ensures p.state != to ==> s.token.len == 0
    ensures EnterStream(s, p.state, to) ==
            s.(anchor := if p.state == HN then s.index else s.anchor,
               token := if p.state != to then Token(s.index, 0, StartToken(to)) else s.token)
  {
  }

  lemma BodyRel(p: Parser, s: Stream, r: Ref, to: State, c: byte)
    requires Rel(p, s, r) && r.Ref? && r.p == p && Carries(s, r) && s.index < s.length
    requires InBodyOf(r, to) && (to == BD || to == CB) && 0 < BodyLeft(r) && p.meta != END
    requires 0 < HeldOfBody(s, r) <= |s.Unread()|
    requires Sound(BodyTake(r, s.Unread()[..HeldOfBody(s, r)], to).0)
    ensures Ready(Enter(p, to))
    ensures var n := HeldOfBody(s, r);
            var (r1, out) := BodyTake(r, s.Unread()[..n], to);
            Matches(p, s, Label(Enter(p, to), EnterStream(s, p.state, to), p.state, c), n, r1, out)
  {
    hide Label, Enter, EnterStream, Coupled, Lengths, Counted, Tokened, BodyTake, WholeBody, PartBody, BodyToken1;
    hide Matches, Handed, Pending, Rel, Carries, InBodyOf, Sound;
    RelFacts(p, s, r);
    BodyMeta(r, to);
    BodyLabelIs(p, s, to, c);
    BodyLeaves(p, s, r, to, c);
    var n := HeldOfBody(s, r);
    var (r1, out) := BodyTake(r, s.Unread()[..n], to);
    if s.index + BodyLeft(r) <= s.length {
      BodyWholeRel(p, s, r, to);
      MatchesFrom(p, s, BodyToken1(p, s, to, n), WholeBody(p, to), BodyStream1(p, s, n, NoToken), n, r1, out);
    } else {
      BodyPartRel(p, s, r, to);
      NoneHanded(s, PartBody(p, to, n));
      MatchesFrom(p, s, NoToken, PartBody(p, to, n), BodyStream1(p, s, n, BodyToken1(p, s, to, n)), n, r1, out);
    }
  }

  lemma NoneHanded(s: Stream, q: Parser)
    ensures Handed(NoToken, s) + Pending(q) == Pending(q)
  {
  }

  lemma MatchesFrom(p: Parser, s: Stream, token: Token, q: Parser, t: Stream, n: int, r1: Ref, out: seq<Piece>)
    requires Pending(p) == [] && t.index == s.index + n && t.length == s.length && t.buf == s.buf && token.typ != TError
    requires Rel(q, t, r1) && out == Handed(token, s) + Pending(q)
    ensures Matches(p, s, Ok(token, q, t), n, r1, out)
  {
    hide Rel, Pending;
    assert [] + out == out;
  }

  lemma BodyLeaves(p: Parser, s: Stream, r: Ref, to: State, c: byte)
    requires Rel(p, s, r) && r.Ref? && r.p == p && s.index < s.length
    requires InBodyOf(r, to) && (to == BD || to == CB) && 0 < BodyLeft(r) && p.meta != END
    ensures if s.index + BodyLeft(r) <= s.length then Inv(WholeBody(p, to), BodyStream1(p, s, BodyLeft(r), NoToken))
            else var n := s.length - s.index; Inv(PartBody(p, to, n), BodyStream1(p, s, n, BodyToken1(p, s, to, n)))
  {
    hide Label, Enter, EnterStream, Coupled, Lengths, Counted, Tokened, WholeBody, PartBody, BodyToken1, Rel, InBodyOf;
    RelFacts(p, s, r);
    BodyMeta(r, to);
    BodyLabelIs(p, s, to, c);
    EnterBodyFits(p, to);
    BodyKeepsInv(p, s, c, to);
  }

  lemma BodyMeta(r: Ref, to: State)
    requires InBodyOf(r, to) && (to == BD || to == CB) && 0 < BodyLeft(r)
    ensures r.p.meta == (if to == CB then CBD else BDY)
    ensures if to == BD then r.p.state == HN || r.p.state == BD else r.p.state == CN || r.p.state == CB
    ensures 0 < BodyLeft(r) <= INT_MAX - MAX_REQUEST_BUF_SIZE && Pending(r.p) == []
  {
    AtChunk(r.p);
  }

  lemma EnterBodyFits(p: Parser, to: State)
    requires p.meta != ERR && (to == BD || to == CB) && Ready(Enter(p, to))
    ensures AtBody(Enter(p, to))
  {
  }

  // The parser after the whole of a body, and after n bytes of it.
  function WholeBody(p: Parser, to: State): Parser {
    p.(state := if to == CB then CD else BD, meta := if to == CB then CBD else END,
       matchIndex := if p.state != to then 0 else p.matchIndex, contentLength := 0, bodyConsumed := 0)
  }

  function PartBody(p: Parser, to: State, n: int): Parser {
    p.(state := to, matchIndex := if p.state != to then 0 else p.matchIndex, bodyConsumed := p.bodyConsumed + n)
  }

  lemma SliceCut(buf: seq<byte>, i: nat, w: nat, l: nat)
    requires i + w <= l <= |buf|
    ensures buf[i..i + w] == buf[i..l][..w] && buf[i + w..l] == buf[i..l][w..]
  {
    var u := buf[i..l];
    assert |u| == l - i && forall k :: 0 <= k < |u| ==> u[k] == buf[i + k];
    assert forall k :: 0 <= k < w ==> buf[i..i + w][k] == u[..w][k];
    assert forall k :: 0 <= k < l - i - w ==> buf[i + w..l][k] == u[w..][k];
  }

  lemma UnreadCut(s: Stream, w: nat)
    requires s.Wf() && s.index + w <= s.length
    ensures w <= |s.Unread()|
    ensures s.buf[s.index..s.index + w] == s.Unread()[..w] && s.buf[s.index + w..s.length] == s.Unread()[w..]
  {
    SliceCut(s.buf, s.index, w, s.length);
  }

  lemma BodyWholeRel(p: Parser, s: Stream, r: Ref, to: State)
    requires Rel(p, s, r) && r.Ref? && r.p == p && Carries(s, r) && s.index < s.length
    requires InBodyOf(r, to) && (to == BD || to == CB) && 0 < BodyLeft(r) && p.meta == if to == CB then CBD else BDY
    requires s.index + BodyLeft(r) <= s.length
    requires Inv(WholeBody(p, to), BodyStream1(p, s, BodyLeft(r), NoToken))
    requires Sound(BodyTake(r, s.Unread()[..BodyLeft(r)], to).0)
    ensures var n := BodyLeft(r);
            var (r1, out) := BodyTake(r, s.Unread()[..n], to);
            && Rel(WholeBody(p, to), BodyStream1(p, s, n, NoToken), r1)
            && out == Handed(BodyToken1(p, s, to, n), s) + Pending(WholeBody(p, to))
  {
    hide Coupled, Counted, Lengths, Tokened, BodyTake, BodyToken1, Raw, Handed, Pending, Sound, WholeBody, BodyStream1, Carries;
    var n := BodyLeft(r);
    TokenState(r);
    WholeTake(r, s.Unread()[..n], to);
    WholeOut(p, s, r, to, n);
    WholeRel(p, s, to, n, r.pos + n);
  }

  lemma WholeOut(p: Parser, s: Stream, r: Ref, to: State, n: nat)
    requires s.Wf() && r.Ref? && r.p == p && Carries(s, r) && 0 < n <= s.length - s.index
    requires (to == BD || to == CB) && r.typ == StartToken(p.state) && (to == BD ==> s.index == r.pos)
    ensures Handed(BodyToken1(p, s, to, n), s) + Pending(WholeBody(p, to)) == WholePieces(r, s.Unread()[..n], to)
  {
    hide BodyToken1, Handed, Pending, Carries, Seen;
    UnreadCut(s, n);
    BodyText(p, s, r, to, n);
    Handing(BodyToken1(p, s, to, n), s, to);
    WholePending(p, to);
  }

  // The machine after the whole of a body.
  function AfterBody(p: Parser, to: State, pos: nat): Ref {
    Ref(if to == BD then FreshParser else WholeBody(p, to), TNone, 0, [], pos)
  }

  lemma WholeRel(p: Parser, s: Stream, to: State, n: nat, pos: nat)
    requires (to == BD || to == CB) && p.meta == (if to == CB then CBD else BDY) && (to == BD ==> pos == s.index + n)
    requires Inv(WholeBody(p, to), BodyStream1(p, s, n, NoToken)) && Sound(AfterBody(p, to, pos))
    ensures Rel(WholeBody(p, to), BodyStream1(p, s, n, NoToken), AfterBody(p, to, pos))
  {
    hide Counted, Lengths, Coupled, Tokened, Sound;
  }

  lemma WholePending(p: Parser, to: State)
    requires to == BD || to == CB
    ensures Pending(WholeBody(p, to)) == if to == BD then [RequestEnd] else []
  {
  }

  lemma TokenState(r: Ref)
    requires r.Ref? && Sound(r)
    ensures r.typ == StartToken(r.p.state)
    ensures r.p.state == BD || r.p.state == CB ==> |r.text| == r.p.bodyConsumed
    ensures r.p.state == HN || r.p.state == CN ==> r.p.bodyConsumed == 0
    ensures InChunks(r.p.meta) || r.p.state == C2 || r.pos <= MAX_REQUEST_BUF_SIZE
  {
    hide Coupled;
  }

  // Where the text of a body in progress begins, and what it is n bytes further on.
  function BodyStart(r: Ref, to: State): int
    requires r.Ref?
  {
    if to == CB then 0 else if r.p.state != to then r.pos else r.start
  }

  function BodyBytes(r: Ref, bytes: seq<byte>, to: State): seq<byte>
    requires r.Ref?
  {
    if r.p.state != to then bytes else r.text + bytes
  }

  lemma WholeTake(r: Ref, bytes: seq<byte>, to: State)
    requires r.Ref? && (to == BD || to == CB) && 0 < BodyLeft(r) == |bytes| && r.p.meta == if to == CB then CBD else BDY
    requires r.p.state == to ==> |r.text| == r.p.bodyConsumed
    requires r.p.state != to ==> r.p.bodyConsumed == 0
    ensures BodyTake(r, bytes, to) ==
            (AfterBody(r.p, to, r.pos + |bytes|), WholePieces(r, bytes, to))
  {
  }

  // What comes out with the last of a body.
  function WholePieces(r: Ref, bytes: seq<byte>, to: State): seq<Piece>
    requires r.Ref?
  {
    if to == BD then [Piece(TBody, BodyStart(r, to), BodyBytes(r, bytes, to)), RequestEnd]
    else [Piece(TChunkBody, 0, BodyBytes(r, bytes, to))]
  }

  lemma Handing(t: Token, s: Stream, to: State)
    requires (to == BD || to == CB) && t.typ == StartToken(to)
    ensures Handed(t, s) == [Seen(t, s)]
    ensures to == BD ==> [Seen(t, s)] + [RequestEnd] == [Seen(t, s), RequestEnd]
    ensures [Seen(t, s)] + [] == [Seen(t, s)]
  {
  }

  lemma BodyPartRel(p: Parser, s: Stream, r: Ref, to: State)
    requires Rel(p, s, r) && r.Ref? && r.p == p && Carries(s, r) && s.index < s.length
    requires InBodyOf(r, to) && (to == BD || to == CB) && 0 < BodyLeft(r) && p.meta == if to == CB then CBD else BDY
    requires s.length < s.index + BodyLeft(r)
    requires var n := s.length - s.index;
             && Inv(PartBody(p, to, n), BodyStream1(p, s, n, BodyToken1(p, s, to, n)))
             && Sound(BodyTake(r, s.Unread()[..n], to).0)
    ensures var n := s.length - s.index;
            var (r1, out) := BodyTake(r, s.Unread()[..n], to);
            && Rel(PartBody(p, to, n), BodyStream1(p, s, n, BodyToken1(p, s, to, n)), r1)
            && out == [] == Pending(PartBody(p, to, n))
  {
    hide Coupled, Counted, Lengths, Tokened, BodyTake, BodyToken1, Raw, Pending, Sound, PartBody, Carries;
    var n := s.length - s.index;
    TokenState(r);
    PartTake(r, s.Unread()[..n], to);
    PartRel(p, s, r, to, n);
  }

  // The machine inside a body.
  function InsideBody(r: Ref, bytes: seq<byte>, to: State): Ref
    requires r.Ref?
  {
    Ref(PartBody(r.p, to, |bytes|), StartToken(to), BodyStart(r, to), BodyBytes(r, bytes, to), r.pos + |bytes|)
  }

  lemma PartTake(r: Ref, bytes: seq<byte>, to: State)
    requires r.Ref? && (to == BD || to == CB) && 0 < |bytes| < BodyLeft(r)
    requires r.p.state == to ==> |r.text| == r.p.bodyConsumed
    requires r.p.state != to ==> r.p.bodyConsumed == 0
    ensures BodyTake(r, bytes, to) == (InsideBody(r, bytes, to), [])
  {
  }

  lemma PartRel(p: Parser, s: Stream, r: Ref, to: State, n: nat)
    requires s.Wf() && r.Ref? && r.p == p && Carries(s, r) && n == s.length - s.index && 0 < n
    requires (to == BD || to == CB) && r.typ == StartToken(p.state) && (to == BD ==> s.index == r.pos)
    requires p.meta == if to == CB then CBD else BDY
    requires Inv(PartBody(p, to, n), BodyStream1(p, s, n, BodyToken1(p, s, to, n)))
    requires Sound(InsideBody(r, s.Unread()[..n], to))
    ensures Rel(PartBody(p, to, n), BodyStream1(p, s, n, BodyToken1(p, s, to, n)), InsideBody(r, s.Unread()[..n], to))
    ensures Pending(PartBody(p, to, n)) == []
  {
    hide Coupled, Counted, Lengths, Tokened, Sound, Carries;
    PartCarries(p, s, r, to, n);
    PartPending(p, to, n);
  }

  lemma PartPending(p: Parser, to: State, n: nat)
    requires (to == BD || to == CB) && p.meta == if to == CB then CBD else BDY
    ensures Pending(PartBody(p, to, n)) == []
  {
  }

  lemma PartCarries(p: Parser, s: Stream, r: Ref, to: State, n: nat)
    requires s.Wf() && r.Ref? && r.p == p && Carries(s, r) && n == s.length - s.index && 0 < n
    requires (to == BD || to == CB) && r.typ == StartToken(p.state) && (to == BD ==> s.index == r.pos)
    requires BodyStream1(p, s, n, BodyToken1(p, s, to, n)).Wf()
    ensures Carries(BodyStream1(p, s, n, BodyToken1(p, s, to, n)), InsideBody(r, s.Unread()[..n], to))
  {
    hide StartToken, PartBody;
    UnreadCut(s, n);
    BodyTyped(to);
    if p.state == to {
      LaterText(s, r, n);
    }
  }

  lemma BodyTyped(to: State)
    requires to == BD || to == CB
    ensures StartToken(to) == if to == BD then TBody else TChunkBody
  {
  }

  // The token in progress and n bytes more.
  lemma LaterText(s: Stream, r: Ref, n: nat)
    requires s.Wf() && r.Ref? && Carries(s, r) && r.typ != TNone && s.index + n <= |s.buf|
    ensures s.buf[s.token.index..s.index + n] == r.text + s.buf[s.index..s.index + n]
  {
    Join(s.buf, s.token.index, s.index, s.index + n);
  }

  /** The text of the token in progress, n bytes further on. */
  lemma BodyText(p: Parser, s: Stream, r: Ref, to: State, n: int)
    requires s.Wf() && r.Ref? && r.p == p && Carries(s, r) && 0 < n <= s.length - s.index
    requires (to == BD || to == CB) && r.typ == StartToken(p.state)
    requires to == BD ==> s.index == r.pos
    ensures BodyToken1(p, s, to, n).typ == StartToken(to)
    ensures var token := BodyToken1(p, s, to, n);
            Seen(token, s) == Piece(StartToken(to),
                                    if to == CB then 0 else if p.state != to then r.pos else r.start,
                                    if p.state != to then s.buf[s.index..s.index + n]
                                    else r.text + s.buf[s.index..s.index + n])
  {
    if p.state == to {
      Join(s.buf, s.token.index, s.index, s.index + n);
    }
  }

  lemma Join(buf: seq<byte>, i: int, j: int, k: int)
    requires 0 <= i <= j <= k <= |buf|
    ensures buf[i..k] == buf[i..j] + buf[j..k]
  {
  }

  /** RefStep, case by case, once it stays within the model. */
  lemma RefStepIs(r: Ref, c: byte)
    requires Sound(r) && r.Ref? && !RefStep(r, c).0.Beyond?
    ensures r.p.state != BR && r.p.meta != ERR
    ensures var p := r.p; var to := NextState(p.state, p.meta, c);
            && (to == BR || to == BD || to == CB || Leads(p.state, to))
            && (to == HV && p.meta == CLV ==> IsDigit(c))
            && (InChunks(p.meta) || r.pos < MAX_REQUEST_BUF_SIZE)
            && (to == BD || to == CB ==> InBodyOf(r, to) && 0 < BodyLeft(r) && RefStep(r, c) == BodyTake(r, [c], to))
            && (to == BR ==> RefStep(r, c) == (Failed, [ErrorPiece]))
            && (to != BR && to != BD && to != CB ==>
                  && Ready(Enter(p, to)) && (p.state == C2 || p.state == HN ==> p.meta == ZER)
                  && (to == HV && p.meta == CLV ==> IsDigit(c))
                  && RefStep(r, c) == ControlByte(r, c, to))
  {
    hide NextState, ControlByte, BodyTake, Leads;
    var p := r.p;
    var to := NextState(p.state, p.meta, c);
    EnterReady(p, c, to);
    NextLeads(p, c);
    AtChunk(p);
  }

  lemma StepLabel(p: Parser, s: Stream, to: State)
    requires Inv(p, s) && s.index < s.length && p.meta != SEN && p.meta != END
    requires to == NextState(p.state, p.meta, s.buf[s.index])
    requires to == HV && p.meta == CLV ==> IsDigit(s.buf[s.index])
    ensures p.meta != ERR && Ready(Enter(p, to))
    ensures Step(p, s) == Label(Enter(p, to), EnterStream(s.(consumed := false), p.state, to), p.state, s.buf[s.index])
  {
    hide Coupled, Tokened, NextState, Label, Enter, EnterStream;
    EnterReady(p, s.buf[s.index], to);
  }

  lemma ChunkNext(c: byte, meta: Meta)
    ensures NextState(CN, meta, c) == CB
  {
  }

  lemma ErrorRel(p: Parser, s: Stream, r: Ref)
    requires Rel(p, s, r) && r.Ref? && r.p == p && Pending(p) == [] && s.index < s.length && p.meta != END
    requires NextState(p.state, p.meta, s.buf[s.index]) == BR
    ensures Matches(p, s, Step(p, s), 1, Failed, [ErrorPiece])
  {
    hide Coupled, Tokened, NextState, Label, Enter, EnterStream;
    EnterReady(p, s.buf[s.index], BR);
    StepLabel(p, s, BR);
    ErrorLabel(p, s.(consumed := false), s.buf[s.index]);
    assert [] + [ErrorPiece] == [ErrorPiece];
  }

  /** One iteration of http_parse against the bytes it consumes. */
  lemma StepRel(p: Parser, s: Stream, r: Ref) returns (n: nat)
    requires Rel(p, s, r) && r.Ref? && s.index < s.length && p.meta != END
    requires !RefRun(r, s.Unread()).0.Beyond?
    ensures n <= |s.Unread()| && Sound(r)
    ensures var (r1, out) := RefRun(r, s.Unread()[..n]); Matches(p, s, Step(p, s), n, r1, out)
  {
    hide Coupled, Counted, Tokened, Label, Enter, EnterStream, RefStep, ControlByte, BodyTake, Raw, NextState, Step;
    var bytes := s.Unread();
    var c := s.buf[s.index];
    var s0 := s.(consumed := false);
    assert Rel(p, s0, r) by { FlagRel(p, s, r); }
    if p.state == CN && p.contentLength == 0 {
      n := 0;
      ChunkNext(c, p.meta);
      StepLabel(p, s, CB);
      ZeroChunkRel(p, s0, r, c);
    } else {
      PrefixWithin(r, bytes, 1);
      assert bytes[..1] == [c];
      OneByte(r, c);
      RefStepIs(r, c);
      var to := NextState(p.state, p.meta, c);
      StepLabel(p, s, to);
      if to == BD || to == CB {
        n := HeldOfBody(s0, r);
        RefRunSound(r, bytes[..n]);
        BodyRun(r, bytes[..n], to);
        BodyRel(p, s0, r, to, c);
      } else {
        n := 1;
        if to == BR {
          ErrorRel(p, s, r);
        } else {
          ControlRel(p, s0, r, to);
        }
      }
    }
  }

  lemma OneByte(r: Ref, c: byte)
    requires Sound(r)
    ensures RefRun(r, [c]) == RefStep(r, c)
  {
    hide RefStep, Sound;
    RefStepSound(r, c);
    var (r1, out) := RefStep(r, c);
    assert [c][1..] == [] && out + [] == out;
  }

  lemma FlagRel(p: Parser, s: Stream, r: Ref)
    requires Rel(p, s, r)
    ensures Rel(p, s.(consumed := false), r)
  {
    hide Coupled, Counted, Sound;
  }

  // ---- one call ----

  ghost predicate LoopMatches(p: Parser, s: Stream, res: Result, n: int, r1: Ref, out: seq<Piece>) {
    && Matches(p, s, res, n, r1, out)
    && (res.token.typ == TNone ==> res.stream.index == res.stream.length && (res.parser.meta == END ==> res.parser.state == C2))
  }

  lemma LoopAtEnd(p: Parser, s: Stream)
    requires Inv(p, s) && (p.meta == SEN || p.meta == END ==> p.state == C2) && s.index == s.length
    ensures Loop(p, s) == Ok(NoToken, p, s.(consumed := false))
  {
  }

  lemma LoopUnroll(p: Parser, s: Stream)
    requires Inv(p, s) && (p.meta == SEN || p.meta == END ==> p.state == C2) && s.index < s.length
    ensures var res := Step(p, s);
            if res.Ok? && res.token.typ == TNone then
              Inv(res.parser, res.stream) && s.index < res.stream.index && res.stream.length == s.length
              && (res.parser.meta == SEN || res.parser.meta == END ==> res.parser.state == C2)
              && Loop(p, s) == Loop(res.parser, res.stream)
            else Loop(p, s) == res
  {
    hide Coupled, Counted, Tokened, Step;
    StepKeepsInv(p, s);
  }

  lemma MatchesJoin(p: Parser, s: Stream, res: Result, m: int, r1: Ref, out1: seq<Piece>,
                    res2: Result, k: int, r2: Ref, out2: seq<Piece>)
    requires Matches(p, s, res, m, r1, out1) && res.token.typ == TNone
    requires LoopMatches(res.parser, res.stream, res2, k, r2, out2)
    ensures LoopMatches(p, s, res2, m + k, r2, out1 + out2)
  {
    hide Rel;
    assert Pending(p) + (out1 + out2) == (Pending(p) + out1) + out2;
    assert Pending(p) + out1 == Pending(res.parser);
  }

  ghost predicate Unrolled(p: Parser, s: Stream, res: Result)
    requires Inv(p, s) && (p.meta == SEN || p.meta == END ==> p.state == C2)
  {
    && res.Ok? && Inv(res.parser, res.stream) && s.index < res.stream.index
    && (res.parser.meta == SEN || res.parser.meta == END ==> res.parser.state == C2)
    && Loop(p, s) == Loop(res.parser, res.stream)
  }

  lemma LoopJoin(p: Parser, s: Stream, r: Ref, m: nat, k: nat)
    requires Inv(p, s) && (p.meta == SEN || p.meta == END ==> p.state == C2) && s.index < s.length
    requires Sound(r) && m + k <= |s.Unread()| && Sound(RefRun(r, s.Unread()[..m]).0)
    requires var res := Step(p, s); var (r1, out1) := RefRun(r, s.Unread()[..m]);
             && Matches(p, s, res, m, r1, out1) && res.token.typ == TNone && Unrolled(p, s, res)
             && var (r2, out2) := RefRun(r1, s.Unread()[m..][..k]);
                LoopMatches(res.parser, res.stream, Loop(p, s), k, r2, out2)
    ensures var (r2, out) := RefRun(r, s.Unread()[..m + k]); LoopMatches(p, s, Loop(p, s), m + k, r2, out)
  {
    hide Coupled, Counted, Tokened, Sound, Rel, LoopMatches, Matches, Step, RefStep, Loop;
    var bytes := s.Unread();
    assert bytes[..m + k] == bytes[..m] + bytes[m..][..k];
    RunSplit(r, bytes[..m], bytes[m..][..k]);
    var (r1, out1) := RefRun(r, bytes[..m]);
    var (r2, out2) := RefRun(r1, bytes[m..][..k]);
    MatchesJoin(p, s, Step(p, s), m, r1, out1, Loop(p, s), k, r2, out2);
  }

  lemma RelFacts(p: Parser, s: Stream, r: Ref)
    requires Rel(p, s, r)
    ensures Inv(p, s) && Sound(r) && p.meta != SEN && (r.Ref? || r.Done?)
    ensures r.Done? && s.index < s.length ==> p.meta == END
  {
  }

  /** The first iteration of the loop, and where it leaves the rest. */
  lemma LoopFirst(p: Parser, s: Stream, r: Ref) returns (m: nat)
    requires Rel(p, s, r) && (p.meta == END ==> p.state == C2) && Inv(p, s) && Sound(r) && p.meta != SEN && s.index < s.length
    requires !RefRun(r, s.Unread()).0.Beyond?
    ensures m <= |s.Unread()|
    ensures var (r1, out1) := RefRun(r, s.Unread()[..m]);
            var res := Step(p, s);
            && res.Ok? && Sound(r1) && Matches(p, s, res, m, r1, out1)
            && if res.token.typ == TNone then Unrolled(p, s, res) else LoopMatches(p, s, Loop(p, s), m, r1, out1)
  {
    hide Coupled, Counted, Tokened, Sound, Rel, LoopMatches, Step, RefStep, Loop;
    RelFacts(p, s, r);
    Sticky(r, s.Unread());
    LoopUnroll(p, s);
    if p.meta == END {
      C2Ends(p, s, r);
    }
    m := StepRel(p, s, r);
    RefRunSound(r, s.Unread()[..m]);
    var (r1, out1) := RefRun(r, s.Unread()[..m]);
    var res := Step(p, s);
    if res.token.typ == TNone {
      RelFacts(res.parser, res.stream, r1);
    } else {
      MatchesStop(p, s, res, m, r1, out1);
    }
  }

  lemma LoopNext(p: Parser, s: Stream, r: Ref, m: nat)
    requires Inv(p, s) && (p.meta == SEN || p.meta == END ==> p.state == C2) && Sound(r) && m <= |s.Unread()| && s.index < s.length
    requires !RefRun(r, s.Unread()).0.Beyond? && Step(p, s).Ok? && Step(p, s).token.typ == TNone
    requires var (r1, out1) := RefRun(r, s.Unread()[..m]); Matches(p, s, Step(p, s), m, r1, out1)
    requires Unrolled(p, s, Step(p, s))
    ensures var res := Step(p, s); var r1 := RefRun(r, s.Unread()[..m]).0;
            && Rel(res.parser, res.stream, r1) && Inv(res.parser, res.stream) && Sound(r1)
            && res.stream.Unread() == s.Unread()[m..] && !RefRun(r1, res.stream.Unread()).0.Beyond?
            && Loop(p, s) == Loop(res.parser, res.stream)
            && res.stream.length - res.stream.index < s.length - s.index
            && (res.parser.meta == END ==> res.parser.state == C2)
  {
    hide Coupled, Counted, Tokened, Sound, Rel, Step, RefStep, Loop;
    PrefixWithin(r, s.Unread(), m);
    assert Step(p, s).stream.Unread() == s.Unread()[m..];
  }

  lemma RunNothing(r: Ref)
    requires Sound(r)
    ensures RefRun(r, []) == (r, [])
  {
  }

  /** The loop of http_parse against the bytes it consumes. */
  lemma LoopRel(p: Parser, s: Stream, r: Ref) returns (n: nat)
    requires Rel(p, s, r) && (p.meta == END ==> p.state == C2) && Inv(p, s) && Sound(r)
    requires !RefRun(r, s.Unread()).0.Beyond?
    ensures n <= |s.Unread()|
    ensures var (r1, out) := RefRun(r, s.Unread()[..n]); LoopMatches(p, s, Loop(p, s), n, r1, out)
    decreases s.length - s.index
  {
    hide Coupled, Counted, Tokened, Sound, Rel, LoopMatches, Step, RefStep, Loop, Unrolled, Matches, RefRun;
    RelFacts(p, s, r);
    var bytes := s.Unread();
    if s.index == s.length {
      n := 0;
      LoopEndRel(p, s, r);
      assert RefRun(r, bytes[..0]) == (r, []) by { RunNothing(r); }
    } else {
      var m := LoopFirst(p, s, r);
      n := m;
      var res := Step(p, s);
      if res.token.typ == TNone {
        LoopNext(p, s, r, m);
        var k := LoopRel(res.parser, res.stream, RefRun(r, bytes[..m]).0);
        n := m + k;
        LoopJoin(p, s, r, m, k);
      }
    }
  }

  lemma C2Ends(p: Parser, s: Stream, r: Ref)
    requires Rel(p, s, r) && p.meta == END && p.state == C2
    ensures r.Done?
  {
  }

  lemma LoopEndRel(p: Parser, s: Stream, r: Ref)
    requires Rel(p, s, r) && (p.meta == END ==> p.state == C2) && Inv(p, s) && s.index == s.length
    ensures LoopMatches(p, s, Loop(p, s), 0, r, [])
  {
    hide Coupled, Counted, Tokened, Sound, Carries;
    LoopAtEnd(p, s);
    FlagRel(p, s, r);
    assert Pending(p) + [] == [] + Pending(p);
  }

  lemma MatchesStop(p: Parser, s: Stream, res: Result, n: int, r1: Ref, out: seq<Piece>)
    requires Matches(p, s, res, n, r1, out) && res.token.typ != TNone
    ensures LoopMatches(p, s, res, n, r1, out)
  {
    hide Rel;
  }

  // What a call leaves and hands out, against the bytes it consumes.
  ghost predicate ParseMatches(p: Parser, s: Stream, res: Result, n: nat, r1: Ref, out: seq<Piece>)
    requires s.Wf()
  {
    && res.Ok?
    && if res.token.typ == TError then
         || (r1.Failed? && Pending(p) + out == [ErrorPiece])
         || (Overlong(r1) && n == |s.Unread()| && Pending(p) + out == [])
       else
         && Rel(res.parser, res.stream, r1)
         && n <= |s.Unread()| && res.stream.Unread() == s.Unread()[n..]
         && Pending(p) + out == Handed(res.token, res.stream) + Pending(res.parser)
         && (res.token.typ == TNone ==>
               res.stream.index == res.stream.length && res.parser.meta != END && !TooLong(res.stream.token))
  }

  /** Handing out the end of the request. */
  lemma FlushRel(p: Parser, s: Stream, r: Ref)
    requires Rel(p, s, r) && p.meta == END && (r.Done? ==> s.index == s.length)
    ensures Rel(FreshParser, s, r) && Pending(p) == [RequestEnd]
  {
    AtEnd(p);
  }

  lemma AtEnd(p: Parser)
    requires Coupled(p.state, p.meta) && p.meta == END
    ensures p.state == HN || p.state == BD || p.state == C2
  {
  }

  /** The shift of a partial chunk. */
  lemma ShiftRel(p: Parser, s: Stream, r: Ref)
    requires Rel(p, s, r) && p.state == CB && s.index == s.length
    ensures Shiftable(s) && Rel(p, Shift(s), r) && Shift(s).index == Shift(s).length
    ensures Shift(s).buf[..s.anchor] == s.buf[..s.anchor]
  {
    hide Coupled, Counted, Sound;
    assert p.meta == CBD by { AtChunkCB(p, s); }
    ShiftKeepsText(s);
  }

  lemma AtChunkCB(p: Parser, s: Stream)
    requires Inv(p, s) && p.state == CB
    ensures p.meta == CBD
  {
  }

  /** The code sees the length of the token in progress that the machine holds. */
  lemma TokenLength(p: Parser, s: Stream, r: Ref)
    requires Rel(p, s, r)
    ensures TooLong(s.token) <==> Overlong(r)
    ensures Overlong(r) ==> Pending(p) == [] && p.state != CB
  {
    hide Counted;
  }

  /** The part of http_parse after its loop has used up the input. */
  lemma TailRel(p: Parser, s: Stream, r: Ref)
    requires Rel(p, s, r) && s.index == s.length && (p.meta == END ==> p.state == C2)
    ensures p.state == CB ==> Shiftable(s)
    ensures var s1 := if p.state == CB then Shift(s) else s;
            var (t, p1) := MetaEmit(p);
            && s1.Wf() && s1.index == s1.length
            && (TooLong(s1.token) <==> Overlong(r)) && (Overlong(r) ==> Pending(p) == [])
            && Rel(p1, s1, r) && p1.meta != END && t.typ != TError
            && Pending(p) == Handed(t, s1) + Pending(p1)
  {
    hide Coupled, Counted, Tokened, Sound, Carries, Shift;
    TokenLength(p, s, r);
    if p.state == CB {
      ShiftRel(p, s, r);
      TokenLength(p, Shift(s), r);
    } else if p.meta == END {
      FlushRel(p, s, r);
    }
  }

  /** http_parse when nothing is pending, given what its loop did. */
  lemma ParseOfLoop(p: Parser, s: Stream, n: nat, r1: Ref, out: seq<Piece>)
    requires Inv(p, s) && p.meta != END && p.meta != SEN && n <= |s.Unread()|
    requires LoopMatches(p, s, Loop(p, s), n, r1, out)
    ensures ParseMatches(p, s, Parse(p, s), n, r1, out)
  {
    hide Coupled, Counted, Tokened, Sound, Carries, Loop, Shift, Rel, Parse, ParseMatches, Handed, Pending;
    if Loop(p, s).token.typ == TNone {
      QuietLoop(p, s, n, r1, out);
    } else {
      TokenLoop(p, s, n, r1, out);
    }
  }

  lemma TokenLoop(p: Parser, s: Stream, n: nat, r1: Ref, out: seq<Piece>)
    requires Inv(p, s) && p.meta != END && p.meta != SEN && n <= |s.Unread()|
    requires LoopMatches(p, s, Loop(p, s), n, r1, out) && Loop(p, s).token.typ != TNone
    ensures ParseMatches(p, s, Parse(p, s), n, r1, out)
  {
    hide Coupled, Counted, Tokened, Sound, Loop, Shift, Rel, Handed, Pending;
    LoopKeepsInv(p, s);
    var res := Loop(p, s);
    if res.token.typ != TError {
      RelFacts(res.parser, res.stream, r1);
      assert res.stream.Unread() == s.Unread()[n..];
    }
  }

  lemma QuietLoop(p: Parser, s: Stream, n: nat, r1: Ref, out: seq<Piece>)
    requires Inv(p, s) && p.meta != END && p.meta != SEN && n <= |s.Unread()|
    requires LoopMatches(p, s, Loop(p, s), n, r1, out) && Loop(p, s).token.typ == TNone
    ensures ParseMatches(p, s, Parse(p, s), n, r1, out)
  {
    hide Coupled, Counted, Tokened, Sound, Loop, Shift, Rel, Pending;
    LoopKeepsInv(p, s);
    var res := Loop(p, s);
    RelFacts(res.parser, res.stream, r1);
    assert n == |s.Unread()| && s.Unread()[n..] == [];
    TailRel(res.parser, res.stream, r1);
    assert [] + Pending(res.parser) == Pending(res.parser);
  }

  /** http_parse against the bytes it consumes. */
  lemma ParseRel(p: Parser, s: Stream, r: Ref) returns (n: nat)
    requires Rel(p, s, r) && Inv(p, s) && Sound(r) && !RefRun(r, s.Unread()).0.Beyond?
    ensures n <= |s.Unread()|
    ensures var (r1, out) := RefRun(r, s.Unread()[..n]); ParseMatches(p, s, Parse(p, s), n, r1, out)
  {
    hide Coupled, Counted, Tokened, Sound, Carries, Loop, Parse, Rel, LoopMatches, ParseMatches;
    var bytes := s.Unread();
    RelFacts(p, s, r);
    if p.meta == END {
      n := 0;
      Sticky(r, bytes);
      ParseFlush(p, s, r);
    } else {
      n := LoopRel(p, s, r);
      var (r1, out) := RefRun(r, bytes[..n]);
      ParseOfLoop(p, s, n, r1, out);
    }
  }

  lemma ParseFlush(p: Parser, s: Stream, r: Ref)
    requires Rel(p, s, r) && Inv(p, s) && Sound(r) && p.meta == END && (r.Done? ==> s.index == s.length)
    ensures ParseMatches(p, s, Parse(p, s), 0, RefRun(r, []).0, RefRun(r, []).1)
    ensures s.Unread()[..0] == []
  {
    hide Coupled, Counted, Tokened, Sound, Carries, Loop, Rel;
    assert s.Unread()[0..] == s.Unread();
    FlushRel(p, s, r);
  }
}
