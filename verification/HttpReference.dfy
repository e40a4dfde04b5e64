/** The reference machine: the parser's control run one byte at a time, with the
    text of each token in hand. It has no buffer, no jumps and no shifts, and it
    never sees how the bytes were cut into reads. */
module HttpReference {
  import opened HttpTables
  import opened HttpParser

  /** A token as the application reads it. start is its offset in the request;
      chunk tokens and tokens without text carry 0. */
  datatype Piece = Piece(typ: TokenType, start: int, text: seq<byte>)

  const RequestEnd := Piece(TReqEnd, 0, [])
  const EmptyChunk := Piece(TChunkBody, 0, [])
  const NoBody := Piece(TBody, 0, [])
  const StreamSignal := Piece(TBodyStream, 0, [])
  const ErrorPiece := Piece(TError, 0, [])

  datatype Ref =
    | Ref(p: Parser, typ: TokenType, start: int, text: seq<byte>, pos: nat)
    | Done         // a chunked request is complete
    | Failed       // an error token came out
    | Beyond(why: Reason)

  const Start := Ref(FreshParser, TNone, 0, [], 0)

  predicate Textual(typ: TokenType) {
    typ != TNone && typ != TBody && typ != TChunkBody
  }

  /** The machine inside a token that a read must not cut off here. */
  predicate Overlong(r: Ref) {
    r.Ref? && Textual(r.typ) && |r.text| > MAX_TOKEN_LENGTH
  }

  /** A state between two bytes. */
  ghost predicate Sound(r: Ref) {
    r.Ref? ==>
      && Raw(r) && r.p.meta != END
      && !(r.p.state == BD && r.p.meta == STR)
      && (r.p.state == CN || r.p.state == CB ==> 0 < r.p.contentLength <= INT_MAX - MAX_REQUEST_BUF_SIZE)
  }

  /** The same before Settle has looked at it. */
  ghost predicate Raw(r: Ref)
    requires r.Ref?
  {
    && Coupled(r.p.state, r.p.meta) && Counted(r.p) && r.p.meta != SEN
    && r.typ == StartToken(r.p.state)
    && (r.typ == TNone ==> r.text == [])
    && (r.p.state == BD || r.p.state == CB ==> |r.text| == r.p.bodyConsumed)
    && (!InChunks(r.p.meta) && r.p.state != C2 ==> r.pos <= MAX_REQUEST_BUF_SIZE)
  }

  predicate InChunks(meta: Meta) {
    meta == ZER || meta == CSZ || meta == CBD || meta == LST
  }

  // The offset hs_stream_can_contain sees; it asks only before the body.
  function Offset(r: Ref): int
    requires r.Ref?
  {
    if InChunks(r.p.meta) then 0 else r.pos
  }

  /** Some bytes of a small body or of a chunk, at most what is left of it. */
  function BodyTake(r: Ref, bytes: seq<byte>, to: State): (Ref, seq<Piece>)
    requires r.Ref?
  {
    var entering := r.p.state != to;
    var start := if to == CB then 0 else if entering then r.pos else r.start;
    var text := if entering then bytes else r.text + bytes;
    var p := r.p.(state := to, matchIndex := if entering then 0 else r.p.matchIndex);
    if |text| < r.p.contentLength then
      (Ref(p.(bodyConsumed := |text|), StartToken(to), start, text, r.pos + |bytes|), [])
    else if to == BD then
      (Ref(FreshParser, TNone, 0, [], r.pos + |bytes|), [Piece(TBody, start, text), RequestEnd])
    else
      (Ref(p.(state := CD, contentLength := 0, bodyConsumed := 0), TNone, 0, [], r.pos + |bytes|),
       [Piece(TChunkBody, 0, text)])
  }

  /** The token in progress after a byte outside the bodies. */
  function Extend(r: Ref, p: Parser, c: byte): (x: Ref)
    requires r.Ref?
    ensures x.Ref? && x.p == p && x.pos == r.pos + 1
  {
    if StartToken(p.state) == TNone then Ref(p, TNone, 0, [], r.pos + 1)
    else if r.p.state == p.state then Ref(p, r.typ, r.start, r.text + [c], r.pos + 1)
    else Ref(p, StartToken(p.state), r.pos, [c], r.pos + 1)
  }

  /** What happens at once when a state is reached, before the next byte. */
  function Settle(r: Ref, entering: bool): (Ref, seq<Piece>)
    requires r.Ref?
  {
    if Signal(r.p, entering) == TError then (Failed, [ErrorPiece])
    else if r.p.state == HN && r.p.meta == END then
      (Ref(FreshParser, TNone, 0, [], r.pos), [NoBody, RequestEnd])
    else if r.p.state == HN && Signal(r.p, true) == TBodyStream then (r, [StreamSignal])
    else if r.p.state == CN && r.p.contentLength > INT_MAX - MAX_REQUEST_BUF_SIZE then (Beyond(LengthOverflow), [])
    else if r.p.state == CN && r.p.contentLength == 0 then
      (r.(p := r.p.(state := CD, matchIndex := 0)), [EmptyChunk])
    else if r.p.state == C2 && r.p.meta == END then (Done, [RequestEnd])
    else (r, [])
  }

  /** One byte. */
  function RefStep(r: Ref, c: byte): (Ref, seq<Piece>)
    requires Sound(r)
  {
    match r
    case Done => (Beyond(AfterLastChunk), [])
    case Failed => (r, [])
    case Beyond(_) => (r, [])
    case Ref(p, typ, start, text, pos) =>
      var to := NextState(p.state, p.meta, c);
      EnterReady(p, c, to);
      NextLeads(p, c);
      if !InChunks(p.meta) && pos >= MAX_REQUEST_BUF_SIZE then (Beyond(BufferFull), [])
      else if to == BD || to == CB then
        if p.meta == STR then (Beyond(Streamed), []) else BodyTake(r, [c], to)
      else if to == HV && p.meta == CLV && !IsDigit(c) then (Beyond(NotADigit), [])
      else if to == BR then (Failed, [ErrorPiece])
      else ControlByte(r, c, to)
  }

  /** One byte outside the bodies. */
  function ControlByte(r: Ref, c: byte, to: State): (Ref, seq<Piece>)
    requires r.Ref? && r.p.meta != ERR && Ready(Enter(r.p, to)) && to != BD && to != CB && to != BR
  {
    var q := Act(Enter(r.p, to), c, Offset(r));
    if !InRange(q) then (Beyond(LengthOverflow), [])
    else
      var out := if Emits(r.p.state, to) then [Piece(r.typ, r.start, r.text)] else [];
      var (r1, more) := Settle(Extend(r, q, c), r.p.state != to);
      (r1, out + more)
  }

  lemma BodyByteSound(r: Ref, c: byte, to: State)
    requires Sound(r) && r.Ref? && (to == BD || to == CB) && AtBody(Enter(r.p, to)) && r.p.meta != STR
    requires if to == BD then r.p.state == HN || r.p.state == BD else r.p.state == CN || r.p.state == CB
    requires !InChunks(r.p.meta) ==> r.pos < MAX_REQUEST_BUF_SIZE
    ensures Sound(BodyTake(r, [c], to).0)
  {
    if to == BD {
      SmallBodyByte(r, c);
    } else {
      ChunkBodyByte(r, c);
    }
    hide Sound, BodyTake;
  }

  lemma SmallBodyByte(r: Ref, c: byte)
    requires Sound(r) && r.Ref? && AtBody(Enter(r.p, BD)) && r.p.meta != STR && (r.p.state == HN || r.p.state == BD)
    requires r.pos < MAX_REQUEST_BUF_SIZE
    ensures Sound(BodyTake(r, [c], BD).0)
  {
    assert r.p.meta == BDY;
  }

  lemma ChunkBodyByte(r: Ref, c: byte)
    requires Sound(r) && r.Ref? && AtBody(Enter(r.p, CB)) && (r.p.state == CN || r.p.state == CB)
    ensures Sound(BodyTake(r, [c], CB).0)
  {
    assert r.p.meta == CBD;
  }

  lemma ExtendRaw(r: Ref, q: Parser, c: byte)
    requires Sound(r) && r.Ref? && q.state != BD && q.state != CB
    requires Coupled(q.state, q.meta) && Counted(q) && q.meta != SEN
    requires !InChunks(q.meta) && q.state != C2 ==> r.pos < MAX_REQUEST_BUF_SIZE
    ensures Raw(Extend(r, q, c)) && Extend(r, q, c).p == q
  {
    hide Coupled, Counted, StartToken, InChunks;
  }

  lemma SettleSound(r: Ref, entering: bool)
    requires r.Ref? && Raw(r) && r.p.state != BD && r.p.state != CB
    requires r.p.meta == END ==> r.p.state == HN || r.p.state == C2
    ensures Sound(Settle(r, entering).0)
  {
  }

  lemma ChunksLeadToChunks(p: Parser, q: Parser)
    requires Coupled(p.state, p.meta) && Coupled(q.state, q.meta) && Leads(p.state, q.state)
    ensures InChunks(p.meta) && q.state != C2 ==> InChunks(q.meta)
  {
  }

  lemma ControlByteSound(r: Ref, c: byte, to: State)
    requires Sound(r) && r.Ref? && Leads(r.p.state, to) && r.p.meta != ERR && Ready(Enter(r.p, to))
    requires r.p.state == C2 || r.p.state == HN ==> r.p.meta == ZER
    requires to == HV && r.p.meta == CLV ==> IsDigit(c)
    requires to != BD && to != CB && to != BR
    requires !InChunks(r.p.meta) ==> r.pos < MAX_REQUEST_BUF_SIZE
    ensures Sound(ControlByte(r, c, to).0)
  {
    hide Coupled, Counted, Leads, Act, Enter, Settle, Extend;
    ControlKeepsParser(r.p, c, to, Offset(r));
    var q := Act(Enter(r.p, to), c, Offset(r));
    if InRange(q) {
      ChunksLeadToChunks(r.p, q);
      ExtendRaw(r, q, c);
      SettleSound(Extend(r, q, c), r.p.state != to);
    }
  }

  lemma RefStepSound(r: Ref, c: byte)
    requires Sound(r)
    ensures Sound(RefStep(r, c).0)
  {
    hide BodyTake, ControlByte, NextState, Lengths;
    if r.Ref? {
      var p := r.p;
      var to := NextState(p.state, p.meta, c);
      EnterReady(p, c, to);
      NextLeads(p, c);
      if InChunks(p.meta) || r.pos < MAX_REQUEST_BUF_SIZE {
        if to == BD || to == CB {
          if p.meta != STR {
            BodyByteSound(r, c, to);
          }
        } else if to != BR && !(to == HV && p.meta == CLV && !IsDigit(c)) {
          ControlByteSound(r, c, to);
        }
      }
    }
  }

  /** The whole run over some bytes. */
  function RefRun(r: Ref, bytes: seq<byte>): (Ref, seq<Piece>)
    requires Sound(r)
    decreases |bytes|
  {
    hide Sound, RefStep;
    if bytes == [] then (r, [])
    else
      var (r1, out1) := RefStep(r, bytes[0]);
      RefStepSound(r, bytes[0]);
      var (r2, out2) := RefRun(r1, bytes[1..]);
      (r2, out1 + out2)
  }

  lemma RefRunSound(r: Ref, bytes: seq<byte>)
    requires Sound(r)
    ensures Sound(RefRun(r, bytes).0)
    decreases |bytes|
  {
    hide Sound, RefStep;
    if bytes != [] {
      RefStepSound(r, bytes[0]);
      RefRunSound(RefStep(r, bytes[0]).0, bytes[1..]);
    }
  }
}
