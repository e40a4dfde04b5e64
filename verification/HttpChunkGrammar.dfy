/** The other half of section 4.1 of RFC 7230: a chunked body is complete only if
    it is a list of chunks and a last chunk, but for its first byte, which the
    parser does not check. */
module HttpChunkGrammar {
  import opened HttpAlphabet
  import opened HttpTables
  import opened HttpParser
  import opened HttpStream
  import opened HttpReference
  import opened HttpRefinement
  import opened HttpCalls
  import opened HttpLimits
  import opened HttpSession
  import opened HttpSplits
  import opened HttpGrammar
  import opened HttpChunks

  /** The chunks read in full, and what has been read of the current one. */
  datatype BodySoFar = BodySoFar(done: seq<Chunk>, size: seq<byte>, ext: seq<byte>, data: seq<byte>)

  predicate AllGood(ks: seq<Chunk>) { forall i :: 0 <= i < |ks| ==> GoodChunk(ks[i]) }

  function Entry(count: nat, from: State, pos: nat): Ref {
    Between(ChunkParser(from, count, ZER, 0), pos)
  }

  /** A size whose first byte may be anything. A byte that is no digit adds
      nothing to it, but it is not the size of a last chunk. */
  predicate LaxSize(s: seq<byte>) { s != [] && All(s[1..], IsHex) }

  function Value(s: seq<byte>): int {
    if s != [] && !IsHex(s[0]) then HexNumber(s[1..]) else HexNumber(s)
  }

  function Mark(s: seq<byte>): Meta {
    if s != [] && !IsHex(s[0]) then CSZ else SizeMeta(s)
  }

  predicate LaxChunk(k: Chunk) {
    && LaxSize(k.size) && GoodExt(k.ext)
    && Value(k.size) == |k.data| <= INT_MAX - MAX_REQUEST_BUF_SIZE
    && (IsHex(k.size[0]) ==> 0 < |k.data|)
  }

  // Chunks of which only the first may be lax.
  predicate LaxChunks(ks: seq<Chunk>) {
    forall i :: 0 <= i < |ks| ==> LaxChunk(ks[i]) && (i > 0 ==> IsHex(ks[i].size[0]))
  }

  lemma HexSize(s: seq<byte>)
    requires LaxSize(s) && IsHex(s[0])
    ensures All(s, IsHex) && Value(s) == HexNumber(s) && Mark(s) == SizeMeta(s)
  {
  }

  lemma StrictChunk(k: Chunk)
    ensures LaxChunk(k) && IsHex(k.size[0]) <==> GoodChunk(k)
  {
    SizeNumeral(k.size, |k.data|);
    if k.size != [] {
      assert All(k.size, IsHex) <==> All(k.size[1..], IsHex) && IsHex(k.size[0]) by {
        assert k.size == [k.size[0]] + k.size[1..];
      }
      hide HexNumber, IsHex, GoodExt, Numeral;
    }
  }

  /** A lax chunk is a good one, or has its number behind a byte that is no digit;
      with no digits there it has no data. */
  lemma LaxIs(k: Chunk)
    ensures LaxChunk(k) <==>
              || GoodChunk(k)
              || (&& k.size != [] && (forall v :: 0 <= v < 16 ==> !Folds(k.size[0], "0123456789abcdef"[v]))
                  && (if |k.size| == 1 then k.data == [] else Numeral(k.size[1..], |k.data|, "0123456789abcdef"))
                  && GoodExt(k.ext) && |k.data| <= INT_MAX - MAX_REQUEST_BUF_SIZE)
  {
    StrictChunk(k);
    if k.size != [] {
      HexOnly(k.size[0]);
      SizeNumeral(k.size[1..], |k.data|);
      assert HexNumber([]) == 0;
      assert |k.size| == 1 <==> k.size[1..] == [];
    }
    hide Folds, Numeral, HexNumber, HexValue, GoodChunk, GoodExt;
  }

  function Sized(g: BodySoFar): seq<byte> { PrintChunks(g.done) + g.size }

  predicate SizeRead(g: BodySoFar) {
    LaxChunks(g.done) && LaxSize(g.size) && (g.done != [] ==> IsHex(g.size[0])) && Value(g.size) <= INT64_MAX
  }

  function Kind(g: BodySoFar): Meta { if Mark(g.size) == ZER then LST else CBD }

  function Headed(g: BodySoFar): seq<byte> { Sized(g) + g.ext + CRLF }

  predicate HeadDone(g: BodySoFar) {
    SizeRead(g) && GoodExt(g.ext) && 0 <= Value(g.size) <= INT_MAX - MAX_REQUEST_BUF_SIZE
  }

  // The machine at the end of a size line.
  function LineDone(g: BodySoFar, count: nat, pos: nat): Ref {
    Between(ChunkParser(CN, count, CBD, Value(g.size)), pos)
  }

  // The bytes read so far in each state, and the machine they have led to.

  ghost predicate AtFirstSize(g: BodySoFar, from: State, count: nat, at: nat, bytes: seq<byte>, r: Ref) {
    r.Ref? && r.p.state == from && bytes == [] && g.done == [] && (from == HN || from == C2) && r == Entry(count, from, at)
  }

  ghost predicate AtNext(g: BodySoFar, count: nat, at: nat, bytes: seq<byte>, r: Ref) {
    && r.Ref? && r.p.state == C2
    && bytes == PrintChunks(g.done) && LaxChunks(g.done) && r == Entry(count, C2, at)
  }

  ghost predicate AtSize(g: BodySoFar, count: nat, at: nat, bytes: seq<byte>, r: Ref) {
    && r.Ref? && r.p.state == CS
    && SizeRead(g) && bytes == Sized(g)
    && r == Between(ChunkParser(CS, count, Mark(g.size), Value(g.size)), at)
  }

  ghost predicate AtExt(g: BodySoFar, count: nat, at: nat, bytes: seq<byte>, r: Ref) {
    && r.Ref? && r.p.state == CE
    && SizeRead(g) && g.ext != [] && GoodExt(g.ext) && bytes == Sized(g) + g.ext
    && r == Between(ChunkParser(CE, count, Kind(g), Value(g.size)), at)
  }

  ghost predicate AtLine(g: BodySoFar, count: nat, at: nat, bytes: seq<byte>, r: Ref) {
    && r.Ref? && r.p.state == CR
    && SizeRead(g) && GoodExt(g.ext) && bytes == Sized(g) + g.ext + [13]
    && r == Between(ChunkParser(CR, count, Kind(g), Value(g.size)), at)
  }

  ghost predicate AtData(g: BodySoFar, count: nat, at: nat, bytes: seq<byte>, r: Ref) {
    && r.Ref? && r.p.state == CN
    && HeadDone(g) && Kind(g) == CBD && bytes == Headed(g) && r == LineDone(g, count, at)
  }

  ghost predicate InData(g: BodySoFar, count: nat, at: nat, bytes: seq<byte>, r: Ref) {
    && r.Ref? && r.p.state == CB
    && HeadDone(g) && 0 < |g.data| < Value(g.size) && bytes == Headed(g) + g.data && |g.data| <= at
    && r == BodyTake(LineDone(g, count, at - |g.data|), g.data, CB).0
  }

  ghost predicate AtReturn(g: BodySoFar, count: nat, at: nat, bytes: seq<byte>, r: Ref) {
    && r.Ref? && r.p.state == CD
    && HeadDone(g) && |g.data| == Value(g.size) && bytes == Headed(g) + g.data
    && r == Between(ChunkParser(CD, count, Kind(g), 0), at)
  }

  ghost predicate AtFeed(g: BodySoFar, count: nat, at: nat, bytes: seq<byte>, r: Ref) {
    && r.Ref? && r.p.state == C1
    && HeadDone(g) && |g.data| == Value(g.size) && bytes == Headed(g) + g.data + [13]
    && r == Between(ChunkParser(C1, count, Kind(g), 0), at)
  }

  /** The bytes are the beginning of a body, and the machine has read them. */
  ghost predicate ReadAsBody(g: BodySoFar, from: State, count: nat, at: nat, bytes: seq<byte>, r: Ref) {
    || AtFirstSize(g, from, count, at, bytes, r) || AtNext(g, count, at, bytes, r) || AtSize(g, count, at, bytes, r)
    || AtExt(g, count, at, bytes, r) || AtLine(g, count, at, bytes, r) || AtData(g, count, at, bytes, r)
    || InData(g, count, at, bytes, r) || AtReturn(g, count, at, bytes, r) || AtFeed(g, count, at, bytes, r)
  }

  lemma BodyByState(g: BodySoFar, from: State, count: nat, at: nat, bytes: seq<byte>, r: Ref)
    requires ReadAsBody(g, from, count, at, bytes, r)
    ensures r.Ref?
    ensures match r.p.state
            case HN => AtFirstSize(g, from, count, at, bytes, r)
            case C2 => AtFirstSize(g, from, count, at, bytes, r) || AtNext(g, count, at, bytes, r)
            case CS => AtSize(g, count, at, bytes, r)
            case CE => AtExt(g, count, at, bytes, r)
            case CR => AtLine(g, count, at, bytes, r)
            case CN => AtData(g, count, at, bytes, r)
            case CB => InData(g, count, at, bytes, r)
            case CD => AtReturn(g, count, at, bytes, r)
            case C1 => AtFeed(g, count, at, bytes, r)
            case _ => false
  {
    hide SizeRead, HeadDone, Headed, Sized, LaxChunks, Between, Entry, LineDone, BodyTake, GoodExt, PrintChunks, Value, Kind, Mark;
  }

  // A step that neither fails nor falls outside the model.
  predicate Goes(r: Ref) { r.Ref? || r.Done? }

  lemma Admits(p: Parser, c: byte, pos: nat)
    requires Sound(Between(p, pos)) && InChunks(p.meta) && p.state in {CS, CE, CR, CD, C1, C2} && Goes(RefStep(Between(p, pos), c).0)
    ensures Row(p.state, Classify(c)) != BR
  {
    hide ControlByte, BodyTake, Row, Classify, Counted;
    NotHead(p, c);
  }

  lemma NotHead(p: Parser, c: byte)
    requires p.state in {CS, CE, CR, CD, C1, C2}
    ensures p.state != BR && NextState(p.state, p.meta, c) == Row(p.state, Classify(c))
  {
  }

  predicate Entire(h: BodySoFar, bytes: seq<byte>) {
    LaxChunks(h.done) && GoodLast(Chunk(h.size, h.ext, [])) && bytes == PrintChunks(h.done) + PrintChunk(Chunk(h.size, h.ext, []))
  }

  /** A digit of a size after others. */
  lemma DigitStep(g: BodySoFar, count: nat, at: nat, bytes: seq<byte>, r: Ref, c: byte) returns (h: BodySoFar)
    requires Sound(r) && AtSize(g, count, at, bytes, r) && IsHex(c) && Goes(RefStep(r, c).0)
    ensures AtSize(h, count, at + 1, bytes + [c], RefStep(r, c).0)
  {
    hide Sound, RefStep, Reads, Moves, Value, IsHex;
    SizeLength(g);
    SizeSnoc(g.size, c);
    DigitNext(CS, count, Mark(g.size), Value(g.size), c, at);
    h := g.(size := g.size + [c]);
    assert bytes + [c] == Sized(h);
  }

  /** The first digit follows the previous chunk, or the head, after which it may
      be any byte. */
  lemma FirstDigitStep(g: BodySoFar, from: State, count: nat, at: nat, bytes: seq<byte>, r: Ref, c: byte) returns (h: BodySoFar)
    requires Sound(r) && (AtFirstSize(g, from, count, at, bytes, r) || AtNext(g, count, at, bytes, r))
    requires Goes(RefStep(r, c).0) && (r.p.state == C2 ==> IsHex(c))
    ensures AtSize(h, count, at + 1, bytes + [c], RefStep(r, c).0)
  {
    hide Sound, RefStep, Reads, Moves, IsHex, PrintChunk, LaxChunk;
    FirstSize(c);
    h := g.(size := [c]);
    assert bytes + [c] == Sized(h);
    if IsHex(c) {
      DigitNext(r.p.state, count, ZER, 0, c, at);
    } else {
      FirstByte(count, c, at);
      FromReads(r, c, Between(ChunkParser(CS, count, CSZ, 0), at + 1), []);
    }
  }

  lemma NoDigits()
    ensures HexNumber([]) == 0
  {
  }

  lemma HexSnoc(s: seq<byte>)
    requires s != []
    ensures HexNumber(s) == HexNumber(s[..|s| - 1]) * 16 + HexValue(s[|s| - 1])
  {
  }

  lemma FirstSize(c: byte)
    ensures LaxSize([c])
    ensures Value([c]) == if IsHex(c) then HexValue(c) else 0
    ensures Mark([c]) == if c == 48 then ZER else CSZ
  {
    var s := [c];
    assert s[..|s| - 1] == [] && s[1..] == [];
    HexSnoc(s);
    NoDigits();
    assert SizeMeta([]) == ZER && SizeMeta(s) == if c == 48 then SizeMeta(s[..|s| - 1]) else CSZ;
  }

  lemma SizeSnoc(s: seq<byte>, c: byte)
    requires LaxSize(s) && IsHex(c)
    ensures LaxSize(s + [c]) && (s + [c])[0] == s[0]
    ensures Value(s + [c]) == Value(s) * 16 + HexValue(c)
    ensures Mark(s + [c]) == if c == 48 then Mark(s) else CSZ
  {
    assert (s + [c])[..|s|] == s;
    assert (s + [c])[1..] == s[1..] + [c] && (s[1..] + [c])[..|s| - 1] == s[1..];
    hide HexValue;
  }

  lemma DigitNext(from: State, count: nat, meta: Meta, length: int, c: byte, at: nat)
    requires (from == CS && meta in {ZER, CSZ}) || ((from == HN || from == C2) && meta == ZER)
    requires IsHex(c) && Sound(Between(ChunkParser(from, count, meta, length), at))
    requires Goes(RefStep(Between(ChunkParser(from, count, meta, length), at), c).0)
    ensures length * 16 + HexValue(c) <= INT64_MAX
    ensures RefStep(Between(ChunkParser(from, count, meta, length), at), c)
         == (Between(ChunkParser(CS, count, if c == 48 then meta else CSZ, length * 16 + HexValue(c)), at + 1), [])
  {
    hide Sound, RefStep, Reads, Moves, HexValue, IsHex;
    var p := ChunkParser(from, count, meta, length);
    var q := ChunkParser(CS, count, if c == 48 then meta else CSZ, length * 16 + HexValue(c));
    DigitFits(from, count, meta, length, c, at);
    DigitMoves(from, count, meta, length, c);
    ChunkMove(p, c, CS, at, q);
    FromReads(Between(p, at), c, Between(q, at + 1), []);
  }

  lemma DigitFits(from: State, count: nat, meta: Meta, length: int, c: byte, pos: nat)
    requires (from == CS && meta in {ZER, CSZ}) || ((from == HN || from == C2) && meta == ZER)
    requires IsHex(c) && Sound(Between(ChunkParser(from, count, meta, length), pos))
    requires Goes(RefStep(Between(ChunkParser(from, count, meta, length), pos), c).0)
    ensures length * 16 + HexValue(c) <= INT64_MAX
  {
    ChunkClasses(c);
    hide Row, Classify, HexValue, Sound, RefStep;
    ChunkByteReady(ChunkParser(from, count, meta, length), c, CS, pos);
  }

  lemma SizeLength(g: BodySoFar)
    requires SizeRead(g)
    ensures 0 <= Value(g.size) && Mark(g.size) in {ZER, CSZ} && Kind(g) == if Mark(g.size) == ZER then LST else CBD
    ensures Kind(g) == LST ==> Value(g.size) == 0
    ensures Kind(g) == LST || Value(g.size) > 0 || !IsHex(g.size[0])
    ensures Kind(g) == LST ==> IsHex(g.size[0])
  {
    if IsHex(g.size[0]) {
      HexSize(g.size);
      SizeFacts(g.size);
    } else {
      SizeFacts(g.size[1..]);
    }
  }

  lemma SizeEndNext(count: nat, meta: Meta, n: int, at: nat, c: byte)
    requires Sound(Between(ChunkParser(CS, count, meta, n), at)) && meta in {ZER, CSZ} && !IsHex(c)
    requires Goes(RefStep(Between(ChunkParser(CS, count, meta, n), at), c).0)
    ensures c == 59 || c == 13
    ensures RefStep(Between(ChunkParser(CS, count, meta, n), at), c).0
         == Between(ChunkParser(if c == 59 then CE else CR, count, if meta == ZER then LST else CBD, n), at + 1)
  {
    hide Sound, RefStep, Reads, Moves, Row, Classify;
    Admits(ChunkParser(CS, count, meta, n), c, at);
    ChunkClasses(c);
    SizeEnd(count, meta, n, c, at);
    FromReads(Between(ChunkParser(CS, count, meta, n), at), c,
              Between(ChunkParser(if c == 59 then CE else CR, count, if meta == ZER then LST else CBD, n), at + 1), []);
  }

  /** The byte that ends the digits. */
  lemma SizeEndStep(g: BodySoFar, count: nat, at: nat, bytes: seq<byte>, r: Ref, c: byte) returns (h: BodySoFar)
    requires Sound(r) && AtSize(g, count, at, bytes, r) && !IsHex(c) && Goes(RefStep(r, c).0)
    ensures AtExt(h, count, at + 1, bytes + [c], RefStep(r, c).0) || AtLine(h, count, at + 1, bytes + [c], RefStep(r, c).0)
  {
    hide Sound, RefStep, Value, IsHex;
    SizeLength(g);
    SizeEndNext(count, Mark(g.size), Value(g.size), at, c);
    h := g.(ext := if c == 59 then [59] else []);
    if c == 59 {
      assert bytes + [c] == Sized(h) + h.ext;
    } else {
      assert bytes + [c] == Sized(h) + h.ext + [13];
    }
  }

  lemma ExtStep(g: BodySoFar, count: nat, at: nat, bytes: seq<byte>, r: Ref, c: byte) returns (h: BodySoFar)
    requires Sound(r) && AtExt(g, count, at, bytes, r) && Goes(RefStep(r, c).0)
    ensures AtExt(h, count, at + 1, bytes + [c], RefStep(r, c).0) || AtLine(h, count, at + 1, bytes + [c], RefStep(r, c).0)
  {
    hide Sound, RefStep, Value, SizeRead, Sized;
    ExtNext(count, Kind(g), Value(g.size), at, c);
    if ExtByte(c) {
      h := g.(ext := g.ext + [c]);
      SameSize(g, h);
      assert bytes + [c] == Sized(h) + h.ext;
    } else {
      h := g;
    }
  }

  lemma SameSize(g: BodySoFar, h: BodySoFar)
    requires g.size == h.size && g.done == h.done
    ensures Sized(h) == Sized(g) && (SizeRead(h) <==> SizeRead(g)) && Kind(h) == Kind(g)
  {
  }

  lemma ExtNext(count: nat, meta: Meta, n: int, at: nat, c: byte)
    requires Sound(Between(ChunkParser(CE, count, meta, n), at)) && meta in {CBD, LST}
    requires Goes(RefStep(Between(ChunkParser(CE, count, meta, n), at), c).0)
    ensures ExtByte(c) || c == 13
    ensures RefStep(Between(ChunkParser(CE, count, meta, n), at), c).0
         == Between(ChunkParser(if ExtByte(c) then CE else CR, count, meta, n), at + 1)
  {
    hide Sound, RefStep, Reads, Moves, Row, Classify;
    Admits(ChunkParser(CE, count, meta, n), c, at);
    ChunkClasses(c);
    if ExtByte(c) {
      ExtByteRun(count, meta, n, c, at);
    } else {
      ExtEnd(count, meta, n, at);
    }
    FromReads(Between(ChunkParser(CE, count, meta, n), at), c,
              Between(ChunkParser(if ExtByte(c) then CE else CR, count, meta, n), at + 1), []);
  }

  lemma LineRoom(count: nat, meta: Meta, length: int, pos: nat)
    requires meta in {CBD, LST} && Sound(Between(ChunkParser(CR, count, meta, length), pos))
    requires Goes(RefStep(Between(ChunkParser(CR, count, meta, length), pos), 10).0)
    ensures length <= INT_MAX - MAX_REQUEST_BUF_SIZE
  {
    var p := ChunkParser(CR, count, meta, length);
    LengthKept(p, pos);
    EndMoves(count, meta, length);
    hide Row, Classify, Sound, Reads;
    ChunkByteReady(p, 10, CN, pos);
  }

  lemma LineNext(count: nat, meta: Meta, n: int, at: nat, c: byte)
    requires Sound(Between(ChunkParser(CR, count, meta, n), at)) && meta in {CBD, LST} && 0 <= n
    requires Goes(RefStep(Between(ChunkParser(CR, count, meta, n), at), c).0)
    ensures c == 10 && n <= INT_MAX - MAX_REQUEST_BUF_SIZE
    ensures RefStep(Between(ChunkParser(CR, count, meta, n), at), c) == AfterSize(count, meta, n, at + 1)
  {
    hide Sound, RefStep, Reads, Moves, Row, Classify;
    Admits(ChunkParser(CR, count, meta, n), c, at);
    ChunkEnds(c);
    LineRoom(count, meta, n, at);
    LineEnd(count, meta, n, at);
    FromReads(Between(ChunkParser(CR, count, meta, n), at), 10, AfterSize(count, meta, n, at + 1).0, AfterSize(count, meta, n, at + 1).1);
  }

  lemma SizeLineStep(g: BodySoFar, count: nat, at: nat, bytes: seq<byte>, r: Ref, c: byte) returns (h: BodySoFar)
    requires Sound(r) && AtLine(g, count, at, bytes, r) && Goes(RefStep(r, c).0)
    ensures AtData(h, count, at + 1, bytes + [c], RefStep(r, c).0) || AtReturn(h, count, at + 1, bytes + [c], RefStep(r, c).0)
  {
    hide Sound, RefStep, Value;
    SizeLength(g);
    LineNext(count, Kind(g), Value(g.size), at, c);
    h := g.(data := []);
    assert bytes + [10] == Headed(h) && Headed(h) + [] == Headed(h);
  }

  lemma TakeSnoc(r: Ref, data: seq<byte>, c: byte)
    requires r.Ref? && r.p.state == CN && r.p.bodyConsumed == 0 && 0 < |data| < r.p.contentLength
    ensures BodyTake(r, data, CB).0.Ref?
    ensures BodyTake(BodyTake(r, data, CB).0, [c], CB).0 == BodyTake(r, data + [c], CB).0
  {
  }

  lemma TakeIs(g: BodySoFar, count: nat, pos: nat, data: seq<byte>)
    requires 0 < |data| <= Value(g.size)
    ensures var r := BodyTake(LineDone(g, count, pos), data, CB).0;
            if |data| < Value(g.size) then r.Ref? && r.p.state == CB
            else r == Between(ChunkParser(CD, count, CBD, 0), pos + |data|)
  {
  }

  lemma InChunkBody(r: Ref)
    requires r.Ref? && Sound(r) && (r.p.state == CN || r.p.state == CB)
    ensures InBodyOf(r, CB) && 0 < BodyLeft(r)
  {
  }

  lemma DataFirst(g: BodySoFar, count: nat, at: nat, bytes: seq<byte>, r: Ref, c: byte)
    requires Sound(r) && AtData(g, count, at, bytes, r)
    ensures 0 < Value(g.size) && RefStep(r, c).0 == BodyTake(LineDone(g, count, at), [c], CB).0
  {
    hide Value, BodyTake, Sized, SizeRead;
    InChunkBody(r);
    hide Sound, RefStep;
    BodyStepIs(r, c, CB);
  }

  lemma DataMore(g: BodySoFar, count: nat, at: nat, bytes: seq<byte>, r: Ref, c: byte)
    requires Sound(r) && InData(g, count, at, bytes, r)
    ensures RefStep(r, c).0 == BodyTake(LineDone(g, count, at - |g.data|), g.data + [c], CB).0
  {
    hide Value, BodyTake, Sized, SizeRead;
    TakeSnoc(LineDone(g, count, at - |g.data|), g.data, c);
    InChunkBody(r);
    hide Sound, RefStep;
    BodyStepIs(r, c, CB);
  }

  lemma DataNext(g: BodySoFar, count: nat, at: nat, bytes: seq<byte>, r: Ref, c: byte) returns (data: seq<byte>)
    requires Sound(r) && (AtData(g, count, at, bytes, r) || InData(g, count, at, bytes, r))
    ensures HeadDone(g) && |data| < Value(g.size) && |data| <= at && bytes == Headed(g) + data
    ensures RefStep(r, c).0 == BodyTake(LineDone(g, count, at - |data|), data + [c], CB).0
  {
    hide Value, BodyTake, Sized, SizeRead, Sound, RefStep, Headed, HeadDone, LineDone;
    if AtData(g, count, at, bytes, r) {
      data := [];
      DataFirst(g, count, at, bytes, r, c);
      assert [] + [c] == [c] && Headed(g) + [] == Headed(g);
    } else {
      data := g.data;
      DataMore(g, count, at, bytes, r, c);
    }
  }

  lemma DataStep(g: BodySoFar, count: nat, at: nat, bytes: seq<byte>, r: Ref, c: byte) returns (h: BodySoFar)
    requires Sound(r) && (AtData(g, count, at, bytes, r) || InData(g, count, at, bytes, r)) && Goes(RefStep(r, c).0)
    ensures InData(h, count, at + 1, bytes + [c], RefStep(r, c).0) || AtReturn(h, count, at + 1, bytes + [c], RefStep(r, c).0)
  {
    hide Sound, RefStep, Value, BodyTake, AtData, LineDone, Sized, SizeRead, GoodExt;
    var data := DataNext(g, count, at, bytes, r, c);
    h := g.(data := data + [c]);
    SameHead(g, h);
    assert Headed(h) + h.data == bytes + [c];
    TakeIs(g, count, at - |data|, h.data);
  }

  lemma SameHead(g: BodySoFar, h: BodySoFar)
    requires h == g.(data := h.data) && HeadDone(g)
    ensures Headed(h) == Headed(g) && HeadDone(h) && Kind(h) == Kind(g)
    ensures forall count, at :: LineDone(h, count, at) == LineDone(g, count, at)
    ensures Value(g.size) != 0 ==> Kind(g) == CBD
  {
    SizeLength(g);
  }

  lemma ReturnStep(g: BodySoFar, count: nat, at: nat, bytes: seq<byte>, r: Ref, c: byte) returns (h: BodySoFar)
    requires Sound(r) && AtReturn(g, count, at, bytes, r) && Goes(RefStep(r, c).0)
    ensures AtFeed(h, count, at + 1, bytes + [c], RefStep(r, c).0)
  {
    hide Sound, RefStep, Reads, Moves, Row, Classify, Value;
    Admits(r.p, c, at);
    ChunkEnds(c);
    DataReturn(count, Kind(g), at);
    FromReads(r, 13, Between(ChunkParser(C1, count, Kind(g), 0), at + 1), []);
    h := g;
  }

  lemma ChunksSnoc(ks: seq<Chunk>, k: Chunk)
    ensures PrintChunks(ks + [k]) == PrintChunks(ks) + PrintChunk(k)
  {
    if ks == [] {
      assert [k][1..] == [] && PrintChunk(k) + PrintChunks([]) == PrintChunk(k);
    } else {
      assert (ks + [k])[1..] == ks[1..] + [k];
      ChunksSnoc(ks[1..], k);
    }
  }

  lemma FeedNext(count: nat, meta: Meta, at: nat, c: byte)
    requires Sound(Between(ChunkParser(C1, count, meta, 0), at)) && meta in {CBD, LST}
    requires Goes(RefStep(Between(ChunkParser(C1, count, meta, 0), at), c).0)
    ensures c == 10 && RefStep(Between(ChunkParser(C1, count, meta, 0), at), c) == AfterChunk(count, meta, at + 1)
  {
    hide Sound, RefStep, Reads, Moves, Row, Classify;
    Admits(ChunkParser(C1, count, meta, 0), c, at);
    ChunkEnds(c);
    DataFeed(count, meta, at);
    FromReads(Between(ChunkParser(C1, count, meta, 0), at), 10, AfterChunk(count, meta, at + 1).0, AfterChunk(count, meta, at + 1).1);
  }

  lemma ChunkFeedStep(g: BodySoFar, count: nat, at: nat, bytes: seq<byte>, r: Ref, c: byte) returns (h: BodySoFar)
    requires Sound(r) && AtFeed(g, count, at, bytes, r) && Goes(RefStep(r, c).0)
    ensures var r1 := RefStep(r, c).0;
            if r1.Ref? then AtNext(h, count, at + 1, bytes + [c], r1) else r1.Done? && Entire(h, bytes + [c])
  {
    hide Sound, RefStep, Value, Mark, PrintChunk, GoodExt, IsHex;
    SizeLength(g);
    FeedNext(count, Kind(g), at, c);
    var k := Chunk(g.size, g.ext, g.data);
    PrintedChunk(g, bytes);
    if Kind(g) == LST {
      h := g;
      LastSize(g);
    } else {
      ChunksSnoc(g.done, k);
      h := g.(done := g.done + [k]);
    }
  }

  lemma LastSize(g: BodySoFar)
    requires HeadDone(g) && Kind(g) == LST
    ensures GoodLast(Chunk(g.size, g.ext, []))
  {
    SizeLength(g);
    HexSize(g.size);
    SizeNumeral(g.size, 0);
    hide Numeral;
  }

  lemma PrintedChunk(g: BodySoFar, bytes: seq<byte>)
    requires bytes == Headed(g) + g.data + [13]
    ensures bytes + [10] == PrintChunks(g.done) + PrintChunk(Chunk(g.size, g.ext, g.data))
  {
    assert bytes + [10] == PrintChunks(g.done) + (g.size + g.ext + CRLF + g.data + CRLF);
  }

  // What a byte that the machine accepts leads to.
  ghost predicate NextAsBody(h: BodySoFar, from: State, count: nat, at: nat, bytes: seq<byte>, r1: Ref) {
    if r1.Ref? then ReadAsBody(h, from, count, at, bytes, r1) else r1.Done? && Entire(h, bytes)
  }

  lemma AsBody(h: BodySoFar, from: State, count: nat, at: nat, bytes: seq<byte>, r1: Ref)
    requires ReadAsBody(h, from, count, at, bytes, r1)
    ensures NextAsBody(h, from, count, at, bytes, r1)
  {
    hide Entire, ReadAsBody;
    BodyByState(h, from, count, at, bytes, r1);
  }

  /** Whatever the machine accepts is the beginning of a body. */
  lemma ByteAsBody(g: BodySoFar, from: State, count: nat, at: nat, bytes: seq<byte>, r: Ref, c: byte) returns (h: BodySoFar)
    requires r.Ref? && Sound(r) && ReadAsBody(g, from, count, at, bytes, r) && Goes(RefStep(r, c).0)
    ensures NextAsBody(h, from, count, at + 1, bytes + [c], RefStep(r, c).0)
  {
    hide AtFirstSize, AtNext, AtSize, AtExt, AtLine, AtData, InData, AtReturn, AtFeed, RefStep, Sound, IsHex, Entire, Goes;
    BodyByState(g, from, count, at, bytes, r);
    DigitAfterChunk(g, from, count, at, bytes, r, c);
    match r.p.state {
      case HN => h := FirstDigitStep(g, from, count, at, bytes, r, c);
      case C2 => h := FirstDigitStep(g, from, count, at, bytes, r, c);
      case CS =>
        if IsHex(c) { h := DigitStep(g, count, at, bytes, r, c); }
        else { h := SizeEndStep(g, count, at, bytes, r, c); }
      case CE => h := ExtStep(g, count, at, bytes, r, c);
      case CR => h := SizeLineStep(g, count, at, bytes, r, c);
      case CN => h := DataStep(g, count, at, bytes, r, c);
      case CB => h := DataStep(g, count, at, bytes, r, c);
      case CD => h := ReturnStep(g, count, at, bytes, r, c);
      case C1 => h := ChunkFeedStep(g, count, at, bytes, r, c);
    }
    if ReadAsBody(h, from, count, at + 1, bytes + [c], RefStep(r, c).0) {
      AsBody(h, from, count, at + 1, bytes + [c], RefStep(r, c).0);
    }
  }

  lemma DigitAfterChunk(g: BodySoFar, from: State, count: nat, at: nat, bytes: seq<byte>, r: Ref, c: byte)
    requires r.Ref? && Sound(r) && Goes(RefStep(r, c).0)
    requires r.p.state in {HN, C2} ==> AtFirstSize(g, from, count, at, bytes, r) || AtNext(g, count, at, bytes, r)
    ensures r.p.state == C2 ==> IsHex(c)
  {
    hide Row, Classify, RefStep, Sound, PrintChunks;
    if r.p.state == C2 {
      Admits(r.p, c, at);
      ChunkClasses(c);
    }
  }

  lemma StartAsBody(g: BodySoFar, from: State, count: nat, pos: nat)
    requires g.done == [] && (from == HN || from == C2)
    ensures NextAsBody(g, from, count, pos, [], Entry(count, from, pos))
  {
    assert AtFirstSize(g, from, count, pos, [], Entry(count, from, pos));
    hide AtFirstSize, AtNext, AtSize, AtExt, AtLine, AtData, InData, AtReturn, AtFeed;
  }

  // A run that has gone somewhere was on its way before its last byte.
  lemma GoesOn(r: Ref, c: byte)
    requires Sound(r) && Goes(RefStep(r, c).0)
    ensures r.Ref?
  {
    Sticky(r, [c]);
    OneByte(r, c);
  }

  lemma {:induction false} BodyOf(from: State, count: nat, pos: nat, bytes: seq<byte>) returns (g: BodySoFar)
    requires Sound(Entry(count, from, pos)) && (from == HN || from == C2)
    requires Goes(RefRun(Entry(count, from, pos), bytes).0)
    ensures var r := RefRun(Entry(count, from, pos), bytes).0;
            NextAsBody(g, from, count, pos + |bytes|, bytes, r)
    decreases |bytes|
  {
    hide Sound, RefStep, ReadAsBody, Entire, IsHex, Entry;
    var r0 := Entry(count, from, pos);
    if bytes == [] {
      g := BodySoFar([], [], [], []);
      StartAsBody(g, from, count, pos);
    } else {
      var n := |bytes| - 1;
      var c := bytes[n];
      assert bytes == bytes[..n] + [c];
      RunSnoc(r0, bytes[..n], c);
      var r := RefRun(r0, bytes[..n]).0;
      GoesOn(r, c);
      g := BodyOf(from, count, pos, bytes[..n]);
      g := ByteAsBody(g, from, count, pos + n, bytes[..n], r, c);
    }
  }

  // ---- the language ----

  /** A lax chunk whose size begins with no digit. */
  lemma LaxChunkRun(count: nat, k: Chunk, pos: nat)
    requires LaxChunk(k) && !IsHex(k.size[0]) && Sound(Entry(count, HN, pos))
    ensures Reads(Entry(count, HN, pos), PrintChunk(k), Entry(count, C2, pos + |PrintChunk(k)|), [Piece(TChunkBody, 0, k.data)])
  {
    hide Reads, Sound, ChunkParser, HexNumber, GoodExt, AfterSize, IsHex;
    var n := |k.data|;
    var at := pos + |k.size|;
    var r1 := Between(ChunkParser(CS, count, CSZ, n), at);
    var r2 := Between(ChunkParser(CR, count, CBD, n), at + |k.ext| + 1);
    LaxSizeRun(count, k.size, pos);
    ReadsSound(Entry(count, HN, pos), k.size, r1, []);
    ExtThen(count, CSZ, n, k.ext, at);
    ReadsSound(r1, k.ext + [13], r2, []);
    LaxRest(count, k.data, at + |k.ext| + 1);
    Chain3(Entry(count, HN, pos), k.size, r1, [], k.ext + [13], r2, [], [10] + k.data + CRLF,
           Entry(count, C2, at + |k.ext| + n + 4), [Piece(TChunkBody, 0, k.data)]);
    assert k.size + (k.ext + [13]) + ([10] + k.data + CRLF) == PrintChunk(k);
    assert [] + [] + [Piece(TChunkBody, 0, k.data)] == [Piece(TChunkBody, 0, k.data)];
  }

  // From the end of a size line to the end of a chunk that is not the last.
  lemma LaxRest(count: nat, data: seq<byte>, pos: nat)
    requires |data| <= INT_MAX - MAX_REQUEST_BUF_SIZE && Sound(Between(ChunkParser(CR, count, CBD, |data|), pos))
    ensures Reads(Between(ChunkParser(CR, count, CBD, |data|), pos), [10] + data + CRLF,
                  Entry(count, C2, pos + |data| + 3), [Piece(TChunkBody, 0, data)])
  {
    hide Reads, Sound, ChunkParser;
    var out := [Piece(TChunkBody, 0, data)];
    var r0, r1 := Between(ChunkParser(CR, count, CBD, |data|), pos), Between(ChunkParser(CN, count, CBD, |data|), pos + 1);
    var r2 := Between(ChunkParser(CD, count, CBD, 0), pos + 1 + |data|);
    var r3 := Entry(count, C2, pos + |data| + 3);
    LineEnd(count, CBD, |data|, pos);
    if data == [] {
      ReadsSound(r0, [10], r2, out);
      ChunkEnd(count, CBD, pos + 1);
      Chain(r0, [10], r2, out, CRLF, r3, []);
      assert [10] + data + CRLF == [10] + CRLF && out + [] == out;
    } else {
      ReadsSound(r0, [10], r1, []);
      DataReads(count, data, pos + 1);
      ReadsSound(r1, data, r2, out);
      ChunkEnd(count, CBD, pos + 1 + |data|);
      Chain3(r0, [10], r1, [], data, r2, out, CRLF, r3, []);
      assert [] + out + [] == out;
    }
  }

  lemma {:induction false} LaxSizeRun(count: nat, s: seq<byte>, pos: nat)
    requires LaxSize(s) && !IsHex(s[0]) && HexNumber(s[1..]) <= INT64_MAX && Sound(Entry(count, HN, pos))
    ensures Reads(Entry(count, HN, pos), s, Between(ChunkParser(CS, count, CSZ, HexNumber(s[1..])), pos + |s|), [])
    decreases |s|
  {
    hide Reads, Sound, ChunkParser, HexNumber, IsHex, Moves;
    var n := |s| - 1;
    if n == 0 {
      FirstByte(count, s[0], pos);
      assert s == [s[0]] && s[1..] == [] && HexNumber([]) == 0 by { NoDigits(); }
    } else {
      var d := s[1..];
      assert s == s[..n] + [s[n]] && d[..n - 1] == s[..n][1..];
      SizeFacts(d);
      HexSnoc(d);
      LaxSizeRun(count, s[..n], pos);
      var r := Between(ChunkParser(CS, count, CSZ, HexNumber(d[..n - 1])), pos + n);
      ReadsSound(Entry(count, HN, pos), s[..n], r, []);
      DigitMoves(CS, count, CSZ, HexNumber(d[..n - 1]), s[n]);
      ChunkMove(r.p, s[n], CS, pos + n, ChunkParser(CS, count, CSZ, HexNumber(d)));
      Chain(Entry(count, HN, pos), s[..n], r, [], [s[n]], Between(ChunkParser(CS, count, CSZ, HexNumber(d)), pos + |s|), []);
      NothingMore();
    }
  }

  /** A body that is grammatical from its second byte on. */
  predicate LaxBody(ks: seq<Chunk>, last: Chunk, bytes: seq<byte>) {
    LaxChunks(ks) && GoodLast(last) && bytes == PrintChunks(ks) + PrintChunk(last)
  }

  predicate GoodBody(ks: seq<Chunk>, last: Chunk, bytes: seq<byte>) {
    AllGood(ks) && GoodLast(last) && bytes == PrintChunks(ks) + PrintChunk(last)
  }

  lemma FirstIsSize(ks: seq<Chunk>, last: Chunk, bytes: seq<byte>)
    requires LaxBody(ks, last, bytes)
    ensures bytes != [] && (ks == [] ==> IsHex(bytes[0])) && (ks != [] ==> bytes[0] == ks[0].size[0])
  {
    hide PrintChunk;
    if ks != [] {
      SizeFirst(ks[0]);
      assert bytes == PrintChunk(ks[0]) + (PrintChunks(ks[1..]) + PrintChunk(last));
    } else {
      SizeNumeral(last.size, 0);
      SizeFirst(last);
      assert bytes == PrintChunk(last);
    }
  }

  lemma SizeFirst(k: Chunk)
    requires k.size != []
    ensures PrintChunk(k) != [] && PrintChunk(k)[0] == k.size[0]
  {
  }

  /** Grammatical bodies are the lax ones that begin with a digit. */
  lemma StrictBody(ks: seq<Chunk>, last: Chunk, bytes: seq<byte>)
    ensures GoodBody(ks, last, bytes) <==> LaxBody(ks, last, bytes) && IsHex(bytes[0])
  {
    hide PrintChunks, PrintChunk, GoodLast;
    forall i | 0 <= i < |ks|
      ensures LaxChunk(ks[i]) && IsHex(ks[i].size[0]) <==> GoodChunk(ks[i])
    {
      StrictChunk(ks[i]);
    }
    hide LaxChunk, GoodChunk, IsHex;
    if LaxBody(ks, last, bytes) {
      FirstIsSize(ks, last, bytes);
    }
  }

  lemma LaxRun(count: nat, ks: seq<Chunk>, last: Chunk, bytes: seq<byte>, pos: nat)
    requires LaxBody(ks, last, bytes) && Sound(Entry(count, HN, pos))
    ensures Reads(Entry(count, HN, pos), bytes, Done, DataPieces(ks) + [EmptyChunk, RequestEnd])
  {
    hide Reads, Sound, PrintChunk, LaxChunk, GoodChunk, GoodLast, IsHex, ChunkParser;
    FirstIsSize(ks, last, bytes);
    StrictBody(ks, last, bytes);
    if IsHex(bytes[0]) {
      ChunksRun(HN, count, ks, last, pos);
    } else {
      var k, rest := ks[0], PrintChunks(ks[1..]) + PrintChunk(last);
      var out := [Piece(TChunkBody, 0, k.data)];
      var r := Entry(count, C2, pos + |PrintChunk(k)|);
      LaxChunkRun(count, k, pos);
      ReadsSound(Entry(count, HN, pos), PrintChunk(k), r, out);
      StrictTail(ks);
      ChunksRun(C2, count, ks[1..], last, pos + |PrintChunk(k)|);
      Chain(Entry(count, HN, pos), PrintChunk(k), r, out, rest, Done, DataPieces(ks[1..]) + [EmptyChunk, RequestEnd]);
      assert PrintChunk(k) + rest == bytes;
      assert out + (DataPieces(ks[1..]) + [EmptyChunk, RequestEnd]) == DataPieces(ks) + [EmptyChunk, RequestEnd];
    }
  }

  lemma StrictTail(ks: seq<Chunk>)
    requires LaxChunks(ks) && ks != []
    ensures forall i :: 0 <= i < |ks[1..]| ==> GoodChunk(ks[1..][i])
  {
    forall i | 0 <= i < |ks[1..]|
      ensures GoodChunk(ks[1..][i])
    {
      StrictChunk(ks[i + 1]);
    }
  }

  /** The language of chunked bodies: after the head of a chunked request the
      machine accepts exactly the lists of chunks and a last chunk in which the
      first byte may be anything, and hands out the data of the chunks. */
  lemma LaxGrammar(count: nat, pos: nat, bytes: seq<byte>)
    requires Sound(Entry(count, HN, pos))
    ensures RefRun(Entry(count, HN, pos), bytes).0.Done? <==> exists ks, last :: LaxBody(ks, last, bytes)
    ensures forall ks, last :: LaxBody(ks, last, bytes) ==>
              RefRun(Entry(count, HN, pos), bytes) == (Done, DataPieces(ks) + [EmptyChunk, RequestEnd])
  {
    hide Sound, RefRun, LaxBody, Entry;
    if RefRun(Entry(count, HN, pos), bytes).0.Done? {
      var g := BodyOf(HN, count, pos, bytes);
      EntireIsLax(g, bytes);
    }
    forall ks, last | LaxBody(ks, last, bytes)
      ensures RefRun(Entry(count, HN, pos), bytes) == (Done, DataPieces(ks) + [EmptyChunk, RequestEnd])
    {
      LaxRun(count, ks, last, bytes, pos);
    }
  }

  lemma EntireIsLax(g: BodySoFar, bytes: seq<byte>)
    requires Entire(g, bytes)
    ensures LaxBody(g.done, Chunk(g.size, g.ext, []), bytes)
  {
    hide LaxChunks, PrintChunks, PrintChunk, GoodLast;
  }

  /** A body that begins with a size digit is complete exactly when it is a list of
      chunks and a last chunk. */
  lemma ChunkGrammar(from: State, count: nat, pos: nat, bytes: seq<byte>)
    requires (from == HN || from == C2) && Sound(Entry(count, from, pos)) && bytes != [] && IsHex(bytes[0])
    ensures RefRun(Entry(count, from, pos), bytes).0.Done? <==> exists ks, last :: GoodBody(ks, last, bytes)
    ensures forall ks, last :: GoodBody(ks, last, bytes) ==>
              RefRun(Entry(count, from, pos), bytes) == (Done, DataPieces(ks) + [EmptyChunk, RequestEnd])
  {
    hide Sound, RefRun, LaxBody, GoodLast, GoodChunk, PrintChunk, PrintChunks;
    if RefRun(Entry(count, from, pos), bytes).0.Done? {
      var g := BodyOf(from, count, pos, bytes);
      var last := Chunk(g.size, g.ext, []);
      EntireIsLax(g, bytes);
      StrictBody(g.done, last, bytes);
      assert GoodBody(g.done, last, bytes);
    }
    forall ks, last | GoodBody(ks, last, bytes)
      ensures RefRun(Entry(count, from, pos), bytes) == (Done, DataPieces(ks) + [EmptyChunk, RequestEnd])
    {
      ChunksRun(from, count, ks, last, pos);
    }
  }

  /** So a body that the machine accepts is grammatical if and only if its first
      byte is a hex digit. */
  lemma AcceptedGrammatical(count: nat, pos: nat, bytes: seq<byte>)
    requires Sound(Entry(count, HN, pos)) && RefRun(Entry(count, HN, pos), bytes).0.Done?
    ensures bytes != []
    ensures (exists ks, last :: GoodBody(ks, last, bytes)) <==> IsHex(bytes[0])
  {
    hide Sound, RefRun, LaxBody, GoodBody, Entry, IsHex;
    LaxGrammar(count, pos, bytes);
    var ks, last :| LaxBody(ks, last, bytes);
    FirstIsSize(ks, last, bytes);
    forall ls, end
      ensures GoodBody(ls, end, bytes) <==> LaxBody(ls, end, bytes) && IsHex(bytes[0])
    {
      StrictBody(ls, end, bytes);
    }
  }

  // ---- whole sessions ----

  // A chunked request, grammatical or not.
  ghost predicate ChunkedInput(h: Head, body: seq<byte>, bytes: seq<byte>) {
    && WellFormed(h) && Frame(h.headers, NoLength) == Chunked && |Print(h)| <= MAX_REQUEST_BUF_SIZE
    && bytes == Print(h) + body
    && Sound(Start) && !RefRun(Start, bytes).0.Beyond?
  }

  lemma BodyAfterHead(h: Head, body: seq<byte>, bytes: seq<byte>)
    requires ChunkedInput(h, body, bytes)
    ensures Sound(Entry(|h.headers|, HN, |Print(h)|))
    ensures var (r, out) := RefRun(Entry(|h.headers|, HN, |Print(h)|), body);
            RefRun(Start, bytes) == (r, HeadPieces(h, 0) + [StreamSignal] + out)
  {
    hide Sound, WellFormed, Print, HeadPieces, RefRun;
    ChunkedHead(h);
    ReadsSound(Start, Print(h), Entry(|h.headers|, HN, |Print(h)|), HeadPieces(h, 0) + [StreamSignal]);
    RunSplit(Start, Print(h), body);
  }

  /** In a body the machine is never where a request begins. */
  lemma NotFresh(count: nat, pos: nat, body: seq<byte>)
    requires Sound(Entry(count, HN, pos)) && RefRun(Entry(count, HN, pos), body).0.Ref?
    ensures RefRun(Entry(count, HN, pos), body).0.p != FreshParser
  {
    hide Sound, RefRun, ReadAsBody, Entire, Entry;
    var g := BodyOf(HN, count, pos, body);
    BodyByState(g, HN, count, pos + |body|, body, RefRun(Entry(count, HN, pos), body).0);
  }

  lemma FreshIsDone(p: Parser, s: Stream, r: Ref)
    requires Rel(p, s, r) && p.meta != END && (r.Ref? ==> r.p != FreshParser)
    ensures p == FreshParser <==> r.Done?
  {
  }

  /** A session whose driver has come back to the beginning of a request. */
  ghost predicate ServedWhole(inputs: seq<seq<byte>>) {
    Serve(inputs).status.Live? && Serve(inputs).status.p == FreshParser
  }

  /** The language of chunked bodies over any reads: a session ends its request on
      exactly the lax bodies, with the data of their chunks. */
  lemma ServedChunkGrammar(inputs: seq<seq<byte>>, h: Head, body: seq<byte>)
    requires Short(h) && ChunkedInput(h, body, Concat(inputs)) && Serve(inputs).status != NotARead
    ensures ServedWhole(inputs) <==> exists ks, last :: LaxBody(ks, last, body)
    ensures forall ks, last :: LaxBody(ks, last, body) ==> Serve(inputs).tokens == ChunkedPieces(h, ks)
  {
    hide Sound, RefRun, ChunkedInput, LaxBody, Rel, Serve, Concat, Short, ChunkedPieces;
    BodyOutcome(h, body, Concat(inputs));
    ServeAnyCut(inputs);
    var t := Serve(inputs);
    if t.status.Live? {
      FreshIsDone(t.status.p, t.status.s, RefRun(Start, Concat(inputs)).0);
    }
    forall ks, last | LaxBody(ks, last, body)
      ensures t.status.Live? && t.tokens == ChunkedPieces(h, ks)
    {
      ShortChunked(h, ks);
      ServeQuiet(inputs);
    }
  }

  lemma BodyOutcome(h: Head, body: seq<byte>, bytes: seq<byte>)
    requires ChunkedInput(h, body, bytes)
    ensures Sound(Start) && !RefRun(Start, bytes).0.Beyond?
    ensures var r := RefRun(Start, bytes).0;
            && (r.Ref? ==> r.p != FreshParser)
            && (r.Done? <==> exists ks, last :: LaxBody(ks, last, body))
    ensures forall ks, last :: LaxBody(ks, last, body) ==> RefRun(Start, bytes).1 == ChunkedPieces(h, ks)
  {
    hide Sound, RefRun, ChunkedInput, LaxBody, Entry, Print, HeadPieces, ChunkedPieces;
    NotBeyond(h, body, bytes);
    BodyAfterHead(h, body, bytes);
    LaxGrammar(|h.headers|, |Print(h)|, body);
    if RefRun(Start, bytes).0.Ref? {
      NotFresh(|h.headers|, |Print(h)|, body);
    }
    forall ks, last | LaxBody(ks, last, body)
      ensures RefRun(Start, bytes).1 == ChunkedPieces(h, ks)
    {
      PiecesJoin(h, ks);
    }
  }

  lemma NotBeyond(h: Head, body: seq<byte>, bytes: seq<byte>)
    requires ChunkedInput(h, body, bytes)
    ensures Sound(Start) && !RefRun(Start, bytes).0.Beyond?
  {
  }

  lemma PiecesJoin(h: Head, ks: seq<Chunk>)
    ensures HeadPieces(h, 0) + [StreamSignal] + (DataPieces(ks) + [EmptyChunk, RequestEnd]) == ChunkedPieces(h, ks)
  {
  }
}
