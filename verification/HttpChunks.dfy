/** Chunked bodies (section 4.1 of RFC 7230): whatever the chunks, and however
    they are cut into reads, the parser hands out their data one by one; and the
    framing that http_respond_chunk writes is read back unchanged. */
module HttpChunks {
  import opened HttpAlphabet
  import opened HttpTables
  import opened HttpStream
  import opened HttpParser
  import opened HttpReference
  import opened HttpRefinement
  import opened HttpCalls
  import opened HttpLimits
  import opened HttpSession
  import opened HttpSplits
  import opened HttpGrammar

  // A chunk as it may be written: size digits in any casing and with leading
  // zeros, an extension, and the data.
  datatype Chunk = Chunk(size: seq<byte>, ext: seq<byte>, data: seq<byte>)

  predicate IsHex(c: byte) { HexValue(c) >= 0 }

  function HexNumber(s: seq<byte>): int {
    if s == [] then 0 else HexNumber(s[..|s| - 1]) * 16 + HexValue(s[|s| - 1])
  }

  predicate ExtByte(c: byte) { Visible(c) || c == 9 }

  predicate GoodExt(ext: seq<byte>) {
    ext == [] || (ext[0] == 59 && All(ext, ExtByte))
  }

  /** A text in these digits, in any casing, is read as the number it writes. */
  lemma {:induction false} SizeNumeral(s: seq<byte>, n: nat)
    ensures |HEX_DIGITS| == 16
    ensures Numeral(s, n, HEX_DIGITS) <==> s != [] && All(s, IsHex) && HexNumber(s) == n
    decreases |s|
  {
    if s != [] {
      var init, c := s[..|s| - 1], s[|s| - 1];
      assert s == init + [c];
      HexPlace(c, n % 16);
      HexBelow(c);
      SizeMore(s);
      hide Folds, HexValue, HexNumber;
      if init != [] {
        SizeNumeral(init, n / 16);
      }
    }
  }

  lemma SizeMore(s: seq<byte>)
    requires s != []
    ensures HexNumber([]) == 0
    ensures HexNumber(s) == HexNumber(s[..|s| - 1]) * 16 + HexValue(s[|s| - 1])
    ensures All(s, IsHex) <==> All(s[..|s| - 1], IsHex) && HexValue(s[|s| - 1]) >= 0
  {
    hide HexValue;
    assert s == s[..|s| - 1] + [s[|s| - 1]];
  }

  predicate GoodChunk(k: Chunk) {
    && Numeral(k.size, |k.data|, "0123456789abcdef") && GoodExt(k.ext)
    && 0 < |k.data| <= INT_MAX - MAX_REQUEST_BUF_SIZE
  }

  /** The last chunk: a size of zero. */
  predicate GoodLast(k: Chunk) {
    Numeral(k.size, 0, "0123456789abcdef") && GoodExt(k.ext) && k.data == []
  }

  function PrintChunk(k: Chunk): seq<byte> {
    k.size + k.ext + CRLF + k.data + CRLF
  }

  function PrintChunks(ks: seq<Chunk>): seq<byte> {
    if ks == [] then [] else PrintChunk(ks[0]) + PrintChunks(ks[1..])
  }

  function DataPieces(ks: seq<Chunk>): seq<Piece> {
    if ks == [] then [] else [Piece(TChunkBody, 0, ks[0].data)] + DataPieces(ks[1..])
  }

  // ---- single bytes ----

  lemma ChunkClasses(c: byte)
    ensures NextState(HN, ZER, c) == CS
    ensures Row(C2, Classify(c)) == (if IsHex(c) then CS else BR)
    ensures Row(CS, Classify(c)) == (if IsHex(c) then CS else if c == 59 then CE else if c == 13 then CR else BR)
    ensures Row(CE, Classify(c)) == (if ExtByte(c) then CE else if c == 13 then CR else BR)
  {
  }

  lemma ChunkEnds(c: byte)
    ensures Row(CR, Classify(c)) == (if c == 10 then CN else BR)
    ensures Row(CD, Classify(c)) == (if c == 13 then C1 else BR)
    ensures Row(C1, Classify(c)) == (if c == 10 then C2 else BR)
  {
  }

  /** The parser in a chunked body. */
  function ChunkParser(state: State, count: nat, meta: Meta, length: int): Parser {
    Parser(length, 0, 0, count, state, meta)
  }

  // Between two bytes of the framing, and after one.
  predicate InFraming(state: State) {
    match state
    case HN | CS | CE | CR | CD | C1 | C2 => true
    case _ => false
  }

  predicate ToFraming(state: State) {
    match state
    case CS | CE | CR | CN | C1 | C2 => true
    case _ => false
  }

  lemma FramingQuiet(from: State, to: State)
    requires InFraming(from) && ToFraming(to)
    ensures !Emits(from, to) && StartToken(to) == TNone && from != BR && to != BD && to != CB && to != BR && to != HV
  {
  }

  lemma ChunkByteReady(p: Parser, c: byte, to: State, pos: nat)
    requires Sound(Between(p, pos)) && InChunks(p.meta) && InFraming(p.state)
    requires to == NextState(p.state, p.meta, c) && ToFraming(to)
    ensures p.meta != ERR && Ready(Enter(p, to)) && Enter(p, to).state == to
    ensures RefStep(Between(p, pos), c) == ControlByte(Between(p, pos), c, to)
  {
    EnterReady(p, c, to);
    NextLeads(p, c);
    hide NextState, ControlByte, Counted;
  }

  /** A byte of the framing. */
  lemma ChunkByte(p: Parser, c: byte, to: State, pos: nat)
    requires Sound(Between(p, pos)) && InChunks(p.meta) && InFraming(p.state)
    requires to == NextState(p.state, p.meta, c) && ToFraming(to)
    ensures p.meta != ERR && Ready(Enter(p, to))
    ensures var q := Act(Enter(p, to), c, 0);
            InRange(q) ==>
              Reads(Between(p, pos), [c], Settle(Between(q, pos + 1), p.state != to).0, Settle(Between(q, pos + 1), p.state != to).1)
  {
    hide NextState, Reads, Sound, RefStep, Enter, Act, Settle, InFraming, ToFraming, Pre, Emits, StartToken;
    FramingQuiet(p.state, to);
    ChunkByteReady(p, c, to, pos);
    ReadsByte(Between(p, pos), c);
    var q := Act(Enter(p, to), c, 0);
    assert [] + Settle(Between(q, pos + 1), p.state != to).1 == Settle(Between(q, pos + 1), p.state != to).1;
  }

  /** A byte that takes the parser from p to q. */
  predicate Moves(p: Parser, c: byte, to: State, q: Parser) {
    && InFraming(p.state) && InChunks(p.meta)
    && to == NextState(p.state, p.meta, c) && ToFraming(to)
    && p.meta != ERR && Enter(p, to).state == to && Ready(Enter(p, to)) && q == Act(Enter(p, to), c, 0) && InRange(q) && q.state == to
  }

  lemma ChunkMove(p: Parser, c: byte, to: State, pos: nat, q: Parser)
    requires Sound(Between(p, pos)) && Moves(p, c, to, q) && to in {CS, CE, CR, C1}
    ensures Reads(Between(p, pos), [c], Between(q, pos + 1), [])
  {
    hide NextState, Reads, Sound, Enter, Act, InRange, Ready;
    ChunkByte(p, c, to, pos);
    assert Settle(Between(q, pos + 1), p.state != to) == (Between(q, pos + 1), []);
  }

  lemma LineMove(p: Parser, c: byte, to: State, pos: nat, q: Parser)
    requires Sound(Between(p, pos)) && Moves(p, c, to, q) && p.state in {CR, C1} && to in {CN, C2}
    ensures Reads(Between(p, pos), [c], Settle(Between(q, pos + 1), true).0, Settle(Between(q, pos + 1), true).1)
  {
    hide NextState, Reads, Sound, Enter, Act, InRange, Ready, Settle;
    ChunkByte(p, c, to, pos);
  }

  lemma LengthKept(p: Parser, pos: nat)
    requires Sound(Between(p, pos))
    ensures p.contentLength <= INT64_MAX
  {
  }

  // ---- chunk sizes ----

  function SizeMeta(s: seq<byte>): Meta {
    if s == [] then ZER else if s[|s| - 1] == 48 then SizeMeta(s[..|s| - 1]) else CSZ
  }

  // The machine inside a chunk size.
  function InSize(from: State, count: nat, s: seq<byte>, pos: nat): Ref {
    Between(ChunkParser(if s == [] then from else CS, count, SizeMeta(s), HexNumber(s)), pos + |s|)
  }

  lemma {:induction false} SizeFacts(s: seq<byte>)
    requires All(s, IsHex)
    ensures 0 <= HexNumber(s) && (HexNumber(s) == 0 <==> SizeMeta(s) == ZER) && SizeMeta(s) in {ZER, CSZ}
    ensures s != [] ==> HexNumber(s[..|s| - 1]) <= HexNumber(s)
    decreases |s|
  {
    if s != [] {
      SizeFacts(s[..|s| - 1]);
    }
  }

  // What a size digit does to the parser.
  lemma DigitMoves(from: State, count: nat, meta: Meta, length: int, c: byte)
    requires (from == CS && meta in {ZER, CSZ}) || ((from == HN || from == C2) && meta == ZER)
    requires IsHex(c) && length * 16 + HexValue(c) <= INT64_MAX
    ensures Moves(ChunkParser(from, count, meta, length), c, CS,
                  ChunkParser(CS, count, if c == 48 then meta else CSZ, length * 16 + HexValue(c)))
  {
    ChunkClasses(c);
    hide Row, Classify;
  }

  lemma SizeNext(from: State, count: nat, s: seq<byte>, c: byte, pos: nat)
    requires (from == HN || from == C2) && IsHex(c) && SizeMeta(s) in {ZER, CSZ} && HexNumber(s + [c]) <= INT64_MAX
    ensures Moves(InSize(from, count, s, pos).p, c, CS, InSize(from, count, s + [c], pos).p)
  {
    hide Moves, HexValue;
    assert (s + [c])[..|s|] == s;
    DigitMoves(if s == [] then from else CS, count, SizeMeta(s), HexNumber(s), c);
  }

  lemma SizeByte(from: State, count: nat, s: seq<byte>, c: byte, pos: nat)
    requires (from == HN || from == C2) && IsHex(c) && SizeMeta(s) in {ZER, CSZ} && HexNumber(s + [c]) <= INT64_MAX
    requires Sound(InSize(from, count, s, pos))
    ensures Reads(InSize(from, count, s, pos), [c], InSize(from, count, s + [c], pos), [])
  {
    hide Reads, Sound, Moves, HexNumber;
    SizeNext(from, count, s, c, pos);
    ChunkMove(InSize(from, count, s, pos).p, c, CS, pos + |s|, InSize(from, count, s + [c], pos).p);
  }

  lemma {:induction false} SizeRun(from: State, count: nat, s: seq<byte>, pos: nat)
    requires (from == HN || from == C2) && All(s, IsHex) && HexNumber(s) <= INT64_MAX
    requires Sound(InSize(from, count, [], pos))
    ensures Reads(InSize(from, count, [], pos), s, InSize(from, count, s, pos), [])
    decreases |s|
  {
    hide Reads, Sound, InSize, HexNumber;
    if s == [] {
      ReadsNothing(InSize(from, count, [], pos));
    } else {
      var n := |s| - 1;
      assert s == s[..n] + [s[n]];
      SizeFacts(s);
      SizeFacts(s[..n]);
      SizeRun(from, count, s[..n], pos);
      ReadsSound(InSize(from, count, [], pos), s[..n], InSize(from, count, s[..n], pos), []);
      SizeByte(from, count, s[..n], s[n], pos);
      Chain(InSize(from, count, [], pos), s[..n], InSize(from, count, s[..n], pos), [], [s[n]], InSize(from, count, s, pos), []);
      NothingMore();
    }
  }

  // ---- the rest of the size line ----

  // What the other bytes of the framing do.
  lemma ExtMoves(count: nat, meta: Meta, length: int, c: byte)
    requires meta in {CBD, LST} && length <= INT64_MAX
    ensures ExtByte(c) ==> Moves(ChunkParser(CE, count, meta, length), c, CE, ChunkParser(CE, count, meta, length))
    ensures c == 13 ==> Moves(ChunkParser(CE, count, meta, length), c, CR, ChunkParser(CR, count, meta, length))
  {
    ChunkClasses(c);
    hide Row, Classify;
  }

  lemma SizeMoves(count: nat, meta: Meta, length: int, c: byte)
    requires meta in {ZER, CSZ} && length <= INT64_MAX && (c == 59 || c == 13)
    ensures var to := if c == 59 then CE else CR;
            Moves(ChunkParser(CS, count, meta, length), c, to, ChunkParser(to, count, if meta == ZER then LST else CBD, length))
  {
    ChunkClasses(c);
    hide Row, Classify;
  }

  lemma EndMoves(count: nat, meta: Meta, length: int)
    requires meta in {CBD, LST} && length <= INT64_MAX
    ensures Moves(ChunkParser(CR, count, meta, length), 10, CN, ChunkParser(CN, count, meta, length))
  {
    ChunkEnds(10);
    hide Row, Classify;
  }

  lemma DataMoves(count: nat, meta: Meta, length: int)
    requires meta in {CBD, LST} && length <= INT64_MAX
    ensures Moves(ChunkParser(CD, count, meta, length), 13, C1, ChunkParser(C1, count, meta, length))
    ensures Moves(ChunkParser(C1, count, meta, length), 10, C2, ChunkParser(C2, count, if meta == LST then END else ZER, length))
  {
    ReturnMoves(count, meta, length);
    FeedMoves(count, meta, length);
    hide Moves;
  }

  lemma ReturnMoves(count: nat, meta: Meta, length: int)
    requires meta in {CBD, LST} && length <= INT64_MAX
    ensures Moves(ChunkParser(CD, count, meta, length), 13, C1, ChunkParser(C1, count, meta, length))
  {
    ChunkEnds(13);
    hide Row, Classify;
  }

  lemma FeedMoves(count: nat, meta: Meta, length: int)
    requires meta in {CBD, LST} && length <= INT64_MAX
    ensures Moves(ChunkParser(C1, count, meta, length), 10, C2, ChunkParser(C2, count, if meta == LST then END else ZER, length))
  {
    ChunkEnds(10);
    hide Row, Classify;
  }

  lemma ExtByteRun(count: nat, meta: Meta, length: int, c: byte, pos: nat)
    requires ExtByte(c) && Sound(Between(ChunkParser(CE, count, meta, length), pos)) && meta in {CBD, LST}
    ensures Reads(Between(ChunkParser(CE, count, meta, length), pos), [c],
                  Between(ChunkParser(CE, count, meta, length), pos + 1), [])
  {
    hide Reads, Sound, Moves;
    var p := ChunkParser(CE, count, meta, length);
    LengthKept(p, pos);
    ExtMoves(count, meta, length, c);
    ChunkMove(p, c, CE, pos, p);
  }

  lemma {:induction false} ExtRun(count: nat, meta: Meta, length: int, ext: seq<byte>, pos: nat)
    requires All(ext, ExtByte) && Sound(Between(ChunkParser(CE, count, meta, length), pos)) && meta in {CBD, LST}
    ensures Reads(Between(ChunkParser(CE, count, meta, length), pos), ext,
                  Between(ChunkParser(CE, count, meta, length), pos + |ext|), [])
    decreases |ext|
  {
    hide Reads, Sound, ChunkParser;
    var p := ChunkParser(CE, count, meta, length);
    if ext == [] {
      ReadsNothing(Between(p, pos));
    } else {
      ExtByteRun(count, meta, length, ext[0], pos);
      ReadsSound(Between(p, pos), [ext[0]], Between(p, pos + 1), []);
      ExtRun(count, meta, length, ext[1..], pos + 1);
      Chain(Between(p, pos), [ext[0]], Between(p, pos + 1), [], ext[1..], Between(p, pos + |ext|), []);
      assert [ext[0]] + ext[1..] == ext;
      NothingMore();
    }
  }

  /** The byte that ends the digits: the size is settled. */
  lemma SizeEnd(count: nat, meta: Meta, length: int, c: byte, pos: nat)
    requires (c == 59 || c == 13) && meta in {ZER, CSZ} && Sound(Between(ChunkParser(CS, count, meta, length), pos))
    ensures Reads(Between(ChunkParser(CS, count, meta, length), pos), [c],
                  Between(ChunkParser(if c == 59 then CE else CR, count, if meta == ZER then LST else CBD, length), pos + 1), [])
  {
    hide Reads, Sound, Moves;
    var p := ChunkParser(CS, count, meta, length);
    var to := if c == 59 then CE else CR;
    LengthKept(p, pos);
    SizeMoves(count, meta, length, c);
    ChunkMove(p, c, to, pos, ChunkParser(to, count, if meta == ZER then LST else CBD, length));
  }

  lemma ExtEnd(count: nat, meta: Meta, length: int, pos: nat)
    requires meta in {CBD, LST} && Sound(Between(ChunkParser(CE, count, meta, length), pos))
    ensures Reads(Between(ChunkParser(CE, count, meta, length), pos), [13],
                  Between(ChunkParser(CR, count, meta, length), pos + 1), [])
  {
    hide Reads, Sound, Moves;
    var p := ChunkParser(CE, count, meta, length);
    LengthKept(p, pos);
    ExtMoves(count, meta, length, 13);
    ChunkMove(p, 13, CR, pos, ChunkParser(CR, count, meta, length));
  }

  // The machine at the end of a size line, and what it hands out there.
  function AfterSize(count: nat, meta: Meta, length: int, pos: nat): (Ref, seq<Piece>) {
    if length == 0 then (Between(ChunkParser(CD, count, meta, 0), pos), [EmptyChunk])
    else (Between(ChunkParser(CN, count, meta, length), pos), [])
  }

  lemma LineEnd(count: nat, meta: Meta, length: int, pos: nat)
    requires meta in {CBD, LST} && Sound(Between(ChunkParser(CR, count, meta, length), pos))
    requires 0 <= length <= INT_MAX - MAX_REQUEST_BUF_SIZE
    ensures var (r, out) := AfterSize(count, meta, length, pos + 1);
            Reads(Between(ChunkParser(CR, count, meta, length), pos), [10], r, out)
  {
    hide Reads, Sound, Moves, Settle, AfterSize;
    SizeSettles(count, meta, length, pos + 1);
    EndMoves(count, meta, length);
    LineMove(ChunkParser(CR, count, meta, length), 10, CN, pos, ChunkParser(CN, count, meta, length));
  }

  lemma SizeSettles(count: nat, meta: Meta, length: int, pos: nat)
    requires 0 <= length <= INT_MAX - MAX_REQUEST_BUF_SIZE
    ensures Settle(Between(ChunkParser(CN, count, meta, length), pos), true) == AfterSize(count, meta, length, pos)
  {
  }

  /** The extension, if any, and the carriage return. */
  lemma ExtThen(count: nat, meta: Meta, length: int, ext: seq<byte>, pos: nat)
    requires meta in {ZER, CSZ} && Sound(Between(ChunkParser(CS, count, meta, length), pos)) && GoodExt(ext)
    ensures Reads(Between(ChunkParser(CS, count, meta, length), pos), ext + [13],
                  Between(ChunkParser(CR, count, if meta == ZER then LST else CBD, length), pos + |ext| + 1), [])
  {
    hide Reads, Sound, ChunkParser;
    var m := if meta == ZER then LST else CBD;
    var r0 := Between(ChunkParser(CS, count, meta, length), pos);
    if ext == [] {
      SizeEnd(count, meta, length, 13, pos);
      assert ext + [13] == [13];
    } else {
      var r1 := Between(ChunkParser(CE, count, m, length), pos + 1);
      var r2 := Between(ChunkParser(CE, count, m, length), pos + |ext|);
      SizeEnd(count, meta, length, 59, pos);
      ReadsSound(r0, [59], r1, []);
      ExtRun(count, m, length, ext[1..], pos + 1);
      ReadsSound(r1, ext[1..], r2, []);
      ExtEnd(count, m, length, pos + |ext|);
      Chain3(r0, [59], r1, [], ext[1..], r2, [], [13], Between(ChunkParser(CR, count, m, length), pos + |ext| + 1), []);
      assert [59] + ext[1..] + [13] == ext + [13];
      NothingMore();
    }
  }

  /** A whole size line. */
  lemma SizeLine(from: State, count: nat, k: Chunk, pos: nat)
    requires (from == HN || from == C2) && k.size != [] && All(k.size, IsHex) && GoodExt(k.ext)
    requires HexNumber(k.size) <= INT_MAX - MAX_REQUEST_BUF_SIZE
    requires Sound(Between(ChunkParser(from, count, ZER, 0), pos))
    ensures var n := HexNumber(k.size);
            var (r, out) := AfterSize(count, if n == 0 then LST else CBD, n, pos + |k.size| + |k.ext| + 2);
            Reads(Between(ChunkParser(from, count, ZER, 0), pos), k.size + k.ext + CRLF, r, out)
  {
    hide Reads, Sound, ChunkParser, AfterSize;
    var n := HexNumber(k.size);
    var m := if n == 0 then LST else CBD;
    var at := pos + |k.size|;
    SizeFacts(k.size);
    SizeRun(from, count, k.size, pos);
    var r0, r1 := Between(ChunkParser(from, count, ZER, 0), pos), Between(ChunkParser(CS, count, SizeMeta(k.size), n), at);
    var r2 := Between(ChunkParser(CR, count, m, n), at + |k.ext| + 1);
    assert InSize(from, count, [], pos) == r0 && InSize(from, count, k.size, pos) == r1;
    ReadsSound(r0, k.size, r1, []);
    ExtThen(count, SizeMeta(k.size), n, k.ext, at);
    ReadsSound(r1, k.ext + [13], r2, []);
    LineEnd(count, m, n, at + |k.ext| + 1);
    var (r3, out) := AfterSize(count, m, n, at + |k.ext| + 2);
    Chain3(r0, k.size, r1, [], k.ext + [13], r2, [], [10], r3, out);
    assert k.size + (k.ext + [13]) + [10] == k.size + k.ext + CRLF;
    assert [] + [] + out == out;
  }

  // ---- the data and its line end ----

  lemma ChunkEnd(count: nat, meta: Meta, pos: nat)
    requires meta in {CBD, LST} && Sound(Between(ChunkParser(CD, count, meta, 0), pos))
    ensures var (r, out) := AfterChunk(count, meta, pos + 2);
            Reads(Between(ChunkParser(CD, count, meta, 0), pos), CRLF, r, out)
  {
    hide Reads, Sound, ChunkParser, AfterChunk;
    var r0, r1 := Between(ChunkParser(CD, count, meta, 0), pos), Between(ChunkParser(C1, count, meta, 0), pos + 1);
    var (r2, out) := AfterChunk(count, meta, pos + 2);
    DataReturn(count, meta, pos);
    ReadsSound(r0, [13], r1, []);
    DataFeed(count, meta, pos + 1);
    Chain(r0, [13], r1, [], [10], r2, out);
    assert [13] + [10] == CRLF && [] + out == out;
  }

  // After a chunk comes the next size; after the last one, nothing.
  function AfterChunk(count: nat, meta: Meta, pos: nat): (Ref, seq<Piece>) {
    if meta == LST then (Done, [RequestEnd]) else (Between(ChunkParser(C2, count, ZER, 0), pos), [])
  }

  lemma DataReturn(count: nat, meta: Meta, pos: nat)
    requires meta in {CBD, LST} && Sound(Between(ChunkParser(CD, count, meta, 0), pos))
    ensures Reads(Between(ChunkParser(CD, count, meta, 0), pos), [13], Between(ChunkParser(C1, count, meta, 0), pos + 1), [])
  {
    hide Reads, Sound, Moves;
    DataMoves(count, meta, 0);
    ChunkMove(ChunkParser(CD, count, meta, 0), 13, C1, pos, ChunkParser(C1, count, meta, 0));
  }

  lemma DataFeed(count: nat, meta: Meta, pos: nat)
    requires meta in {CBD, LST} && Sound(Between(ChunkParser(C1, count, meta, 0), pos))
    ensures var (r, out) := AfterChunk(count, meta, pos + 1);
            Reads(Between(ChunkParser(C1, count, meta, 0), pos), [10], r, out)
  {
    hide Reads, Sound, Moves, Settle, AfterChunk;
    DataMoves(count, meta, 0);
    var q := ChunkParser(C2, count, if meta == LST then END else ZER, 0);
    ChunkSettles(count, meta, pos + 1);
    LineMove(ChunkParser(C1, count, meta, 0), 10, C2, pos, q);
  }

  lemma ChunkSettles(count: nat, meta: Meta, pos: nat)
    ensures Settle(Between(ChunkParser(C2, count, if meta == LST then END else ZER, 0), pos), true) == AfterChunk(count, meta, pos)
  {
  }

  lemma DataReads(count: nat, data: seq<byte>, pos: nat)
    requires data != [] && Sound(Between(ChunkParser(CN, count, CBD, |data|), pos))
    ensures Reads(Between(ChunkParser(CN, count, CBD, |data|), pos), data,
                  Between(ChunkParser(CD, count, CBD, 0), pos + |data|), [Piece(TChunkBody, 0, data)])
  {
    var r := Between(ChunkParser(CN, count, CBD, |data|), pos);
    RefRunSound(r, data);
    hide Sound;
    BodyRun(r, data, CB);
  }

  /** One chunk comes out as one piece. */
  lemma ChunkRun(from: State, count: nat, k: Chunk, pos: nat)
    requires (from == HN || from == C2) && GoodChunk(k) && Sound(Between(ChunkParser(from, count, ZER, 0), pos))
    ensures Reads(Between(ChunkParser(from, count, ZER, 0), pos), PrintChunk(k),
                  Between(ChunkParser(C2, count, ZER, 0), pos + |PrintChunk(k)|), [Piece(TChunkBody, 0, k.data)])
  {
    hide Reads, Sound, ChunkParser, Numeral, HexNumber;
    SizeNumeral(k.size, |k.data|);
    var n := |k.data|;
    var at1 := pos + |k.size| + |k.ext| + 2;
    var at2 := at1 + n;
    var r0, r1 := Between(ChunkParser(from, count, ZER, 0), pos), Between(ChunkParser(CN, count, CBD, n), at1);
    var r2, r3 := Between(ChunkParser(CD, count, CBD, 0), at2), Between(ChunkParser(C2, count, ZER, 0), at2 + 2);
    var out := [Piece(TChunkBody, 0, k.data)];
    SizeLine(from, count, k, pos);
    ReadsSound(r0, k.size + k.ext + CRLF, r1, []);
    DataReads(count, k.data, at1);
    ReadsSound(r1, k.data, r2, out);
    ChunkEnd(count, CBD, at2);
    Chain3(r0, k.size + k.ext + CRLF, r1, [], k.data, r2, out, CRLF, r3, []);
    assert [] + out + [] == out;
  }

  /** The last chunk ends the request. */
  lemma LastRun(from: State, count: nat, k: Chunk, pos: nat)
    requires (from == HN || from == C2) && GoodLast(k) && Sound(Between(ChunkParser(from, count, ZER, 0), pos))
    ensures Reads(Between(ChunkParser(from, count, ZER, 0), pos), PrintChunk(k), Done, [EmptyChunk, RequestEnd])
  {
    hide Reads, Sound, ChunkParser, Numeral, HexNumber;
    SizeNumeral(k.size, 0);
    var at := pos + |k.size| + |k.ext| + 2;
    var r0, r1 := Between(ChunkParser(from, count, ZER, 0), pos), Between(ChunkParser(CD, count, LST, 0), at);
    SizeLine(from, count, k, pos);
    ReadsSound(r0, k.size + k.ext + CRLF, r1, [EmptyChunk]);
    ChunkEnd(count, LST, at);
    Chain(r0, k.size + k.ext + CRLF, r1, [EmptyChunk], CRLF, Done, [RequestEnd]);
    assert k.size + k.ext + CRLF + k.data + CRLF == k.size + k.ext + CRLF + CRLF;
    assert [EmptyChunk] + [RequestEnd] == [EmptyChunk, RequestEnd];
  }

  /** A chunked body: its chunks, then one empty chunk and the end of the request. */
  lemma {:induction false} ChunksRun(from: State, count: nat, ks: seq<Chunk>, last: Chunk, pos: nat)
    requires (from == HN || from == C2) && GoodLast(last) && (forall i :: 0 <= i < |ks| ==> GoodChunk(ks[i]))
    requires Sound(Between(ChunkParser(from, count, ZER, 0), pos))
    ensures Reads(Between(ChunkParser(from, count, ZER, 0), pos), PrintChunks(ks) + PrintChunk(last), Done,
                  DataPieces(ks) + [EmptyChunk, RequestEnd])
    decreases |ks|
  {
    hide Reads, Sound, ChunkParser, PrintChunk, GoodChunk, GoodLast;
    if ks == [] {
      LastRun(from, count, last, pos);
      assert PrintChunks(ks) + PrintChunk(last) == PrintChunk(last);
      assert DataPieces(ks) + [EmptyChunk, RequestEnd] == [EmptyChunk, RequestEnd];
    } else {
      var r0 := Between(ChunkParser(from, count, ZER, 0), pos);
      var r1 := Between(ChunkParser(C2, count, ZER, 0), pos + |PrintChunk(ks[0])|);
      var out := [Piece(TChunkBody, 0, ks[0].data)];
      ChunkRun(from, count, ks[0], pos);
      ReadsSound(r0, PrintChunk(ks[0]), r1, out);
      ChunksRun(C2, count, ks[1..], last, pos + |PrintChunk(ks[0])|);
      Chain(r0, PrintChunk(ks[0]), r1, out, PrintChunks(ks[1..]) + PrintChunk(last), Done,
            DataPieces(ks[1..]) + [EmptyChunk, RequestEnd]);
      assert PrintChunk(ks[0]) + (PrintChunks(ks[1..]) + PrintChunk(last)) == PrintChunks(ks) + PrintChunk(last);
      assert out + (DataPieces(ks[1..]) + [EmptyChunk, RequestEnd]) == DataPieces(ks) + [EmptyChunk, RequestEnd];
    }
  }

  /** The first byte of a chunked body is not checked: any byte that is no hex
      digit stands there for a chunk without data, which is not the last. */
  lemma FirstByteUnchecked(count: nat, c: byte, pos: nat)
    requires !IsHex(c) && Sound(Between(ChunkParser(HN, count, ZER, 0), pos))
    ensures Reads(Between(ChunkParser(HN, count, ZER, 0), pos), [c] + ([13] + [10]) + CRLF,
                  Between(ChunkParser(C2, count, ZER, 0), pos + 5), [EmptyChunk])
  {
    hide Reads, Sound, ChunkParser;
    var r0, r1 := Between(ChunkParser(HN, count, ZER, 0), pos), Between(ChunkParser(CS, count, CSZ, 0), pos + 1);
    var r2, r3 := Between(ChunkParser(CR, count, CBD, 0), pos + 2), Between(ChunkParser(CD, count, CBD, 0), pos + 3);
    FirstByte(count, c, pos);
    ReadsSound(r0, [c], r1, []);
    SizeEnd(count, CSZ, 0, 13, pos + 1);
    ReadsSound(r1, [13], r2, []);
    LineEnd(count, CBD, 0, pos + 2);
    ReadsSound(r2, [10], r3, [EmptyChunk]);
    ChunkEnd(count, CBD, pos + 3);
    Chain(r1, [13], r2, [], [10], r3, [EmptyChunk]);
    assert [] + [EmptyChunk] == [EmptyChunk];
    Chain3(r0, [c], r1, [], [13] + [10], r3, [EmptyChunk], CRLF, Between(ChunkParser(C2, count, ZER, 0), pos + 5), []);
    assert [] + [EmptyChunk] + [] == [EmptyChunk];
  }

  lemma FirstMoves(count: nat, c: byte)
    requires !IsHex(c)
    ensures Moves(ChunkParser(HN, count, ZER, 0), c, CS, ChunkParser(CS, count, CSZ, 0))
  {
    ChunkClasses(c);
    hide Row, Classify;
  }

  lemma FirstByte(count: nat, c: byte, pos: nat)
    requires !IsHex(c) && Sound(Between(ChunkParser(HN, count, ZER, 0), pos))
    ensures Reads(Between(ChunkParser(HN, count, ZER, 0), pos), [c], Between(ChunkParser(CS, count, CSZ, 0), pos + 1), [])
  {
    hide Reads, Sound, Moves;
    assert Moves(ChunkParser(HN, count, ZER, 0), c, CS, ChunkParser(CS, count, CSZ, 0)) by { FirstMoves(count, c); }
    ChunkMove(ChunkParser(HN, count, ZER, 0), c, CS, pos, ChunkParser(CS, count, CSZ, 0));
  }

  // ---- whole sessions ----

  /** A head that announces chunks, and the chunks. */
  predicate ChunkedRequest(h: Head, ks: seq<Chunk>, last: Chunk) {
    && WellFormed(h) && Frame(h.headers, NoLength) == Chunked && |Print(h)| <= MAX_REQUEST_BUF_SIZE
    && GoodLast(last) && (forall i :: 0 <= i < |ks| ==> GoodChunk(ks[i]))
  }

  function ChunkedPieces(h: Head, ks: seq<Chunk>): seq<Piece> {
    HeadPieces(h, 0) + [StreamSignal] + (DataPieces(ks) + [EmptyChunk, RequestEnd])
  }

  /** A chunked request, however it is cut into reads that the buffer has room
      for: the head's tokens, the signal, the data of every chunk, one empty
      chunk, the end. */
  lemma ChunkedServed(inputs: seq<seq<byte>>, h: Head, ks: seq<Chunk>, last: Chunk)
    requires ChunkedRequest(h, ks, last) && Short(h) && Concat(inputs) == Print(h) + (PrintChunks(ks) + PrintChunk(last))
    requires |Concat(inputs)| <= MAX_REQUEST_BUF_SIZE || Serve(inputs).status != NotARead
    ensures Serve(inputs).status.Live?
    ensures Serve(inputs).tokens == ChunkedPieces(h, ks)
  {
    hide Sound, Serve, ChunkedRequest, ChunkedPieces, Short, Print, PrintChunks, PrintChunk, Reads, NoLong, RefRun, Concat;
    ChunkedRun(h, ks, last);
    ShortChunked(h, ks);
    DoneRun(Print(h) + (PrintChunks(ks) + PrintChunk(last)), ChunkedPieces(h, ks));
    if |Concat(inputs)| <= MAX_REQUEST_BUF_SIZE {
      ServeRoom(inputs);
    }
    ServeQuiet(inputs);
  }

  lemma DoneRun(bytes: seq<byte>, out: seq<Piece>)
    requires Reads(Start, bytes, Done, out)
    ensures Sound(Start) && RefRun(Start, bytes) == (Done, out)
  {
  }

  /** A whole chunked request. */
  lemma ChunkedRun(h: Head, ks: seq<Chunk>, last: Chunk)
    requires ChunkedRequest(h, ks, last)
    ensures Reads(Start, Print(h) + (PrintChunks(ks) + PrintChunk(last)), Done, ChunkedPieces(h, ks))
  {
    hide Sound, WellFormed, GoodLast, GoodChunk, Print, HeadPieces, DataPieces, PrintChunks, PrintChunk, Reads;
    var r1 := Between(ChunkParser(HN, |h.headers|, ZER, 0), |Print(h)|);
    ChunkedHead(h);
    ReadsSound(Start, Print(h), r1, HeadPieces(h, 0) + [StreamSignal]);
    ChunksRun(HN, |h.headers|, ks, last, |Print(h)|);
    Chain(Start, Print(h), r1, HeadPieces(h, 0) + [StreamSignal], PrintChunks(ks) + PrintChunk(last), Done,
          DataPieces(ks) + [EmptyChunk, RequestEnd]);
  }

  /** The head of a chunked request. */
  lemma ChunkedHead(h: Head)
    requires WellFormed(h) && Frame(h.headers, NoLength) == Chunked && |Print(h)| <= MAX_REQUEST_BUF_SIZE
    ensures Reads(Start, Print(h), Between(ChunkParser(HN, |h.headers|, ZER, 0), |Print(h)|), HeadPieces(h, 0) + [StreamSignal])
  {
    hide Sound, WellFormed, Print, HeadPieces, Reads;
    HeadRun(h, 0);
    assert Start == Between(FreshParser, 0);
    assert AfterHead(|h.headers|, Chunked, |Print(h)|)
        == (Between(ChunkParser(HN, |h.headers|, ZER, 0), |Print(h)|), [StreamSignal]);
  }

  lemma ShortChunked(h: Head, ks: seq<Chunk>)
    requires Short(h)
    ensures NoLong(ChunkedPieces(h, ks))
  {
    hide Short, HeadPieces, DataPieces, NoLong;
    ShortPieces(h, 0);
    ShortData(ks);
    SignalShort();
    NoLongJoin(HeadPieces(h, 0), [StreamSignal]);
    NoLongJoin(HeadPieces(h, 0) + [StreamSignal], DataPieces(ks) + [EmptyChunk, RequestEnd]);
  }

  lemma SignalShort()
    ensures NoLong([StreamSignal])
  {
  }

  // Chunk data is not bound by the limit on tokens.
  lemma ShortData(ks: seq<Chunk>)
    ensures NoLong(DataPieces(ks) + [EmptyChunk, RequestEnd])
  {
    DataPiecesAre(ks);
    NoLongOf([EmptyChunk, RequestEnd]);
    NoLongJoin(DataPieces(ks), [EmptyChunk, RequestEnd]);
  }

  lemma DataPiecesAre(ks: seq<Chunk>)
    ensures |DataPieces(ks)| == |ks|
    ensures forall i :: 0 <= i < |ks| ==> DataPieces(ks)[i] == Piece(TChunkBody, 0, ks[i].data)
  {
  }

  // ---- the framing of http_respond_chunk ----

  /** "%X" and its line end, the data, and a line end. */
  function FrameChunk(data: seq<byte>): seq<byte> {
    HexText(|data|, true) + CRLF + data + CRLF
  }

  function FrameAll(texts: seq<seq<byte>>): seq<byte> {
    if texts == [] then [] else FrameChunk(texts[0]) + FrameAll(texts[1..])
  }

  // 0 CRLF CRLF
  const LastFrame: seq<byte> := [48, 13, 10, 13, 10]

  function AsChunk(data: seq<byte>): Chunk {
    Chunk(HexText(|data|, true), [], data)
  }

  function AsChunks(texts: seq<seq<byte>>): (r: seq<Chunk>)
    ensures |r| == |texts|
  {
    seq(|texts|, i requires 0 <= i < |texts| => AsChunk(texts[i]))
  }

  lemma {:induction false} FramesAreChunks(texts: seq<seq<byte>>)
    ensures PrintChunks(AsChunks(texts)) == FrameAll(texts)
    ensures |DataPieces(AsChunks(texts))| == |texts|
    ensures forall i :: 0 <= i < |texts| ==> DataPieces(AsChunks(texts))[i] == Piece(TChunkBody, 0, texts[i])
    decreases |texts|
  {
    if texts != [] {
      FramesAreChunks(texts[1..]);
      assert AsChunks(texts)[1..] == AsChunks(texts[1..]);
      var k := AsChunk(texts[0]);
      assert k.size + k.ext + CRLF == k.size + CRLF;
    }
  }

  lemma FramesRun(count: nat, texts: seq<seq<byte>>, pos: nat)
    requires forall i :: 0 <= i < |texts| ==> 0 < |texts[i]| <= INT_MAX - MAX_REQUEST_BUF_SIZE
    requires Sound(Between(ChunkParser(HN, count, ZER, 0), pos))
    ensures Reads(Between(ChunkParser(HN, count, ZER, 0), pos), FrameAll(texts) + LastFrame, Done,
                  DataPieces(AsChunks(texts)) + [EmptyChunk, RequestEnd])
  {
    hide Sound, Reads;
    var ks := AsChunks(texts);
    FramesAreChunks(texts);
    forall i | 0 <= i < |ks|
      ensures GoodChunk(ks[i])
    {
      HexTextReads(|texts[i]|, true);
    }
    LastIsGood();
    ChunksRun(HN, count, ks, Chunk([48], [], []), pos);
  }

  lemma LastIsGood()
    ensures GoodLast(Chunk([48], [], [])) && PrintChunk(Chunk([48], [], [])) == LastFrame
  {
  }

  /** What http_respond_chunk frames is read back: any list of non-empty texts,
      fed in any reads to a driver whose parser the blank line of a chunked
      request has just left in state HN. */
  lemma FramingRoundTrip(count: nat, s: Stream, inputs: seq<seq<byte>>, texts: seq<seq<byte>>)
    requires Inv(ChunkParser(HN, count, ZER, 0), s) && s.Unread() == [] && Concat(inputs) == FrameAll(texts) + LastFrame
    requires Served(ChunkParser(HN, count, ZER, 0), s, inputs).status != NotARead
    requires forall i :: 0 <= i < |texts| ==> 0 < |texts[i]| <= INT_MAX - MAX_REQUEST_BUF_SIZE
    ensures var t := Served(ChunkParser(HN, count, ZER, 0), s, inputs);
            && t.status.Live? && |t.tokens| == |texts| + 2
            && (forall i :: 0 <= i < |texts| ==> t.tokens[i] == Piece(TChunkBody, 0, texts[i]))
            && t.tokens[|texts|] == EmptyChunk && t.tokens[|texts| + 1] == RequestEnd
  {
    hide Coupled, Counted, Tokened, Sound, Rel, Served, FrameAll, AsChunks, DataPieces, RefRun, NoLong, Concat;
    var p := ChunkParser(HN, count, ZER, 0);
    AtBodyStart(p, s);
    FramesRun(count, texts, s.index);
    FramesAreChunks(texts);
    ShortData(AsChunks(texts));
    ServedDone(p, s, Between(p, s.index), inputs);
  }

  lemma AtBodyStart(p: Parser, s: Stream)
    requires Inv(p, s) && p.state == HN && p.meta == ZER
    ensures 0 <= s.index && Sound(Between(p, s.index)) && Rel(p, s, Between(p, s.index))
    ensures Pending(p) == [] && !TooLong(s.token)
  {
  }
}
