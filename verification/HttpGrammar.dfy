/** The request head of RFC 7230 (sections 3.1.1 and 3.2): how it is printed, and
    that the reference machine reads back exactly what was printed. */
module HttpGrammar {
  import opened HttpAlphabet
  import opened HttpTables
  import opened HttpParser
  import opened HttpReference
  import opened HttpRefinement
  import opened HttpLimits

  datatype Header = Header(name: seq<byte>, pad: seq<byte>, value: seq<byte>)

  datatype Head = Head(verb: seq<byte>, target: seq<byte>, version: seq<byte>, headers: seq<Header>)

  const CRLF: seq<byte> := [13, 10]

  // Bytes of a method or of a header name: tchar, and the comma.
  predicate NameByte(c: byte) {
    || IsDigit(c) || 65 <= c <= 90 || 97 <= c <= 122
    || c == 33 || 35 <= c <= 39 || 42 <= c <= 46 || 94 <= c <= 96 || c == 124 || c == 126
  }

  predicate Visible(c: byte) { 33 <= c <= 126 }

  predicate Plain(c: byte) { Visible(c) && c != 58 && c != 59 }

  predicate Blank(c: byte) { c == 9 || c == 32 }

  predicate ValueByte(c: byte) { Visible(c) || Blank(c) }

  // Bytes skipped between a colon and a value: blanks, and stray line ends too.
  predicate PadByte(c: byte) { Blank(c) || c == 10 || c == 13 }

  predicate All(s: seq<byte>, P: byte -> bool) { forall i :: 0 <= i < |s| ==> P(s[i]) }

  predicate GoodHeader(h: Header) {
    && 0 < |h.name| && All(h.name, NameByte)
    && All(h.pad, PadByte)
    && 0 < |h.value| && Visible(h.value[0]) && All(h.value, ValueByte)
  }

  // A method (which no digit begins), a target or a version.
  predicate WordText(to: State, text: seq<byte>) {
    && 0 < |text|
    && match to
       case MT => All(text, NameByte) && !IsDigit(text[0])
       case TR => All(text, Visible) && Plain(text[0])
       case _ => All(text, Plain)
  }

  predicate GoodLine(h: Head) {
    WordText(MT, h.verb) && WordText(TR, h.target) && WordText(VN, h.version)
  }

  // ---- printing ----

  function PrintLine(h: Head): seq<byte> {
    h.verb + [32] + h.target + [32] + h.version + CRLF
  }

  function PrintHeader(h: Header): seq<byte> {
    h.name + [58] + h.pad + h.value + CRLF
  }

  function PrintHeaders(hs: seq<Header>): seq<byte> {
    if hs == [] then [] else PrintHeader(hs[0]) + PrintHeaders(hs[1..])
  }

  function Print(h: Head): seq<byte> {
    PrintLine(h) + PrintHeaders(h.headers) + CRLF
  }

  // ---- the tokens a printed head stands for ----

  function LinePieces(h: Head, at: nat): seq<Piece> {
    [Piece(TMethod, at, h.verb),
     Piece(TTarget, at + |h.verb| + 1, h.target),
     Piece(TVersion, at + |h.verb| + 1 + |h.target| + 1, h.version)]
  }

  function HeaderPieces(h: Header, at: nat): seq<Piece> {
    [Piece(THeaderKey, at, h.name), Piece(THeaderVal, at + |h.name| + 1 + |h.pad|, h.value)]
  }

  function HeadersPieces(hs: seq<Header>, at: nat): seq<Piece> {
    if hs == [] then [] else HeaderPieces(hs[0], at) + HeadersPieces(hs[1..], at + |PrintHeader(hs[0])|)
  }

  function HeadPieces(h: Head, at: nat): seq<Piece> {
    LinePieces(h, at) + HeadersPieces(h.headers, at + |PrintLine(h)|)
  }

  // ---- the limit ----

  /** No text of the head is beyond the limit on tokens. */
  predicate Short(h: Head) {
    && |h.verb| <= 8192 && |h.target| <= 8192 && |h.version| <= 8192
    && ShortHeaders(h.headers)
  }

  predicate ShortHeaders(hs: seq<Header>) {
    forall i :: 0 <= i < |hs| ==> |hs[i].name| <= 8192 && |hs[i].value| <= 8192
  }

  lemma NoLongOf(out: seq<Piece>)
    requires |out| == 2 || |out| == 3
    ensures NoLong(out) <==> !Long(out[0]) && !Long(out[1]) && (|out| == 3 ==> !Long(out[2]))
  {
  }

  lemma {:induction false} ShortHeaderPieces(hs: seq<Header>, at: nat)
    ensures NoLong(HeadersPieces(hs, at)) <==> ShortHeaders(hs)
    decreases |hs|
  {
    hide Long, NoLong;
    if hs == [] {
      NoneLong();
    } else {
      var next := at + |PrintHeader(hs[0])|;
      ShortHeaderPieces(hs[1..], next);
      NoLongJoin(HeaderPieces(hs[0], at), HeadersPieces(hs[1..], next));
      HeaderShort(hs[0], at);
      assert hs == [hs[0]] + hs[1..];
    }
  }

  lemma NoneLong()
    ensures NoLong([])
  {
  }

  lemma HeaderShort(h: Header, at: nat)
    ensures NoLong(HeaderPieces(h, at)) <==> |h.name| <= MAX_TOKEN_LENGTH && |h.value| <= MAX_TOKEN_LENGTH
  {
    NoLongOf(HeaderPieces(h, at));
  }

  lemma ShortPieces(h: Head, at: nat)
    ensures NoLong(HeadPieces(h, at)) <==> Short(h)
  {
    hide NoLong, ShortHeaders, PrintLine, LinePieces, HeadersPieces;
    NoLongJoin(LinePieces(h, at), HeadersPieces(h.headers, at + |PrintLine(h)|));
    LineShort(h, at);
    ShortHeaderPieces(h.headers, at + |PrintLine(h)|);
  }

  lemma LineShort(h: Head, at: nat)
    ensures NoLong(LinePieces(h, at)) <==>
            |h.verb| <= MAX_TOKEN_LENGTH && |h.target| <= MAX_TOKEN_LENGTH && |h.version| <= MAX_TOKEN_LENGTH
  {
    hide NoLong;
    NoLongOf(LinePieces(h, at));
  }

  // ---- framing: which header decides how long the body is ----

  datatype Framing = NoLength | Length(n: int) | Chunked

  /** The value of a string of decimal digits. */
  function Decimal(s: seq<byte>): int {
    if s == [] then 0 else Decimal(s[..|s| - 1]) * 10 + s[|s| - 1] - 48
  }

  /** It is the number that the digits write. */
  lemma {:induction false} DecimalNumeral(s: seq<byte>, n: nat)
    ensures |DECIMAL_DIGITS| == 10
    ensures Numeral(s, n, DECIMAL_DIGITS) <==> s != [] && All(s, IsDigit) && Decimal(s) == n
    decreases |s|
  {
    if s != [] {
      var init, c := s[..|s| - 1], s[|s| - 1];
      assert s == init + [c];
      DecimalPlace(c, n % 10);
      hide Folds;
      if init == [] {
        DigitAlone(s, n);
      } else {
        DecimalNumeral(init, n / 10);
        DigitMore(s, n);
      }
    }
  }

  lemma DigitAlone(s: seq<byte>, n: nat)
    requires |s| == 1
    ensures Decimal(s) == s[0] as int - 48
  {
  }

  lemma DigitMore(s: seq<byte>, n: nat)
    requires |s| > 1
    ensures Decimal(s) == Decimal(s[..|s| - 1]) * 10 + s[|s| - 1] - 48
    ensures All(s, IsDigit) <==> All(s[..|s| - 1], IsDigit) && IsDigit(s[|s| - 1])
  {
    assert s == s[..|s| - 1] + [s[|s| - 1]];
  }

  /** The first header that names a length or a chunked coding decides. */
  function Frame(hs: seq<Header>, f: Framing): Framing {
    if hs == [] then f
    else Frame(hs[1..], FrameBy(f, hs[0]))
  }

  function FrameBy(f: Framing, h: Header): Framing {
    if f != NoLength then f
    else if Begins(h.name, LENGTH_WORD) then Length(Decimal(h.value))
    else if Begins(h.name, ENCODING_WORD) && Begins(h.value, CHUNKED_WORD) then Chunked
    else NoLength
  }

  // The header that decides, when it is a length, holds digits of a 64-bit value.
  predicate FramedBy(f: Framing, h: Header) {
    f == NoLength && Begins(h.name, LENGTH_WORD) ==> All(h.value, IsDigit) && Decimal(h.value) <= INT64_MAX
  }

  // ---- single bytes ----

  lemma ByteClasses(c: byte)
    ensures Row(ST, Classify(c)) == (if NameByte(c) && !IsDigit(c) then MT else BR)
    ensures Row(MT, Classify(c)) == (if NameByte(c) then MT else if c == 32 then MS else BR)
    ensures Row(MS, Classify(c)) == (if Plain(c) then TR else BR)
    ensures Row(TR, Classify(c)) == (if Visible(c) then TR else if c == 32 then TS else BR)
    ensures Row(TS, Classify(c)) == (if Plain(c) then VN else BR)
    ensures Row(VN, Classify(c)) == (if Plain(c) then VN else if c == 13 then RR else BR)
  {
  }

  lemma HeaderClasses(c: byte)
    ensures Row(RN, Classify(c)) == (if NameByte(c) then HK else BR)
    ensures Row(HE, Classify(c)) == (if NameByte(c) then HK else if c == 13 then ER else BR)
    ensures Row(HK, Classify(c)) == (if NameByte(c) then HK else if c == 58 then HS else BR)
    ensures Row(HS, Classify(c)) == (if PadByte(c) then HS else if Visible(c) then HV else BR)
    ensures Row(HV, Classify(c)) == (if ValueByte(c) then HV else if c == 13 then HR else BR)
  {
  }

  lemma LineEnds(c: byte)
    ensures Row(RR, Classify(c)) == (if c == 10 then RN else BR)
    ensures Row(HR, Classify(c)) == (if c == 10 then HE else BR)
    ensures Row(ER, Classify(c)) == (if c == 10 then HN else BR)
  {
  }

  predicate HeadState(state: State) {
    match state
    case HN | BD | CS | CB | CE | CR | CN | CD | C1 | C2 | BR => false
    case _ => true
  }

  // The reference machine has not left the head yet.
  predicate InHead(r: Ref) {
    r.Ref? && HeadState(r.p.state)
  }

  // A byte of the head that the machine can take.
  ghost predicate Takes(r: Ref, c: byte, to: State) {
    && r.Ref? && Sound(r) && r.pos < MAX_REQUEST_BUF_SIZE
    && HeadState(r.p.state)
    && to == Row(r.p.state, Classify(c)) && to != BR
    && (to == HV && r.p.meta == CLV ==> IsDigit(c))
  }

  lemma HeadStep(r: Ref, c: byte, to: State)
    requires Takes(r, c, to)
    ensures r.p.meta != ERR && Ready(Enter(r.p, to)) && to != BD && to != CB && !InChunks(r.p.meta) && Leads(r.p.state, to)
    ensures Enter(r.p, to).state == to && Enter(r.p, to).headerCount <= r.p.headerCount + 1
    ensures RefStep(r, c) == ControlByte(r, c, to)
  {
    EnterReady(r.p, c, to);
    NextLeads(r.p, c);
    hide ControlByte, Classify, Row, Counted, StartToken;
  }

  lemma SettleQuiet(r: Ref, entering: bool)
    requires r.Ref? && r.p.state !in {HN, CN, C2}
    requires r.p.state == HK && entering ==> r.p.headerCount <= MAX_HEADER_COUNT
    ensures Settle(r, entering) == (r, [])
  {
  }

  /** A byte of the head: the token in progress grows, begins or comes out. */
  lemma HeadByte(r: Ref, c: byte, to: State)
    requires Takes(r, c, to) && to != HN && (to == HK ==> r.p.headerCount < MAX_HEADER_COUNT || to == r.p.state)
    ensures r.p.meta != ERR && Ready(Enter(r.p, to)) && Leads(r.p.state, to)
    ensures var q := Act(Enter(r.p, to), c, 0);
            InRange(q) ==>
              RefStep(r, c) == (Extend(r, q, c), if Emits(r.p.state, to) then [Piece(r.typ, r.start, r.text)] else [])
  {
    HeadStep(r, c, to);
    hide Takes, Act, Enter, Settle, Leads, Emits, StartToken, Ready, Classify, Row, InRange;
    ActOffset(Enter(r.p, to), c, r.pos, 0);
    var q := Act(Enter(r.p, to), c, 0);
    SettleQuiet(Extend(r, q, c), r.p.state != to);
    var out := if Emits(r.p.state, to) then [Piece(r.typ, r.start, r.text)] else [];
    assert out + [] == out;
  }

  // ---- the request line ----

  lemma RunSnoc(r: Ref, a: seq<byte>, c: byte)
    requires Sound(r)
    ensures Sound(RefRun(r, a).0)
    ensures var (r1, out1) := RefRun(r, a);
            RefRun(r, a + [c]) == (RefStep(r1, c).0, out1 + RefStep(r1, c).1)
  {
    hide Sound, RefStep;
    RunSplit(r, a, [c]);
    OneByte(RefRun(r, a).0, c);
  }

  /** From r, the bytes lead to r1 and hand out the pieces. */
  ghost predicate Reads(r: Ref, bytes: seq<byte>, r1: Ref, out: seq<Piece>) {
    Sound(r) && Sound(r1) && RefRun(r, bytes) == (r1, out)
  }

  lemma Chain(r: Ref, a: seq<byte>, r1: Ref, out1: seq<Piece>, b: seq<byte>, r2: Ref, out2: seq<Piece>)
    requires Reads(r, a, r1, out1) && Reads(r1, b, r2, out2)
    ensures Reads(r, a + b, r2, out1 + out2)
  {
    hide Sound;
    RunSplit(r, a, b);
  }

  lemma ReadsSound(r: Ref, bytes: seq<byte>, r1: Ref, out: seq<Piece>)
    requires Reads(r, bytes, r1, out)
    ensures Sound(r) && Sound(r1)
  {
  }

  lemma NothingMore()
    ensures var none: seq<Piece> := []; none + none == none && none + none + none == none
  {
  }

  lemma FromReads(r: Ref, c: byte, r1: Ref, out: seq<Piece>)
    requires Reads(r, [c], r1, out)
    ensures RefStep(r, c) == (r1, out)
  {
    hide Sound, RefStep;
    OneByte(r, c);
  }

  lemma ReadsNothing(r: Ref)
    requires Sound(r)
    ensures Reads(r, [], r, [])
  {
  }

  lemma ReadsByte(r: Ref, c: byte)
    requires Sound(r)
    ensures Reads(r, [c], RefStep(r, c).0, RefStep(r, c).1)
  {
    hide Sound, RefStep;
    OneByte(r, c);
    RefStepSound(r, c);
  }

  /** The parser in the request line: nothing but its state has moved. */
  function LineParser(state: State): Parser {
    FreshParser.(state := state)
  }

  // The machine between two tokens.
  function Between(p: Parser, pos: nat): Ref {
    Ref(p, TNone, 0, [], pos)
  }

  predicate Edge(from: State, to: State) {
    (from, to) in {(ST, MT), (MS, TR), (TS, VN)}
  }

  predicate WordOf(from: State, to: State, bytes: seq<byte>)
    requires Edge(from, to)
  {
    forall i :: 0 <= i < |bytes| ==> Row(if i == 0 then from else to, Classify(bytes[i])) == to
  }

  // The machine inside a method, target or version that began at pos.
  function InWord(from: State, to: State, text: seq<byte>, pos: nat): Ref {
    if text == [] then Between(LineParser(from), pos)
    else Ref(LineParser(to), StartToken(to), pos, text, pos + |text|)
  }

  lemma WordByte(from: State, to: State, text: seq<byte>, c: byte, pos: nat)
    requires Edge(from, to) && Row(if text == [] then from else to, Classify(c)) == to
    requires pos + |text| < MAX_REQUEST_BUF_SIZE
    requires Sound(InWord(from, to, text, pos))
    ensures RefStep(InWord(from, to, text, pos), c) == (InWord(from, to, text + [c], pos), [])
  {
    hide RefStep, Row, Classify, Sound;
    var r := InWord(from, to, text, pos);
    HeadByte(r, c, to);
    assert [] + [c] == [c];
    assert Enter(r.p, to) == LineParser(to) && Act(LineParser(to), c, 0) == LineParser(to);
    assert Extend(r, LineParser(to), c) == InWord(from, to, text + [c], pos);
  }

  lemma WordStart(from: State, to: State, pos: nat)
    requires Edge(from, to) && pos <= MAX_REQUEST_BUF_SIZE
    ensures Sound(InWord(from, to, [], pos)) && InWord(from, to, [], pos) == Between(LineParser(from), pos)
  {
  }

  /** A method, target or version becomes the token in progress. */
  lemma {:induction false} WordRun(from: State, to: State, bytes: seq<byte>, pos: nat)
    requires Edge(from, to) && WordOf(from, to, bytes)
    requires pos + |bytes| <= MAX_REQUEST_BUF_SIZE
    ensures Reads(Between(LineParser(from), pos), bytes, InWord(from, to, bytes, pos), [])
  {
    hide RefStep, Row, Classify, Sound, InWord, LineParser;
    WordStart(from, to, pos);
    RefRunSound(Between(LineParser(from), pos), bytes);
    if bytes != [] {
      var n := |bytes| - 1;
      assert bytes == bytes[..n] + [bytes[n]];
      WordRun(from, to, bytes[..n], pos);
      RunSnoc(Between(LineParser(from), pos), bytes[..n], bytes[n]);
      WordByte(from, to, bytes[..n], bytes[n], pos);
      assert [] + RefStep(InWord(from, to, bytes[..n], pos), bytes[n]).1 == [];
    }
  }

  // ---- between the words ----

  /** The parser between header lines, once `count` headers are read. */
  function HeadParser(state: State, count: nat, f: Framing): Parser {
    Parser(if f.Length? then f.n else 0, 0, 0, count, state,
           match f case NoLength => ANY case Length(_) => SML case Chunked => CHK)
  }

  // The byte that ends a word, and the state it leads to.
  predicate Ends(from: State, to: State, next: State, c: byte) {
    match to
    case MT => from == ST && next == MS && c == 32
    case TR => from == MS && next == TS && c == 32
    case VN => from == TS && next == RR && c == 13
    case _ => false
  }

  /** A byte between tokens. */
  lemma Hop(p: Parser, c: byte, to: State, pos: nat, q: Parser)
    requires Takes(Between(p, pos), c, to) && to in {RN, HS, HE, ER} && StartToken(p.state) == TNone && (to == HS ==> p.state == HS)
    requires p.meta != ERR && Ready(Enter(p, to)) && q == Act(Enter(p, to), c, 0) && InRange(q) && q.state == to
    ensures Reads(Between(p, pos), [c], Between(q, pos + 1), [])
  {
    hide Takes, Sound, Reads, RefStep, Enter, Act, InRange, Ready;
    HopSound(Between(p, pos), c, to);
    ReadsByte(Between(p, pos), c);
    HeadByte(Between(p, pos), c, to);
  }

  /** A byte that ends a token. */
  lemma EndHop(r: Ref, c: byte, to: State, q: Parser)
    requires Takes(r, c, to) && to in {MS, TS, RR, HS, HR} && (to == HS ==> r.p.state == HK)
    requires r.p.meta != ERR && Ready(Enter(r.p, to)) && q == Act(Enter(r.p, to), c, 0) && InRange(q) && q.state == to
    ensures Reads(r, [c], Between(q, r.pos + 1), [Piece(r.typ, r.start, r.text)])
  {
    hide Takes, Sound, Reads, RefStep, Enter, Act, InRange, Ready;
    HopSound(r, c, to);
    ReadsByte(r, c);
    HeadByte(r, c, to);
  }

  lemma HopSound(r: Ref, c: byte, to: State)
    requires Takes(r, c, to)
    ensures r.Ref? && Sound(r)
  {
  }

  lemma WordEnd(from: State, to: State, next: State, text: seq<byte>, c: byte, pos: nat)
    requires Ends(from, to, next, c)
    requires text != [] && pos + |text| < MAX_REQUEST_BUF_SIZE && Sound(InWord(from, to, text, pos))
    ensures Reads(InWord(from, to, text, pos), [c],
                  Between(if next == RR then HeadParser(RR, 0, NoLength) else LineParser(next), pos + |text| + 1),
                  [Piece(StartToken(to), pos, text)])
  {
    ByteClasses(c);
    hide RefStep, Row, Classify, Sound, Reads;
    var q := if next == RR then HeadParser(RR, 0, NoLength) else LineParser(next);
    EndHop(InWord(from, to, text, pos), c, next, q);
  }

  lemma LineFeed(from: State, to: State, count: nat, f: Framing, pos: nat)
    requires (from, to) in {(RR, RN), (HR, HE)} && pos < MAX_REQUEST_BUF_SIZE && count <= MAX_HEADER_COUNT
    requires Sound(Between(HeadParser(from, count, f), pos))
    ensures Reads(Between(HeadParser(from, count, f), pos), [10], Between(HeadParser(to, count, f), pos + 1), [])
  {
    LineEnds(10);
    assert InRange(HeadParser(from, count, f));
    hide RefStep, Row, Classify, Sound, Reads;
    Hop(HeadParser(from, count, f), 10, to, pos, HeadParser(to, count, f));
  }

  /** The request line. */
  lemma LineRun(h: Head, pos: nat)
    requires GoodLine(h) && pos + |PrintLine(h)| <= MAX_REQUEST_BUF_SIZE
    ensures Reads(Between(FreshParser, pos), PrintLine(h),
                  Between(HeadParser(RN, 0, NoLength), pos + |PrintLine(h)|), LinePieces(h, pos))
  {
    hide Reads, HeadParser, PrintLine;
    PrintedLine(h);
    var p1 := pos + |h.verb| + 1;
    var p2 := p1 + |h.target| + 1;
    var p3 := p2 + |h.version| + 1;
    assert LineParser(ST) == FreshParser;
    WordThen(ST, MT, MS, h.verb, 32, pos);
    WordThen(MS, TR, TS, h.target, 32, p1);
    WordThen(TS, VN, RR, h.version, 13, p2);
    var v := [Piece(TVersion, p2, h.version)];
    LineFeedAfter(Between(LineParser(TS), p2), h.version + [13], p3, RR, RN, 0, NoLength, v);
    Chain3(Between(LineParser(ST), pos), h.verb + [32], Between(LineParser(MS), p1), [Piece(TMethod, pos, h.verb)],
           h.target + [32], Between(LineParser(TS), p2), [Piece(TTarget, p1, h.target)],
           h.version + [13] + [10], Between(HeadParser(RN, 0, NoLength), p3 + 1), v);
    assert [Piece(TMethod, pos, h.verb)] + [Piece(TTarget, p1, h.target)] + v == LinePieces(h, pos);
  }

  lemma PrintedLine(h: Head)
    ensures PrintLine(h) == h.verb + [32] + (h.target + [32]) + (h.version + [13] + [10])
    ensures |PrintLine(h)| == |h.verb| + |h.target| + |h.version| + 4
  {
  }

  lemma Chain3(r: Ref, a: seq<byte>, r1: Ref, out1: seq<Piece>, b: seq<byte>, r2: Ref, out2: seq<Piece>,
               c: seq<byte>, r3: Ref, out3: seq<Piece>)
    requires Reads(r, a, r1, out1) && Reads(r1, b, r2, out2) && Reads(r2, c, r3, out3)
    ensures Reads(r, a + b + c, r3, out1 + out2 + out3)
  {
    hide Reads;
    Chain(r, a, r1, out1, b, r2, out2);
    Chain(r, a + b, r2, out1 + out2, c, r3, out3);
  }

  lemma WordTextOf(from: State, to: State, text: seq<byte>)
    requires Edge(from, to) && WordText(to, text)
    ensures WordOf(from, to, text) && text != []
  {
    hide Row, Classify;
    forall i | 0 <= i < |text|
      ensures Row(if i == 0 then from else to, Classify(text[i])) == to
    {
      ByteClasses(text[i]);
    }
  }

  lemma WordThen(from: State, to: State, next: State, text: seq<byte>, c: byte, pos: nat)
    requires Ends(from, to, next, c)
    requires WordText(to, text) && pos + |text| < MAX_REQUEST_BUF_SIZE
    ensures Reads(Between(LineParser(from), pos), text + [c],
                  Between(if next == RR then HeadParser(RR, 0, NoLength) else LineParser(next), pos + |text| + 1),
                  [Piece(StartToken(to), pos, text)])
  {
    hide Reads, Sound, Row, Classify, WordText, LineParser, HeadParser;
    WordTextOf(from, to, text);
    WordRun(from, to, text, pos);
    ReadsSound(Between(LineParser(from), pos), text, InWord(from, to, text, pos), []);
    WordEnd(from, to, next, text, c, pos);
    var out := [Piece(StartToken(to), pos, text)];
    Chain(Between(LineParser(from), pos), text, InWord(from, to, text, pos), [], [c],
          Between(if next == RR then HeadParser(RR, 0, NoLength) else LineParser(next), pos + |text| + 1), out);
    assert [] + out == out;
  }

  /** The line feed that follows a carriage return. */
  lemma LineFeedAfter(r: Ref, bytes: seq<byte>, pos: nat, from: State, to: State, count: nat, f: Framing, out: seq<Piece>)
    requires (from, to) in {(RR, RN), (HR, HE)} && pos < MAX_REQUEST_BUF_SIZE && count <= MAX_HEADER_COUNT
    requires Reads(r, bytes, Between(HeadParser(from, count, f), pos), out)
    ensures Reads(r, bytes + [10], Between(HeadParser(to, count, f), pos + 1), out)
  {
    hide Sound;
    LineFeed(from, to, count, f, pos);
    Chain(r, bytes, Between(HeadParser(from, count, f), pos), out, [10], Between(HeadParser(to, count, f), pos + 1), []);
    assert out + [] == out;
  }

  // ---- header names ----

  lemma BeginsSnoc(s: seq<byte>, c: byte, word: string)
    ensures Begins(s + [c], word) <==> Begins(s, word) && |s| < |word| && Folds(c, word[|s|])
  {
    hide Folds;
    if Begins(s + [c], word) {
      forall i | 0 <= i < |s|
        ensures Folds(s[i], word[i])
      {
        assert (s + [c])[i] == s[i];
      }
      assert (s + [c])[|s|] == c;
    }
  }

  /** What the machine takes a header for after some bytes of its name. */
  function KeyMeta(f: Framing, name: seq<byte>): Meta {
    match f
    case Length(_) => SML
    case Chunked => CHK
    case NoLength =>
      if name == [] then ANY
      else if Begins(name, ENCODING_WORD) then MTE
      else if Begins(name, LENGTH_WORD) then MCL
      else WFK
  }

  function FrameLength(f: Framing): int {
    if f.Length? then f.n else 0
  }

  // The parser inside a header name.
  function KeyParser(count: nat, f: Framing, name: seq<byte>): Parser {
    Parser(FrameLength(f), 0, |name|, count + 1, HK, KeyMeta(f, name))
  }

  lemma EitherWord(name: seq<byte>)
    requires name != []
    ensures !(Begins(name, ENCODING_WORD) && Begins(name, LENGTH_WORD))
  {
    assert ENCODING_WORD[0] == 't' && LENGTH_WORD[0] == 'c';
  }

  /** Each byte of a name keeps the verdict on the two words. */
  lemma KeyVerdict(count: nat, f: Framing, name: seq<byte>, c: byte)
    requires NameByte(c)
    ensures KeyMeta(f, name) in {ANY, MTE, MCL, WFK, SML, CHK}
    ensures MatchKey(KeyParser(count, f, name), c) == KeyParser(count, f, name + [c])
  {
    hide Begins, Folds, Lower;
    BeginsSnoc(name, c, ENCODING_WORD);
    BeginsSnoc(name, c, LENGTH_WORD);
    EitherWord(name + [c]);
    if name == [] { BeginsNothing(name); } else { EitherWord(name); }
    KeyLetters(|name|, c);
    NoNul(c);
  }

  lemma NoNul(c: byte)
    requires NameByte(c) || ValueByte(c)
    ensures Lower(c) != 0
  {
  }

  lemma BeginsNothing(name: seq<byte>)
    requires name == []
    ensures Begins(name, ENCODING_WORD) && Begins(name, LENGTH_WORD) && Begins(name, CHUNKED_WORD)
  {
  }

  // The machine inside a header name that began at pos.
  function InKey(from: State, count: nat, f: Framing, name: seq<byte>, pos: nat): Ref {
    if name == [] then Between(HeadParser(from, count, f), pos)
    else Ref(KeyParser(count, f, name), THeaderKey, pos, name, pos + |name|)
  }

  lemma KeyByte(from: State, count: nat, f: Framing, name: seq<byte>, c: byte, pos: nat)
    requires (from == RN || from == HE) && NameByte(c) && count < MAX_HEADER_COUNT
    requires pos + |name| < MAX_REQUEST_BUF_SIZE
    requires Sound(InKey(from, count, f, name, pos))
    ensures RefStep(InKey(from, count, f, name, pos), c) == (InKey(from, count, f, name + [c], pos), [])
  {
    hide RefStep, Sound, Takes, Enter, Act, Emits, Extend, InKey, KeyParser, Ready, Leads;
    var r := InKey(from, count, f, name, pos);
    KeyTakes(from, count, f, name, c, pos);
    HeadByte(r, c, HK);
    KeyActs(from, count, f, name, c, pos);
    KeyExtends(from, count, f, name, c, pos);
  }

  lemma KeyTakes(from: State, count: nat, f: Framing, name: seq<byte>, c: byte, pos: nat)
    requires (from == RN || from == HE) && NameByte(c) && count < MAX_HEADER_COUNT && pos + |name| < MAX_REQUEST_BUF_SIZE
    requires Sound(InKey(from, count, f, name, pos))
    ensures var r := InKey(from, count, f, name, pos);
            && Takes(r, c, HK) && !Emits(r.p.state, HK) && (r.p.headerCount < MAX_HEADER_COUNT || r.p.state == HK)
            && InRange(KeyParser(count, f, name + [c]))
  {
    hide Row, Classify, Sound, NameByte, KeyMeta;
    HeaderClasses(c);
    KeyFits(from, count, f, name, pos);
  }

  lemma KeyFits(from: State, count: nat, f: Framing, name: seq<byte>, pos: nat)
    requires Sound(InKey(from, count, f, name, pos))
    ensures FrameLength(f) <= INT64_MAX
  {
  }

  lemma KeyActs(from: State, count: nat, f: Framing, name: seq<byte>, c: byte, pos: nat)
    requires (from == RN || from == HE) && NameByte(c)
    ensures var r := InKey(from, count, f, name, pos);
            && r.Ref? && r.p.meta != ERR && Ready(Enter(r.p, HK))
            && Act(Enter(r.p, HK), c, 0) == KeyParser(count, f, name + [c])
  {
    hide MatchKey, Begins, Enter, NameByte;
    KeyEntry(from, count, f, name);
    KeyVerdict(count, f, name, c);
  }

  lemma KeyEntry(from: State, count: nat, f: Framing, name: seq<byte>)
    requires from == RN || from == HE
    ensures Enter(if name == [] then HeadParser(from, count, f) else KeyParser(count, f, name), HK)
         == KeyParser(count, f, name)
  {
  }

  lemma KeyExtends(from: State, count: nat, f: Framing, name: seq<byte>, c: byte, pos: nat)
    requires from == RN || from == HE
    ensures Extend(InKey(from, count, f, name, pos), KeyParser(count, f, name + [c]), c)
         == InKey(from, count, f, name + [c], pos)
  {
    assert [] + [c] == [c];
  }

  lemma {:induction false} KeyRun(from: State, count: nat, f: Framing, name: seq<byte>, pos: nat)
    requires (from == RN || from == HE) && All(name, NameByte) && count < MAX_HEADER_COUNT
    requires pos + |name| <= MAX_REQUEST_BUF_SIZE
    requires Sound(Between(HeadParser(from, count, f), pos))
    ensures Reads(Between(HeadParser(from, count, f), pos), name, InKey(from, count, f, name, pos), [])
  {
    hide RefStep, Sound, KeyParser, HeadParser, NameByte;
    var r := Between(HeadParser(from, count, f), pos);
    RefRunSound(r, name);
    if name != [] {
      var n := |name| - 1;
      assert name == name[..n] + [name[n]];
      KeyRun(from, count, f, name[..n], pos);
      RunSnoc(r, name[..n], name[n]);
      KeyByte(from, count, f, name[..n], name[n], pos);
      assert [] + RefStep(InKey(from, count, f, name[..n], pos), name[n]).1 == [];
    }
  }

  /** What the machine takes a header for once its name is complete. */
  function Role(f: Framing, name: seq<byte>): Meta {
    match f
    case Length(_) => SML
    case Chunked => CHK
    case NoLength =>
      if Begins(name, ENCODING_WORD) then MCK
      else if Begins(name, LENGTH_WORD) then CLV
      else WFK
  }

  // How many bytes of a value have been compared with "chunked".
  function Compared(value: seq<byte>): nat {
    if value == [] then 0
    else if Begins(value[..|value| - 1], CHUNKED_WORD) then |value|
    else Compared(value[..|value| - 1])
  }

  // The parser between a colon and a value.
  function PadParser(count: nat, f: Framing, role: Meta): Parser {
    Parser(FrameLength(f), 0, 0, count, HS, role)
  }

  lemma KeyEnd(from: State, count: nat, f: Framing, name: seq<byte>, pos: nat)
    requires (from == RN || from == HE) && name != [] && pos + |name| < MAX_REQUEST_BUF_SIZE
    requires Sound(InKey(from, count, f, name, pos))
    ensures Reads(InKey(from, count, f, name, pos), [58],
                  Between(PadParser(count + 1, f, Role(f, name)), pos + |name| + 1), [Piece(THeaderKey, pos, name)])
  {
    hide RefStep, Row, Classify, Sound, Begins, Reads, Enter, Act, Ready, InRange, KeyMeta, Role;
    HeaderClasses(58);
    KeyFits(from, count, f, name, pos);
    KeyEnded(from, count, f, name, pos);
    EndHop(InKey(from, count, f, name, pos), 58, HS, PadParser(count + 1, f, Role(f, name)));
  }

  lemma KeyEnded(from: State, count: nat, f: Framing, name: seq<byte>, pos: nat)
    requires name != [] && FrameLength(f) <= INT64_MAX
    ensures var p := InKey(from, count, f, name, pos).p;
            && p.meta != ERR && Ready(Enter(p, HS))
            && Act(Enter(p, HS), 58, 0) == PadParser(count + 1, f, Role(f, name)) && InRange(PadParser(count + 1, f, Role(f, name)))
  {
    hide Begins;
    EitherWord(name);
  }

  // ---- header values ----

  lemma PadByteStep(count: nat, f: Framing, role: Meta, c: byte, pos: nat)
    requires PadByte(c) && pos < MAX_REQUEST_BUF_SIZE && Sound(Between(PadParser(count, f, role), pos))
    ensures Reads(Between(PadParser(count, f, role), pos), [c], Between(PadParser(count, f, role), pos + 1), [])
  {
    HeaderClasses(c);
    assert InRange(PadParser(count, f, role));
    hide RefStep, Row, Classify, Sound, Reads;
    Hop(PadParser(count, f, role), c, HS, pos, PadParser(count, f, role));
  }

  lemma {:induction false} PadRun(count: nat, f: Framing, role: Meta, pad: seq<byte>, pos: nat)
    requires All(pad, PadByte) && pos + |pad| <= MAX_REQUEST_BUF_SIZE
    requires Sound(Between(PadParser(count, f, role), pos))
    ensures Reads(Between(PadParser(count, f, role), pos), pad, Between(PadParser(count, f, role), pos + |pad|), [])
    decreases |pad|
  {
    hide Sound, PadByte, Reads, PadParser;
    if pad == [] {
      ReadsNothing(Between(PadParser(count, f, role), pos));
    } else {
      var r1 := Between(PadParser(count, f, role), pos + 1);
      PadByteStep(count, f, role, pad[0], pos);
      ReadsSound(Between(PadParser(count, f, role), pos), [pad[0]], r1, []);
      PadRun(count, f, role, pad[1..], pos + 1);
      Chain(Between(PadParser(count, f, role), pos), [pad[0]], r1, [], pad[1..],
            Between(PadParser(count, f, role), pos + |pad|), []);
      assert pad == [pad[0]] + pad[1..];
      NothingMore();
    }
  }

  /** The meta state after some bytes of a value. */
  function ValueMeta(role: Meta, value: seq<byte>): Meta {
    if role == MCK && !Begins(value, CHUNKED_WORD) then WFK else role
  }

  // The parser inside a value.
  function ValueParser(count: nat, f: Framing, role: Meta, value: seq<byte>): Parser {
    Parser(if role == CLV then Decimal(value) else FrameLength(f), 0,
           if role == MCK then Compared(value) else 0, count, HV, ValueMeta(role, value))
  }

  // The machine inside a value that began at pos.
  function InValue(count: nat, f: Framing, role: Meta, value: seq<byte>, pos: nat): Ref {
    if value == [] then Between(PadParser(count, f, role), pos)
    else Ref(ValueParser(count, f, role, value), THeaderVal, pos, value, pos + |value|)
  }

  lemma ComparedLast(value: seq<byte>)
    ensures if value == [] then Compared(value) == 0
            else Compared(value) == if Begins(value[..|value| - 1], CHUNKED_WORD) then |value| else Compared(value[..|value| - 1])
  {
    hide Begins;
  }

  lemma ComparedSnoc(value: seq<byte>, c: byte)
    ensures Compared(value + [c]) == if Begins(value, CHUNKED_WORD) then |value| + 1 else Compared(value)
    ensures Begins(value, CHUNKED_WORD) ==> Compared(value) == |value|
  {
    hide Begins;
    assert (value + [c])[..|value|] == value;
    ComparedLast(value + [c]);
    ComparedLast(value);
    hide Compared;
    if value != [] && Begins(value, CHUNKED_WORD) {
      var n := |value| - 1;
      assert value == value[..n] + [value[n]];
      BeginsSnoc(value[..n], value[n], CHUNKED_WORD);
    }
  }

  /** Each byte of a value moves the length or the verdict on "chunked". */
  lemma ValueVerdict(count: nat, f: Framing, role: Meta, value: seq<byte>, c: byte)
    requires role in {WFK, MCK, CLV, SML, CHK} && ValueByte(c) && (role == CLV ==> f == NoLength)
    ensures ValueMeta(role, value) in {WFK, MCK, CLV, SML, CHK}
    ensures MatchValue(ValueParser(count, f, role, value), c) == ValueParser(count, f, role, value + [c])
  {
    hide Begins, Folds, Lower;
    BeginsSnoc(value, c, CHUNKED_WORD);
    ComparedSnoc(value, c);
    assert (value + [c])[..|value|] == value;
    ValueLetters(|value|, c);
    NoNul(c);
  }

  lemma ValueEntry(count: nat, f: Framing, role: Meta, value: seq<byte>)
    requires role in {WFK, MCK, CLV, SML, CHK} && (role == CLV ==> f == NoLength)
    ensures Enter(if value == [] then PadParser(count, f, role) else ValueParser(count, f, role, value), HV)
         == ValueParser(count, f, role, value)
  {
    assert Begins([], CHUNKED_WORD);
  }

  lemma ValueExtends(count: nat, f: Framing, role: Meta, value: seq<byte>, c: byte, pos: nat)
    ensures Extend(InValue(count, f, role, value, pos), ValueParser(count, f, role, value + [c]), c)
         == InValue(count, f, role, value + [c], pos)
  {
    hide Decimal, Compared, ValueMeta, Begins;
    assert [] + [c] == [c];
  }

  lemma ValueStep(count: nat, f: Framing, role: Meta, value: seq<byte>, c: byte, pos: nat)
    requires role in {WFK, MCK, CLV, SML, CHK} && (role == CLV ==> f == NoLength && IsDigit(c))
    requires if value == [] then Visible(c) else ValueByte(c)
    requires pos + |value| < MAX_REQUEST_BUF_SIZE
    requires Sound(InValue(count, f, role, value, pos)) && InRange(ValueParser(count, f, role, value + [c]))
    ensures RefStep(InValue(count, f, role, value, pos), c) == (InValue(count, f, role, value + [c], pos), [])
  {
    hide RefStep, Sound, InRange, Takes, Enter, Act, Emits, Extend, InValue, ValueParser, Ready, Leads;
    var r := InValue(count, f, role, value, pos);
    ValueTakes(count, f, role, value, c, pos);
    HeadByte(r, c, HV);
    ValueActs(count, f, role, value, c, pos);
    ValueExtends(count, f, role, value, c, pos);
  }

  lemma ValueTakes(count: nat, f: Framing, role: Meta, value: seq<byte>, c: byte, pos: nat)
    requires role in {WFK, MCK, CLV, SML, CHK} && (role == CLV ==> f == NoLength && IsDigit(c))
    requires (if value == [] then Visible(c) else ValueByte(c)) && pos + |value| < MAX_REQUEST_BUF_SIZE
    requires Sound(InValue(count, f, role, value, pos))
    ensures Takes(InValue(count, f, role, value, pos), c, HV)
    ensures !Emits(InValue(count, f, role, value, pos).p.state, HV)
  {
    hide Row, Classify, Sound, ValueByte, PadByte, Compared, Decimal;
    HeaderClasses(c);
    PadOrValue(c);
  }

  lemma PadOrValue(c: byte)
    ensures Visible(c) ==> !PadByte(c) && ValueByte(c)
  {
  }

  lemma ValueActs(count: nat, f: Framing, role: Meta, value: seq<byte>, c: byte, pos: nat)
    requires role in {WFK, MCK, CLV, SML, CHK} && (role == CLV ==> f == NoLength) && ValueByte(c)
    ensures var r := InValue(count, f, role, value, pos);
            && r.Ref? && r.p.meta != ERR && Ready(Enter(r.p, HV))
            && Act(Enter(r.p, HV), c, 0) == ValueParser(count, f, role, value + [c])
  {
    hide Compared, Decimal, MatchValue, Begins, Enter;
    ValueEntry(count, f, role, value);
    ValueVerdict(count, f, role, value, c);
  }

  /** Digits never make the value smaller. */
  lemma DecimalGrows(s: seq<byte>)
    requires All(s, IsDigit)
    ensures 0 <= Decimal(s)
    ensures s != [] ==> Decimal(s[..|s| - 1]) <= Decimal(s)
  {
    if s != [] {
      DecimalGrows(s[..|s| - 1]);
    }
  }

  // A value that the machine reads to its end.
  predicate Readable(f: Framing, role: Meta, value: seq<byte>) {
    && role in {WFK, MCK, CLV, SML, CHK}
    && All(value, ValueByte) && (value != [] ==> Visible(value[0]))
    && FrameLength(f) <= INT64_MAX
    && (role == CLV ==> f == NoLength && All(value, IsDigit) && Decimal(value) <= INT64_MAX)
  }

  lemma {:induction false} ValueRun(count: nat, f: Framing, role: Meta, value: seq<byte>, pos: nat)
    requires Readable(f, role, value) && pos + |value| <= MAX_REQUEST_BUF_SIZE
    requires Sound(Between(PadParser(count, f, role), pos))
    ensures Reads(Between(PadParser(count, f, role), pos), value, InValue(count, f, role, value, pos), [])
    decreases |value|
  {
    hide RefStep, Sound, ValueParser, PadParser, ValueByte, Readable, Decimal, Reads;
    var r := Between(PadParser(count, f, role), pos);
    if value == [] {
      ReadsNothing(r);
    } else {
      var n := |value| - 1;
      var r1 := InValue(count, f, role, value[..n], pos);
      assert value == value[..n] + [value[n]];
      ReadablePrefix(count, f, role, value);
      ValueRun(count, f, role, value[..n], pos);
      ReadsSound(r, value[..n], r1, []);
      ValueStep(count, f, role, value[..n], value[n], pos);
      ReadsByte(r1, value[n]);
      Chain(r, value[..n], r1, [], [value[n]], InValue(count, f, role, value, pos), []);
      NothingMore();
    }
  }

  lemma ReadablePrefix(count: nat, f: Framing, role: Meta, value: seq<byte>)
    requires Readable(f, role, value) && value != []
    ensures Readable(f, role, value[..|value| - 1]) && InRange(ValueParser(count, f, role, value))
    ensures role in {WFK, MCK, CLV, SML, CHK}
    ensures var n := |value| - 1;
            && (role == CLV ==> f == NoLength && IsDigit(value[n]))
            && (if value[..n] == [] then Visible(value[n]) else ValueByte(value[n]))
  {
    if role == CLV {
      DecimalGrows(value);
    }
  }

  lemma ValueEnd(count: nat, f: Framing, h: Header, pos: nat)
    requires Readable(f, Role(f, h.name), h.value) && h.name != [] && h.value != [] && pos + |h.value| < MAX_REQUEST_BUF_SIZE
    requires Sound(InValue(count, f, Role(f, h.name), h.value, pos))
    ensures Reads(InValue(count, f, Role(f, h.name), h.value, pos), [13],
                  Between(HeadParser(HR, count, FrameBy(f, h)), pos + |h.value| + 1), [Piece(THeaderVal, pos, h.value)])
  {
    hide RefStep, Row, Classify, Sound, Begins, Reads, Decimal, Compared, Enter, Act, Ready, InRange, Role, FrameBy, ValueMeta, Readable;
    HeaderClasses(13);
    ValueEnded(count, f, h);
    EndHop(InValue(count, f, Role(f, h.name), h.value, pos), 13, HR, HeadParser(HR, count, FrameBy(f, h)));
  }

  lemma ValueEnded(count: nat, f: Framing, h: Header)
    requires Readable(f, Role(f, h.name), h.value) && h.name != []
    ensures ValueParser(count, f, Role(f, h.name), h.value).meta != ERR
    ensures Ready(Enter(ValueParser(count, f, Role(f, h.name), h.value), HR))
    ensures Act(Enter(ValueParser(count, f, Role(f, h.name), h.value), HR), 13, 0) == HeadParser(HR, count, FrameBy(f, h))
    ensures InRange(HeadParser(HR, count, FrameBy(f, h)))
  {
    hide Begins, Decimal, Compared;
    EitherWord(h.name);
  }

  /** A name and its colon. */
  lemma NameThen(from: State, count: nat, f: Framing, name: seq<byte>, pos: nat)
    requires (from == RN || from == HE) && All(name, NameByte) && 0 < |name|
    requires count < MAX_HEADER_COUNT && pos + |name| < MAX_REQUEST_BUF_SIZE
    requires Sound(Between(HeadParser(from, count, f), pos))
    ensures Reads(Between(HeadParser(from, count, f), pos), name + [58],
                  Between(PadParser(count + 1, f, Role(f, name)), pos + |name| + 1), [Piece(THeaderKey, pos, name)])
  {
    hide Role, HeadParser, PadParser, KeyParser, Reads, Sound;
    KeyRun(from, count, f, name, pos);
    ReadsSound(Between(HeadParser(from, count, f), pos), name, InKey(from, count, f, name, pos), []);
    KeyEnd(from, count, f, name, pos);
    var out := [Piece(THeaderKey, pos, name)];
    Chain(Between(HeadParser(from, count, f), pos), name, InKey(from, count, f, name, pos), [], [58],
          Between(PadParser(count + 1, f, Role(f, name)), pos + |name| + 1), out);
    assert [] + out == out;
  }

  /** A value and its line end. */
  lemma ValueThen(count: nat, f: Framing, h: Header, pos: nat)
    requires Readable(f, Role(f, h.name), h.value) && h.name != [] && h.value != []
    requires pos + |h.value| + 2 <= MAX_REQUEST_BUF_SIZE && count <= MAX_HEADER_COUNT
    requires Sound(Between(PadParser(count, f, Role(f, h.name)), pos))
    ensures Reads(Between(PadParser(count, f, Role(f, h.name)), pos), h.value + [13] + [10],
                  Between(HeadParser(HE, count, FrameBy(f, h)), pos + |h.value| + 2), [Piece(THeaderVal, pos, h.value)])
  {
    hide Role, HeadParser, PadParser, ValueParser, FrameBy, Readable, Reads, Sound;
    var role := Role(f, h.name);
    var r0 := Between(PadParser(count, f, role), pos);
    ValueRun(count, f, role, h.value, pos);
    ReadsSound(r0, h.value, InValue(count, f, role, h.value, pos), []);
    ValueEnd(count, f, h, pos);
    var r2 := Between(HeadParser(HR, count, FrameBy(f, h)), pos + |h.value| + 1);
    var out := [Piece(THeaderVal, pos, h.value)];
    Chain(r0, h.value, InValue(count, f, role, h.value, pos), [], [13], r2, out);
    assert [] + out == out;
    LineFeedAfter(r0, h.value + [13], pos + |h.value| + 1, HR, HE, count, FrameBy(f, h), out);
  }

  // A header whose length, if it is the one that counts, is a number.
  predicate Usable(f: Framing, h: Header) {
    GoodHeader(h) && FramedBy(f, h) && FrameLength(f) <= INT64_MAX
  }

  lemma UsableRole(f: Framing, h: Header)
    requires Usable(f, h)
    ensures Readable(f, Role(f, h.name), h.value) && FrameLength(FrameBy(f, h)) <= INT64_MAX
    ensures 0 < |h.name| && All(h.name, NameByte) && All(h.pad, PadByte) && h.value != []
  {
  }

  lemma PrintedHeader(h: Header)
    ensures |PrintHeader(h)| == |h.name| + |h.pad| + |h.value| + 3
    ensures PrintHeader(h) == h.name + [58] + h.pad + (h.value + [13] + [10])
  {
  }

  /** One header line: its name and its value come out, and the framing moves on. */
  lemma HeaderRun(from: State, count: nat, f: Framing, h: Header, pos: nat)
    requires (from == RN || from == HE) && Usable(f, h)
    requires count < MAX_HEADER_COUNT && pos + |PrintHeader(h)| <= MAX_REQUEST_BUF_SIZE
    requires Sound(Between(HeadParser(from, count, f), pos))
    ensures Reads(Between(HeadParser(from, count, f), pos), PrintHeader(h),
                  Between(HeadParser(HE, count + 1, FrameBy(f, h)), pos + |PrintHeader(h)|), HeaderPieces(h, pos))
  {
    hide Role, HeadParser, PadParser, FrameBy, Readable, RefRun, Sound, PrintHeader, Usable;
    UsableRole(f, h);
    PrintedHeader(h);
    var role := Role(f, h.name);
    var at1 := pos + |h.name| + 1;
    var at2 := at1 + |h.pad|;
    var out1, out2 := [Piece(THeaderKey, pos, h.name)], [Piece(THeaderVal, at2, h.value)];
    NameThen(from, count, f, h.name, pos);
    PadRun(count + 1, f, role, h.pad, at1);
    ValueThen(count + 1, f, h, at2);
    Chain3(Between(HeadParser(from, count, f), pos), h.name + [58], Between(PadParser(count + 1, f, role), at1), out1,
           h.pad, Between(PadParser(count + 1, f, role), at2), [],
           h.value + [13] + [10], Between(HeadParser(HE, count + 1, FrameBy(f, h)), at2 + |h.value| + 2), out2);
    assert out1 + [] + out2 == HeaderPieces(h, pos);
  }

  // ---- the whole head ----

  predicate AllUsable(f: Framing, hs: seq<Header>)
    decreases |hs|
  {
    hs == [] || (Usable(f, hs[0]) && AllUsable(FrameBy(f, hs[0]), hs[1..]))
  }

  lemma {:induction false} HeadersRun(from: State, count: nat, f: Framing, hs: seq<Header>, pos: nat)
    requires (from == RN || from == HE) && AllUsable(f, hs) && count + |hs| <= MAX_HEADER_COUNT
    requires pos + |PrintHeaders(hs)| <= MAX_REQUEST_BUF_SIZE
    requires Sound(Between(HeadParser(from, count, f), pos))
    ensures Reads(Between(HeadParser(from, count, f), pos), PrintHeaders(hs),
                  Between(HeadParser(if hs == [] then from else HE, count + |hs|, Frame(hs, f)), pos + |PrintHeaders(hs)|),
                  HeadersPieces(hs, pos))
    decreases |hs|
  {
    hide HeadParser, FrameBy, Sound, PrintHeader, HeaderPieces, Usable, Reads;
    if hs == [] {
      ReadsNothing(Between(HeadParser(from, count, f), pos));
    } else {
      var r1 := Between(HeadParser(HE, count + 1, FrameBy(f, hs[0])), pos + |PrintHeader(hs[0])|);
      HeaderRun(from, count, f, hs[0], pos);
      ReadsSound(Between(HeadParser(from, count, f), pos), PrintHeader(hs[0]), r1, HeaderPieces(hs[0], pos));
      HeadersRun(HE, count + 1, FrameBy(f, hs[0]), hs[1..], pos + |PrintHeader(hs[0])|);
      Chain(Between(HeadParser(from, count, f), pos), PrintHeader(hs[0]), r1, HeaderPieces(hs[0], pos), PrintHeaders(hs[1..]),
            Between(HeadParser(HE, count + |hs|, Frame(hs, f)), pos + |PrintHeaders(hs)|),
            HeadersPieces(hs[1..], pos + |PrintHeader(hs[0])|));
    }
  }

  /** A head that the machine reads: RFC 7230 heads with at least one header,
      within the configured limits. */
  predicate WellFormed(h: Head) {
    GoodLine(h) && 0 < |h.headers| <= 127 && AllUsable(NoLength, h.headers)
  }

  // Whether a body of n bytes, after a head that ends at pos, is buffered whole.
  predicate Small(n: int, pos: nat) {
    pos + n <= 8388608 + 2
  }

  /** What the blank line at the end of a head leads to. */
  function AfterHead(count: nat, f: Framing, pos: nat): (Ref, seq<Piece>) {
    var p := Parser(FrameLength(f), 0, 0, count, HN, BDY);
    match f
    case NoLength => (Between(FreshParser, pos), [NoBody, RequestEnd])
    case Chunked => (Between(p.(meta := ZER), pos), [StreamSignal])
    case Length(n) =>
      if !Small(n, pos) then (Between(p.(meta := STR), pos), [StreamSignal])
      else if n == 0 then (Between(FreshParser, pos), [NoBody, RequestEnd])
      else (Between(p, pos), [])
  }

  lemma BlankLine(count: nat, f: Framing, pos: nat)
    requires pos + 2 <= MAX_REQUEST_BUF_SIZE && Sound(Between(HeadParser(HE, count, f), pos))
    ensures var (r, out) := AfterHead(count, f, pos + 2); Reads(Between(HeadParser(HE, count, f), pos), CRLF, r, out)
  {
    hide Reads, Sound, HeadParser, AfterHead;
    var r0, r1 := Between(HeadParser(HE, count, f), pos), Between(HeadParser(ER, count, f), pos + 1);
    var (r2, out) := AfterHead(count, f, pos + 2);
    BlankReturn(count, f, pos);
    ReadsSound(r0, [13], r1, []);
    BlankFeed(count, f, pos + 1);
    Chain(r0, [13], r1, [], [10], r2, out);
    assert [13] + [10] == CRLF && [] + out == out;
  }

  lemma BlankReturn(count: nat, f: Framing, pos: nat)
    requires pos < MAX_REQUEST_BUF_SIZE && Sound(Between(HeadParser(HE, count, f), pos))
    ensures Reads(Between(HeadParser(HE, count, f), pos), [13], Between(HeadParser(ER, count, f), pos + 1), [])
  {
    HeaderClasses(13);
    assert InRange(HeadParser(HE, count, f));
    hide RefStep, Row, Classify, Sound, Reads;
    Hop(HeadParser(HE, count, f), 13, ER, pos, HeadParser(ER, count, f));
  }

  lemma BlankFeed(count: nat, f: Framing, pos: nat)
    requires pos < MAX_REQUEST_BUF_SIZE && Sound(Between(HeadParser(ER, count, f), pos))
    ensures var (r, out) := AfterHead(count, f, pos + 1); Reads(Between(HeadParser(ER, count, f), pos), [10], r, out)
  {
    hide RefStep, Row, Classify, Sound, Reads, Enter, Act, Ready, Settle, EndHeaders, AfterHead, InRange, Extend;
    LineEnds(10);
    var r := Between(HeadParser(ER, count, f), pos);
    FeedRange(count, f, pos);
    FeedIs(count, f, pos);
    HeadSettles(count, f, pos);
    FeedHop(r.p, pos, EndHeaders(HeadParser(HN, count, f), pos));
  }

  lemma FeedHop(p: Parser, pos: nat, q: Parser)
    requires Takes(Between(p, pos), 10, HN) && p.meta != ERR && p.state == ER && Ready(Enter(p, HN)) && q.state == HN
    requires q == Act(Enter(p, HN), 10, pos) && InRange(q) && Extend(Between(p, pos), q, 10) == Between(q, pos + 1)
    ensures Reads(Between(p, pos), [10], Settle(Between(q, pos + 1), true).0, Settle(Between(q, pos + 1), true).1)
  {
    hide Takes, Sound, Reads, RefStep, Enter, Act, InRange, Ready, Settle, Extend;
    HopSound(Between(p, pos), 10, HN);
    ReadsByte(Between(p, pos), 10);
    HeadStep(Between(p, pos), 10, HN);
    assert [] + Settle(Between(q, pos + 1), true).1 == Settle(Between(q, pos + 1), true).1;
  }

  lemma FeedRange(count: nat, f: Framing, pos: nat)
    requires Sound(Between(HeadParser(ER, count, f), pos))
    ensures FrameLength(f) <= INT64_MAX
  {
  }

  lemma FeedIs(count: nat, f: Framing, pos: nat)
    ensures var p, q := HeadParser(ER, count, f), EndHeaders(HeadParser(HN, count, f), pos);
            && p.meta != ERR && Ready(Enter(p, HN)) && Act(Enter(p, HN), 10, pos) == q
            && Extend(Between(p, pos), q, 10) == Between(q, pos + 1)
  {
  }

  lemma HeadSettles(count: nat, f: Framing, pos: nat)
    requires FrameLength(f) <= INT64_MAX
    ensures InRange(EndHeaders(HeadParser(HN, count, f), pos))
    ensures Settle(Between(EndHeaders(HeadParser(HN, count, f), pos), pos + 1), true) == AfterHead(count, f, pos + 1)
  {
  }

  /** Parse of print: the tokens of a head are exactly the texts it was printed from. */
  lemma HeadRun(h: Head, pos: nat)
    requires WellFormed(h) && pos + |Print(h)| <= MAX_REQUEST_BUF_SIZE
    ensures var (r, out) := AfterHead(|h.headers|, Frame(h.headers, NoLength), pos + |Print(h)|);
            Reads(Between(FreshParser, pos), Print(h), r, HeadPieces(h, pos) + out)
  {
    hide Reads, Sound, HeadParser, AfterHead, PrintLine, PrintHeaders, LinePieces, HeadersPieces, GoodLine, Usable;
    var f := Frame(h.headers, NoLength);
    var at1 := pos + |PrintLine(h)|;
    var at2 := at1 + |PrintHeaders(h.headers)|;
    var r0, r1 := Between(FreshParser, pos), Between(HeadParser(RN, 0, NoLength), at1);
    var r2 := Between(HeadParser(HE, |h.headers|, f), at2);
    var (r3, out) := AfterHead(|h.headers|, f, at2 + 2);
    LineRun(h, pos);
    ReadsSound(r0, PrintLine(h), r1, LinePieces(h, pos));
    HeadersRun(RN, 0, NoLength, h.headers, at1);
    ReadsSound(r1, PrintHeaders(h.headers), r2, HeadersPieces(h.headers, at1));
    BlankLine(|h.headers|, f, at2);
    Chain3(r0, PrintLine(h), r1, LinePieces(h, pos), PrintHeaders(h.headers), r2, HeadersPieces(h.headers, at1), CRLF, r3, out);
  }
}
