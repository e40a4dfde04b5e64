/** The table-driven request parser (http_parser_t): http_parse as functions
    over the parser and stream values, the invariant that keeps both state
    machines inside their tables, and the class that runs them in place. */
module HttpParser {
  import opened HttpTables
  import opened HttpStream

  datatype Parser = Parser(contentLength: int, bodyConsumed: int, matchIndex: int,
                           headerCount: int, state: State, meta: Meta)

  const FreshParser := Parser(0, 0, 0, 0, ST, WFK)

  // The inputs on which the C code is undefined or unsupported.
  datatype Reason =
    | NotADigit       // a Content-Length byte that is no digit
    | LengthOverflow  // a length beyond int64_t, or a jump target beyond int
    | NegativeJump    // a remaining length that is negative as a 32-bit int
    | AfterLastChunk  // a byte handed over together with a finished chunked body
    | Streamed        // a body too large for the buffer
    | BufferFull      // more bytes than the buffer can ever hold

  datatype Result = Ok(token: Token, parser: Parser, stream: Stream) | Outside(why: Reason)

  /** The conversion of a 64-bit length to int. */
  function Int32(x: int): int {
    if -INT_MAX - 1 <= x <= INT_MAX then x else (x + 0x8000_0000) % 0x1_0000_0000 - 0x8000_0000
  }

  /** It is the int that differs by a multiple of 2^32. */
  lemma Int32Is(x: int)
    ensures -0x8000_0000 <= Int32(x) <= 0x7fff_ffff && (x - Int32(x)) % 0x1_0000_0000 == 0
  {
    var y := (x + 0x8000_0000) % 0x1_0000_0000;
    assert x + 0x8000_0000 == 0x1_0000_0000 * ((x + 0x8000_0000) / 0x1_0000_0000) + y;
    assert !(-INT_MAX - 1 <= x <= INT_MAX) ==> x - Int32(x) == 0x1_0000_0000 * ((x + 0x8000_0000) / 0x1_0000_0000);
  }

  lemma Int32AtMost(x: int)
    requires 0 <= x
    ensures Int32(x) <= x
  {
  }

  function Trigger(p: Parser, event: Event): Parser
    requires p.meta != ERR
  {
    p.(meta := MetaRow(p.meta, event))
  }

  // hs_stream_can_contain.
  predicate CanContain(index: int, size: int) {
    MAX_REQUEST_BUF_SIZE - index + 1 >= size
  }

  // ---- the control part of hs_transition_action ----

  /** One HS_MATCH: m is the byte left over from an earlier match. */
  function Match(p: Parser, word: seq<byte>, m: byte, c: byte, event: Event): Parser
    requires 0 <= p.matchIndex && p.meta != ERR
  {
    if Lower(c) != Matched(p, word, m) then Trigger(p, event) else p
  }

  function Matched(p: Parser, word: seq<byte>, m: byte): byte
    requires 0 <= p.matchIndex
  {
    if p.matchIndex < |word| then word[p.matchIndex] else m
  }

  function MatchKey(p: Parser, c: byte): (r: Parser)
    requires 0 <= p.matchIndex && p.meta in {ANY, MTE, MCL, WFK, SML, CHK}
    requires p.meta == ANY ==> p.matchIndex == 0
    ensures r == p.(meta := r.meta, matchIndex := p.matchIndex + 1)
    ensures r.meta in {MTE, MCL, WFK, SML, CHK}
    ensures r.meta in {SML, CHK} || p.meta in {SML, CHK} ==> r.meta == p.meta
  {
    var m := Matched(p, TRANSFER_ENCODING, 0);
    var p1 := Match(p, TRANSFER_ENCODING, 0, c, NOT_TRANSFER_ENC);
    var p2 := Match(p1, CONTENT_LENGTH, m, c, NOT_CONTENT_LEN);
    p2.(matchIndex := p.matchIndex + 1)
  }

  function MatchValue(p: Parser, c: byte): (r: Parser)
    requires 0 <= p.matchIndex && p.meta in {WFK, MCK, CLV, SML, CHK}
    ensures r.meta == p.meta || (p.meta == MCK && r.meta == WFK)
    ensures r == p.(meta := r.meta, matchIndex := r.matchIndex, contentLength := r.contentLength)
    ensures p.matchIndex <= r.matchIndex
    ensures p.meta != CLV ==> r.contentLength == p.contentLength
    ensures p.meta == CLV && IsDigit(c) ==> r.contentLength >= 10 * p.contentLength
  {
    if p.meta == MCK then
      var p1 := Match(p, CHUNKED, 0, c, NOT_CHUNKED);
      p1.(matchIndex := p1.matchIndex + 1)
    else if p.meta == CLV then
      p.(contentLength := p.contentLength * 10 + (c - 48))
    else p
  }

  function EndHeaders(p: Parser, index: int): (r: Parser)
    requires p.meta in {ANY, SML, CHK}
    ensures r == p.(meta := r.meta)
    ensures r.meta == match p.meta
                      case ANY => END
                      case CHK => ZER
                      case _ => if !CanContain(index, p.contentLength) then STR
                                else if p.contentLength == 0 then END else BDY
  {
    var p1 := if p.meta == SML && !CanContain(index, p.contentLength) then Trigger(p, LARGE_BODY) else p;
    var p2 := Trigger(p1, END_HEADERS);
    if p2.contentLength == 0 && p2.meta == BDY then p2.(meta := END) else p2
  }

  function ChunkDigit(p: Parser, c: byte): (r: Parser)
    requires p.meta in {ZER, CSZ}
    ensures r == p.(meta := r.meta, contentLength := r.contentLength)
    ensures r.meta == if c == 48 then p.meta else CSZ
    ensures r.contentLength == if HexValue(c) < 0 then p.contentLength else p.contentLength * 16 + HexValue(c)
  {
    var p1 := if c != 48 then Trigger(p, NON_ZERO) else p;
    if HexValue(c) >= 0 then p1.(contentLength := p1.contentLength * 16 + HexValue(c)) else p1
  }

  /** The meta states that go with each reachable state. */
  function Metas(state: State): set<Meta> {
    match state
    case ST | MT | MS | TR | TS | VN => {WFK}
    case RR | RN => {ANY}
    case HK => {MTE, MCL, WFK, SML, CHK}
    case HS | HV => {WFK, MCK, CLV, SML, CHK}
    case HR | HE | ER => {ANY, SML, CHK}
    case HN => {END, BDY, ZER, STR}
    case BD => {BDY, STR, SEN, END}
    case CS => {ZER, CSZ}
    case CE | CR | CN | CD | C1 => {CBD, LST}
    case CB => {CBD}
    case C2 => {ZER, END}
    case BR => {}
  }

  /** What the reachable states say about the meta state. */
  predicate Coupled(state: State, meta: Meta) {
    meta in Metas(state)
  }

  /** The state the tables lead to, with the switch to chunk parsing. */
  function NextState(state: State, meta: Meta, c: byte): State
    requires state != BR
  {
    var to := Row(state, Classify(c));
    if meta == ZER && state == HN && to == BD then CS else to
  }

  /** The states from which a byte can lead to a state outside the body. */
  function Sources(to: State): set<State> {
    match to
    case ST | BD | CB | BR | CD => {}
    case MT => {ST, MT}
    case MS => {MT}
    case TR => {MS, TR}
    case TS => {TR}
    case VN => {TS, VN}
    case RR => {VN}
    case RN => {RR}
    case HK => {RN, HK, HE}
    case HS => {HK, HS}
    case HV => {HS, HV}
    case HR => {HV}
    case HE => {HR}
    case ER => {HE}
    case HN => {ER}
    case CS => {HN, CS, C2}
    case CE => {CS, CE}
    case CR => {CS, CE}
    case CN => {CR}
    case C1 => {CD}
    case C2 => {C1}
  }

  predicate Leads(from: State, to: State) {
    from in Sources(to)
  }

  lemma NextLeads(p: Parser, c: byte)
    requires p.state != BR
    ensures var to := NextState(p.state, p.meta, c);
            && (to == BD || to == CB || to == BR || Leads(p.state, to))
            && (to == BD ==> p.state == HN || p.state == BD)
            && (to == CB ==> p.state == CN || p.state == CB)
            && (p.state == HN ==> to == if p.meta == ZER then CS else BD)
            && (p.state == BD ==> to == BD)
            && (p.state == CN || p.state == CB ==> to == CB)
  {
  }

  /** The meta states a parser can be in just before the case label of a state. */
  predicate Pre(to: State, meta: Meta) {
    meta in match to
            case RR => {WFK}
            case HK => {ANY, MTE, MCL, WFK, SML, CHK}
            case HR => {WFK, MCK, CLV, SML, CHK}
            case HN => {ANY, SML, CHK}
            case C2 => {CBD, LST}
            case _ => Metas(to)
  }

  /** What entering another state does to the parser, before any case label. */
  function Enter(p: Parser, to: State): Parser
    requires p.meta != ERR
  {
    var p1 := p.(state := to);
    if p.state == to then p1
    else
      var p2 := p1.(matchIndex := 0);
      if p.state == CS then Trigger(p2, END_CHK_SIZE)
      else if to == HK then p2.(headerCount := p2.headerCount + 1)
      else if to == HS then Trigger(p2, END_KEY)
      else p2
  }

  /** Every byte finds the switch ready. */
  lemma EnterReady(p: Parser, c: byte, to: State)
    requires Coupled(p.state, p.meta) && 0 <= p.matchIndex && to == NextState(p.state, p.meta, c)
    requires p.meta == SEN || p.meta == END ==> p.state == C2
    ensures !(p.state == C2 && p.meta == END) ==> Ready(Enter(p, to))
    ensures p.meta != ERR
  {
    hide NextState, Coupled, Leads, Enter, Pre, AtBody, Lengths;
    CoupledMeta(p);
    NextLeads(p, c);
    if to == BD || to == CB {
      EnterBodyReady(p, to);
    } else if to == BR {
      EnterState(p, BR);
    } else if !(p.state == C2 && p.meta == END) {
      EnterLeads(p, to);
    }
  }

  lemma CoupledMeta(p: Parser)
    requires Coupled(p.state, p.meta)
    ensures p.meta != ERR && p.state != BR
    ensures p.state == C2 ==> p.meta == ZER || p.meta == END
    ensures p.meta == SEN ==> p.state == BD
  {
  }

  lemma EnterState(p: Parser, to: State)
    requires p.meta != ERR
    ensures Enter(p, to).state == to
  {
  }

  lemma EnterBodyReady(p: Parser, to: State)
    requires Coupled(p.state, p.meta) && p.meta != SEN && p.meta != END
    requires if to == BD then (p.state == HN && p.meta != ZER) || p.state == BD else to == CB && (p.state == CN || p.state == CB)
    ensures p.meta != ERR && Enter(p, to).state == to && AtBody(Enter(p, to))
  {
  }

  lemma EnterLeads(p: Parser, to: State)
    requires Coupled(p.state, p.meta) && Leads(p.state, to)
    requires p.state == C2 || p.state == HN ==> p.meta == ZER
    ensures var r := Enter(p, to);
            && Pre(to, r.meta) && r.state == to
            && r.contentLength == p.contentLength && r.bodyConsumed == p.bodyConsumed
            && (to == HK && r.meta == ANY ==> r.matchIndex == 0)
            && (to == HV ==> r.meta == p.meta)
            && (r.matchIndex == 0 || r.matchIndex == p.matchIndex)
            && (r.headerCount == p.headerCount || r.headerCount == p.headerCount + 1)
            && (Lengths(p.meta, p.contentLength) ==> Lengths(r.meta, p.contentLength))
  {
  }

  /** The case labels of hs_transition_action other than BD, CB and BR. */
  function Act(p: Parser, c: byte, index: int): (r: Parser)
    requires Pre(p.state, p.meta) && 0 <= p.matchIndex
    requires p.state == HK && p.meta == ANY ==> p.matchIndex == 0
    ensures r.state == p.state && r.headerCount == p.headerCount && r.bodyConsumed == p.bodyConsumed
  {
    match p.state
    case RR | HR => Trigger(p, END_VALUE)
    case HK => MatchKey(p, c)
    case HV => MatchValue(p, c)
    case HN => EndHeaders(p, index)
    case CS => ChunkDigit(p, c)
    case C2 => Trigger(p, END_CHUNK)
    case _ => p
  }

  predicate InRange(p: Parser) { p.contentLength <= INT64_MAX }

  // ---- the invariant ----

  /** What the meta state says about the length read so far. */
  predicate Lengths(meta: Meta, length: int) {
    match meta
    case CLV | SML | BIG | CSZ | CBD => 0 <= length
    case BDY => 0 < length <= MAX_REQUEST_BUF_SIZE + 1
    case STR => 0 < length
    case ERR => false
    case _ => length == 0
  }

  /** The counters of a reachable parser. */
  ghost predicate Counted(p: Parser) {
    && Lengths(p.meta, p.contentLength) && InRange(p)
    && 0 <= p.matchIndex && 0 <= p.headerCount
    && (p.state == CD || p.state == C1 || p.state == C2 ==> p.contentLength == 0)
    && (if InBody(p) then 0 < p.bodyConsumed < p.contentLength else p.bodyConsumed == 0)
  }

  predicate InBody(p: Parser) {
    (p.state == BD && (p.meta == BDY || p.meta == STR)) || p.state == CB
  }

  /** The token in progress, state by state. */
  ghost predicate Tokened(p: Parser, s: Stream) {
    && s.token.typ == (if p.state == BD && p.meta != BDY then TNone else StartToken(p.state))
    && (p.state in {BD, CB} && s.token.typ != TNone ==> s.token.len == p.bodyConsumed)
    && (p.state in {BD, CS, CB, CE, CR, CN, CD, C1, C2} ==> s.anchor <= s.index)
    && (p.state in {BD, CB} && s.token.typ != TNone ==> s.anchor <= s.token.index)
  }

  ghost predicate Inv(p: Parser, s: Stream) {
    Coupled(p.state, p.meta) && Counted(p) && s.Wf() && Tokened(p, s)
  }

  // ---- http_parse ----

  /** What entering a state does to the stream. */
  function EnterStream(s: Stream, from: State, to: State): Stream {
    var s1 := if from == HN then s.(anchor := s.index) else s;
    if from != to && StartToken(to) != TNone then BeginToken(s1, StartToken(to)) else s1
  }

  // The meta states under which the body labels are reached.
  predicate AtBody(p: Parser) {
    (p.state == BD && (p.meta == BDY || p.meta == STR)) || (p.state == CB && (p.meta == CBD || p.meta == LST))
  }

  /** The BD and CB labels of hs_transition_action. The byte is still unread. */
  function BodyLabel(p: Parser, s: Stream): (r: Result)
    requires AtBody(p)
    ensures r.Ok? ==> r.stream.consumed
  {
    var s1 := if p.meta == STR then BeginToken(s, TChunkBody) else s;
    var bodyLeft := Int32(p.contentLength - p.bodyConsumed);
    if bodyLeft < 0 then Outside(NegativeJump)
    else if s1.index + bodyLeft > INT_MAX then Outside(LengthOverflow)
    else if Jumps(s1, bodyLeft) then
      var s2 := JumpBy(s1, bodyLeft);
      var p1 := Trigger(p, NEXT);
      Ok(s2.token, p1.(state := if p.state == CB then CD else p.state, contentLength := 0, bodyConsumed := 0),
         s2.(token := NoToken))
    else
      var s2 := JumpAll(s1);
      var p1 := p.(bodyConsumed := p.bodyConsumed + (s1.length - s1.index));
      if p.meta == STR then
        var s3 := s2.(token := NoToken);
        Ok(s2.token, p1, Shift(s3))
      else Ok(NoToken, p1, s2)
  }

  // The transitions at which hs_transition_action hands out the current token.
  predicate Emits(from: State, to: State) {
    to == MS || to == TS || to == RR || to == HR || (to == HS && from != to)
  }

  // What the switch may rely on.
  predicate Ready(p: Parser) {
    if p.state == BD || p.state == CB then AtBody(p)
    else p.state != BR ==> Pre(p.state, p.meta) && 0 <= p.matchIndex
                           && (p.state == HK && p.meta == ANY ==> p.matchIndex == 0)
  }

  /** The switch of hs_transition_action, then hs_stream_consume. */
  function Label(p: Parser, s: Stream, from: State, c: byte): Result
    requires Ready(p)
  {
    if p.state == BD || p.state == CB then BodyLabel(p, s)
    else if p.state == BR then Ok(NoToken.(typ := TError), p, Consume(s))
    else
      var p1 := Act(p, c, s.index);
      if !InRange(p1) then Outside(LengthOverflow)
      else if Emits(from, p.state) then Ok(s.token, p1, Consume(s.(token := NoToken)))
      else Ok(NoToken.(typ := Signal(p1, from != p.state)), p1, Consume(s))
  }

  /** One iteration of the loop in http_parse. */
  function Step(p: Parser, s: Stream): Result
    requires Inv(p, s) && s.index < s.length
    requires p.meta == SEN || p.meta == END ==> p.state == C2
  {
    var c := s.buf[s.index];
    var to := NextState(p.state, p.meta, c);
    EnterReady(p, c, to);
    if p.state == C2 && p.meta == END then Outside(AfterLastChunk)
    else if to == HV && p.meta == CLV && !IsDigit(c) then Outside(NotADigit)
    else Label(Enter(p, to), EnterStream(s.(consumed := false), p.state, to), p.state, c)
  }

  /** Tokens that carry no text: they only tell the driver something. */
  function Signal(p: Parser, entering: bool): TokenType {
    if p.state == HK && entering && p.headerCount > MAX_HEADER_COUNT then TError
    else if p.state == HN && p.meta in {ZER, STR} then TBodyStream
    else if p.state == HN && p.meta == END then TBody
    else TNone
  }

  /** hs_meta_emit. */
  function MetaEmit(p: Parser): (Token, Parser) {
    if p.meta == SEN then (NoToken.(typ := TChunkBody), p.(meta := END))
    else if p.meta == END then (NoToken.(typ := TReqEnd), FreshParser)
    else (NoToken, p)
  }

  /** The token in progress that http_parse refuses when the input is used up. */
  predicate TooLong(t: Token) {
    t.typ != TChunkBody && t.typ != TBody && t.len > MAX_TOKEN_LENGTH
  }

  /** The loop of http_parse: up to a token or the end of the input. */
  function Loop(p: Parser, s: Stream): Result
    requires Inv(p, s)
    requires p.meta == SEN || p.meta == END ==> p.state == C2
    decreases s.length - s.index
  {
    hide Step, Coupled, Counted, Tokened;
    if s.index >= s.length then Ok(NoToken, p, s.(consumed := false))
    else
      var r := Step(p, s);
      StepKeepsInv(p, s);
      if r.Outside? || r.token.typ != TNone then r
      else Loop(r.parser, r.stream)
  }

  function Parse(p: Parser, s: Stream): Result
    requires Inv(p, s)
  {
    var (t, p1) := MetaEmit(p);
    if t.typ != TNone then Ok(t, p1, s)
    else
      var r := Loop(p, s);
      LoopKeepsInv(p, s);
      if r.Outside? || r.token.typ != TNone then r
      else
        var s1 := if r.parser.state == CB then Shift(r.stream) else r.stream;
        var (t1, p2) := MetaEmit(r.parser);
        Ok(if TooLong(s1.token) then t1.(typ := TError) else t1, p2, s1)
  }

  // ---- preservation ----

  lemma ActKeepsCoupled(p: Parser, c: byte, index: int)
    requires Pre(p.state, p.meta) && 0 <= p.matchIndex
    requires p.state == HK && p.meta == ANY ==> p.matchIndex == 0
    requires p.state == HV && p.meta == CLV ==> IsDigit(c)
    ensures var q := Act(p, c, index); q.state == p.state && Coupled(q.state, q.meta)
  {
  }

  lemma ActKeepsCounted(p: Parser, c: byte, index: int)
    requires Pre(p.state, p.meta) && 0 <= p.matchIndex && 0 <= p.headerCount
    requires 0 <= index <= MAX_REQUEST_BUF_SIZE
    requires p.state == CD || p.state == C1 || p.state == C2 ==> p.contentLength == 0
    requires Lengths(p.meta, p.contentLength) && p.bodyConsumed == 0
    requires p.state == HK && p.meta == ANY ==> p.matchIndex == 0
    requires p.state == HV && p.meta == CLV ==> IsDigit(c)
    requires p.state !in {BD, CB}
    ensures var q := Act(p, c, index); InRange(q) ==> Counted(q)
  {
    ActKeepsCoupled(p, c, index);
  }

  lemma BodyLabelKeepsParser(p: Parser, s: Stream)
    requires AtBody(p) && s.index < s.length
    requires Lengths(p.meta, p.contentLength) && InRange(p) && 0 <= p.matchIndex && 0 <= p.headerCount
    requires 0 <= p.bodyConsumed <= p.contentLength && (p.contentLength > 0 ==> p.bodyConsumed < p.contentLength)
    ensures var r := BodyLabel(p, s);
            r.Ok? ==> Coupled(r.parser.state, r.parser.meta) && Counted(r.parser)
  {
    Int32AtMost(p.contentLength - p.bodyConsumed);
    hide Int32;
  }

  // The token a body label finds.
  predicate BodyToken(p: Parser, s: Stream) {
    && s.anchor <= s.index
    && (if p.meta == STR then s.token.len == 0
        else s.token.typ == StartToken(p.state) && s.token.len == p.bodyConsumed && s.anchor <= s.token.index)
  }

  // What a body label leaves of the stream.
  ghost predicate LabelKeeps(p: Parser, s: Stream, r: Result) {
    r.Ok? ==>
      && r.stream.Wf() && Tokened(r.parser, r.stream) && r.stream.consumed
      && (r.token.typ == TNone ==> r.stream.index == r.stream.length == s.length && r.parser.meta == p.meta)
  }

  lemma BodyLabelKeepsStream(p: Parser, s: Stream)
    requires AtBody(p) && s.Wf() && s.index < s.length && BodyToken(p, s)
    ensures LabelKeeps(p, s, BodyLabel(p, s))
  {
    hide BodyLabel, LabelKeeps;
    if p.meta == STR {
      StreamedLabelKeeps(p, s);
    } else {
      WholeLabelKeeps(p, s);
    }
  }

  lemma StreamedLabelKeeps(p: Parser, s: Stream)
    requires AtBody(p) && s.Wf() && s.index < s.length && BodyToken(p, s) && p.meta == STR
    ensures LabelKeeps(p, s, BodyLabel(p, s))
  {
    hide Int32;
  }

  lemma WholeLabelKeeps(p: Parser, s: Stream)
    requires AtBody(p) && s.Wf() && s.index < s.length && BodyToken(p, s) && p.meta != STR
    ensures LabelKeeps(p, s, BodyLabel(p, s))
  {
    hide Int32;
  }

  /** What one iteration leaves behind when it does not return an error. */
  ghost predicate Progress(s: Stream, r: Result) {
    r.Ok? && r.token.typ != TError ==>
      && Inv(r.parser, r.stream)
      && (r.token.typ == TNone ==>
            && s.index < r.stream.index && r.stream.length == s.length
            && (r.parser.meta == SEN || r.parser.meta == END ==> r.parser.state == C2))
  }

  /** The state of affairs between entering a body state and its label. */
  lemma EnterBody(p: Parser, s: Stream, to: State)
    requires Inv(p, s) && s.index < s.length && AtBody(Enter(p, to)) && (to == BD || to == CB)
    requires if to == BD then p.state == HN || p.state == BD else p.state == CN || p.state == CB
    ensures var p1 := Enter(p, to); var s1 := EnterStream(s, p.state, to);
            && s1.Wf() && s1.index == s.index && s1.length == s.length && BodyToken(p1, s1)
            && Lengths(p1.meta, p1.contentLength) && InRange(p1) && 0 <= p1.matchIndex && 0 <= p1.headerCount
            && 0 <= p1.bodyConsumed <= p1.contentLength && (p1.contentLength > 0 ==> p1.bodyConsumed < p1.contentLength)
  {
    hide Coupled;
  }

  lemma BodyKeepsInv(p: Parser, s: Stream, c: byte, to: State)
    requires Inv(p, s) && s.index < s.length && AtBody(Enter(p, to)) && (to == BD || to == CB)
    requires if to == BD then p.state == HN || p.state == BD else p.state == CN || p.state == CB
    ensures Progress(s, Label(Enter(p, to), EnterStream(s, p.state, to), p.state, c))
  {
    EnterBody(p, s, to);
    hide Enter, EnterStream, Coupled, Lengths, BodyLabel, Tokened;
    BodyLabelKeepsParser(Enter(p, to), EnterStream(s, p.state, to));
    BodyLabelKeepsStream(Enter(p, to), EnterStream(s, p.state, to));
  }

  /** A state that starts a token is entered with none in progress, and a token
      in progress is handed out on leaving its state. */
  lemma TokenEdges(from: State, to: State)
    requires Leads(from, to)
    ensures from == to ==> !Emits(from, to)
    ensures Emits(from, to) ==> StartToken(to) == TNone
    ensures from != to && StartToken(to) != TNone ==> StartToken(from) == TNone
    ensures from != to && StartToken(to) == TNone ==> Emits(from, to) || StartToken(from) == TNone
  {
    hide Leads, StartToken, Emits;
    EmitsOnEntry(from, to);
    if from != to {
      if StartToken(to) != TNone {
        TokenBegins(from, to);
      } else {
        TokenStops(from, to);
      }
    }
  }

  lemma EmitsOnEntry(from: State, to: State)
    requires Leads(from, to)
    ensures Emits(from, to) ==> from != to && StartToken(to) == TNone
  {
  }

  lemma TokenBegins(from: State, to: State)
    requires Leads(from, to) && from != to && StartToken(to) != TNone
    ensures StartToken(from) == TNone
  {
  }

  lemma TokenStops(from: State, to: State)
    requires Leads(from, to) && from != to && StartToken(to) == TNone
    ensures Emits(from, to) || StartToken(from) == TNone
  {
  }

  lemma AdvanceKeepsWf(s: Stream, from: State, to: State)
    requires s.Wf() && s.index < s.length && Leads(from, to) && !s.consumed
    requires s.token.typ == StartToken(from)
    ensures var s1 := EnterStream(s, from, to);
            var t := Advance(s, from, to);
            && t.Wf() && t.token.typ == StartToken(to) && s1.index == s.index
            && t.index == s.index + 1 && t.length == s.length && t.buf == s.buf
            && t.anchor == (if from == HN then s.index else s.anchor)
            && (Emits(from, to) ==> s1.token == s.token)
  {
    hide Leads, Emits, StartToken;
    TokenEdges(from, to);
  }

  lemma EndPending(p: Parser)
    requires Coupled(p.state, p.meta) && (p.meta == SEN || p.meta == END)
    ensures if p.meta == SEN then p.state == BD else p.state == HN || p.state == BD || p.state == C2
  {
  }

  lemma LeadsOut(from: State, to: State)
    requires Leads(from, to)
    ensures to != BD && to != CB && to != BR && to != CD && from != BD && from != CB
    ensures (to == C1 ==> from == CD) && (to == C2 ==> from == C1)
  {
  }

  lemma ControlKeepsParser(p: Parser, c: byte, to: State, index: int)
    requires Coupled(p.state, p.meta) && Counted(p) && Leads(p.state, to)
    requires p.state == C2 || p.state == HN ==> p.meta == ZER
    requires to == HV && p.meta == CLV ==> IsDigit(c)
    requires 0 <= index <= MAX_REQUEST_BUF_SIZE && Ready(Enter(p, to))
    ensures Enter(p, to).state == to && to != BD && to != CB && to != BR
    ensures var q := Act(Enter(p, to), c, index);
            && q.state == to && q.bodyConsumed == 0
            && (InRange(q) ==> Coupled(to, q.meta) && Counted(q))
            && q.meta != SEN && (q.meta == END ==> to == HN || to == C2)
  {
    hide Enter, Lengths, Act, Coupled, Leads, Pre;
    CoupledMeta(p);
    EnterLeads(p, to);
    LeadsOut(p.state, to);
    var p1 := Enter(p, to);
    ActKeepsCoupled(p1, c, index);
    ActKeepsCounted(p1, c, index);
    var p2 := Act(p1, c, index);
    if p2.meta == SEN || p2.meta == END {
      EndPending(p2);
    }
  }

  /** The stream after a byte outside the bodies. */
  function Advance(s: Stream, from: State, to: State): Stream {
    var s1 := EnterStream(s, from, to);
    Consume(if Emits(from, to) then s1.(token := NoToken) else s1)
  }

  lemma ControlInv(p: Parser, s: Stream, c: byte, to: State)
    requires Inv(p, s) && s.index < s.length && Leads(p.state, to) && p.state != BD && p.meta != ERR && !s.consumed
    requires p.state == C2 || p.state == HN ==> p.meta == ZER
    requires to == HV && p.meta == CLV ==> IsDigit(c)
    requires Ready(Enter(p, to)) && Enter(p, to).state == to && to != BD && to != CB && to != BR
    ensures var q := Act(Enter(p, to), c, s.index);
            && q.state == to && q.meta != SEN && (q.meta == END ==> to == HN || to == C2)
            && (InRange(q) ==> Inv(q, Advance(s, p.state, to)))
    ensures var t := Advance(s, p.state, to); var s1 := EnterStream(s, p.state, to);
            && t.index == s.index + 1 && t.length == s.length && t.buf == s.buf && s1.index == s.index
            && (Emits(p.state, to) ==> s1.token == s.token)
  {
    hide Enter, EnterStream, Coupled, Counted, Tokened, Act, Pre, Consume, Emits;
    assert s.token.typ == StartToken(p.state) by { TokenOf(p, s); }
    AdvanceKeepsWf(s, p.state, to);
    ControlKeepsParser(p, c, to, s.index);
    var q := Act(Enter(p, to), c, s.index);
    if InRange(q) {
      ControlTokened(p, s, q, Advance(s, p.state, to));
    }
  }

  lemma ControlKeepsInv(p: Parser, s: Stream, c: byte, to: State)
    requires Inv(p, s) && s.index < s.length && Leads(p.state, to) && p.state != BD && p.meta != ERR && !s.consumed
    requires p.state == C2 || p.state == HN ==> p.meta == ZER
    requires to == HV && p.meta == CLV ==> IsDigit(c)
    requires Ready(Enter(p, to)) && Enter(p, to).state == to && to != BD && to != CB && to != BR
    ensures Progress(s, Label(Enter(p, to), EnterStream(s, p.state, to), p.state, c))
  {
    hide Enter, EnterStream, Inv, Act, Pre, Consume, Coupled, Counted, Tokened;
    ControlInv(p, s, c, to);
  }

  lemma TokenOf(p: Parser, s: Stream)
    requires Tokened(p, s) && p.state != BD
    ensures s.token.typ == StartToken(p.state)
  {
  }

  lemma ControlTokened(p: Parser, s: Stream, q: Parser, t: Stream)
    requires Tokened(p, s) && Leads(p.state, q.state) && q.bodyConsumed == 0 && s.index + 1 == t.index
    requires t.token.typ == StartToken(q.state)
    requires t.anchor == if p.state == HN then s.index else s.anchor
    ensures Tokened(q, t)
  {
  }

  /** Where a byte can lead, and what holds there. */
  lemma StepCases(p: Parser, s: Stream, c: byte)
    requires Inv(p, s) && (p.meta == SEN || p.meta == END ==> p.state == C2)
    ensures p.state != BR && p.meta != ERR && Inv(p, s.(consumed := false))
    ensures var to := NextState(p.state, p.meta, c);
            && Enter(p, to).state == to
            && (!(p.state == C2 && p.meta == END) ==> Ready(Enter(p, to)))
            && (if to == BD || to == CB then
                  && AtBody(Enter(p, to))
                  && (if to == BD then p.state == HN || p.state == BD else p.state == CN || p.state == CB)
                else if to == BR then true
                else
                  && Leads(p.state, to) && p.state != BD
                  && (p.state == HN ==> p.meta == ZER)
                  && (p.state == C2 ==> p.meta == ZER || p.meta == END))
  {
    hide NextState, Enter, Leads, Lengths, Coupled, AtBody, Pre;
    CoupledMeta(p);
    FlagInv(p, s);
    var to := NextState(p.state, p.meta, c);
    NextLeads(p, c);
    EnterState(p, to);
    EnterReady(p, c, to);
  }

  lemma FlagInv(p: Parser, s: Stream)
    requires Inv(p, s)
    ensures Inv(p, s.(consumed := false))
  {
    hide Coupled, Counted;
  }

  lemma StepKeepsInv(p: Parser, s: Stream)
    requires Inv(p, s) && s.index < s.length
    requires p.meta == SEN || p.meta == END ==> p.state == C2
    ensures Progress(s, Step(p, s))
  {
    hide NextState, Label, Enter, EnterStream, Coupled, Lengths, Tokened, Leads, Ready, AtBody;
    var c := s.buf[s.index];
    StepCases(p, s, c);
    var to := NextState(p.state, p.meta, c);
    var s0 := s.(consumed := false);
    if p.state == C2 && p.meta == END {
    } else if to == BD || to == CB {
      BodyKeepsInv(p, s0, c, to);
    } else if to == BR {
      assert Step(p, s).token.typ == TError by { ErrorLabel(p, s0, c); }
    } else if !(to == HV && p.meta == CLV && !IsDigit(c)) {
      ControlKeepsInv(p, s0, c, to);
    }
  }

  lemma ErrorLabel(p: Parser, s: Stream, c: byte)
    requires p.meta != ERR
    ensures Enter(p, BR).state == BR
    ensures var r := Label(Enter(p, BR), EnterStream(s, p.state, BR), p.state, c); r.Ok? && r.token.typ == TError
  {
  }

  lemma LoopKeepsInv(p: Parser, s: Stream)
    requires Inv(p, s)
    requires p.meta == SEN || p.meta == END ==> p.state == C2
    ensures var r := Loop(p, s);
            r.Ok? && r.token.typ != TError ==>
              && Inv(r.parser, r.stream)
              && (r.token.typ == TNone ==>
                    && r.stream.index == r.stream.length
                    && (r.parser.meta == SEN || r.parser.meta == END ==> r.parser.state == C2))
    decreases s.length - s.index
  {
    hide Step, Coupled, Counted;
    if s.index < s.length {
      StepKeepsInv(p, s);
      var r := Step(p, s);
      if r.Ok? && r.token.typ == TNone {
        LoopKeepsInv(r.parser, r.stream);
      }
    }
  }
}
