/** The other half of parse of print: the parser reaches the end of a head only
    on what some well-formed head prints. */
module HttpAccepts {
  import opened HttpAlphabet
  import opened HttpTables
  import opened HttpParser
  import opened HttpReference
  import opened HttpRefinement
  import opened HttpGrammar
  import opened HttpStream
  import opened HttpCalls
  import opened HttpLimits
  import opened HttpSession
  import opened HttpSplits

  /** What has been read of a head so far. */
  datatype HeadSoFar = HeadSoFar(verb: seq<byte>, target: seq<byte>, version: seq<byte>, headers: seq<Header>,
                               name: seq<byte>, pad: seq<byte>, value: seq<byte>)

  const Nothing := HeadSoFar([], [], [], [], [], [], [])

  function Line(g: HeadSoFar): Head { Head(g.verb, g.target, g.version, g.headers) }

  function Framed(g: HeadSoFar): Framing { Frame(g.headers, NoLength) }

  /** The request line and the headers read in full. */
  function Base(g: HeadSoFar): seq<byte> {
    PrintLine(Line(g)) + PrintHeaders(g.headers)
  }

  ghost predicate Lined(g: HeadSoFar) {
    GoodLine(Line(g)) && |g.headers| <= MAX_HEADER_COUNT && AllUsable(NoLength, g.headers) && FrameLength(Framed(g)) <= INT64_MAX
  }

  predicate Named(g: HeadSoFar) {
    |g.headers| < MAX_HEADER_COUNT && 0 < |g.name| && All(g.name, NameByte)
  }

  function AfterName(g: HeadSoFar): seq<byte> {
    Base(g) + g.name + [58] + g.pad
  }

  function Current(g: HeadSoFar): Header { Header(g.name, g.pad, g.value) }

  function FromState(g: HeadSoFar): State { if g.headers == [] then RN else HE }

  ghost predicate Valued(g: HeadSoFar) {
    g.value != [] && Readable(Framed(g), Role(Framed(g), g.name), g.value)
  }

  // The bytes read so far in each state, and the machine they have led to.

  ghost predicate AtHeadStart(bytes: seq<byte>, r: Ref) {
    r.Ref? && r.p.state == ST && bytes == [] && r == Between(FreshParser, 0)
  }

  ghost predicate InVerb(g: HeadSoFar, bytes: seq<byte>, r: Ref) {
    && r.Ref? && r.p.state == MT
    && WordText(MT, g.verb) && bytes == g.verb && r == InWord(ST, MT, g.verb, 0)
  }

  ghost predicate PastVerb(g: HeadSoFar, bytes: seq<byte>, r: Ref) {
    && r.Ref? && r.p.state == MS
    && WordText(MT, g.verb) && bytes == g.verb + [32] && r == Between(LineParser(MS), |bytes|)
  }

  ghost predicate InTarget(g: HeadSoFar, bytes: seq<byte>, r: Ref) {
    && r.Ref? && r.p.state == TR
    && WordText(MT, g.verb) && WordText(TR, g.target)
    && bytes == g.verb + [32] + g.target && r == InWord(MS, TR, g.target, |g.verb| + 1)
  }

  ghost predicate PastTarget(g: HeadSoFar, bytes: seq<byte>, r: Ref) {
    && r.Ref? && r.p.state == TS
    && WordText(MT, g.verb) && WordText(TR, g.target)
    && bytes == g.verb + [32] + g.target + [32] && r == Between(LineParser(TS), |bytes|)
  }

  ghost predicate InVersion(g: HeadSoFar, bytes: seq<byte>, r: Ref) {
    && r.Ref? && r.p.state == VN
    && GoodLine(Line(g)) && bytes == g.verb + [32] + g.target + [32] + g.version
    && r == InWord(TS, VN, g.version, |g.verb| + |g.target| + 2)
  }

  ghost predicate PastVersion(g: HeadSoFar, bytes: seq<byte>, r: Ref) {
    && r.Ref? && r.p.state == RR
    && GoodLine(Line(g)) && bytes == g.verb + [32] + g.target + [32] + g.version + [13]
    && r == Between(HeadParser(RR, 0, NoLength), |bytes|)
  }

  // Where a header may begin: after the request line, or after another header.
  ghost predicate AtHeader(g: HeadSoFar, bytes: seq<byte>, r: Ref) {
    && r.Ref? && r.p.state == FromState(g)
    && Lined(g) && bytes == Base(g) && r == Between(HeadParser(FromState(g), |g.headers|, Framed(g)), |bytes|)
  }

  ghost predicate InName(g: HeadSoFar, bytes: seq<byte>, r: Ref) {
    && r.Ref? && r.p.state == HK
    && Lined(g) && Named(g) && bytes == Base(g) + g.name
    && r == InKey(FromState(g), |g.headers|, Framed(g), g.name, |Base(g)|)
  }

  ghost predicate InPad(g: HeadSoFar, bytes: seq<byte>, r: Ref) {
    && r.Ref? && r.p.state == HS
    && Lined(g) && Named(g) && All(g.pad, PadByte) && bytes == AfterName(g)
    && r == Between(PadParser(|g.headers| + 1, Framed(g), Role(Framed(g), g.name)), |bytes|)
  }

  ghost predicate InHeaderValue(g: HeadSoFar, bytes: seq<byte>, r: Ref) {
    && r.Ref? && r.p.state == HV
    && Lined(g) && Named(g) && All(g.pad, PadByte) && Valued(g) && bytes == AfterName(g) + g.value
    && r == InValue(|g.headers| + 1, Framed(g), Role(Framed(g), g.name), g.value, |AfterName(g)|)
  }

  ghost predicate PastHeaderValue(g: HeadSoFar, bytes: seq<byte>, r: Ref) {
    && r.Ref? && r.p.state == HR
    && Lined(g) && Named(g) && All(g.pad, PadByte) && Valued(g) && bytes == AfterName(g) + g.value + [13]
    && r == Between(HeadParser(HR, |g.headers| + 1, FrameBy(Framed(g), Current(g))), |bytes|)
  }

  ghost predicate AtBlank(g: HeadSoFar, bytes: seq<byte>, r: Ref) {
    && r.Ref? && r.p.state == ER
    && Lined(g) && g.headers != [] && bytes == Base(g) + [13]
    && r == Between(HeadParser(ER, |g.headers|, Framed(g)), |bytes|)
  }

  /** The bytes are the beginning of a head, and the machine has read them. */
  ghost predicate ReadAsHead(g: HeadSoFar, bytes: seq<byte>, r: Ref) {
    || AtHeadStart(bytes, r) || InVerb(g, bytes, r) || PastVerb(g, bytes, r) || InTarget(g, bytes, r) || PastTarget(g, bytes, r)
    || InVersion(g, bytes, r) || PastVersion(g, bytes, r) || AtHeader(g, bytes, r) || InName(g, bytes, r)
    || InPad(g, bytes, r) || InHeaderValue(g, bytes, r) || PastHeaderValue(g, bytes, r) || AtBlank(g, bytes, r)
  }

  lemma HeadByState(g: HeadSoFar, bytes: seq<byte>, r: Ref)
    requires ReadAsHead(g, bytes, r)
    ensures InHead(r)
    ensures match r.p.state
            case ST => AtHeadStart(bytes, r)
            case MT => InVerb(g, bytes, r)
            case MS => PastVerb(g, bytes, r)
            case TR => InTarget(g, bytes, r)
            case TS => PastTarget(g, bytes, r)
            case VN => InVersion(g, bytes, r)
            case RR => PastVersion(g, bytes, r)
            case RN => AtHeader(g, bytes, r) && FromState(g) == RN
            case HE => AtHeader(g, bytes, r) && FromState(g) == HE
            case HK => InName(g, bytes, r)
            case HS => InPad(g, bytes, r)
            case HV => InHeaderValue(g, bytes, r)
            case HR => PastHeaderValue(g, bytes, r)
            case ER => AtBlank(g, bytes, r)
            case _ => false
  {
    hide WordText, GoodLine, Lined, Named, Valued, Base, AfterName, Framed, Role, InWord, InKey, InValue, Between, LineParser,
         HeadParser, PadParser, FrameBy;
  }

  /** A byte of the head that neither fails nor falls outside the model. */
  lemma HeadTakes(r: Ref, c: byte)
    requires Sound(r) && InHead(r) && RefStep(r, c).0.Ref?
    ensures r.p.state != BR && r.pos < MAX_REQUEST_BUF_SIZE
    ensures var to := Row(r.p.state, Classify(c)); to != BR && Takes(r, c, to)
  {
    HeadMeta(r);
    hide Row, Classify, Counted, ControlByte, BodyTake, Coupled;
    NextLeads(r.p, c);
    NextIs(r, c);
  }

  /** The limits such a byte keeps to. */
  lemma HeadRow(r: Ref, c: byte)
    requires Sound(r) && InHead(r) && RefStep(r, c).0.Ref?
    ensures r.p.state != BR && r.pos < MAX_REQUEST_BUF_SIZE
    ensures var to := Row(r.p.state, Classify(c));
            && to != BR
            && (to == HK && r.p.state != HK ==> r.p.headerCount < MAX_HEADER_COUNT)
  {
    hide Row, Classify, RefStep, Takes, Sound, StartToken, Ready, InRange, Act, Enter;
    HeadAdmits(r, c);
  }

  lemma HeadMeta(r: Ref)
    requires Sound(r) && InHead(r)
    ensures !InChunks(r.p.meta) && r.p.state != BR
  {
  }

  lemma NextIs(r: Ref, c: byte)
    requires InHead(r)
    ensures r.p.state != BR && NextState(r.p.state, r.p.meta, c) == Row(r.p.state, Classify(c))
    ensures Row(r.p.state, Classify(c)) != BD && Row(r.p.state, Classify(c)) != CB
  {
  }

  /** What holds of a byte of the head that leads on to a state. */
  ghost predicate Allowed(r: Ref, c: byte, to: State)
    requires r.Ref?
  {
    && to != BR && Takes(r, c, to)
    && (to == HK && r.p.state != HK ==> r.p.headerCount < MAX_HEADER_COUNT)
    && r.p.meta != ERR && Ready(Enter(r.p, to)) && (to != HN ==> InRange(Act(Enter(r.p, to), c, 0)))
  }

  lemma HeadAdmits(r: Ref, c: byte)
    requires Sound(r) && InHead(r) && RefStep(r, c).0.Ref?
    ensures r.p.state != BR && r.pos < MAX_REQUEST_BUF_SIZE && Allowed(r, c, Row(r.p.state, Classify(c)))
  {
    HeadTakes(r, c);
    var to := Row(r.p.state, Classify(c));
    HeadStep(r, c, to);
    hide Row, Classify, RefStep, Takes, Sound, Leads, StartToken;
    Admitted(r, c, to);
  }

  lemma Admitted(r: Ref, c: byte, to: State)
    requires r.Ref? && HeadState(r.p.state) && (HeadState(to) || to == HN) && r.p.meta != ERR && Ready(Enter(r.p, to)) && Enter(r.p, to).state == to
    requires !InChunks(r.p.meta) && ControlByte(r, c, to).0.Ref?
    ensures to == HK && r.p.state != HK ==> r.p.headerCount < MAX_HEADER_COUNT
    ensures to != HN ==> InRange(Act(Enter(r.p, to), c, 0))
  {
    hide Act, Pre, InRange, Settle, Extend, Signal, Enter;
    if to != HN {
      ActOffset(Enter(r.p, to), c, Offset(r), 0);
      var q := Act(Enter(r.p, to), c, 0);
      SettleRef(Extend(r, q, c), r.p.state != to);
      EnterCount(r.p, to);
    }
  }

  lemma SettleRef(x: Ref, entering: bool)
    requires x.Ref? && Settle(x, entering).0.Ref?
    ensures x.p.state == HK && entering ==> x.p.headerCount <= MAX_HEADER_COUNT
  {
  }

  lemma EnterCount(p: Parser, to: State)
    requires p.meta != ERR && HeadState(p.state)
    ensures to == HK && p.state != HK ==> Enter(p, to).headerCount == p.headerCount + 1
  {
  }

  // ---- back from the head ----

  lemma OutControl(r: Ref, c: byte, to: State)
    requires r.Ref? && r.p.meta != ERR && Ready(Enter(r.p, to)) && Enter(r.p, to).state == to && to in {CS, CE, CR, CN, C1, C2}
    ensures var r1 := ControlByte(r, c, to).0; r1.Ref? ==> r1.p.state == to || r1.p.state == CD
  {
    hide Enter, Act, Ready, InRange;
  }

  lemma OutEdges(from: State, meta: Meta, c: byte)
    requires !HeadState(from) && from != BR && (from == HN ==> meta == ZER || meta == BDY || meta == STR)
    ensures NextState(from, meta, c) in {BD, CB, BR, CS, CE, CR, CN, C1, C2}
  {
  }

  /** Once out of the head, the machine comes back only by ending the request. */
  lemma StepOut(r: Ref, c: byte)
    requires Sound(r) && !InHead(r)
    ensures var (r1, out) := RefStep(r, c);
            RequestEnd in out || (!InHead(r1) && !(r1.Ref? && r1.p.state == HN))
  {
    hide NextState, ControlByte, BodyTake, Counted, Raw, Leads, Coupled;
    if r.Ref? {
      OutState(r);
      NextLeads(r.p, c);
      OutEdges(r.p.state, r.p.meta, c);
      var to := NextState(r.p.state, r.p.meta, c);
      EnterReady(r.p, c, to);
      if to == BD || to == CB {
        BodyOut(r, c, to);
      } else if to != BR && Leads(r.p.state, to) {
        EnterLeads(r.p, to);
        OutControl(r, c, to);
      }
    }
  }

  lemma OutState(r: Ref)
    requires Sound(r) && r.Ref? && !InHead(r)
    ensures !HeadState(r.p.state) && r.p.state != BR && r.p.meta != ERR && r.p.meta != END && r.p.meta != SEN
    ensures r.p.state == HN ==> r.p.meta == ZER || r.p.meta == BDY || r.p.meta == STR
    ensures r.p.state == C2 ==> r.p.meta == ZER
    ensures Coupled(r.p.state, r.p.meta) && 0 <= r.p.matchIndex
  {
  }

  lemma BodyOut(r: Ref, c: byte, to: State)
    requires r.Ref? && (to == BD || to == CB)
    ensures var (r1, out) := BodyTake(r, [c], to); RequestEnd in out || (r1.Ref? && r1.p.state in {BD, CB, CD})
  {
  }

  /** So a run that ends just before a streamed body, without ending a request
      on its way, has been in the head all along. */
  lemma {:induction false} NoReturn(r: Ref, bytes: seq<byte>)
    requires Sound(r) && !InHead(r) && bytes != []
    requires RequestEnd !in RefRun(r, bytes).1
    ensures var r1 := RefRun(r, bytes).0; !(r1.Ref? && r1.p.state == HN)
    decreases |bytes|
  {
    hide Sound, RefStep;
    StepOut(r, bytes[0]);
    RefStepSound(r, bytes[0]);
    var (r1, out) := RefStep(r, bytes[0]);
    if bytes[1..] != [] {
      NoReturn(r1, bytes[1..]);
    }
  }

  // ---- one byte at a time ----

  lemma VerbStep(g: HeadSoFar, bytes: seq<byte>, r: Ref, c: byte) returns (h: HeadSoFar)
    requires Sound(r) && InHead(r) && RefStep(r, c).0.Ref? && (AtHeadStart(bytes, r) || InVerb(g, bytes, r))
    ensures InVerb(h, bytes + [c], RefStep(r, c).0) || PastVerb(h, bytes + [c], RefStep(r, c).0)
  {
    hide Row, Classify, RefStep, Sound, Reads, Takes;
    HeadRow(r, c);
    ByteClasses(c);
    var text := if r.p.state == ST then [] else g.verb;
    assert r == InWord(ST, MT, text, 0);
    if NameByte(c) {
      WordByte(ST, MT, text, c, 0);
      h := g.(verb := text + [c]);
      assert bytes + [c] == h.verb;
      assert WordText(MT, h.verb);
    } else {
      WordEnd(ST, MT, MS, g.verb, 32, 0);
      FromReads(r, 32, Between(LineParser(MS), |g.verb| + 1), [Piece(TMethod, 0, g.verb)]);
      h := g;
    }
  }

  lemma TargetStep(g: HeadSoFar, bytes: seq<byte>, r: Ref, c: byte) returns (h: HeadSoFar)
    requires Sound(r) && InHead(r) && RefStep(r, c).0.Ref? && (PastVerb(g, bytes, r) || InTarget(g, bytes, r))
    ensures InTarget(h, bytes + [c], RefStep(r, c).0) || PastTarget(h, bytes + [c], RefStep(r, c).0)
  {
    hide Row, Classify, RefStep, Sound, Reads, Takes;
    HeadRow(r, c);
    ByteClasses(c);
    var text := if r.p.state == MS then [] else g.target;
    var at := |g.verb| + 1;
    assert r == InWord(MS, TR, text, at);
    if Visible(c) {
      WordByte(MS, TR, text, c, at);
      h := g.(target := text + [c]);
      assert bytes + [c] == h.verb + [32] + h.target;
      assert WordText(TR, h.target);
    } else {
      WordEnd(MS, TR, TS, g.target, 32, at);
      FromReads(r, 32, Between(LineParser(TS), at + |g.target| + 1), [Piece(TTarget, at, g.target)]);
      h := g;
    }
  }

  lemma VersionStep(g: HeadSoFar, bytes: seq<byte>, r: Ref, c: byte) returns (h: HeadSoFar)
    requires Sound(r) && InHead(r) && RefStep(r, c).0.Ref? && (PastTarget(g, bytes, r) || InVersion(g, bytes, r))
    ensures InVersion(h, bytes + [c], RefStep(r, c).0) || PastVersion(h, bytes + [c], RefStep(r, c).0)
  {
    hide Row, Classify, RefStep, Sound, Reads, Takes;
    HeadRow(r, c);
    ByteClasses(c);
    var text := if r.p.state == TS then [] else g.version;
    var at := |g.verb| + |g.target| + 2;
    assert r == InWord(TS, VN, text, at);
    if Plain(c) {
      WordByte(TS, VN, text, c, at);
      h := g.(version := text + [c]);
      assert bytes + [c] == h.verb + [32] + h.target + [32] + h.version;
      assert WordText(VN, h.version);
    } else {
      WordEnd(TS, VN, RR, g.version, 13, at);
      FromReads(r, 13, Between(HeadParser(RR, 0, NoLength), at + |g.version| + 1), [Piece(TVersion, at, g.version)]);
      h := g;
    }
  }

  lemma LineStep(g: HeadSoFar, bytes: seq<byte>, r: Ref, c: byte) returns (h: HeadSoFar)
    requires Sound(r) && InHead(r) && RefStep(r, c).0.Ref? && PastVersion(g, bytes, r)
    ensures AtHeader(h, bytes + [c], RefStep(r, c).0)
  {
    hide Row, Classify, RefStep, Sound, Reads, Takes;
    HeadRow(r, c);
    LineEnds(c);
    LineFeed(RR, RN, 0, NoLength, |bytes|);
    FromReads(r, 10, Between(HeadParser(RN, 0, NoLength), |bytes| + 1), []);
    h := g.(headers := []);
    assert bytes + [c] == PrintLine(Line(h)) + PrintHeaders([]);
  }

  /** Only the finished part of a head decides about it. */
  lemma SameBase(g: HeadSoFar, h: HeadSoFar)
    requires h == g.(name := h.name, pad := h.pad, value := h.value)
    ensures Base(h) == Base(g) && Framed(h) == Framed(g) && (Lined(g) ==> Lined(h)) && FromState(h) == FromState(g)
  {
  }

  lemma NameRoom(g: HeadSoFar, bytes: seq<byte>, r: Ref, c: byte)
    requires Sound(r) && InHead(r) && RefStep(r, c).0.Ref? && NameByte(c) && (AtHeader(g, bytes, r) || InName(g, bytes, r))
    ensures var text := if r.p.state == HK then g.name else [];
            && |g.headers| < MAX_HEADER_COUNT && |Base(g)| + |text| < MAX_REQUEST_BUF_SIZE
            && r == InKey(FromState(g), |g.headers|, Framed(g), text, |Base(g)|)
  {
    hide Row, Classify, RefStep, Sound, Takes, Base, Lined, Role, KeyMeta;
    HeadRow(r, c);
    HeaderClasses(c);
  }

  lemma NameStep(g: HeadSoFar, bytes: seq<byte>, r: Ref, c: byte) returns (h: HeadSoFar)
    requires Sound(r) && InHead(r) && RefStep(r, c).0.Ref? && NameByte(c) && (AtHeader(g, bytes, r) || InName(g, bytes, r))
    ensures InName(h, bytes + [c], RefStep(r, c).0)
  {
    hide Row, Classify, RefStep, Sound, Reads, Takes, Base, Lined, Role, KeyMeta, HeadParser;
    var text := if r.p.state == HK then g.name else [];
    NameRoom(g, bytes, r, c);
    KeyByte(FromState(g), |g.headers|, Framed(g), text, c, |Base(g)|);
    h := g.(name := text + [c]);
    assert Base(h) == Base(g) && Lined(h) by { SameBase(g, h); }
    assert bytes + [c] == Base(h) + h.name;
  }

  lemma ColonStep(g: HeadSoFar, bytes: seq<byte>, r: Ref, c: byte) returns (h: HeadSoFar)
    requires Sound(r) && InHead(r) && RefStep(r, c).0.Ref? && InName(g, bytes, r) && !NameByte(c)
    ensures InPad(h, bytes + [c], RefStep(r, c).0)
  {
    hide Row, Classify, RefStep, Sound, Reads, Takes, Base, Lined, Role, KeyMeta;
    HeadRow(r, c);
    HeaderClasses(c);
    KeyEnd(FromState(g), |g.headers|, Framed(g), g.name, |Base(g)|);
    h := g.(pad := []);
    SameBase(g, h);
    FromReads(r, 58, Between(PadParser(|g.headers| + 1, Framed(g), Role(Framed(g), g.name)), |Base(g)| + |g.name| + 1),
              [Piece(THeaderKey, |Base(g)|, g.name)]);
    assert bytes + [58] == AfterName(h);
  }

  lemma PadStep(g: HeadSoFar, bytes: seq<byte>, r: Ref, c: byte) returns (h: HeadSoFar)
    requires Sound(r) && InHead(r) && RefStep(r, c).0.Ref? && InPad(g, bytes, r) && PadByte(c)
    ensures InPad(h, bytes + [c], RefStep(r, c).0)
  {
    hide Row, Classify, RefStep, Sound, Reads, Takes, Base, Lined, Role;
    HeadRow(r, c);
    var role := Role(Framed(g), g.name);
    PadByteStep(|g.headers| + 1, Framed(g), role, c, |bytes|);
    h := g.(pad := g.pad + [c]);
    SameBase(g, h);
    FromReads(r, c, Between(PadParser(|g.headers| + 1, Framed(g), role), |bytes| + 1), []);
    assert bytes + [c] == AfterName(h);
  }

  lemma RoleIn(f: Framing, name: seq<byte>)
    ensures Role(f, name) in {WFK, MCK, CLV, SML, CHK} && (Role(f, name) == CLV ==> f == NoLength)
  {
  }

  lemma ValueRoom(g: HeadSoFar, bytes: seq<byte>, r: Ref, c: byte)
    requires Sound(r) && InHead(r) && RefStep(r, c).0.Ref?
    requires if r.p.state == HS then InPad(g, bytes, r) && Visible(c) else InHeaderValue(g, bytes, r) && ValueByte(c)
    ensures var text := if r.p.state == HS then [] else g.value;
            var role := Role(Framed(g), g.name);
            && |AfterName(g)| + |text| < MAX_REQUEST_BUF_SIZE
            && (role == CLV ==> IsDigit(c)) && InRange(ValueParser(|g.headers| + 1, Framed(g), role, text + [c]))
            && r == InValue(|g.headers| + 1, Framed(g), role, text, |AfterName(g)|)
  {
    var text := if r.p.state == HS then [] else g.value;
    var role := Role(Framed(g), g.name);
    RoleIn(Framed(g), g.name);
    assert role == CLV ==> r.p.meta == CLV;
    hide Row, Classify, RefStep, Sound, Takes, Base, Lined, Role, Begins, Decimal, Compared;
    HeadAdmits(r, c);
    HeaderClasses(c);
    assert Takes(r, c, HV);
    DigitIfLength(r, c);
    ValueEntry(|g.headers| + 1, Framed(g), role, text);
    ValueVerdict(|g.headers| + 1, Framed(g), role, text, c);
  }

  lemma DigitIfLength(r: Ref, c: byte)
    requires Takes(r, c, HV)
    ensures r.Ref? && (r.p.meta == CLV ==> IsDigit(c))
  {
  }

  lemma ValueMore(g: HeadSoFar, bytes: seq<byte>, r: Ref, c: byte) returns (h: HeadSoFar)
    requires Sound(r) && InHead(r) && RefStep(r, c).0.Ref?
    requires if r.p.state == HS then InPad(g, bytes, r) && Visible(c) else InHeaderValue(g, bytes, r) && ValueByte(c)
    ensures InHeaderValue(h, bytes + [c], RefStep(r, c).0)
  {
    hide Row, Classify, RefStep, Sound, Takes, Base, Lined, Role, Begins, Decimal, Compared;
    var text := if r.p.state == HS then [] else g.value;
    var role := Role(Framed(g), g.name);
    ValueRoom(g, bytes, r, c);
    RoleIn(Framed(g), g.name);
    ValueStep(|g.headers| + 1, Framed(g), role, text, c, |AfterName(g)|);
    h := g.(value := text + [c]);
    SameBase(g, h);
    LinedLength(g);
    assert Valued(h);
    assert bytes + [c] == AfterName(h) + h.value;
  }

  lemma LinedLength(g: HeadSoFar)
    requires Lined(g)
    ensures FrameLength(Framed(g)) <= INT64_MAX
  {
  }

  lemma ValueFinish(g: HeadSoFar, bytes: seq<byte>, r: Ref, c: byte) returns (h: HeadSoFar)
    requires Sound(r) && InHead(r) && RefStep(r, c).0.Ref? && InHeaderValue(g, bytes, r) && !ValueByte(c)
    ensures PastHeaderValue(h, bytes + [c], RefStep(r, c).0)
  {
    hide Row, Classify, RefStep, Sound, Reads, Takes, Base, Lined, Role, FrameBy, Begins, Decimal, Compared;
    HeadRow(r, c);
    HeaderClasses(c);
    ValueEnd(|g.headers| + 1, Framed(g), Current(g), |AfterName(g)|);
    FromReads(r, 13, Between(HeadParser(HR, |g.headers| + 1, FrameBy(Framed(g), Current(g))), |AfterName(g)| + |g.value| + 1),
              [Piece(THeaderVal, |AfterName(g)|, g.value)]);
    h := g;
  }

  lemma {:induction false} HeadersSnoc(hs: seq<Header>, h: Header, f: Framing)
    ensures PrintHeaders(hs + [h]) == PrintHeaders(hs) + PrintHeader(h)
    ensures Frame(hs + [h], f) == FrameBy(Frame(hs, f), h)
    ensures AllUsable(f, hs) && Usable(Frame(hs, f), h) ==> AllUsable(f, hs + [h])
    decreases |hs|
  {
    if hs == [] {
      assert [h][1..] == [];
      assert PrintHeaders([h]) == PrintHeader(h) + PrintHeaders([]);
    } else {
      assert (hs + [h])[1..] == hs[1..] + [h];
      HeadersSnoc(hs[1..], h, FrameBy(f, hs[0]));
    }
  }

  /** A header that has been read to its end is a usable one. */
  lemma CurrentUsable(g: HeadSoFar)
    requires Lined(g) && Named(g) && All(g.pad, PadByte) && Valued(g)
    ensures Usable(Framed(g), Current(g)) && FrameLength(FrameBy(Framed(g), Current(g))) <= INT64_MAX
  {
    EitherWord(g.name);
    hide Begins;
  }

  lemma FeedStep(g: HeadSoFar, bytes: seq<byte>, r: Ref, c: byte) returns (h: HeadSoFar)
    requires Sound(r) && InHead(r) && RefStep(r, c).0.Ref? && PastHeaderValue(g, bytes, r)
    ensures AtHeader(h, bytes + [c], RefStep(r, c).0)
  {
    hide Row, Classify, RefStep, Sound, Reads, Takes, Role, FrameBy, Begins, Usable, Readable;
    HeadRow(r, c);
    LineEnds(c);
    var f := FrameBy(Framed(g), Current(g));
    LineFeed(HR, HE, |g.headers| + 1, f, |bytes|);
    FromReads(r, 10, Between(HeadParser(HE, |g.headers| + 1, f), |bytes| + 1), []);
    h := g.(headers := g.headers + [Current(g)]);
    CurrentUsable(g);
    HeadersSnoc(g.headers, Current(g), NoLength);
    BaseGrows(g, h, bytes);
  }

  lemma BaseGrows(g: HeadSoFar, h: HeadSoFar, bytes: seq<byte>)
    requires h == g.(headers := g.headers + [Current(g)]) && bytes == AfterName(g) + g.value + [13]
    requires PrintHeaders(h.headers) == PrintHeaders(g.headers) + PrintHeader(Current(g))
    ensures bytes + [10] == Base(h)
  {
    PrintedHeader(Current(g));
    var line := PrintLine(Line(g));
    assert PrintLine(Line(h)) == line;
    assert bytes + [10] == line + PrintHeaders(g.headers) + (g.name + [58] + g.pad + (g.value + [13] + [10]));
  }

  lemma BlankStep(g: HeadSoFar, bytes: seq<byte>, r: Ref, c: byte) returns (h: HeadSoFar)
    requires Sound(r) && InHead(r) && RefStep(r, c).0.Ref? && AtHeader(g, bytes, r) && g.headers != [] && !NameByte(c)
    ensures AtBlank(h, bytes + [c], RefStep(r, c).0)
  {
    hide Row, Classify, RefStep, Sound, Reads, Takes, Base, Lined;
    HeadRow(r, c);
    HeaderClasses(c);
    BlankReturn(|g.headers|, Framed(g), |bytes|);
    FromReads(r, 13, Between(HeadParser(ER, |g.headers|, Framed(g)), |bytes| + 1), []);
    h := g;
  }

  lemma RowOf(r: Ref, c: byte)
    requires Sound(r) && InHead(r) && RefStep(r, c).0.Ref?
    ensures r.p.state in {RN, HK, HE, HS, HV} ==> NameByte(c) || c == 58 || c == 13 || PadByte(c) || ValueByte(c)
    ensures r.p.state == RN ==> NameByte(c)
    ensures r.p.state == HS ==> PadByte(c) || Visible(c)
  {
    hide Row, Classify, RefStep, Sound;
    HeadRow(r, c);
    HeaderClasses(c);
  }

  /** Whatever the machine accepts is the beginning of a head. */
  lemma ByteAsHead(g: HeadSoFar, bytes: seq<byte>, r: Ref, c: byte) returns (h: HeadSoFar)
    requires Sound(r) && ReadAsHead(g, bytes, r) && r.Ref? && r.p.state != ER && RefStep(r, c).0.Ref?
    ensures ReadAsHead(h, bytes + [c], RefStep(r, c).0)
  {
    hide RefStep, Sound, AtHeadStart, InVerb, PastVerb, InTarget, PastTarget, InVersion, PastVersion, AtHeader, InName,
         InPad, InHeaderValue, PastHeaderValue, AtBlank, NameByte, PadByte, ValueByte, Visible;
    HeadByState(g, bytes, r);
    RowOf(r, c);
    match r.p.state {
      case ST => h := VerbStep(g, bytes, r, c);
      case MT => h := VerbStep(g, bytes, r, c);
      case MS => h := TargetStep(g, bytes, r, c);
      case TR => h := TargetStep(g, bytes, r, c);
      case TS => h := VersionStep(g, bytes, r, c);
      case VN => h := VersionStep(g, bytes, r, c);
      case RR => h := LineStep(g, bytes, r, c);
      case RN => h := NameStep(g, bytes, r, c);
      case HK => if NameByte(c) { h := NameStep(g, bytes, r, c); } else { h := ColonStep(g, bytes, r, c); }
      case HS => if PadByte(c) { h := PadStep(g, bytes, r, c); } else { h := ValueMore(g, bytes, r, c); }
      case HV => if ValueByte(c) { h := ValueMore(g, bytes, r, c); } else { h := ValueFinish(g, bytes, r, c); }
      case HR => h := FeedStep(g, bytes, r, c);
      case HE => if NameByte(c) { h := NameStep(g, bytes, r, c); } else { h := BlankStep(g, bytes, r, c); }
    }
  }

  // ---- the accepted language ----

  lemma ErLeaves(r: Ref, c: byte)
    requires Sound(r) && InHead(r) && r.p.state == ER
    ensures var (r1, out) := RefStep(r, c); RequestEnd in out || !InHead(r1)
  {
    hide Row, Classify, Act, Enter;
    if RefStep(r, c).0.Ref? {
      HeadAdmits(r, c);
      LineEnds(c);
      HeadStep(r, c, HN);
    }
  }

  lemma NotAtBlank(r: Ref, c: byte)
    requires Sound(r) && InHead(r) && InHead(RefStep(r, c).0) && RequestEnd !in RefStep(r, c).1
    ensures r.Ref? && r.p.state != ER && RefStep(r, c).0.Ref?
  {
    hide RefStep, Sound;
    if r.p.state == ER {
      ErLeaves(r, c);
    }
  }

  lemma NothingAsHead()
    ensures ReadAsHead(Nothing, [], Start)
  {
    assert AtHeadStart([], Start);
    hide InVerb, PastVerb, InTarget, PastTarget, InVersion, PastVersion, AtHeader, InName, InPad, InHeaderValue, PastHeaderValue, AtBlank;
  }

  /** Any bytes that leave the machine in its first head are the beginning of one. */
  lemma {:induction false} HeadOf(bytes: seq<byte>) returns (g: HeadSoFar)
    requires Sound(Start) && InHead(RefRun(Start, bytes).0) && RequestEnd !in RefRun(Start, bytes).1
    ensures ReadAsHead(g, bytes, RefRun(Start, bytes).0)
    decreases |bytes|
  {
    hide Sound, RefStep, ReadAsHead, InHead;
    if bytes == [] {
      g := Nothing;
      NothingAsHead();
    } else {
      var n := |bytes| - 1;
      var c := bytes[n];
      assert bytes == bytes[..n] + [c];
      RunSnoc(Start, bytes[..n], c);
      var r := RefRun(Start, bytes[..n]).0;
      if !InHead(r) {
        StepOut(r, c);
      } else {
        NotAtBlank(r, c);
        g := HeadOf(bytes[..n]);
        g := ByteAsHead(g, bytes[..n], r, c);
      }
    }
  }

  lemma NoEnd(h: Head)
    ensures RequestEnd !in HeadPieces(h, 0) && RequestEnd !in HeadPieces(h, 0) + [StreamSignal] && Print(h) != []
  {
    NoEndIn(h.headers, |PrintLine(h)|);
  }

  lemma NoEndIn(hs: seq<Header>, at: nat)
    ensures RequestEnd !in HeadersPieces(hs, at)
  {
  }

  // A head all but its last byte.
  function AlmostPrint(h: Head): seq<byte> {
    PrintLine(h) + PrintHeaders(h.headers) + [13]
  }

  /** A printed head, but for its last byte, leads to the state before its end. */
  lemma AlmostRun(h: Head)
    requires WellFormed(h) && |Print(h)| <= MAX_REQUEST_BUF_SIZE
    ensures Reads(Start, AlmostPrint(h), Between(HeadParser(ER, |h.headers|, Frame(h.headers, NoLength)), |AlmostPrint(h)|),
                  HeadPieces(h, 0))
  {
    hide Reads, Sound, HeadParser, PrintLine, PrintHeaders, LinePieces, HeadersPieces, GoodLine, Usable;
    var f := Frame(h.headers, NoLength);
    var at1 := |PrintLine(h)|;
    var at2 := at1 + |PrintHeaders(h.headers)|;
    var r1 := Between(HeadParser(RN, 0, NoLength), at1);
    var r2 := Between(HeadParser(HE, |h.headers|, f), at2);
    assert Start == Between(FreshParser, 0);
    LineRun(h, 0);
    ReadsSound(Start, PrintLine(h), r1, LinePieces(h, 0));
    HeadersRun(RN, 0, NoLength, h.headers, at1);
    ReadsSound(r1, PrintHeaders(h.headers), r2, HeadersPieces(h.headers, at1));
    BlankReturn(|h.headers|, f, at2);
    Chain3(Start, PrintLine(h), r1, LinePieces(h, 0), PrintHeaders(h.headers), r2, HeadersPieces(h.headers, at1), [13],
           Between(HeadParser(ER, |h.headers|, f), at2 + 1), []);
    assert LinePieces(h, 0) + HeadersPieces(h.headers, at1) + [] == HeadPieces(h, 0);
  }

  /** Before the last byte of its first head, and with nothing ended yet. */
  ghost predicate AtHeadEnd(bytes: seq<byte>) {
    Sound(Start)
    && var (r, out) := RefRun(Start, bytes);
       r.Ref? && r.p.state == ER && RequestEnd !in out
  }

  /** The language of heads: the machine comes to the end of a head exactly on
      what a well-formed head prints, and has then handed out its tokens. */
  lemma HeadGrammar(bytes: seq<byte>)
    requires |bytes| < MAX_REQUEST_BUF_SIZE
    ensures AtHeadEnd(bytes) <==> exists h :: WellFormed(h) && Print(h) == bytes + [10]
    ensures forall h :: WellFormed(h) && Print(h) == bytes + [10] ==> RefRun(Start, bytes).1 == HeadPieces(h, 0)
  {
    FreshRel();
    hide Sound, Rel, RefRun, WellFormed;
    if AtHeadEnd(bytes) {
      var h := Heads(bytes);
      assert Print(h) == bytes + [10];
    }
    forall h | WellFormed(h) && Print(h) == bytes + [10]
      ensures AtHeadEnd(bytes) && RefRun(Start, bytes).1 == HeadPieces(h, 0)
    {
      AlmostRun(h);
      NoEnd(h);
      AlmostIs(h, bytes);
    }
  }

  lemma AlmostIs(h: Head, bytes: seq<byte>)
    requires Print(h) == bytes + [10]
    ensures AlmostPrint(h) == bytes
  {
    assert Print(h) == AlmostPrint(h) + [10];
    assert (AlmostPrint(h) + [10])[..|AlmostPrint(h)|] == AlmostPrint(h) && (bytes + [10])[..|bytes|] == bytes;
  }

  lemma Heads(bytes: seq<byte>) returns (h: Head)
    requires AtHeadEnd(bytes) && |bytes| < MAX_REQUEST_BUF_SIZE
    ensures WellFormed(h) && Print(h) == bytes + [10]
  {
    hide Sound, RefRun;
    var g := HeadOf(bytes);
    h := Line(g);
    assert PrintLine(h) + PrintHeaders(h.headers) + [13] + [10] == Print(h);
  }

  /** A session whose reads end just before the end of a head. */
  ghost predicate ServedHeadEnd(inputs: seq<seq<byte>>) {
    var t := Serve(inputs);
    t.status.Live? && t.status.p.state == ER && RequestEnd !in t.tokens
  }

  /** The same for a session, however its bytes are cut into reads: it comes to the
      end of a head only on what a well-formed head prints, and does so on every
      one of them whose texts keep to the limit. */
  lemma ServedHeadGrammar(inputs: seq<seq<byte>>)
    requires |Concat(inputs)| < MAX_REQUEST_BUF_SIZE && !RefRun(Start, Concat(inputs)).0.Beyond?
    ensures ServedHeadEnd(inputs) ==> exists h :: WellFormed(h) && Print(h) == Concat(inputs) + [10]
    ensures forall h :: WellFormed(h) && Short(h) && Print(h) == Concat(inputs) + [10] ==> ServedHeadEnd(inputs)
  {
    hide Sound, Rel, RefRun, WellFormed, Serve, Short, Overlong, Concat, Ended;
    FreshRel();
    ServeRoom(inputs);
    ServeAnyCut(inputs);
    HeadGrammar(Concat(inputs));
    var t := Serve(inputs);
    var (r, out) := RefRun(Start, Concat(inputs));
    if t.status.Live? {
      StatesAgree(t.status.p, t.status.s, r);
      assert t.tokens + [] == t.tokens;
    }
    forall h | WellFormed(h) && Short(h) && Print(h) == Concat(inputs) + [10]
      ensures ServedHeadEnd(inputs)
    {
      ShortPieces(h, 0);
      RefRunSound(Start, Concat(inputs));
      NotInText(r);
      ServeExact(inputs);
    }
  }

  lemma NotInText(r: Ref)
    requires Sound(r) && r.Ref? && r.p.state == ER
    ensures !Overlong(r)
  {
  }

  lemma StatesAgree(p: Parser, s: Stream, r: Ref)
    requires Rel(p, s, r) && p.meta != END
    ensures p.state == ER <==> r.Ref? && r.p.state == ER
    ensures p.state == ER ==> Pending(p) == []
    ensures !r.Failed?
  {
  }
}
