/** http_parse in place: the class whose methods update the parser struct and the
    stream struct step by step, each proved against the functions of HttpParser. */
module HttpMachine {
  import opened HttpAlphabet
  import opened HttpTables
  import opened HttpStream
  import opened HttpParser

  lemma EntersKeepWord(p: Parser, c: byte)
    requires p.state != BR
    ensures p.state == CS ==> NextState(p.state, p.meta, c) != HK && NextState(p.state, p.meta, c) != HS
  {
  }

  /** The consumed flag of the previous byte plays no part. */
  lemma FlagIgnored(p: Parser, s: Stream)
    requires Inv(p, s) && (p.meta == SEN || p.meta == END ==> p.state == C2)
    ensures var t := s.(consumed := false);
            && Inv(p, t) && Loop(p, t) == Loop(p, s)
            && (s.index < s.length ==> Step(p, t) == Step(p, s))
  {
    hide Coupled, Counted, Label, EnterStream;
  }

  lemma ChunkShiftable(p: Parser, s: Stream)
    requires Inv(p, s) && p.state == CB
    ensures Shiftable(s)
  {
  }

  /** http_parser_t updated in place. */
  class RequestParser {
    var contentLength: int
    var bodyConsumed: int
    var matchIndex: int
    var headerCount: int
    var state: State
    var meta: Meta

    ghost function View(): Parser
      reads this
    {
      Parser(contentLength, bodyConsumed, matchIndex, headerCount, state, meta)
    }

    constructor ()
      ensures View() == FreshParser
    {
      contentLength, bodyConsumed, matchIndex, headerCount := 0, 0, 0, 0;
      state, meta := ST, WFK;
    }

    method Reset()
      modifies this
      ensures View() == FreshParser
    {
      contentLength, bodyConsumed, matchIndex, headerCount := 0, 0, 0, 0;
      state, meta := ST, WFK;
    }

    method TriggerMeta(event: Event)
      requires meta != ERR
      modifies this`meta
      ensures View() == Trigger(old(View()), event)
    {
      meta := MetaRow(meta, event);
    }

    method MatchWord(word: seq<byte>, left: byte, c: byte, event: Event) returns (m: byte)
      requires 0 <= matchIndex && meta != ERR
      modifies this`meta
      ensures View() == Match(old(View()), word, left, c, event)
      ensures m == Matched(old(View()), word, left)
    {
      var inBounds := matchIndex < |word|;
      m := if inBounds then word[matchIndex] else left;
      if Lower(c) != m {
        TriggerMeta(event);
      }
    }

    method MatchKeyByte(c: byte)
      requires 0 <= matchIndex && meta in {ANY, MTE, MCL, WFK, SML, CHK}
      requires meta == ANY ==> matchIndex == 0
      modifies this
      ensures View() == MatchKey(old(View()), c)
      ensures old(meta) == ANY ==> meta == if Folds(c, 't') then MTE else if Folds(c, 'c') then MCL else WFK
      ensures old(meta) == MTE && old(matchIndex) < 17 ==>
                meta == if Folds(c, "transfer-encoding"[old(matchIndex)]) then MTE else WFK
      ensures old(meta) == MCL && old(matchIndex) < 17 ==>
                meta == if Folds(c, "content-lengthing"[old(matchIndex)]) then MCL else WFK
    {
      KeyLetters(matchIndex, c);
      hide Folds, Lower;
      var m := MatchWord(TRANSFER_ENCODING, 0, c, NOT_TRANSFER_ENC);
      m := MatchWord(CONTENT_LENGTH, m, c, NOT_CONTENT_LEN);
      matchIndex := matchIndex + 1;
    }

    method MatchValueByte(c: byte)
      requires 0 <= matchIndex && meta in {WFK, MCK, CLV, SML, CHK}
      modifies this
      ensures View() == MatchValue(old(View()), c)
      ensures old(meta) == MCK && old(matchIndex) < 7 ==>
                meta == if Folds(c, "chunked"[old(matchIndex)]) then MCK else WFK
      ensures old(meta) == CLV ==> forall v: nat :: v < 10 && Folds(c, "0123456789"[v]) ==>
                contentLength == old(contentLength) * 10 + v
    {
      ValueLetters(matchIndex, c);
      DecimalPlaces(c);
      hide Folds, Lower;
      if meta == MCK {
        var m := MatchWord(CHUNKED, 0, c, NOT_CHUNKED);
        matchIndex := matchIndex + 1;
      } else if meta == CLV {
        contentLength := contentLength * 10;
        contentLength := contentLength + (c - 48);
      }
    }

    method FinishHeaders(index: int) returns (signal: TokenType)
      requires state == HN && meta in {ANY, SML, CHK}
      modifies this
      ensures View() == EndHeaders(old(View()), index)
      ensures signal == Signal(View(), true)
    {
      signal := TNone;
      if meta == SML && !CanContain(index, contentLength) {
        TriggerMeta(LARGE_BODY);
      }
      if meta == BIG || meta == CHK {
        signal := TBodyStream;
      }
      TriggerMeta(END_HEADERS);
      if contentLength == 0 && meta == BDY {
        meta := END;
      }
      if meta == END {
        signal := TBody;
      }
    }

    method AddChunkDigit(c: byte)
      requires meta in {ZER, CSZ}
      modifies this
      ensures View() == ChunkDigit(old(View()), c)
      ensures forall v: nat :: v < 16 && Folds(c, "0123456789abcdef"[v]) ==> contentLength == old(contentLength) * 16 + v
    {
      HexPlaces(c);
      hide Folds;
      if c != 48 {
        TriggerMeta(NON_ZERO);
      }
      if 65 <= c <= 70 {
        contentLength := contentLength * 0x10;
        contentLength := contentLength + (c - 55);
      } else if 97 <= c <= 102 {
        contentLength := contentLength * 0x10;
        contentLength := contentLength + (c - 87);
      } else if 48 <= c <= 57 {
        contentLength := contentLength * 0x10;
        contentLength := contentLength + (c - 48);
      }
    }

    /** The switch of hs_transition_action for the states outside the body. */
    method ActInPlace(c: byte, index: int) returns (signal: TokenType)
      requires Pre(state, meta) && 0 <= matchIndex
      requires state == HK && meta == ANY ==> matchIndex == 0
      modifies this
      ensures View() == Act(old(View()), c, index)
      ensures signal == if state == HN then Signal(View(), true) else TNone
    {
      signal := TNone;
      match state {
        case RR => TriggerMeta(END_VALUE);
        case HR => TriggerMeta(END_VALUE);
        case HK => MatchKeyByte(c);
        case HV => MatchValueByte(c);
        case HN => signal := FinishHeaders(index);
        case CS => AddChunkDigit(c);
        case C2 => TriggerMeta(END_CHUNK);
        case _ =>
      }
    }

    /** The whole body or chunk has arrived: hand it out. */
    method FinishBody(stream: HsStream) returns (emitted: Token)
      requires AtBody(View())
      modifies `contentLength, `bodyConsumed, `state, `meta, stream`token
      ensures var p := old(View());
              View() == Trigger(p, NEXT).(state := if p.state == CB then CD else p.state,
                                          contentLength := 0, bodyConsumed := 0)
      ensures emitted == old(stream.token) && stream.View() == old(stream.View()).(token := NoToken)
    {
      emitted := stream.Emit();
      TriggerMeta(NEXT);
      if state == CB {
        state := CD;
      }
      contentLength := 0;
      bodyConsumed := 0;
    }

    /** Only part of it has arrived: keep it, or pass it on when streaming. */
    method TakePart(stream: HsStream) returns (emitted: Token)
      modifies `bodyConsumed, stream`consumed, stream`token, stream`index, stream`length, stream.buf
      ensures View() == old(View().(bodyConsumed := bodyConsumed + stream.length - stream.index))
      ensures var s := JumpAll(old(stream.View()));
              if old(meta) == STR then emitted == s.token && stream.View() == Shift(s.(token := NoToken))
              else emitted == NoToken && stream.View() == s
    {
      emitted := NoToken;
      var offset := stream.DoJumpAll();
      bodyConsumed := bodyConsumed + offset;
      if meta == STR {
        emitted := stream.Emit();
        stream.DoShift();
      }
    }

    /** The BD and CB labels of hs_transition_action; not ok where a jump has no
        defined target. */
    method ReadBody(stream: HsStream) returns (ok: bool, emitted: Token)
      requires AtBody(View())
      modifies `contentLength, `bodyConsumed, `state, `meta
      modifies stream`consumed, stream`token, stream`index, stream`length, stream.buf
      ensures var res := BodyLabel(old(View()), old(stream.View()));
              ok == res.Ok? && (ok ==> res == Ok(emitted, View(), stream.View()))
    {
      hide Int32, Shift, MetaRow;
      emitted := NoToken;
      if meta == STR {
        stream.DoBeginToken(TChunkBody);
      }
      var bodyLeft := Int32(contentLength - bodyConsumed);
      ok := 0 <= bodyLeft && stream.index + bodyLeft <= INT_MAX;
      if !ok {
        return;
      }
      var whole := stream.DoJump(bodyLeft);
      if whole {
        emitted := FinishBody(stream);
      } else {
        emitted := TakePart(stream);
      }
    }

    /** The parser's share of the block before the switch. */
    method EnterInPlace(from: State, to: State)
      requires state == to && meta != ERR && (from == CS ==> to != HK && to != HS)
      modifies this
      ensures View() == Enter(old(View()).(state := from), to)
    {
      if from != to {
        if from == CS {
          TriggerMeta(END_CHK_SIZE);
        }
        if to == HK {
          headerCount := headerCount + 1;
        } else if to == HS {
          TriggerMeta(END_KEY);
        }
        matchIndex := 0;
      }
    }

    // The body area begins where the head ends.
    method AnchorAfterHead(stream: HsStream, from: State)
      modifies stream`anchor
      ensures stream.View() == if from == HN then old(stream.View()).(anchor := old(stream.index)) else old(stream.View())
    {
      if from == HN {
        stream.DoAnchor();
      }
    }

    // Some states begin a token when they are entered.
    method BeginOnEntry(stream: HsStream, from: State, to: State)
      modifies stream`token
      ensures stream.View() == if from != to && StartToken(to) != TNone
                               then BeginToken(old(stream.View()), StartToken(to)) else old(stream.View())
    {
      hide StartToken;
      if from != to {
        var typ := StartToken(to);
        if typ != TNone {
          stream.DoBeginToken(typ);
        }
      }
    }

    /** The stream's share of the block before the switch. */
    method BeginInPlace(stream: HsStream, from: State, to: State)
      modifies stream`anchor, stream`token
      ensures stream.View() == EnterStream(old(stream.View()), from, to)
    {
      hide StartToken, BeginToken;
      AnchorAfterHead(stream, from);
      BeginOnEntry(stream, from, to);
    }

    /** The switch of hs_transition_action. */
    method Switch(stream: HsStream, c: byte, from: State) returns (ok: bool, emitted: Token)
      requires Ready(View())
      modifies this
      modifies stream`consumed, stream`token, stream`index, stream`length, stream.buf
      ensures var res := Label(old(View()), old(stream.View()), from, c);
              ok == res.Ok? && (ok ==> res == Ok(emitted, View(), Consume(stream.View())))
    {
      hide BodyLabel, Act, Pre;
      ok, emitted := true, NoToken;
      var to := state;
      if to == BD || to == CB {
        ok, emitted := ReadBody(stream);
      } else if to == BR {
        emitted := emitted.(typ := TError);
      } else {
        if to == HK && from != to && headerCount > MAX_HEADER_COUNT {
          emitted := emitted.(typ := TError);
        }
        var signal := ActInPlace(c, stream.index);
        ok := contentLength <= INT64_MAX;
        if Emits(from, to) {
          emitted := stream.Emit();
        } else if to == HN {
          emitted := emitted.(typ := signal);
        }
      }
    }

    /** hs_meta_emit. */
    method EmitMeta() returns (token: Token)
      modifies this
      ensures (token, View()) == MetaEmit(old(View()))
    {
      token := NoToken;
      if meta == SEN {
        token := token.(typ := TChunkBody);
        TriggerMeta(NEXT);
      } else if meta == END {
        token := token.(typ := TReqEnd);
        Reset();
      }
    }

    /** The body of the loop in http_parse. */
    method Iterate(stream: HsStream, c: byte) returns (ok: bool, emitted: Token)
      requires var s := stream.View();
               && Inv(View(), s) && s.index < s.length && !s.consumed && c == s.buf[s.index]
               && (meta == SEN || meta == END ==> state == C2)
      modifies this
      modifies stream`consumed, stream`token, stream`index, stream`length, stream`anchor, stream.buf
      ensures var res := Step(old(View()), old(stream.View()));
              ok == res.Ok? && (ok ==> res == Ok(emitted, View(), stream.View()))
    {
      hide Label, EnterStream, Row, Tokened, Classify, Lengths;
      ghost var p := View();
      EnterReady(p, c, NextState(p.state, p.meta, c));
      EntersKeepWord(p, c);
      var from := state;
      var to := NextState(state, meta, c);
      if (from == C2 && meta == END) || (to == HV && meta == CLV && !IsDigit(c)) {
        return false, NoToken;
      }
      state := to;
      BeginInPlace(stream, from, to);
      EnterInPlace(from, to);
      ok, emitted := Switch(stream, c, from);
      stream.DoConsume();
    }

    /** http_parse. */
    method Run(stream: HsStream) returns (ok: bool, token: Token)
      requires Inv(View(), stream.View())
      modifies this
      modifies stream`consumed, stream`token, stream`index, stream`length, stream`anchor, stream.buf
      ensures var res := Parse(old(View()), old(stream.View()));
              ok == res.Ok? && (ok ==> res == Ok(token, View(), stream.View()))
    {
      hide Step, Counted, Coupled, Tokened;
      ok := true;
      token := EmitMeta();
      if token.typ != TNone {
        return;
      }
      ghost var p0, s0 := View(), stream.View();
      LoopKeepsInv(p0, s0);
      while true
        invariant Inv(View(), stream.View()) && (meta == SEN || meta == END ==> state == C2)
        invariant Loop(View(), stream.View()) == Loop(p0, s0) && ok
        decreases stream.length - stream.index
      {
        FlagIgnored(View(), stream.View());
        var more, c := stream.Next();
        if !more {
          break;
        }
        StepKeepsInv(View(), stream.View());
        var emitted;
        ok, emitted := Iterate(stream, c);
        if !ok {
          return;
        }
        if emitted.typ != TNone {
          return true, emitted;
        }
      }
      if state == CB {
        ChunkShiftable(View(), stream.View());
        stream.DoShift();
      }
      token := EmitMeta();
      var current := stream.token;
      if TooLong(current) {
        token := token.(typ := TError);
      }
    }
  }
}
