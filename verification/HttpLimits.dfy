/** Tokens beyond the limit in the run of the reference machine: where they
    stand among the bytes, and what becomes of one that has grown too long. */
module HttpLimits {
  import opened HttpTables
  import opened HttpParser
  import opened HttpReference
  import opened HttpRefinement

  /** A method, target, version, key or value longer than the limit. */
  predicate Long(x: Piece) {
    Textual(x.typ) && |x.text| > 8192
  }

  predicate NoLong(out: seq<Piece>) {
    forall i :: 0 <= i < |out| ==> !Long(out[i])
  }

  lemma NoLongJoin(a: seq<Piece>, b: seq<Piece>)
    ensures NoLong(a + b) <==> NoLong(a) && NoLong(b)
  {
    if NoLong(a + b) {
      forall i | 0 <= i < |a| ensures !Long(a[i]) {
        assert a[i] == (a + b)[i];
      }
      forall i | 0 <= i < |b| ensures !Long(b[i]) {
        assert b[i] == (a + b)[|a| + i];
      }
    }
  }

  // ---- one byte ----

  // The states inside a token with text.
  predicate InText(state: State) {
    Textual(StartToken(state))
  }

  // What Settle adds carries no text, and it never changes the token in progress.
  predicate KeepsText(r: Ref, res: (Ref, seq<Piece>))
    requires r.Ref?
  {
    var (x, more) := res;
    && NoLong(more)
    && (x.Ref? ==> x.pos == r.pos)
    && (x.Ref? && Textual(x.typ) ==> x == r && more == [])
    && (InText(r.p.state) ==> res == (r, []) || res == (Failed, [ErrorPiece]))
  }

  lemma SettleText(r: Ref, entering: bool)
    requires r.Ref? && Raw(r)
    ensures KeepsText(r, Settle(r, entering))
  {
  }

  // The token in progress is the old one and one byte more, or begins with the byte.
  predicate Continues(r: Ref, c: byte, x: Ref, out: seq<Piece>)
    requires r.Ref?
  {
    x.Ref? ==>
      && x.pos == r.pos + 1
      && (Textual(x.typ) ==>
            || (x.typ == r.typ && x.start == r.start && x.text == r.text + [c] && out == [])
            || (x.start == r.pos && x.text == [c]))
  }

  // Only the token in progress can come out long, and it does unless the run fails.
  predicate ComesOut(r: Ref, x: Ref, out: seq<Piece>)
    requires r.Ref?
  {
    && (forall i :: 0 <= i < |out| && Long(out[i]) ==> i == 0 && Overlong(r) && out[i] == Piece(r.typ, r.start, r.text))
    && (Overlong(r) ==>
          || (Overlong(x) && out == [])
          || (x.Failed? && out == [ErrorPiece])
          || !NoLong(out))
  }

  predicate TextKept(r: Ref, c: byte, res: (Ref, seq<Piece>))
    requires r.Ref?
  {
    res.0.Beyond? || (Continues(r, c, res.0, res.1) && ComesOut(r, res.0, res.1))
  }

  lemma RefFacts(r: Ref)
    requires Sound(r) && r.Ref?
    ensures Coupled(r.p.state, r.p.meta) && Counted(r.p) && r.typ == StartToken(r.p.state)
    ensures !InChunks(r.p.meta) && r.p.state != C2 ==> r.pos <= MAX_REQUEST_BUF_SIZE
  {
  }

  lemma BodyKept(r: Ref, c: byte, to: State)
    requires InBodyOf(r, to) && (to == BD || to == CB)
    ensures TextKept(r, c, BodyTake(r, [c], to))
  {
  }

  lemma ControlText(r: Ref, c: byte, to: State)
    requires Sound(r) && r.Ref? && Leads(r.p.state, to) && r.p.meta != ERR && Ready(Enter(r.p, to))
    requires r.p.state == C2 || r.p.state == HN ==> r.p.meta == ZER
    requires to == HV && r.p.meta == CLV ==> IsDigit(c)
    requires to != BD && to != CB && to != BR
    requires !InChunks(r.p.meta) ==> r.pos < MAX_REQUEST_BUF_SIZE
    ensures TextKept(r, c, ControlByte(r, c, to))
  {
    hide Coupled, Counted, Leads, Act, Enter, Settle, Sources, Raw, Sound, StartToken, InText, Continues, ComesOut;
    RefFacts(r);
    ControlKeepsParser(r.p, c, to, Offset(r));
    var q := Act(Enter(r.p, to), c, Offset(r));
    if InRange(q) {
      ChunksLeadToChunks(r.p, q);
      ExtendRaw(r, q, c);
      SettleText(Extend(r, q, c), r.p.state != to);
      TextEdge(r.p.state, to);
      ControlKept(r, c, q, to);
    }
  }

  lemma ControlKept(r: Ref, c: byte, q: Parser, to: State)
    requires r.Ref? && r.typ == StartToken(r.p.state) && q.state == to && Edged(r.p.state, to)
    requires KeepsText(Extend(r, q, c), Settle(Extend(r, q, c), r.p.state != to))
    ensures var out := if Emits(r.p.state, to) then [Piece(r.typ, r.start, r.text)] else [];
            var (x, more) := Settle(Extend(r, q, c), r.p.state != to);
            TextKept(r, c, (x, out + more))
  {
    hide Settle, StartToken, Emits, NoLong;
    var more := Settle(Extend(r, q, c), r.p.state != to).1;
    var out := if Emits(r.p.state, to) then [Piece(r.typ, r.start, r.text)] else [];
    NoLongJoin(out, more);
    if !Emits(r.p.state, to) {
      assert out + more == more;
      QuietPieces(more, r);
    } else {
      FirstPiece(out[0], more, r);
    }
  }

  lemma QuietPieces(more: seq<Piece>, r: Ref)
    requires NoLong(more)
    ensures forall i :: 0 <= i < |more| ==> !Long(more[i])
  {
  }

  lemma FirstPiece(first: Piece, more: seq<Piece>, r: Ref)
    requires r.Ref? && NoLong(more) && first == Piece(r.typ, r.start, r.text)
    ensures forall i :: 0 <= i < |[first] + more| && Long(([first] + more)[i]) ==> i == 0 && Overlong(r)
    ensures Overlong(r) ==> !NoLong([first] + more)
  {
    assert ([first] + more)[0] == first;
  }

  predicate Edged(from: State, to: State) {
    && (from == to ==> !Emits(from, to))
    && (InText(from) && from != to ==> Emits(from, to))
    && (Emits(from, to) ==> InText(from) && !InText(to))
  }

  lemma TextEdge(from: State, to: State)
    requires Leads(from, to)
    ensures Edged(from, to)
  {
    hide Leads, Sources, Emits, StartToken;
    TokenEdges(from, to);
    if Emits(from, to) {
      EmitsToken(from, to);
    }
  }

  /** One byte: only a token in progress can come out long, and one that is too
      long already goes on, comes out, or fails. */
  lemma StepText(r: Ref, c: byte)
    requires Sound(r) && r.Ref?
    ensures TextKept(r, c, RefStep(r, c))
  {
    hide Sound, RefStep, BodyTake, ControlByte, NextState, Leads, Continues, ComesOut, Coupled, Ready, Enter;
    if !RefStep(r, c).0.Beyond? {
      RefStepIs(r, c);
      var to := NextState(r.p.state, r.p.meta, c);
      if to == BD || to == CB {
        BodyKept(r, c, to);
      } else if to == BR {
        FailedKept(r, c);
      } else {
        ControlText(r, c, to);
      }
    }
  }

  lemma FailedKept(r: Ref, c: byte)
    requires r.Ref?
    ensures TextKept(r, c, (Failed, [ErrorPiece]))
  {
  }

  // ---- runs ----

  lemma RunOne(r: Ref, c: byte, rest: seq<byte>)
    requires Sound(r)
    ensures Sound(RefStep(r, c).0)
    ensures RefRun(r, [c] + rest) == (RefRun(RefStep(r, c).0, rest).0, RefStep(r, c).1 + RefRun(RefStep(r, c).0, rest).1)
  {
    hide Sound, RefStep;
    RefStepSound(r, c);
    assert ([c] + rest)[1..] == rest;
  }

  // The run with its last byte set apart.
  lemma RunLast(r: Ref, bytes: seq<byte>, c: byte)
    requires Sound(r) && !RefRun(r, bytes + [c]).0.Beyond?
    ensures var (r1, out1) := RefRun(r, bytes);
            && !r1.Beyond? && Sound(r1)
            && RefRun(r, bytes + [c]) == (RefStep(r1, c).0, out1 + RefStep(r1, c).1)
  {
    hide Sound, RefStep, RefRun;
    RunSplit(r, bytes, [c]);
    var r1 := RefRun(r, bytes).0;
    Sticky(r1, [c]);
    OneByte(r1, c);
  }

  /** A token that is too long stays in progress, or fails, or comes out. */
  lemma LongRun(r: Ref, bytes: seq<byte>)
    requires Sound(r) && Overlong(r) && !RefRun(r, bytes).0.Beyond?
    ensures var (x, out) := RefRun(r, bytes);
            (Overlong(x) && out == []) || (x.Failed? && out == [ErrorPiece]) || !NoLong(out)
    decreases |bytes|
  {
    hide Sound, RefStep, Overlong, Continues, NoLong;
    if bytes != [] {
      var c, rest := bytes[0], bytes[1..];
      assert bytes == [c] + rest;
      OverlongRef(r);
      RunOne(r, c, rest);
      StepText(r, c);
      var (r1, out1) := RefStep(r, c);
      Sticky(r1, rest);
      var (x, out) := RefRun(r1, rest);
      NoLongJoin(out1, out);
      if Overlong(r1) && out1 == [] {
        LongRun(r1, rest);
        assert [] + out == out;
      } else if r1.Failed? && out1 == [ErrorPiece] {
        assert [ErrorPiece] + [] == [ErrorPiece];
      }
    }
  }

  lemma OverlongRef(r: Ref)
    requires Overlong(r)
    ensures r.Ref?
  {
  }

  // ---- where tokens stand ----

  /** n bytes into the run, the token in progress covers the last of them. */
  predicate Aligned(r: Ref, n: nat) {
    r.Ref? ==> r.pos == n && (Textual(r.typ) ==> 0 <= r.start && r.start + |r.text| == n)
  }

  lemma RunAligned(bytes: seq<byte>)
    requires !RefRun(Start, bytes).0.Beyond?
    ensures Aligned(RefRun(Start, bytes).0, |bytes|)
    decreases |bytes|
  {
    hide RefStep, RefRun, ComesOut;
    if bytes == [] {
      assert RefRun(Start, []) == (Start, []) by { NoBytes(); }
    } else {
      var n := |bytes| - 1;
      assert bytes == bytes[..n] + [bytes[n]];
      RunLast(Start, bytes[..n], bytes[n]);
      RunAligned(bytes[..n]);
      var r1 := RefRun(Start, bytes[..n]).0;
      if r1.Ref? {
        StepText(r1, bytes[n]);
      } else {
        Sticky(r1, [bytes[n]]);
        OneByte(r1, bytes[n]);
      }
    }
  }

  lemma NoBytes()
    ensures Sound(Start) && RefRun(Start, []) == (Start, [])
  {
  }

  // m bytes into the run a token is in progress that began at start.
  ghost predicate Inside(bytes: seq<byte>, m: nat, typ: TokenType, start: int, out: seq<Piece>) {
    && m <= |bytes|
    && Sound(Start)
    && var (r, out1) := RefRun(Start, bytes[..m]);
       r.Ref? && r.typ == typ && r.start == start && |r.text| == m - start && out1 == out
  }

  lemma InsideShorter(bytes: seq<byte>, n: nat, m: nat, typ: TokenType, start: int, out: seq<Piece>)
    requires m <= n <= |bytes| && Inside(bytes[..n], m, typ, start, out)
    ensures Inside(bytes, m, typ, start, out)
  {
    assert bytes[..n][..m] == bytes[..m];
  }

  /** Every byte of a token in progress finds the token in progress. */
  lemma InToken(bytes: seq<byte>, m: nat)
    requires Sound(Start) && !RefRun(Start, bytes).0.Beyond?
    requires var r := RefRun(Start, bytes).0; r.Ref? && Textual(r.typ) && r.start < m <= |bytes|
    ensures var (r, out) := RefRun(Start, bytes); Inside(bytes, m, r.typ, r.start, out)
    decreases |bytes|
  {
    hide RefStep, RefRun, ComesOut, Sound;
    RunAligned(bytes);
    if m == |bytes| {
      assert bytes[..m] == bytes;
    } else {
      var n := |bytes| - 1;
      assert bytes == bytes[..n] + [bytes[n]];
      RunLast(Start, bytes[..n], bytes[n]);
      RunAligned(bytes[..n]);
      var (r1, out1) := RefRun(Start, bytes[..n]);
      if r1.Ref? {
        StepText(r1, bytes[n]);
        assert out1 + [] == out1;
        InToken(bytes[..n], m);
        InsideShorter(bytes, n, m, r1.typ, r1.start, out1);
      } else {
        Sticky(r1, [bytes[n]]);
        OneByte(r1, bytes[n]);
      }
    }
  }

  /** A long piece stands in the bytes at its offset: cut anywhere inside it, the
      run has that token in progress and has handed out the pieces before it. */
  lemma LongPiece(bytes: seq<byte>, i: nat, m: int)
    requires Sound(Start) && !RefRun(Start, bytes).0.Beyond?
    requires var out := RefRun(Start, bytes).1;
             i < |out| && Long(out[i]) && out[i].start < m <= out[i].start + |out[i].text|
    ensures var out := RefRun(Start, bytes).1; 0 <= out[i].start && Inside(bytes, m, out[i].typ, out[i].start, out[..i])
    decreases |bytes|
  {
    hide RefStep, RefRun, Continues, Sound;
    if bytes == [] {
      NoBytes();
    } else {
      var n := |bytes| - 1;
      assert bytes == bytes[..n] + [bytes[n]];
      RunLast(Start, bytes[..n], bytes[n]);
      var (r1, out1) := RefRun(Start, bytes[..n]);
      var (r, out) := RefRun(Start, bytes);
      if i < |out1| {
        LongPiece(bytes[..n], i, m);
        assert out[..i] == out1[..i];
        InsideShorter(bytes, n, m, out[i].typ, out[i].start, out1[..i]);
      } else if r1.Ref? {
        StepText(r1, bytes[n]);
        RunAligned(bytes[..n]);
        InToken(bytes[..n], m);
        assert out[..i] == out1;
        InsideShorter(bytes, n, m, r1.typ, r1.start, out1);
      } else {
        Sticky(r1, [bytes[n]]);
        OneByte(r1, bytes[n]);
      }
    }
  }
}
