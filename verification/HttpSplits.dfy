/** Whether the tokens of a session depend on where its reads fall: they do
    exactly when one of them is beyond the limit. */
module HttpSplits {
  import opened HttpTables
  import opened HttpStream
  import opened HttpParser
  import opened HttpReference
  import opened HttpRefinement
  import opened HttpCalls
  import opened HttpLimits
  import opened HttpSession

  /** The tokens of a session that reads all its bytes at once. */
  ghost function Verdict(bytes: seq<byte>): seq<Piece> {
    hide Sound;
    FreshRel();
    Ended(RefRun(Start, bytes).0, RefRun(Start, bytes).1)
  }

  // What the end of the input adds to a run, or holds back.
  function Ended(r: Ref, out: seq<Piece>): seq<Piece> {
    if Overlong(r) then out + [ErrorPiece] else AtRest(r, out)
  }

  /** The tokens of the bytes on their own. */
  ghost function Tokens(bytes: seq<byte>): seq<Piece> {
    hide Sound;
    FreshRel();
    RefRun(Start, bytes).1
  }

  /** The bytes fit in the buffer and give the parser no reason to leave the model. */
  ghost predicate Regular(bytes: seq<byte>) {
    hide Sound;
    FreshRel();
    |bytes| <= MAX_REQUEST_BUF_SIZE && !RefRun(Start, bytes).0.Beyond?
  }

  lemma EndedFailed(out: seq<Piece>)
    ensures Ended(Failed, out) == out
  {
  }

  /** Where a read cuts a token beyond the limit, that is the error; if the token
      never comes out in full, the bytes read at once end in the same error. */
  lemma CutVerdict(bytes: seq<byte>, n: nat, tokens: seq<Piece>)
    requires Sound(Start) && !RefRun(Start, bytes).0.Beyond? && NoLong(RefRun(Start, bytes).1)
    requires CutAt(FreshParser, Start, bytes, n, tokens)
    ensures var (r, out) := RefRun(Start, bytes); (Overlong(r) || r.Failed?) && tokens == Ended(r, out)
  {
    hide Sound, RefRun, NoLong, Overlong;
    PrefixWithin(Start, bytes, n);
    var (r1, out1) := RefRun(Start, bytes[..n]);
    var (x, out) := RefRun(r1, bytes[n..]);
    LongRun(r1, bytes[n..]);
    NoLongJoin(out1, out);
    assert [] + out1 == out1 && out1 + [] == out1;
    EndedFailed(out1 + out);
  }

  /** Without a token beyond the limit among them, the bytes give the same tokens
      over any reads. */
  lemma ServeExact(inputs: seq<seq<byte>>)
    requires Sound(Start) && !RefRun(Start, Concat(inputs)).0.Beyond? && NoLong(RefRun(Start, Concat(inputs)).1)
    requires Serve(inputs).status != NotARead
    ensures var (r, out) := RefRun(Start, Concat(inputs));
            Serve(inputs).tokens == Ended(r, out) && (Serve(inputs).status.Live? <==> !r.Failed? && !Overlong(r))
  {
    hide Sound, Rel, RefRun, NoLong, Overlong, Serve, CutAt, Inv, AtRest;
    ServeAnyCut(inputs);
    var t := Serve(inputs);
    var bytes := Concat(inputs);
    if t.status.Stopped? {
      if CutShort(FreshParser, Start, bytes, AtOnce(inputs), t.tokens) {
        var n :| AtOnce(inputs) <= n && CutAt(FreshParser, Start, bytes, n, t.tokens);
        CutVerdict(bytes, n, t.tokens);
      } else {
        EndedFailed(t.tokens);
      }
    }
  }

  lemma OneRead(bytes: seq<byte>)
    ensures Concat([bytes]) == bytes && AtOnce([bytes]) == |bytes|
  {
    assert [bytes][1..] == [];
  }

  /** One read of everything is cut at most where the bytes end. */
  lemma ServeWhole(bytes: seq<byte>)
    requires Regular(bytes) && Sound(Start)
    ensures Serve([bytes]).tokens == Verdict(bytes)
    ensures Overlong(RefRun(Start, bytes).0) ==> Serve([bytes]).status.Stopped?
  {
    hide Sound, Rel, RefRun, Overlong, Serve, Inv, AtRest, Concat;
    OneRead(bytes);
    ServeRoom([bytes]);
    ServeAnyCut([bytes]);
    var t := Serve([bytes]);
    if t.status.Stopped? {
      if CutShort(FreshParser, Start, bytes, |bytes|, t.tokens) {
        var n :| |bytes| <= n && CutAt(FreshParser, Start, bytes, n, t.tokens);
        assert bytes[..n] == bytes;
        assert [] + RefRun(Start, bytes).1 == RefRun(Start, bytes).1;
      } else {
        EndedFailed(t.tokens);
      }
    }
  }

  // ---- the dependence ----

  /** A session that its first reads stop sees nothing of the others. */
  lemma StoppedFirst(p: Parser, s: Stream, a: seq<seq<byte>>, b: seq<seq<byte>>)
    requires Inv(p, s) && Served(p, s, a).status.Stopped?
    ensures Served(p, s, a + b) == Served(p, s, a)
    decreases |a|
  {
    hide Drain, Counted, Coupled, Tokened, Append;
    if a != [] && CanRead(s, a[0]) {
      AppendKeepsInv(p, s, a[0]);
      DrainKeepsInv(p, Append(s, a[0]));
      assert (a + b)[1..] == a[1..] + b;
      var t := Drain(p, Append(s, a[0]));
      if t.status.Live? {
        StoppedFirst(t.status.p, t.status.s, a[1..], b);
      }
    }
  }

  lemma StoppedServe(a: seq<byte>, b: seq<byte>)
    requires Serve([a]).status.Stopped?
    ensures Serve([a, b]) == Serve([a])
  {
    hide Served, Inv, Rel, Sound;
    FreshRel();
    StoppedFirst(FreshParser, EmptyStream, [a], [b]);
    assert [a] + [b] == [a, b];
  }

  lemma TwoReads(bytes: seq<byte>, m: nat)
    requires m <= |bytes|
    ensures Concat([bytes[..m], bytes[m..]]) == bytes
  {
    OneRead(bytes[m..]);
    assert [bytes[..m], bytes[m..]][1..] == [bytes[m..]];
  }

  /** The parser depends on the reads at any token beyond the limit, of any kind and
      anywhere among the bytes: read at once the token is handed out in full, but a
      read that ends more than the limit into it makes it an error. */
  lemma LongTokensDepend(bytes: seq<byte>, i: nat, m: nat)
    requires Regular(bytes) && i < |Tokens(bytes)| && Long(Tokens(bytes)[i])
    requires var x := Tokens(bytes)[i]; x.start + MAX_TOKEN_LENGTH < m <= x.start + |x.text|
    ensures m <= |bytes| && Concat([bytes[..m], bytes[m..]]) == bytes == Concat([bytes])
    ensures Serve([bytes[..m], bytes[m..]]).tokens == Tokens(bytes)[..i] + [ErrorPiece]
    ensures i < |Serve([bytes]).tokens| && Serve([bytes]).tokens[..i + 1] == Tokens(bytes)[..i + 1]
    ensures Serve([bytes[..m], bytes[m..]]).tokens != Serve([bytes]).tokens
  {
    hide Sound, RefRun, Serve, Concat, Overlong;
    FreshRel();
    LongPiece(bytes, i, m);
    var x := Tokens(bytes)[i];
    PrefixWithin(Start, bytes, m);
    InsideLong(bytes, m, x, Tokens(bytes)[..i]);
    ServeWhole(bytes[..m]);
    StoppedServe(bytes[..m], bytes[m..]);
    TwoReads(bytes, m);
    OneRead(bytes);
    ServeWhole(bytes);
    var r := RefRun(Start, bytes).0;
    EndedKeeps(r, Tokens(bytes), i);
    assert Serve([bytes]).tokens[i] == x && (Tokens(bytes)[..i] + [ErrorPiece])[i] == ErrorPiece;
  }

  lemma InsideLong(bytes: seq<byte>, m: nat, x: Piece, out: seq<Piece>)
    requires Inside(bytes, m, x.typ, x.start, out) && Textual(x.typ) && x.start + MAX_TOKEN_LENGTH < m
    ensures Sound(Start) && Overlong(RefRun(Start, bytes[..m]).0) && RefRun(Start, bytes[..m]).1 == out
  {
  }

  // The end of the input takes nothing away but an empty chunk.
  lemma EndedKeeps(r: Ref, out: seq<Piece>, i: nat)
    requires i < |out| && Long(out[i])
    ensures i < |Ended(r, out)| && Ended(r, out)[..i + 1] == out[..i + 1] && Ended(r, out)[i] == out[i]
  {
  }

  // ---- the exact condition ----

  /** All sessions over the bytes hand out the same tokens. */
  ghost predicate SplitInvariant(bytes: seq<byte>) {
    forall a: seq<seq<byte>>, b: seq<seq<byte>> ::
      Concat(a) == bytes && Concat(b) == bytes ==> Serve(a).tokens == Serve(b).tokens
  }

  /** Any two sequences of reads of the same bytes give the same tokens. */
  lemma ServeSplitInvariance(a: seq<seq<byte>>, b: seq<seq<byte>>)
    requires Concat(a) == Concat(b) && Regular(Concat(a)) && NoLong(Tokens(Concat(a)))
    ensures Serve(a).tokens == Serve(b).tokens && Serve(a).status.Live? == Serve(b).status.Live?
  {
    hide Sound, RefRun, Served, NoLong, Ended, Concat, Inv;
    FreshRel();
    ServeRoom(a);
    ServeRoom(b);
    ServeExact(a);
    ServeExact(b);
  }

  /** The tokens of regular bytes do not depend on where the reads fall if and only
      if no method, target, version, key or value among them is beyond the limit. */
  lemma SplitInvarianceIff(bytes: seq<byte>)
    requires Regular(bytes)
    ensures SplitInvariant(bytes) <==> NoLong(Tokens(bytes))
  {
    hide Regular, Tokens, Serve, Concat;
    if NoLong(Tokens(bytes)) {
      forall a: seq<seq<byte>>, b: seq<seq<byte>> | Concat(a) == bytes && Concat(b) == bytes
        ensures Serve(a).tokens == Serve(b).tokens
      {
        ServeSplitInvariance(a, b);
      }
    } else {
      var i :| 0 <= i < |Tokens(bytes)| && Long(Tokens(bytes)[i]);
      var x := Tokens(bytes)[i];
      LongStarts(bytes, i);
      LongTokensDepend(bytes, i, x.start + MAX_TOKEN_LENGTH + 1);
    }
  }

  lemma LongStarts(bytes: seq<byte>, i: nat)
    requires Regular(bytes) && i < |Tokens(bytes)| && Long(Tokens(bytes)[i])
    ensures Tokens(bytes)[i].start >= 0
  {
    hide Sound, RefRun;
    FreshRel();
    var x := Tokens(bytes)[i];
    LongPiece(bytes, i, x.start + 1);
  }

  /** For requests that end outside a chunked body and within the limit nothing is
      outstanding either. */
  lemma ServeQuiet(inputs: seq<seq<byte>>)
    requires Sound(Start)
    requires var (r, out) := RefRun(Start, Concat(inputs));
             !r.Beyond? && NoLong(out) && !Overlong(r) && (r.Ref? ==> !InChunks(r.p.meta))
    requires Serve(inputs).status != NotARead
    ensures Serve(inputs).tokens == RefRun(Start, Concat(inputs)).1
    ensures Serve(inputs).status.Live? <==> !RefRun(Start, Concat(inputs)).0.Failed?
  {
    hide RefRun, NoLong, Concat, Serve;
    RefRunSound(Start, Concat(inputs));
    ServeExact(inputs);
  }

  /** From any parser between two bytes: reads that bring a chunked request to its
      end hand out the tokens of their bytes. */
  lemma ServedDone(p: Parser, s: Stream, r: Ref, inputs: seq<seq<byte>>)
    requires Inv(p, s) && s.Unread() == [] && p.meta != END && !TooLong(s.token)
    requires Sound(r) && Rel(p, s, r) && Pending(p) == []
    requires RefRun(r, Concat(inputs)).0.Done? && NoLong(RefRun(r, Concat(inputs)).1)
    requires Served(p, s, inputs).status != NotARead
    ensures Served(p, s, inputs).status.Live? && Served(p, s, inputs).tokens == RefRun(r, Concat(inputs)).1
  {
    hide Coupled, Counted, Tokened, Sound, Rel, RefRun, Served, Calls, CutAt, NoLong, Concat, StandsAt, Erred;
    var bytes := Concat(inputs);
    assert s.Unread() + bytes == bytes;
    var cuts := ServedIsCalls(p, s, inputs);
    CallsRel(p, s, r, cuts);
    ServedEnds(p, s, inputs);
    var t := Served(p, s, inputs);
    if t.status.Live? {
      LiveDone(p, r, bytes, t.status.p, t.status.s, t.tokens);
    } else if CutShort(p, r, bytes, Ahead(s, cuts), t.tokens) {
      var n :| Ahead(s, cuts) <= n && CutAt(p, r, bytes, n, t.tokens);
      NoCutBeforeDone(p, r, bytes, n, t.tokens);
    } else {
      NoErrorAtDone(p, r, bytes, t.tokens);
    }
  }

  lemma LiveDone(p: Parser, r: Ref, bytes: seq<byte>, p1: Parser, s1: Stream, tokens: seq<Piece>)
    requires Sound(r) && StandsAt(p, r, bytes, p1, s1, tokens) && s1.Wf() && s1.Unread() == [] && p1.meta != END
    requires Pending(p) == [] && RefRun(r, bytes).0.Done?
    ensures tokens == RefRun(r, bytes).1
  {
    hide Coupled, Counted, Tokened, Sound, RefRun;
    assert bytes[..|bytes|] == bytes;
    assert [] + RefRun(r, bytes).1 == RefRun(r, bytes).1 && tokens + [] == tokens;
  }

  lemma NoErrorAtDone(p: Parser, r: Ref, bytes: seq<byte>, tokens: seq<Piece>)
    requires Sound(r) && RefRun(r, bytes).0.Done?
    ensures !Erred(p, r, bytes, tokens)
  {
  }

  lemma NoCutBeforeDone(p: Parser, r: Ref, bytes: seq<byte>, n: nat, tokens: seq<Piece>)
    requires Sound(r) && RefRun(r, bytes).0.Done? && NoLong(RefRun(r, bytes).1)
    ensures !CutAt(p, r, bytes, n, tokens)
  {
    hide Sound, RefRun, NoLong;
    if CutAt(p, r, bytes, n, tokens) {
      PrefixWithin(r, bytes, n);
      var (r1, out1) := RefRun(r, bytes[..n]);
      LongRun(r1, bytes[n..]);
      NoLongJoin(out1, RefRun(r1, bytes[n..]).1);
    }
  }
}
