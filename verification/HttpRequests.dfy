/** Whole requests without a body, or with a body small enough to be buffered:
    what is printed is what a session hands out, however it is cut into reads. */
module HttpRequests {
  import opened HttpAlphabet
  import opened HttpTables
  import opened HttpStream
  import opened HttpParser
  import opened HttpReference
  import opened HttpRefinement
  import opened HttpCalls
  import opened HttpLimits
  import opened HttpSession
  import opened HttpSplits
  import opened HttpGrammar

  datatype Request = Request(head: Head, body: seq<byte>)

  function PrintRequest(q: Request): seq<byte> {
    Print(q.head) + q.body
  }

  /** The framing headers announce exactly this body. */
  predicate Announced(q: Request) {
    && WellFormed(q.head)
    && match Frame(q.head.headers, NoLength)
       case NoLength => q.body == []
       case Length(n) => |q.body| == n
       case Chunked => false
  }

  function RequestPieces(q: Request, at: nat): seq<Piece> {
    HeadPieces(q.head, at)
    + (if q.body == [] then [NoBody, RequestEnd] else [Piece(TBody, at + |Print(q.head)|, q.body), RequestEnd])
  }

  lemma BodyReads(r: Ref, body: seq<byte>)
    requires r.Ref? && Sound(r) && r.p.state == HN && r.p.meta == BDY && r.p.bodyConsumed == 0
    requires |body| == r.p.contentLength && r.pos + |body| <= MAX_REQUEST_BUF_SIZE
    ensures Reads(r, body, Between(FreshParser, r.pos + |body|), [Piece(TBody, r.pos, body), RequestEnd])
  {
    hide Sound, RefRun;
    RefRunSound(r, body);
    BodyEntry(r);
    BodyRun(r, body, BD);
  }

  lemma BodyEntry(r: Ref)
    requires r.Ref? && Sound(r) && r.p.state == HN && r.p.meta == BDY && r.p.bodyConsumed == 0
    ensures InBodyOf(r, BD) && 0 < r.p.contentLength && BodyLeft(r) == r.p.contentLength
  {
  }

  /** Parse of print, body included, for a request that begins anywhere in the buffer. */
  lemma RequestRun(q: Request, pos: nat)
    requires Announced(q) && pos + |PrintRequest(q)| <= MAX_REQUEST_BUF_SIZE
    ensures Reads(Between(FreshParser, pos), PrintRequest(q),
                  Between(FreshParser, pos + |PrintRequest(q)|), RequestPieces(q, pos))
  {
    hide Reads, Sound, WellFormed, Print, HeadPieces, Between;
    var h := q.head;
    HeadRun(h, pos);
    if q.body == [] {
      assert Print(h) + q.body == Print(h);
      NoBodyAfter(|h.headers|, Frame(h.headers, NoLength), pos + |Print(h)|);
    } else {
      BodyAfter(q, pos, HeadPieces(h, pos));
    }
  }

  lemma NoBodyAfter(count: nat, f: Framing, pos: nat)
    requires (f == NoLength || f == Length(0)) && pos <= MAX_REQUEST_BUF_SIZE
    ensures AfterHead(count, f, pos) == (Between(FreshParser, pos), [NoBody, RequestEnd])
  {
  }

  lemma BodyAfter(q: Request, pos: nat, head: seq<Piece>)
    requires Announced(q) && q.body != [] && pos + |PrintRequest(q)| <= MAX_REQUEST_BUF_SIZE
    requires var (r, out) := AfterHead(|q.head.headers|, Frame(q.head.headers, NoLength), pos + |Print(q.head)|);
             Reads(Between(FreshParser, pos), Print(q.head), r, head + out)
    ensures Reads(Between(FreshParser, pos), PrintRequest(q), Between(FreshParser, pos + |PrintRequest(q)|),
                  head + [Piece(TBody, pos + |Print(q.head)|, q.body), RequestEnd])
  {
    hide Reads, Sound, Announced, Print, AfterHead, RequestPieces;
    var at := pos + |Print(q.head)|;
    var (r, out) := AfterHead(|q.head.headers|, Frame(q.head.headers, NoLength), at);
    BodyAhead(q, at);
    assert head + out == head;
    ReadsSound(Between(FreshParser, pos), Print(q.head), r, head);
    BodyReads(r, q.body);
    Chain(Between(FreshParser, pos), Print(q.head), r, head, q.body,
          Between(FreshParser, at + |q.body|), [Piece(TBody, at, q.body), RequestEnd]);
  }

  lemma BodyAhead(q: Request, at: nat)
    requires Announced(q) && q.body != [] && at + |q.body| <= MAX_REQUEST_BUF_SIZE
    ensures var (r, out) := AfterHead(|q.head.headers|, Frame(q.head.headers, NoLength), at);
            && out == [] && r.Ref? && r.p.state == HN && r.p.meta == BDY && r.p.bodyConsumed == 0
            && r.p.contentLength == |q.body| && r.pos == at
  {
    hide WellFormed, Print;
  }

  lemma ShortRequest(q: Request, at: nat)
    ensures NoLong(RequestPieces(q, at)) <==> Short(q.head)
  {
    hide Short, HeadPieces, Print;
    ShortPieces(q.head, at);
    var rest := if q.body == [] then [NoBody, RequestEnd] else [Piece(TBody, at + |Print(q.head)|, q.body), RequestEnd];
    NoLongOf(rest);
    NoLongJoin(HeadPieces(q.head, at), rest);
    hide NoLong;
  }

  /** However a request is cut into reads, its tokens come out with the printed
      texts at the printed offsets, and the driver loop ends quietly. */
  lemma RequestServed(inputs: seq<seq<byte>>, q: Request)
    requires Announced(q) && Short(q.head)
    requires |PrintRequest(q)| <= MAX_REQUEST_BUF_SIZE && Concat(inputs) == PrintRequest(q)
    ensures Serve(inputs).status.Live? && Serve(inputs).tokens == RequestPieces(q, 0)
  {
    hide Sound, Serve, WellFormed, PrintRequest, RequestPieces, NoLong, Short, RefRun;
    RequestRun(q, 0);
    ShortRequest(q, 0);
    BetweenRequests(inputs, RequestPieces(q, 0), |PrintRequest(q)|);
  }

  /** A session whose bytes end between two requests. */
  lemma BetweenRequests(inputs: seq<seq<byte>>, out: seq<Piece>, pos: nat)
    requires Reads(Between(FreshParser, 0), Concat(inputs), Between(FreshParser, pos), out)
    requires |Concat(inputs)| <= MAX_REQUEST_BUF_SIZE && NoLong(out)
    ensures Serve(inputs).status.Live? && Serve(inputs).tokens == out
  {
    hide Sound, Serve, NoLong, Concat, RefRun;
    assert Start == Between(FreshParser, 0);
    ServeRoom(inputs);
    ServeQuiet(inputs);
  }

  // ---- requests one after the other ----

  function PrintAll(qs: seq<Request>): seq<byte> {
    if qs == [] then [] else PrintRequest(qs[0]) + PrintAll(qs[1..])
  }

  function AllPieces(qs: seq<Request>, at: nat): seq<Piece> {
    if qs == [] then [] else RequestPieces(qs[0], at) + AllPieces(qs[1..], at + |PrintRequest(qs[0])|)
  }

  lemma FreshReads(pos: nat)
    requires pos <= MAX_REQUEST_BUF_SIZE
    ensures Reads(Between(FreshParser, pos), [], Between(FreshParser, pos), [])
  {
  }

  /** Requests that share a buffer come out one after the other, none of them
      disturbed by those before it. */
  lemma {:induction false} RequestsRun(qs: seq<Request>, pos: nat)
    requires forall i :: 0 <= i < |qs| ==> Announced(qs[i])
    requires pos + |PrintAll(qs)| <= MAX_REQUEST_BUF_SIZE
    ensures Reads(Between(FreshParser, pos), PrintAll(qs), Between(FreshParser, pos + |PrintAll(qs)|), AllPieces(qs, pos))
    decreases |qs|
  {
    hide Reads, Sound, Announced, PrintRequest, RequestPieces;
    if qs == [] {
      FreshReads(pos);
    } else {
      var at := pos + |PrintRequest(qs[0])|;
      RequestRun(qs[0], pos);
      RequestsRun(qs[1..], at);
      Chain(Between(FreshParser, pos), PrintRequest(qs[0]), Between(FreshParser, at), RequestPieces(qs[0], pos),
            PrintAll(qs[1..]), Between(FreshParser, pos + |PrintAll(qs)|), AllPieces(qs[1..], at));
    }
  }

  lemma RequestsServed(inputs: seq<seq<byte>>, qs: seq<Request>)
    requires forall i :: 0 <= i < |qs| ==> Announced(qs[i]) && Short(qs[i].head)
    requires |PrintAll(qs)| <= MAX_REQUEST_BUF_SIZE && Concat(inputs) == PrintAll(qs)
    ensures Serve(inputs).status.Live? && Serve(inputs).tokens == AllPieces(qs, 0)
  {
    hide Sound, Serve, Announced, PrintAll, AllPieces, PrintRequest, Short, NoLong, RefRun;
    RequestsRun(qs, 0);
    ShortRequests(qs, 0);
    BetweenRequests(inputs, AllPieces(qs, 0), |PrintAll(qs)|);
  }

  lemma {:induction false} ShortRequests(qs: seq<Request>, at: nat)
    ensures NoLong(AllPieces(qs, at)) <==> forall i :: 0 <= i < |qs| ==> Short(qs[i].head)
    decreases |qs|
  {
    hide Short, NoLong, RequestPieces, PrintRequest;
    if qs == [] {
      NoneLong();
    } else {
      ShortRequest(qs[0], at);
      ShortRequests(qs[1..], at + |PrintRequest(qs[0])|);
      NoLongJoin(RequestPieces(qs[0], at), AllPieces(qs[1..], at + |PrintRequest(qs[0])|));
      assert qs == [qs[0]] + qs[1..];
    }
  }

  /** For any requests that fit in the buffer, what comes out is independent of the
      reads if and only if every text of their heads keeps to the limit. */
  lemma RequestsSplitIff(qs: seq<Request>)
    requires (forall i :: 0 <= i < |qs| ==> Announced(qs[i])) && |PrintAll(qs)| <= MAX_REQUEST_BUF_SIZE
    ensures SplitInvariant(PrintAll(qs)) <==> forall i :: 0 <= i < |qs| ==> Short(qs[i].head)
  {
    hide Sound, Announced, PrintAll, AllPieces, Short, NoLong, RefRun, SplitInvariant;
    RequestsRun(qs, 0);
    ShortRequests(qs, 0);
    RegularRun(PrintAll(qs), AllPieces(qs, 0), |PrintAll(qs)|);
    SplitInvarianceIff(PrintAll(qs));
  }

  lemma RegularRun(bytes: seq<byte>, out: seq<Piece>, pos: nat)
    requires Reads(Between(FreshParser, 0), bytes, Between(FreshParser, pos), out) && |bytes| <= MAX_REQUEST_BUF_SIZE
    ensures Regular(bytes) && Tokens(bytes) == out
  {
    hide Sound, RefRun;
    FreshRel();
    assert Start == Between(FreshParser, 0);
  }

  // ---- names ----

  /** Which header the machine takes a name for, once it has read the colon: a
      name is matched as a prefix, in any casing, and not in full. */
  lemma NameRecognised(name: seq<byte>, pos: nat)
    requires All(name, NameByte) && 0 < |name| && pos + |name| < MAX_REQUEST_BUF_SIZE
    ensures Sound(Between(HeadParser(RN, 0, NoLength), pos))
    ensures var r := RefRun(Between(HeadParser(RN, 0, NoLength), pos), name + [58]).0;
            && r.Ref?
            && (r.p.meta == CLV <==> Begins(name, "content-lengthing"))
            && (r.p.meta == MCK <==> Begins(name, "transfer-encoding"))
            && (r.p.meta in {CLV, MCK, WFK})
            && (Spells(name, "content-length") ==> r.p.meta == CLV)
            && (Spells(name, "transfer-encoding") ==> r.p.meta == MCK)
            && (!Folds(name[0], 'c') && !Folds(name[0], 't') ==> r.p.meta == WFK)
  {
    hide Begins, Spells, Folds, Sound, RefRun, Role, HeadParser, NameByte;
    LineReady(pos);
    NameThen(RN, 0, NoLength, name, pos);
    Roles(name);
  }

  lemma LineReady(pos: nat)
    requires pos <= MAX_REQUEST_BUF_SIZE
    ensures Sound(Between(HeadParser(RN, 0, NoLength), pos))
  {
  }

  lemma Roles(name: seq<byte>)
    requires name != []
    ensures Role(NoLength, name) == CLV <==> Begins(name, "content-lengthing")
    ensures Role(NoLength, name) == MCK <==> Begins(name, "transfer-encoding")
    ensures Role(NoLength, name) in {CLV, MCK, WFK}
    ensures Spells(name, "content-length") ==> Role(NoLength, name) == CLV
    ensures Spells(name, "transfer-encoding") ==> Role(NoLength, name) == MCK
    ensures !Folds(name[0], 'c') && !Folds(name[0], 't') ==> Role(NoLength, name) == WFK
  {
    EitherWord(name);
    WholeWords(name);
    assert "content-lengthing"[0] == 'c' && "transfer-encoding"[0] == 't';
    hide Folds, Spells;
  }

  lemma WholeWords(name: seq<byte>)
    ensures Spells(name, "content-length") ==> Begins(name, "content-lengthing")
    ensures Spells(name, "transfer-encoding") ==> Begins(name, "transfer-encoding")
  {
    hide Folds;
    assert "content-lengthing"[..14] == "content-length";
  }

  /** What a whole header line says of the body, once its line end is read: a coding
      that begins "chunked" announces chunks, in any casing of name and value; the
      digits of a length are read as the number they write; and nothing else
      says anything. */
  lemma HeaderRecognised(h: Header, pos: nat)
    requires Usable(NoLength, h) && pos + |PrintHeader(h)| <= MAX_REQUEST_BUF_SIZE
    ensures Sound(Between(HeadParser(RN, 0, NoLength), pos))
    ensures var r := RefRun(Between(HeadParser(RN, 0, NoLength), pos), PrintHeader(h)).0;
            && r.Ref?
            && (r.p.meta == CHK <==> Begins(h.name, "transfer-encoding") && Begins(h.value, "chunked"))
            && (r.p.meta == SML <==> Begins(h.name, "content-lengthing"))
            && r.p.meta in {CHK, SML, ANY}
            && (r.p.meta == SML ==> 0 <= r.p.contentLength && Numeral(h.value, r.p.contentLength, "0123456789"))
            && (Spells(h.name, "transfer-encoding") && Spells(h.value, "chunked") ==> r.p.meta == CHK)
  {
    hide Begins, Spells, Folds, Sound, RefRun, FrameBy, Usable, Decimal, Numeral;
    LineReady(pos);
    HeaderRun(RN, 0, NoLength, h, pos);
    Frames(h);
    FrameMeta(FrameBy(NoLength, h));
    WholeWords(h.name);
    WholeCoding(h.value);
  }

  lemma FrameMeta(f: Framing)
    ensures HeadParser(HE, 1, f).meta == match f case NoLength => ANY case Length(_) => SML case Chunked => CHK
    ensures f.Length? ==> HeadParser(HE, 1, f).contentLength == f.n
  {
  }

  lemma WholeCoding(value: seq<byte>)
    ensures Spells(value, "chunked") ==> Begins(value, "chunked")
  {
    hide Folds;
  }

  lemma Frames(h: Header)
    requires Usable(NoLength, h)
    ensures FrameBy(NoLength, h) == Chunked <==> Begins(h.name, "transfer-encoding") && Begins(h.value, "chunked")
    ensures FrameBy(NoLength, h).Length? <==> Begins(h.name, "content-lengthing")
    ensures FrameBy(NoLength, h).Length? ==>
              var n := FrameBy(NoLength, h).n; 0 <= n && Numeral(h.value, n, "0123456789")
  {
    hide Begins, Numeral, Decimal;
    EitherWord(h.name);
    if Begins(h.name, LENGTH_WORD) {
      DecimalGrows(h.value);
      DecimalNumeral(h.value, Decimal(h.value));
    }
  }

  // "C", and "content-lengthing" in full.
  const ABBREVIATED: seq<byte> := [67]
  const OVERLONG: seq<byte> := [99, 111, 110, 116, 101, 110, 116, 45, 108, 101, 110, 103, 116, 104, 105, 110, 103]

  lemma Abbreviations()
    ensures Begins(ABBREVIATED, "content-lengthing") && !Spells(ABBREVIATED, "content-length")
    ensures Begins(OVERLONG, "content-lengthing") && !Spells(OVERLONG, "content-length")
    ensures All(ABBREVIATED, NameByte) && All(OVERLONG, NameByte)
  {
  }

  /** The parser takes headers named "C" and "content-lengthing" for Content-Length:
      the digits of their values are read as the length of the body. */
  lemma NamesNotInFull(pos: nat)
    requires pos + |OVERLONG| < MAX_REQUEST_BUF_SIZE
    ensures !Spells(ABBREVIATED, "content-length") && !Spells(OVERLONG, "content-length")
    ensures var line := Between(HeadParser(RN, 0, NoLength), pos);
            && Sound(line)
            && var c := RefRun(line, ABBREVIATED + [58]).0;
               var lengthing := RefRun(line, OVERLONG + [58]).0;
               c.Ref? && c.p.meta == CLV && lengthing.Ref? && lengthing.p.meta == CLV
  {
    hide Begins, Spells, Folds, Sound, RefRun, HeadParser, NameByte;
    Abbreviations();
    NameRecognised(ABBREVIATED, pos);
    NameRecognised(OVERLONG, pos);
  }

  predicate SaysLength(h: Header) { Begins(h.name, "content-lengthing") }

  predicate SaysChunked(h: Header) { Begins(h.name, "transfer-encoding") && Begins(h.value, "chunked") }

  /** Of all headers the first that says anything about the body decides: its digits
      are the length, or there are chunks. */
  lemma {:induction false} FirstDecides(hs: seq<Header>) returns (i: nat)
    requires AllUsable(NoLength, hs)
    ensures i <= |hs| && forall j :: 0 <= j < i ==> !SaysLength(hs[j]) && !SaysChunked(hs[j])
    ensures var f := Frame(hs, NoLength);
            if i == |hs| then f == NoLength
            else if SaysLength(hs[i]) then f.Length? && 0 <= f.n && Numeral(hs[i].value, f.n, "0123456789")
            else SaysChunked(hs[i]) && f == Chunked
    decreases |hs|
  {
    hide Usable, Begins, FrameBy, Numeral;
    if hs == [] {
      i := 0;
    } else {
      Frames(hs[0]);
      var f := FrameBy(NoLength, hs[0]);
      if f != NoLength {
        FrameStays(hs[1..], f);
        i := 0;
      } else {
        var k := FirstDecides(hs[1..]);
        i := k + 1;
        forall j | 0 <= j < i
          ensures !SaysLength(hs[j]) && !SaysChunked(hs[j])
        {
          if j > 0 {
            assert hs[j] == hs[1..][j - 1];
          }
        }
      }
    }
  }

  lemma {:induction false} FrameStays(hs: seq<Header>, f: Framing)
    requires f != NoLength
    ensures Frame(hs, f) == f
    decreases |hs|
  {
    if hs != [] {
      FrameStays(hs[1..], f);
    }
  }

  // ---- the longest small body ----

  // A body announced as small of which the buffer holds only this part.
  predicate Overfull(h: Head, part: seq<byte>) {
    && WellFormed(h) && Frame(h.headers, NoLength).Length?
    && |Print(h) + part| == MAX_REQUEST_BUF_SIZE
    && var n := Frame(h.headers, NoLength).n;
       0 < n && Small(n, |Print(h)|) && |Print(h)| + n > MAX_REQUEST_BUF_SIZE
  }

  lemma OverfullRun(h: Head, part: seq<byte>)
    requires Overfull(h, part)
    ensures var (r, out) := RefRun(Start, Print(h) + part);
            r.Ref? && r.pos == MAX_REQUEST_BUF_SIZE && r.p.meta == BDY && r.p.state in {HN, BD} && out == HeadPieces(h, 0)
  {
    hide Reads, Sound, WellFormed, Print, HeadPieces;
    var f := Frame(h.headers, NoLength);
    var (r, out) := AfterHead(|h.headers|, f, |Print(h)|);
    HeadRun(h, 0);
    assert Start == Between(FreshParser, 0) && out == [];
    ReadsSound(Start, Print(h), r, HeadPieces(h, 0) + out);
    assert HeadPieces(h, 0) + [] == HeadPieces(h, 0);
    if part == [] {
      assert Print(h) + part == Print(h);
      Unwrap(Start, Print(h), r, HeadPieces(h, 0));
    } else {
      PartReads(r, part);
      Chain(Start, Print(h), r, HeadPieces(h, 0), part, BodyTake(r, part, BD).0, []);
      Unwrap(Start, Print(h) + part, BodyTake(r, part, BD).0, HeadPieces(h, 0));
    }
  }

  lemma Unwrap(r: Ref, bytes: seq<byte>, r1: Ref, out: seq<Piece>)
    requires Reads(r, bytes, r1, out)
    ensures Sound(r) && RefRun(r, bytes) == (r1, out)
  {
  }

  lemma PartReads(r: Ref, part: seq<byte>)
    requires r.Ref? && Sound(r) && r.p.state == HN && r.p.meta == BDY && r.p.bodyConsumed == 0
    requires 0 < |part| < r.p.contentLength && r.pos + |part| <= MAX_REQUEST_BUF_SIZE
    ensures Reads(r, part, BodyTake(r, part, BD).0, [])
  {
    hide Sound, RefRun;
    RefRunSound(r, part);
    BodyEntry(r);
    BodyRun(r, part, BD);
  }

  /** Such a request never completes: when the buffer is full its body token is
      still missing, and no byte can be read any more. With RequestServed: of the
      bodies announced as small, exactly those that fit in the buffer come out. */
  lemma OverfullStuck(inputs: seq<seq<byte>>, h: Head, part: seq<byte>)
    requires Overfull(h, part) && Short(h) && Concat(inputs) == Print(h) + part
    ensures Serve(inputs).tokens == HeadPieces(h, 0) && Serve(inputs).status.Live?
    ensures forall bytes :: CanRead(Serve(inputs).status.s, bytes) ==> bytes == []
  {
    hide Sound, Rel, Serve, RefRun, Print, HeadPieces, WellFormed, Short, NoLong;
    FreshRel();
    OverfullRun(h, part);
    RefRunSound(Start, Concat(inputs));
    ShortPieces(h, 0);
    ServeRoom(inputs);
    ServeAnyCut(inputs);
    var t := Serve(inputs);
    var r := RefRun(Start, Concat(inputs)).0;
    BodyNotText(r);
    ServeQuiet(inputs);
    IndexIs(t.status.p, t.status.s, r);
  }

  lemma BodyNotText(r: Ref)
    requires Sound(r) && r.Ref? && r.p.state in {HN, BD}
    ensures !Overlong(r)
  {
  }

  lemma IndexIs(p: Parser, s: Stream, r: Ref)
    requires Rel(p, s, r) && r.Ref? && r.p.meta == BDY && r.p.state in {HN, BD} && s.Unread() == [] && p.meta != END
    ensures s.index == s.length == r.pos
  {
  }
}
