/** Looking a header up (http_request_header): the token array and the buffer
    of a request still hold, at any later time, what its head said. */
module HttpHeaders {
  import opened HttpAlphabet
  import opened HttpTables
  import opened HttpStream
  import opened HttpParser
  import opened HttpReference
  import opened HttpRefinement
  import opened HttpCalls
  import opened HttpSession
  import opened HttpGrammar
  import opened HttpRequests
  import opened HttpChunks

  /** The same name but for the casing of its letters. */
  predicate SameName(a: seq<byte>, b: seq<byte>) {
    |a| == |b| && forall i :: 0 <= i < |a| ==> SameLetter(a[i], b[i])
  }

  predicate InBounds(t: Token, buf: seq<byte>) {
    0 <= t.index <= t.index + t.len <= |buf|
  }

  /** Every key token is followed by another, and both lie in the buffer. */
  predicate Paired(tokens: seq<Token>, buf: seq<byte>) {
    forall i :: 0 <= i < |tokens| && tokens[i].typ == THeaderKey ==>
      InBounds(tokens[i], buf) && i + 1 < |tokens| && InBounds(tokens[i + 1], buf)
  }

  predicate Names(t: Token, buf: seq<byte>, key: seq<byte>) {
    t.typ == THeaderKey && SameName(TextAt(buf, t.index, t.len), key)
  }

  predicate FirstAt(tokens: seq<Token>, buf: seq<byte>, key: seq<byte>, i: int) {
    && 0 <= i < |tokens| && Names(tokens[i], buf, key)
    && forall j :: 0 <= j < i ==> !Names(tokens[j], buf, key)
  }

  /** hs_case_insensitive_cmp. */
  method CompareNames(a: seq<byte>, b: seq<byte>, len: nat) returns (same: bool)
    requires len <= |a| && len <= |b|
    ensures same <==> SameName(a[..len], b[..len])
  {
    var i := 0;
    while i < len
      invariant 0 <= i <= len
      invariant forall k :: 0 <= k < i ==> SameLetter(a[k], b[k])
    {
      LowerSame(a[i], b[i]);
      if Lower(a[i]) != Lower(b[i]) {
        assert !SameLetter(a[..len][i], b[..len][i]);
        return false;
      }
      i := i + 1;
    }
    return true;
  }

  lemma BoundsOf(t: Token, buf: seq<byte>)
    requires InBounds(t, buf)
    ensures 0 <= t.index <= t.index + t.len <= |buf|
  {
  }

  /** A key token has the name exactly when their lengths agree and so do their texts. */
  lemma NamesIff(t: Token, buf: seq<byte>, key: seq<byte>)
    requires t.typ == THeaderKey ==> InBounds(t, buf)
    ensures Names(t, buf, key) <==>
            t.typ == THeaderKey && t.len == |key| && SameName(buf[t.index..t.index + t.len][..|key|], key[..|key|])
  {
    assert key[..|key|] == key;
    if t.typ == THeaderKey && t.len == |key| {
      var text := buf[t.index..t.index + t.len];
      assert text[..|key|] == text;
    }
  }

  /** http_request_header: the token after the first key that matches. */
  method FindHeader(tokens: seq<Token>, buf: seq<byte>, key: seq<byte>) returns (found: bool, value: Token)
    requires Paired(tokens, buf)
    ensures found <==> exists i :: 0 <= i < |tokens| && Names(tokens[i], buf, key)
    ensures forall i :: found && FirstAt(tokens, buf, key, i) ==> i + 1 < |tokens| && value == tokens[i + 1]
    ensures found ==> InBounds(value, buf)
  {
    hide SameName, Names, InBounds;
    var i := 0;
    while i < |tokens|
      invariant 0 <= i <= |tokens|
      invariant forall j :: 0 <= j < i ==> !Names(tokens[j], buf, key)
    {
      var token := tokens[i];
      if token.typ == THeaderKey {
        BoundsOf(token, buf);
      }
      NamesIff(token, buf, key);
      if token.typ == THeaderKey && token.len == |key| {
        var text := buf[token.index..token.index + token.len];
        var same := CompareNames(text, key, |key|);
        if same {
          return true, tokens[i + 1];
        }
      }
      i := i + 1;
    }
    return false, NoToken;
  }

  // ---- what a lookup finds ----

  /** The first header with this name, or the number of headers if there is none. */
  function FirstNamed(hs: seq<Header>, key: seq<byte>): (k: nat)
    ensures k <= |hs|
    ensures forall j :: 0 <= j < k ==> !SameName(hs[j].name, key)
    ensures k < |hs| ==> SameName(hs[k].name, key)
  {
    if hs == [] then 0
    else if SameName(hs[0].name, key) then 0
    else
      var k := FirstNamed(hs[1..], key);
      assert forall j :: 0 < j < k + 1 ==> hs[j] == hs[1..][j - 1];
      k + 1
  }

  function AsTokens(pieces: seq<Piece>): (r: seq<Token>)
    ensures |r| == |pieces|
  {
    seq(|pieces|, i requires 0 <= i < |pieces| => Token(pieces[i].start, |pieces[i].text|, pieces[i].typ))
  }

  lemma {:induction false} PieceAt(hs: seq<Header>, at: nat, k: nat)
    requires k < |hs|
    ensures |HeadersPieces(hs, at)| == 2 * |hs|
    ensures var key, val := HeadersPieces(hs, at)[2 * k], HeadersPieces(hs, at)[2 * k + 1];
            && key.typ == THeaderKey && key.text == hs[k].name
            && val.typ == THeaderVal && val.text == hs[k].value
    decreases |hs|
  {
    var next := at + |PrintHeader(hs[0])|;
    if |hs| == 1 {
      assert HeadersPieces(hs[1..], next) == [];
    } else {
      PieceAt(hs[1..], next, if k == 0 then 0 else k - 1);
    }
  }

  // Pieces that follow a head: bodies, chunks and signals.
  predicate NoKeys(pieces: seq<Piece>) {
    forall i :: 0 <= i < |pieces| ==> pieces[i].typ != THeaderKey
  }

  lemma LinePieceAt(h: Head, rest: seq<Piece>, i: nat)
    requires i < 3
    ensures i < |HeadPieces(h, 0) + rest| && (HeadPieces(h, 0) + rest)[i].typ != THeaderKey
  {
    hide PrintLine, HeadersPieces;
  }

  lemma HeaderPieceAt(h: Head, rest: seq<Piece>, k: nat)
    requires k < |h.headers|
    ensures |HeadPieces(h, 0)| == 3 + 2 * |h.headers|
    ensures var key, val := (HeadPieces(h, 0) + rest)[3 + 2 * k], (HeadPieces(h, 0) + rest)[4 + 2 * k];
            && key.typ == THeaderKey && key.text == h.headers[k].name
            && val.typ == THeaderVal && val.text == h.headers[k].value
  {
    hide PrintLine, HeadersPieces;
    var at := |PrintLine(h)|;
    PieceAt(h.headers, at, k);
    assert HeadPieces(h, 0)[3 + 2 * k] == HeadersPieces(h.headers, at)[2 * k];
    assert HeadPieces(h, 0)[4 + 2 * k] == HeadersPieces(h.headers, at)[2 * k + 1];
  }

  ghost predicate TextsHeld(pieces: seq<Piece>, buf: seq<byte>) {
    forall i :: 0 <= i < |pieces| && Lasting(pieces[i].typ) ==>
      && 0 <= pieces[i].start <= pieces[i].start + |pieces[i].text| <= |buf|
      && TextAt(buf, pieces[i].start, |pieces[i].text|) == pieces[i].text
  }

  /** The tokens of a header. */
  lemma HeaderTokenAt(h: Head, rest: seq<Piece>, buf: seq<byte>, key: seq<byte>, k: nat)
    requires TextsHeld(HeadPieces(h, 0) + rest, buf) && k < |h.headers|
    ensures 4 + 2 * k < |HeadPieces(h, 0) + rest|
    ensures var tokens := AsTokens(HeadPieces(h, 0) + rest);
            && tokens[3 + 2 * k].typ == THeaderKey && tokens[4 + 2 * k].typ != THeaderKey
            && InBounds(tokens[3 + 2 * k], buf) && InBounds(tokens[4 + 2 * k], buf)
            && TextAt(buf, tokens[4 + 2 * k].index, tokens[4 + 2 * k].len) == h.headers[k].value
            && (Names(tokens[3 + 2 * k], buf, key) <==> SameName(h.headers[k].name, key))
  {
    hide HeadPieces, SameName, TextAt;
    HeaderPieceAt(h, rest, k);
  }

  /** Any other token is no key. */
  lemma OtherTokenAt(h: Head, rest: seq<Piece>, i: nat)
    requires h.headers != [] && NoKeys(rest) && i < |HeadPieces(h, 0) + rest| && (i < 3 || 3 + 2 * |h.headers| <= i)
    ensures AsTokens(HeadPieces(h, 0) + rest)[i].typ != THeaderKey
  {
    hide HeadPieces;
    HeaderPieceAt(h, rest, 0);
    if i < 3 {
      LinePieceAt(h, rest, i);
    }
  }

  // The header that the i-th token belongs to.
  lemma HeaderOf(n: nat, i: nat) returns (k: nat)
    requires 3 <= i < 3 + 2 * n
    ensures k < n && (i == 3 + 2 * k || i == 4 + 2 * k)
  {
    k := (i - 3) / 2;
  }

  /** A lookup is safe, and finds the value of the first header with the name
      asked for, or nothing if there is none. */
  ghost predicate Answers(tokens: seq<Token>, buf: seq<byte>, hs: seq<Header>, key: seq<byte>) {
    var k := FirstNamed(hs, key);
    && Paired(tokens, buf)
    && (if k == |hs| then forall i :: 0 <= i < |tokens| ==> !Names(tokens[i], buf, key)
        else
          && FirstAt(tokens, buf, key, 3 + 2 * k) && 4 + 2 * k < |tokens|
          && TextAt(buf, tokens[4 + 2 * k].index, tokens[4 + 2 * k].len) == hs[k].value)
  }

  lemma LookupPaired(h: Head, rest: seq<Piece>, buf: seq<byte>)
    requires h.headers != [] && NoKeys(rest) && TextsHeld(HeadPieces(h, 0) + rest, buf)
    ensures Paired(AsTokens(HeadPieces(h, 0) + rest), buf)
  {
    hide HeadPieces, SameName, AsTokens, NoKeys, TextsHeld, Names, InBounds;
    var tokens := AsTokens(HeadPieces(h, 0) + rest);
    forall i | 0 <= i < |tokens| && tokens[i].typ == THeaderKey
      ensures i + 1 < |tokens| && InBounds(tokens[i], buf) && InBounds(tokens[i + 1], buf)
    {
      if i < 3 || 3 + 2 * |h.headers| <= i {
        OtherTokenAt(h, rest, i);
      } else {
        var k := HeaderOf(|h.headers|, i);
        HeaderTokenAt(h, rest, buf, [], k);
      }
    }
  }

  /** The token array of a request with this head is paired, and a lookup finds
      the value of the first header with the name asked for. */
  lemma LookupFinds(h: Head, rest: seq<Piece>, buf: seq<byte>, key: seq<byte>)
    requires h.headers != [] && NoKeys(rest) && TextsHeld(HeadPieces(h, 0) + rest, buf)
    ensures Answers(AsTokens(HeadPieces(h, 0) + rest), buf, h.headers, key)
  {
    hide HeadPieces, SameName, AsTokens, Names, NoKeys, TextsHeld, Paired;
    LookupPaired(h, rest, buf);
    var k := FirstNamed(h.headers, key);
    var tokens := AsTokens(HeadPieces(h, 0) + rest);
    forall i | 0 <= i < |tokens| && (k == |h.headers| || i < 3 + 2 * k)
      ensures !Names(tokens[i], buf, key)
    {
      NotNamed(h, rest, buf, key, i);
    }
    if k < |h.headers| {
      HeaderTokenAt(h, rest, buf, key, k);
    }
  }

  // No token before the key of the first header with this name has the name.
  lemma NotNamed(h: Head, rest: seq<Piece>, buf: seq<byte>, key: seq<byte>, i: nat)
    requires h.headers != [] && NoKeys(rest) && TextsHeld(HeadPieces(h, 0) + rest, buf) && i < |HeadPieces(h, 0) + rest|
    requires var k := FirstNamed(h.headers, key); k == |h.headers| || i < 3 + 2 * k
    ensures !Names(AsTokens(HeadPieces(h, 0) + rest)[i], buf, key)
  {
    hide HeadPieces, SameName, AsTokens, NoKeys, TextsHeld, InBounds, TextAt;
    if i < 3 || 3 + 2 * |h.headers| <= i {
      OtherTokenAt(h, rest, i);
    } else {
      var j := HeaderOf(|h.headers|, i);
      HeaderTokenAt(h, rest, buf, key, j);
    }
  }

  /** In any session that has handed out a head first, and whatever reads, shifts
      and chunks have followed since. */
  lemma SessionLookup(inputs: seq<seq<byte>>, h: Head, rest: seq<Piece>, key: seq<byte>)
    requires h.headers != [] && NoKeys(rest) && Serve(inputs).status.Live?
    requires Serve(inputs).tokens == HeadPieces(h, 0) + rest
    ensures Answers(AsTokens(Serve(inputs).tokens), Serve(inputs).status.s.buf, h.headers, key)
  {
    hide Serve, Session, HeadPieces, Answers, TextsHeld;
    var cuts := ServeIsSession(inputs);
    SessionHeld(cuts);
    LookupFinds(h, rest, Serve(inputs).status.s.buf, key);
  }

  /** A request without a body, or with a small one, however it was cut. */
  lemma RequestLookup(inputs: seq<seq<byte>>, q: Request, key: seq<byte>)
    requires Announced(q) && Short(q.head) && |PrintRequest(q)| <= MAX_REQUEST_BUF_SIZE && Concat(inputs) == PrintRequest(q)
    ensures Serve(inputs).status.Live?
    ensures Answers(AsTokens(Serve(inputs).tokens), Serve(inputs).status.s.buf, q.head.headers, key)
  {
    hide Serve, PrintRequest, HeadPieces, Answers;
    RequestServed(inputs, q);
    var rest := if q.body == [] then [NoBody, RequestEnd] else [Piece(TBody, 0 + |Print(q.head)|, q.body), RequestEnd];
    SessionLookup(inputs, q.head, rest, key);
  }

  /** A chunked request, whose chunks have been shifted about above the head. */
  lemma ChunkedLookup(inputs: seq<seq<byte>>, h: Head, ks: seq<Chunk>, last: Chunk, key: seq<byte>)
    requires ChunkedRequest(h, ks, last) && Short(h) && Concat(inputs) == Print(h) + (PrintChunks(ks) + PrintChunk(last))
    requires |Concat(inputs)| <= MAX_REQUEST_BUF_SIZE || Serve(inputs).status != NotARead
    ensures Serve(inputs).status.Live?
    ensures Answers(AsTokens(Serve(inputs).tokens), Serve(inputs).status.s.buf, h.headers, key)
  {
    hide Serve, Print, PrintChunks, PrintChunk, HeadPieces, Answers, ChunkedRequest, ChunkedPieces, Short, NoKeys, Concat;
    ChunkedServed(inputs, h, ks, last);
    var rest := ChunkedRest(h, ks);
    ChunkedHasHeaders(h, ks, last);
    SessionLookup(inputs, h, rest, key);
  }

  lemma ChunkedRest(h: Head, ks: seq<Chunk>) returns (rest: seq<Piece>)
    ensures ChunkedPieces(h, ks) == HeadPieces(h, 0) + rest && NoKeys(rest)
  {
    hide HeadPieces, DataPieces;
    DataPiecesAre(ks);
    rest := [StreamSignal] + (DataPieces(ks) + [EmptyChunk, RequestEnd]);
    assert HeadPieces(h, 0) + [StreamSignal] + (DataPieces(ks) + [EmptyChunk, RequestEnd]) == HeadPieces(h, 0) + rest;
  }

  lemma ChunkedHasHeaders(h: Head, ks: seq<Chunk>, last: Chunk)
    requires ChunkedRequest(h, ks, last)
    ensures h.headers != []
  {
  }

  lemma SessionHeld(cuts: seq<seq<byte>>)
    requires Session(cuts).status.Live?
    ensures TextsHeld(Session(cuts).tokens, Session(cuts).status.s.buf)
  {
    hide Counted, Coupled, Tokened, Calls;
    FreshRel();
    CallsKeepHeld(FreshParser, EmptyStream, cuts, [], 0);
    LiveWf(FreshParser, EmptyStream, cuts);
    assert [] + Session(cuts).tokens == Session(cuts).tokens;
  }

  lemma LiveWf(p: Parser, s: Stream, cuts: seq<seq<byte>>)
    requires Inv(p, s) && Calls(p, s, cuts).status.Live?
    ensures Inv(Calls(p, s, cuts).status.p, Calls(p, s, cuts).status.s)
    decreases |cuts|
  {
    hide Counted, Coupled, Tokened, Parse, Append;
    if cuts != [] {
      AppendKeepsInv(p, s, cuts[0]);
      ParseKeepsInv(p, Append(s, cuts[0]));
      var res := Parse(p, Append(s, cuts[0]));
      LiveWf(res.parser, res.stream, cuts[1..]);
    }
  }
}
