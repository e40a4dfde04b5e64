/** The request buffer (hs_stream_t): its value, its operations, and the class
    that performs them in place on an array. */
module HttpStream {
  import opened HttpTables

  datatype Token = Token(index: int, len: int, typ: TokenType)

  const NoToken := Token(0, 0, TNone)

  /** The fields of hs_stream_t. buf is the allocated memory: its bytes from
      `length` on are stale but still readable. */
  datatype Stream = Stream(buf: seq<byte>, length: int, index: int, anchor: int,
                           token: Token, consumed: bool)
  {
    ghost predicate Wf() {
      && 0 <= index <= length <= |buf|
      && length <= MAX_REQUEST_BUF_SIZE
      && 0 <= anchor
      && (token.typ == TNone ==> token.len == 0)
      && (token.typ != TNone ==> 0 <= token.index && 0 <= token.len && token.index + token.len == index)
    }

    /** The bytes received but not yet looked at. */
    ghost function Unread(): seq<byte>
      requires Wf()
    {
      buf[index..length]
    }
  }

  const EmptyStream := Stream([], 0, 0, 0, NoToken, false)

  function BeginToken(s: Stream, typ: TokenType): Stream {
    s.(token := Token(s.index, s.token.len, typ))
  }

  function Grown(t: Token, n: int): Token {
    t.(len := if t.typ == TNone then 0 else t.len + n)
  }

  function Consume(s: Stream): Stream {
    if s.consumed then s
    else s.(consumed := true, index := s.index + 1, token := Grown(s.token, 1))
  }

  /** hs_stream_jump when the whole offset is available. */
  function JumpBy(s: Stream, offset: int): Stream {
    s.(consumed := true, index := s.index + offset, token := Grown(s.token, offset))
  }

  function JumpAll(s: Stream): Stream {
    JumpBy(s, s.length - s.index)
  }

  predicate Jumps(s: Stream, offset: int) {
    s.index + offset <= s.length
  }

  predicate Shiftable(s: Stream) {
    s.token.index == s.anchor || s.token.len <= 0
    || 0 <= s.anchor <= s.token.index <= s.length <= |s.buf|
  }

  /** hs_stream_shift: the bytes of the current token move down to the anchor. */
  function Shift(s: Stream): Stream
    requires Shiftable(s)
  {
    if s.token.index == s.anchor then s
    else
      var end := s.anchor + s.length - s.token.index;
      s.(buf := if s.token.len > 0 then s.buf[..s.anchor] + s.buf[s.token.index..s.length] + s.buf[end..] else s.buf,
         token := s.token.(index := s.anchor),
         index := s.token.len + s.anchor,
         length := s.anchor + s.token.len)
  }

  predicate Fits(s: Stream, bytes: seq<byte>) {
    s.length + |bytes| <= MAX_REQUEST_BUF_SIZE
  }

  /** One socket read: the bytes land after the ones already held. */
  function Append(s: Stream, bytes: seq<byte>): Stream
    requires s.Wf()
  {
    var end := s.length + |bytes|;
    s.(buf := s.buf[..s.length] + bytes + (if end <= |s.buf| then s.buf[end..] else []), length := end)
  }

  /** A shift keeps everything below the anchor and the text of the token. */
  lemma ShiftKeepsText(s: Stream)
    requires s.Wf() && s.token.typ != TNone && s.anchor <= s.token.index && s.index == s.length
    ensures Shiftable(s)
    ensures var t := Shift(s);
            && t.Wf() && t.index == t.length
            && t.token.len == s.token.len && t.token.typ == s.token.typ
            && t.buf[t.token.index..t.index] == s.buf[s.token.index..s.index]
            && t.buf[..s.anchor] == s.buf[..s.anchor]
  {
  }

  // The first i bytes have been copied from src down to dst.
  ghost predicate Copied(now: seq<byte>, was: seq<byte>, dst: int, src: int, i: int) {
    && 0 <= dst <= src && 0 <= i && src + i <= |was|
    && now == was[..dst] + was[src..src + i] + was[dst + i..]
  }

  lemma CopyOne(now: seq<byte>, was: seq<byte>, dst: int, src: int, i: int)
    requires Copied(now, was, dst, src, i) && src + i < |was|
    ensures |now| == |was| && Copied(now[dst + i := now[src + i]], was, dst, src, i + 1)
  {
    assert now[src + i] == was[src + i];
    assert was[src..src + i + 1] == was[src..src + i] + [was[src + i]];
    assert was[dst + i..] == [was[dst + i]] + was[dst + i + 1..];
  }

  /** memcpy towards lower addresses, one byte at a time. */
  method CopyDown(a: array<byte>, dst: int, src: int, n: int)
    requires 0 <= dst <= src && 0 <= n && src + n <= a.Length
    modifies a
    ensures a[..] == old(a[..dst] + a[src..src + n] + a[dst + n..])
  {
    hide Copied;
    ghost var was := a[..];
    assert Copied(a[..], was, dst, src, 0) by { NoneCopied(was, dst, src); }
    var i := 0;
    while i < n
      invariant 0 <= i <= n && Copied(a[..], was, dst, src, i)
    {
      CopyOne(a[..], was, dst, src, i);
      a[dst + i] := a[src + i];
      i := i + 1;
    }
    CopiedIs(a[..], was, dst, src, n);
    assert old(a[..dst]) == was[..dst] && old(a[src..src + n]) == was[src..src + n] && old(a[dst + n..]) == was[dst + n..];
  }

  lemma NoneCopied(was: seq<byte>, dst: int, src: int)
    requires 0 <= dst <= src <= |was|
    ensures Copied(was, was, dst, src, 0)
  {
  }

  lemma CopiedIs(now: seq<byte>, was: seq<byte>, dst: int, src: int, n: int)
    requires Copied(now, was, dst, src, n)
    ensures 0 <= dst <= src && 0 <= n && src + n <= |was| && now == was[..dst] + was[src..src + n] + was[dst + n..]
  {
  }

  /** hs_stream_t updated in place. */
  class HsStream {
    var buf: array<byte>
    var length: int
    var index: int
    var anchor: int
    var token: Token
    var consumed: bool

    ghost function View(): Stream
      reads this, buf
    {
      Stream(buf[..], length, index, anchor, token, consumed)
    }

    constructor ()
      ensures View() == EmptyStream && fresh(buf)
    {
      buf := new byte[0];
      length, index, anchor := 0, 0, 0;
      token, consumed := NoToken, false;
    }

    method Next() returns (more: bool, c: byte)
      requires View().Wf()
      modifies `consumed
      ensures View() == old(View()).(consumed := false)
      ensures more <==> index < length
      ensures more ==> c == buf[index]
    {
      consumed := false;
      c := 0;
      more := index < length;
      if more {
        c := buf[index];
      }
    }

    method DoConsume()
      modifies `consumed, `index, `token
      ensures View() == Consume(old(View()))
    {
      if consumed {
        return;
      }
      consumed := true;
      index := index + 1;
      var newLen := token.len + 1;
      token := token.(len := if token.typ == TNone then 0 else newLen);
    }

    method DoBeginToken(typ: TokenType)
      modifies `token
      ensures View() == BeginToken(old(View()), typ)
    {
      token := Token(index, token.len, typ);
    }

    method DoJump(offset: int) returns (ok: bool)
      modifies `consumed, `index, `token
      ensures ok == Jumps(old(View()), offset)
      ensures View() == if ok then JumpBy(old(View()), offset) else old(View()).(consumed := true)
    {
      consumed := true;
      if index + offset > length {
        return false;
      }
      index := index + offset;
      var newLen := token.len + offset;
      token := token.(len := if token.typ == TNone then 0 else newLen);
      return true;
    }

    method DoJumpAll() returns (offset: int)
      modifies `consumed, `index, `token
      ensures offset == old(length - index) && View() == JumpAll(old(View()))
    {
      offset := length - index;
      index := index + offset;
      var newLen := token.len + offset;
      consumed := true;
      token := token.(len := if token.typ == TNone then 0 else newLen);
    }

    method DoAnchor()
      modifies `anchor
      ensures View() == old(View()).(anchor := old(index))
    {
      anchor := index;
    }

    method Emit() returns (t: Token)
      modifies `token
      ensures t == old(token) && View() == old(View()).(token := NoToken)
    {
      t := token;
      token := NoToken;
    }

    method DoShift()
      requires Shiftable(View())
      modifies `token, `index, `length, buf
      ensures View() == Shift(old(View()))
    {
      if token.index == anchor {
        return;
      }
      if token.len > 0 {
        CopyDown(buf, anchor, token.index, length - token.index);
      }
      token := token.(index := anchor);
      index := token.len + anchor;
      length := anchor + token.len;
    }
  }
}
