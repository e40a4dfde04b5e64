/** The buffer a response is written into: how it grows, and when the length that
    is sent is the length of what was written. */
module HttpResponse {

  const RESPONSE_BUF_SIZE := 1024

  // One call of grwprintf, with the length of its text, or of grwmemcpy.
  datatype Part = Text(n: nat) | Bytes(n: nat)

  // The fields of grwprintf_t that count.
  datatype Growth = Growth(capacity: nat, size: nat)

  const Fresh := Growth(RESPONSE_BUF_SIZE, 0)

  /** The capacity after doubling until this much fits. */
  function Doubled(capacity: nat, need: nat): nat
    requires capacity > 0
    decreases need - capacity
  {
    if need <= capacity then capacity else Doubled(2 * capacity, need)
  }

  /** A text that does not fit is printed once more after the buffer has grown, and
      both results are added up; a copy makes exactly the room it needs. */
  function Append(g: Growth, part: Part): Growth
    requires g.capacity > 0
  {
    match part
    case Text(n) =>
      if n + g.size > g.capacity then Growth(Doubled(g.capacity, n + g.size), g.size + n + n)
      else g.(size := g.size + n)
    case Bytes(n) =>
      Growth(if g.size + n > g.capacity then g.size + n else g.capacity, g.size + n)
  }

  function Appended(parts: seq<Part>): (g: Growth)
    ensures g.capacity >= RESPONSE_BUF_SIZE
  {
    if parts == [] then Fresh
    else
      var g := Appended(parts[..|parts| - 1]);
      DoubledKeeps(g, parts[|parts| - 1]);
      Append(g, parts[|parts| - 1])
  }

  lemma DoubledKeeps(g: Growth, part: Part)
    requires g.capacity > 0
    ensures Append(g, part).capacity >= g.capacity
  {
    if part.Text? && part.n + g.size > g.capacity {
      FirstDoubling(g.capacity, part.n + g.size);
    }
  }

  // capacity is reached from this one by doubling.
  predicate Doubling(from: nat, capacity: nat) {
    capacity == from || (from < capacity && capacity % 2 == 0 && Doubling(from, capacity / 2))
  }

  // capacity is the first doubling with room for this much.
  predicate FirstRoom(from: nat, need: nat, capacity: nat) {
    Doubling(from, capacity) && need <= capacity && (capacity > from ==> capacity / 2 < need)
  }

  lemma {:induction false} FirstDoubling(capacity: nat, need: nat)
    requires capacity > 0
    ensures FirstRoom(capacity, need, Doubled(capacity, need))
    decreases need - capacity
  {
    if need > capacity {
      FirstDoubling(2 * capacity, need);
      DoublingTwice(capacity, Doubled(2 * capacity, need));
    }
  }

  lemma {:induction false} DoublingTwice(from: nat, capacity: nat)
    requires from > 0 && Doubling(2 * from, capacity)
    ensures Doubling(from, capacity)
  {
    if capacity != 2 * from {
      DoublingTwice(from, capacity / 2);
    }
  }

  /** The length of what was written. */
  function Total(parts: seq<Part>): nat {
    if parts == [] then 0 else Total(parts[..|parts| - 1]) + parts[|parts| - 1].n
  }

  // Every text ends within the first 1024 bytes.
  ghost predicate TextsFirst(parts: seq<Part>) {
    forall i :: 0 <= i < |parts| && parts[i].Text? && parts[i].n > 0 ==> Total(parts[..i + 1]) <= RESPONSE_BUF_SIZE
  }

  /** The counted length is never too small, and it is the length written exactly
      when every text ends within the first 1024 bytes: only copies may go on. */
  lemma {:induction false} CountedIff(parts: seq<Part>)
    ensures Total(parts) <= Appended(parts).size
    ensures Appended(parts).size == Total(parts) <==> TextsFirst(parts)
    ensures TextsFirst(parts) ==>
              var g := Appended(parts); g.size <= g.capacity && (g.capacity == RESPONSE_BUF_SIZE || g.capacity <= g.size)
  {
    if parts != [] {
      var init, last := parts[..|parts| - 1], parts[|parts| - 1];
      CountedIff(init);
      TextsFirstSnoc(init, last);
      assert parts == init + [last];
    }
  }

  lemma TextsFirstSnoc(init: seq<Part>, last: Part)
    ensures TextsFirst(init + [last]) <==>
              TextsFirst(init) && (last.Text? && last.n > 0 ==> Total(init + [last]) <= RESPONSE_BUF_SIZE)
  {
    var parts := init + [last];
    assert parts[..|init| + 1] == parts;
    forall i | 0 <= i < |init|
      ensures parts[i] == init[i] && parts[..i + 1] == init[..i + 1]
    {}
  }

  /** A text leaves the first capacity with room for it, and the counted length lies
      within that exactly when the text fitted before or fits twice now. */
  lemma SizeWithinIff(parts: seq<Part>, n: nat, capacity: nat)
    requires FirstRoom(Appended(parts).capacity, Appended(parts).size + n, capacity)
    ensures var g, h := Appended(parts), Appended(parts + [Text(n)]);
            && h.capacity == capacity
            && (h.size <= h.capacity <==> g.size + n <= g.capacity || g.size + 2 * n <= capacity)
  {
    assert (parts + [Text(n)])[..|parts|] == parts;
    var g := Appended(parts);
    assert Appended(parts + [Text(n)]) == Append(g, Text(n));
    FirstDoubling(g.capacity, g.size + n);
    OneRoom(g.capacity, g.size + n, capacity, Doubled(g.capacity, g.size + n));
  }

  /** After a copy it always does. */
  lemma CopyWithin(parts: seq<Part>, n: nat)
    ensures var h := Appended(parts + [Bytes(n)]); h.size <= h.capacity
  {
    assert (parts + [Bytes(n)])[..|parts|] == parts;
  }

  lemma OneRoom(from: nat, need: nat, c: nat, d: nat)
    requires from > 0 && FirstRoom(from, need, c) && FirstRoom(from, need, d)
    ensures c == d
  {
    if c < d {
      DoublingGap(from, c, d);
    } else if d < c {
      DoublingGap(from, d, c);
    }
  }

  /** Two capacities reached by doubling are at least a factor of two apart. */
  lemma {:induction false} DoublingGap(from: nat, c: nat, d: nat)
    requires from > 0 && Doubling(from, c) && Doubling(from, d) && c < d
    ensures 2 * c <= d
    decreases c
  {
    DoublingFrom(from, c);
    if c == from {
      DoublingFrom(from, d / 2);
    } else {
      DoublingGap(from, c / 2, d / 2);
    }
  }

  lemma {:induction false} DoublingFrom(from: nat, c: nat)
    requires Doubling(from, c)
    ensures from <= c
  {
    if c != from {
      DoublingFrom(from, c / 2);
    }
  }

  /** A text of 3000 bytes is counted as 6000, in a buffer of 4096. */
  lemma CountedTwice()
    ensures Appended([Text(3000)]) == Growth(4096, 6000)
  {
    assert [Text(3000)][..0] == [];
    assert Doubled(4096, 3000) == 4096;
  }

  // ---- the three kinds of response ----

  // The lengths of the texts that http_respond, http_respond_chunk and
  // http_respond_chunk_end print, and of the body they copy.
  datatype Response =
    | Whole(status: nat, headers: seq<nat>, length: nat, hasBody: bool, body: nat)
    | Chunk(status: nat, headers: seq<nat>, line: nat, body: nat)
    | LastChunk(headers: seq<nat>, length: nat)

  function Texts(lengths: seq<nat>): seq<Part> {
    seq(|lengths|, i requires 0 <= i < |lengths| => Text(lengths[i]))
  }

  /** http_buffer_headers: a chunked response has no Content-Length. */
  function Headers(headers: seq<nat>, length: nat, chunked: bool): seq<Part> {
    Texts(headers) + (if chunked then [] else [Text(length)]) + [Text(2)]
  }

  /** The calls that write the response; chunked says whether one has begun. */
  function Parts(r: Response, chunked: bool): seq<Part> {
    match r
    case Whole(status, headers, length, hasBody, body) =>
      [Text(status)] + Headers(headers, length, chunked) + if hasBody then [Bytes(body)] else []
    case Chunk(status, headers, line, body) =>
      (if chunked then [] else [Text(status)] + Headers(headers, 0, true)) + [Text(line), Bytes(body), Text(2)]
    case LastChunk(headers, length) =>
      [Text(3)] + Headers(headers, length, chunked) + [Text(2)]
  }

  // The part of a response that must lie within the first 1024 bytes: the head of
  // a whole one, and all of a chunk.
  function Narrow(r: Response, chunked: bool): seq<Part> {
    if r.Whole? then Parts(r.(hasBody := false), chunked) else Parts(r, chunked)
  }

  lemma {:induction false} TotalPrefix(parts: seq<Part>, i: nat)
    requires i <= |parts|
    ensures Total(parts[..i]) <= Total(parts)
  {
    if i < |parts| {
      TotalPrefix(parts[..|parts| - 1], i);
      assert parts[..|parts| - 1][..i] == parts[..i];
    } else {
      assert parts[..i] == parts;
    }
  }

  lemma EndsWithText(parts: seq<Part>)
    requires parts != [] && parts[|parts| - 1].Text? && parts[|parts| - 1].n > 0
    ensures TextsFirst(parts) <==> Total(parts) <= RESPONSE_BUF_SIZE
  {
    var k := |parts| - 1;
    assert parts[..k + 1] == parts;
    forall i | 0 <= i < |parts| && parts[i].Text?
      ensures Total(parts[..i + 1]) <= Total(parts)
    {
      TotalPrefix(parts, i + 1);
    }
  }

  /** The length sent is the length written exactly when the head of a whole
      response, or all of a chunk, takes no more than 1024 bytes. */
  lemma ResponseLengthIff(r: Response, chunked: bool)
    ensures Appended(Parts(r, chunked)).size == Total(Parts(r, chunked)) <==> Total(Narrow(r, chunked)) <= RESPONSE_BUF_SIZE
  {
    hide TextsFirst, Appended;
    var parts, narrow := Parts(r, chunked), Narrow(r, chunked);
    CountedIff(parts);
    EndsWithText(narrow);
    if r.Whole? && r.hasBody {
      assert parts == narrow + [Bytes(r.body)];
      TextsFirstSnoc(narrow, Bytes(r.body));
    } else {
      assert parts == narrow;
    }
  }

  /** A later chunk that takes more than 1024 bytes in all is sent with two bytes
      more than were written. */
  lemma ChunkSent(status: nat, headers: seq<nat>, line: nat, body: nat)
    requires line <= RESPONSE_BUF_SIZE
    ensures var total := line + body + 2;
            Appended(Parts(Chunk(status, headers, line, body), true)).size == if total <= RESPONSE_BUF_SIZE then total else total + 2
  {
    var parts := [] + [Text(line), Bytes(body), Text(2)];
    assert parts == [Text(line), Bytes(body), Text(2)];
    assert parts[..2] == [Text(line), Bytes(body)] && parts[..2][..1] == [Text(line)] && parts[..2][..1][..0] == [];
    assert Appended(parts[..2][..1]) == Growth(RESPONSE_BUF_SIZE, line);
    assert Appended(parts[..2]) == Append(Growth(RESPONSE_BUF_SIZE, line), Bytes(body));
  }
}
