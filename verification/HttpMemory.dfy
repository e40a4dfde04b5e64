/** The memory estimate of the server (memused): whatever the sessions do, it is
    the sum of the buffers they hold. */
module HttpMemory {
  import opened HttpResponse
  import opened HttpTables

  // HTTP_SESSION_*.
  datatype SessionState = SInit | SRead | SWrite | SNop

  // The part of http_request_t that decides about memory. hasBuf says whether
  // stream.buf is non-null; written is stream.total_bytes.
  datatype Connection = Connection(state: SessionState, hasBuf: bool, capacity: int, length: int, index: int,
                                   written: int, keepAlive: bool, chunked: bool, ending: bool)

  const MAX_TOTAL_MEM_USAGE := 0x1_0000_0000

  const NewConnection := Connection(SInit, false, 0, 0, 0, 0, false, false, false)

  function Cost(s: Connection): int {
    if s.hasBuf then s.capacity else 0
  }

  ghost function Sum(m: map<int, Connection>): int {
    if !(exists id :: id in m) then 0
    else
      var id :| id in m;
      Cost(m[id]) + Sum(m - {id})
  }

  /** The sum does not depend on the order of summing. */
  lemma SumAt(m: map<int, Connection>, id: int)
    requires id in m
    ensures Sum(m) == Cost(m[id]) + Sum(m - {id})
    decreases |m|
  {
    var first :| first in m && Sum(m) == Cost(m[first]) + Sum(m - {first});
    if first != id {
      SumAt(m - {first}, id);
      SumAt(m - {id}, first);
      assert m - {first} - {id} == m - {id} - {first};
    }
  }

  lemma SumPut(m: map<int, Connection>, id: int, s: Connection)
    ensures Sum(m[id := s]) == Sum(m) + Cost(s) - if id in m then Cost(m[id]) else 0
  {
    SumAt(m[id := s], id);
    assert m[id := s] - {id} == m - {id};
    if id in m {
      SumAt(m, id);
    } else {
      assert m - {id} == m;
    }
  }

  // A request buffer has been doubled some number of times, and has room for more
  // unless it has its full size.
  predicate HasRoom(length: int, capacity: int) {
    && 0 <= length <= capacity && REQUEST_BUF_SIZE <= capacity <= MAX_REQUEST_BUF_SIZE
    && Doubling(REQUEST_BUF_SIZE, capacity)
    && (length < capacity || capacity == MAX_REQUEST_BUF_SIZE)
  }

  // What a session's state says about its buffer. INIT is entered only with the
  // buffer given back.
  predicate Sane(s: Connection) {
    && (s.hasBuf ==> 0 < s.capacity)
    && match s.state
       case SInit => !s.hasBuf
       case SWrite => true
       case _ =>
         && 0 <= s.index <= s.length
         && if !s.hasBuf then s.length == 0 else HasRoom(s.length, s.capacity)
  }

  ghost predicate AllSane(m: map<int, Connection>) {
    forall id :: id in m ==> Sane(m[id])
  }

  lemma SumNonNegative(m: map<int, Connection>)
    requires AllSane(m)
    ensures 0 <= Sum(m)
    decreases |m|
  {
    if id :| id in m {
      SumAt(m, id);
      SumNonNegative(m - {id});
    }
  }

  /** The estimate is never negative, and never smaller than one session's buffer. */
  lemma SumBound(m: map<int, Connection>, id: int)
    requires AllSane(m) && id in m
    ensures 0 <= Cost(m[id]) <= Sum(m)
  {
    SumAt(m, id);
    SumNonNegative(m - {id});
  }

  // What read returns: 0 at the end of the stream or without room, -1 for now.
  function Taken(room: nat, left: nat, closed: bool): (bytes: int)
    ensures bytes <= room && bytes <= left
    ensures bytes > 0 ==> bytes == room || bytes == left
  {
    if room == 0 then 0
    else if left == 0 then (if closed then 0 else -1)
    else if left < room then left else room
  }

  /** What reading this much into a buffer comes to. A buffer short of 8 MB ends as
      the first doubling with room for more, and everything is in it; one that has
      8 MB takes what it can; and one that reaches them is not read into further. */
  predicate Filled(length0: int, capacity0: int, available: nat, closed: bool, length: int, capacity: int, ends: bool) {
    var all := length0 + available;
    if capacity < 8388608 then
      && length == all && capacity0 <= capacity && all < capacity
      && (capacity0 < capacity ==> capacity / 2 <= all)
      && (ends <==> closed)
    else
      && capacity == 8388608
      && if capacity0 < capacity then length == 4194304 <= all && !ends
         else length == (if all < capacity then all else capacity)
              && (ends <==> length0 == capacity || (available == 0 && closed))
  }

  lemma FilledTakes(length0: int, capacity0: int, available: nat, closed: bool, length: int, capacity: int, ends: bool)
    requires Filled(length0, capacity0, available, closed, length, capacity, ends)
    requires HasRoom(length0, capacity0) && HasRoom(length, capacity)
    ensures length0 <= length <= length0 + available
  {
    hide Doubling;
    if capacity0 < capacity == 8388608 && length < length0 {
      FullDoubling();
      DoublingGap(REQUEST_BUF_SIZE, capacity0, capacity);
    }
  }

  lemma FullDoubling()
    ensures Doubling(REQUEST_BUF_SIZE, MAX_REQUEST_BUF_SIZE)
  {
    assert Doubling(1024, 8192);
    assert Doubling(1024, 65536);
    assert Doubling(1024, 524288);
    assert Doubling(1024, 4194304);
  }

  /** Doubling arrives at the full size exactly: it never has to be cut down. */
  lemma DoublingLimit(capacity: nat)
    requires Doubling(REQUEST_BUF_SIZE, capacity) && REQUEST_BUF_SIZE <= capacity < MAX_REQUEST_BUF_SIZE
    ensures 2 * capacity <= MAX_REQUEST_BUF_SIZE && Doubling(REQUEST_BUF_SIZE, 2 * capacity)
  {
    FullDoubling();
    DoublingGap(REQUEST_BUF_SIZE, capacity, MAX_REQUEST_BUF_SIZE);
  }

  function Min(a: int, b: int): int { if a < b then a else b }

  /** grwprintf_t, whose memory counts at this server. */
  class GrowBuffer {
    const server: Server
    var capacity: nat
    var size: nat

    function View(): Growth
      reads this
    {
      Growth(capacity, size)
    }

    /** grwprintf_init. */
    constructor (server: Server)
      modifies server`memused
      ensures this.server == server && View() == Growth(1024, 0)
      ensures server.memused == old(server.memused) + 1024
    {
      this.server, capacity, size := server, RESPONSE_BUF_SIZE, 0;
      new;
      server.memused := server.memused + capacity;
    }

    /** grwprintf, of a text of n bytes. */
    method Print(n: nat)
      requires capacity > 0
      modifies this, server`memused
      ensures View() == Append(old(View()), Text(n))
      ensures server.memused - capacity == old(server.memused - capacity)
    {
      var bytes := n;
      if bytes + size > capacity {
        server.memused := server.memused - capacity;
        while bytes + size > capacity
          invariant capacity > 0 && size == old(size) && server.memused == old(server.memused - capacity)
          invariant Doubled(capacity, bytes + size) == old(Doubled(capacity, bytes + size))
          decreases bytes + size - capacity
        {
          capacity := capacity * 2;
        }
        server.memused := server.memused + capacity;
        bytes := bytes + n;
      }
      size := size + bytes;
    }

    /** grwmemcpy. */
    method Copy(n: nat)
      requires capacity > 0
      modifies this, server`memused
      ensures View() == Append(old(View()), Bytes(n))
      ensures server.memused - capacity == old(server.memused - capacity)
    {
      if size + n > capacity {
        server.memused := server.memused - capacity;
        capacity := size + n;
        server.memused := server.memused + capacity;
      }
      size := size + n;
    }
  }

  class Server {
    var memused: int
    var sessions: map<int, Connection>

    ghost predicate Accounted()
      reads this
    {
      memused == Sum(sessions)
    }

    /** The estimate is exact, and every session is sane. */
    ghost predicate Valid()
      reads this
    {
      Accounted() && AllSane(sessions)
    }

    constructor ()
      ensures Valid() && sessions == map[] && memused == 0
    {
      memused := 0;
      sessions := map[];
    }

    method Put(id: int, s: Connection)
      requires id in sessions
      modifies this`sessions
      ensures sessions == old(sessions)[id := s]
      ensures Sum(sessions) == Sum(old(sessions)) + Cost(s) - Cost(old(sessions)[id])
    {
      SumPut(sessions, id, s);
      sessions := sessions[id := s];
    }

    /** hs_accept_connections, before the first event of the session. */
    method Accept(id: int)
      requires Valid() && id !in sessions
      modifies this
      ensures Valid() && sessions == old(sessions)[id := NewConnection]
    {
      SumPut(sessions, id, NewConnection);
      sessions := sessions[id := NewConnection];
    }

    /** hs_free_buffer. */
    method FreeBuffer(id: int)
      requires id in sessions
      modifies this
      ensures sessions == old(sessions)[id := old(sessions)[id].(hasBuf := false)]
      ensures memused == old(memused - Cost(sessions[id])) && Sum(sessions) == old(Sum(sessions) - Cost(sessions[id]))
    {
      var s := sessions[id];
      if s.hasBuf {
        memused := memused - s.capacity;
        Put(id, s.(hasBuf := false));
      } else {
        assert sessions[id := s.(hasBuf := false)] == sessions;
      }
    }

    /** The INIT case of http_session: hs_init_session overwrites the stream, so
        it loses no buffer only because there is none. */
    method Begin(id: int) returns (refused: bool)
      requires Valid() && id in sessions && sessions[id].state == SInit
      modifies this
      ensures Valid() && memused == old(memused)
      ensures sessions == old(sessions)[id := NewConnection.(state := SRead)]
      ensures refused <==> memused > 0x1_0000_0000
    {
      Put(id, NewConnection.(state := SRead));
      refused := memused > MAX_TOTAL_MEM_USAGE;
    }

    /** The loop of hs_stream_read_socket: read, and double the buffer when full. */
    method Fill(length0: int, capacity0: int, available: nat, closed: bool) returns (length: int, capacity: int, bytes: int)
      requires HasRoom(length0, capacity0)
      modifies this`memused
      ensures HasRoom(length, capacity) && Filled(length0, capacity0, available, closed, length, capacity, bytes == 0)
      ensures memused == old(memused) + capacity - capacity0
    {
      length, capacity, bytes := length0, capacity0, 0;
      var left: int := available;
      var again := true;
      while again
        invariant 0 <= left <= available && HasRoom(length, capacity) && length == length0 + available - left && capacity0 <= capacity
        invariant memused == old(memused) + capacity - capacity0
        invariant capacity > capacity0 ==> capacity / 2 <= length
        invariant again ==> capacity == capacity0 || capacity < MAX_REQUEST_BUF_SIZE
        invariant !again && capacity < MAX_REQUEST_BUF_SIZE ==> left == 0 && (bytes == 0 <==> closed)
        invariant !again && capacity0 < capacity == MAX_REQUEST_BUF_SIZE ==> bytes > 0 && 2 * length == capacity
        invariant capacity == capacity0 == MAX_REQUEST_BUF_SIZE ==>
                    if again then left == available
                    else length == Min(length0 + available, capacity) && (bytes == 0 <==> length0 == capacity || (available == 0 && closed))
        decreases left, again
      {
        bytes := Taken(capacity - length, left, closed);
        if bytes > 0 {
          length, left := length + bytes, left - bytes;
        }
        if length == capacity && capacity != MAX_REQUEST_BUF_SIZE {
          DoublingLimit(capacity);
          memused := memused - capacity;
          capacity := capacity * 2;
          if capacity > MAX_REQUEST_BUF_SIZE {
            capacity := MAX_REQUEST_BUF_SIZE;
          }
          memused := memused + capacity;
        }
        again := bytes > 0 && capacity < MAX_REQUEST_BUF_SIZE;
      }
    }

    /** hs_stream_read_socket, on a socket with this many bytes to give: with bytes
        still unread nothing happens; otherwise a missing buffer is made with 1024
        bytes, it is filled, and ended says whether that ended the session. */
    method Read(id: int, available: nat, closed: bool) returns (taken: nat, ended: bool)
      requires Valid() && id in sessions && sessions[id].state in {SRead, SNop}
      modifies this
      ensures Valid() && taken <= available
      ensures id in sessions && sessions == old(sessions)[id := sessions[id]]
      ensures var s, t := old(sessions)[id], sessions[id];
              if s.index < s.length then taken == 0 && !ended && t == s.(state := SRead)
              else
              && t == s.(state := SRead, hasBuf := true, capacity := t.capacity, length := s.length + taken, ending := s.ending || ended)
              && Filled(s.length, if s.hasBuf then s.capacity else 1024, available, closed, t.length, t.capacity, ended)
    {
      hide Sum, Filled;
      var s := sessions[id].(state := SRead);
      if s.index < s.length {
        taken, ended := 0, false;
        Put(id, s);
        return;
      }
      if !s.hasBuf {
        memused := memused + REQUEST_BUF_SIZE;
        s := s.(hasBuf := true, capacity := REQUEST_BUF_SIZE);
      }
      var length, capacity, bytes := Fill(s.length, s.capacity, available, closed);
      FilledTakes(s.length, s.capacity, available, closed, length, capacity, bytes == 0);
      taken, ended := length - s.length, bytes == 0;
      s := s.(length := length, capacity := capacity, ending := s.ending || ended);
      Put(id, s);
    }

    /** What http_parse does to the buffer: it reads on, a shift may leave it less
        full, and a token for the application stops the reading. */
    method Parsed(id: int, index: nat, length: nat, handler: bool)
      requires Valid() && id in sessions && sessions[id].state == SRead && sessions[id].hasBuf
      requires index <= length <= sessions[id].length
      modifies this
      ensures Valid() && memused == old(memused)
      ensures sessions == old(sessions)[id := old(sessions)[id].(index := index, length := length, state := if handler then SNop else SRead)]
    {
      Put(id, sessions[id].(index := index, length := length, state := if handler then SNop else SRead));
    }

    /** A response buffer, accounted for but belonging to no session yet, and the
        calls that write into it. */
    method Compose(parts: seq<Part>) returns (buffer: GrowBuffer)
      modifies this`memused
      ensures fresh(buffer) && buffer.View() == Appended(parts)
      ensures memused == old(memused) + buffer.capacity
    {
      buffer := new GrowBuffer(this);
      for i := 0 to |parts|
        invariant fresh(buffer) && buffer.server == this && buffer.View() == Appended(parts[..i])
        invariant memused == old(memused) + buffer.capacity
      {
        assert parts[..i + 1][..i] == parts[..i];
        match parts[i]
        case Text(n) => buffer.Print(n);
        case Bytes(n) => buffer.Copy(n);
      }
      assert parts[..|parts|] == parts;
    }

    /** hs_write_response, when the socket takes n bytes or is broken. */
    method Write(id: int, broken: bool, n: nat)
      requires Valid() && id in sessions
      modifies this
      ensures Valid()
      ensures var s := old(sessions)[id];
              var w := s.(written := s.written + n);
              sessions == old(sessions)[id :=
                if broken then s.(ending := true)
                else if w.written != w.length then w.(state := SWrite)
                else if w.chunked then w.(state := SWrite, hasBuf := false)
                else if w.keepAlive then w.(state := SInit, hasBuf := false)
                else w.(ending := true)]
    {
      hide Sum;
      var s := sessions[id];
      if broken {
        Put(id, s.(ending := true));
        return;
      }
      s := s.(written := s.written + n);
      if s.written != s.length {
        Put(id, s.(state := SWrite));
      } else if s.chunked {
        Put(id, s.(state := SWrite));
        FreeBuffer(id);
      } else if s.keepAlive {
        Put(id, s.(state := SInit));
        FreeBuffer(id);
      } else {
        Put(id, s.(ending := true));
      }
    }

    /** http_respond, http_respond_chunk and http_respond_chunk_end up to the first
        write: the request buffer goes, the response buffer takes its place, and a
        chunk says that more are to come. */
    method Respond(id: int, r: Response, keepAlive: bool)
      requires Valid() && id in sessions
      modifies this
      ensures Valid()
      ensures var s := old(sessions)[id];
              var g := Appended(Parts(r, s.chunked));
              && sessions == old(sessions)[id := s.(keepAlive := keepAlive, chunked := r.Chunk? || (s.chunked && !r.LastChunk?),
                                                    hasBuf := true, written := 0, length := g.size, capacity := g.capacity,
                                                    state := SWrite)]
              && memused == old(memused - Cost(sessions[id])) + g.capacity
    {
      hide Sum, Appended, Parts;
      var s := sessions[id];
      var buffer := Compose(Parts(r, s.chunked));
      FreeBuffer(id);
      Put(id, sessions[id].(keepAlive := keepAlive, chunked := r.Chunk? || (s.chunked && !r.LastChunk?), hasBuf := true,
                              written := 0, length := buffer.size, capacity := buffer.capacity, state := SWrite));
    }

    /** hs_end_session, at the end of an event or when the timer runs out. */
    method End(id: int)
      requires Valid() && id in sessions
      modifies this
      ensures Valid() && sessions == old(sessions) - {id} && memused == old(memused - Cost(sessions[id]))
    {
      FreeBuffer(id);
      SumAt(sessions, id);
      sessions := sessions - {id};
    }

    /** Once every session is gone, so is the memory. */
    lemma NothingLeaks(id: int)
      requires Valid()
      ensures 0 <= memused && (sessions == map[] ==> memused == 0)
      ensures id in sessions && sessions[id].hasBuf ==> sessions[id].capacity <= memused
    {
      SumNonNegative(sessions);
      if id in sessions {
        SumBound(sessions, id);
      }
    }
  }
}
