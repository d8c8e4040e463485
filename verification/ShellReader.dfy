/** How received bytes become commands: the read loops of StreamVariant over the buffers of
    the shell and of the current hold stream, and their independence of how the transport
    cuts the bytes into chunks. */
module ShellReader {
  import opened Bytes
  import opened Wrappers
  import opened VariantMsg
  import opened IStream
  import SimplePkg
  import VariantCodec

  // The commands at the front of s, up to the first bytes that do not parse, and the rest.
  function ParseAll(crc: SimplePkg.Checksum, s: seq<u8>): (r: (seq<Msg>, seq<u8>))
    decreases |s|
  {
    var (m, used) := VariantCodec.ParseCommand(crc, s);
    if m.None? then ([], s)
    else var (ms, rest) := ParseAll(crc, s[used..]); ([m.value] + ms, rest)
  }

  // One round of the loop, with `done` already handed over.
  lemma ParseRound(crc: SimplePkg.Checksum, done: seq<Msg>, s: seq<u8>)
    ensures var (m, used) := VariantCodec.ParseCommand(crc, s);
      && (m.Some? ==> done + ParseAll(crc, s).0 == done + [m.value] + ParseAll(crc, s[used..]).0
                      && ParseAll(crc, s).1 == ParseAll(crc, s[used..]).1)
      && (m.None? ==> ParseAll(crc, s) == ([], s) && done + [] == done)
  {
  }

  // The while loop of do_read_shell: `handed` are the commands given to on_read, in order.
  method ReadLoop(crc: SimplePkg.Checksum, s: Stream) returns (handed: seq<Msg>)
    requires s.Valid()
    modifies s`readBuf, s`bufReadPos, s`consumed
    ensures s.Valid() && s.received == old(s.received)
    ensures (handed, s.Unread()) == ParseAll(crc, old(s.Unread()))
  {
    handed := [];
    ghost var all := ParseAll(crc, s.Unread());
    ParseRound(crc, handed, s.Unread());
    while s.HasUnreadData()
      invariant s.Valid() && s.received == old(s.received)
      invariant all.0 == handed + ParseAll(crc, s.Unread()).0 && all.1 == ParseAll(crc, s.Unread()).1
      decreases |s.Unread()|
    {
      var span := s.ReadAllNotMove();
      ParseRound(crc, handed, span);
      var (m, readLen) := VariantCodec.ParseCommand(crc, span);
      if m.Some? {
        handed := handed + [m.value];
      }
      if readLen > 0 {
        s.MoveReadPosUncheck(readLen);
      } else {
        break;
      }
    }
    ParseRound(crc, handed, s.Unread());
  }

  method DoReadShell(crc: SimplePkg.Checksum, shell: Stream, chunk: seq<u8>) returns (handed: seq<Msg>)
    requires shell.Valid()
    modifies shell
    ensures shell.Valid() && shell.received == old(shell.received) + chunk
    ensures (handed, shell.Unread()) == ParseAll(crc, old(shell.Unread()) + chunk)
  {
    shell.ReadFunc(chunk);
    handed := ReadLoop(crc, shell);
  }

  // hold_stream_unread_moveto_shell, and the read of the shell behind it.
  method MoveToShell(crc: SimplePkg.Checksum, shell: Stream, hold: Stream, more: seq<u8>) returns (handed: seq<Msg>)
    requires shell.Valid() && hold.Valid() && shell != hold
    modifies shell, hold
    ensures shell.Valid() && hold.Valid() && hold.Unread() == []
    ensures (handed, shell.Unread()) == ParseAll(crc, old(shell.Unread()) + old(hold.Unread()) + more)
  {
    var data := hold.ReadAll();
    shell.AppendUnread(data);
    handed := DoReadShell(crc, shell, more);
  }

  // One call of a hold stream's handler: the bytes shown to it, how many it uses, and whether
  // the stream now waits for an answer of the peer.
  datatype Call = Call(shown: seq<u8>, used: nat, waits: bool)

  // What is left of the bytes of one call.
  function LeftBy(c: Call): seq<u8> { if c.used <= |c.shown| then c.shown[c.used..] else [] }

  // The call uses bytes, leaves some, and leaves the stream waiting: the rest is the shell's.
  predicate HandsOver(c: Call) { c.used > 0 && c.waits && LeftBy(c) != [] }

  // The calls the handler gets for `bytes`: the first is shown all of them, each later one
  // what the one before left; and there is a next call exactly if the one before used some
  // bytes, left some, and does not hand them over. `onRead` gives the k-th call's answer.
  ghost predicate CallsFor(onRead: (nat, seq<u8>) -> (nat, bool), bytes: seq<u8>, calls: seq<Call>) {
    && (calls == [] <==> bytes == [])
    && (calls != [] ==> calls[0].shown == bytes)
    && (forall k :: 0 <= k < |calls| ==>
          calls[k].shown != [] && (calls[k].used, calls[k].waits) == onRead(k, calls[k].shown))
    && (forall k :: 0 <= k < |calls| - 1 ==>
          calls[k].used > 0 && !HandsOver(calls[k]) && calls[k + 1].shown == LeftBy(calls[k]))
    && (calls != [] ==>
          var last := calls[|calls| - 1]; last.used == 0 || HandsOver(last) || LeftBy(last) == [])
  }

  // The handler and the bytes determine the calls.
  lemma {:induction false} CallsAgree(
    onRead: (nat, seq<u8>) -> (nat, bool), bytes: seq<u8>, c: seq<Call>, d: seq<Call>, n: nat)
    requires CallsFor(onRead, bytes, c) && CallsFor(onRead, bytes, d) && n <= |c| && n <= |d|
    ensures c[..n] == d[..n]
  {
    if n > 0 {
      CallsAgree(onRead, bytes, c, d, n - 1);
      var k := n - 1;
      assert k > 0 ==> c[k - 1] == c[..k][k - 1] && d[k - 1] == d[..k][k - 1];
      assert c[k].shown == d[k].shown;
      assert c[..n] == c[..k] + [c[k]] && d[..n] == d[..k] + [d[k]];
    }
  }

  lemma CallsAreDetermined(onRead: (nat, seq<u8>) -> (nat, bool), bytes: seq<u8>, c: seq<Call>, d: seq<Call>)
    requires CallsFor(onRead, bytes, c) && CallsFor(onRead, bytes, d) && |c| <= |d|
    ensures c == d
  {
    var n := |c|;
    assert 0 < n < |d| ==> d[n].shown == LeftBy(d[n - 1]) by {
      if 0 < n < |d| {
        var k := n - 1;
        assert d[k + 1].shown == LeftBy(d[k]);
      }
    }
    assert n > 0 ==> d[..n][n - 1] == d[n - 1];
    CallsAgree(onRead, bytes, c, d, n);
    assert c[..n] == c && d[..|d|] == d;
  }

  // The rest is the shell's exactly if the handler used some of the bytes but not all of them
  // and the stream waits.
  lemma HandsOverIff(c: Call)
    ensures HandsOver(c) <==> 0 < c.used < |c.shown| && c.waits
  {
  }

  // The calls so far, the last of which left `rest` and asks for no end.
  ghost predicate CallsSoFar(
    onRead: (nat, seq<u8>) -> (nat, bool), bytes: seq<u8>, calls: seq<Call>, rest: seq<u8>)
  {
    && (calls == [] ==> rest == bytes)
    && (calls != [] ==> calls[0].shown == bytes && rest == LeftBy(calls[|calls| - 1]))
    && (forall k :: 0 <= k < |calls| ==>
          && calls[k].shown != [] && (calls[k].used, calls[k].waits) == onRead(k, calls[k].shown)
          && calls[k].used > 0 && !HandsOver(calls[k]))
    && (forall k :: 0 <= k < |calls| - 1 ==> calls[k + 1].shown == LeftBy(calls[k]))
  }

  lemma OneMoreCall(
    onRead: (nat, seq<u8>) -> (nat, bool), bytes: seq<u8>, calls: seq<Call>, rest: seq<u8>, c: Call)
    requires CallsSoFar(onRead, bytes, calls, rest) && rest != []
    requires c.shown == rest && (c.used, c.waits) == onRead(|calls|, rest)
    ensures c.used == 0 || HandsOver(c) ==> CallsFor(onRead, bytes, calls + [c])
    ensures c.used > 0 && !HandsOver(c) ==> CallsSoFar(onRead, bytes, calls + [c], LeftBy(c))
  {
  }

  lemma NothingLeft(onRead: (nat, seq<u8>) -> (nat, bool), bytes: seq<u8>, calls: seq<Call>)
    requires CallsSoFar(onRead, bytes, calls, [])
    ensures CallsFor(onRead, bytes, calls)
  {
  }

  // One round of the loop: the handler is shown all unread bytes and uses some.
  method ShowToHandler(hold: Stream, k: nat, onRead: (nat, seq<u8>) -> (nat, bool)) returns (c: Call)
    requires hold.Valid() && onRead(k, hold.Unread()).0 <= |hold.Unread()|
    modifies hold`readBuf, hold`bufReadPos, hold`consumed
    ensures hold.Valid() && hold.received == old(hold.received)
    ensures c.shown == old(hold.Unread()) && (c.used, c.waits) == onRead(k, c.shown)
    ensures c.used <= |c.shown| && hold.Unread() == c.shown[c.used..]
  {
    var span := hold.ReadAllNotMove();
    var (readLen, waitsNow) := onRead(k, span);
    if readLen > 0 {
      hold.MoveReadPosUncheck(readLen);
    }
    return Call(span, readLen, waitsNow);
  }

  // The while loop of do_read_curr. `calls` are the calls the handler got, `used` the bytes it
  // consumed; the loop stops early for the rest to move over to the shell, exactly when the
  // last call hands over.
  method HoldLoop(hold: Stream, onRead: (nat, seq<u8>) -> (nat, bool))
    returns (used: seq<u8>, moves: bool, ghost calls: seq<Call>)
    requires hold.Valid()
    requires forall k: nat, s: seq<u8> :: onRead(k, s).0 <= |s|
    modifies hold`readBuf, hold`bufReadPos, hold`consumed
    ensures hold.Valid() && hold.received == old(hold.received)
    ensures old(hold.Unread()) == used + hold.Unread()
    ensures CallsFor(onRead, old(hold.Unread()), calls)
    ensures hold.Unread() == if calls == [] then [] else LeftBy(calls[|calls| - 1])
    ensures moves <==> calls != [] && HandsOver(calls[|calls| - 1])
  {
    used, moves, calls := [], false, [];
    ghost var bytes := hold.Unread();
    var k := 0;
    while hold.HasUnreadData()
      invariant hold.Valid() && hold.received == old(hold.received)
      invariant bytes == used + hold.Unread()
      invariant k == |calls| && CallsSoFar(onRead, bytes, calls, hold.Unread())
      decreases |hold.Unread()|
    {
      ghost var rest := hold.Unread();
      var c := ShowToHandler(hold, k, onRead);
      OneMoreCall(onRead, bytes, calls, rest, c);
      k, calls := k + 1, calls + [c];
      used := used + c.shown[..c.used];
      if c.used == 0 {
        return used, false, calls;
      }
      if hold.HasUnreadData() && c.waits {
        return used, true, calls;
      }
    }
    NothingLeft(onRead, bytes, calls);
  }

  // A read event for the current hold stream; `more` is what the shell's own read then finds
  // if the unread rest moved over to it.
  method DoReadCurr(crc: SimplePkg.Checksum, shell: Stream, hold: Stream, waiting: bool, chunk: seq<u8>,
                    onRead: (nat, seq<u8>) -> (nat, bool), more: seq<u8>)
    returns (used: seq<u8>, moved: bool, handed: seq<Msg>, ghost calls: seq<Call>)
    requires shell.Valid() && hold.Valid() && shell != hold
    requires forall k: nat, s: seq<u8> :: onRead(k, s).0 <= |s|
    modifies shell, hold
    ensures shell.Valid() && hold.Valid()
    ensures waiting ==>
              && used == [] && !moved && calls == [] && hold.Unread() == old(hold.Unread())
              && (handed, shell.Unread()) == ParseAll(crc, old(shell.Unread()) + chunk)
    ensures !waiting ==>
              && CallsFor(onRead, old(hold.Unread()) + chunk, calls)
              && (moved <==> calls != [] && HandsOver(calls[|calls| - 1]))
    ensures !waiting && !moved ==>
              && old(hold.Unread()) + chunk == used + hold.Unread()
              && hold.Unread() == (if calls == [] then [] else LeftBy(calls[|calls| - 1]))
              && handed == [] && shell.Unread() == old(shell.Unread())
    ensures moved ==>
              && !waiting && hold.Unread() == []
              && old(hold.Unread()) + chunk == used + LeftBy(calls[|calls| - 1])
              && (handed, shell.Unread())
                 == ParseAll(crc, old(shell.Unread()) + LeftBy(calls[|calls| - 1]) + more)
  {
    used, moved, handed, calls := [], false, [], [];
    if waiting {
      handed := DoReadShell(crc, shell, chunk);
      return;
    }
    hold.ReadFunc(chunk);
    used, moved, calls := HoldLoop(hold, onRead);
    if moved {
      handed := MoveToShell(crc, shell, hold, more);
    }
  }

  /* ---------- independence of the chunks ---------- */

  lemma ParseHead(crc: SimplePkg.Checksum, s: seq<u8>, m: Msg, used: nat)
    requires VariantCodec.ParseCommand(crc, s) == (Some(m), used)
    ensures ParseAll(crc, s).0 == [m] + ParseAll(crc, s[used..]).0
    ensures ParseAll(crc, s).1 == ParseAll(crc, s[used..]).1
  {
  }

  lemma Regroup(m: Msg, ms: seq<Msg>, ns: seq<Msg>)
    ensures [m] + (ms + ns) == ([m] + ms) + ns
  {
  }

  // Bytes behind a command leave it as it is.
  lemma ParseHeadAppend(crc: SimplePkg.Checksum, x: seq<u8>, y: seq<u8>, m: Msg, used: nat)
    requires VariantCodec.ParseCommand(crc, x) == (Some(m), used)
    ensures used <= |x|
    ensures ParseAll(crc, x + y).0 == [m] + ParseAll(crc, x[used..] + y).0
    ensures ParseAll(crc, x + y).1 == ParseAll(crc, x[used..] + y).1
  {
    SimplePkg.ParseIsStable(crc, x, y);
    assert (x + y)[used..] == x[used..] + y;
    ParseHead(crc, x + y, m, used);
  }

  lemma {:induction false} ParseAllAppend(crc: SimplePkg.Checksum, x: seq<u8>, y: seq<u8>)
    ensures ParseAll(crc, x + y).0 == ParseAll(crc, x).0 + ParseAll(crc, ParseAll(crc, x).1 + y).0
    ensures ParseAll(crc, x + y).1 == ParseAll(crc, ParseAll(crc, x).1 + y).1
    decreases |x|
  {
    var (m, used) := VariantCodec.ParseCommand(crc, x);
    if m.Some? {
      var tail := x[used..];
      ParseHead(crc, x, m.value, used);
      ParseHeadAppend(crc, x, y, m.value, used);
      ParseAllAppend(crc, tail, y);
      Regroup(m.value, ParseAll(crc, tail).0, ParseAll(crc, ParseAll(crc, tail).1 + y).0);
    } else {
      assert ParseAll(crc, x) == ([], x);
    }
  }

  // What successive calls of do_read_shell hand over in total, and leave unread.
  function ReadChunks(crc: SimplePkg.Checksum, unread: seq<u8>, chunks: seq<seq<u8>>): (seq<Msg>, seq<u8>)
    decreases |chunks|
  {
    if chunks == [] then ([], unread)
    else
      var (first, rest) := ParseAll(crc, unread + chunks[0]);
      var (later, left) := ReadChunks(crc, rest, chunks[1..]);
      (first + later, left)
  }

  lemma ReadOneMore(crc: SimplePkg.Checksum, done: seq<Msg>, unread: seq<u8>, chunks: seq<seq<u8>>)
    requires chunks != []
    ensures var (first, rest) := ParseAll(crc, unread + chunks[0]);
            done + ReadChunks(crc, unread, chunks).0 == done + first + ReadChunks(crc, rest, chunks[1..]).0
            && ReadChunks(crc, unread, chunks).1 == ReadChunks(crc, rest, chunks[1..]).1
  {
  }

  // The read events of a connection, one do_read_shell for each chunk the transport has.
  method ReadEvents(crc: SimplePkg.Checksum, shell: Stream, chunks: seq<seq<u8>>) returns (handed: seq<Msg>)
    requires shell.Valid()
    modifies shell
    ensures shell.Valid()
    ensures (handed, shell.Unread()) == ReadChunks(crc, old(shell.Unread()), chunks)
  {
    handed := [];
    ghost var all := ReadChunks(crc, shell.Unread(), chunks);
    assert chunks[0..] == chunks && [] + all.0 == all.0;
    for i := 0 to |chunks|
      invariant shell.Valid()
      invariant all.0 == handed + ReadChunks(crc, shell.Unread(), chunks[i..]).0
      invariant all.1 == ReadChunks(crc, shell.Unread(), chunks[i..]).1
    {
      ReadOneMore(crc, handed, shell.Unread(), chunks[i..]);
      assert chunks[i..][0] == chunks[i] && chunks[i..][1..] == chunks[i + 1..];
      var more := DoReadShell(crc, shell, chunks[i]);
      handed := handed + more;
    }
    assert chunks[|chunks|..] == [] && handed + [] == handed;
  }

  function Flatten(chunks: seq<seq<u8>>): seq<u8> {
    if chunks == [] then [] else chunks[0] + Flatten(chunks[1..])
  }

  // Bytes the loop has already given up on.
  predicate Stuck(crc: SimplePkg.Checksum, s: seq<u8>) { VariantCodec.ParseCommand(crc, s).0.None? }

  lemma {:induction false} RestIsStuck(crc: SimplePkg.Checksum, s: seq<u8>)
    ensures Stuck(crc, ParseAll(crc, s).1)
    decreases |s|
  {
    var (m, used) := VariantCodec.ParseCommand(crc, s);
    if m.Some? {
      RestIsStuck(crc, s[used..]);
    }
  }

  // For any bytes at all, well formed or not, and any way to cut them: the same commands in
  // the same order, and the same bytes left over.
  lemma {:induction false} ChunksDoNotMatter(crc: SimplePkg.Checksum, unread: seq<u8>, chunks: seq<seq<u8>>)
    requires Stuck(crc, unread)
    ensures ReadChunks(crc, unread, chunks).0 == ParseAll(crc, unread + Flatten(chunks)).0
    ensures ReadChunks(crc, unread, chunks).1 == ParseAll(crc, unread + Flatten(chunks)).1
    decreases |chunks|
  {
    if chunks == [] {
      assert unread + [] == unread;
    } else {
      var all := unread + chunks[0];
      var (first, rest) := ParseAll(crc, all);
      RestIsStuck(crc, all);
      ChunksDoNotMatter(crc, rest, chunks[1..]);
      ParseAllAppend(crc, all, Flatten(chunks[1..]));
      assert unread + Flatten(chunks) == all + Flatten(chunks[1..]);
    }
  }

  predicate Sendable(ms: seq<Msg>) {
    forall i :: 0 <= i < |ms| ==> |ms[i].extra| <= EXTRA_PARAMS_MAX_SIZE
  }

  // The bytes an end writes for a list of commands.
  function Wire(crc: SimplePkg.Checksum, ms: seq<Msg>): seq<u8> {
    if ms == [] then [] else VariantCodec.Frame(crc, ms[0]) + Wire(crc, ms[1..])
  }

  lemma ParseFirst(crc: SimplePkg.Checksum, m: Msg, s: seq<u8>, rest: seq<u8>)
    requires |m.extra| <= EXTRA_PARAMS_MAX_SIZE
    requires s == VariantCodec.Frame(crc, m) + rest
    ensures ParseAll(crc, s).0 == [m] + ParseAll(crc, rest).0
    ensures ParseAll(crc, s).1 == ParseAll(crc, rest).1
  {
    VariantCodec.RoundTrip(crc, m, rest);
    assert s[|VariantCodec.Frame(crc, m)|..] == rest;
  }

  lemma WireFirst(crc: SimplePkg.Checksum, ms: seq<Msg>, tail: seq<u8>)
    requires ms != []
    ensures Wire(crc, ms) + tail == VariantCodec.Frame(crc, ms[0]) + (Wire(crc, ms[1..]) + tail)
  {
  }

  lemma SendableTail(ms: seq<Msg>)
    requires Sendable(ms) && ms != []
    ensures |ms[0].extra| <= EXTRA_PARAMS_MAX_SIZE && Sendable(ms[1..]) && [ms[0]] + ms[1..] == ms
  {
  }

  lemma {:induction false} ParseWire(crc: SimplePkg.Checksum, ms: seq<Msg>, s: seq<u8>, tail: seq<u8>)
    requires Sendable(ms) && Stuck(crc, tail) && s == Wire(crc, ms) + tail
    ensures ParseAll(crc, s).0 == ms
    ensures ParseAll(crc, s).1 == tail
    decreases |ms|
  {
    if |ms| == 0 {
      assert s == tail;
    } else {
      SendableTail(ms);
      var rest := Wire(crc, ms[1..]) + tail;
      WireFirst(crc, ms, tail);
      ParseWire(crc, ms[1..], rest, tail);
      ParseFirst(crc, ms[0], s, rest);
    }
  }

  // Segmentation independence: the commands on the wire, cut into any chunks, possibly with
  // the front part of one more command behind them, are handed over exactly, once and in
  // order; the unfinished part stays unread.
  lemma SegmentationIndependence(
    crc: SimplePkg.Checksum, ms: seq<Msg>, last: Msg, n: nat, chunks: seq<seq<u8>>)
    requires Sendable(ms) && Sendable([last])
    requires n < |VariantCodec.Frame(crc, last)|
    requires Flatten(chunks) == Wire(crc, ms) + VariantCodec.Frame(crc, last)[..n]
    ensures ReadChunks(crc, [], chunks) == (ms, VariantCodec.Frame(crc, last)[..n])
  {
    assert |[last][0].extra| <= EXTRA_PARAMS_MAX_SIZE;
    var tail := VariantCodec.Frame(crc, last)[..n];
    SimplePkg.ParseStrictPrefix(crc, VariantCodec.Body(last), n);
    assert Stuck(crc, tail);
    ParseWire(crc, ms, Flatten(chunks), tail);
    assert Stuck(crc, []);
    ChunksDoNotMatter(crc, [], chunks);
    assert [] + Flatten(chunks) == Flatten(chunks);
  }
}
