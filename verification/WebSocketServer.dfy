/** `handleEvents`: a reader loop that answers pings and a ticker that pushes the task list share one connection. */
module WebSocketServer {
  import Runs
  import opened WebSocketFrames
  import opened Wrappers

  /** Which loop is inside `writeFrameSafe`. */
  datatype Party = ReaderLoop | TickerLoop

  /** `Panicked` is a panic that nothing recovers: it ends the process. */
  datatype ReaderPhase = Listening | Replying(payload: seq<byte>) | Sending | Stopped | Panicked

  datatype TickerPhase = Ticking | Pushing | Ended

  /** `guarded` is whether `writeFrameSafe` takes the mutex. `sent` lists the frames in the order they were begun. */
  datatype Conn = Conn(
    limit: Limit, guarded: bool, input: seq<byte>, out: seq<byte>, broken: bool,
    reader: ReaderPhase, ticker: TickerPhase,
    readerTodo: seq<byte>, tickerTodo: seq<byte>,   // what each loop still has to write of its frame
    pings: seq<seq<byte>>, ticks: seq<seq<byte>>,   // payloads read, and payloads pushed, so far
    sent: seq<Frame>)

  datatype Action =
    | ReadNext
    | BeginPong
    | Tick(data: seq<byte>)
    | WriteSome(who: Party, n: nat)
    | Break
    | Finish(who: Party)
    | SeeClosed

  function Init(limit: Limit, guarded: bool, input: seq<byte>): Conn {
    Conn(limit, guarded, input, [], false, Listening, Ticking, [], [], [], [], [])
  }

  predicate Locked(s: Conn) {
    s.guarded && (s.reader.Sending? || s.ticker.Pushing?)
  }

  /** The reader loop after `readFrame` has returned `parsed`. */
  function AfterRead(s: Conn, parsed: Parsed): Conn {
    match parsed
    case Read(f, rest) =>
      if f.opcode == OP_PING then s.(input := rest, reader := Replying(f.payload), pings := s.pings + [f.payload])
      else s.(input := rest)
    case TooLong => s.(reader := Panicked, ticker := Ended, broken := true)
    case _ => s.(reader := Stopped)
  }

  function Step(s: Conn, a: Action): Option<Conn> {
    match a
    case ReadNext => if s.reader.Listening? then Some(AfterRead(s, Parse(s.limit, s.input))) else None
    case BeginPong =>
      if !s.reader.Replying? || Locked(s) then None
      else if s.broken then Some(s.(reader := Stopped))
      else
        var f := Frame(OP_PONG, s.reader.payload);
        Some(s.(reader := Sending, readerTodo := Encode(f, None), sent := s.sent + [f]))
    case Tick(data) =>
      if !s.ticker.Ticking? || Locked(s) || |data| >= s.limit then None
      else if s.broken then Some(s.(ticker := Ended))
      else
        var f := Frame(OP_TEXT, data);
        Some(s.(ticker := Pushing, tickerTodo := Encode(f, None), ticks := s.ticks + [data], sent := s.sent + [f]))
    case WriteSome(who, n) =>
      if s.broken then None
      else if who.ReaderLoop? then
        if s.reader.Sending? && n <= |s.readerTodo|
        then Some(s.(out := s.out + s.readerTodo[..n], readerTodo := s.readerTodo[n..])) else None
      else
        if s.ticker.Pushing? && n <= |s.tickerTodo|
        then Some(s.(out := s.out + s.tickerTodo[..n], tickerTodo := s.tickerTodo[n..])) else None
    case Break => Some(s.(broken := true))
    case Finish(who) =>
      if who.ReaderLoop? then
        if !s.reader.Sending? then None
        else if s.broken && s.readerTodo != [] then Some(s.(reader := Stopped))
        else if s.readerTodo == [] then Some(s.(reader := Listening)) else None
      else
        if !s.ticker.Pushing? then None
        else if s.broken && s.tickerTodo != [] then Some(s.(ticker := Ended))
        else if s.tickerTodo == [] then Some(s.(ticker := Ticking)) else None
    case SeeClosed => if s.reader.Stopped? && s.ticker.Ticking? then Some(s.(ticker := Ended)) else None
  }

  ghost function Run(s: Conn, acts: seq<Action>): Option<Conn> {
    Runs.After(Step, s, acts)
  }

  // ---------------------------------------------------------------- what each log should hold

  /** The payloads of the frames with opcode `op`, in order. */
  function Payloads(op: byte, frames: seq<Frame>): seq<seq<byte>> {
    if frames == [] then []
    else (if frames[0].opcode == op then [frames[0].payload] else []) + Payloads(op, frames[1..])
  }

  /** The pings the client sends before its first close or error. */
  function ClientPings(limit: Limit, input: seq<byte>): seq<seq<byte>> {
    Payloads(OP_PING, ParseAll(limit, input).0)
  }

  lemma PayloadsHead(op: byte, f: Frame, more: seq<Frame>)
    ensures Payloads(op, [f] + more) == (if f.opcode == op then [f.payload] else []) + Payloads(op, more)
  {
    assert ([f] + more)[1..] == more;
  }

  lemma {:induction false} PayloadsAppend(op: byte, frames: seq<Frame>, f: Frame)
    ensures Payloads(op, frames + [f]) == Payloads(op, frames) + if f.opcode == op then [f.payload] else []
  {
    if frames == [] {
      assert frames + [f] == [f] + [];
      PayloadsHead(op, f, []);
    } else {
      var first, rest := frames[0], frames[1..];
      assert frames == [first] + rest && frames + [f] == [first] + (rest + [f]);
      PayloadsHead(op, first, rest + [f]);
      PayloadsAppend(op, rest, f);
    }
  }

  lemma {:induction false} EncodeAllAppend(frames: seq<Frame>, f: Frame)
    ensures EncodeAll(frames + [f]) == EncodeAll(frames) + Encode(f, None)
  {
    if frames == [] {
      assert frames + [f] == [f] && [f][1..] == [];
    } else {
      assert (frames + [f])[1..] == frames[1..] + [f];
      EncodeAllAppend(frames[1..], f);
    }
  }

  /** The part of the frame in progress that is not written yet. */
  function Todo(s: Conn): seq<byte> {
    s.readerTodo + s.tickerTodo
  }

  function Last(frames: seq<Frame>): Frame
    requires frames != []
  {
    frames[|frames| - 1]
  }

  /** The bytes: what is out and what is still to be written make up the frames begun, in order. */
  ghost predicate BytesOk(s: Conn) {
    && s.out + Todo(s) == EncodeAll(s.sent)
    && (s.readerTodo == [] || s.tickerTodo == [])
    && (Todo(s) != [] ==> s.sent != [] && |Todo(s)| <= |Encode(Last(s.sent), None)|)
    && AllSendable(s.limit, s.sent)
  }

  /** The loops: they are never both inside a write, and only a broken connection leaves a frame unfinished. */
  ghost predicate LoopsOk(s: Conn) {
    && (s.reader.Sending? ==> s.guarded && !s.ticker.Pushing?)
    && (!s.broken ==> (s.readerTodo != [] ==> s.reader.Sending?) && (s.tickerTodo != [] ==> s.ticker.Pushing?))
  }

  /** The logs, given the pings the client sends in all and those not read yet: pings are answered in the order they
      were read, and ticks are pushed in order. */
  ghost predicate LogsFit(s: Conn, total: seq<seq<byte>>, left: seq<seq<byte>>) {
    && (if s.reader.Stopped? then s.pings <= total else s.pings + left == total)
    && ((s.reader.Stopped? && !s.broken) || s.reader.Panicked? ==> s.pings == total)
    && Payloads(OP_TEXT, s.sent) == s.ticks
    && (if s.reader.Replying? then
          |s.reader.payload| < s.limit && s.pings == Payloads(OP_PONG, s.sent) + [s.reader.payload]
        else if s.reader.Stopped? && s.broken then Payloads(OP_PONG, s.sent) <= s.pings
        else Payloads(OP_PONG, s.sent) == s.pings)
  }

  ghost predicate Inv(s: Conn, limit: Limit, client: seq<byte>) {
    && s.limit == limit && (s.guarded || ClientPings(limit, client) == [])
    && BytesOk(s) && LoopsOk(s) && LogsFit(s, ClientPings(limit, client), ClientPings(limit, s.input))
  }

  lemma BeginKeepsBytes(s: Conn, t: Conn, f: Frame)
    requires BytesOk(s) && Todo(s) == [] && Sendable(s.limit, f) && f.opcode != OP_CLOSE
    requires t.limit == s.limit && t.out == s.out && t.sent == s.sent + [f] && Todo(t) == Encode(f, None)
    requires t.readerTodo == [] || t.tickerTodo == []
    ensures BytesOk(t)
  {
    EncodeAllAppend(s.sent, f);
    assert s.out + Todo(s) == s.out;
  }

  lemma WriteKeepsBytes(s: Conn, t: Conn, n: nat)
    requires BytesOk(s) && n <= |Todo(s)|
    requires t.limit == s.limit && t.out == s.out + Todo(s)[..n] && Todo(t) == Todo(s)[n..] && t.sent == s.sent
    requires t.readerTodo == [] || t.tickerTodo == []
    ensures BytesOk(t)
  {
    MovesOver(s.out, Todo(s), n);
  }

  lemma MovesOver<T>(done: seq<T>, todo: seq<T>, n: nat)
    requires n <= |todo|
    ensures (done + todo[..n]) + todo[n..] == done + todo
  {
  }

  /** What one frame read contributes to the client's pings. */
  lemma PingsStep(limit: Limit, input: seq<byte>)
    ensures match Parse(limit, input)
            case Read(f, rest) =>
              && |f.payload| < limit
              && ClientPings(limit, input) == (if f.opcode == OP_PING then [f.payload] else []) + ClientPings(limit, rest)
            case _ => ClientPings(limit, input) == []
  {
    match Parse(limit, input)
    case Read(f, rest) => PayloadsHead(OP_PING, f, ParseAll(limit, rest).0);
    case _ =>
  }

  lemma FrameKeepsLogs(s: Conn, f: Frame, rest: seq<byte>, total: seq<seq<byte>>, left: seq<seq<byte>>, left': seq<seq<byte>>)
    requires LogsFit(s, total, left) && s.reader.Listening? && |f.payload| < s.limit
    requires left == (if f.opcode == OP_PING then [f.payload] else []) + left'
    ensures LogsFit(AfterRead(s, Read(f, rest)), total, left')
  {
    if f.opcode == OP_PING {
      assert s.pings + ([f.payload] + left') == (s.pings + [f.payload]) + left';
    } else {
      assert [] + left' == left';
    }
  }

  lemma FrameReadKeeps(s: Conn, limit: Limit, client: seq<byte>, f: Frame, rest: seq<byte>)
    requires Inv(s, limit, client) && s.reader.Listening? && Parse(limit, s.input) == Read(f, rest)
    ensures Inv(AfterRead(s, Read(f, rest)), limit, client)
  {
    PingsStep(limit, s.input);
    FrameKeepsLogs(s, f, rest, ClientPings(limit, client), ClientPings(limit, s.input), ClientPings(limit, rest));
    BytesUntouched(s, AfterRead(s, Read(f, rest)));
  }

  lemma EndKeepsLogs(s: Conn, parsed: Parsed, total: seq<seq<byte>>)
    requires LogsFit(s, total, []) && s.reader.Listening? && !parsed.Read?
    ensures LogsFit(AfterRead(s, parsed), total, [])
  {
    assert s.pings + [] == s.pings;
  }

  lemma EndReadKeeps(s: Conn, limit: Limit, client: seq<byte>, parsed: Parsed)
    requires Inv(s, limit, client) && s.reader.Listening? && parsed == Parse(limit, s.input) && !parsed.Read?
    ensures Inv(AfterRead(s, parsed), limit, client)
  {
    PingsStep(limit, s.input);
    EndKeepsLogs(s, parsed, ClientPings(limit, client));
    BytesUntouched(s, AfterRead(s, parsed));
  }

  lemma BytesUntouched(s: Conn, t: Conn)
    requires BytesOk(s) && t.limit == s.limit && t.out == s.out && t.sent == s.sent
    requires t.readerTodo == s.readerTodo && t.tickerTodo == s.tickerTodo
    ensures BytesOk(t)
  {
    assert Todo(t) == Todo(s);
  }

  lemma ReadKeeps(s: Conn, limit: Limit, client: seq<byte>)
    requires Inv(s, limit, client) && s.reader.Listening?
    ensures Inv(AfterRead(s, Parse(limit, s.input)), limit, client)
  {
    var parsed := Parse(limit, s.input);
    if parsed.Read? {
      FrameReadKeeps(s, limit, client, parsed.frame, parsed.rest);
    } else {
      EndReadKeeps(s, limit, client, parsed);
    }
  }

  lemma BeginKeepsLogs(s: Conn, t: Conn, total: seq<seq<byte>>, left: seq<seq<byte>>, f: Frame)
    requires LogsFit(s, total, left) && !s.broken && t.sent == s.sent + [f] && t.pings == s.pings && t.broken == s.broken
    requires t.limit == s.limit
    requires (s.reader.Replying? && f == Frame(OP_PONG, s.reader.payload) && t.reader.Sending? && t.ticks == s.ticks)
          || (f.opcode == OP_TEXT && t.reader == s.reader && t.ticks == s.ticks + [f.payload])
    ensures LogsFit(t, total, left)
  {
    PayloadsAppend(OP_TEXT, s.sent, f);
    PayloadsAppend(OP_PONG, s.sent, f);
  }

  lemma BeginPongKeeps(s: Conn, limit: Limit, client: seq<byte>, t: Conn)
    requires Inv(s, limit, client) && !s.broken && Step(s, BeginPong) == Some(t)
    ensures Inv(t, limit, client)
  {
    var f := Frame(OP_PONG, s.reader.payload);
    assert |s.pings| > 0;
    BeginKeepsBytes(s, t, f);
    BeginKeepsLogs(s, t, ClientPings(limit, client), ClientPings(limit, s.input), f);
  }

  lemma TickKeeps(s: Conn, limit: Limit, client: seq<byte>, data: seq<byte>, t: Conn)
    requires Inv(s, limit, client) && !s.broken && Step(s, Tick(data)) == Some(t)
    ensures Inv(t, limit, client)
  {
    BeginKeepsBytes(s, t, Frame(OP_TEXT, data));
    BeginKeepsLogs(s, t, ClientPings(limit, client), ClientPings(limit, s.input), Frame(OP_TEXT, data));
  }

  lemma WriteKeeps(s: Conn, limit: Limit, client: seq<byte>, who: Party, n: nat, t: Conn)
    requires Inv(s, limit, client) && Step(s, WriteSome(who, n)) == Some(t)
    ensures Inv(t, limit, client)
  {
    if who.ReaderLoop? {
      assert s.tickerTodo == [] && Todo(s) == s.readerTodo && Todo(t) == s.readerTodo[n..];
    } else {
      assert s.readerTodo == [] && Todo(s) == s.tickerTodo && Todo(t) == s.tickerTodo[n..];
    }
    WriteKeepsBytes(s, t, n);
    LogsUnmoved(s, t, ClientPings(limit, client), ClientPings(limit, s.input));
  }

  lemma LogsUnmoved(s: Conn, t: Conn, total: seq<seq<byte>>, left: seq<seq<byte>>)
    requires LogsFit(s, total, left)
    requires t.sent == s.sent && t.pings == s.pings && t.ticks == s.ticks && (s.broken ==> t.broken) && t.limit == s.limit
    requires t.reader == s.reader
          || (s.reader.Sending? && t.reader.Listening?)
          || (s.broken && t.reader.Stopped?)
    ensures LogsFit(t, total, left)
  {
  }

  /** A step that leaves the bytes and the logs alone. */
  lemma PhaseKeeps(s: Conn, limit: Limit, client: seq<byte>, t: Conn)
    requires Inv(s, limit, client) && LoopsOk(t)
    requires t == s.(reader := t.reader, ticker := t.ticker, broken := t.broken) && (s.broken ==> t.broken)
    requires t.reader == s.reader
          || (s.reader.Sending? && t.reader.Listening?)
          || (s.broken && t.reader.Stopped?)
    ensures Inv(t, limit, client)
  {
    assert Todo(t) == Todo(s);
    LogsUnmoved(s, t, ClientPings(limit, client), ClientPings(limit, s.input));
  }

  lemma FinishKeeps(s: Conn, limit: Limit, client: seq<byte>, who: Party, t: Conn)
    requires Inv(s, limit, client) && Step(s, Finish(who)) == Some(t)
    ensures Inv(t, limit, client)
  {
    PhaseKeeps(s, limit, client, t);
  }

  lemma EndKeeps(s: Conn, limit: Limit, client: seq<byte>, a: Action, t: Conn)
    requires Inv(s, limit, client) && Step(s, a) == Some(t)
    requires a.Break? || a.SeeClosed? || (s.broken && (a.BeginPong? || a.Tick?))
    ensures Inv(t, limit, client)
  {
    PhaseKeeps(s, limit, client, t);
  }

  lemma StepKeeps(s: Conn, limit: Limit, client: seq<byte>, a: Action, t: Conn)
    requires Inv(s, limit, client) && Step(s, a) == Some(t)
    ensures Inv(t, limit, client)
  {
    match a
    case ReadNext => ReadKeeps(s, limit, client);
    case BeginPong => if s.broken { EndKeeps(s, limit, client, a, t); } else { BeginPongKeeps(s, limit, client, t); }
    case Tick(data) => if s.broken { EndKeeps(s, limit, client, a, t); } else { TickKeeps(s, limit, client, data, t); }
    case WriteSome(who, n) => WriteKeeps(s, limit, client, who, n, t);
    case Finish(who) => FinishKeeps(s, limit, client, who, t);
    case _ => EndKeeps(s, limit, client, a, t);
  }

  lemma {:induction false} RunKeeps(s: Conn, limit: Limit, client: seq<byte>, acts: seq<Action>, t: Conn)
    requires Inv(s, limit, client) && Run(s, acts) == Some(t)
    ensures Inv(t, limit, client)
    decreases |acts|
  {
    if acts != [] {
      var mid := Step(s, acts[0]).value;
      StepKeeps(s, limit, client, acts[0], mid);
      RunKeeps(mid, limit, client, acts[1..], t);
    }
  }

  ghost predicate Reaches(limit: Limit, guarded: bool, client: seq<byte>, acts: seq<Action>, t: Conn) {
    Run(Init(limit, guarded, client), acts) == Some(t)
  }

  lemma ReachableIsSafe(limit: Limit, guarded: bool, client: seq<byte>, acts: seq<Action>, t: Conn)
    requires Reaches(limit, guarded, client, acts, t) && (guarded || ClientPings(limit, client) == [])
    ensures Inv(t, limit, client)
  {
    RunKeeps(Init(limit, guarded, client), limit, client, acts, t);
  }

  // ---------------------------------------------------------------- what the client sees

  /** Whatever the interleaving and wherever the connection breaks, the client parses whole frames only: the frames
      begun, in order, except that the last one may be torn. */
  lemma OutputIsWholeFrames(limit: Limit, client: seq<byte>, acts: seq<Action>, t: Conn)
    requires Reaches(limit, true, client, acts, t)
    ensures Todo(t) == [] ==> ParseAll(limit, t.out) == (t.sent, [])
    ensures Todo(t) != [] ==> t.sent != [] && ParseAll(limit, t.out).0 == t.sent[..|t.sent| - 1]
  {
    ReachableIsSafe(limit, true, client, acts, t);
    BytesParse(limit, t.out, Todo(t), t.sent);
  }

  lemma BytesParse(limit: Limit, out: seq<byte>, todo: seq<byte>, sent: seq<Frame>)
    requires out + todo == EncodeAll(sent) && AllSendable(limit, sent)
    requires todo != [] ==> sent != [] && |todo| <= |Encode(Last(sent), None)|
    ensures todo == [] ==> ParseAll(limit, out) == (sent, [])
    ensures todo != [] ==> ParseAll(limit, out).0 == sent[..|sent| - 1]
  {
    if todo == [] {
      assert out + todo == out;
      WholeStream(limit, sent);
    } else {
      var done, last := sent[..|sent| - 1], Last(sent);
      assert sent == done + [last];
      EncodeAllAppend(done, last);
      TornParse(limit, out, todo, done, last);
    }
  }

  lemma TornParse(limit: Limit, out: seq<byte>, todo: seq<byte>, done: seq<Frame>, last: Frame)
    requires out + todo == EncodeAll(done) + Encode(last, None) && 0 < |todo| <= |Encode(last, None)|
    requires AllSendable(limit, done) && Sendable(limit, last)
    ensures ParseAll(limit, out).0 == done
  {
    CutSuffix(out, todo, EncodeAll(done), Encode(last, None));
    TornStream(limit, done, last, |Encode(last, None)| - |todo|);
  }

  lemma WholeStream(limit: Limit, frames: seq<Frame>)
    requires AllSendable(limit, frames)
    ensures ParseAll(limit, EncodeAll(frames)) == (frames, [])
  {
    UnmaskedStream(frames);
    StreamRoundTrip(limit, frames, seq(|frames|, _ => None), []);
    assert EncodeAll(frames) + [] == EncodeAll(frames) && frames + [] == frames;
  }

  lemma CutSuffix(out: seq<byte>, todo: seq<byte>, done: seq<byte>, last: seq<byte>)
    requires out + todo == done + last && |todo| <= |last|
    ensures out == done + last[..|last| - |todo|]
  {
    var whole := done + last;
    assert out == whole[..|out|];
    assert whole[..|out|] == done + last[..|last| - |todo|];
  }

  /** The pongs echo a prefix of the client's pings, in order, all of them once the reader has stopped on a live
      connection, and the texts are the ticks. */
  lemma LogsAreFaithful(limit: Limit, client: seq<byte>, acts: seq<Action>, t: Conn)
    requires Reaches(limit, true, client, acts, t)
    ensures Payloads(OP_TEXT, t.sent) == t.ticks
    ensures Payloads(OP_PONG, t.sent) <= ClientPings(limit, client)
    ensures (t.reader.Stopped? && !t.broken) || t.reader.Panicked? ==> Payloads(OP_PONG, t.sent) == ClientPings(limit, client)
    ensures forall f :: f in t.sent ==> f.opcode == OP_TEXT || f.opcode == OP_PONG
  {
    ReachableIsSafe(limit, true, client, acts, t);
    OnlyTextAndPong(Init(limit, true, client), acts, t);
    assert Payloads(OP_PONG, t.sent) <= t.pings <= ClientPings(limit, client);
  }

  lemma {:induction false} OnlyTextAndPong(s: Conn, acts: seq<Action>, t: Conn)
    requires Run(s, acts) == Some(t) && forall f :: f in s.sent ==> f.opcode == OP_TEXT || f.opcode == OP_PONG
    ensures forall f :: f in t.sent ==> f.opcode == OP_TEXT || f.opcode == OP_PONG
    decreases |acts|
  {
    if acts != [] {
      OnlyTextAndPong(Step(s, acts[0]).value, acts[1..], t);
    }
  }

  /** Once the reader loop has stopped, the handler returns: the ticker finishes the frame it is in and ends, without
      pushing another. */
  lemma EndsAfterReader(s: Conn) returns (acts: seq<Action>, t: Conn)
    requires s.reader.Stopped? && (s.ticker.Ticking? || s.ticker.Pushing?) && LoopsOk(s)
    ensures Run(s, acts) == Some(t) && t.ticker.Ended?
    ensures t.ticks == s.ticks && t.sent == s.sent && t.out == s.out + if s.broken then [] else s.tickerTodo
  {
    acts, t := [], s;
    if s.ticker.Pushing? {
      if !s.broken {
        acts, t := Runs.Take(Step, s, acts, t, WriteSome(TickerLoop, |s.tickerTodo|));
      }
      acts, t := Runs.Take(Step, s, acts, t, Finish(TickerLoop));
    }
    if !t.ticker.Ended? {
      acts, t := Runs.Take(Step, s, acts, t, SeeClosed);
    }
  }

  /** Nothing ends early: the ticker stops when the connection is broken or the reader loop is over, and the reader loop
      when the connection is broken or no further frame can be read. */
  ghost predicate EndsForAReason(s: Conn) {
    && (s.ticker.Ended? ==> s.broken || s.reader.Stopped?)
    && (s.reader.Stopped? ==> s.broken || !Parse(s.limit, s.input).Read?)
    && (s.reader.Panicked? ==> s.broken)
  }

  lemma ReasonStep(s: Conn, a: Action, t: Conn)
    requires EndsForAReason(s) && Step(s, a) == Some(t)
    ensures EndsForAReason(t)
  {
    if !a.ReadNext? {
      OnlyReadsMove(s, a, t);
    }
  }

  lemma {:induction false} NothingEndsEarly(s: Conn, acts: seq<Action>, t: Conn)
    requires EndsForAReason(s) && Run(s, acts) == Some(t)
    ensures EndsForAReason(t)
    decreases |acts|
  {
    if acts != [] {
      var mid := Step(s, acts[0]).value;
      ReasonStep(s, acts[0], mid);
      NothingEndsEarly(mid, acts[1..], t);
    }
  }

  /** And on a live connection the next tick can be pushed whole, after which both loops are where they were. */
  lemma TickIsPushed(s: Conn, data: seq<byte>) returns (acts: seq<Action>, t: Conn)
    requires s.ticker.Ticking? && !s.reader.Sending? && !s.broken && |data| < s.limit
    ensures Run(s, acts) == Some(t) && t.ticker == s.ticker && t.reader == s.reader && !t.broken
    ensures t.out == s.out + Encode(Frame(OP_TEXT, data), None) && t.ticks == s.ticks + [data]
  {
    acts, t := Runs.Take(Step, s, [], s, Tick(data));
    acts, t := Runs.Take(Step, s, acts, t, WriteSome(TickerLoop, |t.tickerTodo|));
    acts, t := Runs.Take(Step, s, acts, t, Finish(TickerLoop));
  }

  // ---------------------------------------------------------------- which input ends the process

  /** Whatever is read, the input left after the last whole frame is the same. */
  lemma {:induction false} SameRemainder(s: Conn, acts: seq<Action>, t: Conn)
    requires Run(s, acts) == Some(t)
    ensures t.limit == s.limit && ParseAll(s.limit, t.input).1 == ParseAll(s.limit, s.input).1
    ensures t.reader.Panicked? ==> s.reader.Panicked? || Parse(t.limit, t.input).TooLong?
    decreases |acts|
  {
    if acts != [] {
      var mid := Step(s, acts[0]).value;
      if acts[0].ReadNext? {
        RemainderAfterRead(s);
      } else {
        OnlyReadsMove(s, acts[0], mid);
      }
      SameRemainder(mid, acts[1..], t);
      if mid.reader.Panicked? {
        PanickedStays(mid, acts[1..], t);
      }
    }
  }

  lemma RemainderAfterRead(s: Conn)
    ensures ParseAll(s.limit, AfterRead(s, Parse(s.limit, s.input)).input).1 == ParseAll(s.limit, s.input).1
    ensures AfterRead(s, Parse(s.limit, s.input)).reader.Panicked? ==> s.reader.Panicked? || Parse(s.limit, s.input).TooLong?
  {
  }

  lemma OnlyReadsMove(s: Conn, a: Action, t: Conn)
    requires Step(s, a) == Some(t) && !a.ReadNext?
    ensures t.limit == s.limit && t.input == s.input && (t.reader.Panicked? ==> s.reader.Panicked?)
  {
  }

  lemma {:induction false} PanickedStays(s: Conn, acts: seq<Action>, t: Conn)
    requires s.reader.Panicked? && Run(s, acts) == Some(t)
    ensures t.input == s.input
    decreases |acts|
  {
    if acts != [] {
      PanickedStep(s, acts[0], Step(s, acts[0]).value);
      PanickedStays(Step(s, acts[0]).value, acts[1..], t);
    }
  }

  lemma PanickedStep(s: Conn, a: Action, t: Conn)
    requires s.reader.Panicked? && Step(s, a) == Some(t)
    ensures t.reader.Panicked? && t.input == s.input
  {
  }

  /** The reader loop gets to the end of the whole frames, answering the pings on its way. */
  lemma {:induction false} ReadsToRemainder(s: Conn) returns (acts: seq<Action>, t: Conn)
    requires s.reader.Listening? && s.ticker.Ticking? && !s.broken
    ensures Run(s, acts) == Some(t) && t.reader.Listening?
    ensures t.limit == s.limit && t.input == ParseAll(s.limit, s.input).1
    decreases |s.input|
  {
    acts, t := [], s;
    if Parse(s.limit, s.input).Read? {
      ParseConsumes(s.limit, s.input);
      acts, t := Runs.Take(Step, s, acts, t, ReadNext);
      if t.reader.Replying? {
        acts, t := Runs.Take(Step, s, acts, t, BeginPong);
        acts, t := Runs.Take(Step, s, acts, t, WriteSome(ReaderLoop, |t.readerTodo|));
        acts, t := Runs.Take(Step, s, acts, t, Finish(ReaderLoop));
      }
      var more, u := ReadsToRemainder(t);
      Runs.Concat(Step, s, acts, t, more);
      acts, t := acts + more, u;
    }
  }

  ghost predicate CanPanic(limit: Limit, guarded: bool, client: seq<byte>) {
    exists acts, t :: Reaches(limit, guarded, client, acts, t) && t.reader.Panicked?
  }

  /** Some run ends in a panic exactly when what follows the client's whole frames announces a length that no slice
      can have. */
  lemma PanicsOnImpossibleLength(limit: Limit, guarded: bool, client: seq<byte>)
    ensures CanPanic(limit, guarded, client) <==> ImpossibleLength(limit, ParseAll(limit, client).1)
  {
    var rest := ParseAll(limit, client).1;
    TooLongExactly(limit, rest);
    RemainderIsFixed(limit, client);
    forall acts, t | Reaches(limit, guarded, client, acts, t) && t.reader.Panicked? ensures Parse(limit, rest).TooLong? {
      SameRemainder(Init(limit, guarded, client), acts, t);
    }
    if Parse(limit, rest).TooLong? {
      var s := Init(limit, guarded, client);
      var acts, t := ReadsToRemainder(s);
      acts, t := Runs.Take(Step, s, acts, t, ReadNext);
      assert Reaches(limit, guarded, client, acts, t) && t.reader.Panicked?;
    }
  }

  lemma {:induction false} RemainderIsFixed(limit: Limit, s: seq<byte>)
    ensures ParseAll(limit, ParseAll(limit, s).1).1 == ParseAll(limit, s).1
    decreases |s|
  {
    if Parse(limit, s).Read? {
      ParseConsumes(limit, s);
      RemainderIsFixed(limit, Parse(limit, s).rest);
    }
  }

  // ---------------------------------------------------------------- why the mutex is needed

  /** In every run, what is on the wire is the start of some sequence of whole frames. */
  ghost predicate AlwaysFrames(limit: Limit, guarded: bool, client: seq<byte>) {
    forall acts, t :: Reaches(limit, guarded, client, acts, t) ==> exists frames :: t.out <= EncodeAll(frames)
  }

  /** The reader loop gets to the client's first ping. */
  lemma {:induction false} ReachesPing(s: Conn) returns (acts: seq<Action>, t: Conn)
    requires s.reader.Listening? && ClientPings(s.limit, s.input) != []
    ensures Run(s, acts) == Some(t) && t.reader.Replying?
    ensures t == s.(input := t.input, reader := t.reader, pings := t.pings)
    decreases |s.input|
  {
    PingsStep(s.limit, s.input);
    ParseConsumes(s.limit, s.input);
    var next := AfterRead(s, Parse(s.limit, s.input));
    acts, t := Runs.Take(Step, s, [], s, ReadNext);
    if !next.reader.Replying? {
      var more, u := ReachesPing(next);
      Runs.Concat(Step, s, acts, next, more);
      acts, t := acts + more, u;
    }
  }

  /** Two unguarded writers put the first byte of a Pong where the length byte of a Text belongs. */
  lemma UnguardedTears(limit: Limit, client: seq<byte>) returns (acts: seq<Action>, t: Conn)
    requires ClientPings(limit, client) != []
    ensures Reaches(limit, false, client, acts, t) && t.out == [0x81, 0x8A]
  {
    var s := Init(limit, false, client);
    acts, t := ReachesPing(s);
    acts, t := Runs.Take(Step, s, acts, t, Tick([]));
    acts, t := Runs.Take(Step, s, acts, t, WriteSome(TickerLoop, 1));
    acts, t := Runs.Take(Step, s, acts, t, BeginPong);
    acts, t := Runs.Take(Step, s, acts, t, WriteSome(ReaderLoop, 1));
    assert t.out == [0x81] + [0x8A];
  }

  lemma NoSuchFrames(frames: seq<Frame>)
    ensures !([0x81, 0x8A] <= EncodeAll(frames))
  {
    if frames != [] {
      var n := |frames[0].payload|;
      assert EncodeAll(frames)[1] == LengthBits(n);
      HighBit();
    }
  }

  lemma HighBit()
    ensures (0x8A as byte) & 0x80 != 0
  {
  }

  /** The output stays parseable in every run exactly when the writers share a lock, or the client never pings. */
  lemma MutexKeepsFramesWhole(limit: Limit, guarded: bool, client: seq<byte>)
    ensures AlwaysFrames(limit, guarded, client) <==> guarded || ClientPings(limit, client) == []
  {
    if guarded || ClientPings(limit, client) == [] {
      forall acts, t | Reaches(limit, guarded, client, acts, t) ensures exists frames :: t.out <= EncodeAll(frames) {
        ReachableIsSafe(limit, guarded, client, acts, t);
        assert t.out <= EncodeAll(t.sent);
      }
    } else {
      var acts, t := UnguardedTears(limit, client);
      forall frames ensures !(t.out <= EncodeAll(frames)) {
        NoSuchFrames(frames);
      }
    }
  }
}
