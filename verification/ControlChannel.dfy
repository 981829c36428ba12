/**
 * `_ControlChannel` and `_PlacedBroker.connect` as the code runs them. The object keeps the
 * machine of ControlProtocol beside its own fields: every statement that touches the pipe is
 * one machine step, and other threads and the broker step while this thread waits. So whatever
 * a call does is a run of the machine, and the theorems about runs are about this code.
 */
module ControlChannel {
  import opened Bytes
  import opened Wrappers
  import opened Egress
  import opened Mux
  import opened ControlProtocol

  /** What can happen while a thread waits in the pipe layer. */
  datatype Event =
    | Other(a: Action)   // another thread or the broker steps
    | Move(k: nat)       // up to k + 1 bytes move, or the broker's close is seen
    | Expire             // the deadline passes
    | Break              // the operating system reports an error

  datatype Moved = Chunk(bytes: Bytes) | TimeoutError | OsError

  /** What ends a request whose write or read came to this. */
  function Reason(m: Moved): Why {
    match m
    case Chunk(_) => ChannelClosed
    case TimeoutError => TimedOut
    case OsError => Transport
  }

  /** The steps that need no lock: other threads holding vended handles, and the broker. */
  predicate NeedsNoLock(a: Action) {
    a.AdoptVended? || a.Begin? || a.Emit? || a.Shut?
  }

  lemma {:induction false} RunSnoc(s: State, acts: seq<Action>, a: Action)
    requires Legal(s, acts) && Enabled(Run(s, acts), a)
    ensures Legal(s, acts + [a]) && Run(s, acts + [a]) == Apply(Run(s, acts), a)
    decreases |acts|
  {
    if acts == [] {
      assert Legal(Apply(s, a), []);
      assert [] + [a] == [a] && [a][1..] == [];
    } else {
      RunSnoc(Apply(s, acts[0]), acts[1..], a);
      assert (acts + [a])[1..] == acts[1..] + [a];
    }
  }

  // ---- how a request fares, from what the rest of the world is going to do -------------

  /** The six bytes arrive, others having retired the channel meanwhile or not; or they do not, and why. */
  datatype Fate = Answers(reply: Bytes, retired: bool) | FailsWith(why: Why)

  /** The channel after another thread or the broker had its turn. */
  function Others(s: State, a: Action): State {
    if NeedsNoLock(a) && Enabled(s, a) then Apply(s, a) else s
  }

  /** The most that can move: k + 1 bytes, or all there are. */
  function Least(k: nat, n: nat): nat {
    if k + 1 <= n then k + 1 else n
  }

  function Unsent(s: State): nat {
    if s.issued == [] || s.put > |EncReq(Newest(s))| then 0 else |EncReq(Newest(s))| - s.put
  }

  /** m more bytes of the newest request are on the wire. */
  function Sent(s: State, m: nat): State {
    if m <= Unsent(s) && m > 0 then s.(wire := s.wire + EncReq(Newest(s))[s.put..s.put + m], put := s.put + m) else s
  }

  /** What one event does to a request: it goes on, with so many reply bytes in, or stops. */
  datatype Turn = On(s: State, got: Bytes) | Stop(why: Why)

  function WriteTurn(s: State, e: Event): Turn {
    match e
    case Other(a) => On(Others(s, a), [])
    case Move(k) => On(Sent(s, Least(k, Unsent(s))), [])
    case Expire => Stop(TimedOut)
    case Break => Stop(Transport)
  }

  function ReadTurn(s: State, got: Bytes, e: Event): Turn
    requires |got| < 6
  {
    match e
    case Other(a) => On(Others(s, a), got)
    case Move(k) =>
      var here := Avail(s);
      if here != [] then
        var m := Least(k, Least(5 - |got|, |here|));
        On(s.(consumed := s.consumed + m), got + here[..m])
      else if s.shut then Stop(ChannelClosed)
      else On(s, got)
    case Expire => Stop(TimedOut)
    case Break => Stop(Transport)
  }

  /** The request's bytes go out as the pipe takes them, until all are out or something stops it. */
  function WriteFate(s: State, script: seq<Event>): Fate
    decreases |script|
  {
    if Unsent(s) == 0 then ReadFate(s, [], script)
    else if script == [] then FailsWith(TimedOut)
    else
      match WriteTurn(s, script[0])
      case On(t, _) => WriteFate(t, script[1..])
      case Stop(why) => FailsWith(why)
  }

  /** Reply bytes come in, however cut, until there are six or something stops them. */
  function ReadFate(s: State, got: Bytes, script: seq<Event>): Fate
    decreases |script|
  {
    if |got| >= 6 then Answers(got, s.broken)
    else if script == [] then FailsWith(TimedOut)
    else
      match ReadTurn(s, got, script[0])
      case On(t, more) => ReadFate(t, more, script[1..])
      case Stop(why) => FailsWith(why)
  }

  /** The three ways in which a request can fail on the pipe. */
  predicate PipeFailure(why: Why) {
    why == TimedOut || why == Transport || why == ChannelClosed
  }

  lemma {:induction false} ReadFails(s: State, got: Bytes, script: seq<Event>)
    ensures var f := ReadFate(s, got, script); f.FailsWith? ==> PipeFailure(f.why)
    decreases |script|
  {
    if |got| < 6 && script != [] {
      var turn := ReadTurn(s, got, script[0]);
      if turn.On? {
        ReadFails(turn.s, turn.got, script[1..]);
      }
    }
  }

  lemma {:induction false} WriteFails(s: State, script: seq<Event>)
    ensures var f := WriteFate(s, script); f.FailsWith? ==> PipeFailure(f.why)
    decreases |script|
  {
    if Unsent(s) == 0 {
      ReadFails(s, [], script);
    } else if script != [] {
      var turn := WriteTurn(s, script[0]);
      if turn.On? {
        WriteFails(turn.s, script[1..]);
      }
    }
  }

  /** A request ends as its fate says. */
  ghost predicate Meets(fate: Fate, answered: bool, r: Result<nat, EgressError>, broken: Option<Why>) {
    match fate
    case Answers(reply, retired) =>
      && answered && |reply| == REPLY_LEN && r == ParseReply(reply)
      && (broken.Some? <==> retired || (r.Err? && !IsRefusal(reply)))
    case FailsWith(why) => !answered && r == Err(Protocol(why)) && broken == Some(why)
  }

  /** Who holds the lock is no matter to the broker, nor to threads that do not need it. */
  function Unlocked(s: State): State {
    s.(lock := Free)
  }

  lemma OthersUnlocked(s: State, a: Action)
    ensures Unlocked(Others(s, a)) == Others(Unlocked(s), a)
  {
  }

  function UnlockedTurn(turn: Turn): Turn {
    if turn.On? then On(Unlocked(turn.s), turn.got) else turn
  }

  lemma WriteTurnUnlocked(s: State, e: Event)
    ensures WriteTurn(Unlocked(s), e) == UnlockedTurn(WriteTurn(s, e))
  {
    if e.Other? {
      OthersUnlocked(s, e.a);
    }
  }

  lemma ReadTurnUnlocked(s: State, got: Bytes, e: Event)
    requires |got| < 6
    ensures ReadTurn(Unlocked(s), got, e) == UnlockedTurn(ReadTurn(s, got, e))
  {
    if e.Other? {
      OthersUnlocked(s, e.a);
    }
    assert Avail(Unlocked(s)) == Avail(s);
  }

  lemma WriteFateStep(s: State, script: seq<Event>)
    requires Unsent(s) > 0 && script != []
    ensures var turn := WriteTurn(s, script[0]);
      WriteFate(Unlocked(s), script) ==
        if turn.On? then WriteFate(Unlocked(turn.s), script[1..]) else FailsWith(turn.why)
  {
    var u := Unlocked(s);
    assert Unsent(u) == Unsent(s);
    WriteTurnUnlocked(s, script[0]);
  }

  lemma ReadFateStep(s: State, got: Bytes, script: seq<Event>)
    requires |got| < 6 && script != []
    ensures var turn := ReadTurn(s, got, script[0]);
      ReadFate(Unlocked(s), got, script) ==
        if turn.On? then ReadFate(Unlocked(turn.s), turn.got, script[1..]) else FailsWith(turn.why)
  {
    ReadTurnUnlocked(s, got, script[0]);
  }

  class ControlChannel {
    var broken: Option<Why>      // why the channel is retired, if it is
    var adopted: bool            // `_raw` is set
    var world: State
    var script: seq<Event>       // what the rest of the world will do
    ghost var trace: seq<Action>

    ghost predicate Valid()
      reads this
    {
      && Legal(START, trace) && world == Run(START, trace)
      && world.broken == broken.Some? && world.adopted == adopted
    }

    constructor (script: seq<Event>)
      ensures Valid() && world == START && broken.None? && this.script == script
    {
      broken, adopted, world, trace := None, false, START, [];
      this.script := script;
    }

    /** One machine step; a step that retires the channel leaves `why` as the reason. */
    method Step(a: Action, why: Why)
      requires Valid() && Enabled(world, a)
      modifies this`broken, this`adopted, this`world, this`trace
      ensures Valid()
      ensures world == Apply(old(world), a) && old(trace) <= trace
      ensures broken == if Retires(old(world), a) then Some(why) else old(broken)
    {
      RunSnoc(START, trace, a);
      trace := trace + [a];
      if Retires(world, a) {
        broken := Some(why);
      }
      world := Apply(world, a);
      adopted := world.adopted;
    }

    /** Anything the rest of the world does while the holder waits. */
    method Interfere(a: Action)
      requires Valid()
      modifies this`broken, this`adopted, this`world, this`trace
      ensures Valid() && old(trace) <= trace
      ensures world == Others(old(world), a)
    {
      if NeedsNoLock(a) && Enabled(world, a) {
        Step(a, NotAPipe);
      }
    }

    /** The pipe takes up to k + 1 bytes of the request. */
    method Push(k: nat)
      requires Valid() && world.lock.Held? && world.lock.op.Writing? && Unsent(world) > 0
      modifies this`broken, this`adopted, this`world, this`trace
      ensures Valid() && old(trace) <= trace
      ensures world == Sent(old(world), Least(k, Unsent(old(world))))
    {
      var left := |EncReq(Newest(world))| - world.put;
      Step(Write(world.lock.tid, if k < left then k + 1 else left), Transport);
    }

    /** `sendall` of the request being written. */
    method SendAll(ghost t: Tid) returns (r: Moved)
      requires Valid() && HoldsAt(world, t) && world.lock.op.Writing?
      requires world.issued != [] && world.put <= |EncReq(Newest(world))|
      modifies this`broken, this`adopted, this`world, this`trace, this`script
      ensures Valid() && old(trace) <= trace
      ensures WritingOn(old(world), world)
      ensures r.Chunk? ==> world.put == |EncReq(Newest(world))|
      ensures WriteFate(Unlocked(old(world)), old(script)) ==
                if r.Chunk? then ReadFate(Unlocked(world), [], script) else FailsWith(Reason(r))
    {
      ghost var start, fate := world, WriteFate(Unlocked(world), script);
      while true
        invariant Valid() && old(trace) <= trace
        invariant fate == WriteFate(Unlocked(world), script)
        invariant WritingOn(start, world)
        decreases |script|
      {
        if world.put == |EncReq(Newest(world))| {
          return Chunk([]);
        }
        if script == [] {
          return TimeoutError;
        }
        WriteFateStep(world, script);
        var e := script[0];
        script := script[1..];
        if e.Expire? || e.Break? {
          return if e.Expire? then TimeoutError else OsError;
        }
        WroteTurn(start, world, e);
        WriteEvent(e);
      }
    }

    /** The pipe takes some of the request, or others have their turn. */
    method WriteEvent(e: Event)
      requires Valid() && world.lock.Held? && world.lock.op.Writing? && Unsent(world) > 0 && (e.Other? || e.Move?)
      modifies this`broken, this`adopted, this`world, this`trace
      ensures Valid() && old(trace) <= trace && WriteTurn(old(world), e) == On(world, [])
    {
      match e
      case Other(a) => Interfere(a);
      case Move(k) => Push(k);
    }

    /** The pipe hands over up to k + 1 bytes of a reply, n at most. */
    method Pull(t: Tid, k: nat, n: nat) returns (bytes: Bytes)
      requires Valid() && HoldsAt(world, t) && world.lock.op.Reading?
      requires 0 < n == REPLY_LEN - |world.lock.op.got| && Avail(world) != []
      modifies this`broken, this`adopted, this`world, this`trace
      ensures Valid() && old(trace) <= trace
      ensures 0 < |bytes| <= n && |bytes| == Least(k, Least(n - 1, |Avail(old(world))|)) && bytes == Avail(old(world))[..|bytes|]
      ensures world == GotMore(old(world), t, bytes)
    {
      var here := Avail(world);
      var m := if k + 1 <= n && k + 1 <= |here| then k + 1 else if n <= |here| then n else |here|;
      bytes := here[..m];
      Step(Action.Recv(t, m), Transport);
    }

    /** `recv(n)`: some bytes, none when the broker closed, or an error. */
    method Recv(t: Tid, n: nat) returns (r: Moved)
      requires Valid() && HoldsAt(world, t) && world.lock.op.Reading? && 0 < n == REPLY_LEN - |world.lock.op.got|
      modifies this`broken, this`adopted, this`world, this`trace, this`script
      ensures Valid() && old(trace) <= trace
      ensures ReadMore(old(world), world, t, if r.Chunk? then r.bytes else [])
      ensures r.Chunk? ==> |r.bytes| <= n
      ensures r == Chunk([]) ==> world.shut && Avail(world) == []
      ensures var got := old(world).lock.op.got;
        ReadFate(Unlocked(old(world)), got, old(script)) ==
          if r.Chunk? && r.bytes != [] then ReadFate(Unlocked(world), got + r.bytes, script)
          else FailsWith(Reason(r))
    {
      ghost var start, got := world, world.lock.op.got;
      var k, stop := Await(got);
      if k.None? {
        NothingRead(start, world, t);
        return stop;
      }
      ghost var mid := world;
      var bytes := Pull(t, k.value, n);
      PulledMore(start, mid, t, k.value, bytes);
      r := Chunk(bytes);
    }

    /** Wait until bytes can be read, so many less one, or something stops the read. */
    method Await(ghost got: Bytes) returns (k: Option<nat>, stop: Moved)
      requires Valid() && |got| < 6
      modifies this`broken, this`adopted, this`world, this`trace, this`script
      ensures Valid() && old(trace) <= trace && Meanwhile(old(world), world)
      ensures k.None? ==> ReadFate(Unlocked(old(world)), got, old(script)) == FailsWith(Reason(stop))
      ensures k.None? && stop.Chunk? ==> stop == Chunk([]) && world.shut && Avail(world) == []
      ensures k.Some? ==>
                && Avail(world) != []
                && var turn := ReadTurn(world, got, Move(k.value));
                   turn.On? && ReadFate(Unlocked(old(world)), got, old(script)) == ReadFate(Unlocked(turn.s), turn.got, script)
    {
      ghost var start, fate := world, ReadFate(Unlocked(world), got, script);
      while script != []
        invariant Valid() && old(trace) <= trace && Meanwhile(start, world)
        invariant fate == ReadFate(Unlocked(world), got, script)
        decreases |script|
      {
        ReadFateStep(world, got, script);
        var e := script[0];
        script := script[1..];
        match e
        case Other(a) =>
          MeanwhileOther(start, world, a);
          Interfere(a);
        case Move(n) =>
          if Avail(world) != [] {
            return Some(n), TimeoutError;
          } else if world.shut {
            return None, Chunk([]);
          }
        case Expire => return None, TimeoutError;
        case Break => return None, OsError;
      }
      k, stop := None, TimeoutError;
    }

    /** Leave a request that failed on the transport. */
    method GiveUp(t: Tid, failure: Moved) returns (r: Result<nat, EgressError>)
      requires Valid() && !failure.Chunk?
      requires Enabled(world, Fail(t, TimedOut))
      modifies this`broken, this`adopted, this`world, this`trace
      ensures Valid() && old(trace) <= trace && broken.Some?
      ensures Ended(old(world), world, t, false, r)
      ensures r == Err(Protocol(Reason(failure))) && broken == Some(Reason(failure))
    {
      var why := if failure.TimeoutError? then TimedOut else Transport;
      Step(Fail(t, why), why);
      r := Err(Protocol(why));
    }

    /** The body of `request` once the channel is adopted and found in service. */
    method Exchange(t: Tid) returns (r: Result<nat, EgressError>, ghost answered: bool)
      requires Valid() && HoldsAt(world, t) && world.lock.op.Writing?
      requires world.issued != [] && world.put <= |EncReq(Newest(world))|
      modifies this`broken, this`adopted, this`world, this`trace, this`script
      ensures Valid() && old(trace) <= trace
      ensures Ended(old(world), world, t, answered, r) && (!answered ==> broken.Some?)
      ensures Meets(WriteFate(Unlocked(old(world)), old(script)), answered, r, broken)
    {
      ghost var start := world;
      var sent := SendAll(t);
      ghost var written := world;
      if !sent.Chunk? {
        answered := false;
        r := GiveUp(t, sent);
        EndedSince(start, written, world, t, answered, r);
        return;
      }
      Step(Wrote(t), Transport);
      ghost var reading := world;
      assert Unlocked(reading) == Unlocked(written);
      r, answered := ReadReply(t);
      EndedSince(start, reading, world, t, answered, r);
    }

    /** The reading loop, and what is made of the reply. */
    method ReadReply(t: Tid) returns (r: Result<nat, EgressError>, ghost answered: bool)
      requires Valid() && world.lock == Held(t, Reading([])) && world.issued != []
      modifies this`broken, this`adopted, this`world, this`trace, this`script
      ensures Valid() && old(trace) <= trace
      ensures Ended(old(world), world, t, answered, r) && (!answered ==> broken.Some?)
      ensures Meets(ReadFate(Unlocked(old(world)), [], old(script)), answered, r, broken)
    {
      answered := false;
      var reply: Bytes := [];
      ghost var start, fate := world, ReadFate(Unlocked(world), [], script);
      while |reply| < REPLY_LEN
        invariant Valid() && old(trace) <= trace && !answered
        invariant HasRead(start, world, t, reply)
        invariant fate == ReadFate(Unlocked(world), reply, script)
        decreases REPLY_LEN - |reply|
      {
        ghost var mid := world;
        var chunk := Recv(t, REPLY_LEN - |reply|);
        if !chunk.Chunk? {
          HasReadMore(start, mid, world, t, reply, []);
          r := GiveUp(t, chunk);
          return;
        }
        HasReadMore(start, mid, world, t, reply, chunk.bytes);
        if chunk.bytes == [] {
          Step(SawEof(t), ChannelClosed);
          r := Err(Protocol(ChannelClosed));
          return;
        }
        reply := reply + chunk.bytes;
      }
      answered := true;
      r := Judge(t, reply);
    }

    /** A whole reply was read. */
    method Judge(t: Tid, reply: Bytes) returns (r: Result<nat, EgressError>)
      requires Valid() && world.lock == Held(t, Reading(reply)) && |reply| == REPLY_LEN && world.issued != []
      modifies this`broken, this`adopted, this`world, this`trace
      ensures Valid() && old(trace) <= trace
      ensures Ended(old(world), world, t, true, r) && r == ParseReply(reply)
      ensures broken.Some? <==> old(broken).Some? || (r.Err? && !IsRefusal(reply))
    {
      r := ParseReply(reply);
      Step(Finish(t), if r.Err? && r.error.Protocol? then r.error.why else Transport);
    }

    /** Taking the lock, and looking whether the channel is in service and the placed handle a pipe. */
    method Enter(t: Tid, req: Request, isPipe: bool) returns (refused: Option<EgressError>)
      requires Valid() && world.lock.Free? && t !in world.vended
      modifies this`broken, this`adopted, this`world, this`trace
      ensures Valid() && old(trace) <= trace && broken == old(broken)
      ensures refused == if old(broken).Some? then Some(Protocol(Retired)) else if !old(adopted) && !isPipe then Some(Config) else None
      ensures refused.None? ==> world == Opened(old(world), req).(lock := Held(t, Writing))
      ensures refused.Some? ==> world == old(world).(log := old(world).log + [Entry(t, req, None, false, Err(refused.value))])
    {
      Step(Acquire(t, req), Transport);
      refused := if broken.Some? then Some(Protocol(Retired)) else if !adopted && !isPipe then Some(Config) else None;
      Step(Check(t, isPipe), Transport);
    }

    /**
     * `request`: the handle the broker vended, or the error raised. The lock is free when the
     * call gets to it; `isPipe` is what adopting the placed handle would find.
     */
    method Request(t: Tid, host: string, port: int, pid: nat, idna: string -> Option<Bytes>, isPipe: bool)
      returns (r: Result<nat, EgressError>)
      requires Valid() && world.lock.Free? && t !in world.vended && pid < 0x1_0000_0000
      modifies this
      ensures Valid() && old(trace) <= trace && world.lock.Free?
      ensures MuxRequest(host, port, pid, idna).Err? ==>
                r == Err(MuxRequest(host, port, pid, idna).error) && world == old(world) && broken == old(broken)
      ensures MuxRequest(host, port, pid, idna).Ok? ==>
                && |world.log| == |old(world).log| + 1
                && var e := world.log[|old(world).log|];
                   && e.tid == t && e.req == MuxRequest(host, port, pid, idna).value && e.outcome == r
                   && (e.slot.None? ==> world.wire == old(world).wire && broken == old(broken))
                   && (e.slot.Some? && !e.answered ==> broken.Some?)
                   && (old(broken).Some? ==> e.slot.None? && r == Err(Protocol(Retired)))
      ensures MuxRequest(host, port, pid, idna).Ok? ==>
                Turns(old(world), old(script), MuxRequest(host, port, pid, idna).value, isPipe,
                      world.log[|old(world).log|].answered, r, broken)
      ensures r.Ok? ==> t in world.vended && world.vended[t] == r.value
      ensures r != Err(Protocol(NotAPipe))
    {
      var req := MuxRequest(host, port, pid, idna);
      if req.Err? {
        return Err(req.error);
      }
      var refused := Enter(t, req.value, isPipe);
      if refused.Some? {
        return Err(refused.value);
      }
      WriteFails(Unlocked(world), script);
      ghost var answered;
      r, answered := Exchange(t);
    }

    /** `_PlacedBroker.connect`: a vended handle that is no pipe retires the channel. */
    method Connect(t: Tid, host: string, port: int, pid: nat, idna: string -> Option<Bytes>, isPipe: bool, vendedIsPipe: bool)
      returns (r: Result<nat, EgressError>)
      requires Valid() && world.lock.Free? && t !in world.vended && pid < 0x1_0000_0000
      modifies this
      ensures Valid() && old(trace) <= trace && world.lock.Free?
      ensures r.Ok? ==>
                && vendedIsPipe && world.log != []
                && var e := world.log[|world.log| - 1];
                   && e.tid == t && e.outcome == r && MuxRequest(host, port, pid, idna) == Ok(e.req)
                   && e.slot.Some? && e.slot.value < |Requests(world.wire)| && e.slot.value < |world.replies|
                   && Requests(world.wire)[e.slot.value] == e.req
                   && world.replies[e.slot.value] == EncVerdict(Vend(r.value))
      ensures r == Err(Protocol(NotAPipe)) <==>
                !vendedIsPipe && MuxRequest(host, port, pid, idna).Ok? && world.log != []
                && world.log[|world.log| - 1].outcome.Ok? && |world.log| > |old(world).log|
      ensures r == Err(Protocol(NotAPipe)) ==> broken == Some(NotAPipe)
      // a valid request comes to what its fate says, the handle being a pipe
      ensures MuxRequest(host, port, pid, idna).Err? ==> r == Err(MuxRequest(host, port, pid, idna).error)
      ensures MuxRequest(host, port, pid, idna).Ok? && r != Err(Protocol(NotAPipe)) ==>
                |world.log| == |old(world).log| + 1
                && Turns(old(world), old(script), MuxRequest(host, port, pid, idna).value, isPipe,
                         world.log[|old(world).log|].answered, r, broken)
      ensures old(broken).Some? ==> r.Err? && world.wire == old(world).wire
    {
      var vended := Request(t, host, port, pid, idna, isPipe);
      if vended.Err? {
        return vended;
      }
      HandlesAreVended(trace, |world.log| - 1);
      Step(AdoptVended(t, vendedIsPipe), NotAPipe);
      r := if vendedIsPipe then vended else Err(Protocol(NotAPipe));
    }
  }

  /** The state in which a request begins to be written, but for the lock. */
  function Opened(s: State, req: Request): State {
    s.(adopted := true, issued := s.issued + [req], put := 0)
  }

  /** How a valid request ends: turned away, refused for the placed handle, or as its fate says. */
  ghost predicate Turns(s: State, script: seq<Event>, req: Request, isPipe: bool,
                        answered: bool, r: Result<nat, EgressError>, broken: Option<Why>) {
    if s.broken then !answered && r == Err(Protocol(Retired))
    else if !s.adopted && !isPipe then !answered && r == Err(Config)
    else Meets(WriteFate(Unlocked(Opened(s, req)), script), answered, r, broken)
  }

  /** What can change while the lock holder waits: only what needs no lock. */
  ghost predicate Meanwhile(s: State, w: State) {
    && w == s.(broken := w.broken, vended := w.vended, replies := w.replies, shut := w.shut)
    && (s.broken ==> w.broken) && (s.shut ==> w.shut)
  }

  lemma EndedSince(s: State, m: State, w: State, t: Tid, answered: bool, r: Result<nat, EgressError>)
    requires m.issued == s.issued && m.log == s.log && Ended(m, w, t, answered, r)
    ensures Ended(s, w, t, answered, r)
  {
  }

  /** Others had their turns while bytes of the newest request went out. */
  ghost predicate WritingOn(s: State, w: State) {
    && Meanwhile(s.(wire := w.wire, put := w.put), w)
    && w.issued != [] && w.put <= |EncReq(Newest(w))|
  }

  lemma MeanwhileOther(s: State, w: State, a: Action)
    requires Meanwhile(s, w)
    ensures Meanwhile(s, Others(w, a))
  {
  }

  lemma WroteOther(s: State, w: State, a: Action)
    requires WritingOn(s, w)
    ensures WritingOn(s, Others(w, a))
  {
    MeanwhileOther(s.(wire := w.wire, put := w.put), w, a);
  }

  lemma WroteMore(s: State, w: State, m: nat)
    requires WritingOn(s, w)
    ensures WritingOn(s, Sent(w, m))
  {
  }

  lemma WroteTurn(s: State, w: State, e: Event)
    requires WritingOn(s, w)
    ensures var turn := WriteTurn(w, e); turn.On? ==> WritingOn(s, turn.s)
  {
    match e
    case Other(a) => WroteOther(s, w, a);
    case Move(k) => WroteMore(s, w, Least(k, Unsent(w)));
    case _ =>
  }

  /** The state in which those bytes are the newest of a reply. */
  function GotMore(s: State, t: Tid, bytes: Bytes): State
    requires s.lock.Held? && s.lock.op.Reading?
  {
    s.(lock := Held(t, Reading(s.lock.op.got + bytes)), consumed := s.consumed + |bytes|)
  }

  /** Others had their turns while these bytes of the newest reply were read. */
  ghost predicate ReadMore(s: State, w: State, t: Tid, bytes: Bytes)
    requires s.lock.Held? && s.lock.op.Reading?
  {
    Meanwhile(s.(lock := w.lock, consumed := w.consumed), w) && w.lock == Held(t, Reading(s.lock.op.got + bytes))
  }

  lemma NothingRead(s: State, w: State, t: Tid)
    requires Meanwhile(s, w) && HoldsAt(s, t) && s.lock.op.Reading?
    ensures ReadMore(s, w, t, [])
  {
    assert s.lock.op.got + [] == s.lock.op.got;
  }

  /** A request in flight has so many bytes of its reply. */
  ghost predicate HasRead(s: State, w: State, t: Tid, reply: Bytes) {
    Engaged(s, w) && w.lock == Held(t, Reading(reply)) && |reply| <= REPLY_LEN
  }

  lemma HasReadMore(s: State, m: State, w: State, t: Tid, reply: Bytes, bytes: Bytes)
    requires HasRead(s, m, t, reply) && |reply + bytes| <= REPLY_LEN && ReadMore(m, w, t, bytes)
    ensures HasRead(s, w, t, reply + bytes)
  {
  }

  lemma PulledMore(s: State, w: State, t: Tid, k: nat, bytes: Bytes)
    requires Meanwhile(s, w) && w.lock.Held? && w.lock.op.Reading? && |w.lock.op.got| < 6 && Avail(w) != []
    requires |bytes| == Least(k, Least(5 - |w.lock.op.got|, |Avail(w)|)) <= |Avail(w)| && bytes == Avail(w)[..|bytes|]
    ensures var x, turn := GotMore(w, t, bytes), ReadTurn(w, w.lock.op.got, Move(k));
      && ReadMore(s, x, t, bytes)
      && turn.On? && Unlocked(turn.s) == Unlocked(x) && turn.got == w.lock.op.got + bytes
  {
  }

  /** What a request in flight has not touched yet. */
  ghost predicate Engaged(s: State, w: State) {
    w.issued == s.issued && w.log == s.log && w.issued != []
  }

  /** The newest request of `s` has ended with `r`: it is the next log entry, and the lock is free. */
  ghost predicate Ended(s: State, w: State, t: Tid, answered: bool, r: Result<nat, EgressError>) {
    && w.lock.Free? && s.issued != []
    && w.log == s.log + [Entry(t, Newest(s), Some(|s.issued| - 1), answered, r)]
    && (r.Ok? ==> t in w.vended && w.vended[t] == r.value)
  }
}
