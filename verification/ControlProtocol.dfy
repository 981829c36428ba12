/**
 * The placed control channel as a machine: threads that take one lock, write a request,
 * read a six-byte reply and leave, against a broker that answers in order but may be late,
 * short or closing. Requests carry no ids, so a reply belongs to a request only by position.
 */
module ControlProtocol {
  import opened Bytes
  import opened Wrappers
  import opened Egress
  import opened Mux

  type Tid = nat

  /** What the thread inside `request` is doing. */
  datatype Op =
    | Entered(req: Request)   // holds the lock, has not looked at the retired flag
    | Writing                 // in sendall
    | Reading(got: Bytes)     // in the receive loop

  datatype Lock = Free | Held(tid: Tid, op: Op)

  /** One finished call of `request`: `answered` when its outcome was parsed from a whole reply. */
  datatype Entry = Entry(tid: Tid, req: Request, slot: Option<nat>, answered: bool, outcome: Result<nat, EgressError>)

  datatype State = State(
    broken: bool,               // the channel is retired
    adopted: bool,              // the placed handle was checked to be a pipe
    lock: Lock,
    vended: map<Tid, nat>,      // handles returned by request, not yet checked by connect
    issued: seq<Request>,       // requests whose writing began, in order
    put: nat,                   // bytes of the newest one that were written
    wire: Bytes,                // every byte written to the broker
    replies: seq<Bytes>,        // the broker's answers so far, in order
    shut: bool,                 // the broker closed its end
    consumed: nat,              // reply bytes the client has read
    log: seq<Entry>)

  const START := State(false, false, Free, map[], [], 0, [], [], false, 0, [])

  datatype Action =
    | Acquire(tid: Tid, req: Request)
    | Check(tid: Tid, isPipe: bool)     // look at the flag, adopt the placed handle if need be
    | Write(tid: Tid, k: nat)
    | Wrote(tid: Tid)
    | Recv(tid: Tid, k: nat)
    | Finish(tid: Tid)                  // six bytes are in
    | SawEof(tid: Tid)
    | Fail(tid: Tid, why: Why)          // time-out or transport error
    | AdoptVended(tid: Tid, isPipe: bool)  // connect checks the vended handle, outside the lock
    | Begin                             // the broker starts its next answer
    | Emit(b: Byte)
    | Shut

  function Flat(rs: seq<Bytes>): Bytes {
    if rs == [] then [] else rs[0] + Flat(rs[1..])
  }

  predicate HoldsAt(s: State, t: Tid) {
    s.lock.Held? && s.lock.tid == t
  }

  predicate InFlight(s: State) {
    s.lock.Held? && !s.lock.op.Entered?
  }

  function Avail(s: State): Bytes {
    if s.consumed <= |Flat(s.replies)| then Flat(s.replies)[s.consumed..] else []
  }

  predicate Enabled(s: State, a: Action) {
    match a
    case Acquire(t, _) => s.lock.Free? && t !in s.vended
    case Check(t, _) => HoldsAt(s, t) && s.lock.op.Entered?
    case Write(t, k) =>
      HoldsAt(s, t) && s.lock.op.Writing? && s.issued != [] && s.put + k <= |EncReq(Newest(s))|
    case Wrote(t) =>
      HoldsAt(s, t) && s.lock.op.Writing? && s.issued != [] && s.put == |EncReq(Newest(s))|
    case Recv(t, k) =>
      HoldsAt(s, t) && s.lock.op.Reading? && 0 < k <= |Avail(s)| && |s.lock.op.got| + k <= REPLY_LEN
    case Finish(t) => HoldsAt(s, t) && s.lock.op.Reading? && s.issued != [] && |s.lock.op.got| == REPLY_LEN
    case SawEof(t) =>
      HoldsAt(s, t) && s.lock.op.Reading? && s.issued != [] && |s.lock.op.got| < REPLY_LEN && s.shut && Avail(s) == []
    case Fail(t, _) =>
      HoldsAt(s, t) && s.issued != [] && (s.lock.op.Writing? || (s.lock.op.Reading? && |s.lock.op.got| < REPLY_LEN))
    case AdoptVended(t, _) => t in s.vended
    case Begin => !s.shut && |s.replies| < |Requests(s.wire)|
    case Emit(_) => !s.shut && s.replies != [] && |s.replies[|s.replies| - 1]| < REPLY_LEN
    case Shut => true
  }

  function Newest(s: State): Request
    requires s.issued != []
  {
    s.issued[|s.issued| - 1]
  }

  /** Leave the lock with an outcome for the request in flight. */
  function Leave(s: State, answered: bool, outcome: Result<nat, EgressError>, retire: bool): State
    requires s.lock.Held? && s.issued != []
  {
    var e := Entry(s.lock.tid, Newest(s), Some(|s.issued| - 1), answered, outcome);
    s.(lock := Free, log := s.log + [e], broken := s.broken || retire,
       vended := if outcome.Ok? then s.vended[s.lock.tid := outcome.value] else s.vended)
  }

  function Apply(s: State, a: Action): State
    requires Enabled(s, a)
  {
    match a
    case Acquire(t, req) => s.(lock := Held(t, Entered(req)))
    case Check(t, isPipe) =>
      var req := s.lock.op.req;
      if s.broken then s.(lock := Free, log := s.log + [Entry(t, req, None, false, Err(Protocol(Retired)))])
      else if !s.adopted && !isPipe then s.(lock := Free, log := s.log + [Entry(t, req, None, false, Err(Config))])
      else s.(adopted := true, lock := Held(t, Writing), issued := s.issued + [req], put := 0)
    case Write(t, k) =>
      s.(wire := s.wire + EncReq(Newest(s))[s.put..s.put + k], put := s.put + k)
    case Wrote(t) => s.(lock := Held(t, Reading([])))
    case Recv(t, k) => s.(lock := Held(t, Reading(s.lock.op.got + Avail(s)[..k])), consumed := s.consumed + k)
    case Finish(t) =>
      var reply := s.lock.op.got;
      var r := ParseReply(reply);
      Leave(s, true, r, r.Err? && !IsRefusal(reply))
    case SawEof(t) => Leave(s, false, Err(Protocol(ChannelClosed)), true)
    case Fail(t, why) => Leave(s, false, Err(Protocol(why)), true)
    case AdoptVended(t, isPipe) => s.(vended := s.vended - {t}, broken := s.broken || !isPipe)
    case Begin => s.(replies := s.replies + [[]])
    case Emit(b) =>
      var n := |s.replies| - 1;
      s.(replies := s.replies[n := s.replies[n] + [b]])
    case Shut => s.(shut := true)
  }

  /** The steps after which the channel is retired, whatever it was. */
  predicate Retires(s: State, a: Action)
    requires Enabled(s, a)
  {
    match a
    case Finish(_) => ParseReply(s.lock.op.got).Err? && !IsRefusal(s.lock.op.got)
    case SawEof(_) => true
    case Fail(_, _) => true
    case AdoptVended(_, isPipe) => !isPipe
    case _ => false
  }

  ghost predicate Legal(s: State, acts: seq<Action>)
    decreases |acts|
  {
    acts == [] || (Enabled(s, acts[0]) && Legal(Apply(s, acts[0]), acts[1..]))
  }

  ghost function Run(s: State, acts: seq<Action>): State
    requires Legal(s, acts)
    decreases |acts|
  {
    if acts == [] then s else Run(Apply(s, acts[0]), acts[1..])
  }

  // ---- the invariant ----------------------------------------------------------

  /** The bytes written: every issued request whole, the newest up to `put`. */
  ghost predicate WireOk(s: State) {
    if s.issued == [] then s.wire == [] && s.put == 0
    else
      && s.put <= |EncReq(Newest(s))|
      && s.wire == EncReqs(s.issued[..|s.issued| - 1]) + EncReq(Newest(s))[..s.put]
  }

  predicate Whole(rs: seq<Bytes>, n: nat) {
    n <= |rs| && forall i | 0 <= i < n :: |rs[i]| == REPLY_LEN
  }

  ghost predicate BrokerOk(s: State) {
    && |s.replies| <= |Requests(s.wire)|
    && (forall i | 0 <= i < |s.replies| :: |s.replies[i]| <= REPLY_LEN)
    && s.consumed <= |Flat(s.replies)|
  }

  /** Nobody is owed anything: all requests are whole and all their replies read. */
  ghost predicate Settled(s: State) {
    && (s.issued != [] ==> s.put == |EncReq(Newest(s))|)
    && |s.replies| == |s.issued| && Whole(s.replies, |s.issued|)
    && s.consumed == REPLY_LEN * |s.issued|
  }

  /** Exactly the newest request is open, and what was read of its reply is in `got`. */
  ghost predicate OneOpen(s: State)
    requires InFlight(s)
  {
    var n := |s.issued| - 1;
    && s.issued != [] && Whole(s.replies, n)
    && match s.lock.op
       case Reading(got) =>
         && s.put == |EncReq(Newest(s))|
         && |got| <= REPLY_LEN && s.consumed == REPLY_LEN * n + |got| <= |Flat(s.replies)|
         && got == Flat(s.replies)[REPLY_LEN * n..s.consumed]
       case _ => s.consumed == REPLY_LEN * n
  }

  /** In step: holds while a request is in flight, and whenever the channel is not retired. */
  ghost predicate InStep(s: State) {
    if InFlight(s) then OneOpen(s) else s.broken || Settled(s)
  }

  ghost predicate EntryOk(s: State, e: Entry) {
    && (e.outcome.Ok? ==> e.answered)
    && (e.answered ==> e.slot.Some?)
    && (e.slot.Some? ==> e.slot.value < |s.issued| && s.issued[e.slot.value] == e.req)
    && (e.answered ==>
          && e.slot.value < |s.replies| && |s.replies[e.slot.value]| == REPLY_LEN
          && e.outcome == ParseReply(s.replies[e.slot.value]))
    && (e.answered && InFlight(s) ==> e.slot.value < |s.issued| - 1)
  }

  ghost predicate LogOk(s: State) {
    && (forall i | 0 <= i < |s.log| :: EntryOk(s, s.log[i]))
    && (forall i, j | 0 <= i < j < |s.log| && s.log[i].answered && s.log[j].answered ::
          s.log[i].slot.value < s.log[j].slot.value)
  }

  ghost predicate Inv(s: State) {
    WireOk(s) && BrokerOk(s) && InStep(s) && LogOk(s)
  }

  // ---- lemmas about reply bytes -----------------------------------------------

  lemma {:induction false} FlatAppend(a: seq<Bytes>, b: seq<Bytes>)
    ensures Flat(a + b) == Flat(a) + Flat(b)
  {
    if a == [] {
      assert a + b == b;
    } else {
      FlatAppend(a[1..], b);
      assert (a + b)[1..] == a[1..] + b;
      Assoc(a[0], Flat(a[1..]), Flat(b));
    }
  }

  lemma {:induction false} WholeLength(rs: seq<Bytes>, n: nat)
    requires Whole(rs, n)
    ensures |Flat(rs[..n])| == REPLY_LEN * n
  {
    if n > 0 {
      WholeLength(rs, n - 1);
      assert rs[..n] == rs[..n - 1] + [rs[n - 1]];
      FlatAppend(rs[..n - 1], [rs[n - 1]]);
    }
  }

  /** With n whole replies before it, the next one starts at byte 6n. */
  lemma FlatFrom(rs: seq<Bytes>, n: nat)
    requires Whole(rs, n)
    ensures |Flat(rs)| >= REPLY_LEN * n
    ensures Flat(rs)[REPLY_LEN * n..] == Flat(rs[n..])
  {
    WholeLength(rs, n);
    assert rs == rs[..n] + rs[n..];
    FlatAppend(rs[..n], rs[n..]);
    SplitAt(Flat(rs[..n]), Flat(rs[n..]), Flat(rs));
  }

  lemma BeginFlat(rs: seq<Bytes>)
    ensures Flat(rs + [[]]) == Flat(rs)
  {
    FlatAppend(rs, [[]]);
    assert Flat([[]]) == [] + Flat([]);
  }

  lemma EmitFlat(rs: seq<Bytes>, b: Byte)
    requires rs != []
    ensures Flat(rs[|rs| - 1 := rs[|rs| - 1] + [b]]) == Flat(rs) + [b]
  {
    var n := |rs| - 1;
    var front, last := rs[..n], rs[n];
    assert rs == front + [last];
    assert rs[n := last + [b]] == front + [last + [b]];
    FlatAppend(front, [last]);
    FlatAppend(front, [last + [b]]);
    assert Flat([last]) == last + [] == last;
    assert Flat([last + [b]]) == (last + [b]) + [] == last + [b];
    Assoc(Flat(front), last, [b]);
  }

  /** With the newest request whole, the wire is the issued requests and nothing else. */
  lemma WireWhole(s: State)
    requires WireOk(s) && (s.issued != [] ==> s.put == |EncReq(Newest(s))|)
    ensures s.wire == EncReqs(s.issued)
  {
    if s.issued != [] {
      var front, r := s.issued[..|s.issued| - 1], Newest(s);
      assert s.issued == front + [r];
      EncReqsAppend(front, [r]);
      assert EncReqs([r]) == EncReq(r) + EncReqs([]) == EncReq(r);
      assert EncReq(r)[..s.put] == EncReq(r);
    }
  }

  /** What the broker has parsed: all issued requests, or all but an unfinished newest one. */
  lemma Heard(s: State)
    requires WireOk(s)
    ensures Requests(s.wire) ==
            if s.issued == [] || s.put == |EncReq(Newest(s))| then s.issued else s.issued[..|s.issued| - 1]
  {
    if s.issued == [] || s.put == |EncReq(Newest(s))| {
      WireWhole(s);
      assert s.wire == EncReqs(s.issued) + [];
      RequestsUnique(s.issued, []);
    } else {
      PrefixIsPartial(Newest(s), s.put);
      RequestsUnique(s.issued[..|s.issued| - 1], EncReq(Newest(s))[..s.put]);
    }
  }

  /** Six bytes read in step are the broker's whole reply to the newest request. */
  lemma GotIsReply(s: State)
    requires Inv(s) && InFlight(s) && s.lock.op.Reading? && |s.lock.op.got| == REPLY_LEN
    ensures |s.replies| == |s.issued| && Whole(s.replies, |s.issued|)
    ensures s.replies[|s.issued| - 1] == s.lock.op.got
  {
    var n := |s.issued| - 1;
    Heard(s);
    FlatFrom(s.replies, n);
    var tail := s.replies[n..];
    assert |Flat(tail)| >= REPLY_LEN;
    assert tail == [s.replies[n]];
    assert Flat(tail) == s.replies[n] + [] == s.replies[n];
    assert s.lock.op.got == Flat(s.replies)[REPLY_LEN * n..][..REPLY_LEN];
  }

  // ---- every step keeps the invariant -------------------------------------------

  /** The log stays good while issued requests and whole replies are only added to. */
  lemma LogFrame(s: State, w: State)
    requires LogOk(s) && w.log == s.log
    requires s.issued <= w.issued && |s.replies| <= |w.replies|
    requires forall i | 0 <= i < |s.replies| && |s.replies[i]| == REPLY_LEN :: w.replies[i] == s.replies[i]
    requires InFlight(w) ==> (InFlight(s) && w.issued == s.issued) || |s.issued| < |w.issued|
    ensures LogOk(w)
  {
    forall i | 0 <= i < |w.log|
      ensures EntryOk(w, w.log[i])
    {
      assert EntryOk(s, s.log[i]);
    }
  }

  /** An entry that used no reply may join the log. */
  lemma LogUnanswered(s: State, e: Entry, w: State)
    requires LogOk(s) && w.log == s.log + [e] && w.issued == s.issued && w.replies == s.replies && !InFlight(w)
    requires !e.answered && e.outcome.Err?
    requires e.slot.Some? ==> e.slot.value < |s.issued| && s.issued[e.slot.value] == e.req
    ensures LogOk(w)
  {
    LogFrame(s, w.(log := s.log));
    forall i | 0 <= i < |w.log|
      ensures EntryOk(w, w.log[i])
    {
      if i < |s.log| {
        assert EntryOk(s, s.log[i]);
      }
    }
  }

  lemma CheckKeeps(s: State, t: Tid, isPipe: bool)
    requires Inv(s) && Enabled(s, Check(t, isPipe))
    ensures Inv(Apply(s, Check(t, isPipe)))
  {
    if s.broken || (!s.adopted && !isPipe) {
      TurnedAwayKeeps(s, t, isPipe);
    } else {
      IssueKeeps(s, t, isPipe);
    }
  }

  lemma TurnedAwayKeeps(s: State, t: Tid, isPipe: bool)
    requires Inv(s) && Enabled(s, Check(t, isPipe)) && (s.broken || (!s.adopted && !isPipe))
    ensures Inv(Apply(s, Check(t, isPipe)))
  {
    var w := Apply(s, Check(t, isPipe));
    LogUnanswered(s, w.log[|s.log|], w);
  }

  lemma IssueKeeps(s: State, t: Tid, isPipe: bool)
    requires Inv(s) && Enabled(s, Check(t, isPipe)) && !(s.broken || (!s.adopted && !isPipe))
    ensures Inv(Apply(s, Check(t, isPipe)))
  {
    var w := Apply(s, Check(t, isPipe));
    IssueKeepsWire(s, w, s.lock.op.req);
    IssueOpens(s, w, t, s.lock.op.req);
    LogFrame(s, w);
  }

  lemma IssueOpens(s: State, w: State, t: Tid, r: Request)
    requires Settled(s) && w == s.(adopted := true, lock := Held(t, Writing), issued := s.issued + [r], put := 0)
    ensures InStep(w)
  {
  }

  lemma IssueKeepsWire(s: State, w: State, r: Request)
    requires WireOk(s) && (s.issued != [] ==> s.put == |EncReq(Newest(s))|)
    requires w.issued == s.issued + [r] && w.put == 0 && w.wire == s.wire
    ensures WireOk(w) && Requests(w.wire) == Requests(s.wire)
  {
    WireWhole(s);
    assert w.issued[..|w.issued| - 1] == s.issued;
    assert EncReq(r)[..0] == [];
  }

  lemma WriteKeeps(s: State, t: Tid, k: nat)
    requires Inv(s) && Enabled(s, Write(t, k))
    ensures Inv(Apply(s, Write(t, k)))
  {
    var w := Apply(s, Write(t, k));
    WriteKeepsWire(s, w, k);
    LogFrame(s, w);
  }

  lemma WriteKeepsWire(s: State, w: State, k: nat)
    requires WireOk(s) && s.issued != [] && s.put + k <= |EncReq(Newest(s))|
    requires w.issued == s.issued && w.put == s.put + k && w.wire == s.wire + EncReq(Newest(s))[s.put..s.put + k]
    ensures WireOk(w) && |Requests(s.wire)| <= |Requests(w.wire)|
  {
    var e := EncReq(Newest(s));
    assert e[..w.put] == e[..s.put] + e[s.put..w.put];
    Assoc(EncReqs(s.issued[..|s.issued| - 1]), e[..s.put], e[s.put..w.put]);
    Heard(s);
    Heard(w);
  }

  lemma Grow(f: Bytes, from: nat, c: nat, k: nat)
    requires from <= c && c + k <= |f|
    ensures f[from..c + k] == f[from..c] + f[c..][..k]
  {
  }

  lemma WroteKeeps(s: State, t: Tid)
    requires Inv(s) && Enabled(s, Wrote(t))
    ensures Inv(Apply(s, Wrote(t)))
  {
    FlatFrom(s.replies, |s.issued| - 1);
    LogFrame(s, Apply(s, Wrote(t)));
  }

  lemma RecvKeeps(s: State, t: Tid, k: nat)
    requires Inv(s) && Enabled(s, Recv(t, k))
    ensures Inv(Apply(s, Recv(t, k)))
  {
    var w := Apply(s, Recv(t, k));
    RecvReads(s, w, t, k);
    LogFrame(s, w);
  }

  lemma RecvReads(s: State, w: State, t: Tid, k: nat)
    requires InFlight(s) && OneOpen(s) && s.lock.op.Reading? && s.consumed + k <= |Flat(s.replies)|
    requires |s.lock.op.got| + k <= REPLY_LEN
    requires w == s.(lock := Held(t, Reading(s.lock.op.got + Flat(s.replies)[s.consumed..][..k])), consumed := s.consumed + k)
    ensures InStep(w)
  {
    Grow(Flat(s.replies), REPLY_LEN * (|s.issued| - 1), s.consumed, k);
  }

  lemma FinishKeeps(s: State, t: Tid)
    requires Inv(s) && Enabled(s, Finish(t))
    ensures Inv(Apply(s, Finish(t)))
  {
    GotIsReply(s);
    FinishKeepsLog(s, Apply(s, Finish(t)), t);
  }

  lemma FinishKeepsLog(s: State, w: State, t: Tid)
    requires LogOk(s) && InFlight(s) && s.issued != []
    requires |s.replies| == |s.issued| && |s.replies[|s.issued| - 1]| == REPLY_LEN
    requires var r := ParseReply(s.replies[|s.issued| - 1]);
      w.log == s.log + [Entry(t, Newest(s), Some(|s.issued| - 1), true, r)]
    requires w.issued == s.issued && w.replies == s.replies && !InFlight(w)
    ensures LogOk(w)
  {
    forall i | 0 <= i < |w.log|
      ensures EntryOk(w, w.log[i]) && (i < |s.log| && w.log[i].answered ==> w.log[i].slot.value < |s.issued| - 1)
    {
      if i < |s.log| {
        assert EntryOk(s, s.log[i]);
      }
    }
  }

  lemma GiveUpKeeps(s: State, a: Action)
    requires Inv(s) && Enabled(s, a) && (a.SawEof? || a.Fail?)
    ensures Inv(Apply(s, a))
  {
    var w := Apply(s, a);
    LogUnanswered(s, w.log[|s.log|], w);
  }

  lemma EmitKeeps(s: State, b: Byte)
    requires Inv(s) && Enabled(s, Emit(b))
    ensures Inv(Apply(s, Emit(b)))
  {
    EmitFlat(s.replies, b);
    BrokerKeeps(s, Apply(s, Emit(b)));
  }

  lemma BeginKeeps(s: State)
    requires Inv(s) && Enabled(s, Begin)
    ensures Inv(Apply(s, Begin))
  {
    BeginFlat(s.replies);
    Heard(s);
    BrokerKeeps(s, Apply(s, Begin));
  }

  /** The broker only adds bytes at the end of what it sent, and never touches a whole reply. */
  lemma BrokerKeeps(s: State, w: State)
    requires WireOk(s) && InStep(s) && LogOk(s)
    requires w == s.(replies := w.replies)
    requires Flat(s.replies) <= Flat(w.replies) && |s.replies| <= |w.replies|
    requires forall i | 0 <= i < |s.replies| && |s.replies[i]| == REPLY_LEN :: w.replies[i] == s.replies[i]
    requires !InFlight(s) && !s.broken ==> w.replies == s.replies || |w.replies| == |s.replies|
    ensures WireOk(w) && InStep(w) && LogOk(w)
  {
    LogFrame(s, w);
    if InFlight(s) {
      if s.lock.op.Reading? {
        var f, g, from := Flat(s.replies), Flat(w.replies), REPLY_LEN * (|s.issued| - 1);
        assert g[from..s.consumed] == f[from..s.consumed];
      }
    } else if !s.broken {
      assert forall i | 0 <= i < |s.replies| :: |s.replies[i]| == REPLY_LEN;
    }
  }

  /** Steps that move no byte and end no request. */
  lemma QuietKeeps(s: State, a: Action)
    requires Inv(s) && Enabled(s, a) && (a.Acquire? || a.AdoptVended? || a.Shut?)
    ensures Inv(Apply(s, a))
  {
    LogFrame(s, Apply(s, a));
  }

  lemma StepKeeps(s: State, a: Action)
    requires Inv(s) && Enabled(s, a)
    ensures Inv(Apply(s, a))
  {
    match a
    case Check(t, isPipe) => CheckKeeps(s, t, isPipe);
    case Write(t, k) => WriteKeeps(s, t, k);
    case Wrote(t) => WroteKeeps(s, t);
    case Recv(t, k) => RecvKeeps(s, t, k);
    case Finish(t) => FinishKeeps(s, t);
    case SawEof(_) => GiveUpKeeps(s, a);
    case Fail(_, _) => GiveUpKeeps(s, a);
    case Begin => BeginKeeps(s);
    case Emit(b) => EmitKeeps(s, b);
    case Acquire(_, _) => QuietKeeps(s, a);
    case AdoptVended(_, _) => QuietKeeps(s, a);
    case Shut => QuietKeeps(s, a);
  }

  lemma {:induction false} RunKeeps(s: State, acts: seq<Action>)
    requires Inv(s) && Legal(s, acts)
    ensures Inv(Run(s, acts))
    decreases |acts|
  {
    if acts != [] {
      StepKeeps(s, acts[0]);
      RunKeeps(Apply(s, acts[0]), acts[1..]);
    }
  }

  // ---- what holds of every run ----------------------------------------------------

  /**
   * The reply a caller acted on is the broker's whole reply to that caller's own request:
   * the request the broker itself parsed, at the same position, from the bytes on the wire.
   */
  lemma RepliesAreForTheirRequests(acts: seq<Action>, i: nat)
    requires Legal(START, acts)
    requires i < |Run(START, acts).log| && Run(START, acts).log[i].answered
    ensures var s := Run(START, acts); var e := s.log[i];
      && e.slot.Some? && e.slot.value < |Requests(s.wire)| && e.slot.value < |s.replies|
      && Requests(s.wire)[e.slot.value] == e.req
      && |s.replies[e.slot.value]| == REPLY_LEN
      && e.outcome == ParseReply(s.replies[e.slot.value])
  {
    RunKeeps(START, acts);
    var s := Run(START, acts);
    assert EntryOk(s, s.log[i]);
    Heard(s);
  }

  /** A handle is only ever taken from a vend the broker sent for that request, and no reply is used twice. */
  lemma HandlesAreVended(acts: seq<Action>, i: nat)
    requires Legal(START, acts)
    requires i < |Run(START, acts).log| && Run(START, acts).log[i].outcome.Ok?
    ensures var s := Run(START, acts); var e := s.log[i];
      && e.slot.Some? && e.slot.value < |Requests(s.wire)| && e.slot.value < |s.replies|
      && Requests(s.wire)[e.slot.value] == e.req
      && LegalVerdict(Vend(e.outcome.value)) && s.replies[e.slot.value] == EncVerdict(Vend(e.outcome.value))
    ensures forall j | 0 <= j < |Run(START, acts).log| && j != i && Run(START, acts).log[j].answered ::
      Run(START, acts).log[j].slot != Run(START, acts).log[i].slot
  {
    RunKeeps(START, acts);
    var s := Run(START, acts);
    assert EntryOk(s, s.log[i]);
    RepliesAreForTheirRequests(acts, i);
    AcceptsIff(s.replies[s.log[i].slot.value], s.log[i].outcome.value);
  }

  lemma SettledMeans(s: State)
    requires WireOk(s) && Settled(s)
    ensures Requests(s.wire) == s.issued && s.wire == EncReqs(s.issued)
    ensures s.consumed == |Flat(s.replies)|
  {
    Heard(s);
    WireWhole(s);
    WholeLength(s.replies, |s.issued|);
    assert s.replies[..|s.issued|] == s.replies;
  }

  /** Lock free and not retired: every request is whole on the wire and its whole reply was read. */
  lemma FreeMeansInStep(acts: seq<Action>)
    requires Legal(START, acts)
    requires Run(START, acts).lock.Free? && !Run(START, acts).broken
    ensures var s := Run(START, acts);
      && Requests(s.wire) == s.issued && s.wire == EncReqs(s.issued)
      && |s.replies| == |s.issued|
      && s.consumed == |Flat(s.replies)| == REPLY_LEN * |s.issued|
  {
    RunKeeps(START, acts);
    SettledMeans(Run(START, acts));
  }

  /** Bytes of a request already being written when the channel retires. */
  function Owed(s: State): nat {
    if s.lock.Held? && s.lock.op.Writing? && s.issued != [] && s.put <= |EncReq(Newest(s))|
    then |EncReq(Newest(s))| - s.put else 0
  }

  lemma RetiredStep(s: State, a: Action)
    requires s.broken && Enabled(s, a)
    ensures var t := Apply(s, a);
      && t.broken && t.issued == s.issued
      && |s.wire| <= |t.wire| && |t.wire| + Owed(t) <= |s.wire| + Owed(s)
  {
  }

  /**
   * Retirement is for good, and a retired channel never starts another request: all that can
   * still be written is the rest of one already in sendall.
   */
  lemma {:induction false} RetiredForGood(s: State, acts: seq<Action>)
    requires s.broken && Legal(s, acts)
    ensures Run(s, acts).broken
    ensures Run(s, acts).issued == s.issued
    ensures |s.wire| <= |Run(s, acts).wire| <= |s.wire| + Owed(s)
    decreases |acts|
  {
    if acts != [] {
      RetiredStep(s, acts[0]);
      RetiredForGood(Apply(s, acts[0]), acts[1..]);
    }
  }

  /** Calls that the log of s does not hold yet, the one in flight aside. */
  function Unbegun(s: State): nat {
    |s.log| + if InFlight(s) then 1 else 0
  }

  /** In every run on from retirement, every call that was not in flight yet ends turned away, without a slot on the wire. */
  lemma {:induction false} RetiredTurnsAway(s: State, acts: seq<Action>)
    requires s.broken && Legal(s, acts)
    ensures s.log <= Run(s, acts).log
    ensures forall i | Unbegun(s) <= i < |Run(s, acts).log| ::
              Run(s, acts).log[i].slot.None? && Run(s, acts).log[i].outcome == Err(Protocol(Retired))
    decreases |acts|
  {
    if acts != [] {
      RetiredTurnsAway(Apply(s, acts[0]), acts[1..]);
    }
  }

  /**
   * Which ends of a request keep the channel: a whole reply that encodes a legal verdict.
   * Everything else that ends a request in flight retires it.
   */
  lemma KeptIff(s: State, a: Action)
    requires Inv(s) && Enabled(s, a) && InFlight(s) && Apply(s, a).lock.Free?
    ensures Apply(s, a).broken <==>
            s.broken || !(a.Finish? && exists v :: LegalVerdict(v) && s.lock.op.got == EncVerdict(v))
  {
    if a.Finish? {
      var reply := s.lock.op.got;
      KeepsIff(reply);
      if ParseReply(reply).Ok? {
        AcceptsIff(reply, ParseReply(reply).value);
      }
      forall v | LegalVerdict(v) && reply == EncVerdict(v)
        ensures ParseReply(reply).Ok? || IsRefusal(reply)
      {
        match v
        case Vend(h) => AcceptsIff(reply, h);
        case Refuse(_, _) => KeepsIff(reply);
      }
    }
  }
}
