/** How requests on the control channel fare: when the reply is read, and what is reported when it is not. */
module ControlFates {
  import opened Bytes
  import opened Egress
  import opened Mux
  import opened ControlProtocol
  import opened ControlChannel

  // ---- what cuts a request short ---------------------------------------------------------

  /** Neither the deadline passes nor does the pipe report an error. */
  predicate Calm(script: seq<Event>) {
    forall i | 0 <= i < |script| :: !script[i].Expire? && !script[i].Break?
  }

  /** What a time-out and an error of the pipe are reported as. */
  function Trouble(e: Event): Fate {
    if e.Break? then FailsWith(Transport) else FailsWith(TimedOut)
  }

  lemma TailOfScript(pre: seq<Event>, post: seq<Event>)
    requires pre != []
    ensures (pre + post)[0] == pre[0] && (pre + post)[1..] == pre[1..] + post
  {
  }

  /** What is decided by events without trouble stays decided; otherwise the trouble that comes next decides. */
  lemma {:induction false} ReadTrouble(s: State, got: Bytes, pre: seq<Event>, e: Event, post: seq<Event>)
    requires Calm(pre) && (e.Expire? || e.Break?)
    ensures var calm := ReadFate(s, got, pre);
      && (calm.Answers? || calm == FailsWith(ChannelClosed) || calm == FailsWith(TimedOut))
      && ReadFate(s, got, pre + ([e] + post)) == if calm == FailsWith(TimedOut) then Trouble(e) else calm
    decreases |pre|
  {
    var more := [e] + post;
    if pre == [] {
      assert pre + more == more;
    } else {
      TailOfScript(pre, more);
      if |got| < 6 {
        var turn := ReadTurn(s, got, pre[0]);
        if turn.On? {
          ReadTrouble(turn.s, turn.got, pre[1..], e, post);
        }
      }
    }
  }

  lemma {:induction false} WriteTrouble(s: State, pre: seq<Event>, e: Event, post: seq<Event>)
    requires Calm(pre) && (e.Expire? || e.Break?)
    ensures var calm := WriteFate(s, pre);
      && (calm.Answers? || calm == FailsWith(ChannelClosed) || calm == FailsWith(TimedOut))
      && WriteFate(s, pre + ([e] + post)) == if calm == FailsWith(TimedOut) then Trouble(e) else calm
    decreases |pre|
  {
    var more := [e] + post;
    if Unsent(s) == 0 {
      ReadTrouble(s, [], pre, e, post);
    } else if pre == [] {
      assert pre + more == more;
    } else {
      TailOfScript(pre, more);
      var turn := WriteTurn(s, pre[0]);
      WriteTrouble(turn.s, pre[1..], e, post);
    }
  }

  // ---- a reply is read, however it is cut ---------------------------------------------------

  function Emits(bs: Bytes): seq<Event> {
    if bs == [] then [] else [Other(Emit(bs[0]))] + Emits(bs[1..])
  }

  /** Fragment after fragment of a reply is sent and arrives. */
  function Delivery(fragments: seq<Bytes>): seq<Event> {
    if fragments == [] then [] else Emits(fragments[0]) + ([Move(5)] + Delivery(fragments[1..]))
  }

  /** The broker is answering, of the answer so much was sent, and the client has read all there is. */
  predicate Answering(s: State, sent: nat) {
    && !s.shut && s.replies != [] && |s.replies[|s.replies| - 1]| == sent <= REPLY_LEN
    && s.consumed <= |Flat(s.replies)|
  }

  function Emitted(s: State, bs: Bytes): State
    requires s.replies != []
  {
    var n := |s.replies| - 1;
    s.(replies := s.replies[n := s.replies[n] + bs])
  }

  lemma {:induction false} EmitsPass(s: State, got: Bytes, bs: Bytes, script: seq<Event>, sent: nat)
    requires |got| < 6 && Answering(s, sent) && sent + |bs| <= REPLY_LEN
    ensures ReadFate(s, got, Emits(bs) + script) == ReadFate(Emitted(s, bs), got, script)
    ensures Answering(Emitted(s, bs), sent + |bs|) && Avail(Emitted(s, bs)) == Avail(s) + bs
    decreases |bs|
  {
    if bs == [] {
      NothingEmitted(s, bs);
      assert Emits(bs) + script == script;
    } else {
      var t := Emitted(s, [bs[0]]);
      OneEmitted(s, bs[0], sent);
      EmitsPass(t, got, bs[1..], script, sent + 1);
      TwiceEmitted(s, bs);
      TailOfScript(Emits(bs), script);
      assert Emits(bs)[1..] == Emits(bs[1..]);
      assert Others(s, Emit(bs[0])) == t;
    }
  }

  lemma NothingEmitted(s: State, bs: Bytes)
    requires s.replies != [] && bs == []
    ensures Emitted(s, bs) == s && Avail(s) + bs == Avail(s)
  {
    var last := s.replies[|s.replies| - 1];
    assert last + bs == last;
    assert s.replies[|s.replies| - 1 := last] == s.replies;
  }

  lemma OneEmitted(s: State, b: Byte, sent: nat)
    requires Answering(s, sent) && sent < REPLY_LEN
    ensures Others(s, Emit(b)) == Emitted(s, [b])
    ensures Answering(Emitted(s, [b]), sent + 1) && Avail(Emitted(s, [b])) == Avail(s) + [b]
  {
    EmitFlat(s.replies, b);
    var all := Flat(s.replies);
    assert (all + [b])[s.consumed..] == all[s.consumed..] + [b];
  }

  lemma TwiceEmitted(s: State, bs: Bytes)
    requires s.replies != [] && bs != []
    ensures Emitted(Emitted(s, [bs[0]]), bs[1..]) == Emitted(s, bs)
    ensures (Avail(s) + [bs[0]]) + bs[1..] == Avail(s) + bs
  {
    var n := |s.replies| - 1;
    var last := s.replies[n];
    assert [bs[0]] + bs[1..] == bs;
    assert (last + [bs[0]]) + bs[1..] == last + bs;
    assert (Avail(s) + [bs[0]]) + bs[1..] == Avail(s) + bs;
    assert s.replies[n := last + [bs[0]]][n := last + bs] == s.replies[n := last + bs];
  }

  predicate Fragments(fragments: seq<Bytes>) {
    forall i | 0 <= i < |fragments| :: fragments[i] != []
  }

  /** A reply that is sent and arrives in any fragments is read to its end. */
  lemma {:induction false} FragmentsAreRead(s: State, got: Bytes, fragments: seq<Bytes>, rest: seq<Event>)
    requires Answering(s, |got|) && Avail(s) == [] && Fragments(fragments)
    requires |got| + |Flat(fragments)| == 6
    ensures ReadFate(s, got, Delivery(fragments) + rest) == Answers(got + Flat(fragments), s.broken)
    decreases |fragments|
  {
    if fragments == [] {
      assert got + Flat(fragments) == got;
    } else {
      var f, more := fragments[0], Delivery(fragments[1..]) + rest;
      assert |f| > 0 && |Flat(fragments)| == |f| + |Flat(fragments[1..])|;
      DeliveryStep(fragments, rest);
      EmitsPass(s, got, f, [Move(5)] + more, |got|);
      var t := Emitted(s, f);
      assert Avail(t) == f;
      var u := t.(consumed := t.consumed + |f|);
      MoveTakesAll(t, got, f, more);
      FragmentsAreRead(u, got + f, fragments[1..], rest);
      Assoc(got, f, Flat(fragments[1..]));
    }
  }

  lemma DeliveryStep(fragments: seq<Bytes>, rest: seq<Event>)
    requires fragments != []
    ensures Delivery(fragments) + rest == Emits(fragments[0]) + ([Move(5)] + (Delivery(fragments[1..]) + rest))
  {
  }

  lemma MoveTakesAll(t: State, got: Bytes, f: Bytes, more: seq<Event>)
    requires |got| < 6 && Answering(t, |got| + |f|) && Avail(t) == f != [] && |got| + |f| <= 6
    ensures var u := t.(consumed := t.consumed + |f|);
      && ReadFate(t, got, [Move(5)] + more) == ReadFate(u, got + f, more)
      && Answering(u, |got + f|) && Avail(u) == []
  {
    var script := [Move(5)] + more;
    assert script[0] == Move(5) && script[1..] == more;
    assert f[..|f|] == f;
    assert |Flat(t.replies)| == t.consumed + |f|;
  }

  /**
   * On a channel in step and in service, a request that goes out and whose reply comes in any
   * fragments is answered with that reply.
   */
  lemma WholeCallAnswers(s: State, req: Request, fragments: seq<Bytes>, rest: seq<Event>)
    requires Inv(s) && s.lock.Free? && !s.broken && !s.shut
    requires Fragments(fragments) && |Flat(fragments)| == 6
    ensures WriteFate(Unlocked(Opened(s, req)), [Move(|EncReq(req)|), Other(Begin)] + (Delivery(fragments) + rest)) ==
              Answers(Flat(fragments), false)
  {
    var more := Delivery(fragments) + rest;
    var script := [Move(|EncReq(req)|), Other(Begin)] + more;
    var o := Unlocked(Opened(s, req));
    var w := Sent(o, |EncReq(req)|);
    assert Newest(o) == req && Unsent(o) == |EncReq(req)|;
    assert script[0] == Move(|EncReq(req)|) && script[1..] == [Other(Begin)] + more;
    assert WriteFate(o, script) == WriteFate(w, script[1..]);
    assert Unsent(w) == 0;
    WholeRequest(s, req);
    ReadBegins(w, more, fragments, rest);
  }

  lemma WholeRequest(s: State, req: Request)
    requires Inv(s) && s.lock.Free? && !s.broken && !s.shut
    ensures var w := Sent(Unlocked(Opened(s, req)), |EncReq(req)|);
      && Enabled(w, Begin) && w.consumed == |Flat(w.replies)| && !w.broken && !w.shut
  {
    var o := Unlocked(Opened(s, req));
    var w := Sent(o, |EncReq(req)|);
    assert EncReq(req)[0..|EncReq(req)|] == EncReq(req);
    WireWhole(s);
    assert w.wire == s.wire + EncReq(req);
    EncReqsAppend(s.issued, [req]);
    assert EncReqs([req]) == EncReq(req) + EncReqs([]) == EncReq(req);
    assert w.wire == EncReqs(s.issued + [req]) + [];
    RequestsUnique(s.issued + [req], []);
    WholeLength(s.replies, |s.replies|);
    assert s.replies[..|s.replies|] == s.replies;
  }

  lemma ReadBegins(w: State, more: seq<Event>, fragments: seq<Bytes>, rest: seq<Event>)
    requires Enabled(w, Begin) && w.consumed == |Flat(w.replies)| && !w.broken
    requires more == Delivery(fragments) + rest && Fragments(fragments) && |Flat(fragments)| == 6
    ensures ReadFate(w, [], [Other(Begin)] + more) == Answers(Flat(fragments), false)
  {
    var script, got := [Other(Begin)] + more, Flat([]);
    var b := w.(replies := w.replies + [[]]);
    BeginFlat(w.replies);
    assert Others(w, Begin) == b;
    assert script[0] == Other(Begin) && script[1..] == more;
    FragmentsAreRead(b, got, fragments, rest);
    assert got + Flat(fragments) == Flat(fragments);
  }
}
