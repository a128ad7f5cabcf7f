/** Properties of whole event traces of the chat page: what the flags mean,
    what is sent on the socket, and how the transcript evolves. */
module ChatProperties {
  import opened JsText
  import opened ChatSession

  // ---------------------------------------------------------------------------
  // Vocabulary over traces

  predicate IsOpen(e: Event) { e.Open? }
  predicate IsAuthAck(e: Event) { e.Inbound? && e.frame.AuthSuccess? }

  /** The events that set a flag: the socket opening (`connected`) and an
      `auth_success` frame (`authenticated`). */
  datatype Mark = OpenMark | AuthMark

  predicate Marks(m: Mark, e: Event) {
    match m
    case OpenMark => IsOpen(e)
    case AuthMark => IsAuthAck(e)
  }
  predicate IsHistory(e: Event) { e.Inbound? && e.frame.History? }
  predicate IsChatMessage(e: Event) { e.Inbound? && e.frame.Message? }
  predicate IsPresence(e: Event) { e.Inbound? && (e.frame.UserJoined? || e.frame.UserLeft?) }

  predicate NoClose(events: seq<Event>) {
    forall j :: 0 <= j < |events| ==> !events[j].Close?
  }

  /** Some event of the trace is marked by `m` and no close follows it. */
  predicate MarkedSinceClose(events: seq<Event>, m: Mark) {
    exists i :: 0 <= i < |events| && Marks(m, events[i]) && NoClose(events[i + 1..])
  }

  function CountOpens(events: seq<Event>): nat {
    if events == [] then 0 else CountOpens(events[..|events| - 1]) + (if events[|events| - 1].Open? then 1 else 0)
  }

  function CountAuth(frames: seq<Outbound>): nat {
    if frames == [] then 0 else CountAuth(frames[..|frames| - 1]) + (if frames[|frames| - 1].Auth? then 1 else 0)
  }

  /** How many transcript entries the trace appends: one per `message`,
      `user_joined` and `user_left` frame. */
  function CountAppends(events: seq<Event>): nat {
    if events == [] then 0 else
      var e := events[|events| - 1];
      CountAppends(events[..|events| - 1]) + (if IsChatMessage(e) || IsPresence(e) then 1 else 0)
  }

  /** The trace consists of `message` frames only. */
  predicate AllChatMessages(events: seq<Event>) {
    forall i :: 0 <= i < |events| ==> events[i].Inbound? && events[i].frame.Message?
  }

  /** The chats carried by a trace made only of `message` frames. */
  function Payloads(events: seq<Event>): (r: seq<Chat>)
    requires AllChatMessages(events)
    ensures |r| == |events|
    ensures forall i :: 0 <= i < |events| ==> r[i] == events[i].frame.chat
  {
    if events == [] then [] else Payloads(events[..|events| - 1]) + [events[|events| - 1].frame.chat]
  }

  /** How `connected` and the ready state relate: an OPEN socket means the flag
      is set, and the flag is only set while the socket is OPEN or CLOSING (the
      window between the socket starting to close and `onclose`). */
  predicate Consistent(s: State) {
    && (s.ready == SocketOpen ==> s.connected)
    && (s.connected ==> s.ready == SocketOpen || s.ready == SocketClosing)
  }

  // ---------------------------------------------------------------------------
  // Structural facts about Run

  lemma RunSnoc(s: State, events: seq<Event>, e: Event)
    ensures Run(s, events + [e]) == Step(Run(s, events), e)
  {
    assert (events + [e])[..|events|] == events;
  }

  /** Running two traces one after the other is running their concatenation. */
  lemma {:induction false} RunAppend(s: State, a: seq<Event>, b: seq<Event>)
    ensures Run(s, a + b) == Run(Run(s, a), b)
    decreases |b|
  {
    if b == [] {
      assert a + b == a;
    } else {
      var b' := b[..|b| - 1];
      var e := b[|b| - 1];
      assert a + b == (a + b') + [e];
      RunSnoc(s, a + b', e);
      RunAppend(s, a, b');
      RunSnoc(Run(s, a), b', e);
      assert b == b' + [e];
    }
  }

  /** The session token never changes while the page is mounted. */
  lemma {:induction false} RunKeepsToken(s: State, events: seq<Event>)
    ensures Run(s, events).token == s.token
    decreases |events|
  {
    if events != [] {
      RunKeepsToken(s, events[..|events| - 1]);
    }
  }

  // ---------------------------------------------------------------------------
  // Flags

  /** On every trace from a consistent state (the mounted page is one), an OPEN
      socket has `connected` set, and `connected` is set only while the socket
      is OPEN or CLOSING. */
  lemma {:induction false} ConnectedTracksReadyState(s: State, events: seq<Event>)
    requires Consistent(s)
    ensures Consistent(Run(s, events))
    decreases |events|
  {
    if events != [] {
      ConnectedTracksReadyState(s, events[..|events| - 1]);
    }
  }

  /** What `MarkedSinceClose` becomes when one more event arrives. */
  lemma MarkedSinceCloseSnoc(events: seq<Event>, e: Event, m: Mark)
    ensures MarkedSinceClose(events + [e], m) <==>
      (Marks(m, e) || (!e.Close? && MarkedSinceClose(events, m)))
  {
    var all := events + [e];
    if Marks(m, e) {
      assert all[|events| + 1..] == [];
      assert Marks(m, all[|events|]);
    } else if e.Close? {
      forall i | 0 <= i < |all| && Marks(m, all[i]) ensures !NoClose(all[i + 1..]) {
        assert all[i + 1..][|all| - i - 2] == e;
      }
    } else {
      if MarkedSinceClose(all, m) {
        var i :| 0 <= i < |all| && Marks(m, all[i]) && NoClose(all[i + 1..]);
        assert i < |events| && all[i] == events[i];
        assert events[i + 1..] == all[i + 1..][..|events| - i - 1];
      }
      if MarkedSinceClose(events, m) {
        var i :| 0 <= i < |events| && Marks(m, events[i]) && NoClose(events[i + 1..]);
        assert all[i + 1..] == events[i + 1..] + [e];
        assert all[i] == events[i];
      }
    }
  }

  lemma NoCloseSnoc(events: seq<Event>, e: Event)
    ensures NoClose(events + [e]) <==> NoClose(events) && !e.Close?
  {
    var all := events + [e];
    assert all[|events|] == e;
    if NoClose(events) && !e.Close? {
      forall j | 0 <= j < |all| ensures !all[j].Close? {
        if j < |events| { assert all[j] == events[j]; }
      }
    }
    if NoClose(all) {
      forall j | 0 <= j < |events| ensures !events[j].Close? {
        assert all[j] == events[j];
      }
    }
  }

  /** How one event moves the two flags. */
  lemma StepFlags(p: State, e: Event)
    ensures Step(p, e).authenticated == (IsAuthAck(e) || (!e.Close? && p.authenticated))
    ensures Step(p, e).connected == (IsOpen(e) || (!e.Close? && p.connected))
  {
  }

  /** `authenticated` is true exactly when an `auth_success` frame has arrived
      and no close has happened since (or the flag was already set and no close
      has happened at all). */
  lemma {:induction false} AuthenticatedIff(s: State, events: seq<Event>)
    ensures Run(s, events).authenticated <==>
      MarkedSinceClose(events, AuthMark) || (s.authenticated && NoClose(events))
    decreases |events|
  {
    if events != [] {
      var pre, e := events[..|events| - 1], events[|events| - 1];
      assert events == pre + [e];
      AuthenticatedIff(s, pre);
      MarkedSinceCloseSnoc(pre, e, AuthMark);
      NoCloseSnoc(pre, e);
      StepFlags(Run(s, pre), e);
    }
  }

  /** `connected` is true exactly when the socket has opened and no close has
      happened since (or it was already set and no close has happened at all). */
  lemma {:induction false} ConnectedIff(s: State, events: seq<Event>)
    ensures Run(s, events).connected <==>
      MarkedSinceClose(events, OpenMark) || (s.connected && NoClose(events))
    decreases |events|
  {
    if events != [] {
      var pre, e := events[..|events| - 1], events[|events| - 1];
      assert events == pre + [e];
      ConnectedIff(s, pre);
      MarkedSinceCloseSnoc(pre, e, OpenMark);
      NoCloseSnoc(pre, e);
      StepFlags(Run(s, pre), e);
    }
  }

  // ---------------------------------------------------------------------------
  // What goes out on the socket

  /** A frame the page may send under `token`: the token's `auth` frame or a
      `message` frame whose text is not blank. */
  predicate Legit(token: string, f: Outbound) {
    (f.Auth? && f.token == token) || (f.Text? && Trim(f.text) != [])
  }

  /** `after` extends `before`, and every frame added is legitimate. */
  predicate GrewLegitimately(token: string, before: seq<Outbound>, after: seq<Outbound>) {
    && |before| <= |after| && after[..|before|] == before
    && forall i :: |before| <= i < |after| ==> Legit(token, after[i])
  }

  /** Every frame sent since state `s`: an `auth` frame carrying the session
      token or a `message` frame whose text is not blank. */
  predicate SentSince(s: State, r: State) {
    GrewLegitimately(s.token, s.outbox, r.outbox)
  }

  /** The frames one event puts on the socket. */
  function Sent(p: State, e: Event): seq<Outbound> {
    if e.Open? then [Auth(p.token)]
    else if e.Send? && CanSend(p) then [Text(p.input)]
    else []
  }

  /** How one event changes the outbox: it appends what it sends, and what it
      sends is legitimate. */
  lemma StepOutbox(p: State, e: Event)
    ensures Step(p, e).outbox == p.outbox + Sent(p, e)
    ensures forall i :: 0 <= i < |Sent(p, e)| ==> Legit(p.token, Sent(p, e)[i])
  {
  }

  lemma GrowMore(token: string, before: seq<Outbound>, mid: seq<Outbound>, extra: seq<Outbound>)
    requires GrewLegitimately(token, before, mid)
    requires forall i :: 0 <= i < |extra| ==> Legit(token, extra[i])
    ensures GrewLegitimately(token, before, mid + extra)
  {
    var after := mid + extra;
    assert after[..|before|] == mid[..|before|];
    forall i | |before| <= i < |after| ensures Legit(token, after[i]) {
      if i >= |mid| {
        assert after[i] == extra[i - |mid|];
      }
    }
  }

  /** Frames are only ever added to the outbox, and each added one is the
      token's `auth` frame or a non-blank chat text. */
  lemma {:induction false} OutboxOnlyGrows(s: State, events: seq<Event>)
    ensures SentSince(s, Run(s, events))
    decreases |events|
  {
    if events == [] {
      assert s.outbox[..|s.outbox|] == s.outbox;
    } else {
      var pre, e := events[..|events| - 1], events[|events| - 1];
      OutboxOnlyGrows(s, pre);
      RunKeepsToken(s, pre);
      var p := Run(s, pre);
      StepOutbox(p, e);
      GrowMore(s.token, s.outbox, p.outbox, Sent(p, e));
    }
  }

  lemma CountAuthSnoc(frames: seq<Outbound>, f: Outbound)
    ensures CountAuth(frames + [f]) == CountAuth(frames) + (if f.Auth? then 1 else 0)
  {
    assert (frames + [f])[..|frames|] == frames;
  }

  /** Exactly one `auth` frame goes out per open. */
  lemma {:induction false} AuthFramePerOpen(s: State, events: seq<Event>)
    ensures CountAuth(Run(s, events).outbox) == CountAuth(s.outbox) + CountOpens(events)
    decreases |events|
  {
    if events != [] {
      var pre, e := events[..|events| - 1], events[|events| - 1];
      AuthFramePerOpen(s, pre);
      var p := Run(s, pre);
      assert Run(s, events) == Step(p, e);
      StepOutbox(p, e);
      if Sent(p, e) != [] {
        CountAuthSnoc(p.outbox, Sent(p, e)[0]);
      } else {
        assert p.outbox + [] == p.outbox;
      }
    }
  }

  /** Mounting, opening and then any trace without a further open sends exactly
      one `auth` frame, first, carrying the token the page was mounted with. */
  lemma OneAuthPerConnection(token: string, events: seq<Event>)
    requires CountOpens(events) == 0
    ensures var r := Run(Initial(token), [Open] + events);
      && |r.outbox| >= 1 && r.outbox[0] == Auth(token)
      && CountAuth(r.outbox) == 1
  {
    var s1 := Step(Initial(token), Open);
    assert Run(Initial(token), [Open]) == s1 by {
      assert [Open][..0] == [];
    }
    RunAppend(Initial(token), [Open], events);
    OutboxOnlyGrows(s1, events);
    AuthFramePerOpen(s1, events);
    assert s1.outbox == [Auth(token)];
    assert CountAuth(s1.outbox) == 1 by {
      assert s1.outbox[..0] == [];
    }
  }

  /** A chat frame may go out before `auth_success`: the send gate is the ready
      state alone, so opening, typing a non-blank text and sending puts the
      untrimmed text on the wire while still unauthenticated. */
  lemma SendBeforeAuthSuccess(token: string, text: string)
    requires !AllWhitespace(text)
    ensures var r := Run(Initial(token), [Open, Edit(text), Send]);
      !r.authenticated && r.outbox == [Auth(token), Text(text)] && r.input == ""
  {
    NotBlank(text);
    var s0 := Initial(token);
    var s1 := Step(s0, Open);
    assert s1.outbox == [Auth(token)] && s1.ready == SocketOpen && !s1.authenticated;
    var s2 := Step(s1, Edit(text));
    assert s2 == s1.(input := text);
    assert CanSend(s2);
    var s3 := Step(s2, Send);
    assert s3.outbox == [Auth(token)] + [Text(text)];
    RunThree(s0, Open, Edit(text), Send);
  }

  /** Between the socket starting to close and `onclose`, `connected` is still
      true but a send puts nothing on the wire and keeps the input. */
  lemma SendWhileClosing(token: string, text: string)
    requires !AllWhitespace(text)
    ensures var r := Run(Initial(token), [Open, Edit(text), Closing, Send]);
      && r.connected && r.ready == SocketClosing
      && r.outbox == [Auth(token)] && r.input == text
  {
    var s0 := Initial(token);
    var s3 := s0.(connected := true, ready := SocketClosing, outbox := [Auth(token)], input := text);
    RunThree(s0, Open, Edit(text), Closing);
    assert Run(s0, [Open, Edit(text), Closing]) == s3;
    RunSnoc(s0, [Open, Edit(text), Closing], Send);
    assert [Open, Edit(text), Closing] + [Send] == [Open, Edit(text), Closing, Send];
  }

  lemma NotBlank(text: string)
    requires !AllWhitespace(text)
    ensures Trim(text) != []
  {
    TrimEmptyIff(text);
  }

  lemma RunThree(s: State, a: Event, b: Event, c: Event)
    ensures Run(s, [a, b, c]) == Step(Step(Step(s, a), b), c)
  {
    var evs := [a, b, c];
    assert Run(s, evs[..1]) == Step(s, a) by {
      assert evs[..1][..0] == [];
    }
    assert evs[..2][..1] == evs[..1];
    assert evs[..3][..2] == evs[..2] && evs[..3] == evs;
  }

  // ---------------------------------------------------------------------------
  // The transcript

  /** Only inbound frames touch the transcript: opening, closing, sending and
      typing leave it exactly as it was. */
  lemma {:induction false} OnlyFramesTouchTranscript(s: State, events: seq<Event>)
    requires forall i :: 0 <= i < |events| ==> !events[i].Inbound?
    ensures Run(s, events).messages == s.messages
    decreases |events|
  {
    if events != [] {
      OnlyFramesTouchTranscript(s, events[..|events| - 1]);
    }
  }

  /** Without a `history` frame the transcript is append-only: what was there
      stays, in order, and it grows by one entry per `message`, `user_joined`
      and `user_left` frame. */
  lemma {:induction false} AppendOnlyWithoutHistory(s: State, events: seq<Event>)
    requires forall i :: 0 <= i < |events| ==> !IsHistory(events[i])
    ensures var r := Run(s, events);
      && |r.messages| == |s.messages| + CountAppends(events)
      && r.messages[..|s.messages|] == s.messages
    decreases |events|
  {
    if events == [] {
      assert s.messages[..|s.messages|] == s.messages;
    } else {
      var pre, e := events[..|events| - 1], events[|events| - 1];
      AppendOnlyWithoutHistory(s, pre);
      var p := Run(s, pre).messages;
      var r := Step(Run(s, pre), e).messages;
      StepTranscript(Run(s, pre), e);
      assert r[..|s.messages|] == r[..|p|][..|s.messages|];
    }
  }

  /** How one event other than a `history` frame changes the transcript: it
      keeps what was there and appends one entry per `message`, `user_joined`
      or `user_left` frame. */
  lemma StepTranscript(p: State, e: Event)
    requires !IsHistory(e)
    ensures var r := Step(p, e).messages;
      && |r| == |p.messages| + (if IsChatMessage(e) || IsPresence(e) then 1 else 0)
      && r[..|p.messages|] == p.messages
  {
  }

  /** `message` frames are appended in arrival order. */
  lemma {:induction false} MessagesAppendInOrder(s: State, events: seq<Event>)
    requires AllChatMessages(events)
    ensures Run(s, events).messages == s.messages + Payloads(events)
    decreases |events|
  {
    if events != [] {
      var pre := events[..|events| - 1];
      MessagesAppendInOrder(s, pre);
      assert s.messages + Payloads(events) == (s.messages + Payloads(pre)) + [events[|events| - 1].frame.chat];
    }
  }

  /** A `history` frame followed by N `message` frames leaves the history
      followed by the N chats, in arrival order, whatever came before. */
  lemma HistoryThenMessages(s: State, h: seq<Chat>, now: string, events: seq<Event>)
    requires AllChatMessages(events)
    ensures Run(s, [Inbound(History(h), now)] + events).messages == h + Payloads(events)
    ensures |Run(s, [Inbound(History(h), now)] + events).messages| == |h| + |events|
  {
    var first := [Inbound(History(h), now)];
    RunAppend(s, first, events);
    assert first[..0] == [];
    MessagesAppendInOrder(Run(s, first), events);
  }

  /** Every `history` frame replaces the transcript, a second one as much as the
      first: after the last of them its payload is the start of the transcript. */
  lemma LatestHistoryWins(s: State, events: seq<Event>, i: nat)
    requires i < |events| && IsHistory(events[i])
    requires forall j :: i < j < |events| ==> !IsHistory(events[j])
    ensures var r := Run(s, events).messages;
      |events[i].frame.entries| <= |r| && r[..|events[i].frame.entries|] == events[i].frame.entries
  {
    var a, b := events[..i + 1], events[i + 1..];
    assert events == a + b;
    RunAppend(s, a, b);
    assert a[..i] == events[..i];
    assert Run(s, a).messages == events[i].frame.entries;
    forall j | 0 <= j < |b| ensures !IsHistory(b[j]) {
      assert b[j] == events[i + 1 + j];
    }
    AppendOnlyWithoutHistory(Run(s, a), b);
  }

  /** A session with token "t1": the socket opens, the server acknowledges,
      sends a history holding alice's "hi", then bob's "yo", then alice leaves. */
  lemma AliceBobSession()
    ensures var alice := Chat("alice", "hi", "09:00");
      var bob := Chat("bob", "yo", "09:05");
      var now := "09:09";
      var r := Run(Initial("t1"), [Open, Inbound(AuthSuccess, now), Inbound(History([alice]), now),
                                   Inbound(Message(bob), now), Inbound(UserLeft("alice"), now)]);
      && r.outbox == [Auth("t1")] && r.connected && r.authenticated
      && r.messages == [alice, bob, Chat("System", "alice left the chat.", now)]
  {
    var alice := Chat("alice", "hi", "09:00");
    var bob := Chat("bob", "yo", "09:05");
    var now := "09:09";
    var evs := [Open, Inbound(AuthSuccess, now), Inbound(History([alice]), now),
                Inbound(Message(bob), now), Inbound(UserLeft("alice"), now)];
    var s0 := Initial("t1");
    var s1 := s0.(connected := true, ready := SocketOpen, outbox := [Auth("t1")]);
    var s2 := s1.(authenticated := true);
    var s3 := s2.(messages := [alice]);
    var s4 := s3.(messages := [alice, bob]);
    var s5 := s4.(messages := [alice, bob, Chat("System", "alice left the chat.", now)]);
    assert Step(s0, evs[0]) == s1;
    assert Step(s1, evs[1]) == s2;
    assert Step(s2, evs[2]) == s3;
    assert Step(s3, evs[3]) == s4;
    assert Step(s4, evs[4]) == s5 by {
      assert LeftText("alice") == "alice left the chat.";
    }
    RunSnoc(s0, [], evs[0]);
    assert [] + [evs[0]] == evs[..1];
    RunSnoc(s0, evs[..1], evs[1]);
    assert evs[..1] + [evs[1]] == evs[..2];
    RunSnoc(s0, evs[..2], evs[2]);
    assert evs[..2] + [evs[2]] == evs[..3];
    RunSnoc(s0, evs[..3], evs[3]);
    assert evs[..3] + [evs[3]] == evs[..4];
    RunSnoc(s0, evs[..4], evs[4]);
    assert evs[..4] + [evs[4]] == evs;
  }
}
