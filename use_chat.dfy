/** The chat transcript of `useChat`: an append-only list of messages, a user message pushed
    at once by each send, and one delayed assistant echo per send.

    The delayed echo is made explicit: a send enqueues its text on `pending`, and a separate
    step `Fire` takes the oldest text off the queue and pushes the echo. All timers use
    the same delay, so they fire in the order they were scheduled and `pending` is a FIFO. */
module UseChat {
  import opened Decimal

  datatype Role = User | Assistant

  datatype Message = Message(id: string, role: Role, content: string)

  /** The text the simulated assistant puts before the echoed message. */
  const ReplyPrefix: string := "You said: "

  /** The record built for a new message, given the transcript length `count` at that moment.
      Being a function, it changes nothing. */
  function CreateMessage(count: nat, message: string, role: Role): Message {
    Message(NatToString(count), role, message)
  }

  /** The new record has the given role and content, and its id is the decimal text of
      `count`. */
  lemma CreateMessageFields(count: nat, message: string, role: Role)
    ensures var m := CreateMessage(count, message, role);
      && m.role == role && m.content == message
      && IsDecimal(m.id) && DecimalValue(m.id) == count
  {
    DecimalRoundTrip(count);
  }

  /** The assistant's echo of `message`. */
  function ReplyText(message: string): string {
    ReplyPrefix + message
  }

  /** The echo is the prefix followed by exactly the original text. */
  lemma ReplyTextParts(message: string)
    ensures |ReplyText(message)| == |ReplyPrefix| + |message|
    ensures ReplyText(message)[..|ReplyPrefix|] == ReplyPrefix
    ensures ReplyText(message)[|ReplyPrefix|..] == message
  {
  }

  /** The echo determines the echoed text. */
  lemma ReplyTextInjective(a: string, b: string)
    requires ReplyText(a) == ReplyText(b)
    ensures a == b
  {
    ReplyTextParts(a);
    ReplyTextParts(b);
  }

  // ---------------------------------------------------------------------------------------
  // The state as a value, and the two steps that change it

  /** The transcript together with the texts whose echoes are scheduled, oldest first. */
  datatype Snapshot = Snapshot(messages: seq<Message>, pending: seq<string>)

  /** What `sendMessage(message)` does synchronously. */
  function SendStep(s: Snapshot, message: string): Snapshot {
    Snapshot(s.messages + [CreateMessage(|s.messages|, message, User)], s.pending + [message])
  }

  /** What the oldest scheduled timer callback does when it fires. */
  function FireStep(s: Snapshot): Snapshot
    requires s.pending != []
  {
    Snapshot(s.messages + [CreateMessage(|s.messages|, ReplyText(s.pending[0]), Assistant)],
             s.pending[1..])
  }

  /** A send appends exactly one message, a user message holding the text, whose id is the
      decimal text of the length before the push; the earlier transcript is kept, and the
      text is queued behind the texts already waiting for their echo. */
  lemma SendAppendsUserMessage(s: Snapshot, message: string)
    ensures var r := SendStep(s, message);
      && |r.messages| == |s.messages| + 1 && r.messages[..|s.messages|] == s.messages
      && r.messages[|s.messages|].role == User && r.messages[|s.messages|].content == message
      && IsDecimal(r.messages[|s.messages|].id)
      && DecimalValue(r.messages[|s.messages|].id) == |s.messages|
      && r.pending == s.pending + [message]
  {
    CreateMessageFields(|s.messages|, message, User);
  }

  /** A timer fire appends exactly one message, an assistant message echoing the oldest
      queued text, whose id is the decimal text of the length at the moment it fires; the
      earlier transcript is kept, and the echoed text leaves the queue. */
  lemma FireAppendsEcho(s: Snapshot)
    requires s.pending != []
    ensures var r := FireStep(s);
      && |r.messages| == |s.messages| + 1 && r.messages[..|s.messages|] == s.messages
      && r.messages[|s.messages|].role == Assistant
      && r.messages[|s.messages|].content == ReplyText(s.pending[0])
      && IsDecimal(r.messages[|s.messages|].id)
      && DecimalValue(r.messages[|s.messages|].id) == |s.messages|
      && r.pending == s.pending[1..]
  {
    CreateMessageFields(|s.messages|, ReplyText(s.pending[0]), Assistant);
  }

  /** Every message at index `from` or later has the decimal text of its own index as id. */
  ghost predicate IdsAtIndices(ms: seq<Message>, from: nat) {
    forall i :: from <= i < |ms| ==> ms[i].id == NatToString(i)
  }

  lemma SendKeepsIds(s: Snapshot, message: string, from: nat)
    requires from <= |s.messages| && IdsAtIndices(s.messages, from)
    ensures IdsAtIndices(SendStep(s, message).messages, from)
  {
  }

  lemma FireKeepsIds(s: Snapshot, from: nat)
    requires s.pending != []
    requires from <= |s.messages| && IdsAtIndices(s.messages, from)
    ensures IdsAtIndices(FireStep(s).messages, from)
  {
  }

  // ---------------------------------------------------------------------------------------
  // Arbitrary interleavings of sends and timer fires

  datatype Event = Send(text: string) | Fire

  /** True iff `e` can happen in `s`: a timer fires only when one is scheduled. */
  predicate Enabled(s: Snapshot, e: Event) {
    e.Fire? ==> s.pending != []
  }

  /** The state after the single event `e`. */
  function Apply(s: Snapshot, e: Event): Snapshot
    requires Enabled(s, e)
  {
    match e
    case Send(t) => SendStep(s, t)
    case Fire => FireStep(s)
  }

  /** True iff every `Fire` in `evs` finds a scheduled echo. */
  predicate Feasible(s: Snapshot, evs: seq<Event>)
    decreases |evs|
  {
    evs == [] || (Enabled(s, evs[0]) && Feasible(Apply(s, evs[0]), evs[1..]))
  }

  /** The state after the events `evs`, in order. */
  function Run(s: Snapshot, evs: seq<Event>): Snapshot
    requires Feasible(s, evs)
    decreases |evs|
  {
    if evs == [] then s else Run(Apply(s, evs[0]), evs[1..])
  }

  function Sends(evs: seq<Event>): nat {
    if evs == [] then 0 else (if evs[0].Send? then 1 else 0) + Sends(evs[1..])
  }

  function Fires(evs: seq<Event>): nat {
    if evs == [] then 0 else (if evs[0].Fire? then 1 else 0) + Fires(evs[1..])
  }

  /** The texts sent by `evs`, in order. */
  function SentTexts(evs: seq<Event>): seq<string> {
    if evs == [] then []
    else (if evs[0].Send? then [evs[0].text] else []) + SentTexts(evs[1..])
  }

  /** The contents of the messages of `ms` that have role `role`, in order. */
  function ContentsOf(ms: seq<Message>, role: Role): seq<string> {
    if ms == [] then []
    else ContentsOf(ms[..|ms| - 1], role)
         + (if ms[|ms| - 1].role == role then [ms[|ms| - 1].content] else [])
  }

  /** The echoes of `ts`, in order. */
  function Replies(ts: seq<string>): seq<string> {
    if ts == [] then [] else [ReplyText(ts[0])] + Replies(ts[1..])
  }

  lemma {:induction false} EventCount(evs: seq<Event>)
    ensures |evs| == Sends(evs) + Fires(evs)
  {
    if evs != [] {
      EventCount(evs[1..]);
    }
  }

  /** A single event appends exactly one message. */
  lemma ApplyAppendsOne(s: Snapshot, e: Event)
    requires Enabled(s, e)
    ensures Apply(s, e).messages == s.messages + [Apply(s, e).messages[|s.messages|]]
  {
  }

  /** Each event appends exactly one message and leaves the earlier transcript as it was. */
  lemma {:induction false} RunOnlyAppends(s: Snapshot, evs: seq<Event>)
    requires Feasible(s, evs)
    ensures |Run(s, evs).messages| == |s.messages| + |evs|
    ensures Run(s, evs).messages[..|s.messages|] == s.messages
    decreases |evs|
  {
    if evs != [] {
      var s' := Apply(s, evs[0]);
      RunOnlyAppends(s', evs[1..]);
      assert Run(s, evs).messages[..|s'.messages|][..|s.messages|] == s.messages;
    }
  }

  /** Every message pushed has its own index as id, whatever the interleaving. */
  lemma {:induction false} RunKeepsIds(s: Snapshot, evs: seq<Event>, from: nat)
    requires Feasible(s, evs)
    requires from <= |s.messages| && IdsAtIndices(s.messages, from)
    ensures IdsAtIndices(Run(s, evs).messages, from)
    decreases |evs|
  {
    if evs != [] {
      match evs[0] {
        case Send(t) => SendKeepsIds(s, t, from);
        case Fire => FireKeepsIds(s, from);
      }
      RunKeepsIds(Apply(s, evs[0]), evs[1..], from);
    }
  }

  /** Ids are never reused among the messages from index `from` on, when each of them has
      its own index as id. */
  lemma IdsUnique(ms: seq<Message>, from: nat)
    requires IdsAtIndices(ms, from)
    ensures forall i, j :: from <= i < j < |ms| ==> ms[i].id != ms[j].id
  {
    forall i, j | from <= i < j < |ms|
      ensures ms[i].id != ms[j].id
    {
      if ms[i].id == ms[j].id {
        NatToStringInjective(i, j);
      }
    }
  }

  lemma ContentsOfAppend(ms: seq<Message>, m: Message, role: Role)
    ensures ContentsOf(ms + [m], role)
            == ContentsOf(ms, role) + (if m.role == role then [m.content] else [])
  {
    assert (ms + [m])[..|ms + [m]| - 1] == ms;
  }

  /** What one event does to the queue. */
  lemma ApplyQueue(s: Snapshot, e: Event)
    requires Enabled(s, e)
    ensures Apply(s, e).pending == if e.Send? then s.pending + [e.text] else s.pending[1..]
  {
  }

  /** What one event adds to the user contents and to the assistant contents. */
  lemma ApplyEchoes(s: Snapshot, e: Event)
    requires Enabled(s, e)
    ensures ContentsOf(Apply(s, e).messages, User)
            == ContentsOf(s.messages, User) + (if e.Send? then [e.text] else [])
    ensures ContentsOf(Apply(s, e).messages, Assistant)
            == ContentsOf(s.messages, Assistant) + (if e.Fire? then [ReplyText(s.pending[0])] else [])
  {
    var m := Apply(s, e).messages[|s.messages|];
    ApplyAppendsOne(s, e);
    ContentsOfAppend(s.messages, m, User);
    ContentsOfAppend(s.messages, m, Assistant);
  }

  /** The user messages appended are the sent texts, in order. */
  lemma {:induction false} RunUserContents(s: Snapshot, evs: seq<Event>)
    requires Feasible(s, evs)
    ensures ContentsOf(Run(s, evs).messages, User) == ContentsOf(s.messages, User) + SentTexts(evs)
    decreases |evs|
  {
    if evs != [] {
      var e, rest := evs[0], evs[1..];
      ApplyEchoes(s, e);
      RunUserContents(Apply(s, e), rest);
      assert SentTexts(evs) == (if e.Send? then [e.text] else []) + SentTexts(rest);
    }
  }

  /** A send leaves the texts queued or still to be sent as they were. */
  lemma QueueAfterSend(s: Snapshot, evs: seq<Event>)
    requires evs != [] && evs[0].Send? && Feasible(s, evs)
    ensures Apply(s, evs[0]).pending + SentTexts(evs[1..]) == s.pending + SentTexts(evs)
    ensures Fires(evs) == Fires(evs[1..])
  {
    ApplyQueue(s, evs[0]);
    assert SentTexts(evs) == [evs[0].text] + SentTexts(evs[1..]);
  }

  /** A fire takes the oldest of the texts queued or still to be sent. */
  lemma QueueAfterFire(s: Snapshot, evs: seq<Event>)
    requires evs != [] && evs[0].Fire? && Feasible(s, evs)
    ensures Apply(s, evs[0]).pending + SentTexts(evs[1..]) == (s.pending + SentTexts(evs))[1..]
    ensures s.pending + SentTexts(evs) != []
    ensures Fires(evs) == Fires(evs[1..]) + 1
  {
    ApplyQueue(s, evs[0]);
    assert SentTexts(evs) == SentTexts(evs[1..]);
  }

  /** The texts not yet echoed stay queued, in order: `pending` is first in, first out. */
  lemma {:induction false} RunQueue(s: Snapshot, evs: seq<Event>)
    requires Feasible(s, evs)
    ensures Fires(evs) <= |s.pending + SentTexts(evs)|
    ensures Run(s, evs).pending == (s.pending + SentTexts(evs))[Fires(evs)..]
    decreases |evs|
  {
    var q := s.pending + SentTexts(evs);
    if evs == [] {
      assert q == s.pending;
    } else {
      RunQueue(Apply(s, evs[0]), evs[1..]);
      if evs[0].Send? {
        QueueAfterSend(s, evs);
      } else {
        QueueAfterFire(s, evs);
        assert q[1..][Fires(evs[1..])..] == q[Fires(evs)..];
      }
    }
  }

  lemma {:induction false} RepliesAppend(a: seq<string>, b: seq<string>)
    ensures Replies(a + b) == Replies(a) + Replies(b)
  {
    if a == [] {
      assert a + b == b;
    } else {
      assert (a + b)[0] == a[0] && (a + b)[1..] == a[1..] + b;
      RepliesAppend(a[1..], b);
    }
  }

  lemma EchoesConservedBySend(s: Snapshot, evs: seq<Event>)
    requires evs != [] && evs[0].Send? && Feasible(s, evs)
    ensures ContentsOf(Apply(s, evs[0]).messages, Assistant) == ContentsOf(s.messages, Assistant)
    ensures Apply(s, evs[0]).pending + SentTexts(evs[1..]) == s.pending + SentTexts(evs)
  {
    ApplyEchoes(s, evs[0]);
    QueueAfterSend(s, evs);
  }

  lemma EchoesConservedByFire(s: Snapshot, evs: seq<Event>)
    requires evs != [] && evs[0].Fire? && Feasible(s, evs)
    ensures ContentsOf(Apply(s, evs[0]).messages, Assistant)
              + Replies(Apply(s, evs[0]).pending + SentTexts(evs[1..]))
            == ContentsOf(s.messages, Assistant) + Replies(s.pending + SentTexts(evs))
  {
    var q := s.pending + SentTexts(evs);
    ApplyEchoes(s, evs[0]);
    QueueAfterFire(s, evs);
    assert q[0] == s.pending[0];
    AppendCons(ContentsOf(s.messages, Assistant), ReplyText(q[0]), Replies(q[1..]));
  }

  lemma AppendCons(a: seq<string>, x: string, b: seq<string>)
    ensures (a + [x]) + b == a + ([x] + b)
  {
  }

  /** Every queued or sent text is echoed exactly once and in order: the echoes pushed so far,
      followed by the echoes still due for the queued texts, are the echoes of all texts that
      were queued or sent, whatever the interleaving of sends and timer fires. */
  lemma {:induction false} RunEchoesInOrder(s: Snapshot, evs: seq<Event>)
    requires Feasible(s, evs)
    ensures ContentsOf(Run(s, evs).messages, Assistant) + Replies(Run(s, evs).pending)
            == ContentsOf(s.messages, Assistant) + Replies(s.pending + SentTexts(evs))
    decreases |evs|
  {
    if evs == [] {
      assert s.pending + SentTexts(evs) == s.pending;
    } else {
      RunEchoesInOrder(Apply(s, evs[0]), evs[1..]);
      if evs[0].Send? {
        EchoesConservedBySend(s, evs);
      } else {
        EchoesConservedByFire(s, evs);
      }
    }
  }

  /** The echoes pushed by `evs` are those of the oldest `Fires(evs)` texts queued or sent. */
  lemma RunEchoesOldestFirst(s: Snapshot, evs: seq<Event>)
    requires Feasible(s, evs)
    ensures Fires(evs) <= |s.pending + SentTexts(evs)|
    ensures ContentsOf(Run(s, evs).messages, Assistant)
            == ContentsOf(s.messages, Assistant) + Replies((s.pending + SentTexts(evs))[..Fires(evs)])
  {
    var q, f := s.pending + SentTexts(evs), Fires(evs);
    var x, y := ContentsOf(Run(s, evs).messages, Assistant), ContentsOf(s.messages, Assistant);
    RunQueue(s, evs);
    RunEchoesInOrder(s, evs);
    assert q == q[..f] + q[f..];
    RepliesAppend(q[..f], q[f..]);
    CancelSuffix(x, y + Replies(q[..f]), Replies(q[f..]));
  }

  lemma CancelSuffix(x: seq<string>, y: seq<string>, z: seq<string>)
    requires x + z == y + z
    ensures x == y
  {
    assert |x| == |y|;
    assert x == (x + z)[..|x|];
    assert y == (y + z)[..|y|];
  }

  /** Once every scheduled echo has fired, the transcript has grown by two per send. */
  lemma AllRepliesFired(s: Snapshot, evs: seq<Event>)
    requires Feasible(s, evs) && s.pending == [] && Run(s, evs).pending == []
    ensures |Run(s, evs).messages| == |s.messages| + 2 * Sends(evs)
  {
    RunOnlyAppends(s, evs);
    RunQueue(s, evs);
    EventCount(evs);
    SentTextsCount(evs);
  }

  lemma {:induction false} SentTextsCount(evs: seq<Event>)
    ensures |SentTexts(evs)| == Sends(evs)
  {
    if evs != [] {
      SentTextsCount(evs[1..]);
    }
  }

  /** Sends that do not overlap: each echo fires before the next send. */
  function Alternating(texts: seq<string>): (evs: seq<Event>)
    ensures |evs| == 2 * |texts|
  {
    if texts == [] then [] else [Send(texts[0]), Fire] + Alternating(texts[1..])
  }

  /** Unfolds `Run` over a send followed by its echo. */
  lemma RunSendThenFire(s: Snapshot, t: string, rest: seq<Event>)
    requires Feasible(FireStep(SendStep(s, t)), rest)
    ensures Feasible(s, [Send(t), Fire] + rest)
    ensures Run(s, [Send(t), Fire] + rest) == Run(FireStep(SendStep(s, t)), rest)
  {
    var evs := [Send(t), Fire] + rest;
    assert evs[1..] == [Fire] + rest;
    assert evs[1..][1..] == rest;
  }

  /** The messages of `texts` without overlap, laid out from index `n` of `ms` on. */
  ghost predicate AlternatingAt(ms: seq<Message>, n: nat, texts: seq<string>) {
    n + 2 * |texts| <= |ms| &&
    forall k :: 0 <= k < |texts| ==>
      ms[n + 2 * k] == CreateMessage(n + 2 * k, texts[k], User) &&
      ms[n + 2 * k + 1] == CreateMessage(n + 2 * k + 1, ReplyText(texts[k]), Assistant)
  }

  lemma AlternatingAtCons(ms: seq<Message>, n: nat, texts: seq<string>)
    requires texts != [] && n + 2 <= |ms|
    requires ms[n] == CreateMessage(n, texts[0], User)
    requires ms[n + 1] == CreateMessage(n + 1, ReplyText(texts[0]), Assistant)
    requires AlternatingAt(ms, n + 2, texts[1..])
    ensures AlternatingAt(ms, n, texts)
  {
    forall k | 1 <= k < |texts|
      ensures ms[n + 2 * k] == CreateMessage(n + 2 * k, texts[k], User)
      ensures ms[n + 2 * k + 1] == CreateMessage(n + 2 * k + 1, ReplyText(texts[k]), Assistant)
    {
      assert texts[1..][k - 1] == texts[k];
      assert n + 2 + 2 * (k - 1) == n + 2 * k;
    }
  }

  /** Without overlap the new messages alternate user, assistant; each echo follows its own
      send, and its id is the user message's id plus one. */
  lemma {:induction false} RunAlternating(s: Snapshot, texts: seq<string>)
    requires s.pending == []
    ensures Feasible(s, Alternating(texts))
    ensures Run(s, Alternating(texts)).pending == []
    ensures |Run(s, Alternating(texts)).messages| == |s.messages| + 2 * |texts|
    ensures AlternatingAt(Run(s, Alternating(texts)).messages, |s.messages|, texts)
    decreases |texts|
  {
    var n := |s.messages|;
    if texts != [] {
      var s2 := FireStep(SendStep(s, texts[0]));
      var rest := Alternating(texts[1..]);
      RunAlternating(s2, texts[1..]);
      RunSendThenFire(s, texts[0], rest);
      RunOnlyAppends(s2, rest);
      var ms := Run(s2, rest).messages;
      assert s2.messages[n] == CreateMessage(n, texts[0], User);
      assert s2.messages[n + 1] == CreateMessage(n + 1, ReplyText(texts[0]), Assistant);
      assert ms[..n + 2][n] == ms[n] && ms[..n + 2][n + 1] == ms[n + 1];
      AlternatingAtCons(ms, n, texts);
    }
  }

  /** With two overlapping sends, the first echo is pushed after the second user message, so
      its id is the first user id plus two; ids still equal indices. */
  lemma OverlapShiftsReplyId(s: Snapshot, a: string, b: string)
    requires s.pending == []
    ensures Feasible(s, [Send(a), Send(b), Fire, Fire])
    ensures
      var n := |s.messages|;
      var ms := Run(s, [Send(a), Send(b), Fire, Fire]).messages;
      |ms| == n + 4 &&
      ms[n] == CreateMessage(n, a, User) &&
      ms[n + 1] == CreateMessage(n + 1, b, User) &&
      ms[n + 2] == CreateMessage(n + 2, ReplyText(a), Assistant) &&
      ms[n + 3] == CreateMessage(n + 3, ReplyText(b), Assistant)
  {
    var n := |s.messages|;
    var s1 := SendStep(s, a);
    var s2 := SendStep(s1, b);
    var s3 := FireStep(s2);
    var s4 := FireStep(s3);
    assert Run(s3, [Fire]) == s4 by {
      assert [Fire][1..] == [];
    }
    assert Run(s2, [Fire, Fire]) == s4 by {
      assert [Fire, Fire][1..] == [Fire];
    }
    assert Run(s1, [Send(b), Fire, Fire]) == s4 by {
      assert [Send(b), Fire, Fire][1..] == [Fire, Fire];
    }
    assert Run(s, [Send(a), Send(b), Fire, Fire]) == s4 by {
      assert [Send(a), Send(b), Fire, Fire][1..]
          == [Send(b), Fire, Fire];
    }
    assert s4.messages == s.messages + [CreateMessage(n, a, User), CreateMessage(n + 1, b, User),
                                        CreateMessage(n + 2, ReplyText(a), Assistant),
                                        CreateMessage(n + 3, ReplyText(b), Assistant)];
  }

  // ---------------------------------------------------------------------------------------
  // The composable's state, updated in place

  class Chat {
    var messages: seq<Message>
    /** Texts whose delayed echo is scheduled and has not fired yet, oldest first. */
    var pending: seq<string>
    /** Length of the transcript the composable started from. */
    ghost const origin: nat

    ghost predicate Valid()
      reads this
    {
      origin <= |messages| && IdsAtIndices(messages, origin)
    }

    function Snap(): Snapshot
      reads this
    {
      Snapshot(messages, pending)
    }

    constructor (initial: seq<Message>)
      ensures Valid() && messages == initial && pending == [] && origin == |initial|
    {
      messages := initial;
      pending := [];
      origin := |initial|;
    }

    /** Pushes the user message now and schedules its echo. */
    method SendMessage(message: string)
      requires Valid()
      modifies this
      ensures Valid() && Snap() == SendStep(old(Snap()), message)
    {
      SendKeepsIds(Snap(), message, origin);
      messages := messages + [CreateMessage(|messages|, message, User)];
      pending := pending + [message];
    }

    /** The oldest scheduled timer fires and pushes its echo; the id is computed now. */
    method FireReply()
      requires Valid() && pending != []
      modifies this
      ensures Valid() && Snap() == FireStep(old(Snap()))
    {
      FireKeepsIds(Snap(), origin);
      var message := pending[0];
      pending := pending[1..];
      messages := messages + [CreateMessage(|messages|, ReplyText(message), Assistant)];
    }
  }
}
