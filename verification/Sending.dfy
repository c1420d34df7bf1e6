/** The sending side of one transfer. */
module Sending {
  import opened Bytes
  import opened Header
  import opened Payloads
  import opened Framing
  import opened Files

  /** Data bytes that fit beside a header in the receiver's buffer. */
  const CHUNK_SIZE := MAX_BUFFER_SIZE - HEADER_SIZE

  const SLASH: Byte := 0x2F

  predicate Flat(name: Text) { name != [] && SLASH !in name }

  /** What is sent: file bytes, flat name, own device name, session id and file digest. */
  datatype JobData = JobData(content: Text, name: Text, device: Text, sessionId: u64, digest: Digest)

  type Job = j: JobData |
    |j.content| < U64_LIMIT && 52 + |j.name| + |j.device| < U32_LIMIT && Flat(j.name)
    witness JobData([], [0x61], [], 0, seq(DIGEST_SIZE, _ => 0))

  function OfferOf(j: Job): Offer {
    Offer(|j.content|, 0, j.digest, j.name, j.device)
  }

  function OfferFrame(j: Job): Frame { Frame(TRANSFER_OFFER, j.sessionId, OfferBytes(OfferOf(j))) }

  function DoneFrame(j: Job): Frame { Frame(TRANSFER_DONE, j.sessionId, j.digest) }

  /** Size of the chunk that starts at `position`. */
  function ChunkLength(j: Job, position: nat): (n: nat)
    requires position < |j.content|
    ensures 0 < n <= CHUNK_SIZE && position + n <= |j.content|
  {
    Min(CHUNK_SIZE, |j.content| - position)
  }

  function ChunkFrame(j: Job, position: nat): Frame
    requires position < |j.content|
  {
    Frame(DATA_CHUNK, j.sessionId, j.content[position..position + ChunkLength(j, position)])
  }

  // ------------------------------------------------------------------ callbacks

  /** What the sender waits for. `Writing` is a chunk whose write has not completed yet. */
  datatype Phase =
    | Connecting
    | Handshaking
    | AwaitReply
    | AwaitNoise(len: u32)
    | AwaitReason(len: u32)
    | Writing(size: nat)
    | AwaitAck
    | AwaitAckPayload(len: u32)
    | Finished

  /** `reports` are the arguments of the `onComplete` calls so far. */
  datatype Sender = Sender(job: Job, phase: Phase, position: nat, bytesSent: nat, reports: seq<bool>)

  datatype Event =
    | Connected(ok: bool)
    | Shaken(ok: bool)
    | Got(data: Text)
    | ReadFailed
    | Written(ok: bool)

  /** New state and the bytes handed to the socket. */
  datatype Outcome = Outcome(sender: Sender, out: Text)

  /** Bytes that the pending `async_read` asks for. */
  function Wanted(phase: Phase): Option<nat> {
    match phase
    case AwaitReply => Some(HEADER_SIZE)
    case AwaitNoise(len) => Some(len)
    case AwaitReason(len) => Some(len)
    case AwaitAck => Some(HEADER_SIZE)
    case AwaitAckPayload(len) => Some(len)
    case _ => None
  }

  /** Which callbacks can fire, on input that the parsers accept. */
  predicate Ready(s: Sender, e: Event) {
    match e
    case Connected(_) => s.phase.Connecting?
    case Shaken(_) => s.phase.Handshaking?
    case Written(_) => s.phase.Writing?
    case ReadFailed => Wanted(s.phase).Some?
    case Got(data) =>
      && Wanted(s.phase) == Some(|data|)
      && (s.phase.AwaitReply? || s.phase.AwaitAck? ==> ParseHeader(data).Some?)
      && (s.phase.AwaitAckPayload? ==> ParseAck(data).Some?)
  }

  function Complete(s: Sender, ok: bool): Sender {
    s.(phase := Finished, reports := s.reports + [ok])
  }

  /** Reading stops only at chunk boundaries and at the end of the file. */
  predicate Boundary(j: Job, position: nat) {
    position <= |j.content| && (position == |j.content| || position % CHUNK_SIZE == 0)
  }

  lemma NextBoundary(j: Job, position: nat)
    requires position < |j.content| && Boundary(j, position)
    ensures Boundary(j, position + ChunkLength(j, position))
  {
  }

  predicate Sane(s: Sender) { Boundary(s.job, s.position) }

  function NextChunk(s: Sender): (r: Outcome)
    requires Sane(s)
    ensures Sane(r.sender) && r.sender.job == s.job
  {
    if s.position < |s.job.content| then
      var n := ChunkLength(s.job, s.position);
      NextBoundary(s.job, s.position);
      Outcome(s.(phase := Writing(n), position := s.position + n), FrameBytes(ChunkFrame(s.job, s.position)))
    else
      Outcome(s.(phase := AwaitAck), FrameBytes(DoneFrame(s.job)))
  }

  function OnReply(s: Sender, h: BaseHeader): Outcome
    requires Sane(s)
  {
    if h.msgType == TRANSFER_ACCEPT then
      if h.payloadLen == 0 then NextChunk(s) else Outcome(s.(phase := AwaitNoise(h.payloadLen)), [])
    else if h.msgType == TRANSFER_REJECT then
      Outcome(s.(phase := AwaitReason(h.payloadLen)), [])
    else
      Outcome(s.(phase := Finished), [])
  }

  function OnAck(s: Sender, h: BaseHeader): Outcome {
    if h.msgType == TRANSFER_ACK
    then Outcome(s.(phase := AwaitAckPayload(h.payloadLen)), [])
    else Outcome(s.(phase := Finished), [])
  }

  function Step(s: Sender, e: Event): Outcome
    requires Sane(s) && Ready(s, e)
  {
    match e
    case Connected(ok) =>
      Outcome(if ok then s.(phase := Handshaking) else Complete(s, false), [])
    case Shaken(ok) =>
      if ok then Outcome(s.(phase := AwaitReply), FrameBytes(OfferFrame(s.job))) else Outcome(Complete(s, false), [])
    case Written(ok) =>
      if ok then NextChunk(s.(bytesSent := s.bytesSent + s.phase.size)) else Outcome(Complete(s, false), [])
    case ReadFailed =>
      if s.phase.AwaitNoise? then NextChunk(s) else Outcome(Complete(s, false), [])
    case Got(data) =>
      match s.phase
      case AwaitReply => OnReply(s, ParseHeader(data).value)
      case AwaitNoise(_) => NextChunk(s)
      case AwaitReason(_) => Outcome(Complete(s, false), [])
      case AwaitAck => OnAck(s, ParseHeader(data).value)
      case AwaitAckPayload(_) =>
        Outcome(if ParseAck(data).value then Complete(s, true) else s.(phase := Finished), [])
  }

  lemma StepSane(s: Sender, e: Event)
    requires Sane(s) && Ready(s, e)
    ensures Sane(Step(s, e).sender) && Step(s, e).sender.job == s.job
  {
    hide ParseHeader, FrameBytes, OfferFrame, ChunkFrame, DoneFrame, Boundary, ChunkLength;
  }

  function Initial(j: Job): Sender { Sender(j, Connecting, 0, 0, []) }

  // ------------------------------------------------------------------ any receiver

  /** The endings without a report: a reply or acknowledgement of a foreign type, or a negative
      acknowledgement. */
  predicate Silent(s: Sender, e: Event)
    requires Ready(s, e)
  {
    e.Got? &&
    match s.phase
    case AwaitReply =>
      ParseHeader(e.data).value.msgType != TRANSFER_ACCEPT && ParseHeader(e.data).value.msgType != TRANSFER_REJECT
    case AwaitAck => ParseHeader(e.data).value.msgType != TRANSFER_ACK
    case AwaitAckPayload(_) => !ParseAck(e.data).value
    case _ => false
  }

  /** A callback that ends the transfer reports completion unless it is one of the silent endings,
      and no other callback reports. */
  lemma ReportsUnlessSilent(s: Sender, e: Event)
    requires Sane(s) && Ready(s, e)
    ensures var t := Step(s, e).sender;
            && (|t.reports| == |s.reports| + 1 <==> t.phase.Finished? && !Silent(s, e))
            && (|t.reports| == |s.reports| <==> !t.phase.Finished? || Silent(s, e))
  {
    hide ParseHeader, FrameBytes, OfferFrame, ChunkFrame, DoneFrame;
  }

  ghost predicate Feasible(s: Sender, events: seq<Event>)
    decreases |events|
  {
    events == [] || (Sane(s) && Ready(s, events[0]) && Feasible(Step(s, events[0]).sender, events[1..]))
  }

  function RunOf(s: Sender, events: seq<Event>): Sender
    requires Sane(s) && Feasible(s, events)
    decreases |events|
  {
    if events == [] then s else StepSane(s, events[0]); RunOf(Step(s, events[0]).sender, events[1..])
  }

  /** Chunk bytes whose write has not completed yet. */
  function Pending(s: Sender): nat { if s.phase.Writing? then s.phase.size else 0 }

  predicate Counting(s: Sender) {
    && Sane(s) && |s.reports| <= 1 && (s.phase.Finished? || s.reports == [])
    && s.bytesSent + Pending(s) <= s.position && (!s.phase.Finished? ==> s.bytesSent + Pending(s) == s.position)
    && (s.phase.AwaitAck? || s.phase.AwaitAckPayload? ==> s.bytesSent == |s.job.content|)
  }

  /** `last` is what the latest callback wrote: while a write is pending, one chunk frame. */
  predicate Outstanding(s: Sender, last: Text) {
    s.phase.Writing? ==> |last| == HEADER_SIZE + s.phase.size
  }

  lemma StepCounts(s: Sender, e: Event, last: Text)
    requires Counting(s) && Ready(s, e) && Outstanding(s, last)
    ensures var o := Step(s, e);
            && Counting(o.sender) && Outstanding(o.sender, o.out)
            && o.sender.bytesSent == s.bytesSent + Completed(e, last)
            && 0 <= Completed(e, last)
  {
    hide ParseHeader, FrameBytes, NextChunk, OfferFrame;
    if e == Written(true) {
      NextChunkCounts(s.(bytesSent := s.bytesSent + s.phase.size));
    } else if (s.phase.AwaitReply? || s.phase.AwaitNoise?) && NextChunk(s) == Step(s, e) {
      NextChunkCounts(s);
    }
  }

  lemma NextChunkCounts(s: Sender)
    requires Sane(s) && s.reports == [] && s.bytesSent == s.position
    ensures var o := NextChunk(s);
            Counting(o.sender) && Outstanding(o.sender, o.out) && o.sender.bytesSent == s.bytesSent
  {
  }

  /** Data bytes of a completed chunk write: what was written, less its header. */
  function Completed(e: Event, last: Text): int {
    if e == Written(true) then |last| - HEADER_SIZE else 0
  }

  /** Data bytes of all the chunk writes that completed in a run. */
  function CompletedBytes(s: Sender, events: seq<Event>, last: Text): int
    requires Sane(s) && Feasible(s, events)
    decreases |events|
  {
    if events == [] then 0 else
    StepSane(s, events[0]);
    var o := Step(s, events[0]);
    Completed(events[0], last) + CompletedBytes(o.sender, events[1..], o.out)
  }

  lemma {:induction false} RunCounts(s: Sender, events: seq<Event>, last: Text)
    requires Counting(s) && Feasible(s, events) && Outstanding(s, last)
    ensures Counting(RunOf(s, events))
    ensures RunOf(s, events).job == s.job
    ensures RunOf(s, events).bytesSent == s.bytesSent + CompletedBytes(s, events, last) >= s.bytesSent
    decreases |events|
  {
    hide Step, Ready, Counting, Outstanding, Completed;
    if events == [] {
    } else {
      StepCounts(s, events[0], last);
      StepSane(s, events[0]);
      var o := Step(s, events[0]);
      RunCounts(o.sender, events[1..], o.out);
    }
  }

  /** Against any peer and for any order of callbacks: the byte counter never falls, is the data of the
      completed chunk writes, never passes the file size and is the file size once done is sent; the
      completion is reported at most once, and only at the end. */
  lemma SenderCountsAndReportsOnce(j: Job, events: seq<Event>, k: nat)
    requires Feasible(Initial(j), events) && k <= |events|
    ensures Feasible(Initial(j), events[..k])
    ensures var p := RunOf(Initial(j), events);
            && RunOf(Initial(j), events[..k]).bytesSent <= p.bytesSent
            && p.bytesSent == CompletedBytes(Initial(j), events, []) <= |j.content|
            && (p.phase.AwaitAck? || p.phase.AwaitAckPayload? ==> p.bytesSent == |j.content|)
            && |p.reports| <= 1 && (p.reports != [] ==> p.phase.Finished?)
  {
    hide Feasible, RunOf, CompletedBytes;
    var s, front, back := Initial(j), events[..k], events[k..];
    assert front + back == events;
    RunSplits(s, front, back);
    RunCounts(s, events, []);
    RunCounts(s, front, []);
    RunCounts(RunOf(s, front), back, AnyOutstanding(RunOf(s, front)));
  }

  /** Some output that fits the sender's phase. */
  function AnyOutstanding(s: Sender): (last: Text)
    ensures Outstanding(s, last)
  {
    if s.phase.Writing? then seq(HEADER_SIZE + s.phase.size, _ => 0) else []
  }

  lemma {:induction false} RunSplits(s: Sender, front: seq<Event>, back: seq<Event>)
    requires Sane(s) && Feasible(s, front + back)
    ensures Feasible(s, front) && Sane(RunOf(s, front)) && Feasible(RunOf(s, front), back)
    ensures RunOf(s, front + back) == RunOf(RunOf(s, front), back)
    decreases |front|
  {
    hide Step, Ready, Sane;
    if front == [] {
      assert front + back == back;
    } else {
      assert (front + back)[1..] == front[1..] + back;
      StepSane(s, front[0]);
      RunSplits(Step(s, front[0]).sender, front[1..], back);
    }
  }

  // ------------------------------------------------------------------ silent endings

  /** A transfer that has ended has made no report exactly when its last callback was one of the silent
      endings, and one report otherwise. */
  lemma EndsSilentlyIff(j: Job, events: seq<Event>)
    requires Feasible(Initial(j), events) && RunOf(Initial(j), events).phase.Finished?
    ensures events != [] && Feasible(Initial(j), events[..|events| - 1])
    ensures var before, last := RunOf(Initial(j), events[..|events| - 1]), events[|events| - 1];
            && Ready(before, last)
            && |RunOf(Initial(j), events).reports| == if Silent(before, last) then 0 else 1
  {
    hide Ready, Silent, Step;
    var n := |events| - 1;
    var s, front, last := Initial(j), events[..n], events[n];
    assert front + [last] == events;
    RunSplits(s, front, [last]);
    RunCounts(s, front, []);
    var before := RunOf(s, front);
    OneEvent(before, last);
    NotOver(before, last);
    ReportsUnlessSilent(before, last);
  }

  lemma NotOver(s: Sender, e: Event)
    requires Ready(s, e)
    ensures !s.phase.Finished?
  {
  }

  lemma {:induction false} RunJoins(s: Sender, front: seq<Event>, back: seq<Event>)
    requires Sane(s) && Feasible(s, front) && Sane(RunOf(s, front)) && Feasible(RunOf(s, front), back)
    ensures Feasible(s, front + back) && RunOf(s, front + back) == RunOf(RunOf(s, front), back)
    decreases |front|
  {
    hide Step, Ready, Sane;
    if front == [] {
      assert front + back == back;
    } else {
      assert (front + back)[1..] == front[1..] + back;
      StepSane(s, front[0]);
      RunJoins(Step(s, front[0]).sender, front[1..], back);
    }
  }

  lemma OneEvent(s: Sender, e: Event)
    requires Sane(s) && Ready(s, e)
    ensures Feasible(s, [e]) && RunOf(s, [e]) == Step(s, e).sender
  {
    hide Ready, Step;
    StepSane(s, e);
    assert Feasible(Step(s, e).sender, []);
    assert RunOf(Step(s, e).sender, []) == Step(s, e).sender;
  }

  /** One more callback after a run. */
  lemma Extend(j: Job, events: seq<Event>, e: Event)
    requires Feasible(Initial(j), events) && Sane(RunOf(Initial(j), events)) && Ready(RunOf(Initial(j), events), e)
    ensures Feasible(Initial(j), events + [e])
    ensures RunOf(Initial(j), events + [e]) == Step(RunOf(Initial(j), events), e).sender
  {
    hide Ready, Step, Feasible, RunOf;
    OneEvent(RunOf(Initial(j), events), e);
    RunJoins(Initial(j), events, [e]);
  }

  /** The header of a message of this type, as its bytes arrive. */
  function HeaderEvent(msgType: Byte, id: u64, payloadLen: u32): Event {
    Got(HeaderBytes(BuildHeader(msgType, id, payloadLen)))
  }

  lemma HeaderEventReads(msgType: Byte, id: u64, payloadLen: u32)
    ensures var data := HeaderEvent(msgType, id, payloadLen).data;
            && |data| == HEADER_SIZE && ParseHeader(data).Some?
            && ParseHeader(data).value.msgType == msgType && ParseHeader(data).value.payloadLen == payloadLen
  {
    hide ParseHeader;
    BuiltHeaderParses(msgType, id, payloadLen);
  }

  /** Every transfer can get as far as its offer. */
  lemma OfferGoesOut(j: Job) returns (events: seq<Event>)
    ensures Feasible(Initial(j), events) && RunOf(Initial(j), events) == Initial(j).(phase := AwaitReply)
  {
    hide FrameBytes, OfferFrame;
    var s := Initial(j);
    OneEvent(s, Connected(true));
    Extend(j, [Connected(true)], Shaken(true));
    events := [Connected(true)] + [Shaken(true)];
  }

  /** For every file there is a run that ends without a report: a reply of any type but accept and
      reject. */
  lemma SilentOnStrangeReply(j: Job, msgType: Byte) returns (events: seq<Event>)
    requires msgType != TRANSFER_ACCEPT && msgType != TRANSFER_REJECT
    ensures Feasible(Initial(j), events)
    ensures var p := RunOf(Initial(j), events); p.phase.Finished? && p.reports == []
  {
    hide Feasible, RunOf, ParseHeader, HeaderBytes;
    events := OfferGoesOut(j);
    var e := HeaderEvent(msgType, j.sessionId, 0);
    HeaderEventReads(msgType, j.sessionId, 0);
    Extend(j, events, e);
    events := events + [e];
  }

  /** From any point of the data phase, completed writes lead to the acknowledgement. */
  lemma {:induction false} WritesLeadToAck(j: Job, events: seq<Event>) returns (all: seq<Event>)
    requires Feasible(Initial(j), events)
    requires var p := RunOf(Initial(j), events); p.job == j && Sane(p) && p.reports == [] && (p.phase.Writing? || p.phase.AwaitAck?)
    ensures Feasible(Initial(j), all)
    ensures var p := RunOf(Initial(j), all); Sane(p) && p.phase.AwaitAck? && p.reports == []
    decreases |j.content| - RunOf(Initial(j), events).position, RunOf(Initial(j), events).phase.Writing?
  {
    hide Feasible, RunOf, FrameBytes, ChunkFrame, DoneFrame;
    var p := RunOf(Initial(j), events);
    if p.phase.AwaitAck? {
      all := events;
    } else {
      Extend(j, events, Written(true));
      all := WritesLeadToAck(j, events + [Written(true)]);
    }
  }

  /** For every file there is a run that sends all of it and ends without a report: the receiver says
      that the checksum is wrong. */
  lemma SilentOnBadChecksum(j: Job) returns (events: seq<Event>)
    ensures Feasible(Initial(j), events)
    ensures var p := RunOf(Initial(j), events); p.phase.Finished? && p.reports == [] && p.bytesSent == |j.content|
  {
    hide Feasible, RunOf, ParseHeader, HeaderBytes, FrameBytes, ChunkFrame, DoneFrame;
    events := OfferGoesOut(j);
    var accept, ack := HeaderEvent(TRANSFER_ACCEPT, j.sessionId, 0), HeaderEvent(TRANSFER_ACK, j.sessionId, 1);
    HeaderEventReads(TRANSFER_ACCEPT, j.sessionId, 0);
    HeaderEventReads(TRANSFER_ACK, j.sessionId, 1);
    Extend(j, events, accept);
    events := WritesLeadToAck(j, events + [accept]);
    SenderCountsAndReportsOnce(j, events, 0);
    Extend(j, events, ack);
    Extend(j, events + [ack], Got([0]));
    events := events + [ack] + [Got([0])];
  }
}
