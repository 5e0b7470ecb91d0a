/** One invocation over a persistent worker's frame protocol (invokeV2 in
    internal/plugin/system_transport.go) and what becomes of the worker afterwards
    (invokeV2Pooled in internal/plugin/system_runner.go). Frames are given decoded;
    a line that does not decode is a line without a frame. */
module Transport {
  import opened Options
  import PoolModel
  import SystemPool
  import PoolInvariant

  const MAX_STDERR_BYTES: nat := 1048576
  const MAX_DIAGNOSTIC_WIRE_BYTES: nat := (MAX_STDERR_BYTES * 4 + 2) / 3 + 256 * 1024
  const MAX_DIAGNOSTIC_CHUNKS: nat := 1024

  datatype Kind = RuntimeReady | InvokeResult | InvokeReady | StderrComplete | StderrChunk | HostCall | HostResponse | OtherKind

  /** A host call id: absent, not of the protocol's form, or of it. */
  datatype HostId = NoId | BadId | Id(n: nat)

  /** Which members carry something, and what they decode to. `chunk` is the decoded length of canonical data. */
  datatype Frame = Frame(
    protocol: nat, kind: Kind, generation: nat, invocation: nat, hostCallID: HostId,
    features: nat, data: bool, request: bool, response: bool, hostCall: bool, hostResponse: bool,
    reply: Option<nat>, call: Option<nat>, chunk: Option<nat>)

  /** What the next read gives: a line of so many bytes, with its frame if it decodes and
      whether a host call in it could be answered; or no line at all. */
  datatype Read = Line(bytes: nat, frame: Option<Frame>, answered: bool) | NoLine

  datatype Limits = Limits(stdout: nat, hostCalls: nat)

  /** validateStdioJSONV2Frame, for a valid invocation id and no expected host call. */
  predicate ValidFrame(f: Frame, generation: nat, invocation: nat) {
    && f.protocol == 2 && f.generation != 0 && f.generation == generation && f.invocation == invocation
    && f.kind != RuntimeReady && f.kind != OtherKind && f.features == 0 && (f.data ==> f.kind == StderrChunk)
    && match f.kind
       case InvokeResult => f.response && f.hostCallID == NoId && !f.request && !f.hostCall && !f.hostResponse
       case InvokeReady => f.hostCallID == NoId && !f.request && !f.response && !f.hostCall && !f.hostResponse
       case StderrComplete => f.hostCallID == NoId && !f.request && !f.response && !f.hostCall && !f.hostResponse
       case StderrChunk => f.data && f.hostCallID == NoId && !f.request && !f.response && !f.hostCall && !f.hostResponse
       case HostCall => f.hostCallID.Id? && f.hostCall && !f.request && !f.response && !f.hostResponse
       case HostResponse => f.hostCallID.Id? && f.hostResponse && !f.request && !f.response && !f.hostCall
       case _ => false
  }

  /** The whole frame, told by what it says and carries. */
  function Shape(f: Frame, kind: Kind, generation: nat, invocation: nat, id: HostId, data: bool, response: bool, hostCall: bool, hostResponse: bool): Frame {
    Frame(2, kind, generation, invocation, id, 0, data, false, response, hostCall, hostResponse, f.reply, f.call, f.chunk)
  }

  /** The frames of an invocation are these six and no others, and none belongs to generation 0; the check of the
      last one, invoke_ready, does not look at features and data. */
  lemma FrameShapes(f: Frame, generation: nat, invocation: nat)
    ensures ValidFrame(f, generation, invocation) <==>
              && generation != 0
              && (|| f == Shape(f, InvokeResult, generation, invocation, NoId, false, true, false, false)
                  || f == Shape(f, InvokeReady, generation, invocation, NoId, false, false, false, false)
                  || f == Shape(f, StderrComplete, generation, invocation, NoId, false, false, false, false)
                  || f == Shape(f, StderrChunk, generation, invocation, NoId, true, false, false, false)
                  || (f.hostCallID.Id? && f == Shape(f, HostCall, generation, invocation, f.hostCallID, false, false, true, false))
                  || (f.hostCallID.Id? && f == Shape(f, HostResponse, generation, invocation, f.hostCallID, false, false, false, true)))
    ensures ValidReady(f, generation, invocation) <==>
              f.(features := 0, data := false) == Shape(f, InvokeReady, generation, invocation, NoId, false, false, false, false)
  {
    match f.kind
    case InvokeResult =>
    case InvokeReady =>
    case StderrComplete =>
    case StderrChunk =>
    case HostCall =>
    case HostResponse =>
    case _ =>
  }

  /** validateInvokeReady */
  predicate ValidReady(f: Frame, generation: nat, invocation: nat) {
    && f.protocol == 2 && f.kind == InvokeReady && f.generation == generation && f.invocation == invocation
    && f.hostCallID == NoId && !f.request && !f.response && !f.hostCall && !f.hostResponse
  }

  predicate IsFrame(r: Read, generation: nat, invocation: nat, kind: Kind) {
    r.Line? && r.frame.Some? && ValidFrame(r.frame.value, generation, invocation) && r.frame.value.kind == kind
  }

  /*** What a dialogue amounts to ***/

  /** Bytes on the wire that count against the invocation's stdout, newlines included. */
  ghost function StdoutBytes(rs: seq<Read>): nat {
    if rs == [] then 0
    else
      var r := rs[|rs| - 1];
      StdoutBytes(rs[..|rs| - 1]) + (if r.Line? && !(r.frame.Some? && r.frame.value.kind == StderrChunk) then r.bytes + 1 else 0)
  }

  ghost function HostCallIds(rs: seq<Read>): seq<nat> {
    if rs == [] then []
    else
      var r := rs[|rs| - 1];
      HostCallIds(rs[..|rs| - 1]) + (if r.Line? && r.frame.Some? && r.frame.value.kind == HostCall && r.frame.value.hostCallID.Id? then [r.frame.value.hostCallID.n] else [])
  }

  ghost predicate IsChunk(r: Read) { r.Line? && r.frame.Some? && r.frame.value.kind == StderrChunk && r.frame.value.chunk.Some? }

  ghost function Chunks(rs: seq<Read>): nat {
    if rs == [] then 0 else Chunks(rs[..|rs| - 1]) + (if IsChunk(rs[|rs| - 1]) then 1 else 0)
  }

  ghost function ChunkWire(rs: seq<Read>): nat {
    if rs == [] then 0 else ChunkWire(rs[..|rs| - 1]) + (if IsChunk(rs[|rs| - 1]) then rs[|rs| - 1].bytes + 1 else 0)
  }

  ghost function ChunkDecoded(rs: seq<Read>): nat {
    if rs == [] then 0 else ChunkDecoded(rs[..|rs| - 1]) + (if IsChunk(rs[|rs| - 1]) then rs[|rs| - 1].frame.value.chunk.value else 0)
  }

  predicate Distinct(s: seq<nat>) { forall i, j :: 0 <= i < j < |s| ==> s[i] != s[j] }

  /** A frame that may come before the result: a host call that was answered, or a diagnostics chunk. */
  ghost predicate BodyFrame(r: Read, generation: nat, invocation: nat) {
    || (IsFrame(r, generation, invocation, HostCall) && r.frame.value.call.Some? && r.answered)
    || (IsFrame(r, generation, invocation, StderrChunk) && r.frame.value.chunk.Some?)
  }

  datatype Session = Session(generation: nat, invocation: nat, limits: Limits, lines: seq<Read>) {
    /** The first n reads are a proper dialogue so far, within every budget. */
    ghost predicate Body(n: nat)
      requires n <= |lines|
    {
      && (forall i :: 0 <= i < n ==> BodyFrame(lines[i], generation, invocation))
      && Distinct(HostCallIds(lines[..n])) && |HostCallIds(lines[..n])| <= limits.hostCalls
      && StdoutBytes(lines[..n]) <= limits.stdout
      && Chunks(lines[..n]) <= 1024 && ChunkWire(lines[..n]) <= 1_660_246 && ChunkDecoded(lines[..n]) <= 1_048_576
    }

    /** The r-th read is the result of this invocation, after a proper dialogue. */
    ghost predicate ResultAt(r: nat) {
      r < |lines| && Body(r) && IsFrame(lines[r], generation, invocation, InvokeResult) && lines[r].frame.value.reply.Some?
      && StdoutBytes(lines[..r + 1]) <= limits.stdout
    }

    /** The result is followed by stderr_complete and invoke_ready, within the stdout budget. */
    ghost predicate TailAt(r: nat) {
      && r + 2 < |lines| && IsFrame(lines[r + 1], generation, invocation, StderrComplete)
      && lines[r + 2].Line? && lines[r + 2].frame.Some? && ValidReady(lines[r + 2].frame.value, generation, invocation)
      && StdoutBytes(lines[..r + 3]) <= limits.stdout
    }

    lemma Extend(n: nat)
      requires n < |lines|
      ensures var r := lines[n];
              && lines[..n + 1][..n] == lines[..n]
              && StdoutBytes(lines[..n + 1]) == StdoutBytes(lines[..n]) + (if r.Line? && !(r.frame.Some? && r.frame.value.kind == StderrChunk) then r.bytes + 1 else 0)
              && HostCallIds(lines[..n + 1]) == HostCallIds(lines[..n]) + (if r.Line? && r.frame.Some? && r.frame.value.kind == HostCall && r.frame.value.hostCallID.Id? then [r.frame.value.hostCallID.n] else [])
              && Chunks(lines[..n + 1]) == Chunks(lines[..n]) + (if IsChunk(r) then 1 else 0)
              && ChunkWire(lines[..n + 1]) == ChunkWire(lines[..n]) + (if IsChunk(r) then r.bytes + 1 else 0)
              && ChunkDecoded(lines[..n + 1]) == ChunkDecoded(lines[..n]) + (if IsChunk(r) then r.frame.value.chunk.value else 0)
    {
      assert lines[..n + 1][..n] == lines[..n];
    }

    /** A proper dialogue was proper all along. */
    lemma {:induction false} BodyPrefix(n: nat, m: nat)
      requires n <= m <= |lines| && Body(m)
      ensures Body(n)
      decreases m - n
    {
      if n < m {
        Extend(m - 1);
        PrefixDistinct(HostCallIds(lines[..m - 1]), HostCallIds(lines[..m]));
        BodyPrefix(n, m - 1);
      }
    }

    /** Where the dialogue stops being proper, no later result counts. */
    lemma NoResult(i: nat)
      requires i <= |lines| && (i < |lines| ==> !Body(i + 1) && !ResultAt(i)) && forall r: nat :: r < i ==> !ResultAt(r)
      ensures forall r: nat :: !ResultAt(r)
    {
      forall r: nat ensures !ResultAt(r) {
        if i < r && ResultAt(r) { BodyPrefix(i + 1, r); }
      }
    }

    /** There is at most one result: a result is no part of a proper dialogue. */
    lemma OneResult(r: nat, s: nat)
      requires ResultAt(r) && ResultAt(s)
      ensures r == s
    {
      NotBodyFrame(r, s);
      NotBodyFrame(s, r);
    }

    lemma NotBodyFrame(r: nat, s: nat)
      requires ResultAt(r) && ResultAt(s)
      ensures !(r < s)
    {
      assert forall i :: 0 <= i < s ==> BodyFrame(lines[i], generation, invocation);
    }

    /** One more read keeps the dialogue proper exactly when it is a body frame within the budgets. */
    lemma BodyNext(n: nat)
      requires n < |lines| && Body(n)
      ensures var r := lines[n];
              Body(n + 1) <==>
                if IsFrame(r, generation, invocation, HostCall) then
                  && r.frame.value.call.Some? && r.answered && r.frame.value.hostCallID.n !in HostCallIds(lines[..n])
                  && |HostCallIds(lines[..n])| < limits.hostCalls && StdoutBytes(lines[..n]) + r.bytes + 1 <= limits.stdout
                else
                  && IsFrame(r, generation, invocation, StderrChunk) && r.frame.value.chunk.Some?
                  && Chunks(lines[..n]) < MAX_DIAGNOSTIC_CHUNKS && ChunkWire(lines[..n]) + r.bytes + 1 <= MAX_DIAGNOSTIC_WIRE_BYTES
                  && ChunkDecoded(lines[..n]) + r.frame.value.chunk.value <= MAX_STDERR_BYTES
    {
      hide StdoutBytes, ChunkWire, Chunks, ChunkDecoded, HostCallIds, Distinct;
      Extend(n);
      var r := lines[n];
      if IsFrame(r, generation, invocation, HostCall) {
        Repeats(HostCallIds(lines[..n]), r.frame.value.hostCallID.n);
        AppendDistinct(HostCallIds(lines[..n]), r.frame.value.hostCallID.n);
      }
      assert HostCallIds(lines[..n]) + [] == HostCallIds(lines[..n]);
      assert (forall i :: 0 <= i < n + 1 ==> BodyFrame(lines[i], generation, invocation)) <==> BodyFrame(r, generation, invocation);
    }

    lemma ResultHere(n: nat)
      requires n < |lines| && Body(n)
      ensures ResultAt(n) <==>
                IsFrame(lines[n], generation, invocation, InvokeResult) && lines[n].frame.value.reply.Some?
                && StdoutBytes(lines[..n]) + lines[n].bytes + 1 <= limits.stdout
    {
      hide StdoutBytes, Body;
      Extend(n);
    }
  }

  lemma PrefixDistinct(a: seq<nat>, b: seq<nat>)
    requires a <= b && Distinct(b)
    ensures Distinct(a)
  {
    assert forall i :: 0 <= i < |a| ==> a[i] == b[i];
  }

  /*** The loop ***/

  /** How the call began: what can go wrong before a frame is read. */
  datatype Start = ContextEnded | BadCorrelation | Unavailable | WriteFailed | WriteInterrupted | Dispatched

  datatype Failure = ContextError | OtherError

  datatype Outcome = Outcome(reply: Option<nat>, resultSeen: bool, reusable: bool, retirement: bool, dispatchStarted: bool, failure: Option<Failure>)

  function Failed(dispatched: bool, f: Failure): Outcome { Outcome(None, false, false, false, dispatched, Some(f)) }

  /** Exactly what an invocation must report. */
  ghost predicate Reports(s: Session, start: Start, o: Outcome) {
    && (o.resultSeen <==> start == Dispatched && exists r: nat :: s.ResultAt(r))
    && (o.failure.None? <==> o.resultSeen)
    && (o.reusable <==> start == Dispatched && exists r: nat :: s.ResultAt(r) && s.TailAt(r))
    && (o.retirement <==> o.resultSeen && !o.reusable)
    && (o.resultSeen ==> forall r: nat :: s.ResultAt(r) ==> o.reply == s.lines[r].frame.value.reply)
    && (!o.resultSeen ==> (o.dispatchStarted <==> start != ContextEnded && start != BadCorrelation && start != Unavailable))
    && (start == ContextEnded ==> o.failure == Some(ContextError))
    && (start == BadCorrelation || start == Unavailable ==> o.failure == Some(OtherError))
  }

  lemma ReportsFailure(s: Session, start: Start, o: Outcome)
    requires o.Outcome? && !o.resultSeen && !o.reusable && !o.retirement && o.failure.Some?
    requires start == Dispatched ==> forall r: nat :: !s.ResultAt(r)
    requires o.dispatchStarted <==> start != ContextEnded && start != BadCorrelation && start != Unavailable
    requires start == ContextEnded ==> o.failure == Some(ContextError)
    requires start == BadCorrelation || start == Unavailable ==> o.failure == Some(OtherError)
    ensures Reports(s, start, o)
  {}

  /** What the loop has counted over the reads so far. */
  datatype Tally = Tally(seen: set<nat>, stdout: nat, wire: nat, chunks: nat, decoded: nat)

  ghost predicate Tallied(s: Session, i: nat, t: Tally) {
    && i <= |s.lines| && s.Body(i)
    && t.stdout == StdoutBytes(s.lines[..i]) && t.wire == ChunkWire(s.lines[..i]) && t.chunks == Chunks(s.lines[..i]) && t.decoded == ChunkDecoded(s.lines[..i])
    && |t.seen| == |HostCallIds(s.lines[..i])| && forall h :: h in t.seen <==> h in HostCallIds(s.lines[..i])
  }

  /** What one read means: go on, the result has come, or stop. */
  datatype Verdict = GoOn | Answer | Stop(failure: Failure)

  ghost predicate Judged(s: Session, i: nat, v: Verdict, t: Tally) {
    match v
    case GoOn => Tallied(s, i + 1, t) && !s.ResultAt(i)
    case Answer => s.ResultAt(i) && t.stdout == StdoutBytes(s.lines[..i + 1])
    case Stop(_) => i < |s.lines| && !s.Body(i + 1) && !s.ResultAt(i)
  }

  method JudgeHostCall(s: Session, i: nat, t: Tally, ctx: Failure) returns (v: Verdict, t': Tally)
    requires i < |s.lines| && Tallied(s, i, t) && IsFrame(s.lines[i], s.generation, s.invocation, HostCall)
    requires t.stdout + s.lines[i].bytes + 1 <= s.limits.stdout
    ensures Judged(s, i, v, t')
  {
    hide StdoutBytes, ChunkWire, Chunks, ChunkDecoded, HostCallIds, Distinct, Session.Body, Session.ResultAt;
    s.Extend(i);
    s.BodyNext(i);
    s.ResultHere(i);
    var f := s.lines[i].frame.value;
    var id := f.hostCallID.n;
    t' := t;
    if id in t.seen || |t.seen| >= s.limits.hostCalls || f.call.None? { return Stop(OtherError), t; }
    if !s.lines[i].answered { return Stop(ctx), t; }
    AppendDistinct(HostCallIds(s.lines[..i]), id);
    t' := t.(seen := t.seen + {id}, stdout := t.stdout + s.lines[i].bytes + 1);
    v := GoOn;
  }

  method JudgeChunk(s: Session, i: nat, t: Tally) returns (v: Verdict, t': Tally)
    requires i < |s.lines| && Tallied(s, i, t) && IsFrame(s.lines[i], s.generation, s.invocation, StderrChunk)
    ensures Judged(s, i, v, t')
  {
    hide StdoutBytes, ChunkWire, Chunks, ChunkDecoded, HostCallIds, Distinct, Session.Body, Session.ResultAt;
    s.Extend(i);
    s.BodyNext(i);
    s.ResultHere(i);
    var f, bytes := s.lines[i].frame.value, s.lines[i].bytes;
    t' := t.(chunks := t.chunks + 1, wire := t.wire + bytes + 1);
    if t'.chunks > MAX_DIAGNOSTIC_CHUNKS || t'.wire > MAX_DIAGNOSTIC_WIRE_BYTES || f.chunk.None? { return Stop(OtherError), t'; }
    if f.chunk.value > MAX_STDERR_BYTES - t.decoded { return Stop(OtherError), t'; }
    t' := t'.(decoded := t.decoded + f.chunk.value);
    v := GoOn;
  }

  /** One turn of the loop. */
  method Judge(s: Session, i: nat, t: Tally, ctx: Failure) returns (v: Verdict, t': Tally)
    requires i < |s.lines| && Tallied(s, i, t)
    ensures Judged(s, i, v, t')
  {
    hide StdoutBytes, ChunkWire, Chunks, ChunkDecoded, HostCallIds, Distinct, Session.Body, Session.ResultAt;
    s.Extend(i);
    s.BodyNext(i);
    s.ResultHere(i);
    var read := s.lines[i];
    t' := t;
    if read.NoLine? { return Stop(ctx), t; }
    if read.frame.None? || !ValidFrame(read.frame.value, s.generation, s.invocation) { return Stop(OtherError), t; }
    var f := read.frame.value;
    if f.kind == StderrChunk {
      v, t' := JudgeChunk(s, i, t);
      return;
    }
    if t.stdout + read.bytes + 1 > s.limits.stdout { return Stop(OtherError), t; }
    if f.kind == HostCall {
      v, t' := JudgeHostCall(s, i, t, ctx);
      return;
    }
    if f.kind != InvokeResult || f.reply.None? { return Stop(OtherError), t; }
    t' := t.(stdout := t.stdout + read.bytes + 1);
    v := Answer;
  }

  /** invokeV2: reads frame by frame until the worker has answered and is ready again, or
      something is out of place. `ctx` says what a missing line or an unsent answer is put down to. */
  method InvokeV2(s: Session, start: Start, ctx: Failure) returns (o: Outcome)
    ensures Reports(s, start, o)
  {
    hide Session.Body, Session.ResultAt, Reports;
    if start != Dispatched {
      o := Failed(start == WriteFailed || start == WriteInterrupted, if start == ContextEnded || start == WriteInterrupted then ContextError else OtherError);
      ReportsFailure(s, start, o);
      return;
    }
    var i, t := 0, Tally({}, 0, 0, 0, 0);
    TalliedNone(s);
    while i < |s.lines|
      invariant i <= |s.lines| && Tallied(s, i, t) && forall r: nat :: r < i ==> !s.ResultAt(r)
    {
      var v;
      v, t := Judge(s, i, t, ctx);
      if v.Answer? {
        o := Tail(s, i, t.stdout);
        return;
      }
      if v.Stop? {
        s.NoResult(i);
        o := Failed(true, v.failure);
        ReportsFailure(s, start, o);
        return;
      }
      i := i + 1;
    }
    s.NoResult(i);
    o := Failed(true, ctx);
    ReportsFailure(s, start, o);
  }

  lemma TalliedNone(s: Session)
    ensures Tallied(s, 0, Tally({}, 0, 0, 0, 0))
  {
    assert s.lines[..0] == [];
  }

  /** After the result: stderr_complete and invoke_ready make the worker reusable; anything
      else retires it but keeps the result. */
  method Tail(s: Session, r: nat, stdout0: nat) returns (o: Outcome)
    requires s.ResultAt(r) && stdout0 == StdoutBytes(s.lines[..r + 1])
    ensures Reports(s, Dispatched, o)
  {
    hide StdoutBytes, Session.Body;
    var reply := s.lines[r].frame.value.reply;
    var retired := Outcome(reply, true, false, true, false, None);
    forall q: nat | s.ResultAt(q) ensures q == r { s.OneResult(q, r); }
    if r + 1 == |s.lines| || s.lines[r + 1].NoLine? { return retired; }
    s.Extend(r + 1);
    var complete := s.lines[r + 1];
    var stdout := stdout0 + complete.bytes + 1;
    if complete.frame.None? || !ValidFrame(complete.frame.value, s.generation, s.invocation) || complete.frame.value.kind != StderrComplete { return retired; }
    if r + 2 == |s.lines| || s.lines[r + 2].NoLine? { return retired; }
    s.Extend(r + 2);
    var ready := s.lines[r + 2];
    if stdout > s.limits.stdout { return retired; }
    stdout := stdout + ready.bytes + 1;
    if ready.frame.None? || !ValidReady(ready.frame.value, s.generation, s.invocation) { return retired; }
    if stdout > s.limits.stdout { return retired; }
    assert s.TailAt(r);
    return Outcome(reply, true, true, false, false, None);
  }

  lemma Repeats(ids: seq<nat>, id: nat)
    ensures id in ids ==> !Distinct(ids + [id])
  {
    if id in ids {
      var i :| 0 <= i < |ids| && ids[i] == id;
      assert (ids + [id])[i] == (ids + [id])[|ids|];
    }
  }

  lemma AppendDistinct(ids: seq<nat>, id: nat)
    ensures Distinct(ids) && id !in ids ==> Distinct(ids + [id])
    ensures forall h :: h in ids + [id] <==> h in ids || h == id
  {}

  /*** The worker's fate ***/

  /** What the checked-out worker deserves. */
  function Fate(o: Outcome): PoolModel.Ending {
    if o.failure.Some? then (if !o.dispatchStarted && o.failure.value == ContextError then PoolModel.ReturnUnused else PoolModel.Poison)
    else if o.retirement then PoolModel.Poison
    else if o.reusable then PoolModel.Release
    else PoolModel.Poison
  }

  /** invokeV2Pooled, once its checkout has given worker w to `call`: the lease ends exactly
      once, in the way the dialogue deserves. */
  method InvokePooled(pool: SystemPool.Pool, call: nat, w: nat, s: Session, start: Start, ctx: Failure, now: int) returns (o: Outcome)
    requires pool.Valid() && call in pool.calls && pool.calls[call] == PoolModel.Holding(w)
    modifies pool
    ensures pool.Valid() && Reports(s, start, o)
    ensures pool.State() == PoolModel.End(old(pool.State()), call, Fate(o), now)
  {
    hide Reports, PoolInvariant.Inv;
    o := InvokeV2(s, start, ctx);
    if o.failure.Some? {
      if !o.dispatchStarted && o.failure.value == ContextError {
        pool.FinishLease(call, w, false, now);
      } else {
        pool.PoisonWorker(call, w);
      }
    } else if o.retirement {
      pool.PoisonWorker(call, w);
    } else if o.reusable {
      pool.FinishLease(call, w, true, now);
    } else {
      pool.PoisonWorker(call, w);
    }
  }

  /** A worker is put back for reuse exactly when its dialogue was complete, and goes back
      unused only when nothing was sent to it. */
  lemma ReleasedOnlyWhenComplete(s: Session, start: Start, o: Outcome)
    requires Reports(s, start, o)
    ensures Fate(o) == PoolModel.Release <==> start == Dispatched && exists r: nat :: s.ResultAt(r) && s.TailAt(r)
    ensures Fate(o) == PoolModel.ReturnUnused <==> start == ContextEnded
    ensures start == Dispatched && (exists r: nat :: s.ResultAt(r)) ==> o.failure.None? && o.reply.Some?
  {}
}
