/** The audit log with its sidecar anchor (internal/audit/wal.go): a hash chain, the
    two-phase anchor around each append, and reopening. A chain hash is kept as the term
    it hashes, so it is injective and never the genesis value. */
module AuditModel {
  import opened Options

  /** An event; id 0 stands for no id. */
  datatype Event = Event(id: nat, body: nat)

  datatype Hash = Genesis | ChainHash(prev: Hash, seqNo: nat, event: Event)

  /** One line of the file: a record, an empty line, or something that is no record. */
  datatype Line = Record(seqNo: nat, prev: Hash, hash: Hash, event: Event) | Blank | Malformed

  datatype Checkpoint = Checkpoint(count: nat, head: Hash)

  datatype Anchor = Anchor(committed: Checkpoint, pending: Option<Checkpoint>)

  datatype Disk = Disk(file: seq<Line>, anchor: Option<Anchor>)

  datatype Result<T> = Ok(value: T) | Err

  /*** Chains ***/

  function Head(es: seq<Event>): Hash {
    if es == [] then Genesis else ChainHash(Head(es[..|es| - 1]), |es|, es[|es| - 1])
  }

  function Chain(es: seq<Event>): seq<Line> {
    if es == [] then [] else Chain(es[..|es| - 1]) + [Record(|es|, Head(es[..|es| - 1]), Head(es), es[|es| - 1])]
  }

  function At(es: seq<Event>): Checkpoint { Checkpoint(|es|, Head(es)) }

  /** Heads tell chains apart. */
  lemma {:induction false} HeadInjective(a: seq<Event>, b: seq<Event>)
    requires Head(a) == Head(b)
    ensures a == b
    decreases |a|
  {
    if a != [] && b != [] {
      HeadInjective(a[..|a| - 1], b[..|b| - 1]);
      assert a == a[..|a| - 1] + [a[|a| - 1]] && b == b[..|b| - 1] + [b[|b| - 1]];
    }
  }

  /*** Verifying ***/

  /** Verify: sequence numbers from 1, each record on the running head, each hash recomputed. */
  function Verify(file: seq<Line>): Result<Checkpoint> {
    if file == [] then Ok(Checkpoint(0, Genesis))
    else
      var before, line := Verify(file[..|file| - 1]), file[|file| - 1];
      if before.Err? then Err else VerifyLine(before.value, line)
  }

  function VerifyLine(c: Checkpoint, line: Line): Result<Checkpoint> {
    match line
    case Blank => Ok(c)
    case Malformed => Err
    case Record(seqNo, prev, hash, ev) =>
      if seqNo == c.count + 1 && prev == c.head && hash == ChainHash(c.head, seqNo, ev) then Ok(Checkpoint(seqNo, hash)) else Err
  }

  function Events(file: seq<Line>): seq<Event> {
    if file == [] then []
    else
      var line := file[|file| - 1];
      if line.Record? then Events(file[..|file| - 1]) + [line.event] else Events(file[..|file| - 1])
  }

  function WithoutBlanks(file: seq<Line>): seq<Line> {
    if file == [] then []
    else if file[|file| - 1] == Blank then WithoutBlanks(file[..|file| - 1]) else WithoutBlanks(file[..|file| - 1]) + [file[|file| - 1]]
  }

  /** Verification accepts exactly the chains, empty lines aside, and reports their head. */
  lemma {:induction false} VerifyIsChain(file: seq<Line>)
    ensures Verify(file).Ok? <==> WithoutBlanks(file) == Chain(Events(file))
    ensures Verify(file).Ok? ==> Verify(file).value == At(Events(file))
    ensures |WithoutBlanks(file)| >= |Events(file)|
  {
    if file != [] {
      var init, line := file[..|file| - 1], file[|file| - 1];
      VerifyIsChain(init);
      var es := Events(init);
      if line.Record? {
        ChainEnds(WithoutBlanks(init), es, line);
      } else if line == Malformed {
        ChainLength(es);
      }
    }
  }

  /** One more record continues a chain exactly when it carries the next number, head and hash. */
  lemma ChainEnds(lines: seq<Line>, es: seq<Event>, line: Line)
    requires line.Record?
    ensures lines + [line] == Chain(es + [line.event]) <==>
              lines == Chain(es) && line == Record(|es| + 1, Head(es), Head(es + [line.event]), line.event)
    ensures Head(es + [line.event]) == ChainHash(Head(es), |es| + 1, line.event)
  {
    var now := es + [line.event];
    assert now[..|es|] == es;
    var last := Record(|now|, Head(es), Head(now), line.event);
    assert Chain(now) == Chain(es) + [last];
    if lines + [line] == Chain(es) + [last] {
      assert lines == (lines + [line])[..|lines + [line]| - 1] == (Chain(es) + [last])[..|Chain(es) + [last]| - 1] == Chain(es);
      assert line == (lines + [line])[|lines + [line]| - 1];
    }
  }

  lemma {:induction false} ChainLength(es: seq<Event>)
    ensures |Chain(es)| == |es| && Events(Chain(es)) == es && WithoutBlanks(Chain(es)) == Chain(es)
  {
    if es != [] {
      var init := es[..|es| - 1];
      ChainLength(init);
      assert Chain(es)[..|Chain(es)| - 1] == Chain(init);
      assert es == init + [es[|es| - 1]];
    }
  }

  lemma ChainVerifies(es: seq<Event>)
    ensures Verify(Chain(es)) == Ok(At(es))
  {
    ChainLength(es);
    VerifyIsChain(Chain(es));
  }

  /** Verify as the loop runs it, over a running head. */
  method VerifyFile(file: seq<Line>) returns (r: Result<Checkpoint>)
    ensures r == Verify(file)
  {
    var c := Checkpoint(0, Genesis);
    for i := 0 to |file|
      invariant Verify(file[..i]) == Ok(c)
    {
      assert file[..i + 1][..i] == file[..i];
      match file[i] {
        case Blank => continue;
        case Malformed =>
          VerifyStops(file, i + 1);
          return Err;
        case Record(seqNo, prev, hash, ev) =>
          if seqNo != c.count + 1 || prev != c.head || hash != ChainHash(c.head, seqNo, ev) {
            VerifyStops(file, i + 1);
            return Err;
          }
          c := Checkpoint(c.count + 1, hash);
      }
    }
    assert file[..|file|] == file;
    return Ok(c);
  }

  lemma {:induction false} VerifyStops(file: seq<Line>, i: nat)
    requires i <= |file| && Verify(file[..i]).Err?
    ensures Verify(file).Err?
    decreases |file| - i
  {
    if i == |file| {
      assert file[..i] == file;
    } else {
      assert file[..i + 1][..i] == file[..i];
      VerifyStops(file, i + 1);
    }
  }

  /*** Fingerprints ***/

  /** readWALFingerprints: every line must be a record, and no id may come twice. */
  function Fingerprints(file: seq<Line>): Result<map<nat, Event>> {
    if file == [] then Ok(map[])
    else
      var before, line := Fingerprints(file[..|file| - 1]), file[|file| - 1];
      if before.Err? || !line.Record? then Err
      else if line.event.id == 0 then before
      else if line.event.id in before.value then Err
      else Ok(before.value[line.event.id := line.event])
  }

  predicate DistinctIds(es: seq<Event>) { forall i, j :: 0 <= i < j < |es| && es[i].id != 0 ==> es[i].id != es[j].id }

  /** The events that carry an id, by id. */
  predicate Indexes(prints: map<nat, Event>, es: seq<Event>) {
    && (forall id :: id in prints ==> id != 0 && prints[id].id == id && prints[id] in es)
    && (forall e :: e in es && e.id != 0 ==> e.id in prints)
  }

  /** Fingerprints can be read exactly when the file is all records and no id repeats. */
  lemma {:induction false} FingerprintsAre(es: seq<Event>)
    ensures Fingerprints(Chain(es)).Ok? <==> DistinctIds(es)
    ensures Fingerprints(Chain(es)).Ok? ==> Indexes(Fingerprints(Chain(es)).value, es)
  {
    hide DistinctIds, Indexes;
    if es == [] {
      NoIds();
    } else {
      var init, e := es[..|es| - 1], es[|es| - 1];
      FingerprintsAre(init);
      var c := Chain(es);
      assert c[..|c| - 1] == Chain(init) && c[|c| - 1].event == e;
      assert es == init + [e];
      InitDistinct(init, e);
      if DistinctIds(init) {
        FreshIds(init, e);
        IndexMore(Fingerprints(Chain(init)).value, init, e);
      }
    }
  }

  lemma NoIds()
    ensures DistinctIds([]) && Indexes(map[], [])
  {}

  lemma InitDistinct(init: seq<Event>, e: Event)
    ensures DistinctIds(init + [e]) ==> DistinctIds(init)
  {
    var es := init + [e];
    assert forall i :: 0 <= i < |init| ==> es[i] == init[i];
  }

  lemma IndexMore(prints: map<nat, Event>, init: seq<Event>, e: Event)
    requires Indexes(prints, init)
    ensures e.id in prints <==> e.id != 0 && exists x :: x in init && x.id == e.id
    ensures e.id == 0 ==> Indexes(prints, init + [e])
    ensures e.id != 0 ==> Indexes(prints[e.id := e], init + [e])
  {
    assert forall x :: x in init + [e] <==> x in init || x == e;
  }

  lemma {:induction false} FingerprintsAllRecords(file: seq<Line>)
    requires Fingerprints(file).Ok?
    ensures WithoutBlanks(file) == file
  {
    if file != [] {
      FingerprintsAllRecords(file[..|file| - 1]);
      assert file == file[..|file| - 1] + [file[|file| - 1]];
    }
  }

  /*** Opening ***/

  /** What an open log keeps in memory. */
  datatype Log = Log(count: nat, head: Hash, prints: map<nat, Event>)

  predicate AnchorMatches(a: Anchor, c: Checkpoint) { a.committed == c || a.pending == Some(c) }

  /** openWAL with an anchor path: the disk afterwards, and the log. */
  function Open(d: Disk): Result<(Disk, Log)> {
    var c := Verify(d.file);
    if c.Err? || (d.anchor.Some? && !AnchorMatches(d.anchor.value, c.value)) then Err
    else
      var prints := Fingerprints(d.file);
      if prints.Err? then Err
      else Ok((d.(anchor := Some(Anchor(c.value, None))), Log(c.value.count, c.value.head, prints.value)))
  }

  /** Opening succeeds exactly on a chain whose ids are distinct and whose head the anchor knows. */
  lemma OpenAccepts(d: Disk)
    ensures Open(d).Ok? <==>
              d.file == Chain(Events(d.file)) && DistinctIds(Events(d.file)) && (d.anchor.Some? ==> AnchorMatches(d.anchor.value, At(Events(d.file))))
  {
    var es := Events(d.file);
    VerifyIsChain(d.file);
    ChainLength(es);
    FingerprintsAre(es);
    if Open(d).Ok? { FingerprintsAllRecords(d.file); }
  }

  /** Soundness: over an anchor written for log, alone or with e pending, opening accepts a
      file only if it is exactly that chain, or that chain plus the pending record. */
  lemma OpenIsSound(d: Disk, log: seq<Event>, pending: Option<Event>)
    requires d.anchor == Some(Anchor(At(log), if pending.Some? then Some(At(log + [pending.value])) else None)) && Open(d).Ok?
    ensures d.file == Chain(log) || (pending.Some? && d.file == Chain(log + [pending.value]))
  {
    OpenAccepts(d);
    var es := Events(d.file);
    if Head(es) == Head(log) {
      HeadInjective(es, log);
    } else {
      HeadInjective(es, log + [pending.value]);
    }
  }

  /*** Appending ***/

  /** The disk after the first k durable steps of an append: the pending anchor, the record, the committed anchor. */
  function AppendDisk(d: Disk, w: Log, e: Event, k: nat): Disk {
    var now := Checkpoint(w.count, w.head);
    var next := Checkpoint(w.count + 1, ChainHash(w.head, w.count + 1, e));
    var d1 := if k >= 1 then d.(anchor := Some(Anchor(now, Some(next)))) else d;
    var d2 := if k >= 2 then d1.(file := d1.file + [Record(next.count, w.head, next.head, e)]) else d1;
    if k >= 3 then d2.(anchor := Some(Anchor(next, None))) else d2
  }

  function AppendLog(w: Log, e: Event): Log {
    Log(w.count + 1, ChainHash(w.head, w.count + 1, e), if e.id == 0 then w.prints else w.prints[e.id := e])
  }

  /** The disk holds exactly the chain of log, anchored, and the open log knows it. */
  predicate Holds(d: Disk, w: Log, log: seq<Event>) {
    d.file == Chain(log) && d.anchor == Some(Anchor(At(log), None)) && w.count == |log| && w.head == Head(log) && Indexes(w.prints, log)
  }

  lemma ChainMore(log: seq<Event>, e: Event)
    ensures Head(log + [e]) == ChainHash(Head(log), |log| + 1, e)
    ensures Chain(log + [e]) == Chain(log) + [Record(|log| + 1, Head(log), Head(log + [e]), e)]
  {
    assert (log + [e])[..|log|] == log;
  }

  lemma AppendKeeps(d: Disk, w: Log, log: seq<Event>, e: Event)
    requires Holds(d, w, log)
    ensures Holds(AppendDisk(d, w, e, 3), AppendLog(w, e), log + [e])
  {
    ChainMore(log, e);
    assert forall x :: x in log + [e] <==> x in log || x == e;
  }

  /** A crash between any two durable steps of an append of a fresh event: reopening succeeds
      with the chain before or after that append, and no pending anchor is left. */
  lemma CrashRecovers(d: Disk, w: Log, log: seq<Event>, e: Event, k: nat)
    requires Holds(d, w, log) && DistinctIds(log) && k <= 3
    ensures var after := if k >= 2 then log + [e] else log;
            var r := Open(AppendDisk(d, w, e, k));
            && (r.Ok? <==> k < 2 || DistinctIds(log + [e]))
            && (r.Ok? ==> Holds(r.value.0, r.value.1, after) && DistinctIds(after))
  {
    hide DistinctIds, Indexes;
    var after := if k >= 2 then log + [e] else log;
    ChainMore(log, e);
    var crashed := AppendDisk(d, w, e, k);
    assert crashed.file == Chain(after);
    ChainVerifies(after);
    FingerprintsAre(after);
  }

  /** An event whose id is new, or absent, keeps the ids distinct; one whose id is there breaks them. */
  lemma FreshIds(log: seq<Event>, e: Event)
    requires DistinctIds(log)
    ensures DistinctIds(log + [e]) <==> e.id == 0 || forall x :: x in log ==> x.id != e.id
  {
    var now := log + [e];
    if e.id != 0 && exists x :: x in log && x.id == e.id {
      var i :| 0 <= i < |log| && log[i].id == e.id;
      assert now[i].id == now[|log|].id;
    }
    assert forall i :: 0 <= i < |log| ==> now[i] == log[i] && log[i] in log;
  }

  /*** Runs ***/

  /** A finished append, an idempotent one, an append cut after k durable steps and reopened, or a plain reopen. */
  datatype Op = DoAppend(event: Event) | DoAppendIdempotent(event: Event) | DoCrash(event: Event, steps: nat) | DoReopen

  datatype State = State(disk: Disk, log: Log)

  /** AppendIdempotent: an id already written is refused unless the event is the same, which only rewrites the anchor. */
  function Idempotent(s: State, e: Event): State {
    if e.id != 0 && e.id in s.log.prints then
      if s.log.prints[e.id] == e then s.(disk := s.disk.(anchor := Some(Anchor(Checkpoint(s.log.count, s.log.head), None)))) else s
    else State(AppendDisk(s.disk, s.log, e, 3), AppendLog(s.log, e))
  }

  function Reopen(d: Disk): Option<State> {
    var r := Open(d);
    if r.Ok? then Some(State(r.value.0, r.value.1)) else None
  }

  function Step(s: State, op: Op): Option<State> {
    match op
    case DoAppend(e) => Some(State(AppendDisk(s.disk, s.log, e, 3), AppendLog(s.log, e)))
    case DoAppendIdempotent(e) => Some(Idempotent(s, e))
    case DoCrash(e, k) => Reopen(AppendDisk(s.disk, s.log, e, k))
    case DoReopen => Reopen(s.disk)
  }

  const EMPTY: State := State(Disk([], Some(Anchor(Checkpoint(0, Genesis), None))), Log(0, Genesis, map[]))

  /** None once a reopen has been refused. */
  function Exec(run: seq<Op>): Option<State> {
    if run == [] then Some(EMPTY)
    else
      var s := Exec(run[..|run| - 1]);
      if s.None? then None else Step(s.value, run[|run| - 1])
  }

  /** What an operation adds to the chain: an append that returned, or one cut after its record was durable. */
  function Grown(log: seq<Event>, op: Op): seq<Event> {
    match op
    case DoAppend(e) => log + [e]
    case DoAppendIdempotent(e) => if e.id != 0 && exists x :: x in log && x.id == e.id then log else log + [e]
    case DoCrash(e, k) => if k >= 2 then log + [e] else log
    case DoReopen => log
  }

  /** What the chain must be after a run. */
  function Written(run: seq<Op>): seq<Event> {
    if run == [] then [] else Grown(Written(run[..|run| - 1]), run[|run| - 1])
  }

  /** No plain append, finished or cut, repeats an id. */
  ghost predicate FreshRun(run: seq<Op>) {
    run != [] ==>
      && FreshRun(run[..|run| - 1])
      && var op := run[|run| - 1];
         (op.DoAppend? || op.DoCrash? ==> op.event.id == 0 || forall x :: x in Written(run[..|run| - 1]) ==> x.id != op.event.id)
  }

  /** An append is cut after at most its three durable steps. */
  ghost predicate Cuts(run: seq<Op>) { forall i :: 0 <= i < |run| && run[i].DoCrash? ==> run[i].steps <= 3 }

  lemma IdIndexed(prints: map<nat, Event>, log: seq<Event>, id: nat)
    requires Indexes(prints, log) && id != 0
    ensures id in prints <==> exists x :: x in log && x.id == id
  {}

  /** Recovery over whole runs: with fresh ids, every reopen succeeds, after any number of
      crashes between durable steps; the disk is exactly the chain of what was written, no
      append that returned is lost, and no pending anchor is left. */
  lemma {:induction false} RunsRecover(run: seq<Op>)
    requires FreshRun(run) && Cuts(run)
    ensures Exec(run).Some? && Holds(Exec(run).value.disk, Exec(run).value.log, Written(run)) && DistinctIds(Written(run))
    decreases |run|
  {
    if run != [] {
      var init, op := run[..|run| - 1], run[|run| - 1];
      assert forall i :: 0 <= i < |init| ==> init[i] == run[i];
      RunsRecover(init);
      StepRecovers(Exec(init).value, Written(init), op);
      assert op == run[|run| - 1];
    }
  }

  lemma StepRecovers(s: State, log: seq<Event>, op: Op)
    requires Holds(s.disk, s.log, log) && DistinctIds(log) && (op.DoCrash? ==> op.steps <= 3)
    requires op.DoAppend? || op.DoCrash? ==> op.event.id == 0 || forall x :: x in log ==> x.id != op.event.id
    ensures Step(s, op).Some? && Holds(Step(s, op).value.disk, Step(s, op).value.log, Grown(log, op)) && DistinctIds(Grown(log, op))
  {
    hide Holds, DistinctIds, AppendDisk, AppendLog, Open;
    match op
    case DoAppend(e) =>
      AppendKeeps(s.disk, s.log, log, e);
      FreshIds(log, e);
    case DoAppendIdempotent(e) =>
      IdempotentKeeps(s, log, e);
    case DoCrash(e, k) =>
      FreshIds(log, e);
      CrashRecovers(s.disk, s.log, log, e, k);
    case DoReopen =>
      CrashRecovers(s.disk, s.log, log, Event(0, 0), 0);
      assert AppendDisk(s.disk, s.log, Event(0, 0), 0) == s.disk by { NothingDone(s.disk, s.log, Event(0, 0)); }
  }

  lemma NothingDone(d: Disk, w: Log, e: Event)
    ensures AppendDisk(d, w, e, 0) == d
  {}

  lemma IdempotentKeeps(s: State, log: seq<Event>, e: Event)
    requires Holds(s.disk, s.log, log) && DistinctIds(log)
    ensures Holds(Idempotent(s, e).disk, Idempotent(s, e).log, Grown(log, DoAppendIdempotent(e))) && DistinctIds(Grown(log, DoAppendIdempotent(e)))
  {
    hide DistinctIds, AppendDisk, AppendLog, Indexes, Chain, Head;
    if e.id != 0 { IdIndexed(s.log.prints, log, e.id); }
    if e.id != 0 && e.id in s.log.prints {
      assert Grown(log, DoAppendIdempotent(e)) == log;
    } else {
      FreshIds(log, e);
      AppendKeeps(s.disk, s.log, log, e);
    }
  }

  lemma {:induction false} WrittenGrows(run: seq<Op>, more: seq<Op>)
    requires FreshRun(run + more)
    ensures FreshRun(run) && Written(run) <= Written(run + more)
    decreases |more|
  {
    if more == [] {
      assert run + more == run;
    } else {
      assert (run + more)[..|run + more| - 1] == run + more[..|more| - 1];
      WrittenGrows(run, more[..|more| - 1]);
    }
  }

  lemma {:induction false} ChainGrows(log: seq<Event>, more: seq<Event>)
    ensures Chain(log) <= Chain(log + more)
    decreases |more|
  {
    if more == [] {
      assert log + more == log;
    } else {
      assert (log + more)[..|log + more| - 1] == log + more[..|more| - 1];
      ChainGrows(log, more[..|more| - 1]);
    }
  }

  /** Whatever happens after a run, crashes and reopens included, its file is still there at the
      front of the later one; an append that had just returned has its record where it put it. */
  lemma NothingIsLost(run: seq<Op>, more: seq<Op>)
    requires FreshRun(run + more) && Cuts(run + more)
    ensures Exec(run).Some? && Exec(run + more).Some?
    ensures var before, after := Exec(run).value.disk.file, Exec(run + more).value.disk.file;
            && before <= after
            && (run != [] && run[|run| - 1].DoAppend? ==> var e := run[|run| - 1].event;
                before != [] && after[|before| - 1].Record? && after[|before| - 1].event == e)
  {
    hide Exec, FreshRun, Chain;
    WrittenGrows(run, more);
    assert forall i :: 0 <= i < |run| ==> (run + more)[i] == run[i];
    RunsRecover(run);
    RunsRecover(run + more);
    var log, all := Written(run), Written(run + more);
    ChainGrows(log, all[|log|..]);
    assert log + all[|log|..] == all;
    if run != [] && run[|run| - 1].DoAppend? { ChainMore(Written(run[..|run| - 1]), run[|run| - 1].event); }
  }

  /** The condition on ids is needed: after any run that kept it, a plain append that repeats
      an id returns, and the next open refuses the file. */
  lemma RepeatedIdIsRefused(run: seq<Op>, e: Event, x: Event)
    requires FreshRun(run) && Cuts(run)
    requires x in Written(run) && x.id == e.id != 0
    ensures Exec(run + [DoAppend(e)]).Some? && Exec(run + [DoAppend(e), DoReopen]).None?
  {
    hide Holds, DistinctIds, Open, AppendDisk, AppendLog, Written, FreshRun;
    RunsRecover(run);
    var s, log := Exec(run).value, Written(run);
    ExecMore(run, DoAppend(e));
    ExecMore(run + [DoAppend(e)], DoReopen);
    assert run + [DoAppend(e)] + [DoReopen] == run + [DoAppend(e), DoReopen];
    FreshIds(log, e);
    CrashRecovers(s.disk, s.log, log, e, 3);
  }

  lemma ExecMore(run: seq<Op>, op: Op)
    ensures Exec(run + [op]) == if Exec(run).None? then None else Step(Exec(run).value, op)
  {
    assert (run + [op])[..|run|] == run;
  }

  /*** Verifying a prefix ***/

  /** VerifyPrefixAgainstAnchor, with the prefix measured in lines. */
  function VerifyPrefix(file: seq<Line>, limit: nat, anchor: Option<Anchor>): Result<Checkpoint>
    requires limit <= |file|
  {
    var c := Verify(file[..limit]);
    if c.Ok? && anchor.Some? && !AnchorMatches(anchor.value, c.value) then Err else c
  }

  /** A prefix that is a chain verifies exactly against the anchors that know its head, whatever
      was appended since. */
  lemma PrefixNeedsItsAnchor(log: seq<Event>, later: seq<Line>, anchor: Anchor)
    ensures VerifyPrefix(Chain(log) + later, |Chain(log)|, Some(anchor)) == if AnchorMatches(anchor, At(log)) then Ok(At(log)) else Err
  {
    assert (Chain(log) + later)[..|Chain(log)|] == Chain(log);
    ChainVerifies(log);
  }

  /** The file's length and the anchor captured together after any durable step of an append verify,
      with the chain before or after it, whatever is appended since. */
  lemma LaterAppendsDoNotMatter(d: Disk, w: Log, log: seq<Event>, e: Event, k: nat, later: seq<Line>)
    requires Holds(d, w, log) && k <= 3
    ensures var now := AppendDisk(d, w, e, k);
            VerifyPrefix(now.file + later, |now.file|, now.anchor) == Ok(At(if k >= 2 then log + [e] else log))
  {
    hide VerifyPrefix, Chain, Head, Indexes;
    ChainMore(log, e);
    var now := AppendDisk(d, w, e, k);
    PrefixNeedsItsAnchor(if k >= 2 then log + [e] else log, later, now.anchor.value);
  }
}
