/** The audit log as the code keeps it: an open log over its two files, each durable step an
    assignment to the disk. */
module Audit {
  import opened Options
  import opened AuditModel

  /** readWALFingerprints, line by line. */
  method ReadFingerprints(file: seq<Line>) returns (r: Result<map<nat, Event>>)
    ensures r == Fingerprints(file)
  {
    var prints: map<nat, Event> := map[];
    for i := 0 to |file|
      invariant Fingerprints(file[..i]) == Ok(prints)
    {
      assert file[..i + 1][..i] == file[..i];
      if !file[i].Record? {
        ReadStops(file, i + 1);
        return Err;
      }
      var e := file[i].event;
      if e.id == 0 { continue; }
      if e.id in prints {
        ReadStops(file, i + 1);
        return Err;
      }
      prints := prints[e.id := e];
    }
    assert file[..|file|] == file;
    return Ok(prints);
  }

  lemma {:induction false} ReadStops(file: seq<Line>, i: nat)
    requires i <= |file| && Fingerprints(file[..i]).Err?
    ensures Fingerprints(file).Err?
    decreases |file| - i
  {
    if i == |file| {
      assert file[..i] == file;
    } else {
      assert file[..i + 1][..i] == file[..i];
      ReadStops(file, i + 1);
    }
  }

  /** ensureAnchor: a missing anchor is bootstrapped, a matching one settled, any other refused. */
  method EnsureAnchor(d: Disk, c: Checkpoint) returns (r: Result<Disk>)
    ensures r == if d.anchor.Some? && !AnchorMatches(d.anchor.value, c) then Err else Ok(d.(anchor := Some(Anchor(c, None))))
  {
    if d.anchor.None? { return Ok(d.(anchor := Some(Anchor(c, None)))); }
    var a := d.anchor.value;
    if a.committed == c {
      if a.pending.Some? { return Ok(d.(anchor := Some(Anchor(c, None)))); }
      return Ok(d);
    }
    if a.pending == Some(c) { return Ok(d.(anchor := Some(Anchor(c, None)))); }
    return Err;
  }

  class WAL {
    var disk: Disk
    var count: nat
    var head: Hash
    var prints: map<nat, Event>

    ghost function Memory(): Log
      reads this
    {
      Log(count, head, prints)
    }

    /** The log of the disk this is; `log` is what the chain holds. */
    ghost predicate Valid(log: seq<Event>)
      reads this
    {
      Holds(disk, Memory(), log)
    }

    /** A new log over empty files. */
    constructor ()
      ensures Valid([]) && State(disk, Memory()) == EMPTY
    {
      disk, count, head, prints := EMPTY.disk, 0, Genesis, map[];
    }

    /** openWAL over what a crash or a shutdown left: refused, or recovered from the disk alone. */
    method Open() returns (ok: bool)
      modifies this
      ensures ok == AuditModel.Open(old(disk)).Ok?
      ensures ok ==> (disk, Memory()) == AuditModel.Open(old(disk)).value
      ensures !ok ==> disk.file == old(disk).file && Memory() == old(Memory())
    {
      var c := VerifyFile(disk.file);
      if c.Err? { return false; }
      var d := EnsureAnchor(disk, c.value);
      if d.Err? { return false; }
      disk := d.value;
      var p := ReadFingerprints(disk.file);
      if p.Err? { return false; }
      count, head, prints := c.value.count, c.value.head, p.value;
      return true;
    }

    /** appendLocked: the pending anchor, the record, memory, then the committed anchor. */
    method Append(e: Event, ghost log: seq<Event>)
      requires Valid(log)
      modifies this
      ensures Valid(log + [e])
      ensures disk == AppendDisk(old(disk), old(Memory()), e, 3) && Memory() == AppendLog(old(Memory()), e)
    {
      AppendKeeps(disk, Memory(), log, e);
      var seqNo := count + 1;
      var hash := ChainHash(head, seqNo, e);
      disk := disk.(anchor := Some(Anchor(Checkpoint(count, head), Some(Checkpoint(seqNo, hash)))));
      disk := disk.(file := disk.file + [Record(seqNo, head, hash, e)]);
      count, head := seqNo, hash;
      if e.id != 0 { prints := prints[e.id := e]; }
      disk := disk.(anchor := Some(Anchor(Checkpoint(seqNo, hash), None)));
    }

    /** AppendIdempotent: written is false for a repeat, conflict true when the id was taken by another event. */
    method AppendIdempotent(e: Event, ghost log: seq<Event>) returns (written: bool, conflict: bool)
      requires Valid(log) && DistinctIds(log)
      modifies this
      ensures Valid(Grown(log, DoAppendIdempotent(e))) && DistinctIds(Grown(log, DoAppendIdempotent(e)))
      ensures State(disk, Memory()) == Idempotent(State(old(disk), old(Memory())), e)
      ensures written <==> e.id == 0 || forall x :: x in log ==> x.id != e.id
      ensures conflict <==> e.id != 0 && e !in log && exists x :: x in log && x.id == e.id
    {
      hide AppendDisk, AppendLog, Chain, Head;
      IdempotentKeeps(State(disk, Memory()), log, e);
      written, conflict := true, false;
      if e.id != 0 {
        IdIndexed(prints, log, e.id);
        if e.id in prints {
          OneEvent(prints, log, e);
          written := false;
          if prints[e.id] != e {
            conflict := true;
            return;
          }
          disk := disk.(anchor := Some(Anchor(Checkpoint(count, head), None)));
          return;
        }
      }
      Append(e, log);
    }
  }

  lemma OneEvent(prints: map<nat, Event>, log: seq<Event>, e: Event)
    requires Indexes(prints, log) && DistinctIds(log) && e.id != 0 && e.id in prints
    ensures prints[e.id] == e <==> e in log
  {
    var i :| 0 <= i < |log| && log[i] == prints[e.id];
    if e in log {
      var j :| 0 <= j < |log| && log[j] == e;
      assert i == j;
    }
  }
}
