/** The bounded log store (internal/logstore/logstore.go): one source's chunks, evicted
    oldest first to a byte cap, and paged newest first. Chunks are kept decoded beside
    their stored size; every chunk decodes. */
module LogStore {
  import opened Options

  /** A line: when it was logged, and its text as one value. */
  datatype LogLine = LogLine(at: int, text: nat)

  /** One append's lines, oldest first, and the bytes they are stored in. */
  datatype Chunk = Chunk(lines: seq<LogLine>, size: nat)

  const DEFAULT_MAX_SOURCE_BYTES: nat := 67_108_864
  const DEFAULT_QUERY_LIMIT: nat := 200
  const MAX_QUERY_LIMIT: nat := 1000

  /*** What is kept ***/

  function TotalBytes(cs: seq<Chunk>): nat { if cs == [] then 0 else cs[0].size + TotalBytes(cs[1..]) }

  function TotalLines(cs: seq<Chunk>): nat { if cs == [] then 0 else |cs[0].lines| + TotalLines(cs[1..]) }

  /** Chunks dropped from the front until the rest fit the cap. */
  function Kept(cs: seq<Chunk>, cap: nat): seq<Chunk> {
    if TotalBytes(cs) <= cap then cs else Kept(cs[1..], cap)
  }

  /** What is kept is a suffix, it fits, and no longer suffix fits. */
  lemma {:induction false} KeptIsLongestSuffix(cs: seq<Chunk>, cap: nat)
    ensures var k := |cs| - |Kept(cs, cap)|;
            && 0 <= k && Kept(cs, cap) == cs[k..] && TotalBytes(Kept(cs, cap)) <= cap
            && forall i :: 0 <= i < k ==> TotalBytes(cs[i..]) > cap
  {
    assert cs[0..] == cs;
    if TotalBytes(cs) > cap {
      var rest := cs[1..];
      KeptIsLongestSuffix(rest, cap);
      var k := |cs| - |Kept(cs, cap)|;
      assert rest[k - 1..] == cs[k..];
      forall i | 0 <= i < k
        ensures TotalBytes(cs[i..]) > cap
      {
        if i > 0 { assert rest[i - 1..] == cs[i..]; }
      }
    }
  }

  /** Chunks already given up never matter again. */
  lemma {:induction false} KeptOfKept(cs: seq<Chunk>, cap: nat, c: Chunk)
    ensures Kept(Kept(cs, cap) + [c], cap) == Kept(cs + [c], cap)
  {
    if TotalBytes(cs) > cap {
      TotalAppend(cs, c);
      assert (cs + [c])[1..] == cs[1..] + [c];
      KeptOfKept(cs[1..], cap, c);
    }
  }

  /** What a source is asked to do, and what it holds after a run of it. */
  datatype Op = Append(chunk: Chunk) | Shrink | SetCap(cap: nat)

  datatype Held = Held(chunks: seq<Chunk>, cap: nat)

  function Do(h: Held, op: Op): Held {
    match op
    case Append(c) => Held(Kept(h.chunks + [c], h.cap), h.cap)
    case Shrink => Held(Kept(h.chunks, h.cap), h.cap)
    case SetCap(n) => Held(h.chunks, n)
  }

  function Run(ops: seq<Op>, cap: nat): Held {
    if ops == [] then Held([], cap) else Do(Run(ops[..|ops| - 1], cap), ops[|ops| - 1])
  }

  /** Everything a run ever appended. */
  function Appended(ops: seq<Op>): seq<Chunk> {
    if ops == [] then [] else Added(Appended(ops[..|ops| - 1]), ops[|ops| - 1])
  }

  function Added(all: seq<Chunk>, op: Op): seq<Chunk> { if op.Append? then all + [op.chunk] else all }

  ghost predicate EndsWith(all: seq<Chunk>, cs: seq<Chunk>) { |cs| <= |all| && all[|all| - |cs|..] == cs }

  /** In every run a source holds the end of what was ever appended, and after an append or a
      shrink that is within the cap. */
  lemma {:induction false} RunsHoldTheEnd(ops: seq<Op>, cap: nat)
    ensures EndsWith(Appended(ops), Run(ops, cap).chunks)
    ensures ops != [] && !ops[|ops| - 1].SetCap? ==> TotalBytes(Run(ops, cap).chunks) <= Run(ops, cap).cap
    decreases |ops|
  {
    hide Kept, TotalBytes, EndsWith, Do, Added;
    if ops == [] {
      EndOfNothing();
    } else {
      RunsHoldTheEnd(ops[..|ops| - 1], cap);
      StepHoldsTheEnd(Run(ops[..|ops| - 1], cap), Appended(ops[..|ops| - 1]), ops[|ops| - 1]);
    }
  }

  lemma EndOfNothing()
    ensures EndsWith([], [])
  {}

  lemma StepHoldsTheEnd(h: Held, all: seq<Chunk>, op: Op)
    requires EndsWith(all, h.chunks)
    ensures EndsWith(Added(all, op), Do(h, op).chunks)
    ensures !op.SetCap? ==> TotalBytes(Do(h, op).chunks) <= h.cap == Do(h, op).cap
  {
    hide Kept, TotalBytes;
    match op
    case Append(c) => KeptEnds(all + [c], h.chunks + [c], h.cap);
    case Shrink => KeptEnds(all, h.chunks, h.cap);
    case SetCap(_) =>
  }

  lemma KeptEnds(all: seq<Chunk>, cs: seq<Chunk>, cap: nat)
    requires EndsWith(all, cs)
    ensures EndsWith(all, Kept(cs, cap)) && TotalBytes(Kept(cs, cap)) <= cap
  {
    hide Kept, TotalBytes;
    KeptIsLongestSuffix(cs, cap);
    var k := |cs| - |Kept(cs, cap)|;
    assert cs[k..] == all[|all| - |cs|..][k..];
  }

  /** While the cap stays as it was, a source holds the longest end of everything ever appended
      that fits: nothing is given up early. */
  lemma {:induction false} RunsHoldTheLongestEnd(ops: seq<Op>, cap: nat)
    requires forall o :: o in ops ==> !o.SetCap?
    ensures Run(ops, cap) == Held(Kept(Appended(ops), cap), cap)
    decreases |ops|
  {
    if ops != [] {
      hide TotalBytes, Kept;
      var init := ops[..|ops| - 1];
      assert ops[|ops| - 1] in ops;
      RunsHoldTheLongestEnd(init, cap);
      match ops[|ops| - 1]
      case Append(c) => KeptOfKept(Appended(init), cap, c);
      case Shrink => KeptTwice(Appended(init), cap);
    }
  }

  lemma KeptTwice(cs: seq<Chunk>, cap: nat)
    ensures Kept(Kept(cs, cap), cap) == Kept(cs, cap)
  {
    KeptIsLongestSuffix(cs, cap);
  }

  lemma {:induction false} TotalAppend(cs: seq<Chunk>, c: Chunk)
    ensures TotalBytes(cs + [c]) == TotalBytes(cs) + c.size && TotalLines(cs + [c]) == TotalLines(cs) + |c.lines|
  {
    if cs == [] {
      assert cs + [c] == [c] && [c][1..] == [];
    } else {
      assert (cs + [c])[1..] == cs[1..] + [c];
      TotalAppend(cs[1..], c);
    }
  }

  /*** Paging ***/

  /** A chunk's matching lines, newest first. */
  function MatchesOf(lines: seq<LogLine>, want: LogLine -> bool): seq<LogLine> {
    if lines == [] then []
    else
      var last := lines[|lines| - 1];
      (if want(last) then [last] else []) + MatchesOf(lines[..|lines| - 1], want)
  }

  /** All lines of the chunks, oldest first. */
  function AllLines(cs: seq<Chunk>): seq<LogLine> {
    if cs == [] then [] else AllLines(cs[..|cs| - 1]) + cs[|cs| - 1].lines
  }

  lemma {:induction false} MatchesOfParts(a: seq<LogLine>, b: seq<LogLine>, want: LogLine -> bool)
    ensures MatchesOf(a + b, want) == MatchesOf(b, want) + MatchesOf(a, want)
    decreases |b|
  {
    if b == [] {
      assert a + b == a;
    } else {
      var init, last := b[..|b| - 1], b[|b| - 1];
      assert (a + b)[..|a + b| - 1] == a + init && (a + b)[|a + b| - 1] == last;
      MatchesOfParts(a, init, want);
      var m := if want(last) then [last] else [];
      assert m + (MatchesOf(init, want) + MatchesOf(a, want)) == m + MatchesOf(init, want) + MatchesOf(a, want);
    }
  }

  /** How often a line was logged in the chunks. */
  function Logged(cs: seq<Chunk>, x: LogLine): nat {
    if cs == [] then 0 else multiset(cs[0].lines)[x] + Logged(cs[1..], x)
  }

  lemma {:induction false} MatchCount(lines: seq<LogLine>, want: LogLine -> bool, x: LogLine)
    ensures multiset(MatchesOf(lines, want))[x] == if want(x) then multiset(lines)[x] else 0
  {
    if lines != [] {
      var init, last := lines[..|lines| - 1], lines[|lines| - 1];
      assert lines == init + [last];
      MatchCount(init, want, x);
    }
  }

  lemma {:induction false} LineCount(cs: seq<Chunk>, more: seq<Chunk>, x: LogLine)
    ensures Logged(cs + more, x) == Logged(cs, x) + Logged(more, x)
  {
    if cs == [] {
      assert cs + more == more;
    } else {
      assert (cs + more)[1..] == cs[1..] + more;
      LineCount(cs[1..], more, x);
    }
  }

  lemma {:induction false} AllLinesCount(cs: seq<Chunk>, x: LogLine)
    ensures multiset(AllLines(cs))[x] == Logged(cs, x)
  {
    if cs != [] {
      var init, last := cs[..|cs| - 1], cs[|cs| - 1];
      AllLinesCount(init, x);
      LineCount(init, [last], x);
      assert init + [last] == cs && [last][1..] == [] && Logged([last], x) == multiset(last.lines)[x];
    }
  }

  /** What paging adds up to holds a line exactly as often as it was logged if it is wanted, and not at all if it is not. */
  lemma EveryLineOnce(cs: seq<Chunk>, want: LogLine -> bool, x: LogLine)
    ensures multiset(MatchesOf(AllLines(cs), want))[x] == if want(x) then Logged(cs, x) else 0
  {
    MatchCount(AllLines(cs), want, x);
    AllLinesCount(cs, x);
  }

  /** Newest first: of lines that are all wanted, the last comes first. */
  lemma {:induction false} NewestFirst(lines: seq<LogLine>, want: LogLine -> bool, i: nat)
    requires (forall x :: x in lines ==> want(x)) && i < |lines|
    ensures |MatchesOf(lines, want)| == |lines| && MatchesOf(lines, want)[i] == lines[|lines| - 1 - i]
  {
    var init, last := lines[..|lines| - 1], lines[|lines| - 1];
    assert last in lines && forall x :: x in init ==> x in lines;
    if init != [] { NewestFirst(init, want, if i > 0 then i - 1 else 0); }
  }

  /** Chunks come newest first too. */
  lemma {:induction false} AllLinesParts(a: seq<Chunk>, b: seq<Chunk>)
    ensures AllLines(a + b) == AllLines(a) + AllLines(b)
    decreases |b|
  {
    if b == [] {
      assert a + b == a;
    } else {
      assert (a + b)[..|a + b| - 1] == a + b[..|b| - 1];
      AllLinesParts(a, b[..|b| - 1]);
    }
  }

  lemma NewerChunksFirst(older: seq<Chunk>, newer: seq<Chunk>, want: LogLine -> bool)
    ensures MatchesOf(AllLines(older + newer), want) == MatchesOf(AllLines(newer), want) + MatchesOf(AllLines(older), want)
  {
    AllLinesParts(older, newer);
    MatchesOfParts(AllLines(older), AllLines(newer), want);
  }

  /** A page: its lines, and how many of the oldest chunks it left for the next one. */
  datatype Page = Page(lines: seq<LogLine>, left: nat)

  /** The walk from the newest of cs back: it ends at the chunk where the limit is reached. */
  function Walk(cs: seq<Chunk>, acc: seq<LogLine>, want: LogLine -> bool, limit: nat): Page {
    if cs == [] then Page(acc, 0)
    else
      var acc' := acc + MatchesOf(cs[|cs| - 1].lines, want);
      if |acc'| >= limit then Page(acc', |cs| - 1) else Walk(cs[..|cs| - 1], acc', want, limit)
  }

  /** A page and what is left make up everything; a page that leaves something has reached the
      limit, and it had not before its oldest chunk. */
  lemma {:induction false} WalkSplits(cs: seq<Chunk>, acc: seq<LogLine>, want: LogLine -> bool, limit: nat)
    requires |acc| < limit
    ensures var p := Walk(cs, acc, want, limit);
            && p.left <= |cs| && (cs != [] ==> p.left < |cs|)
            && p.lines + MatchesOf(AllLines(cs[..p.left]), want) == acc + MatchesOf(AllLines(cs), want)
            && (p.left > 0 ==> |p.lines| >= limit)
            && (p.left < |cs| ==> |p.lines| - |MatchesOf(cs[p.left].lines, want)| < limit)
    decreases |cs|
  {
    if cs != [] {
      var init, last := cs[..|cs| - 1], cs[|cs| - 1].lines;
      var acc' := acc + MatchesOf(last, want);
      WalkStep(cs, acc, want);
      if |acc'| < limit {
        WalkSplits(init, acc', want, limit);
        hide MatchesOf, AllLines;
        var p := Walk(cs, acc, want, limit);
        assert init[..p.left] == cs[..p.left];
      }
    } else {
      assert cs[..0] == cs;
    }
  }

  lemma WalkStep(cs: seq<Chunk>, acc: seq<LogLine>, want: LogLine -> bool)
    requires cs != []
    ensures acc + MatchesOf(cs[|cs| - 1].lines, want) + MatchesOf(AllLines(cs[..|cs| - 1]), want) == acc + MatchesOf(AllLines(cs), want)
  {
    MatchesOfParts(AllLines(cs[..|cs| - 1]), cs[|cs| - 1].lines, want);
    hide MatchesOf;
  }

  function ClampLimit(limit: int): (r: nat)
    ensures 1 <= r <= 1000 && (1 <= limit <= 1000 ==> r == limit) && (limit <= 0 ==> r == 200)
  {
    if limit <= 0 then DEFAULT_QUERY_LIMIT else if limit > MAX_QUERY_LIMIT then MAX_QUERY_LIMIT else limit
  }

  function ClampCap(limit: int): nat { if limit <= 0 then DEFAULT_MAX_SOURCE_BYTES else limit }

  /*** One source ***/

  class Source {
    /** The data bucket: chunks by sequence number. */
    var data: map<nat, Chunk>
    var firstSeq: nat
    var lastSeq: nat
    var bytes: nat
    var lines: nat
    /** The byte cap, which may be changed at any time. */
    var cap: nat

    /** Keys are contiguous, and the counters are the true sums. */
    ghost predicate Valid()
      reads this
    {
      && (firstSeq == 0 <==> lastSeq == 0) && firstSeq <= lastSeq
      && (forall k :: k in data <==> firstSeq <= k <= lastSeq && k > 0)
      && (forall k :: k in data ==> data[k].size > 0)
      && bytes == TotalBytes(Chunks()) && lines == TotalLines(Chunks())
    }

    ghost predicate Contiguous()
      reads this
    {
      firstSeq > 0 ==> forall k :: firstSeq <= k <= lastSeq ==> k in data
    }

    /** The chunks, oldest first. */
    ghost function Chunks(): seq<Chunk>
      reads this
    {
      if firstSeq == 0 || !Contiguous() then [] else ChunksOf(data, firstSeq, lastSeq)
    }

    /** A source nothing was appended to. */
    constructor (limit: int)
      ensures Valid() && Chunks() == [] && cap == ClampCap(limit)
    {
      data, firstSeq, lastSeq, bytes, lines, cap := map[], 0, 0, 0, 0, ClampCap(limit);
    }

    /** SetSourceBytesCap: nothing is evicted by the call itself. */
    method SetCap(limit: int)
      requires Valid()
      modifies `cap
      ensures Valid() && Chunks() == old(Chunks()) && cap == ClampCap(limit)
    {
      cap := ClampCap(limit);
    }

    /** Append: refused without lines; otherwise one more chunk, and the oldest go until the rest fit. */
    method Append(ls: seq<LogLine>, size: nat) returns (number: Option<nat>)
      requires Valid() && (ls != [] ==> size > 0)
      modifies this
      ensures Valid() && cap == old(cap)
      ensures ls == [] ==> number == None && Chunks() == old(Chunks())
      ensures ls != [] ==>
                && number == Some(old(lastSeq) + 1) && bytes <= cap
                && Chunks() == Kept(old(Chunks()) + [Chunk(ls, size)], cap)
    {
      if ls == [] { return None; }
      ghost var before, was := Chunks(), data;
      var seqNo := lastSeq + 1;
      data := data[seqNo := Chunk(ls, size)];
      lastSeq := seqNo;
      if firstSeq == 0 { firstSeq := seqNo; }
      bytes, lines := bytes + size, lines + |ls|;
      OneMore(was, data, firstSeq, lastSeq, Chunk(ls, size));
      TotalAppend(before, Chunk(ls, size));
      assert Chunks() == before + [Chunk(ls, size)];
      EvictToCap();
      number := Some(seqNo);
    }

    /** evictToCap */
    method EvictToCap()
      requires Valid()
      modifies this
      ensures Valid() && cap == old(cap) && bytes <= cap && Chunks() == Kept(old(Chunks()), cap)
    {
      while bytes > cap && firstSeq <= lastSeq
        invariant Valid() && cap == old(cap) && Kept(Chunks(), cap) == Kept(old(Chunks()), cap)
        decreases TotalBytes(Chunks())
      {
        ghost var before := Chunks();
        EvictOne();
        assert Kept(before, cap) == Kept(before[1..], cap);
      }
    }

    /** The oldest chunk goes; a source that is emptied starts its sequence afresh. */
    method EvictOne()
      requires Valid() && bytes > cap
      modifies `data, `firstSeq, `lastSeq, `bytes, `lines
      ensures Valid() && old(Chunks()) != [] && Chunks() == old(Chunks())[1..] && TotalBytes(Chunks()) < TotalBytes(old(Chunks()))
    {
      ghost var before := Chunks();
      assert firstSeq > 0 && before != [] && before[0] == data[firstSeq];
      var v := data[firstSeq];
      FirstOut(data, firstSeq, lastSeq);
      data := data - {firstSeq};
      bytes := if v.size >= bytes then 0 else bytes - v.size;
      lines := if |v.lines| >= lines then 0 else lines - |v.lines|;
      firstSeq := firstSeq + 1;
      if firstSeq > lastSeq {
        assert before[1..] == [];
        firstSeq, lastSeq, bytes, lines := 0, 0, 0, 0;
      } else {
        assert Chunks() == before[1..];
      }
    }

    /** shrinkToCap: whether anything was over the cap. */
    method ShrinkToCap() returns (changed: bool)
      requires Valid()
      modifies this
      ensures Valid() && cap == old(cap) && bytes <= cap && Chunks() == Kept(old(Chunks()), cap) && changed == (old(bytes) > cap)
    {
      if bytes <= cap { return false; }
      EvictToCap();
      return true;
    }

    /** Query: a page newest first, over the chunks numbered below `before` (0 for all); next is
        the cursor for the page after it, 0 when there is none. */
    method Query(want: LogLine -> bool, limit: int, before: nat) returns (page: seq<LogLine>, next: nat)
      requires Valid()
      ensures Below(before) <= |Chunks()|
      ensures var p := Walk(Chunks()[..Below(before)], [], want, ClampLimit(limit));
              page == p.lines && (next == 0 <==> p.left == 0) && (next != 0 ==> Below(next) == p.left)
    {
      hide Walk, MatchesOf, AllLines, TotalBytes, TotalLines;
      var n := ClampLimit(limit);
      if firstSeq == 0 {
        WalkNone([], want, n);
        assert Chunks()[..Below(before)] == [];
        return [], 0;
      }
      var k := lastSeq;
      while k >= firstSeq && before != 0 && k >= before
        invariant firstSeq - 1 <= k <= lastSeq && (before == 0 ==> k == lastSeq) && k + 1 >= firstSeq + Below(before)
      {
        k := k - 1;
      }
      assert Chunks()[..Below(before)] == ChunksOf(data, firstSeq, k);
      var left;
      page, left := WalkBack(data, firstSeq, k, want, n);
      WalkSplits(ChunksOf(data, firstSeq, k), [], want, n);
      next := if left == 0 then 0 else firstSeq + left;
    }

    /** Following the cursor from 0 until it is 0 again returns every matching line once, newest first. */
    method ReadAll(want: LogLine -> bool, limit: int) returns (all: seq<LogLine>)
      requires Valid()
      ensures all == MatchesOf(AllLines(Chunks()), want)
    {
      hide Walk, MatchesOf, AllLines, TotalBytes, TotalLines;
      var next, done := 0, false;
      all := [];
      ghost var cs := Chunks();
      ghost var left := |cs|;
      assert cs[..left] == cs;
      while !done
        invariant left <= |cs| && (!done ==> Below(next) == left) && (done ==> left == 0)
        invariant all + MatchesOf(AllLines(cs[..left]), want) == MatchesOf(AllLines(cs), want)
        decreases !done, left
      {
        NextPage(cs, left, all, want, ClampLimit(limit));
        var page;
        page, next := Query(want, limit, next);
        left := Walk(cs[..left], [], want, ClampLimit(limit)).left;
        all := all + page;
        done := next == 0;
      }
      NothingLeft(cs, all, want);
    }

    /** How many of the chunks are numbered below a cursor. */
    ghost function Below(before: nat): nat
      reads this
    {
      if firstSeq == 0 then 0
      else if before == 0 || before > lastSeq then |Chunks()|
      else if before <= firstSeq then 0 else before - firstSeq
    }
  }

  ghost function ChunksOf(data: map<nat, Chunk>, first: nat, last: nat): seq<Chunk>
    requires forall k :: first <= k <= last ==> k in data
  {
    if last < first then [] else seq(last + 1 - first, i requires 0 <= i < last + 1 - first => data[first + i])
  }

  lemma OneMore(was: map<nat, Chunk>, data: map<nat, Chunk>, first: nat, last: nat, c: Chunk)
    requires first <= last && (forall k :: first <= k < last ==> k in was) && data == was[last := c]
    ensures forall k :: first <= k <= last ==> k in data
    ensures ChunksOf(data, first, last) == (if first == last then [] else ChunksOf(was, first, last - 1)) + [c]
  {}

  lemma FirstOut(data: map<nat, Chunk>, first: nat, last: nat)
    requires first <= last && forall k :: first <= k <= last ==> k in data
    ensures forall k :: first + 1 <= k <= last ==> k in data - {first}
    ensures ChunksOf(data - {first}, first + 1, last) == ChunksOf(data, first, last)[1..]
  {}

  lemma WalkNone(acc: seq<LogLine>, want: LogLine -> bool, limit: nat)
    ensures Walk([], acc, want, limit) == Page(acc, 0)
  {}

  lemma NothingLeft(cs: seq<Chunk>, all: seq<LogLine>, want: LogLine -> bool)
    ensures all + MatchesOf(AllLines(cs[..0]), want) == all
  {}

  lemma NextPage(cs: seq<Chunk>, n: nat, all: seq<LogLine>, want: LogLine -> bool, limit: nat)
    requires n <= |cs| && limit > 0
    ensures var p := Walk(cs[..n], [], want, limit);
            && p.left <= n && (n > 0 ==> p.left < n)
            && all + p.lines + MatchesOf(AllLines(cs[..p.left]), want) == all + MatchesOf(AllLines(cs[..n]), want)
  {
    hide Walk, MatchesOf, AllLines;
    WalkSplits(cs[..n], [], want, limit);
    var p := Walk(cs[..n], [], want, limit);
    assert cs[..n][..p.left] == cs[..p.left];
    assert [] + MatchesOf(AllLines(cs[..n]), want) == MatchesOf(AllLines(cs[..n]), want);
    assert all + p.lines + MatchesOf(AllLines(cs[..p.left]), want) == all + (p.lines + MatchesOf(AllLines(cs[..p.left]), want));
  }

  /** The cursor's walk from chunk `last` back: the page, and how many chunks it left. */
  method WalkBack(data: map<nat, Chunk>, first: nat, last: nat, want: LogLine -> bool, limit: nat)
    returns (page: seq<LogLine>, left: nat)
    requires 0 < first <= last + 1 && forall k :: first <= k <= last ==> k in data
    ensures Page(page, left) == Walk(ChunksOf(data, first, last), [], want, limit)
  {
    hide MatchesOf;
    page := [];
    var k := last;
    while k >= first
      invariant first - 1 <= k <= last
      invariant Walk(ChunksOf(data, first, k), page, want, limit) == Walk(ChunksOf(data, first, last), [], want, limit)
    {
      ghost var cs := ChunksOf(data, first, k);
      assert cs[..|cs| - 1] == ChunksOf(data, first, k - 1) && cs[|cs| - 1] == data[k];
      page := AppendMatches(page, data[k].lines, want);
      if |page| >= limit { return page, k - first; }
      k := k - 1;
    }
    left := 0;
  }

  /** The lines of a chunk that match, last to first. */
  method AppendMatches(page0: seq<LogLine>, lines: seq<LogLine>, want: LogLine -> bool) returns (page: seq<LogLine>)
    ensures page == page0 + MatchesOf(lines, want)
  {
    page := page0;
    assert lines[..|lines|] == lines;
    var i := |lines|;
    while i > 0
      invariant 0 <= i <= |lines| && page + MatchesOf(lines[..i], want) == page0 + MatchesOf(lines, want)
    {
      i := i - 1;
      assert lines[..i + 1][..i] == lines[..i];
      ghost var rest := MatchesOf(lines[..i], want);
      if want(lines[i]) {
        assert page + ([lines[i]] + rest) == page + [lines[i]] + rest;
        page := page + [lines[i]];
      } else {
        assert [] + rest == rest;
      }
    }
    assert page + [] == page;
  }
}
