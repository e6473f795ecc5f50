/**
  The evidence writer of scripts/qualify_host.py: lines handed over through a queue, written by one
  thread in batches, with at most WRITER_OPEN_FILES files open and the least recently written one
  closed to open another. It refines a writer that keeps every file open.

  An open file buffers what was written; a flush or a close puts it on the disk, and a full buffer
  spills any prefix of it earlier. I/O errors are not modelled.
*/
module EvidenceWriter {

  datatype Path = Path(name: string)

  const OPEN_FILES := 32

  /** What the queue carries: a line for a file, or the sentinel that `close` puts. */
  datatype Item = Line(path: Path, text: string) | Sentinel

  /** `open` is in the order the files were last written, the least recent first. */
  datatype Store = Store(disk: map<Path, string>, buffers: map<Path, string>, open: seq<Path>)

  const EMPTY := Store(map[], map[], [])

  function Get(m: map<Path, string>, path: Path): string {
    if path in m then m[path] else ""
  }

  /** All that was ever written to a file, on the disk or not. */
  function Content(s: Store, path: Path): string {
    Get(s.disk, path) + Get(s.buffers, path)
  }

  predicate Distinct(paths: seq<Path>) {
    paths == [] || (paths[0] !in paths[1..] && Distinct(paths[1..]))
  }

  function SetOf(paths: seq<Path>): set<Path> {
    set path | path in paths
  }

  ghost predicate Valid(s: Store) {
    && Distinct(s.open) && |s.open| <= OPEN_FILES
    && s.buffers.Keys == SetOf(s.open) && s.buffers.Keys <= s.disk.Keys
  }

  function Without(paths: seq<Path>, path: Path): seq<Path> {
    if paths == [] then []
    else if paths[0] == path then Without(paths[1..], path)
    else [paths[0]] + Without(paths[1..], path)
  }

  /** A file written now is the most recent one. */
  function Touch(paths: seq<Path>, path: Path): seq<Path> {
    Without(paths, path) + [path]
  }

  /** The handle's buffer goes to the disk. */
  function Flushed(s: Store, path: Path): Store {
    if path in s.buffers then
      s.(disk := s.disk[path := Get(s.disk, path) + s.buffers[path]], buffers := s.buffers[path := ""])
    else s
  }

  function Closed(s: Store, path: Path): Store {
    var t := Flushed(s, path);
    t.(buffers := t.buffers - {path}, open := Without(t.open, path))
  }

  /** One more file opened to append to. */
  function Added(s: Store, path: Path): Store {
    s.(open := s.open + [path], buffers := s.buffers[path := ""], disk := s.disk[path := Get(s.disk, path)])
  }

  /** The store once `path` is open and the most recent. */
  function Opened(s: Store, path: Path): Store {
    if path in s.open then s.(open := Touch(s.open, path))
    else Added(if |s.open| >= OPEN_FILES then Closed(s, s.open[0]) else s, path)
  }

  /** Writing a line to the open file; `spill` characters of its buffer reach the disk at once. */
  function Wrote(s: Store, path: Path, text: string, spill: nat): Store
    requires path in s.buffers
  {
    var buffer := s.buffers[path] + text;
    var n := if spill <= |buffer| then spill else |buffer|;
    s.(disk := s.disk[path := Get(s.disk, path) + buffer[..n]], buffers := s.buffers[path := buffer[n..]])
  }

  // ---------------------------------------------------------------- the reference

  /** The lines for one file, in the order they were handed over. */
  function LinesFor(items: seq<Item>, path: Path): string {
    if items == [] then ""
    else
      var last := items[|items| - 1];
      LinesFor(items[..|items| - 1], path) + if last.Line? && last.path == path then last.text else ""
  }

  /** Every file ever written, the least recently written first. */
  function Recency(items: seq<Item>): seq<Path> {
    if items == [] then []
    else
      var before, last := Recency(items[..|items| - 1]), items[|items| - 1];
      if last.Line? then Touch(before, last.path) else before
  }

  function LastOf(paths: seq<Path>, n: nat): seq<Path> {
    if |paths| <= n then paths else paths[|paths| - n..]
  }

  /** Every file holds exactly its lines. */
  ghost predicate Holds(s: Store, items: seq<Item>) {
    forall path :: Content(s, path) == LinesFor(items, path)
  }

  /** Nothing waits in a buffer. */
  ghost predicate Clean(s: Store) {
    forall path | path in s.buffers :: s.buffers[path] == ""
  }

  /** The store refines the unbounded writer after `items`: every file holds exactly its lines, and
      the open files are the most recently written ones, in that order. */
  ghost predicate Refines(s: Store, items: seq<Item>) {
    && Valid(s) && Holds(s, items) && Distinct(Recency(items))
    && s.disk.Keys == SetOf(Recency(items))
    && s.open == LastOf(Recency(items), OPEN_FILES)
  }

  lemma FlushedKeeps(s: Store, path: Path)
    requires Valid(s)
    ensures Valid(Flushed(s, path)) && Flushed(s, path).open == s.open
    ensures forall p :: Content(Flushed(s, path), p) == Content(s, p)
    ensures Flushed(s, path).disk.Keys == s.disk.Keys && Flushed(s, path).buffers.Keys == s.buffers.Keys
  {
  }

  lemma {:induction false} DistinctMore(paths: seq<Path>, path: Path)
    requires Distinct(paths) && path !in paths
    ensures Distinct(paths + [path])
  {
    if paths != [] {
      assert (paths + [path])[1..] == paths[1..] + [path];
      DistinctMore(paths[1..], path);
    }
  }

  lemma {:induction false} DistinctParts(a: seq<Path>, b: seq<Path>)
    requires Distinct(a + b)
    ensures Distinct(b) && forall path | path in a :: path !in b
  {
    if a == [] {
      assert a + b == b;
    } else {
      assert (a + b)[1..] == a[1..] + b;
      DistinctParts(a[1..], b);
    }
  }

  lemma {:induction false} WithoutMembers(paths: seq<Path>, path: Path, p: Path)
    ensures p in Without(paths, path) <==> p in paths && p != path
  {
    if paths != [] {
      WithoutMembers(paths[1..], path, p);
    }
  }

  lemma {:induction false} WithoutAbsent(paths: seq<Path>, path: Path)
    requires path !in paths
    ensures Without(paths, path) == paths
  {
    if paths != [] {
      WithoutAbsent(paths[1..], path);
    }
  }

  lemma {:induction false} WithoutDistinct(paths: seq<Path>, path: Path)
    requires Distinct(paths)
    ensures Distinct(Without(paths, path))
    ensures path in paths ==> |Without(paths, path)| == |paths| - 1
  {
    if paths != [] {
      WithoutDistinct(paths[1..], path);
      WithoutMembers(paths[1..], path, paths[0]);
      var rest := Without(paths[1..], path);
      assert ([paths[0]] + rest)[1..] == rest;
      if paths[0] == path {
        WithoutAbsent(paths[1..], path);
      }
    }
  }

  lemma WithoutSet(paths: seq<Path>, path: Path)
    ensures SetOf(Without(paths, path)) == SetOf(paths) - {path}
  {
    forall p ensures p in SetOf(Without(paths, path)) <==> p in SetOf(paths) - {path} {
      WithoutMembers(paths, path, p);
    }
  }

  lemma TouchDistinct(paths: seq<Path>, path: Path)
    requires Distinct(paths)
    ensures Distinct(Touch(paths, path)) && SetOf(Touch(paths, path)) == SetOf(paths) + {path}
    ensures |Touch(paths, path)| == if path in paths then |paths| else |paths| + 1
  {
    var rest := Without(paths, path);
    WithoutDistinct(paths, path);
    WithoutMembers(paths, path, path);
    WithoutSet(paths, path);
    DistinctMore(rest, path);
    assert SetOf(rest + [path]) == SetOf(rest) + {path};
    if path !in paths {
      WithoutAbsent(paths, path);
    }
  }

  lemma ClosedKeeps(s: Store, path: Path)
    requires Valid(s) && path in s.open
    ensures Valid(Closed(s, path)) && Closed(s, path).disk.Keys == s.disk.Keys
    ensures forall p :: Content(Closed(s, path), p) == Content(s, p)
    ensures |Closed(s, path).open| == |s.open| - 1
  {
    FlushedKeeps(s, path);
    WithoutDistinct(s.open, path);
    WithoutSet(s.open, path);
    var t := Closed(s, path);
    assert t.buffers.Keys == SetOf(t.open);
    forall p ensures Content(t, p) == Content(s, p) {
      if p == path {
        assert Content(t, p) == s.disk[p] + s.buffers[p] + "";
      }
    }
  }

  lemma AddedKeeps(s: Store, path: Path)
    requires Valid(s) && path !in s.open && |s.open| < OPEN_FILES
    ensures Valid(Added(s, path)) && Added(s, path).disk.Keys == s.disk.Keys + {path}
    ensures forall p :: Content(Added(s, path), p) == Content(s, p)
  {
    DistinctMore(s.open, path);
    var t := Added(s, path);
    assert t.buffers.Keys == SetOf(t.open);
  }

  lemma OpenedKeeps(s: Store, path: Path)
    requires Valid(s)
    ensures Valid(Opened(s, path)) && path in Opened(s, path).open && path in Opened(s, path).buffers
    ensures forall p :: Content(Opened(s, path), p) == Content(s, p)
    ensures Opened(s, path).disk.Keys == s.disk.Keys + {path}
  {
    if path in s.open {
      TouchDistinct(s.open, path);
    } else if |s.open| >= OPEN_FILES {
      ClosedKeeps(s, s.open[0]);
      WithoutMembers(s.open, s.open[0], path);
      AddedKeeps(Closed(s, s.open[0]), path);
    } else {
      AddedKeeps(s, path);
    }
  }

  lemma LastIs(older: seq<Path>, latest: seq<Path>, n: nat)
    requires |latest| == n || (|latest| < n && older == [])
    ensures LastOf(older + latest, n) == latest
  {
  }

  /** How the most recently written files change when one is written. */
  lemma LastOfTouch(older: seq<Path>, last: seq<Path>, path: Path, n: nat)
    requires Distinct(older + last) && n > 0 && (|last| == n || (|last| < n && older == []))
    ensures LastOf(Touch(older + last, path), n) ==
            if path in last then Touch(last, path) else if |last| >= n then last[1..] + [path] else last + [path]
  {
    DistinctParts(older, last);
    WithoutConcat(older, last, path);
    if path in last {
      WithoutAbsent(older, path);
      WithoutDistinct(last, path);
      assert Touch(older + last, path) == older + Touch(last, path);
      LastIs(older, Touch(last, path), n);
    } else {
      WithoutAbsent(last, path);
      LastOfNew(Without(older, path), last, path, n);
    }
  }

  lemma LastOfNew(older: seq<Path>, last: seq<Path>, path: Path, n: nat)
    requires n > 0 && (|last| == n || (|last| < n && older == []))
    ensures LastOf((older + last) + [path], n) == if |last| >= n then last[1..] + [path] else last + [path]
  {
  }

  lemma OpenAfter(s: Store, path: Path)
    requires Distinct(s.open)
    ensures Opened(s, path).open ==
              if path in s.open then Touch(s.open, path)
              else if |s.open| >= OPEN_FILES then s.open[1..] + [path]
              else s.open + [path]
  {
    if path !in s.open && |s.open| >= OPEN_FILES {
      WithoutAbsent(s.open[1..], s.open[0]);
    }
  }

  lemma LastParts(recency: seq<Path>, n: nat)
    returns (older: seq<Path>)
    ensures var last := LastOf(recency, n);
            recency == older + last && (|last| == n || (|last| < n && older == []))
  {
    var last := LastOf(recency, n);
    older := recency[..|recency| - |last|];
  }

  /** The opened file is the most recent, and what was closed is the least recently written. */
  lemma OpenedOrder(s: Store, recency: seq<Path>, path: Path)
    requires Distinct(recency) && s.open == LastOf(recency, OPEN_FILES)
    ensures Opened(s, path).open == LastOf(Touch(recency, path), OPEN_FILES)
  {
    var older := LastParts(recency, OPEN_FILES);
    LastOfTouch(older, s.open, path, OPEN_FILES);
    DistinctParts(older, s.open);
    OpenAfter(s, path);
  }

  lemma {:induction false} WithoutConcat(a: seq<Path>, b: seq<Path>, path: Path)
    ensures Without(a + b, path) == Without(a, path) + Without(b, path)
  {
    if a == [] {
      assert a + b == b;
    } else {
      assert (a + b)[1..] == a[1..] + b;
      WithoutConcat(a[1..], b, path);
    }
  }

  lemma WroteKeeps(s: Store, path: Path, text: string, spill: nat)
    requires Valid(s) && path in s.buffers
    ensures var t := Wrote(s, path, text, spill);
            && Valid(t) && t.open == s.open && t.disk.Keys == s.disk.Keys
            && forall p :: Content(t, p) == if p == path then Content(s, p) + text else Content(s, p)
  {
  }

  lemma LineHolds(s: Store, items: seq<Item>, path: Path, text: string, spill: nat)
    requires Valid(s) && Holds(s, items)
    ensures path in Opened(s, path).buffers
    ensures Holds(Wrote(Opened(s, path), path, text, spill), items + [Line(path, text)])
  {
    OpenedKeeps(s, path);
    WroteKeeps(Opened(s, path), path, text, spill);
    LinesForMore(items, path, text);
  }

  /** One line more keeps the refinement. */
  lemma LineRefines(s: Store, items: seq<Item>, path: Path, text: string, spill: nat)
    requires Refines(s, items)
    ensures path in Opened(s, path).buffers
    ensures Refines(Wrote(Opened(s, path), path, text, spill), items + [Line(path, text)])
  {
    assert (items + [Line(path, text)])[..|items|] == items;
    LineHolds(s, items, path, text, spill);
    OpenedKeeps(s, path);
    OpenedOrder(s, Recency(items), path);
    TouchDistinct(Recency(items), path);
    WroteKeeps(Opened(s, path), path, text, spill);
  }

  lemma LinesForMore(items: seq<Item>, path: Path, text: string)
    ensures forall p :: LinesFor(items + [Line(path, text)], p) ==
                        if p == path then LinesFor(items, p) + text else LinesFor(items, p)
  {
  }

  lemma FlushRefines(s: Store, items: seq<Item>, path: Path)
    requires Refines(s, items)
    ensures Refines(Flushed(s, path), items) && Flushed(s, path).open == s.open
  {
    FlushedKeeps(s, path);
  }

  lemma SentinelRefines(s: Store, items: seq<Item>)
    requires Refines(s, items)
    ensures Refines(s, items + [Sentinel])
  {
  }

  /** The store after `items`, one by one. */
  function Processed(items: seq<Item>, spills: seq<nat>): Store
    requires |spills| == |items|
  {
    if items == [] then EMPTY
    else
      var n := |items| - 1;
      var s := Processed(items[..n], spills[..n]);
      if items[n].Sentinel? then s
      else
        var t := Opened(s, items[n].path);
        if items[n].path in t.buffers then Wrote(t, items[n].path, items[n].text, spills[n]) else t
  }

  /** For every sequence of lines and every spilling: never more than OPEN_FILES files are open, the
      open ones are the most recently written, and every file holds its lines, each once, in order. */
  lemma {:induction false} BoundedWriterRefines(items: seq<Item>, spills: seq<nat>)
    requires |spills| == |items|
    ensures Refines(Processed(items, spills), items)
  {
    if items != [] {
      var n := |items| - 1;
      BoundedWriterRefines(items[..n], spills[..n]);
      var s := Processed(items[..n], spills[..n]);
      assert items == items[..n] + [items[n]];
      if items[n].Line? {
        LineRefines(s, items[..n], items[n].path, items[n].text, spills[n]);
      } else {
        SentinelRefines(s, items[..n]);
      }
    }
  }

  // ---------------------------------------------------------------- the thread

  /** What the thread takes from the queue: whole batches until one holds the sentinel. */
  function Taken(batches: seq<seq<Item>>): seq<Item> {
    if batches == [] then []
    else if Sentinel in batches[0] then batches[0]
    else batches[0] + Taken(batches[1..])
  }

  function Concat(batches: seq<seq<Item>>): seq<Item> {
    if batches == [] then [] else batches[0] + Concat(batches[1..])
  }

  /** However the queue is cut into batches, the thread takes a prefix of it that holds everything
      up to the first sentinel. */
  lemma {:induction false} TakenUpToClose(batches: seq<seq<Item>>, at: nat)
    requires at < |Concat(batches)| && Concat(batches)[at] == Sentinel
    requires forall i | 0 <= i < at :: Concat(batches)[i] != Sentinel
    ensures Taken(batches) <= Concat(batches) && |Taken(batches)| > at
  {
    var first := batches[0];
    if Sentinel in first {
      var i :| 0 <= i < |first| && first[i] == Sentinel;
      assert Concat(batches)[i] == Sentinel;
    } else {
      assert forall i | 0 <= i < |first| :: Concat(batches)[i] == first[i] && first[i] != Sentinel;
      var rest := Concat(batches[1..]);
      assert rest[at - |first|] == Sentinel;
      forall i | 0 <= i < at - |first| ensures rest[i] != Sentinel {
        assert rest[i] == Concat(batches)[i + |first|];
      }
      TakenUpToClose(batches[1..], at - |first|);
    }
  }

  /** Exactly what the thread takes: every batch up to the first that holds the sentinel, that one whole. */
  lemma {:induction false} TakenIs(batches: seq<seq<Item>>, b: nat)
    requires b <= |batches| && (forall i | 0 <= i < b :: Sentinel !in batches[i])
    requires b < |batches| ==> Sentinel in batches[b]
    ensures Taken(batches) == Concat(if b < |batches| then batches[..b + 1] else batches)
  {
    if batches != [] {
      if b > 0 {
        assert Sentinel !in batches[0];
        TakenIs(batches[1..], b - 1);
        if b < |batches| {
          assert batches[..b + 1][1..] == batches[1..][..b];
        }
      } else {
        assert batches[..1] == [batches[0]] && [batches[0]][1..] == [] && batches[0] + [] == batches[0];
      }
    }
  }

  lemma {:induction false} LinesForConcat(a: seq<Item>, b: seq<Item>, path: Path)
    ensures LinesFor(a + b, path) == LinesFor(a, path) + LinesFor(b, path)
  {
    if b == [] {
      assert a + b == a;
    } else {
      assert (a + b)[..|a + b| - 1] == a + b[..|b| - 1];
      LinesForConcat(a, b[..|b| - 1], path);
    }
  }

  /** Everything handed over before `close` is written, first and in order; after it, only what came
      in the same batch. */
  lemma BeforeCloseIsWritten(batches: seq<seq<Item>>, at: nat, path: Path)
    requires at < |Concat(batches)| && Concat(batches)[at] == Sentinel
    requires forall i | 0 <= i < at :: Concat(batches)[i] != Sentinel
    ensures LinesFor(Concat(batches)[..at], path) <= LinesFor(Taken(batches), path)
    ensures |Concat(batches)| == at + 1 ==> LinesFor(Taken(batches), path) == LinesFor(Concat(batches)[..at], path)
  {
    TakenUpToClose(batches, at);
    var handed, taken := Concat(batches), Taken(batches);
    assert taken == handed[..at] + taken[at..];
    LinesForConcat(handed[..at], taken[at..], path);
    if |handed| == at + 1 {
      assert taken[at..] == [Sentinel] && [Sentinel][..0] == [];
      assert LinesFor([Sentinel], path) == "";
    }
  }

  class Writer {
    var store: Store
    var written: nat

    constructor ()
      ensures written == 0 && Refines(store, []) && Clean(store)
    {
      store, written := EMPTY, 0;
    }

    /** Make `path` the most recent open file, closing the least recent ones while too many are open. */
    method File(path: Path)
      requires Valid(store)
      modifies this`store
      ensures store == Opened(old(store), path)
    {
      if path in store.open {
        store := store.(open := Touch(store.open, path));
        return;
      }
      while |store.open| >= OPEN_FILES
        invariant Valid(store) && path !in store.open
        invariant store == old(store) || (|old(store).open| >= OPEN_FILES && |store.open| < OPEN_FILES
                                          && store == Closed(old(store), old(store).open[0]))
        decreases |store.open|
      {
        ClosedKeeps(store, store.open[0]);
        WithoutMembers(store.open, store.open[0], path);
        store := Closed(store, store.open[0]);
      }
      store := Added(store, path);
    }

    /** Write one line, or take the sentinel. */
    method Take(item: Item, spill: nat, ghost before: seq<Item>)
      requires Refines(store, before)
      modifies this
      ensures Refines(store, before + [item])
      ensures written == old(written) + if item.Line? then 1 else 0
    {
      if item.Line? {
        LineRefines(store, before, item.path, item.text, spill);
        File(item.path);
        store := Wrote(store, item.path, item.text, spill);
        written := written + 1;
      } else {
        SentinelRefines(store, before);
      }
    }

    /** Write a batch's lines, then flush every open file. */
    method Batch(batch: seq<Item>, spills: seq<nat>, ghost before: seq<Item>)
      requires |spills| == |batch| && Refines(store, before)
      modifies this
      ensures Refines(store, before + batch)
      ensures Clean(store)
      ensures written == old(written) + Count(batch)
    {
      assert before + batch[..0] == before;
      for i := 0 to |batch|
        invariant Refines(store, before + batch[..i])
        invariant written == old(written) + Count(batch[..i])
      {
        OneMoreItem(before, batch, i);
        Take(batch[i], spills[i], before + batch[..i]);
      }
      assert batch[..|batch|] == batch;
      Flush(before + batch);
    }

    method Flush(ghost items: seq<Item>)
      requires Refines(store, items)
      modifies this`store
      ensures Refines(store, items) && store.open == old(store).open
      ensures Clean(store)
    {
      var open := store.open;
      for i := 0 to |open|
        invariant Refines(store, items) && store.open == open && EmptyUpTo(store, i)
      {
        FlushRefines(store, items, open[i]);
        FlushEmpties(store, i);
        store := Flushed(store, open[i]);
      }
      AllEmpty(store);
    }

    /** Batches until one holds the sentinel. */
    method Drain(batches: seq<seq<Item>>, spills: seq<seq<nat>>)
      requires Refines(store, []) && Clean(store) && written == 0
      requires |spills| == |batches| && forall i | 0 <= i < |batches| :: |spills[i]| == |batches[i]|
      modifies this
      ensures Refines(store, Taken(batches)) && Clean(store) && written == Count(Taken(batches))
    {
      var ending, n := false, 0;
      ghost var taken: seq<Item> := [];
      TakenAll(batches);
      while !ending && n < |batches|
        invariant n <= |batches| && Refines(store, taken) && Clean(store) && written == Count(taken)
        invariant ToCome(batches, taken, n, ending)
        decreases |batches| - n
      {
        CountConcat(taken, batches[n]);
        TakenStep(taken, batches, n);
        ending := Sentinel in batches[n];
        Batch(batches[n], spills[n], taken);
        taken := taken + batches[n];
        n := n + 1;
      }
      TakenEnds(batches, taken, n, ending);
    }

    /** The thread, from its start to the batch that holds the sentinel. */
    method Run(batches: seq<seq<Item>>, spills: seq<seq<nat>>)
      requires Refines(store, []) && Clean(store) && written == 0
      requires |spills| == |batches| && forall i | 0 <= i < |batches| :: |spills[i]| == |batches[i]|
      modifies this
      ensures written == Count(Taken(batches))
      ensures forall path :: Get(store.disk, path) == LinesFor(Taken(batches), path)
      ensures store.disk.Keys == SetOf(Recency(Taken(batches)))
      ensures store.open == LastOf(Recency(Taken(batches)), OPEN_FILES)
    {
      Drain(batches, spills);
      CleanHolds(store, Taken(batches));
    }
  }

  /** The first open files have nothing buffered. */
  ghost predicate EmptyUpTo(s: Store, n: nat) {
    n <= |s.open| && forall k | 0 <= k < n :: Get(s.buffers, s.open[k]) == ""
  }

  lemma FlushEmpties(s: Store, n: nat)
    requires n < |s.open| && EmptyUpTo(s, n)
    ensures EmptyUpTo(Flushed(s, s.open[n]), n + 1)
  {
  }

  lemma AllEmpty(s: Store)
    requires Valid(s) && EmptyUpTo(s, |s.open|)
    ensures Clean(s)
  {
  }

  /** What is taken in all is what was taken so far and, until the sentinel, what the rest gives. */
  ghost predicate ToCome(batches: seq<seq<Item>>, taken: seq<Item>, n: nat, ending: bool)
    requires n <= |batches|
  {
    Taken(batches) == taken + if ending then [] else Taken(batches[n..])
  }

  lemma TakenAll(batches: seq<seq<Item>>)
    ensures ToCome(batches, [], 0, false)
  {
  }

  lemma TakenEnds(batches: seq<seq<Item>>, taken: seq<Item>, n: nat, ending: bool)
    requires n <= |batches| && ToCome(batches, taken, n, ending) && (ending || n == |batches|)
    ensures Taken(batches) == taken
  {
  }

  lemma TakenStep(taken: seq<Item>, batches: seq<seq<Item>>, n: nat)
    requires n < |batches| && ToCome(batches, taken, n, false)
    ensures ToCome(batches, taken + batches[n], n + 1, Sentinel in batches[n])
  {
  }

  lemma CleanHolds(s: Store, items: seq<Item>)
    requires Refines(s, items) && Clean(s)
    ensures forall path :: Get(s.disk, path) == LinesFor(items, path)
    ensures s.disk.Keys == SetOf(Recency(items)) && s.open == LastOf(Recency(items), OPEN_FILES)
  {
  }

  /** The lines among the items. */
  function Count(items: seq<Item>): nat {
    if items == [] then 0 else Count(items[..|items| - 1]) + if items[|items| - 1].Line? then 1 else 0
  }

  /** The count is the number of places that hold a line. */
  lemma {:induction false} CountIs(items: seq<Item>)
    ensures Count(items) == |set i | 0 <= i < |items| && items[i].Line?|
  {
    if items != [] {
      var n := |items| - 1;
      CountIs(items[..n]);
      var before, all := set i | 0 <= i < n && items[..n][i].Line?, set i | 0 <= i < |items| && items[i].Line?;
      assert all == before + if items[n].Line? then {n} else {};
    }
  }

  lemma OneMoreItem(before: seq<Item>, batch: seq<Item>, i: nat)
    requires i < |batch|
    ensures (before + batch[..i]) + [batch[i]] == before + batch[..i + 1]
    ensures Count(batch[..i + 1]) == Count(batch[..i]) + if batch[i].Line? then 1 else 0
  {
    assert batch[..i + 1][..i] == batch[..i];
  }

  lemma {:induction false} CountConcat(a: seq<Item>, b: seq<Item>)
    ensures Count(a + b) == Count(a) + Count(b)
  {
    if b == [] {
      assert a + b == a;
    } else {
      assert (a + b)[..|a + b| - 1] == a + b[..|b| - 1];
      CountConcat(a, b[..|b| - 1]);
    }
  }
}
