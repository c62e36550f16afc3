/** Payload files under any number of concurrent writers: byte by byte, each
    planned file is right, or is still being written through an open handle, or
    was left incomplete by a writer that was cut short. */
module PayloadWriters {
  import opened TaskStates
  import opened Controller

  predicate Planned(cfg: Config, w: Write) { w in cfg.configs || w in cfg.secrets }

  predicate Holds(files: map<Path, Bytes>, w: Write) { w.path in files && files[w.path] == w.data }

  /** The writer has the file open and byte `i` is still to come. */
  predicate WillWrite(x: Writer, w: Write, i: nat)
  {
    x.Running() && x.at.pos.At? && x.File() == w && x.at.pos.n <= i
  }

  ghost predicate Pending(writers: seq<Writer>, w: Write, i: nat)
  {
    exists j :: 0 <= j < |writers| && WillWrite(writers[j], w, i)
  }

  predicate Right(content: Bytes, w: Write, i: nat)
    requires i < |w.data|
  {
    i < |content| && content[i] == w.data[i]
  }

  ghost predicate FileGood(content: Bytes, writers: seq<Writer>, w: Write)
  {
    && |content| <= |w.data|
    && forall i :: 0 <= i < |w.data| ==> Right(content, w, i) || Pending(writers, w, i)
  }

  /** A writer works on a planned batch, and the file it has open exists. */
  predicate WriterOk(cfg: Config, files: map<Path, Bytes>, x: Writer)
  {
    && (x.batch == cfg.configs || x.batch == cfg.secrets)
    && (x.Running() && x.at.pos.At? ==> x.File().path in files)
  }

  ghost predicate Good(cfg: Config, files: map<Path, Bytes>, spoiled: set<Path>, writers: seq<Writer>)
  {
    && (forall j :: 0 <= j < |writers| ==> WriterOk(cfg, files, writers[j]))
    && (forall w | Planned(cfg, w) && w.path in files && w.path !in spoiled :: FileGood(files[w.path], writers, w))
  }

  // ---- One step of one writer ----------------------------------------------

  lemma PathsTell(cfg: Config, v: Write, w: Write)
    requires cfg.Valid() && Planned(cfg, v) && Planned(cfg, w) && v.path == w.path
    ensures v == w
  {
  }

  lemma FileIsPlanned(cfg: Config, files: map<Path, Bytes>, x: Writer)
    requires WriterOk(cfg, files, x) && x.Running()
    ensures Planned(cfg, x.File())
  {
    assert x.batch[x.at.k] in x.batch;
  }

  /** What a writer does elsewhere changes nothing about this file. */
  lemma OtherFile(content: Bytes, writers: seq<Writer>, j: nat, x: Writer, w: Write)
    requires j < |writers| && FileGood(content, writers, w)
    requires forall i: nat :: !WillWrite(writers[j], w, i)
    ensures FileGood(content, writers[j := x], w)
  {
    forall i | 0 <= i < |w.data| && Pending(writers, w, i) ensures Pending(writers[j := x], w, i) {
      var m :| 0 <= m < |writers| && WillWrite(writers[m], w, i);
      assert writers[j := x][m] == writers[m];
    }
  }

  lemma OpenedFile(writers: seq<Writer>, j: nat, w: Write)
    requires j < |writers| && writers[j].Running() && writers[j].File() == w && writers[j].at.pos.Unopened?
    ensures FileGood([], writers[j := writers[j].Moved()], w)
  {
    var now := writers[j := writers[j].Moved()];
    forall i | 0 <= i < |w.data| ensures Pending(now, w, i) {
      assert WillWrite(now[j], w, i);
    }
  }

  /** Writing the next byte through an open handle, whatever other handles have
      done to the file. */
  lemma PokedFile(content: Bytes, writers: seq<Writer>, j: nat, w: Write, n: nat)
    requires j < |writers| && writers[j].Running() && writers[j].File() == w && writers[j].at.pos == At(n)
    requires n < |w.data| && FileGood(content, writers, w)
    ensures FileGood(Poke(content, n, w.data[n]), writers[j := writers[j].Moved()], w)
  {
    var now, poked := writers[j := writers[j].Moved()], Poke(content, n, w.data[n]);
    forall i | 0 <= i < |w.data| ensures Right(poked, w, i) || Pending(now, w, i) {
      if i != n && !Right(content, w, i) {
        var m :| 0 <= m < |writers| && WillWrite(writers[m], w, i);
        assert WillWrite(now[m], w, i);
      }
    }
  }

  lemma ClosedFile(content: Bytes, writers: seq<Writer>, j: nat, w: Write, x: Writer)
    requires j < |writers| && FileGood(content, writers, w)
    requires forall i :: 0 <= i < |w.data| ==> !WillWrite(writers[j], w, i)
    ensures FileGood(content, writers[j := x], w)
  {
    forall i | 0 <= i < |w.data| && Pending(writers, w, i) ensures Pending(writers[j := x], w, i) {
      var m :| 0 <= m < |writers| && WillWrite(writers[m], w, i);
      assert writers[j := x][m] == writers[m];
    }
  }

  /** Every step of every writer keeps the files good. */
  lemma StepGood(cfg: Config, files: map<Path, Bytes>, spoiled: set<Path>, writers: seq<Writer>, j: nat)
    requires cfg.Valid() && Good(cfg, files, spoiled, writers) && j < |writers| && writers[j].Running()
    ensures var x := writers[j];
            Good(cfg, FilesAfter(x, files), SpoiledAfter(x, spoiled), writers[j := x.Moved()])
  {
    var x := writers[j];
    var files', spoiled', now := FilesAfter(x, files), SpoiledAfter(x, spoiled), writers[j := x.Moved()];
    FileIsPlanned(cfg, files, x);
    forall m | 0 <= m < |now| ensures WriterOk(cfg, files', now[m]) {
      assert WriterOk(cfg, files, writers[m]);
    }
    forall w | Planned(cfg, w) && w.path in files' && w.path !in spoiled' ensures FileGood(files'[w.path], now, w) {
      if w.path == x.File().path {
        PathsTell(cfg, w, x.File());
        StepOnFile(files, writers, j, w);
      } else {
        OtherFile(files[w.path], writers, j, x.Moved(), w);
      }
    }
  }

  lemma StepOnFile(files: map<Path, Bytes>, writers: seq<Writer>, j: nat, w: Write)
    requires j < |writers| && writers[j].Running() && writers[j].File() == w
    requires !writers[j].at.pos.Unopened? ==> w.path in files && FileGood(files[w.path], writers, w)
    ensures w.path in FilesAfter(writers[j], files)
    ensures FileGood(FilesAfter(writers[j], files)[w.path], writers[j := writers[j].Moved()], w)
  {
    var x := writers[j];
    match x.at.pos
    case Unopened => OpenedFile(writers, j, w);
    case At(n) =>
      if n < |w.data| {
        PokedFile(files[w.path], writers, j, w, n);
      } else {
        ClosedFile(files[w.path], writers, j, w, x.Moved());
      }
    case Lost(n) => ClosedFile(files[w.path], writers, j, w, x.Moved());
  }

  /** A writer cut short leaves at most its open file incomplete. */
  lemma CutGood(cfg: Config, files: map<Path, Bytes>, spoiled: set<Path>, writers: seq<Writer>, j: nat)
    requires cfg.Valid() && Good(cfg, files, spoiled, writers) && j < |writers|
    ensures Good(cfg, files, spoiled + Cut(writers[j]), writers[j := writers[j].Ended()])
  {
    var x := writers[j];
    var now := writers[j := x.Ended()];
    forall m | 0 <= m < |now| ensures WriterOk(cfg, files, now[m]) {
      assert WriterOk(cfg, files, writers[m]);
    }
    forall w | Planned(cfg, w) && w.path in files && w.path !in spoiled + Cut(x) ensures FileGood(files[w.path], now, w) {
      ClosedFile(files[w.path], writers, j, w, x.Ended());
    }
  }

  // ---- Writers come and go -------------------------------------------------

  /** A writer that has no file open adds nothing. */
  lemma JoinGood(cfg: Config, files: map<Path, Bytes>, spoiled: set<Path>, writers: seq<Writer>, x: Writer)
    requires Good(cfg, files, spoiled, writers) && (x.batch == cfg.configs || x.batch == cfg.secrets) && !x.at.pos.At?
    ensures Good(cfg, files, spoiled, writers + [x])
  {
    var now := writers + [x];
    forall w | Planned(cfg, w) && w.path in files && w.path !in spoiled ensures FileGood(files[w.path], now, w) {
      forall i | 0 <= i < |w.data| && Pending(writers, w, i) ensures Pending(now, w, i) {
        var m :| 0 <= m < |writers| && WillWrite(writers[m], w, i);
        assert now[m] == writers[m];
      }
    }
  }

  /** Neither does its leaving take anything away. */
  lemma LeaveGood(cfg: Config, files: map<Path, Bytes>, spoiled: set<Path>, writers: seq<Writer>, x: Writer)
    requires Good(cfg, files, spoiled, writers + [x]) && !x.HalfDone()
    ensures Good(cfg, files, spoiled, writers)
  {
    var before := writers + [x];
    forall m | 0 <= m < |writers| ensures WriterOk(cfg, files, writers[m]) {
      assert before[m] == writers[m];
    }
    forall w | Planned(cfg, w) && w.path in files && w.path !in spoiled ensures FileGood(files[w.path], writers, w) {
      forall i | 0 <= i < |w.data| && Pending(before, w, i) ensures Pending(writers, w, i) {
        var m :| 0 <= m < |before| && WillWrite(before[m], w, i);
        assert m < |writers| && before[m] == writers[m];
      }
    }
  }

  /** Removing or hiding files detaches who had them open. */
  lemma WipeGood(cfg: Config, files: map<Path, Bytes>, spoiled: set<Path>, writers: seq<Writer>, paths: set<Path>)
    requires Good(cfg, files, spoiled, writers)
    ensures Good(cfg, files - paths, spoiled, Detached(writers, paths))
  {
    var now := Detached(writers, paths);
    forall m | 0 <= m < |now| ensures WriterOk(cfg, files - paths, now[m]) {
      assert WriterOk(cfg, files, writers[m]) && now[m] == DetachedFrom(writers[m], paths);
    }
    forall w | Planned(cfg, w) && w.path in files - paths && w.path !in spoiled ensures FileGood(files[w.path], now, w) {
      forall i | 0 <= i < |w.data| && Pending(writers, w, i) ensures Pending(now, w, i) {
        var m :| 0 <= m < |writers| && WillWrite(writers[m], w, i);
        assert now[m] == DetachedFrom(writers[m], paths) == writers[m];
      }
    }
  }

  lemma PendingIsHalfDone(writers: seq<Writer>, w: Write, i: nat)
    requires i < |w.data| && Pending(writers, w, i)
    ensures w.path in CutAll(writers) && !Untouched(writers, w)
  {
    var m :| 0 <= m < |writers| && WillWrite(writers[m], w, i);
    assert writers[m] in writers && writers[m].HalfDone() && writers[m].File() == w;
  }

  /** A crash ends every writer at once. */
  lemma CrashGood(cfg: Config, files: map<Path, Bytes>, spoiled: set<Path>, writers: seq<Writer>)
    requires Good(cfg, files, spoiled, writers)
    ensures Good(cfg, files, spoiled + CutAll(writers), [])
  {
    forall w | Planned(cfg, w) && w.path in files && w.path !in spoiled + CutAll(writers)
      ensures FileGood(files[w.path], [], w)
    {
      forall i | 0 <= i < |w.data| ensures Right(files[w.path], w, i) {
        if Pending(writers, w, i) {
          PendingIsHalfDone(writers, w, i);
        }
      }
    }
  }

  // ---- What it is worth ----------------------------------------------------

  /** No writer is in the middle of the file. */
  ghost predicate Untouched(writers: seq<Writer>, w: Write)
  {
    forall j :: 0 <= j < |writers| ==> !(writers[j].HalfDone() && writers[j].File() == w)
  }

  /** A planned file that is there holds its payload, unless a writer is in the
      middle of it or was cut short there. */
  lemma GoodHolds(cfg: Config, files: map<Path, Bytes>, spoiled: set<Path>, writers: seq<Writer>, w: Write)
    requires Good(cfg, files, spoiled, writers) && Planned(cfg, w) && w.path in files
    requires w.path !in spoiled && Untouched(writers, w)
    ensures Holds(files, w)
  {
    var content := files[w.path];
    assert FileGood(content, writers, w);
    forall i | 0 <= i < |w.data| ensures Right(content, w, i) {
      if Pending(writers, w, i) {
        PendingIsHalfDone(writers, w, i);
      }
    }
    AllRight(content, w);
  }

  lemma AllRight(content: Bytes, w: Write)
    requires |content| <= |w.data| && forall i :: 0 <= i < |w.data| ==> Right(content, w, i)
    ensures content == w.data
  {
    var n := |content|;
    assert n < |w.data| ==> Right(content, w, n);
    forall i | 0 <= i < n ensures content[i] == w.data[i] {
      assert Right(content, w, i);
    }
  }

  // ---- One writer alone ----------------------------------------------------

  /** The files after a batch of writes. */
  function Filled(files: map<Path, Bytes>, batch: seq<Write>): map<Path, Bytes>
  {
    if batch == [] then files
    else
      var w := batch[|batch| - 1];
      Filled(files, batch[..|batch| - 1])[w.path := w.data]
  }

  /** Once a batch of distinct paths is written, every file holds its payload. */
  lemma {:induction false} FilledHolds(files: map<Path, Bytes>, batch: seq<Write>)
    requires forall v, w | v in batch && w in batch :: v.path == w.path ==> v == w
    ensures forall w | w in batch :: Holds(Filled(files, batch), w)
    decreases |batch|
  {
    if batch != [] {
      var n := |batch| - 1;
      assert batch == batch[..n] + [batch[n]];
      FilledHolds(files, batch[..n]);
    }
  }

  /** No other file is touched. */
  lemma {:induction false} FilledElsewhere(files: map<Path, Bytes>, batch: seq<Write>, path: Path)
    requires forall w | w in batch :: w.path != path
    ensures path in Filled(files, batch) <==> path in files
    ensures path in files ==> Filled(files, batch)[path] == files[path]
    decreases |batch|
  {
    if batch != [] {
      var n := |batch| - 1;
      assert batch == batch[..n] + [batch[n]];
      FilledElsewhere(files, batch[..n], path);
    }
  }

  lemma {:induction false} FilledFront(files: map<Path, Bytes>, batch: seq<Write>)
    requires batch != []
    ensures Filled(files, batch) == Filled(files[batch[0].path := batch[0].data], batch[1..])
    decreases |batch|
  {
    var n := |batch| - 1;
    if n == 0 {
      assert batch[..0] == [] && batch[1..] == [];
    } else {
      FilledFront(files, batch[..n]);
      assert batch[..n][1..] == batch[1..][..n - 1];
    }
  }

  /** The steps of a whole batch: each file is opened, written byte by byte, and
      closed. */
  function Effort(batch: seq<Write>): nat
  {
    if batch == [] then 0 else |batch[0].data| + 2 + Effort(batch[1..])
  }

  /** The writer is not past the end of the file it is at. */
  predicate InFile(x: Writer) { x.Running() ==> x.at.pos.Unopened? || (x.at.pos.At? && x.at.pos.n <= |x.File().data|) }

  /** The steps it has still to take. */
  function Toil(x: Writer): nat
    requires InFile(x)
  {
    if !x.Running() then 0
    else
      Effort(x.batch[x.at.k + 1..])
      + (if x.at.pos.Unopened? then |x.File().data| + 2 else |x.File().data| + 1 - x.at.pos.n)
  }

  lemma ToilFalls(x: Writer)
    requires InFile(x) && x.Running()
    ensures InFile(x.Moved()) && Toil(x.Moved()) == Toil(x) - 1
  {
    var k := x.at.k;
    if k + 1 < |x.batch| {
      assert x.batch[k + 1..][1..] == x.batch[k + 2..];
    }
  }

  /** The files once the writer is through, if nobody else writes. */
  function Finished(x: Writer, files: map<Path, Bytes>): map<Path, Bytes>
    requires InFile(x)
    decreases Toil(x)
  {
    if !x.Running() then files
    else
      ToilFalls(x);
      Finished(x.Moved(), FilesAfter(x, files))
  }

  /** Alone, a writer leaves exactly its batch. */
  lemma {:induction false} FinishedFills(x: Writer, files: map<Path, Bytes>)
    requires x.at.pos.Unopened? && x.at.k <= |x.batch|
    ensures Finished(x, files) == Filled(files, x.batch[x.at.k..])
    decreases |x.batch| - x.at.k
  {
    if x.Running() {
      var w := x.File();
      FinishesFile(x.Moved(), files[w.path := []], 0);
      FinishedFills(x.(at := Place(x.at.k + 1, Unopened)), files[w.path := []][w.path := w.data]);
      FilledFront(files, x.batch[x.at.k..]);
      assert files[w.path := []][w.path := w.data] == files[w.path := w.data];
      assert x.batch[x.at.k..][1..] == x.batch[x.at.k + 1..];
    }
  }

  /** From byte `n` to the end of the file. */
  lemma {:induction false} FinishesFile(x: Writer, files: map<Path, Bytes>, n: nat)
    requires x.Running() && x.at.pos == At(n) && n <= |x.File().data|
    requires x.File().path in files && files[x.File().path] == x.File().data[..n]
    ensures Finished(x, files)
         == Finished(x.(at := Place(x.at.k + 1, Unopened)), files[x.File().path := x.File().data])
    decreases |x.File().data| - n
  {
    var w := x.File();
    if n < |w.data| {
      assert Poke(w.data[..n], n, w.data[n]) == w.data[..n + 1];
      FinishesFile(x.Moved(), FilesAfter(x, files), n + 1);
      assert FilesAfter(x, files)[w.path := w.data] == files[w.path := w.data];
    } else {
      assert w.data[..n] == w.data;
      assert files[w.path := w.data] == files;
    }
  }
}
