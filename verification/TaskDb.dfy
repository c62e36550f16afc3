/** The task database (`db.rs`): one file per record, replaced by writing a
    staging file and renaming it.  The directory is modelled file by file, so
    that crashes and interleavings fall between any two file operations. */
module TaskDb {
  import opened TaskStates
  import opened Orders
  import opened Protocol
  import Decimal
  import Rctl

  /** A file's content: a decodable record, or something else. */
  datatype File = Whole(id: string, record: Record) | Torn

  type Dir = map<string, File>

  predicate IsStaging(name: string) { ".tmp-" <= name }

  /** The staging file of one `put`; `unique` comes from a process-wide counter. */
  function StagingName(id: string, pid: nat, unique: nat): string
  {
    ".tmp-" + id + "-" + Decimal.Digits(pid) + "-" + Decimal.Digits(unique)
  }

  /** No record is taken for a staging file. */
  lemma RecordsAreNotStaging(id: string)
    requires Rctl.IsId(id)
    ensures !IsStaging(id)
  {
    assert id[0] in id;
  }

  /** Two puts of one process never share a staging file. */
  lemma StagingNamesDiffer(id: string, id': string, pid: nat, unique: nat, unique': nat)
    requires Rctl.IsId(id) && Rctl.IsId(id')
    ensures IsStaging(StagingName(id, pid, unique))
    ensures StagingName(id, pid, unique) == StagingName(id', pid, unique') ==> unique == unique'
  {
    var n := 5 + Rctl.ID_LENGTH + 1 + |Decimal.Digits(pid)| + 1;
    assert StagingName(id, pid, unique)[n..] == Decimal.Digits(unique);
    assert StagingName(id', pid, unique')[n..] == Decimal.Digits(unique');
    Decimal.DigitsInjective(unique, unique');
  }

  /** What the directory stands for: the record of each id that has one. */
  function Records(dir: Dir): map<string, Record>
  {
    map name | name in dir && !IsStaging(name) && dir[name].Whole? :: dir[name].record
  }

  /** Every decodable record is in the file named after its own task. */
  ghost predicate DirOk(dir: Dir)
  {
    forall name | name in dir && !IsStaging(name) && dir[name].Whole? :: dir[name].id == name
  }

  // ---- One file operation at a time ----------------------------------------

  function Staged(dir: Dir, tmp: string, file: File): Dir { dir[tmp := file] }

  function Renamed(dir: Dir, tmp: string, id: string): Dir
    requires tmp in dir
  {
    (dir - {tmp})[id := dir[tmp]]
  }

  /** Wherever a put is cut, the directory stands for the old records or for
      the new ones; up to the rename, for the old ones. */
  lemma PutIsAtomic(dir: Dir, tmp: string, id: string, record: Record)
    requires Rctl.IsId(id) && IsStaging(tmp)
    ensures Records(Staged(dir, tmp, Torn)) == Records(dir)
    ensures Records(Staged(dir, tmp, Whole(id, record))) == Records(dir)
    ensures Records(Renamed(Staged(dir, tmp, Whole(id, record)), tmp, id)) == Records(dir)[id := record]
    ensures DirOk(dir) ==> DirOk(Renamed(Staged(dir, tmp, Whole(id, record)), tmp, id))
  {
    RecordsAreNotStaging(id);
  }

  // ---- The database, one call at a time ------------------------------------

  datatype Got = Found(record: Record) | Missing | Corrupt | Unreadable

  datatype PutFault = NoFault | WriteFails(torn: bool) | RenameFails

  class Database {
    const pid: nat
    var counter: nat
    var dir: Dir

    constructor (pid: nat, dir: Dir)
      ensures this.pid == pid && this.dir == dir
    {
      this.pid := pid;
      this.counter := 0;
      this.dir := dir;
    }

    /** `put`. */
    method Put(id: string, record: Record, fault: PutFault) returns (ok: bool)
      requires Rctl.IsId(id)
      modifies this
      ensures ok <==> fault.NoFault?
      ensures Records(dir) == if ok then Records(old(dir))[id := record] else Records(old(dir))
      ensures DirOk(old(dir)) ==> DirOk(dir)
      ensures ok ==> forall name | name in dir :: name == id || (name in old(dir) && dir[name] == old(dir)[name])
    {
      var tmp := StagingName(id, pid, counter);
      counter := counter + 1;
      StagingNamesDiffer(id, id, pid, counter, counter);
      PutIsAtomic(dir, tmp, id, record);
      if fault.WriteFails? {
        if fault.torn {
          dir := Staged(dir, tmp, Torn);
        }
        return false;
      }
      dir := Staged(dir, tmp, Whole(id, record));
      if fault.RenameFails? {
        return false;
      }
      dir := Renamed(dir, tmp, id);
      ok := true;
    }

    /** `get`: a file that cannot be read or decoded is an error, not an absence. */
    method Get(id: string, readable: bool) returns (r: Got)
      requires Rctl.IsId(id)
      ensures r == if !readable then Unreadable
                   else if id in Records(dir) then Found(Records(dir)[id])
                   else if id in dir then Corrupt else Missing
    {
      RecordsAreNotStaging(id);
      if !readable {
        return Unreadable;
      }
      if id !in dir {
        return Missing;
      }
      match dir[id] {
        case Whole(_, record) => r := Found(record);
        case Torn => r := Corrupt;
      }
    }

    /** `put_task`: a status already on disk is kept. */
    method PutTask(id: string, task: TaskDef, seed: TaskState, readable: bool, fault: PutFault) returns (r: Option<TaskState>)
      requires Rctl.IsId(id) && DirOk(dir)
      modifies this
      ensures DirOk(dir)
      ensures r.Some? <==> readable && fault.NoFault? && (id in old(dir) ==> id in Records(old(dir)))
      ensures r.Some? ==> && r.value == (if id in Records(old(dir)) then Records(old(dir))[id].state else seed)
                          && Records(dir) == Records(old(dir))[id := Record(task, r.value)]
      ensures r.None? ==> Records(dir) == Records(old(dir))
    {
      var was := Get(id, readable);
      if was.Corrupt? || was.Unreadable? {
        return None;
      }
      var status := if was.Found? then was.record.state else seed;
      var ok := Put(id, Record(task, status), fault);
      r := if ok then Some(status) else None;
    }

    /** `put_status`: a removed task is never brought back. */
    method PutStatus(id: string, status: TaskState, readable: bool, fault: PutFault) returns (ok: bool, written: bool)
      requires Rctl.IsId(id) && DirOk(dir)
      modifies this
      ensures DirOk(dir) && Records(dir).Keys == Records(old(dir)).Keys
      ensures written <==> readable && id in Records(old(dir)) && fault.NoFault?
      ensures ok <==> written || (readable && id !in old(dir))
      ensures Records(dir) == if written then Records(old(dir))[id := Records(old(dir))[id].(state := status)]
                              else Records(old(dir))
    {
      var was := Get(id, readable);
      match was {
        case Missing => ok, written := true, false;
        case Corrupt => ok, written := false, false;
        case Unreadable => ok, written := false, false;
        case Found(record) =>
          ok := Put(id, record.(state := status), fault);
          written := ok;
      }
    }

    /** `remove`: a missing record is fine, any other failure changes nothing. */
    method Remove(id: string, removable: bool) returns (ok: bool)
      requires Rctl.IsId(id)
      modifies this
      ensures ok == removable && (DirOk(old(dir)) ==> DirOk(dir))
      ensures Records(dir) == if ok then Records(old(dir)) - {id} else Records(old(dir))
    {
      if removable {
        dir := dir - {id};
      }
      ok := removable;
    }

    /** `list`: `entries` is the order in which the directory is read.  Staging
        files are swept where they can be, corrupt files are skipped but kept, and
        the records come sorted by id, each once; a failed enumeration or an
        unreadable record is an error, and no record is lost either way. */
    method List(entries: seq<string>, fault: ListFault) returns (r: Option<seq<(string, Record)>>)
      requires forall name :: name in entries <==> name in dir
      requires forall i, j :: 0 <= i < j < |entries| ==> entries[i] != entries[j]
      requires DirOk(dir)
      modifies this
      ensures r.Some? <==> fault.stops >= |entries| && forall name | name in entries && !IsStaging(name) :: name !in fault.unreadable
      ensures Records(dir) == Records(old(dir)) && dir == Swept(old(dir), old(dir).Keys - dir.Keys)
      ensures r.Some? ==> && dir == Swept(old(dir), old(dir).Keys - fault.stuck)
                          && SortedById(r.value)
                          && forall p :: p in r.value <==> p.0 in Records(dir) && Records(dir)[p.0] == p.1
    {
      var records: seq<(string, Record)> := [];
      ghost var done, swept: set<string> := {}, {};
      assert dir == Swept(dir, {});
      for i := 0 to |entries|
        invariant done == set k | 0 <= k < i :: entries[k]
        invariant i <= fault.stops && forall name | name in done && !IsStaging(name) :: name !in fault.unreadable
        invariant swept == done - fault.stuck && dir == Swept(old(dir), swept) && Listed(records, old(dir), done)
      {
        var name := entries[i];
        assert name in entries && name !in done;
        SweepOne(old(dir), swept, name);
        SweepKeepsRecords(old(dir), swept);
        SweptIsGone(old(dir), swept);
        if fault.stops == i {
          return None;
        }
        if IsStaging(name) {
          if name !in fault.stuck {
            dir := dir - {name};
          }
        } else {
          if name in fault.unreadable {
            return None;
          }
          if dir[name].Whole? {
            records := InsertById(records, dir[name].id, dir[name].record);
          }
        }
        done := done + {name};
        swept := if name in fault.stuck then swept else swept + {name};
      }
      assert done == old(dir).Keys;
      SweepKeepsRecords(old(dir), swept);
      SweptIsGone(old(dir), swept);
      r := Some(records);
    }
  }

  /** What goes wrong while the directory is listed: where the enumeration stops,
      which records cannot be read, and which staging files cannot be deleted. */
  datatype ListFault = ListFault(stops: nat, unreadable: set<string>, stuck: set<string>)

  lemma SweptIsGone(dir: Dir, names: set<string>)
    ensures Swept(dir, names) == Swept(dir, dir.Keys - Swept(dir, names).Keys)
  {
  }

  /** The directory without the staging files among `names`. */
  function Swept(dir: Dir, names: set<string>): Dir
  {
    map name | name in dir && !(IsStaging(name) && name in names) :: dir[name]
  }

  lemma SweepOne(dir: Dir, done: set<string>, name: string)
    requires name in dir && name !in done
    ensures Swept(dir, done + {name}) == if IsStaging(name) then Swept(dir, done) - {name} else Swept(dir, done)
    ensures name in Swept(dir, done) && Swept(dir, done)[name] == dir[name]
  {
  }

  lemma SweepKeepsRecords(dir: Dir, names: set<string>)
    ensures Records(Swept(dir, names)) == Records(dir)
  {
  }

  /** The records among `names`, sorted. */
  ghost predicate Listed(records: seq<(string, Record)>, dir: Dir, names: set<string>)
  {
    && SortedById(records)
    && forall p :: p in records <==> p.0 in names && p.0 in Records(dir) && Records(dir)[p.0] == p.1
  }

  ghost predicate SortedById(records: seq<(string, Record)>)
  {
    forall i, j :: 0 <= i < j < |records| ==> Less(records[i].0, records[j].0)
  }

  method InsertById(records: seq<(string, Record)>, id: string, record: Record) returns (r: seq<(string, Record)>)
    requires SortedById(records) && forall p | p in records :: p.0 != id
    ensures SortedById(r) && forall p :: p in r <==> p in records || p == (id, record)
  {
    var i := 0;
    while i < |records| && Less(records[i].0, id)
      invariant 0 <= i <= |records| && forall j :: 0 <= j < i ==> Less(records[j].0, id)
    {
      i := i + 1;
    }
    r := records[..i] + [(id, record)] + records[i..];
    Spliced(records, i, id, record);
  }

  lemma Spliced(s: seq<(string, Record)>, i: nat, id: string, record: Record)
    requires SortedById(s) && i <= |s| && (forall j :: 0 <= j < i ==> Less(s[j].0, id))
    requires i < |s| ==> !Less(s[i].0, id) && s[i].0 != id
    ensures var r := s[..i] + [(id, record)] + s[i..];
            SortedById(r) && forall p :: p in r <==> p in s || p == (id, record)
  {
    if i < |s| {
      LessTotal(s[i].0, id);
    }
    forall j | i <= j < |s| ensures Less(id, s[j].0) {
      if i < j {
        LessTransitive(id, s[i].0, s[j].0);
      }
    }
    assert s == s[..i] + s[i..];
  }
}
