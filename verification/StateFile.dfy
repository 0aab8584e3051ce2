/** The identity file and its atomic rewrite (internal/state/state.go). */
module StateFile {
  import opened Codecs
  import opened Wrappers
  import R = Reregister

  /** A file without an identities object reads as one with an empty object. */
  datatype Format = Format(version: int, identities: map<string, R.Identity>)

  const VERSION := 1

  datatype Error = Unreadable | Malformed | WrongVersion | Unencodable | NotWritten

  /** A file and whether its contents have been synced. */
  datatype File = File(data: Bytes, synced: bool)

  /** What a crash may leave of a file: all of it once synced, any part of it before. */
  predicate Survives(f: File, data: Bytes) {
    data == f.data || (!f.synced && data <= f.data)
  }

  /** A synced file survives whole, of any other any prefix may be left. */
  lemma SurvivesIff(written: Bytes, data: Bytes)
    ensures Survives(File(written, true), data) <==> data == written
    ensures Survives(File(written, false), data) <==> exists n :: 0 <= n <= |written| && data == written[..n]
  {
    if data <= written {
      assert data == written[..|data|];
    }
    assert written == written[..|written|];
  }

  /** The meaning of the state file: a missing one holds nothing. */
  function Parse(c: Codec<Format>, file: Option<File>): Result<Option<Format>, Error> {
    match file
    case None => Success(None)
    case Some(f) =>
      (match c.decode(f.data)
       case None => Failure(Malformed)
       case Some(fmt) => if fmt.version != VERSION then Failure(WrongVersion) else Success(Some(fmt)))
  }

  function Identities(c: Codec<Format>, file: Option<File>): map<string, R.Identity> {
    match Parse(c, file)
    case Success(Some(fmt)) => fmt.identities
    case _ => map[]
  }

  /** The image a Save of `id` under `url` writes. */
  function Merged(c: Codec<Format>, file: Option<File>, url: string, id: R.Identity): Option<Bytes> {
    c.encode(Format(VERSION, Identities(c, file)[url := id]))
  }

  /** Which file-system calls fail, and how much of the data a failing write gets out. */
  datatype Faults = Faults(read: bool, create: bool, write: Option<nat>, sync: bool, close: bool, rename: bool)

  /** The state file, the temporary file of the write in progress, and what a crash after
      each step so far would have found under the state file's name. */
  class Disk {
    var target: Option<File>
    var temp: Option<File>
    ghost var trace: seq<Option<File>>

    constructor (target: Option<File>)
      ensures this.target == target && temp == None && trace == []
    {
      this.target, temp, trace := target, None, [];
    }

    method CreateTemp(fails: bool) returns (ok: bool)
      modifies this
      ensures ok == !fails && target == old(target) && trace == old(trace) + [target]
      ensures temp == if ok then Some(File([], true)) else None
    {
      temp := if fails then None else Some(File([], true));
      trace := trace + [target];
      return !fails;
    }

    method Write(data: Bytes, failsAfter: Option<nat>) returns (ok: bool)
      requires temp.Some?
      modifies this
      ensures ok == failsAfter.None? && target == old(target) && trace == old(trace) + [target]
      ensures temp.Some? && !temp.value.synced && (ok ==> temp.value.data == data)
    {
      var n := match failsAfter case None => |data| case Some(n) => if n < |data| then n else |data|;
      temp := Some(File(data[..n], false));
      trace := trace + [target];
      return failsAfter.None?;
    }

    method Sync(fails: bool) returns (ok: bool)
      requires temp.Some?
      modifies this
      ensures ok == !fails && target == old(target) && trace == old(trace) + [target]
      ensures temp.Some? && temp.value.data == old(temp).value.data && (ok ==> temp.value.synced)
    {
      if !fails {
        temp := Some(temp.value.(synced := true));
      }
      trace := trace + [target];
      return !fails;
    }

    method Close(fails: bool) returns (ok: bool)
      modifies this
      ensures ok == !fails && target == old(target) && temp == old(temp) && trace == old(trace) + [target]
    {
      trace := trace + [target];
      return !fails;
    }

    method Rename(fails: bool) returns (ok: bool)
      requires temp.Some?
      modifies this
      ensures ok == !fails && trace == old(trace) + [target]
      ensures if ok then target == old(temp) && temp == None else target == old(target) && temp == old(temp)
    {
      if !fails {
        target, temp := temp, None;
      }
      trace := trace + [target];
      return !fails;
    }

    /** A no-op once the rename has succeeded. */
    method RemoveTemp()
      modifies this
      ensures target == old(target) && temp == None && trace == old(trace) + [target]
    {
      temp := None;
      trace := trace + [target];
    }
  }

  /** Everything a crash could find is one of two files. */
  ghost predicate OnlyThese(trace: seq<Option<File>>, from: nat, a: Option<File>, b: Option<File>) {
    forall i :: from <= i < |trace| ==> trace[i] == a || trace[i] == b
  }

  class FileStore {
    const disk: Disk
    const codec: Codec<Format>

    constructor (disk: Disk, codec: Codec<Format>)
      ensures this.disk == disk && this.codec == codec
    {
      this.disk, this.codec := disk, codec;
    }

    /** read: a missing file is no error; anything unexpected is. */
    method Read(fails: bool) returns (r: Result<Option<Format>, Error>)
      ensures r == if fails then Failure(Unreadable) else Parse(codec, disk.target)
      ensures !fails && disk.target.None? ==> r == Success(None)
      ensures !fails && disk.target.Some? ==>
                match codec.decode(disk.target.value.data)
                case None => r == Failure(Malformed)
                case Some(fmt) => r == if fmt.version == 1 then Success(Some(fmt)) else Failure(WrongVersion)
    {
      if fails { return Failure(Unreadable); }
      if disk.target.None? { return Success(None); }
      var fmt := codec.decode(disk.target.value.data);
      if fmt.None? { return Failure(Malformed); }
      if fmt.value.version != VERSION { return Failure(WrongVersion); }
      return Success(Some(fmt.value));
    }

    method Load(url: string, fails: bool) returns (r: Result<Option<R.Identity>, Error>)
      ensures fails ==> r.Failure?
      ensures !fails ==> (r.Failure? <==> Parse(codec, disk.target).Failure?)
      ensures r.Success? ==>
                r.value == (var ids := Identities(codec, disk.target); if url in ids then Some(ids[url]) else None)
      ensures r.Success? && disk.target.Some? ==>
                && codec.decode(disk.target.value.data).Some?
                && var fmt := codec.decode(disk.target.value.data).value;
                   fmt.version == 1 && r.value == if url in fmt.identities then Some(fmt.identities[url]) else None
    {
      var f := Read(fails);
      if f.Failure? { return Failure(f.error); }
      if f.value.None? { return Success(None); }
      var ids := f.value.value.identities;
      return Success(if url in ids then Some(ids[url]) else None);
    }

    /** write: temp file, sync, close, rename; the temp file is removed in every case. */
    method Write(data: Bytes, faults: Faults) returns (ok: bool)
      modifies disk
      ensures disk.target == if ok then Some(File(data, true)) else old(disk.target)
      ensures ok <==> !faults.create && faults.write.None? && !faults.sync && !faults.close && !faults.rename
      ensures disk.temp.None?
      ensures old(disk.trace) <= disk.trace
      ensures OnlyThese(disk.trace, |old(disk.trace)|, old(disk.target), Some(File(data, true)))
    {
      ok := disk.CreateTemp(faults.create);
      if !ok { return; }
      ok := disk.Write(data, faults.write);
      if ok {
        ok := disk.Sync(faults.sync);
      }
      if !ok {
        var _ := disk.Close(false);
        disk.RemoveTemp();
        return;
      }
      ok := disk.Close(faults.close);
      if ok {
        ok := disk.Rename(faults.rename);
      }
      disk.RemoveTemp();
    }

    /** Save.  Nothing is written unless the file could be read and understood; a failure at
        any step leaves the file as it was; a crash after any step finds the complete old or
        the complete new file, never a part of one; and success changes one entry only. */
    method Save(url: string, id: R.Identity, faults: Faults) returns (err: Option<Error>)
      requires RoundTrips(codec)
      modifies disk
      ensures faults.read || Parse(codec, old(disk.target)).Failure? ==> err.Some? && disk.trace == old(disk.trace)
      ensures err.None? <==>
                && !faults.read && Parse(codec, old(disk.target)).Success?
                && Merged(codec, old(disk.target), url, id).Some?
                && !faults.create && faults.write.None? && !faults.sync && !faults.close && !faults.rename
      ensures err.Some? ==> disk.target == old(disk.target)
      ensures err.None? ==>
                && Parse(codec, disk.target).Success? && disk.target.Some? && disk.target.value.synced
                && Identities(codec, disk.target) == Identities(codec, old(disk.target))[url := id]
                && codec.decode(disk.target.value.data)
                     == Some(Format(1, Identities(codec, old(disk.target))[url := id]))
      ensures old(disk.trace) <= disk.trace
      ensures forall i, f, data ::
                |old(disk.trace)| <= i < |disk.trace| && disk.trace[i] == Some(f) && Survives(f, data) ==>
                  || (old(disk.target).Some? && Survives(old(disk.target).value, data))
                  || Some(data) == Merged(codec, old(disk.target), url, id)
    {
      var f := Read(faults.read);
      if f.Failure? { return Some(f.error); }
      var ids := if f.value.Some? then f.value.value.identities else map[];
      var data := codec.encode(Format(VERSION, ids[url := id]));
      if data.None? { return Some(Unencodable); }
      var ok := Write(data.value, faults);
      if !ok { return Some(NotWritten); }
      return None;
    }
  }
}
