/** The file system the exporter writes to, as a map from paths to contents,
    and the operating-system calls it makes. Each call that can fail in the
    operating system fails here nondeterministically. */
module Files {
  import opened Common

  /** filepath.Join(dir, name): a file inside a directory. */
  datatype Path = Path(dir: string, name: string)

  /** Why os.ReadFile failed: os.IsNotExist or any other error. */
  datatype ReadError = NotExist | ReadFailed

  /** p holds the same content (or is absent) in both file maps. */
  ghost predicate SameAt(before: map<Path, seq<byte>>, after: map<Path, seq<byte>>, p: Path)
  {
    (p in before <==> p in after) && (p in before ==> before[p] == after[p])
  }

  /** No path outside ps differs between the two file maps. */
  ghost predicate OnlyChanged(before: map<Path, seq<byte>>, after: map<Path, seq<byte>>, ps: set<Path>)
  {
    forall q :: q !in ps ==> SameAt(before, after, q)
  }

  lemma OnlyChangedTrans(a: map<Path, seq<byte>>, b: map<Path, seq<byte>>, c: map<Path, seq<byte>>, ps: set<Path>, qs: set<Path>)
    requires OnlyChanged(a, b, ps) && OnlyChanged(b, c, qs)
    ensures OnlyChanged(a, c, ps + qs)
  {
    forall q | q !in ps + qs ensures SameAt(a, c, q) {
      assert SameAt(a, b, q) && SameAt(b, c, q);
    }
  }

  /** A change confined to ps is confined to any superset of ps. */
  lemma OnlyChangedWithin(before: map<Path, seq<byte>>, after: map<Path, seq<byte>>, ps: set<Path>, qs: set<Path>)
    requires OnlyChanged(before, after, ps) && ps <= qs
    ensures OnlyChanged(before, after, qs)
  {
  }

  /** Maps that agree once p is removed differ at most at p. */
  lemma OnlyChangedAt(before: map<Path, seq<byte>>, after: map<Path, seq<byte>>, p: Path)
    requires before - {p} == after - {p}
    ensures OnlyChanged(before, after, {p})
  {
    forall q | q !in {p} ensures SameAt(before, after, q) {
      assert q in before <==> q in before - {p};
      assert q in after <==> q in after - {p};
      if q in before {
        assert before[q] == (before - {p})[q];
        assert after[q] == (after - {p})[q];
      }
    }
  }

  class FileSystem {
    var files: map<Path, seq<byte>>

    constructor (initial: map<Path, seq<byte>>)
      ensures files == initial
    {
      files := initial;
    }

    /** os.ReadFile: a missing file is reported as NotExist; an existing file
        is read whole, unless the read fails. */
    method ReadFile(p: Path) returns (r: Result<seq<byte>, ReadError>)
      ensures p !in files ==> r == Err(NotExist)
      ensures p in files ==> r == Ok(files[p]) || r == Err(ReadFailed)
    {
      if p !in files {
        return Err(NotExist);
      }
      var fails: bool := *;
      if fails {
        return Err(ReadFailed);
      }
      return Ok(files[p]);
    }

    /** os.CreateTemp(dir, prefix + "*"): creates an empty file with a fresh
        name in dir, or fails. */
    method CreateTemp(dir: string, prefix: string) returns (r: Option<Path>)
      modifies this
      ensures r.None? ==> files == old(files)
      ensures r.Some? ==> r.value.dir == dir && r.value !in old(files)
      ensures r.Some? ==> files == old(files)[r.value := []]
    {
      var suffix: string := *;
      var tmp := Path(dir, prefix + suffix);
      var fails: bool := *;
      if fails || tmp in files {
        return None;
      }
      files := files[tmp := []];
      return Some(tmp);
    }

    /** (*os.File).Write on a file opened for writing at its end: returns how
        many bytes reached the file; fewer than all of them means an error. */
    method Write(p: Path, data: seq<byte>) returns (ok: bool, written: nat)
      requires p in files
      modifies this
      ensures written <= |data| && (ok ==> written == |data|)
      ensures files == old(files)[p := old(files)[p] + data[..written]]
    {
      ok := *;
      if ok {
        written := |data|;
      } else {
        written :| written <= |data|;
      }
      files := files[p := files[p] + data[..written]];
    }

    /** (*os.File).Sync: forces the data to stable storage; the map of contents
        does not change. */
    method Sync(p: Path) returns (ok: bool)
    {
      ok := *;
    }

    /** (*os.File).Close: releases the handle; the contents do not change. */
    method Close(p: Path) returns (ok: bool)
    {
      ok := *;
    }

    /** os.Remove, whose error the exporter ignores. */
    method Remove(p: Path)
      modifies this
      ensures files == old(files) - {p}
    {
      files := files - {p};
    }

    /** os.Rename: moves src onto dst in one step, replacing dst, or fails and
        changes nothing. */
    method Rename(src: Path, dst: Path) returns (ok: bool)
      requires src in files
      modifies this
      ensures ok ==> files == (old(files) - {src})[dst := old(files)[src]]
      ensures !ok ==> files == old(files)
    {
      ok := *;
      if ok {
        var data := files[src];
        files := (files - {src})[dst := data];
      }
    }

    /** os.OpenFile(p, O_APPEND|O_CREATE|O_WRONLY): opens p for appending,
        creating it empty if it is missing, or fails. */
    method OpenAppend(p: Path) returns (ok: bool)
      modifies this
      ensures ok ==> p in files
      ensures ok ==> files == if p in old(files) then old(files) else old(files)[p := []]
      ensures !ok ==> files == old(files)
    {
      ok := *;
      if ok && p !in files {
        files := files[p := []];
      }
    }
  }
}
