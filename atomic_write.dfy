/** atomicWriteFile: write to a temporary file beside the target, sync, close,
    and rename it into place. */
module AtomicWrite {
  import opened Common
  import opened Files

  /** The name pattern of the temporary file. */
  const TempPrefix: string := ".backup-tmp-"

  /** The errors atomicWriteFile can return, one per failing step. */
  predicate IsWriteError(e: Error)
  {
    e.CreateTempFailed? || e.WriteTempFailed? || e.SyncTempFailed? || e.CloseTempFailed? || e.RenameTempFailed?
  }

  /** On success the target holds exactly data; on any failure every path,
      the target included, is as it was and no temporary file is left. */
  method AtomicWriteFile(fs: FileSystem, path: Path, data: seq<byte>) returns (err: Option<Error>)
    modifies fs
    ensures err.None? ==> fs.files == old(fs.files)[path := data]
    ensures err.Some? ==> fs.files == old(fs.files) && IsWriteError(err.value)
  {
    ghost var before := fs.files;
    var created := fs.CreateTemp(path.dir, TempPrefix);
    if created.None? {
      return Some(CreateTempFailed);
    }
    var tmp := created.value;

    var wrote, _ := fs.Write(tmp, data);
    if !wrote {
      var _ := fs.Close(tmp);
      fs.Remove(tmp);
      assert fs.files == before;
      return Some(WriteTempFailed);
    }
    assert data[..|data|] == data && [] + data == data;
    assert fs.files == before[tmp := data];
    var synced := fs.Sync(tmp);
    if !synced {
      var _ := fs.Close(tmp);
      fs.Remove(tmp);
      assert fs.files == before;
      return Some(SyncTempFailed);
    }
    var closed := fs.Close(tmp);
    if !closed {
      fs.Remove(tmp);
      assert fs.files == before;
      return Some(CloseTempFailed);
    }
    var renamed := fs.Rename(tmp, path);
    if !renamed {
      fs.Remove(tmp);
      assert fs.files == before;
      return Some(RenameTempFailed);
    }
    assert fs.files == before[path := data];
    return None;
  }
}
