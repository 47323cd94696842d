/** The object createApp returns, with the output tree it writes and the log of
    remote-store calls and reload emissions it causes as state. */
module Orchestrator {

  import opened Wrappers
  import opened Paths
  import opened Trees
  import opened Consistency

  /** Why `copy` rejects: emptying the output tree failed, or copying one
      source file failed. */
  datatype CopyError = EmptyDirFailed | CopyFailed(path: Path)

  class App {
    const cfg: Config
    const util: Util
    /** The output tree (config.out). */
    var out: Tree
    /** Every `theme.sync` / `theme.unsync` call and `socket.emit('refresh')`, in order. */
    var effects: seq<Effect>

    /** createApp(config, shopifyconfig) over an output tree that already holds `existing`. */
    constructor (cfg: Config, util: Util, existing: Tree)
      ensures this.cfg == cfg
      ensures this.util.sanitize == util.sanitize && this.util.matchGlob == util.matchGlob && this.util.join == util.join
      ensures out == existing && effects == []
    {
      this.cfg := cfg;
      this.util := util;
      out := existing;
      effects := [];
    }

    /** copy(): fs.emptyDir(config.out), then fs.copy(config.in, config.out)
        with the ignore filter. `emptyDirFails` and `copyFails` are the answers
        of the file system; files are copied in an order it chooses. */
    method Copy(source: Tree, emptyDirFails: bool, copyFails: Path -> bool) returns (r: Outcome<CopyError>)
      requires UnderRoot(cfg.srcRoot, source)
      modifies this`out
      ensures r.Pass? <==> !emptyDirFails && forall p :: p in source && CopyAdmits(cfg, util, p) ==> !copyFails(p)
      ensures r.Pass? ==> out == Mirrored(cfg, util, source)
      ensures r == Fail(EmptyDirFailed) <==> emptyDirFails
      ensures r.Fail? && r.error.CopyFailed? ==>
                var p := r.error.path;
                p in source && CopyAdmits(cfg, util, p) && copyFails(p) && out.Items <= Mirrored(cfg, util, source).Items
    {
      if emptyDirFails {
        return Fail(EmptyDirFailed);
      }
      out := map[];
      r := CopyInto(source, copyFails);
    }

    /** fs.copy(config.in, config.out, {filter}) into the emptied output tree. */
    method CopyInto(source: Tree, copyFails: Path -> bool) returns (r: Outcome<CopyError>)
      requires UnderRoot(cfg.srcRoot, source) && out == map[]
      modifies this`out
      ensures r.Pass? <==> forall p :: p in source && CopyAdmits(cfg, util, p) ==> !copyFails(p)
      ensures r.Pass? ==> out == Mirrored(cfg, util, source)
      ensures r.Fail? ==>
                r.error.CopyFailed? && var p := r.error.path;
                p in source && CopyAdmits(cfg, util, p) && copyFails(p) && out.Items <= Mirrored(cfg, util, source).Items
    {
      var todo := source.Keys;
      assert source - todo == map[];
      while todo != {}
        invariant todo <= source.Keys
        invariant out == Mirrored(cfg, util, source - todo)
        invariant forall p :: p in source && p !in todo && CopyAdmits(cfg, util, p) ==> !copyFails(p)
        decreases todo
      {
        var p :| p in todo;
        var failed := CopyNext(source, todo, p, copyFails);
        if failed {
          assert out.Items <= Mirrored(cfg, util, source).Items by {
            MirroredMonotone(cfg, util, source - todo, source);
          }
          assert p in source && CopyAdmits(cfg, util, p) && copyFails(p);
          return Fail(CopyFailed(p));
        }
        todo := todo - {p};
      }
      assert source - {} == source;
      assert forall p :: p in source && CopyAdmits(cfg, util, p) ==> !copyFails(p);
      return Pass;
    }

    /** One file of the bulk copy: the filter admits p and its copy fails, or
        the copied part of the source tree grows by p. */
    method CopyNext(source: Tree, todo: set<Path>, p: Path, copyFails: Path -> bool) returns (failed: bool)
      requires UnderRoot(cfg.srcRoot, source) && p in todo && todo <= source.Keys
      requires out == Mirrored(cfg, util, source - todo)
      modifies this`out
      ensures failed <==> CopyAdmits(cfg, util, p) && copyFails(p)
      ensures failed ==> out == old(out)
      ensures !failed ==> out == Mirrored(cfg, util, source - (todo - {p}))
    {
      CopyStep(cfg, util, source, todo, p);
      var admitted := CopyAdmits(cfg, util, p);
      if admitted {
        if copyFails(p) {
          return true;
        }
        out := out[Mirror(cfg, p) := source[p]];
      }
      return false;
    }

    // The watch task's helpers. Each failure is caught and logged in the
    // source. copyFile and deleteFile always settle normally; syncFile and
    // unsyncFile do too, unless the store rejects with `undefined` or `null`,
    // where the catch handler itself throws and the promise rejects unhandled.
    // The effect log is the same either way.

    /** copyFile(record): `read` is what fs.copy finds at record.src, None when it fails. */
    method CopyFile(rec: FileRecord, read: Option<Bytes>)
      modifies this`out
      ensures out == CopiedFile(old(out), rec, read)
    {
      if rec.File? && read.Some? {
        out := out[rec.dest := read.value];
      }
    }

    /** deleteFile(record): `ioOk` is whether fs.remove succeeds. */
    method DeleteFile(rec: FileRecord, ioOk: bool)
      modifies this`out
      ensures out == RemovedFile(old(out), rec, ioOk)
    {
      if rec.File? && ioOk {
        out := out - {rec.dest};
      }
    }

    /** syncFile(record): `storeOk` is whether theme.sync(dest) resolves. */
    method SyncFile(rec: FileRecord, storeOk: bool)
      modifies this`effects
      ensures effects == old(effects) + StoreEffects(rec, false, storeOk)
    {
      if Key(rec) == "" {
        return;
      }
      effects := effects + [Sync(rec.dest)];
      if storeOk {
        effects := effects + [Refresh];
      }
    }

    /** unsyncFile(record): `storeOk` is whether theme.unsync(dest) resolves. */
    method UnsyncFile(rec: FileRecord, storeOk: bool)
      modifies this`effects
      ensures effects == old(effects) + StoreEffects(rec, true, storeOk)
    {
      if Key(rec) == "" {
        return;
      }
      effects := effects + [Unsync(rec.dest)];
      if storeOk {
        effects := effects + [Refresh];
      }
    }

    // The source watcher: ignored paths are dropped, the rest are mirrored
    // into the output tree. The store log is untouched.

    method OnSourceAdd(file: Path, read: Option<Bytes>)
      modifies this`out
      ensures out == SourceWritten(cfg, util, old(out), file, read)
    {
      if Ignored(cfg, util, file) {
        return;
      }
      CopyFile(Translate(cfg, util, file), read);
    }

    method OnSourceChange(file: Path, read: Option<Bytes>)
      modifies this`out
      ensures out == SourceWritten(cfg, util, old(out), file, read)
    {
      if Ignored(cfg, util, file) {
        return;
      }
      CopyFile(Translate(cfg, util, file), read);
    }

    method OnSourceUnlink(file: Path, ioOk: bool)
      modifies this`out
      ensures out == SourceRemoved(cfg, util, old(out), file, ioOk)
    {
      if Ignored(cfg, util, file) {
        return;
      }
      DeleteFile(Translate(cfg, util, file), ioOk);
    }

    // The output watcher: every event goes to the store. The output tree is
    // untouched.

    method OnOutputAdd(file: Path, storeOk: bool)
      modifies this`effects
      ensures effects == old(effects) + OutputEffects(cfg, util, Add, file, storeOk)
    {
      SyncFile(Translate(cfg, util, file), storeOk);
    }

    method OnOutputChange(file: Path, storeOk: bool)
      modifies this`effects
      ensures effects == old(effects) + OutputEffects(cfg, util, Change, file, storeOk)
    {
      SyncFile(Translate(cfg, util, file), storeOk);
    }

    method OnOutputUnlink(file: Path, storeOk: bool)
      modifies this`effects
      ensures effects == old(effects) + OutputEffects(cfg, util, Unlink, file, storeOk)
    {
      UnsyncFile(Translate(cfg, util, file), storeOk);
    }

    /** The output watcher's routing by event name (`.on('add' | 'change' | 'unlink', …)`). */
    method OnOutputEvent(e: OutputEvent)
      modifies this`effects
      ensures effects == old(effects) + Replay(cfg, util, [e])
    {
      match e.kind {
        case Add => OnOutputAdd(e.file, e.storeOk);
        case Change => OnOutputChange(e.file, e.storeOk);
        case Unlink => OnOutputUnlink(e.file, e.storeOk);
      }
      assert Replay(cfg, util, [e]) == OutputEffects(cfg, util, e.kind, e.file, e.storeOk) + Replay(cfg, util, []);
    }
  }
}
