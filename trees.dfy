/** The source tree, the output tree and the remote-store log as plain data,
    with the effect of `copy` and of each watcher handler stated as functions
    of them. */
module Trees {

  import opened Wrappers
  import opened Paths

  type Bytes = seq<bv8>

  /** A directory tree: file path to file content. */
  type Tree = map<Path, Bytes>

  /** `pre` starts `s`: the same as Dafny's `pre <= s`, written out so that
      the slice `s[..|pre|]` is at hand in the placement proofs. */
  predicate IsPrefix(pre: string, s: string)
  {
    |pre| <= |s| && s[..|pre|] == pre
  }

  /** Every file of the tree lies below the root. */
  predicate UnderRoot(root: Path, t: Tree)
  {
    forall p :: p in t ==> IsPrefix(root, p)
  }

  /** Where fs.copy(config.in, config.out) places the file it finds at p: the
      same relative position below config.out. */
  function Mirror(c: Config, p: Path): (q: Path)
    requires IsPrefix(c.srcRoot, p)
    ensures IsPrefix(c.outRoot, q)
  {
    c.outRoot + p[|c.srcRoot|..]
  }

  /** Where a file of the output tree came from, for the bulk copy. */
  function Unmirror(c: Config, q: Path): (p: Path)
    requires IsPrefix(c.outRoot, q)
    ensures IsPrefix(c.srcRoot, p)
  {
    c.srcRoot + q[|c.outRoot|..]
  }

  /** Mirror and Unmirror are inverse, so no two source files share a place. */
  lemma MirrorRoundTrips(c: Config)
    ensures forall p :: IsPrefix(c.srcRoot, p) ==> Unmirror(c, Mirror(c, p)) == p
    ensures forall q :: IsPrefix(c.outRoot, q) ==> Mirror(c, Unmirror(c, q)) == q
  {
    forall p | IsPrefix(c.srcRoot, p) ensures Unmirror(c, Mirror(c, p)) == p {
      assert Mirror(c, p)[|c.outRoot|..] == p[|c.srcRoot|..];
      assert p == c.srcRoot + p[|c.srcRoot|..];
    }
    forall q | IsPrefix(c.outRoot, q) ensures Mirror(c, Unmirror(c, q)) == q {
      assert Unmirror(c, q)[|c.srcRoot|..] == q[|c.outRoot|..];
      assert q == c.outRoot + q[|c.outRoot|..];
    }
  }

  /** The paths fs.copy(config.in, config.out, {filter}) hands to its filter
      on the way to the file p: config.in itself, each directory below it that
      contains p, and p (the last two as they lie below config.in). */
  predicate IsCopyAncestor(c: Config, p: Path, i: nat)
    requires IsPrefix(c.srcRoot, p)
  {
    i == |c.srcRoot| || (|c.srcRoot| < i < |p| && p[i] == '/')
  }

  /** The bulk copy writes the file p: its filter passes config.in, every
      directory between config.in and p, and p itself. A directory the filter
      rejects is skipped with everything below it. (The source handlers test
      only p itself.) */
  predicate CopyAdmits(c: Config, u: Util, p: Path)
    requires IsPrefix(c.srcRoot, p)
  {
    !Ignored(c, u, p) && AncestorsAdmitted(c, u, p)
  }

  /** No directory the copy passes through on the way to p is ignored. */
  predicate AncestorsAdmitted(c: Config, u: Util, p: Path)
    requires IsPrefix(c.srcRoot, p)
  {
    forall i :: 0 <= i <= |p| && IsCopyAncestor(c, p, i) ==> !Ignored(c, u, p[..i])
  }

  /** The output tree a successful `copy` leaves behind: exactly the source
      files the filter admits, each at its mirrored place with its content, and
      nothing else. */
  function Mirrored(c: Config, u: Util, src: Tree): (r: Tree)
    requires UnderRoot(c.srcRoot, src)
    ensures forall p :: p in src ==> (Mirror(c, p) in r <==> CopyAdmits(c, u, p))
    ensures forall p :: p in src && CopyAdmits(c, u, p) ==> r[Mirror(c, p)] == src[p]
  {
    MirrorRoundTrips(c);
    map p | p in src && CopyAdmits(c, u, p) :: Mirror(c, p) := src[p]
  }

  /** Read from the output side: the post-copy tree holds q exactly when q
      lies under config.out and comes from an admitted source file, and holds
      that file's content there. */
  lemma MirroredFrom(c: Config, u: Util, src: Tree)
    requires UnderRoot(c.srcRoot, src)
    ensures var r := Mirrored(c, u, src);
            forall q :: q in r <==> IsPrefix(c.outRoot, q) && Unmirror(c, q) in src && CopyAdmits(c, u, Unmirror(c, q))
    ensures var r := Mirrored(c, u, src);
            forall q :: q in r ==> r[q] == src[Unmirror(c, q)]
  {
    MirrorRoundTrips(c);
  }

  /** Two trees agree on every path but k. */
  predicate SameExcept(a: Tree, b: Tree, k: Path)
  {
    a - {k} == b - {k}
  }

  /** copyFile: fs.copy(src, dest) puts what it reads at `src` on `dest`. A
      failed copy (nothing could be read, or the record `{}` has no paths) is
      caught and logged; the model assumes it leaves the tree unchanged. */
  function CopiedFile(out: Tree, rec: FileRecord, read: Option<Bytes>): (r: Tree)
    ensures rec.File? && read.Some? ==> rec.dest in r && r[rec.dest] == read.value
    ensures rec.File? ==> SameExcept(r, out, rec.dest)
    ensures rec.NoFile? || read.None? ==> r == out
  {
    if rec.File? && read.Some? then out[rec.dest := read.value] else out
  }

  /** deleteFile: fs.remove(dest) takes `dest` out of the tree (removing a
      missing path succeeds). A failed removal is caught; the model assumes it
      leaves the tree unchanged. */
  function RemovedFile(out: Tree, rec: FileRecord, ioOk: bool): (r: Tree)
    ensures rec.File? && ioOk ==> rec.dest !in r
    ensures rec.File? ==> SameExcept(r, out, rec.dest)
    ensures rec.NoFile? || !ioOk ==> r == out
  {
    if rec.File? && ioOk then out - {rec.dest} else out
  }

  /** The source watcher's `add` and `change` handlers. */
  function SourceWritten(c: Config, u: Util, out: Tree, file: Path, read: Option<Bytes>): (r: Tree)
    ensures Ignored(c, u, file) || file == "" || read.None? ==> r == out
    ensures !Ignored(c, u, file) && file != "" && read.Some? ==>
              var dest := Translate(c, u, file).dest; dest in r && r[dest] == read.value
    ensures file != "" ==> SameExcept(r, out, Translate(c, u, file).dest)
  {
    if Ignored(c, u, file) then out else CopiedFile(out, Translate(c, u, file), read)
  }

  /** The source watcher's `unlink` handler. */
  function SourceRemoved(c: Config, u: Util, out: Tree, file: Path, ioOk: bool): (r: Tree)
    ensures Ignored(c, u, file) || file == "" || !ioOk ==> r == out
    ensures !Ignored(c, u, file) && file != "" && ioOk ==> Translate(c, u, file).dest !in r
    ensures file != "" ==> SameExcept(r, out, Translate(c, u, file).dest)
  {
    if Ignored(c, u, file) then out else RemovedFile(out, Translate(c, u, file), ioOk)
  }

  /** What the remote-store log records: a call to the store, or a `refresh`
      emitted on the reload socket. */
  datatype Effect = Sync(dest: Path) | Unsync(dest: Path) | Refresh

  datatype EventKind = Add | Change | Unlink

  predicate IsStoreCall(e: Effect)
  {
    e.Sync? || e.Unsync?
  }

  function StoreCallCount(effects: seq<Effect>): (n: nat)
    ensures n <= |effects|
  {
    if effects == [] then 0
    else (if IsStoreCall(effects[0]) then 1 else 0) + StoreCallCount(effects[1..])
  }

  function RefreshCount(effects: seq<Effect>): (n: nat)
    ensures n <= |effects|
  {
    if effects == [] then 0
    else (if effects[0].Refresh? then 1 else 0) + RefreshCount(effects[1..])
  }

  /** syncFile (`remove` false) and unsyncFile (`remove` true): a record with a
      falsy filename resolves at once; otherwise the store is called once with
      `dest` and, if that call succeeds, `refresh` is emitted once. A failing
      call is caught, so the returned promise resolves either way, unless the store
      rejects with `undefined` or `null`: the catch handler then throws and the
      promise rejects. The log is the same in both cases: the call, no refresh. */
  function StoreEffects(rec: FileRecord, remove: bool, storeOk: bool): (r: seq<Effect>)
    ensures Key(rec) == "" <==> r == []
    ensures r != [] ==> r[0] == (if remove then Unsync(rec.dest) else Sync(rec.dest))
    ensures StoreCallCount(r) == (if Key(rec) == "" then 0 else 1)
    ensures RefreshCount(r) == (if Key(rec) != "" && storeOk then 1 else 0)
    ensures forall i :: 0 < i < |r| ==> r[i] == Refresh
  {
    if Key(rec) == "" then []
    else
      var call := if remove then Unsync(rec.dest) else Sync(rec.dest);
      [call] + (if storeOk then [Refresh] else [])
  }

  /** The output watcher's handlers: add and change sync, unlink unsyncs. */
  function OutputEffects(c: Config, u: Util, kind: EventKind, file: Path, storeOk: bool): (r: seq<Effect>)
    ensures file == "" ==> r == []
    ensures r != [] ==> var dest := Translate(c, u, file).dest;
              r[0] == (if kind == Unlink then Unsync(dest) else Sync(dest))
    ensures StoreCallCount(r) == (if Key(Translate(c, u, file)) == "" then 0 else 1)
    ensures RefreshCount(r) == (if Key(Translate(c, u, file)) != "" && storeOk then 1 else 0)
  {
    StoreEffects(Translate(c, u, file), kind == Unlink, storeOk)
  }

  /** One event seen by the output watcher, with the store's answer to the call
      it causes. */
  datatype OutputEvent = OutputEvent(kind: EventKind, file: Path, storeOk: bool)

  /** The log a run of output events leaves, one event after another. */
  function Replay(c: Config, u: Util, events: seq<OutputEvent>): (r: seq<Effect>)
    ensures |r| <= 2 * |events|
    decreases |events|
  {
    if events == [] then []
    else
      var e := events[0];
      OutputEffects(c, u, e.kind, e.file, e.storeOk) + Replay(c, u, events[1..])
  }

  /** The events that reach the store: those whose translated filename is not falsy. */
  function KeyedCount(c: Config, u: Util, events: seq<OutputEvent>): (n: nat)
    decreases |events|
  {
    if events == [] then 0
    else (if Key(Translate(c, u, events[0].file)) != "" then 1 else 0) + KeyedCount(c, u, events[1..])
  }

  /** The events whose store call succeeds. */
  function SucceededCount(c: Config, u: Util, events: seq<OutputEvent>): (n: nat)
    decreases |events|
  {
    if events == [] then 0
    else
      (if Key(Translate(c, u, events[0].file)) != "" && events[0].storeOk then 1 else 0)
        + SucceededCount(c, u, events[1..])
  }
}
