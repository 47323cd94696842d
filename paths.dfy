/** The path translator `formatFile` and the shared ignore test of createApp.js. */
module Paths {

  type Path = string

  /** The library helpers createApp calls but whose bodies are not part of this
      model: `sanitize` and `match` from @slater/util, and Node's `path.join`.
      They are kept abstract: every property below holds for any choice of them. */
  datatype Util = Util(
    sanitize: Path -> Path,
    matchGlob: (Path, seq<string>) -> bool,
    join: (Path, Path) -> Path)

  /** `config.in`, `config.out` and the theme configuration's `ignore_files`. */
  datatype Config = Config(srcRoot: Path, outRoot: Path, ignoreFiles: seq<string>)

  /** What `formatFile` returns: the empty object `{}`, or the record naming the
      file's store key, where it comes from and where it goes. */
  datatype FileRecord = NoFile | File(filename: Path, src: Path, dest: Path)

  /** formatFile(filepath, src, dest). A path is falsy exactly when it is the
      empty string; the `src` argument is accepted and never used. */
  function FormatFile(u: Util, filepath: Path, src: Path, dest: Path): (r: FileRecord)
    ensures r.NoFile? <==> filepath == ""
    ensures r.File? ==> r.src == filepath
    ensures r.File? ==> r.filename == u.sanitize(filepath) && r.dest == u.join(dest, r.filename)
  {
    if filepath == "" then NoFile
    else
      var filename := u.sanitize(filepath);
      File(filename, filepath, u.join(dest, filename))
  }

  /** The source-root argument of formatFile has no influence on its result. */
  lemma FormatFileIgnoresSourceRoot(u: Util, filepath: Path, src1: Path, src2: Path, dest: Path)
    ensures FormatFile(u, filepath, src1, dest) == FormatFile(u, filepath, src2, dest)
  {
  }

  /** The record's `filename` as the sync helpers test it: `{}` has none, which
      reads as falsy, like an empty string. */
  function Key(r: FileRecord): (k: Path)
    ensures r.File? ==> k == r.filename
    ensures r.NoFile? ==> k == ""
    ensures k != "" ==> r.File? && k == r.filename
  {
    if r.File? then r.filename else ""
  }

  /** The translation every watcher handler applies: formatFile(file, config.in, config.out). */
  function Translate(c: Config, u: Util, file: Path): (r: FileRecord)
    ensures r.NoFile? <==> file == ""
    ensures r.File? ==> r.src == file && r.dest == u.join(c.outRoot, u.sanitize(file))
  {
    FormatFile(u, file, c.srcRoot, c.outRoot)
  }

  /** match(path, shopifyconfig.ignore_files): the one ignore test used by the
      bulk copy's filter and by every source-tree handler. */
  predicate Ignored(c: Config, u: Util, p: Path)
  {
    u.matchGlob(p, c.ignoreFiles)
  }
}
