/** Properties that relate several operations: the bulk copy and the source
    handlers agree, and a run of output events makes one store call per event. */
module Consistency {

  import opened Wrappers
  import opened Paths
  import opened Trees

  /** sanitize and path.join translate the source file p to the place where the
      bulk copy puts it. createApp relies on this without checking it. */
  predicate TranslatesLikeCopy(c: Config, u: Util, p: Path)
    requires IsPrefix(c.srcRoot, p)
  {
    p != "" && Translate(c, u, p).dest == Mirror(c, p)
  }

  lemma MirroredUpdate(c: Config, u: Util, src: Tree, p: Path, x: Bytes)
    requires UnderRoot(c.srcRoot, src) && IsPrefix(c.srcRoot, p)
    ensures Mirrored(c, u, src[p := x]) ==
              if !CopyAdmits(c, u, p) then Mirrored(c, u, src) else Mirrored(c, u, src)[Mirror(c, p) := x]
  {
    if CopyAdmits(c, u, p) {
      MirroredUpdateAdmitted(c, u, src, p, x);
    } else {
      MirroredUpdateSkipped(c, u, src, p, x);
    }
  }

  lemma MirroredUpdateAdmitted(c: Config, u: Util, src: Tree, p: Path, x: Bytes)
    requires UnderRoot(c.srcRoot, src) && IsPrefix(c.srcRoot, p) && CopyAdmits(c, u, p)
    ensures Mirrored(c, u, src[p := x]) == Mirrored(c, u, src)[Mirror(c, p) := x]
  {
    var lhs := Mirrored(c, u, src[p := x]);
    var rhs := Mirrored(c, u, src)[Mirror(c, p) := x];
    MirrorRoundTrips(c);
    assert forall q :: q in lhs <==> q in rhs;
  }

  lemma MirroredUpdateSkipped(c: Config, u: Util, src: Tree, p: Path, x: Bytes)
    requires UnderRoot(c.srcRoot, src) && IsPrefix(c.srcRoot, p) && !CopyAdmits(c, u, p)
    ensures Mirrored(c, u, src[p := x]) == Mirrored(c, u, src)
  {
    var lhs := Mirrored(c, u, src[p := x]);
    var rhs := Mirrored(c, u, src);
    MirrorRoundTrips(c);
    assert forall q :: q in lhs <==> q in rhs;
  }

  lemma MirroredRemove(c: Config, u: Util, src: Tree, p: Path)
    requires UnderRoot(c.srcRoot, src) && IsPrefix(c.srcRoot, p)
    ensures Mirrored(c, u, src - {p}) ==
              if !CopyAdmits(c, u, p) then Mirrored(c, u, src) else Mirrored(c, u, src) - {Mirror(c, p)}
  {
    if CopyAdmits(c, u, p) {
      MirroredRemoveAdmitted(c, u, src, p);
    } else {
      MirroredRemoveSkipped(c, u, src, p);
    }
  }

  lemma MirroredRemoveAdmitted(c: Config, u: Util, src: Tree, p: Path)
    requires UnderRoot(c.srcRoot, src) && IsPrefix(c.srcRoot, p) && CopyAdmits(c, u, p)
    ensures Mirrored(c, u, src - {p}) == Mirrored(c, u, src) - {Mirror(c, p)}
  {
    var lhs := Mirrored(c, u, src - {p});
    var rhs := Mirrored(c, u, src) - {Mirror(c, p)};
    MirrorRoundTrips(c);
    assert forall q :: q in lhs <==> q in rhs;
  }

  lemma MirroredRemoveSkipped(c: Config, u: Util, src: Tree, p: Path)
    requires UnderRoot(c.srcRoot, src) && IsPrefix(c.srcRoot, p) && !CopyAdmits(c, u, p)
    ensures Mirrored(c, u, src - {p}) == Mirrored(c, u, src)
  {
    var lhs := Mirrored(c, u, src - {p});
    var rhs := Mirrored(c, u, src);
    MirrorRoundTrips(c);
    assert forall q :: q in lhs <==> q in rhs;
  }

  /** A part of the source tree copies to a part of the output tree. */
  lemma MirroredMonotone(c: Config, u: Util, part: Tree, whole: Tree)
    requires UnderRoot(c.srcRoot, whole) && part.Items <= whole.Items
    ensures UnderRoot(c.srcRoot, part)
    ensures Mirrored(c, u, part).Items <= Mirrored(c, u, whole).Items
  {
    assert forall p :: p in part ==> (p, part[p]) in whole.Items;
  }

  /** One step of the bulk copy: the copied part of the source tree grows by p. */
  lemma CopyStep(c: Config, u: Util, source: Tree, todo: set<Path>, p: Path)
    requires UnderRoot(c.srcRoot, source) && p in todo && todo <= source.Keys
    ensures UnderRoot(c.srcRoot, source - todo)
    ensures Mirrored(c, u, source - (todo - {p})) ==
              if !CopyAdmits(c, u, p) then Mirrored(c, u, source - todo)
              else Mirrored(c, u, source - todo)[Mirror(c, p) := source[p]]
  {
    var done := source - todo;
    assert source - (todo - {p}) == done[p := source[p]];
    MirroredUpdate(c, u, done, p, source[p]);
  }

  /** Per-file state machine: starting from the tree a copy left, an add or
      change of a source file keeps the output tree equal to the copy of the
      updated source tree (an ignored file never enters it), provided the file
      translates like the copy and no directory above it is ignored. */
  lemma SourceWriteKeepsCopy(c: Config, u: Util, src: Tree, p: Path, x: Bytes)
    requires UnderRoot(c.srcRoot, src) && IsPrefix(c.srcRoot, p)
    requires TranslatesLikeCopy(c, u, p) && AncestorsAdmitted(c, u, p)
    ensures SourceWritten(c, u, Mirrored(c, u, src), p, Some(x)) == Mirrored(c, u, src[p := x])
  {
    MirroredUpdate(c, u, src, p, x);
  }

  /** ... and a removal of a source file keeps it equal to the copy of the
      source tree without that file. */
  lemma SourceRemoveKeepsCopy(c: Config, u: Util, src: Tree, p: Path)
    requires UnderRoot(c.srcRoot, src) && IsPrefix(c.srcRoot, p)
    requires TranslatesLikeCopy(c, u, p) && AncestorsAdmitted(c, u, p)
    ensures SourceRemoved(c, u, Mirrored(c, u, src), p, true) == Mirrored(c, u, src - {p})
  {
    MirroredRemove(c, u, src, p);
  }

  /** The bulk copy and the add handler test a file's own path the same way:
      a file the copy writes is also written by an add event, and when no
      directory above the file is ignored the two agree exactly. */
  lemma SameIgnoreSemantics(c: Config, u: Util, src: Tree, p: Path)
    requires UnderRoot(c.srcRoot, src) && p in src && TranslatesLikeCopy(c, u, p)
    ensures Mirror(c, p) in Mirrored(c, u, src) <==> CopyAdmits(c, u, p)
    ensures Mirror(c, p) in Mirrored(c, u, src) ==> Mirror(c, p) in SourceWritten(c, u, map[], p, Some(src[p]))
    ensures AncestorsAdmitted(c, u, p) ==>
              (Mirror(c, p) in Mirrored(c, u, src) <==> Mirror(c, p) in SourceWritten(c, u, map[], p, Some(src[p])))
  {
  }

  /** Where the two part: a file that is not ignored itself but lies in an
      ignored directory is skipped by the copy and still written by an add event. */
  lemma IgnoredDirectoryDivergence(c: Config, u: Util, src: Tree, p: Path)
    requires UnderRoot(c.srcRoot, src) && p in src && TranslatesLikeCopy(c, u, p)
    requires !Ignored(c, u, p) && !AncestorsAdmitted(c, u, p)
    ensures Mirror(c, p) !in Mirrored(c, u, src)
    ensures Mirror(c, p) in SourceWritten(c, u, map[], p, Some(src[p]))
  {
  }

  lemma {:induction false} StoreCallCountAppend(a: seq<Effect>, b: seq<Effect>)
    ensures StoreCallCount(a + b) == StoreCallCount(a) + StoreCallCount(b)
    ensures RefreshCount(a + b) == RefreshCount(a) + RefreshCount(b)
    decreases |a|
  {
    if a == [] {
      assert a + b == b;
    } else {
      assert (a + b)[0] == a[0];
      assert (a + b)[1..] == a[1..] + b;
      StoreCallCountAppend(a[1..], b);
    }
  }

  /** Processing one batch of events and then another leaves the two logs one
      after the other: what an event causes does not depend on whether earlier
      store calls failed. */
  lemma {:induction false} ReplayAppend(c: Config, u: Util, a: seq<OutputEvent>, b: seq<OutputEvent>)
    ensures Replay(c, u, a + b) == Replay(c, u, a) + Replay(c, u, b)
    decreases |a|
  {
    if a == [] {
      assert a + b == b;
    } else {
      assert (a + b)[0] == a[0];
      assert (a + b)[1..] == a[1..] + b;
      ReplayAppend(c, u, a[1..], b);
    }
  }

  /** Over any run of output events: one store call per event with a non-falsy
      filename, and one refresh per store call that succeeded. */
  lemma {:induction false} ReplayCounts(c: Config, u: Util, events: seq<OutputEvent>)
    ensures StoreCallCount(Replay(c, u, events)) == KeyedCount(c, u, events)
    ensures RefreshCount(Replay(c, u, events)) == SucceededCount(c, u, events)
    decreases |events|
  {
    if events != [] {
      var e := events[0];
      ReplayCounts(c, u, events[1..]);
      StoreCallCountAppend(OutputEffects(c, u, e.kind, e.file, e.storeOk), Replay(c, u, events[1..]));
    }
  }
}
