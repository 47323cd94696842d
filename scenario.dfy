/** A small project: config.in = /proj/src, config.out = /proj/build,
    ignore_files = ['*.tmp'], with simple stand-ins for sanitize, match and
    path.join. */
module Scenario {

  import opened Wrappers
  import opened Paths
  import opened Trees
  import opened Orchestrator
  import opened Consistency
  import opened BuildLog
  import Decimal

  predicate EndsWith(s: string, suffix: string)
  {
    |suffix| <= |s| && s[|s| - |suffix|..] == suffix
  }

  /** A stand-in for sanitize: the path below either root. */
  function StripRoots(p: Path): (q: Path)
  {
    if IsPrefix("/proj/src/", p) then p[10..]
    else if IsPrefix("/proj/build/", p) then p[12..]
    else p
  }

  /** A stand-in for match that handles patterns of the form `*suffix`. */
  predicate MatchStar(p: Path, globs: seq<string>)
  {
    exists i :: 0 <= i < |globs| && |globs[i]| > 0 && globs[i][0] == '*' && EndsWith(p, globs[i][1..])
  }

  function ExampleUtil(): (u: Util)
  {
    Util(StripRoots, MatchStar, (a: Path, b: Path) => a + "/" + b)
  }

  lemma ExampleTranslations()
    ensures !MatchStar("/proj/src/a.liquid", ["*.tmp"]) && MatchStar("/proj/src/b.tmp", ["*.tmp"])
    ensures StripRoots("/proj/src/a.liquid") == "a.liquid" && StripRoots("/proj/build/a.liquid") == "a.liquid"
  {
    var a, b := "/proj/src/a.liquid", "/proj/src/b.tmp";
    assert "*.tmp"[1..] == ".tmp";
    assert a[|a| - 4..] != ".tmp" by { assert a[|a| - 1] == 'd'; }
    assert b[|b| - 4..] == ".tmp";
    var globs := ["*.tmp"];
    assert |globs[0]| > 0 && globs[0][0] == '*' && EndsWith(b, globs[0][1..]);
    assert IsPrefix("/proj/src/", a) && a[10..] == "a.liquid";
    var o := "/proj/build/a.liquid";
    assert !IsPrefix("/proj/src/", o) by { assert o[7] != "/proj/src/"[7]; }
    assert IsPrefix("/proj/build/", o) && o[12..] == "a.liquid";
  }

  const Example: Config := Config("/proj/src", "/proj/build", ["*.tmp"])

  /** What the handlers see in the example, for any Util with its stand-ins. */
  lemma ExampleEffects(u: Util)
    requires u.sanitize == StripRoots && u.matchGlob == MatchStar && u.join == ExampleUtil().join
    ensures !Ignored(Example, u, "/proj/src/a.liquid") && Ignored(Example, u, "/proj/src/b.tmp")
    ensures Translate(Example, u, "/proj/src/a.liquid").dest == "/proj/build/a.liquid"
    ensures OutputEffects(Example, u, Add, "/proj/build/a.liquid", true) == [Sync("/proj/build/a.liquid"), Refresh]
    ensures OutputEffects(Example, u, Unlink, "/proj/build/a.liquid", false) == [Unsync("/proj/build/a.liquid")]
  {
    ExampleTranslations();
    assert "/proj/build" + "/" + "a.liquid" == "/proj/build/a.liquid";
  }

  /** Adding a.liquid copies it and its output add syncs it; adding b.tmp
      does nothing. */
  method AddAndSync(app: App, x: Bytes, y: Bytes)
    requires app.cfg == Example && app.util.sanitize == StripRoots && app.util.matchGlob == MatchStar &&
             app.util.join == ExampleUtil().join
    requires app.out == map[] && app.effects == []
    modifies app
    ensures app.out == map["/proj/build/a.liquid" := x]
    ensures app.effects == [Sync("/proj/build/a.liquid"), Refresh]
  {
    ExampleEffects(app.util);
    app.OnSourceAdd("/proj/src/a.liquid", Some(x));
    assert app.out == map["/proj/build/a.liquid" := x];
    app.OnOutputAdd("/proj/build/a.liquid", true);
    app.OnSourceAdd("/proj/src/b.tmp", Some(y));
  }

  /** Removing a.liquid deletes it and its output unlink unsyncs it (here the
      unsync fails, so no refresh follows). */
  method RemoveAndUnsync(app: App, x: Bytes)
    requires app.cfg == Example && app.util.sanitize == StripRoots && app.util.matchGlob == MatchStar &&
             app.util.join == ExampleUtil().join
    requires app.out == map["/proj/build/a.liquid" := x]
    modifies app
    ensures app.out == map[]
    ensures app.effects == old(app.effects) + [Unsync("/proj/build/a.liquid")]
  {
    ExampleEffects(app.util);
    app.OnSourceUnlink("/proj/src/a.liquid", true);
    app.OnOutputUnlink("/proj/build/a.liquid", false);
  }

  /** The two phases above, on a fresh app over an empty output tree. */
  method AddSyncRemoveUnsync(x: Bytes, y: Bytes) returns (out: Tree, effects: seq<Effect>)
    ensures out == map[]
    ensures effects == [Sync("/proj/build/a.liquid"), Refresh, Unsync("/proj/build/a.liquid")]
  {
    var app := new App(Example, ExampleUtil(), map[]);
    AddAndSync(app, x, y);
    RemoveAndUnsync(app, x);
    out, effects := app.out, app.effects;
  }

  /** Two output events handed to the app one after the other leave the log
      Replay describes for the pair, whatever the store answered the first. */
  method TwoOutputEvents(app: App, e1: OutputEvent, e2: OutputEvent)
    modifies app`effects
    ensures app.effects == old(app.effects) + Replay(app.cfg, app.util, [e1, e2])
  {
    assert Replay(app.cfg, app.util, [e1, e2]) == Replay(app.cfg, app.util, [e1]) + Replay(app.cfg, app.util, [e2]) by {
      ReplayAppend(app.cfg, app.util, [e1], [e2]);
      assert [e1] + [e2] == [e1, e2];
    }
    app.OnOutputEvent(e1);
    app.OnOutputEvent(e2);
  }

  lemma DivergentFileTranslates()
    ensures IsPrefix(Example.srcRoot, "/proj/src/x.tmp/a.liquid")
    ensures TranslatesLikeCopy(Example, ExampleUtil(), "/proj/src/x.tmp/a.liquid")
  {
    var p := "/proj/src/x.tmp/a.liquid";
    assert IsPrefix("/proj/src", p);
    assert IsPrefix("/proj/src/", p) && p[10..] == "x.tmp/a.liquid";
    assert Mirror(Example, p) == "/proj/build" + "/x.tmp/a.liquid";
    assert "/proj/build" + "/" + "x.tmp/a.liquid" == "/proj/build" + "/x.tmp/a.liquid";
  }

  lemma DivergentFileNotIgnored()
    ensures !Ignored(Example, ExampleUtil(), "/proj/src/x.tmp/a.liquid")
  {
    var p := "/proj/src/x.tmp/a.liquid";
    assert "*.tmp"[1..] == ".tmp";
    assert p[|p| - 4..] != ".tmp" by { assert p[|p| - 1] == 'd'; }
  }

  lemma DivergentFileInIgnoredDirectory()
    ensures IsPrefix(Example.srcRoot, "/proj/src/x.tmp/a.liquid")
    ensures !AncestorsAdmitted(Example, ExampleUtil(), "/proj/src/x.tmp/a.liquid")
  {
    var p := "/proj/src/x.tmp/a.liquid";
    assert IsPrefix("/proj/src", p);
    var dir := p[..15];
    assert dir == "/proj/src/x.tmp" && p[15] == '/';
    assert dir[|dir| - 4..] == ".tmp";
    var globs := ["*.tmp"];
    assert |globs[0]| > 0 && globs[0][0] == '*' && EndsWith(dir, globs[0][1..]);
    assert Ignored(Example, ExampleUtil(), dir);
    assert IsCopyAncestor(Example, p, 15);
  }

  /** A file in the ignored directory x.tmp is skipped by the copy and still
      written by an add event. */
  lemma ExampleDirectoryDivergence(x: Bytes)
    ensures var p := "/proj/src/x.tmp/a.liquid";
            Mirror(Example, p) !in Mirrored(Example, ExampleUtil(), map[p := x]) &&
            Mirror(Example, p) in SourceWritten(Example, ExampleUtil(), map[], p, Some(x))
  {
    var p := "/proj/src/x.tmp/a.liquid";
    DivergentFileTranslates();
    DivergentFileNotIgnored();
    DivergentFileInIgnoredDirectory();
    IgnoredDirectoryDivergence(Example, ExampleUtil(), map[p := x], p);
  }

  lemma SmallNumbers()
    ensures Decimal.NatText(12) == "12" && Decimal.NatText(40) == "40" && Decimal.NatText(120) == "120"
  {
    assert Decimal.DigitChar(0) == '0' && Decimal.DigitChar(1) == '1';
    assert Decimal.DigitChar(2) == '2' && Decimal.DigitChar(4) == '4';
    assert Decimal.NatText(1) == "1" && Decimal.NatText(4) == "4";
  }

  /** The report for a single asset: duration line, then its one entry. */
  lemma OneAssetReport(a: Asset, duration: nat)
    ensures BuiltMessage(Stats(duration, [a])) ==
              " in " + Decimal.NatText(duration) + "ms\n" + "  > " + a.filename + " " + SizeText(a.size)
  {
    assert Entries([a]) == [Entry(a)];
  }

  /** The build report for one asset shows its raw size when it has no gzip size, */
  lemma RawSizeReport()
    ensures BuiltMessage(Stats(120, [Asset("app.js", Size(40, None))])) == " in 120ms\n  > app.js 40kb"
  {
    RawSizeText();
    OneAssetReport(Asset("app.js", Size(40, None)), 120);
  }

  /** prefers the gzip size when there is one, */
  lemma GzipSizeReport()
    ensures BuiltMessage(Stats(120, [Asset("app.js", Size(40, Some(12)))])) == " in 120ms\n  > app.js " + "12kb gzipped"
  {
    GzipSizeText();
    OneAssetReport(Asset("app.js", Size(40, Some(12))), 120);
  }

  lemma RawSizeText()
    ensures Decimal.NatText(120) == "120"
    ensures SizeText(Size(40, None)) == "40kb" && SizeText(Size(40, Some(0))) == "40kb"
  {
    SmallNumbers();
  }

  lemma GzipSizeText()
    ensures Decimal.NatText(120) == "120"
    ensures SizeText(Size(40, Some(12))) == "12kb gzipped"
  {
    SmallNumbers();
  }

  /** and falls back to the raw size when the gzip size is 0. */
  lemma ZeroGzipSizeReport()
    ensures BuiltMessage(Stats(120, [Asset("app.js", Size(40, Some(0)))])) == " in 120ms\n  > app.js 40kb"
  {
    RawSizeText();
    OneAssetReport(Asset("app.js", Size(40, Some(0))), 120);
  }
}
