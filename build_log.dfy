/** The build report `logAssets` folds out of the bundler's stats. */
module BuildLog {

  import opened Wrappers
  import opened Decimal

  /** An asset's sizes in kilobytes; `gzip` may be missing. */
  datatype Size = Size(raw: nat, gzip: Option<nat>)
  datatype Asset = Asset(filename: string, size: Size)
  datatype Stats = Stats(duration: nat, assets: seq<Asset>)

  /** `asset.size.gzip` as a JavaScript condition: a missing gzip size and a
      gzip size of 0 are both falsy. */
  predicate GzipTruthy(s: Size)
    ensures GzipTruthy(s) <==> s.gzip != None && s.gzip != Some(0)
  {
    s.gzip.Some? && s.gzip.value != 0
  }

  /** The size an entry ought to display, and whether it is the gzipped one. */
  datatype Reading = Reading(kb: nat, gzipped: bool)

  function Shown(s: Size): (r: Reading)
  {
    if GzipTruthy(s) then Reading(s.gzip.value, true) else Reading(s.raw, false)
  }

  const GzipSuffix: string := "kb gzipped"
  const RawSuffix: string := "kb"

  /** The size text of one entry. */
  function SizeText(s: Size): (t: string)
    ensures |t| > 2 && t[|t| - 1] != '\n'
  {
    if GzipTruthy(s) then NatText(s.gzip.value) + GzipSuffix else NatText(s.raw) + RawSuffix
  }

  /** Reads a size text back: digits followed by one of the two suffixes. */
  function ReadSizeText(t: string): (r: Option<Reading>)
  {
    if |t| > |GzipSuffix| && t[|t| - |GzipSuffix|..] == GzipSuffix && AllDigits(t[..|t| - |GzipSuffix|]) then
      Some(Reading(ParseNat(t[..|t| - |GzipSuffix|]), true))
    else if |t| > |RawSuffix| && t[|t| - |RawSuffix|..] == RawSuffix && AllDigits(t[..|t| - |RawSuffix|]) then
      Some(Reading(ParseNat(t[..|t| - |RawSuffix|]), false))
    else
      None
  }

  /** The size text names the gzip size exactly when gzip is truthy, and the raw
      size otherwise (so a gzip size of 0 falls back to the raw size). */
  lemma SizeTextShowsPreferredSize(s: Size)
    ensures ReadSizeText(SizeText(s)) == Some(Shown(s))
  {
    var t := SizeText(s);
    if GzipTruthy(s) {
      var digits := NatText(s.gzip.value);
      assert t[..|t| - |GzipSuffix|] == digits;
      assert t[|t| - |GzipSuffix|..] == GzipSuffix;
      ParseNatText(s.gzip.value);
    } else {
      var digits := NatText(s.raw);
      assert t[|t| - 1] == 'b';
      if |t| > |GzipSuffix| {
        assert t[|t| - |GzipSuffix|..][|GzipSuffix| - 1] == 'b';
        assert t[|t| - |GzipSuffix|..] != GzipSuffix;
      }
      assert t[..|t| - |RawSuffix|] == digits;
      assert t[|t| - |RawSuffix|..] == RawSuffix;
      ParseNatText(s.raw);
    }
  }

  /** One line of the report, before the separator. */
  function Entry(a: Asset): (e: string)
    ensures |e| > 0 && e[|e| - 1] != '\n'
  {
    "  > " + a.filename + " " + SizeText(a.size)
  }

  /** The `reduce` callback of logAssets applied from index i on, with
      accumulator acc: every entry but the last is followed by a newline. */
  function Fold(assets: seq<Asset>, i: nat, acc: string): (r: string)
    requires i <= |assets|
    ensures |acc| <= |r| && r[..|acc|] == acc
    decreases |assets| - i
  {
    if i == |assets| then acc
    else
      var next := acc + Entry(assets[i]) + (if i != |assets| - 1 then "\n" else "");
      var r := Fold(assets, i + 1, next);
      assert r[..|acc|] == r[..|next|][..|acc|] == next[..|acc|] == acc;
      r
  }

  /** Reference definition of the entry list: the entries, in input order,
      joined with newlines. */
  function Entries(assets: seq<Asset>): (es: seq<string>)
    ensures |es| == |assets|
    ensures forall i :: 0 <= i < |assets| ==> es[i] == Entry(assets[i])
  {
    seq(|assets|, i requires 0 <= i < |assets| => Entry(assets[i]))
  }

  function JoinLines(lines: seq<string>): (j: string)
    decreases |lines|
  {
    if |lines| == 0 then ""
    else if |lines| == 1 then lines[0]
    else lines[0] + "\n" + JoinLines(lines[1..])
  }

  /** Cuts a string at every newline. */
  function SplitLines(s: string): (r: seq<string>)
    ensures |r| >= 1
    decreases |s|
  {
    if s == "" then [""]
    else
      var rest := SplitLines(s[1..]);
      if s[0] == '\n' then [""] + rest else [[s[0]] + rest[0]] + rest[1..]
  }

  lemma JoinLinesCons(e: string, rest: seq<string>)
    ensures JoinLines([e] + rest) == if rest == [] then e else e + "\n" + JoinLines(rest)
  {
    assert ([e] + rest)[1..] == rest;
  }

  /** One step of the fold: the entry of asset i, then the separator. */
  lemma FoldStep(assets: seq<Asset>, i: nat, acc: string)
    requires i < |assets|
    ensures Fold(assets, i, acc) ==
              Fold(assets, i + 1, acc + Entry(assets[i]) + (if i != |assets| - 1 then "\n" else ""))
  {
  }

  /** The entries from index i on are entry i, its separator, then the rest. */
  lemma EntriesFrom(assets: seq<Asset>, i: nat)
    requires i < |assets|
    ensures JoinLines(Entries(assets)[i..]) ==
              Entry(assets[i]) + (if i != |assets| - 1 then "\n" else "") + JoinLines(Entries(assets)[i + 1..])
  {
    var es := Entries(assets);
    var rest := es[i + 1..];
    assert es[i..] == [Entry(assets[i])] + rest;
    JoinLinesCons(Entry(assets[i]), rest);
    assert rest == [] <==> i == |assets| - 1;
  }

  lemma {:induction false} FoldIsJoin(assets: seq<Asset>, i: nat, acc: string)
    requires i <= |assets|
    ensures Fold(assets, i, acc) == acc + JoinLines(Entries(assets)[i..])
    decreases |assets| - i
  {
    if i < |assets| {
      var e := Entry(assets[i]);
      var sep := if i != |assets| - 1 then "\n" else "";
      var tail := JoinLines(Entries(assets)[i + 1..]);
      FoldStep(assets, i, acc);
      FoldIsJoin(assets, i + 1, acc + e + sep);
      EntriesFrom(assets, i);
      assert acc + e + sep + tail == acc + (e + sep + tail);
    } else {
      assert Entries(assets)[i..] == [];
    }
  }

  /** The entry list logAssets builds: one entry per asset in order, separated
      by newlines, no newline after the last, and empty when there are none. */
  function AssetList(assets: seq<Asset>): (r: string)
    ensures r == JoinLines(Entries(assets))
    ensures |assets| == 0 <==> r == ""
    ensures |assets| > 0 ==> r[|r| - 1] != '\n'
  {
    var r := Fold(assets, 0, "");
    assert r == JoinLines(Entries(assets)) by {
      FoldIsJoin(assets, 0, "");
      assert Entries(assets)[0..] == Entries(assets);
    }
    EntriesEnd(assets);
    r
  }

  lemma EntriesEnd(assets: seq<Asset>)
    ensures var j := JoinLines(Entries(assets)); (|assets| == 0 <==> j == "") && (|assets| > 0 ==> j[|j| - 1] != '\n')
  {
    JoinLinesEnd(Entries(assets));
  }

  lemma {:induction false} JoinLinesEnd(lines: seq<string>)
    requires forall i :: 0 <= i < |lines| ==> |lines[i]| > 0 && lines[i][|lines[i]| - 1] != '\n'
    ensures var j := JoinLines(lines); (|lines| == 0 <==> j == "") && (|lines| > 0 ==> j[|j| - 1] != '\n')
    decreases |lines|
  {
    if |lines| > 1 {
      JoinLinesEnd(lines[1..]);
    }
  }

  /** The `built` message: ` in {duration}ms`, a newline, then the entry list. */
  function BuiltMessage(stats: Stats): (m: string)
    ensures m == " in " + NatText(stats.duration) + "ms\n" + JoinLines(Entries(stats.assets))
  {
    " in " + NatText(stats.duration) + "ms\n" + AssetList(stats.assets)
  }

  lemma {:induction false} SplitLinesPrefix(a: string, t: string)
    requires forall i :: 0 <= i < |a| ==> a[i] != '\n'
    ensures SplitLines(a + t) == [a + SplitLines(t)[0]] + SplitLines(t)[1..]
    decreases |a|
  {
    if a != "" {
      assert (a + t)[0] == a[0];
      assert (a + t)[1..] == a[1..] + t;
      SplitLinesPrefix(a[1..], t);
      assert [a[0]] + (a[1..] + SplitLines(t)[0]) == a + SplitLines(t)[0];
    } else {
      var r := SplitLines(t);
      assert a + t == t;
      assert a + r[0] == r[0];
      assert r == [r[0]] + r[1..];
    }
  }

  lemma {:induction false} SplitJoin(lines: seq<string>)
    requires |lines| >= 1
    requires forall i, k :: 0 <= i < |lines| && 0 <= k < |lines[i]| ==> lines[i][k] != '\n'
    ensures SplitLines(JoinLines(lines)) == lines
    decreases |lines|
  {
    var a := lines[0];
    if |lines| == 1 {
      SplitLinesPrefix(a, "");
      assert a + "" == a;
    } else {
      var rest := JoinLines(lines[1..]);
      SplitJoin(lines[1..]);
      assert a + "\n" + rest == a + ("\n" + rest);
      SplitLinesPrefix(a, "\n" + rest);
      assert ("\n" + rest)[1..] == rest;
      assert SplitLines("\n" + rest) == [""] + lines[1..];
      assert a + "" == a;
      assert lines == [a] + lines[1..];
    }
  }

  /** When no filename holds a newline, the entry list cuts back at its newlines
      into exactly one entry per asset, in input order. */
  lemma AssetListLines(assets: seq<Asset>)
    requires |assets| >= 1
    requires forall i, k :: 0 <= i < |assets| && 0 <= k < |assets[i].filename| ==> assets[i].filename[k] != '\n'
    ensures SplitLines(AssetList(assets)) == Entries(assets)
  {
    var es := Entries(assets);
    forall i, k | 0 <= i < |es| && 0 <= k < |es[i]|
      ensures es[i][k] != '\n'
    {
      var a := assets[i];
      var t := SizeText(a.size);
      assert es[i] == "  > " + a.filename + " " + t;
      if k >= 4 + |a.filename| + 1 {
        var j := k - (4 + |a.filename| + 1);
        assert es[i][k] == t[j];
        SizeTextNoNewline(a.size, j);
      } else if k >= 4 && k < 4 + |a.filename| {
        assert es[i][k] == a.filename[k - 4];
      }
    }
    SplitJoin(es);
  }

  lemma SizeTextNoNewline(s: Size, j: nat)
    requires j < |SizeText(s)|
    ensures SizeText(s)[j] != '\n'
  {
    var t := SizeText(s);
    var n := if GzipTruthy(s) then s.gzip.value else s.raw;
    var d := NatText(n);
    if j < |d| {
      assert t[j] == d[j];
    }
  }
}
