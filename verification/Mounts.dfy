/** Container mounts of the Slurm commands (slurm_common.py, slurm_submit.py). */
module Mounts {
  import opened Text
  import opened OrderedDict

  datatype MountSpec = MountSpec(source: string, dest: string, mode: string) {
    /** The attrs validator on `mode`. */
    predicate Valid() { mode == "rw" || mode == "ro" }

    function ToStr(): string { source + ":" + dest + ":" + mode }
  }

  datatype MountError = BadPartCount(text: string) | BadMode(mode: string)

  function FromStr(text: string): (r: Result<MountSpec, MountError>)
    ensures r.Ok? ==> r.value.Valid() && ':' !in r.value.source && ':' !in r.value.dest
  {
    var parts := Split(text, ':');
    if |parts| < 2 || |parts| > 3 then Err(BadPartCount(text))
    else
      var m := MountSpec(parts[0], parts[1], if |parts| == 2 then "rw" else parts[2]);
      if m.Valid() then Ok(m) else Err(BadMode(m.mode))
  }

  /** A mount survives being written out and parsed again exactly when neither path holds a colon; otherwise
      its text is rejected, never read as another mount. */
  lemma MountRoundTrip(m: MountSpec)
    requires m.Valid()
    ensures FromStr(m.ToStr()) == if ':' !in m.source && ':' !in m.dest then Ok(m) else Err(BadPartCount(m.ToStr()))
  {
    assert m.ToStr() == m.source + [':'] + (m.dest + [':'] + m.mode);
    SplitConcat(m.source, ':', m.dest + [':'] + m.mode);
    SplitConcat(m.dest, ':', m.mode);
    SplitAtom(m.source, ':');
    SplitAtom(m.dest, ':');
    SplitAtom(m.mode, ':');
  }

  lemma {:induction false} SplitCount(s: string, sep: char)
    ensures |Split(s, sep)| == multiset(s)[sep] + 1
  {
    if s != "" {
      SplitCount(s[1..], sep);
      assert s == [s[0]] + s[1..];
      assert multiset(s) == multiset([s[0]]) + multiset(s[1..]);
    }
  }

  /** A text with one colon is a mount that can be written; one with two names its mode, "rw" or "ro"; any other number
      of colons is an error. */
  lemma FromStrSays(source: string, dest: string, mode: string)
    requires ':' !in source && ':' !in dest && ':' !in mode
    ensures FromStr(source + [':'] + dest) == Ok(MountSpec(source, dest, "rw"))
    ensures FromStr(source + [':'] + dest + [':'] + mode)
         == if mode == "rw" || mode == "ro" then Ok(MountSpec(source, dest, mode)) else Err(BadMode(mode))
    ensures forall text: string :: multiset(text)[':'] != 1 && multiset(text)[':'] != 2 ==>
              FromStr(text) == Err(BadPartCount(text))
  {
    SplitMount(source, dest, mode);
    forall text: string | multiset(text)[':'] != 1 && multiset(text)[':'] != 2
      ensures FromStr(text) == Err(BadPartCount(text))
    {
      SplitCount(text, ':');
    }
  }

  lemma SplitMount(source: string, dest: string, mode: string)
    requires ':' !in source && ':' !in dest && ':' !in mode
    ensures Split(source + [':'] + dest, ':') == [source, dest]
    ensures Split(source + [':'] + dest + [':'] + mode, ':') == [source, dest, mode]
  {
    SplitConcat(source, ':', dest);
    SplitConcat(source + [':'] + dest, ':', mode);
    SplitAtom(source, ':');
    SplitAtom(dest, ':');
    SplitAtom(mode, ':');
  }

  function ByDest(mounts: seq<MountSpec>): (r: Items<MountSpec>)
    ensures |r| == |mounts|
    ensures forall i :: 0 <= i < |r| ==> r[i] == Entry(mounts[i].dest, mounts[i])
  {
    seq(|mounts|, i requires 0 <= i < |mounts| => Entry(mounts[i].dest, mounts[i]))
  }

  function Values(d: Items<MountSpec>): (r: seq<MountSpec>)
    ensures |r| == |d|
    ensures forall i :: 0 <= i < |r| ==> r[i] == d[i].value
  {
    seq(|d|, i requires 0 <= i < |d| => d[i].value)
  }

  /** One mount per destination: the last one given, at the position of the first. */
  function Merge(mounts: seq<MountSpec>): seq<MountSpec> {
    Values(FromItems(ByDest(mounts)))
  }

  method MergeMountSpecsByDestination(mounts: seq<MountSpec>) returns (result: seq<MountSpec>)
    ensures result == Merge(mounts)
    ensures IsLastWinsFirstPosition(ByDest(mounts), ByDest(result))
  {
    var merged: Items<MountSpec> := [];
    for i := 0 to |mounts|
      invariant merged == FromItems(ByDest(mounts)[..i])
      invariant forall j :: 0 <= j < |merged| ==> merged[j].key == merged[j].value.dest
    {
      assert ByDest(mounts)[..i + 1][..i] == ByDest(mounts)[..i];
      merged := Put(merged, Entry(mounts[i].dest, mounts[i]));
    }
    assert ByDest(mounts)[..|mounts|] == ByDest(mounts);
    result := Values(merged);
    FromItemsSpec(ByDest(mounts));
    assert ByDest(result) == merged;
  }

  lemma {:induction false} KeysAreDests(items: Items<MountSpec>)
    requires forall j :: 0 <= j < |items| ==> items[j].key == items[j].value.dest
    ensures forall j :: 0 <= j < |FromItems(items)| ==> FromItems(items)[j].key == FromItems(items)[j].value.dest
  {
    if items != [] {
      var n := |items| - 1;
      KeysAreDests(items[..n]);
      var d := FromItems(items[..n]);
      assert FromItems(items) == Put(d, items[n]);
    }
  }

  lemma MergeEntries(mounts: seq<MountSpec>)
    ensures ByDest(Merge(mounts)) == FromItems(ByDest(mounts))
    ensures DistinctKeys(ByDest(Merge(mounts)))
  {
    KeysAreDests(ByDest(mounts));
    FromItemsSpec(ByDest(mounts));
  }

  lemma MergeIdempotent(a: seq<MountSpec>)
    ensures Merge(Merge(a)) == Merge(a)
  {
    MergeEntries(a);
    RebuildIsIdentity(ByDest(Merge(a)));
  }

  /** Merging an already merged list with more mounts is one merge of everything, so the merges that the
      submit command nests cannot be told from a single one. */
  lemma NestedMergeIsOneMerge(a: seq<MountSpec>, b: seq<MountSpec>)
    ensures Merge(Merge(a) + b) == Merge(a + b)
  {
    MergeEntries(a);
    RebuildIsIdentity(ByDest(Merge(a)));
    assert ByDest(Merge(a) + b) == ByDest(Merge(a)) + ByDest(b);
    assert ByDest(a + b) == ByDest(a) + ByDest(b);
    PutAllAppend([], ByDest(Merge(a)), ByDest(b));
    PutAllAppend([], ByDest(a), ByDest(b));
  }

  /** `_mount_specs_from_strings`: the first bad text decides the error. */
  function ParseMounts(texts: seq<string>): (r: Result<seq<MountSpec>, MountError>) {
    if texts == [] then Ok([])
    else match FromStr(texts[0])
      case Err(e) => Err(e)
      case Ok(m) => match ParseMounts(texts[1..])
        case Err(e) => Err(e)
        case Ok(ms) => Ok([m] + ms)
  }

  /** Either every text is a mount, or the first one that is none decides the error. */
  lemma {:induction false} ParseMountsSays(texts: seq<string>)
    ensures
      match ParseMounts(texts)
      case Ok(ms) => |ms| == |texts| && forall k :: 0 <= k < |texts| ==> FromStr(texts[k]) == Ok(ms[k])
      case Err(e) =>
        exists k :: 0 <= k < |texts| && FromStr(texts[k]) == Err(e) && forall j :: 0 <= j < k ==> FromStr(texts[j]).Ok?
  {
    if texts != [] {
      var rest := texts[1..];
      ParseMountsSays(rest);
      assert forall k :: 0 < k < |texts| ==> texts[k] == rest[k - 1];
      if FromStr(texts[0]).Ok? && ParseMounts(rest).Err? {
        var e := ParseMounts(rest).error;
        var k :| 0 <= k < |rest| && FromStr(rest[k]) == Err(e) && forall j :: 0 <= j < k ==> FromStr(rest[j]).Ok?;
        assert FromStr(texts[k + 1]) == Err(e);
      }
    }
  }

  /** The comma-separated form of `_parse_mount_specs`: blank entries are skipped. */
  function NonBlank(parts: seq<string>): seq<string> {
    if parts == [] then []
    else if Strip(parts[0]) == "" then NonBlank(parts[1..])
    else [Strip(parts[0])] + NonBlank(parts[1..])
  }

  /** The entries of a list, stripped and in order, without those that are blank. */
  lemma {:induction false} NonBlankSnoc(parts: seq<string>, p: string)
    ensures NonBlank([]) == [] && NonBlank(parts + [p]) == NonBlank(parts) + if |Strip(p)| == 0 then [] else [Strip(p)]
  {
    if parts == [] {
      assert parts + [p] == [p] && [p][1..] == [];
    } else {
      assert (parts + [p])[0] == parts[0] && (parts + [p])[1..] == parts[1..] + [p];
      NonBlankSnoc(parts[1..], p);
    }
  }

  function ParseMountSpecs(raw: Option<string>): Result<seq<MountSpec>, MountError> {
    match raw
    case None => Ok([])
    case Some(text) => ParseMounts(MountTexts(text))
  }

  /** The texts between commas, stripped, without blank ones. */
  function MountTexts(text: string): seq<string> {
    NonBlank(Split(text, ','))
  }

  lemma {:induction false} NonBlankAppend(a: seq<string>, b: seq<string>)
    ensures NonBlank(a + b) == NonBlank(a) + NonBlank(b)
  {
    if a == [] {
      assert a + b == b;
    } else {
      assert (a + b)[0] == a[0] && (a + b)[1..] == a[1..] + b;
      NonBlankAppend(a[1..], b);
    }
  }

  /** Commas separate; a text without one is what it is between white space, or nothing if it is blank. */
  lemma MountTextsSay(a: string, b: string)
    ensures MountTexts(a + [','] + b) == MountTexts(a) + MountTexts(b)
    ensures ',' !in a ==> |MountTexts(a)| <= 1
    ensures ',' !in a ==> forall t :: MountTexts(a) == [t] <==> IsStripped(a, t)
  {
    SplitConcat(a, ',', b);
    NonBlankAppend(Split(a, ','), Split(b, ','));
    if ',' !in a {
      SplitAtom(a, ',');
      NonBlankSnoc([], a);
      assert [] + [a] == [a];
      forall t ensures MountTexts(a) == [t] <==> IsStripped(a, t) {
        StripSays(a, t);
        OneText(MountTexts(a), Strip(a), t);
      }
    }
  }

  lemma OneText(texts: seq<string>, s: string, t: string)
    requires texts == if |s| == 0 then [] else [s]
    ensures texts == [t] <==> |t| > 0 && s == t
  {
    if texts == [t] { assert texts[0] == t; }
  }

  /** The mount part of `build_slurm_submit_job_spec`: runtime and container mounts are merged first, the
      node-local mounts are merged on top. */
  method SubmitMounts(srunMounts: seq<string>, containerMounts: Option<string>, nodeLocalMounts: Option<string>)
    returns (r: Result<seq<MountSpec>, MountError>)
    ensures r.Ok? <==> ParseMounts(srunMounts).Ok? && ParseMountSpecs(containerMounts).Ok?
                       && ParseMountSpecs(nodeLocalMounts).Ok?
    ensures r.Ok? ==>
      r.value == Merge(ParseMounts(srunMounts).value + ParseMountSpecs(containerMounts).value
                       + ParseMountSpecs(nodeLocalMounts).value)
    ensures r.Ok? ==> DistinctKeys(ByDest(r.value))
    ensures r.Ok? ==>
      IsLastWinsFirstPosition(ByDest(ParseMounts(srunMounts).value + ParseMountSpecs(containerMounts).value
                                     + ParseMountSpecs(nodeLocalMounts).value), ByDest(r.value))
  {
    var runtime := ParseMounts(srunMounts);
    if runtime.Err? { return Err(runtime.error); }
    var container := ParseMountSpecs(containerMounts);
    if container.Err? { return Err(container.error); }
    var merged := MergeMountSpecsByDestination(runtime.value + container.value);
    var nodeLocal := ParseMountSpecs(nodeLocalMounts);
    if nodeLocal.Err? { return Err(nodeLocal.error); }
    var all := MergeMountSpecsByDestination(merged + nodeLocal.value);
    NestedMergeIsOneMerge(runtime.value + container.value, nodeLocal.value);
    MergeSays(runtime.value + container.value + nodeLocal.value);
    r := Ok(all);
  }

  lemma MergeSays(mounts: seq<MountSpec>)
    ensures IsLastWinsFirstPosition(ByDest(mounts), ByDest(Merge(mounts)))
  {
    MergeEntries(mounts);
    FromItemsSpec(ByDest(mounts));
  }

  /** `_with_remote_files_mount`. */
  function WithRemoteFilesMount(mounts: seq<MountSpec>, remoteJobPath: string): seq<MountSpec> {
    var m := MountSpec(remoteJobPath, "/remote_files", "rw");
    if m in mounts then mounts else Merge(mounts + [m])
  }

  /** The mount is written over the one that has its destination, or else added at the end; the others stay. */
  lemma RemoteFilesMountSays(mounts: seq<MountSpec>, path: string)
    requires forall i, j :: 0 <= i < j < |mounts| ==> mounts[i].dest != mounts[j].dest
    ensures
      var m := MountSpec(path, "/remote_files", "rw");
      || (exists i :: 0 <= i < |mounts| && mounts[i].dest == "/remote_files"
                      && WithRemoteFilesMount(mounts, path) == mounts[i := m])
      || ((forall i :: 0 <= i < |mounts| ==> mounts[i].dest != "/remote_files")
          && WithRemoteFilesMount(mounts, path) == mounts + [m])
  {
    var m := MountSpec(path, "/remote_files", "rw");
    if m in mounts {
      var i :| 0 <= i < |mounts| && mounts[i] == m;
      assert mounts[i := m] == mounts;
    } else {
      MergeOneMore(mounts, m);
    }
  }

  lemma MergeIsPut(mounts: seq<MountSpec>, m: MountSpec)
    requires DistinctKeys(ByDest(mounts))
    ensures Merge(mounts + [m]) == Values(Put(ByDest(mounts), Entry(m.dest, m)))
  {
    var d, e := ByDest(mounts), Entry(m.dest, m);
    RebuildIsIdentity(d);
    assert ByDest(mounts + [m]) == d + [e] && (d + [e])[..|d|] == d;
  }

  /** Merging one more mount into mounts of different destinations is writing it into their dictionary. */
  lemma MergeOneMore(mounts: seq<MountSpec>, m: MountSpec)
    requires forall i, j :: 0 <= i < j < |mounts| ==> mounts[i].dest != mounts[j].dest
    ensures
      var at := Find(ByDest(mounts), m.dest);
      if at < |mounts| then mounts[at].dest == m.dest && Merge(mounts + [m]) == mounts[at := m]
      else (forall i :: 0 <= i < |mounts| ==> mounts[i].dest != m.dest) && Merge(mounts + [m]) == mounts + [m]
  {
    var d, e := ByDest(mounts), Entry(m.dest, m);
    MergeIsPut(mounts, m);
    var at := Find(d, m.dest);
    if at < |mounts| {
      assert d[at].key == mounts[at].dest && Values(d[at := e]) == mounts[at := m];
    } else {
      assert forall i :: 0 <= i < |mounts| ==> d[i].key == mounts[i].dest;
      assert Values(d + [e]) == mounts + [m];
    }
  }

  lemma RemoteFilesMountIdempotent(mounts: seq<MountSpec>, path: string)
    ensures MountSpec(path, "/remote_files", "rw") in WithRemoteFilesMount(mounts, path)
    ensures WithRemoteFilesMount(WithRemoteFilesMount(mounts, path), path) == WithRemoteFilesMount(mounts, path)
  {
    var m := MountSpec(path, "/remote_files", "rw");
    if m !in mounts {
      var items := ByDest(mounts + [m]);
      assert items == ByDest(mounts) + [Entry(m.dest, m)];
      assert items[..|mounts|] == ByDest(mounts);
      var d := FromItems(ByDest(mounts));
      var r := Put(d, Entry(m.dest, m));
      FindPut(d, Entry(m.dest, m), m.dest);
      assert r[Find(d, m.dest)].value == m;
      assert Values(r)[Find(d, m.dest)] == m;
    }
  }
}
