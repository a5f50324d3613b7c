/** The rendered manifest of update_distributable_pixi.py: the imperative printer, what the table that is read back
    holds, and the whole file. */
module ManifestMain {
  import opened Text
  import opened ManifestValues
  import opened ManifestTables
  import opened ManifestExact
  import opened ManifestShape

  // ---- The printer ----

  /** The entries of a table that are printed as assignments. */
  function OwnEntries(terminal: set<string>, path: Path, table: seq<Entry>): seq<Entry> {
    if table == [] then []
    else
      var n := |table| - 1;
      if IsSubtable(terminal, path, table[n]) then OwnEntries(terminal, path, table[..n])
      else OwnEntries(terminal, path, table[..n]) + [table[n]]
  }

  function Assigns(entries: seq<Entry>): Result<seq<Line>, Error> {
    if entries == [] then Ok([])
    else
      var n := |entries| - 1;
      match Assigns(entries[..n])
      case Err(e) => Err(e)
      case Ok(before) =>
        match FormatValue(entries[n].value)
        case Err(e) => Err(e)
        case Ok(tokens) => Ok(before + [Assign(entries[n].key, tokens)])
  }

  lemma {:induction false} AssignsAreEntryLines(terminal: set<string>, path: Path, table: seq<Entry>)
    ensures EntryLines(terminal, path, table) == Assigns(OwnEntries(terminal, path, table))
    ensures Assigns(OwnEntries(terminal, path, table)).Ok? ==>
              (Assigns(OwnEntries(terminal, path, table)).value == [] <==> OwnEntries(terminal, path, table) == [])
  {
    if table != [] {
      var n := |table| - 1;
      AssignsAreEntryLines(terminal, path, table[..n]);
      var own := OwnEntries(terminal, path, table[..n]);
      assert (own + [table[n]])[..|own|] == own;
    }
  }

  lemma {:induction false} ErrorStays(entries: seq<Entry>, k: nat)
    requires k <= |entries| && Assigns(entries[..k]).Err?
    ensures Assigns(entries).Err?
  {
    if k < |entries| {
      var n := |entries| - 1;
      assert entries[..n][..k] == entries[..k];
      ErrorStays(entries[..n], k);
    } else {
      assert entries[..k] == entries;
    }
  }

  lemma {:induction false} SubLinesSplit(terminal: set<string>, path: Path, a: seq<Entry>, b: seq<Entry>)
    ensures SubLines(terminal, path, a + b) ==
      match SubLines(terminal, path, a)
      case Err(e) => Err(e)
      case Ok(first) => match SubLines(terminal, path, b) case Err(e) => Err(e) case Ok(rest) => Ok(first + rest)
    decreases |a|
  {
    if a == [] {
      assert a + b == b;
      if SubLines(terminal, path, b).Ok? {
        assert [] + SubLines(terminal, path, b).value == SubLines(terminal, path, b).value;
      }
    } else {
      assert (a + b)[0] == a[0] && (a + b)[1..] == a[1..] + b;
      SubLinesSplit(terminal, path, a[1..], b);
      var x, y, z := SubLine(terminal, path, a[0]), SubLines(terminal, path, a[1..]), SubLines(terminal, path, b);
      if x.Ok? && y.Ok? && z.Ok? { assert (x.value + y.value) + z.value == x.value + (y.value + z.value); }
    }
  }

  lemma SubLinesOne(terminal: set<string>, path: Path, e: Entry)
    ensures SubLines(terminal, path, [e]) == SubLine(terminal, path, e)
  {
    assert [e][1..] == [];
    assert SubLines(terminal, path, [e][1..]) == Ok([]);
    match SubLine(terminal, path, e)
    case Err(_) =>
    case Ok(first) => assert first + [] == first;
  }

  class ManifestLines {
    var lines: seq<Line>

    constructor ()
      ensures lines == []
    {
      lines := [];
    }

    /** The assignments of a table under its header. */
    method AppendEntries(path: Path, entries: seq<Entry>) returns (ok: bool)
      requires entries != []
      modifies this
      ensures ok <==> Assigns(entries).Ok?
      ensures ok ==> lines == old(lines) + ([Header(Join(path))] + Assigns(entries).value + [Blank])
    {
      lines := lines + [Header(Join(path))];
      for k := 0 to |entries|
        invariant Assigns(entries[..k]).Ok?
        invariant lines == old(lines) + [Header(Join(path))] + Assigns(entries[..k]).value
      {
        assert entries[..k + 1][..k] == entries[..k];
        var tokens := FormatValue(entries[k].value);
        if tokens.Err? {
          ErrorStays(entries, k + 1);
          return false;
        }
        lines := lines + [Assign(entries[k].key, tokens.value)];
      }
      assert entries[..|entries|] == entries;
      lines := lines + [Blank];
      ok := true;
    }

    /** The partition of a table's entries, and its own lines if it has any. */
    method AppendOwn(terminal: set<string>, path: Path, table: seq<Entry>) returns (ok: bool)
      modifies this
      ensures ok <==> OwnLines(terminal, path, table).Ok?
      ensures ok ==> lines == old(lines) + OwnLines(terminal, path, table).value
    {
      var entries: seq<Entry> := [];
      for k := 0 to |table|
        invariant lines == old(lines)
        invariant entries == OwnEntries(terminal, path, table[..k])
      {
        assert table[..k + 1][..k] == table[..k];
        if !IsSubtable(terminal, path, table[k]) { entries := entries + [table[k]]; }
      }
      assert table[..|table|] == table;
      AssignsAreEntryLines(terminal, path, table);
      ok := true;
      if entries != [] { ok := AppendEntries(path, entries); }
    }

    /** `_append_table`: an unsupported value anywhere below makes it raise. */
    method AppendTable(terminal: set<string>, path: Path, table: seq<Entry>) returns (ok: bool)
      modifies this
      ensures ok <==> TableLines(terminal, path, table).Ok?
      ensures ok <==> AllSupported(table)
      ensures ok ==> lines == old(lines) + TableLines(terminal, path, table).value
      ensures ok ==> old(lines) <= lines && Printed(terminal, path, table, lines[|old(lines)|..])
      decreases table, 1
    {
      TablePrintsIff(terminal, path, table);
      ok := AppendOwn(terminal, path, table);
      if ok { ok := AppendSubtables(terminal, path, table); }
      if ok {
        TableIsPrinted(terminal, path, table);
        assert lines[|old(lines)|..] == TableLines(terminal, path, table).value;
      }
    }

    /** The loop over the subtables. */
    method AppendSubtables(terminal: set<string>, path: Path, table: seq<Entry>) returns (ok: bool)
      modifies this
      ensures ok <==> SubLines(terminal, path, table).Ok?
      ensures ok ==> lines == old(lines) + SubLines(terminal, path, table).value
      decreases table, 0
    {
      for k := 0 to |table|
        invariant SubLines(terminal, path, table[..k]).Ok?
        invariant lines == old(lines) + SubLines(terminal, path, table[..k]).value
      {
        SubLinesSplit(terminal, path, table[..k], [table[k]]);
        SubLinesOne(terminal, path, table[k]);
        assert table[..k + 1] == table[..k] + [table[k]];
        if IsSubtable(terminal, path, table[k]) {
          ok := AppendTable(terminal, path + [table[k].key], table[k].value.entries);
          if !ok {
            SubLinesSplit(terminal, path, table[..k + 1], table[k + 1..]);
            assert table[..k + 1] + table[k + 1..] == table;
            return;
          }
        }
      }
      assert table[..|table|] == table;
      ok := true;
    }
  }

  // ---- What the table that is read back holds ----

  /** Nothing but subtables that hold nothing. */
  predicate HoldsNothing(terminal: set<string>, path: Path, table: seq<Entry>)
    decreases table
  {
    forall k :: 0 <= k < |table| ==>
      IsSubtable(terminal, path, table[k]) && HoldsNothing(terminal, path + [table[k].key], table[k].value.entries)
  }

  lemma {:induction false} NormalEmptyIff(terminal: set<string>, path: Path, table: seq<Entry>)
    ensures Normal(terminal, path, table) == [] <==> HoldsNothing(terminal, path, table)
    decreases table, 1
  {
    ValuesEmptyIff(terminal, path, table);
    SubtablesEmptyIff(terminal, path, table);
  }

  lemma {:induction false} ValuesEmptyIff(terminal: set<string>, path: Path, table: seq<Entry>)
    ensures Values(terminal, path, table) == [] <==>
              forall k :: 0 <= k < |table| ==> IsSubtable(terminal, path, table[k])
  {
    if table != [] {
      ValuesEmptyIff(terminal, path, table[..|table| - 1]);
      assert table == table[..|table| - 1] + [table[|table| - 1]];
    }
  }

  lemma {:induction false} SubtablesEmptyIff(terminal: set<string>, path: Path, table: seq<Entry>)
    ensures Subtables(terminal, path, table) == [] <==>
      forall k :: 0 <= k < |table| && IsSubtable(terminal, path, table[k]) ==>
        HoldsNothing(terminal, path + [table[k].key], table[k].value.entries)
    decreases table, 0
  {
    if table != [] {
      var e, rest := table[0], table[1..];
      if IsSubtable(terminal, path, e) { NormalEmptyIff(terminal, path + [e.key], e.value.entries); }
      SubtablesEmptyIff(terminal, path, rest);
      assert forall k :: 0 <= k < |rest| ==> rest[k] == table[k + 1];
      assert forall k :: 0 < k < |table| ==> table[k] == rest[k - 1];
    }
  }

  function Get(tree: Tree, key: string): Option<Node> {
    if Has(tree, key) then Some(tree[Find(tree, key)].node) else None
  }

  /** What an entry becomes: itself, its normal form, or nothing if it holds nothing. */
  function Kept(terminal: set<string>, path: Path, e: Entry): Option<Node> {
    if !IsSubtable(terminal, path, e) then Some(Leaf(e.value))
    else if HoldsNothing(terminal, path + [e.key], e.value.entries) then None
    else Some(Sub(Normal(terminal, path + [e.key], e.value.entries)))
  }

  lemma GetTwo(a: Tree, b: Tree, key: string)
    ensures Get(a + b, key) == if Has(a, key) then Get(a, key) else Get(b, key)
  {
    if Has(a, key) {
      var x, y := Find(a + b, key), Find(a, key);
      assert (a + b)[y] == a[y] && forall j :: 0 <= j < |a| ==> (a + b)[j] == a[j];
      assert x == y;
    } else {
      FindTwo(a, b, key);
    }
  }

  lemma {:induction false} GetValue(terminal: set<string>, path: Path, table: seq<Entry>, n: nat, k: nat)
    requires Distinct(table) && k < n <= |table| && !IsSubtable(terminal, path, table[k])
    ensures Get(Values(terminal, path, table[..n]), table[k].key) == Some(Leaf(table[k].value))
  {
    assert table[..n][..n - 1] == table[..n - 1];
    var before, e := Values(terminal, path, table[..n - 1]), table[n - 1];
    if k < n - 1 {
      GetValue(terminal, path, table, n - 1, k);
      var last := if IsSubtable(terminal, path, e) then [] else [Item(e.key, Leaf(e.value))];
      assert Values(terminal, path, table[..n]) == before + last;
      GetTwo(before, last, table[k].key);
    } else {
      ValuesKeys(terminal, path, table[..k], e.key);
      GetTwo(before, [Item(e.key, Leaf(e.value))], e.key);
    }
  }

  lemma {:induction false} GetSubtable(terminal: set<string>, path: Path, table: seq<Entry>, k: nat)
    requires Distinct(table) && k < |table| && IsSubtable(terminal, path, table[k])
    ensures Get(Subtables(terminal, path, table), table[k].key) == Kept(terminal, path, table[k])
  {
    var e := table[0];
    GetTwo(Subtable(terminal, path, e), Subtables(terminal, path, table[1..]), table[k].key);
    if k == 0 {
      NormalEmptyIff(terminal, path + [e.key], e.value.entries);
      NoSubtable(terminal, path, table[1..], e.key);
    } else {
      SubtableKeys(terminal, path, e, table[k].key);
      GetSubtable(terminal, path, table[1..], k - 1);
    }
  }

  lemma {:induction false} NoSubtable(terminal: set<string>, path: Path, table: seq<Entry>, key: string)
    requires !HasKey(table, key)
    ensures !Has(Subtables(terminal, path, table), key)
  {
    if table != [] {
      assert table[0].key != key;
      forall k | 0 <= k < |table[1..]| ensures table[1..][k].key != key { assert table[1..][k] == table[k + 1]; }
      SubtableKeys(terminal, path, table[0], key);
      NoSubtable(terminal, path, table[1..], key);
      FindTwo(Subtable(terminal, path, table[0]), Subtables(terminal, path, table[1..]), key);
    }
  }

  /** Key by key, the table read back is the original without the subtables that hold nothing. */
  lemma NormalHolds(terminal: set<string>, path: Path, table: seq<Entry>, k: nat)
    requires Distinct(table) && k < |table|
    ensures Get(Normal(terminal, path, table), table[k].key) == Kept(terminal, path, table[k])
  {
    var values, subtables := Values(terminal, path, table), Subtables(terminal, path, table);
    assert table[..|table|] == table;
    GetTwo(values, subtables, table[k].key);
    if IsSubtable(terminal, path, table[k]) {
      ValuesSkip(terminal, path, table, k, |table|);
      GetSubtable(terminal, path, table, k);
    } else {
      GetValue(terminal, path, table, |table|, k);
    }
  }

  lemma NormalHoldsNoMore(terminal: set<string>, path: Path, table: seq<Entry>, key: string)
    requires !HasKey(table, key)
    ensures Get(Normal(terminal, path, table), key) == None
  {
    forall k | 0 <= k < |table| ensures table[k].key != key { assert !HasKey(table, key); }
    ValuesKeys(terminal, path, table, key);
    NoSubtable(terminal, path, table, key);
    GetTwo(Values(terminal, path, table), Subtables(terminal, path, table), key);
  }

  // ---- The whole manifest ----

  datatype Section = Section(path: Path, table: seq<Entry>)

  function SectionLines(terminal: set<string>, sections: seq<Section>): Result<seq<Line>, Error> {
    if sections == [] then Ok([])
    else
      match TableLines(terminal, sections[0].path, sections[0].table)
      case Err(e) => Err(e)
      case Ok(first) =>
        match SectionLines(terminal, sections[1..])
        case Err(e) => Err(e)
        case Ok(rest) => Ok(first + rest)
  }

  function GrowAll(terminal: set<string>, tree: Tree, sections: seq<Section>): Tree
    decreases |sections|
  {
    if sections == [] then tree
    else GrowAll(terminal, Grow(tree, sections[0].path, Normal(terminal, sections[0].path, sections[0].table)),
      sections[1..])
  }

  /** Neither path is the other or leads to it. */
  predicate Disjoint(p: Path, q: Path) { !(p <= q) && !(q <= p) }

  lemma {:induction false} AddElsewhere(tree: Tree, p: Path, items: Tree, q: Path)
    requires Disjoint(p, q) && Clear(tree, p) && Clear(tree, q)
    ensures Clear(Add(tree, p, items), q) && TableAt(Add(tree, p, items), q) == TableAt(tree, q)
    decreases |p|
  {
    assert p != [] && q != [];
    var i := Find(tree, p[0]);
    if p[0] == q[0] {
      assert Disjoint(p[1..], q[1..]) by { assert p == [p[0]] + p[1..] && q == [q[0]] + q[1..]; }
      if i == |tree| {
        ClearNothing(p[1..]);
        ClearNothing(q[1..]);
        AddElsewhere([], p[1..], items, q[1..]);
        FindAdded(tree, Item(p[0], Sub(Add([], p[1..], items))), q[0]);
      } else {
        var inner := tree[i].node.items;
        AddElsewhere(inner, p[1..], items, q[1..]);
        FindChanged(tree, i, Sub(Add(inner, p[1..], items)), q[0]);
      }
    } else if i == |tree| {
      FindAdded(tree, Item(p[0], Sub(Add([], p[1..], items))), q[0]);
    } else {
      FindChanged(tree, i, Sub(Add(tree[i].node.items, p[1..], items)), q[0]);
    }
  }

  ghost predicate Separate(sections: seq<Section>) {
    forall i, j :: 0 <= i < j < |sections| ==> Disjoint(sections[i].path, sections[j].path)
  }

  /** Every key of the section that leaves a trace in its lines is bare. */
  predicate Readable(terminal: set<string>, s: Section) {
    && Legible(terminal, s.path, s.table)
    && (Normal(terminal, s.path, s.table) != [] ==> BarePath(s.path))
  }

  ghost predicate SectionOk(terminal: set<string>, s: Section, r: Reader) {
    && s.path != [] && Readable(terminal, s)
    && Fresh(r.tree, s.path, s.table) && NoneUnder(r.defined, s.path)
  }

  lemma SectionStaysOk(terminal: set<string>, s: Section, t: Section, r: Reader, r1: Reader)
    requires SectionOk(terminal, s, r) && SectionOk(terminal, t, r) && Disjoint(s.path, t.path)
    requires r1.tree == Grow(r.tree, s.path, Normal(terminal, s.path, s.table))
    requires OnlyUnder(r.defined, r1.defined, s.path)
    ensures SectionOk(terminal, t, r1)
  {
    AddElsewhere(r.tree, s.path, Normal(terminal, s.path, s.table), t.path);
    forall d | d in r1.defined ensures !(t.path <= d) {
      if d !in r.defined { PrefixesMeet(s.path, t.path, d); }
    }
  }

  lemma PrefixesMeet(p: Path, q: Path, d: Path)
    requires Disjoint(p, q) && p <= d
    ensures !(q <= d)
  {
    if |p| <= |q| {
      assert p != q[..|p|];
      var x :| 0 <= x < |p| && p[x] != q[x];
      assert d[x] == p[x];
    } else {
      assert q != p[..|q|];
      var x :| 0 <= x < |q| && p[x] != q[x];
      assert d[x] == p[x];
    }
  }

  lemma SectionReads(terminal: set<string>, s: Section, r: Reader) returns (r1: Reader)
    requires SectionOk(terminal, s, r) && TableLines(terminal, s.path, s.table).Ok?
    ensures ReadLines(r, TableLines(terminal, s.path, s.table).value) == Some(r1)
    ensures r1.tree == Grow(r.tree, s.path, Normal(terminal, s.path, s.table))
    ensures OnlyUnder(r.defined, r1.defined, s.path)
  {
    TableReads(terminal, s.path, s.table, r);
    r1 := ReadLines(r, TableLines(terminal, s.path, s.table).value).value;
  }

  ghost predicate AllOk(terminal: set<string>, sections: seq<Section>, r: Reader) {
    forall k :: 0 <= k < |sections| ==> SectionOk(terminal, sections[k], r)
  }

  lemma RestStaysOk(terminal: set<string>, sections: seq<Section>, r: Reader, r1: Reader)
    requires sections != [] && Separate(sections) && AllOk(terminal, sections, r)
    requires
      var s := sections[0];
      r1.tree == Grow(r.tree, s.path, Normal(terminal, s.path, s.table)) && OnlyUnder(r.defined, r1.defined, s.path)
    ensures Separate(sections[1..]) && AllOk(terminal, sections[1..], r1)
  {
    forall k | 0 <= k < |sections[1..]| ensures SectionOk(terminal, sections[1..][k], r1) {
      assert sections[1..][k] == sections[k + 1];
      SectionStaysOk(terminal, sections[0], sections[k + 1], r, r1);
    }
  }

  /** Disjoint sections read back one after the other. */
  lemma {:induction false} SectionsRead(terminal: set<string>, sections: seq<Section>, r: Reader)
    requires SectionLines(terminal, sections).Ok? && Separate(sections) && AllOk(terminal, sections, r)
    ensures
      var read := ReadLines(r, SectionLines(terminal, sections).value);
      read.Some? && read.value.tree == GrowAll(terminal, r.tree, sections)
    decreases |sections|
  {
    if sections != [] {
      assert SectionOk(terminal, sections[0], r);
      var r1 := SectionReads(terminal, sections[0], r);
      ReadAppend(r, TableLines(terminal, sections[0].path, sections[0].table).value,
                 SectionLines(terminal, sections[1..]).value);
      RestStaysOk(terminal, sections, r, r1);
      SectionsRead(terminal, sections[1..], r1);
    }
  }

  /** Whether `key` stands in the table at `q` after adding at `p`: it did before, or `p` goes through it. */
  lemma {:induction false} AddKeys(tree: Tree, p: Path, items: Tree, q: Path, key: string)
    requires Clear(tree, p) && Clear(tree, q) && !(p <= q)
    ensures Clear(Add(tree, p, items), q)
    ensures Has(TableAt(Add(tree, p, items), q), key) <==> Has(TableAt(tree, q), key) || q + [key] <= p
    decreases |p|
  {
    if q == [] {
      AddKeysHere(tree, p, items, key);
    } else if q[0] == p[0] {
      var below := Below(tree, p[0]);
      StepsDown(p, q, key);
      ClearNothing(p[1..]);
      ClearNothing(q[1..]);
      AddKeys(below, p[1..], items, q[1..], key);
      AddFinds(tree, p, items, q[0]);
    } else {
      AddFinds(tree, p, items, q[0]);
      assert (q + [key])[0] == q[0];
    }
  }

  /** The table `key` of a tree, empty if there is none. */
  function Below(tree: Tree, key: string): Tree {
    var i := Find(tree, key);
    if i < |tree| && tree[i].node.Sub? then tree[i].node.items else []
  }

  /** Adding at `p` changes the item of its first key only. */
  lemma AddFinds(tree: Tree, p: Path, items: Tree, key: string)
    requires p != [] && Clear(tree, p)
    ensures
      var tree' := Add(tree, p, items);
      && (Has(tree', key) <==> Has(tree, key) || key == p[0])
      && (key != p[0] && Has(tree, key) ==> tree'[Find(tree', key)] == tree[Find(tree, key)])
      && (key == p[0] ==> tree'[Find(tree', key)] == Item(p[0], Sub(Add(Below(tree, p[0]), p[1..], items))))
  {
    var i := Find(tree, p[0]);
    var node := Sub(Add(Below(tree, p[0]), p[1..], items));
    if i == |tree| { FindAdded(tree, Item(p[0], node), key); } else { FindChanged(tree, i, node, key); }
  }

  lemma AddKeysHere(tree: Tree, p: Path, items: Tree, key: string)
    requires p != [] && Clear(tree, p)
    ensures Has(Add(tree, p, items), key) <==> Has(tree, key) || [key] <= p
  {
    AddFinds(tree, p, items, key);
    assert [key] <= p <==> key == p[0];
  }

  lemma StepsDown(p: Path, q: Path, key: string)
    requires p != [] && q != [] && q[0] == p[0]
    ensures p <= q <==> p[1..] <= q[1..]
    ensures q + [key] <= p <==> q[1..] + [key] <= p[1..]
  {
    assert p == [p[0]] + p[1..] && q == [q[0]] + q[1..];
    assert q + [key] == [q[0]] + (q[1..] + [key]);
  }

  /** The section leaves something behind. */
  predicate Holds(terminal: set<string>, s: Section) {
    !HoldsNothing(terminal, s.path, s.table)
  }

  /** No value is in the way of any section. */
  ghost predicate AllClear(tree: Tree, sections: seq<Section>) {
    forall k :: 0 <= k < |sections| ==> Clear(tree, sections[k].path)
  }

  lemma GrowStaysClear(terminal: set<string>, tree: Tree, sections: seq<Section>)
    requires sections != [] && Separate(sections) && AllClear(tree, sections)
    ensures
      var s := sections[0];
      AllClear(Grow(tree, s.path, Normal(terminal, s.path, s.table)), sections[1..])
  {
    var s, rest := sections[0], sections[1..];
    var items := Normal(terminal, s.path, s.table);
    forall k | 0 <= k < |rest| ensures Clear(Grow(tree, s.path, items), rest[k].path) {
      assert rest[k] == sections[k + 1];
      if items != [] { AddElsewhere(tree, s.path, items, rest[k].path); }
    }
  }

  /** Sections whose paths are apart from `q` leave the table there alone. */
  lemma {:induction false} GrowAllElsewhere(terminal: set<string>, tree: Tree, sections: seq<Section>, q: Path)
    requires Separate(sections) && AllClear(tree, sections) && Clear(tree, q)
    requires forall k :: 0 <= k < |sections| ==> Disjoint(sections[k].path, q)
    ensures TableAt(GrowAll(terminal, tree, sections), q) == TableAt(tree, q)
    decreases |sections|
  {
    if sections != [] {
      var s := sections[0];
      var items := Normal(terminal, s.path, s.table);
      GrowStaysClear(terminal, tree, sections);
      if items != [] { AddElsewhere(tree, s.path, items, q); }
      GrowAllElsewhere(terminal, Grow(tree, s.path, items), sections[1..], q);
    }
  }

  /** At the path of each section stands what that section holds, after what stood there. */
  lemma {:induction false} GrowAllAt(terminal: set<string>, tree: Tree, sections: seq<Section>, k: nat)
    requires Separate(sections) && AllClear(tree, sections) && k < |sections|
    ensures TableAt(GrowAll(terminal, tree, sections), sections[k].path)
         == TableAt(tree, sections[k].path) + Normal(terminal, sections[k].path, sections[k].table)
    decreases |sections|
  {
    var s, rest := sections[0], sections[1..];
    var items := Normal(terminal, s.path, s.table);
    GrowStaysClear(terminal, tree, sections);
    GrowReaches(tree, s.path, items);
    if k == 0 {
      GrowAllElsewhere(terminal, Grow(tree, s.path, items), rest, s.path);
    } else {
      GrowAllAt(terminal, Grow(tree, s.path, items), rest, k - 1);
      if items != [] { AddElsewhere(tree, s.path, items, sections[k].path); }
    }
  }

  /** `q` is not the path of a section, nor below one. */
  ghost predicate Above(sections: seq<Section>, q: Path) {
    forall k :: 0 <= k < |sections| ==> !(sections[k].path <= q)
  }

  /** `p` is the path of a section that holds something, or leads to it. */
  ghost predicate OnTheWay(terminal: set<string>, sections: seq<Section>, p: Path) {
    exists k :: 0 <= k < |sections| && p <= sections[k].path && Holds(terminal, sections[k])
  }

  /** At the path of each section stands its table, without what holds nothing. */
  ghost predicate SectionsStand(terminal: set<string>, tree: Tree, sections: seq<Section>) {
    forall k :: 0 <= k < |sections| ==>
      TableAt(tree, sections[k].path) == Normal(terminal, sections[k].path, sections[k].table)
  }

  /** Above the sections stand only the tables on their paths. */
  ghost predicate NothingElse(terminal: set<string>, tree: Tree, sections: seq<Section>) {
    forall q: Path, key: string :: Above(sections, q) ==>
      (Has(TableAt(tree, q), key) <==> OnTheWay(terminal, sections, q + [key]))
  }

  /** Above the sections stand the tables on their paths, and nothing else. */
  lemma {:induction false} GrowAllKeys(terminal: set<string>, tree: Tree, sections: seq<Section>, q: Path, key: string)
    requires Separate(sections) && AllClear(tree, sections) && Clear(tree, q)
    requires Above(sections, q)
    ensures Has(TableAt(GrowAll(terminal, tree, sections), q), key) <==>
              Has(TableAt(tree, q), key) || OnTheWay(terminal, sections, q + [key])
    decreases |sections|
  {
    if sections != [] {
      var s, rest := sections[0], sections[1..];
      var items := Normal(terminal, s.path, s.table);
      NormalEmptyIff(terminal, s.path, s.table);
      GrowStaysClear(terminal, tree, sections);
      if items != [] { AddKeys(tree, s.path, items, q, key); }
      GrowAllKeys(terminal, Grow(tree, s.path, items), rest, q, key);
      OnTheWayRest(terminal, sections, q + [key]);
    }
  }

  lemma OnTheWayRest(terminal: set<string>, sections: seq<Section>, p: Path)
    requires sections != []
    ensures OnTheWay(terminal, sections, p) <==>
              (p <= sections[0].path && Holds(terminal, sections[0])) || OnTheWay(terminal, sections[1..], p)
  {
    assert forall k :: 0 <= k < |sections[1..]| ==> sections[1..][k] == sections[k + 1];
    assert forall k :: 0 < k < |sections| ==> sections[k] == sections[1..][k - 1];
  }

  /** What is read holds the sections and nothing else. */
  lemma GrowAllHolds(terminal: set<string>, sections: seq<Section>)
    requires Separate(sections) && forall k :: 0 <= k < |sections| ==> sections[k].path != []
    ensures SectionsStand(terminal, GrowAll(terminal, [], sections), sections)
    ensures NothingElse(terminal, GrowAll(terminal, [], sections), sections)
  {
    var tree := GrowAll(terminal, [], sections);
    forall k | 0 <= k < |sections| ensures Clear([], sections[k].path) { ClearNothing(sections[k].path); }
    forall k | 0 <= k < |sections|
      ensures TableAt(tree, sections[k].path) == Normal(terminal, sections[k].path, sections[k].table)
    {
      ClearNothing(sections[k].path);
      GrowAllAt(terminal, [], sections, k);
    }
    forall q: Path, key: string | Above(sections, q)
      ensures Has(TableAt(tree, q), key) <==> OnTheWay(terminal, sections, q + [key])
    {
      ClearNothing(q);
      GrowAllKeys(terminal, [], sections, q, key);
    }
  }

  datatype Names = Names(workspace: string, activation: string, dependencies: string, feature: string,
                         environments: string)

  datatype Feature = Feature(name: string, table: seq<Entry>)

  datatype Config = Config(workspace: seq<Entry>, activation: seq<Entry>, dependencies: seq<Entry>,
                           features: seq<Feature>, environments: seq<Entry>)

  function FeatureSections(names: Names, features: seq<Feature>): (s: seq<Section>)
    ensures |s| == |features|
    ensures forall k :: 0 <= k < |s| ==> s[k] == Section([names.feature, features[k].name], features[k].table)
  {
    seq(|features|, k requires 0 <= k < |features| => Section([names.feature, features[k].name], features[k].table))
  }

  /** The sections in printing order; an empty activation table is left out. */
  function Sections(names: Names, config: Config): seq<Section> {
    [Section([names.workspace], config.workspace)]
    + (if config.activation == [] then [] else [Section([names.activation], config.activation)])
    + [Section([names.dependencies], config.dependencies)]
    + FeatureSections(names, config.features)
    + [Section([names.environments], config.environments)]
  }

  /** The section names differ. */
  ghost predicate NamesOk(names: Names) {
    && names.workspace !in {names.activation, names.dependencies, names.feature, names.environments}
    && names.activation !in {names.dependencies, names.feature, names.environments}
    && names.dependencies !in {names.feature, names.environments}
    && names.feature != names.environments
  }

  /** The configuration is made of dictionaries: keys differ within each table, and so do the features. */
  ghost predicate ConfigOk(terminal: set<string>, names: Names, config: Config) {
    && (forall k :: 0 <= k < |Sections(names, config)| ==> Proper(terminal, Sections(names, config)[k]))
    && (forall i, j :: 0 <= i < j < |config.features| ==> config.features[i].name != config.features[j].name)
  }

  ghost predicate Proper(terminal: set<string>, s: Section) {
    s.path != [] && IsDictionary(terminal, s.path, s.table)
  }

  lemma DifferentTitles(s: Section, t: Section)
    requires s.path != [] && t.path != [] && s.path[0] != t.path[0]
    ensures Disjoint(s.path, t.path)
  {
  }

  lemma SectionsSeparate(terminal: set<string>, names: Names, config: Config)
    requires NamesOk(names) && ConfigOk(terminal, names, config)
    ensures Separate(Sections(names, config))
  {
    var sections := Sections(names, config);
    forall i, j | 0 <= i < j < |sections| ensures Disjoint(sections[i].path, sections[j].path) {
      var s, t := sections[i], sections[j];
      if s.path[0] == t.path[0] {
        assert s.path[0] == names.feature && s.path[1] != t.path[1];
      } else {
        DifferentTitles(s, t);
      }
    }
  }

  /** The lines of the sections, one after the other. */
  ghost predicate SectionsPrinted(terminal: set<string>, sections: seq<Section>, lines: seq<Line>)
    decreases |sections|
  {
    if sections == [] then lines == []
    else exists n :: 0 <= n <= |lines| && Printed(terminal, sections[0].path, sections[0].table, lines[..n])
                     && SectionsPrinted(terminal, sections[1..], lines[n..])
  }

  lemma {:induction false} SectionsArePrinted(terminal: set<string>, sections: seq<Section>)
    requires SectionLines(terminal, sections).Ok?
    ensures SectionsPrinted(terminal, sections, SectionLines(terminal, sections).value)
    decreases |sections|
  {
    if sections != [] {
      var first := TableLines(terminal, sections[0].path, sections[0].table).value;
      var rest := SectionLines(terminal, sections[1..]).value;
      TableIsPrinted(terminal, sections[0].path, sections[0].table);
      SectionsArePrinted(terminal, sections[1..]);
      assert (first + rest)[..|first|] == first && (first + rest)[|first|..] == rest;
    }
  }

  lemma {:induction false} SectionsPrintIff(terminal: set<string>, sections: seq<Section>)
    ensures SectionLines(terminal, sections).Ok? <==>
              forall k :: 0 <= k < |sections| ==> AllSupported(sections[k].table)
    decreases |sections|
  {
    if sections != [] {
      TablePrintsIff(terminal, sections[0].path, sections[0].table);
      SectionsPrintIff(terminal, sections[1..]);
      assert forall k :: 0 < k < |sections| ==> sections[k] == sections[1..][k - 1];
      assert forall k :: 0 <= k < |sections[1..]| ==> sections[1..][k] == sections[k + 1];
    }
  }

  /** The sections in printing order: workspace, activation unless empty, dependencies, features, environments. */
  ghost predicate InOrder(names: Names, config: Config, sections: seq<Section>) {
    var a, n := if |config.activation| > 0 then 1 else 0, |config.features|;
    && |sections| == 3 + a + n && sections[0] == Section([names.workspace], config.workspace)
    && (a == 1 ==> sections[1] == Section([names.activation], config.activation))
    && sections[1 + a] == Section([names.dependencies], config.dependencies)
    && (forall k :: 0 <= k < n ==>
          sections[2 + a + k] == Section([names.feature, config.features[k].name], config.features[k].table))
    && sections[2 + a + n] == Section([names.environments], config.environments)
  }

  lemma SectionsInOrder(names: Names, config: Config)
    ensures InOrder(names, config, Sections(names, config))
  {
  }

  ghost predicate ConfigSupported(config: Config) {
    && AllSupported(config.workspace) && AllSupported(config.activation) && AllSupported(config.dependencies)
    && (forall k :: 0 <= k < |config.features| ==> AllSupported(config.features[k].table))
    && AllSupported(config.environments)
  }

  lemma SupportedSections(names: Names, config: Config, sections: seq<Section>)
    requires InOrder(names, config, sections)
    ensures (forall k :: 0 <= k < |sections| ==> AllSupported(sections[k].table)) <==> ConfigSupported(config)
  {
    if forall k :: 0 <= k < |sections| ==> AllSupported(sections[k].table) {
      SupportedParts(names, config, sections);
    }
    if ConfigSupported(config) {
      var a, n := if |config.activation| > 0 then 1 else 0, |config.features|;
      forall k | 0 <= k < |sections| ensures AllSupported(sections[k].table) {
        if 2 + a <= k < 2 + a + n {
          assert sections[2 + a + (k - 2 - a)].table == config.features[k - 2 - a].table;
        }
      }
    }
  }

  lemma SupportedParts(names: Names, config: Config, sections: seq<Section>)
    requires InOrder(names, config, sections) && forall k :: 0 <= k < |sections| ==> AllSupported(sections[k].table)
    ensures ConfigSupported(config)
  {
    var a, n := if |config.activation| > 0 then 1 else 0, |config.features|;
    assert AllSupported(sections[0].table) && AllSupported(sections[1].table) && AllSupported(sections[1 + a].table);
    assert AllSupported(sections[2 + a + n].table);
    forall k | 0 <= k < n ensures AllSupported(config.features[k].table) {
      assert AllSupported(sections[2 + a + k].table);
    }
  }

  method RenderManifest(terminal: set<string>, names: Names, config: Config) returns (r: Result<seq<Line>, Error>)
    ensures r.Ok? <==> SectionLines(terminal, Sections(names, config)).Ok?
    ensures r.Ok? ==> r.value == [Blank, Blank] + SectionLines(terminal, Sections(names, config)).value
    ensures r.Ok? <==> ConfigSupported(config)
    ensures r.Ok? ==> |r.value| >= 2 && r.value[0] == r.value[1] == Blank
    ensures r.Ok? ==> exists sections :: InOrder(names, config, sections)
                                         && SectionsPrinted(terminal, sections, r.value[2..])
  {
    SectionsPrintIff(terminal, Sections(names, config));
    SectionsInOrder(names, config);
    SupportedSections(names, config, Sections(names, config));
    if SectionLines(terminal, Sections(names, config)).Ok? { SectionsArePrinted(terminal, Sections(names, config)); }
    var out := new ManifestLines();
    out.lines := [Blank, Blank];
    var ok := AppendSections(out, terminal, Sections(names, config));
    r := if ok then Ok(out.lines) else Err(UnsupportedValue);
    if ok { assert r.value[2..] == SectionLines(terminal, Sections(names, config)).value; }
  }

  method AppendSections(out: ManifestLines, terminal: set<string>, sections: seq<Section>) returns (ok: bool)
    modifies out
    ensures ok <==> SectionLines(terminal, sections).Ok?
    ensures ok ==> out.lines == old(out.lines) + SectionLines(terminal, sections).value
  {
    for k := 0 to |sections|
      invariant SectionLines(terminal, sections[..k]).Ok?
      invariant out.lines == old(out.lines) + SectionLines(terminal, sections[..k]).value
    {
      SectionsTake(terminal, sections, k);
      ok := out.AppendTable(terminal, sections[k].path, sections[k].table);
      if !ok { return; }
    }
    assert sections[..|sections|] == sections;
    ok := true;
  }

  lemma {:induction false} SectionsSplit(terminal: set<string>, a: seq<Section>, b: seq<Section>)
    ensures SectionLines(terminal, a + b) ==
      match SectionLines(terminal, a)
      case Err(e) => Err(e)
      case Ok(first) => match SectionLines(terminal, b) case Err(e) => Err(e) case Ok(rest) => Ok(first + rest)
    decreases |a|
  {
    if a == [] {
      assert a + b == b;
      if SectionLines(terminal, b).Ok? {
        assert [] + SectionLines(terminal, b).value == SectionLines(terminal, b).value;
      }
    } else {
      assert (a + b)[0] == a[0] && (a + b)[1..] == a[1..] + b;
      SectionsSplit(terminal, a[1..], b);
      var x := TableLines(terminal, a[0].path, a[0].table);
      var y, z := SectionLines(terminal, a[1..]), SectionLines(terminal, b);
      if x.Ok? && y.Ok? && z.Ok? { assert (x.value + y.value) + z.value == x.value + (y.value + z.value); }
    }
  }

  lemma SectionsOne(terminal: set<string>, s: Section)
    ensures SectionLines(terminal, [s]) == TableLines(terminal, s.path, s.table)
  {
    assert [s][1..] == [];
    assert SectionLines(terminal, [s][1..]) == Ok([]);
    match TableLines(terminal, s.path, s.table)
    case Err(_) =>
    case Ok(first) => assert first + [] == first;
  }

  lemma SectionsTake(terminal: set<string>, sections: seq<Section>, k: nat)
    requires k < |sections| && SectionLines(terminal, sections[..k]).Ok?
    ensures
      var more := TableLines(terminal, sections[k].path, sections[k].table);
      && (more.Ok? ==>
            SectionLines(terminal, sections[..k + 1]) == Ok(SectionLines(terminal, sections[..k]).value + more.value))
      && (more.Err? ==> SectionLines(terminal, sections).Err?)
  {
    SectionsSplit(terminal, sections[..k], [sections[k]]);
    SectionsOne(terminal, sections[k]);
    assert sections[..k + 1] == sections[..k] + [sections[k]];
    SectionsSplit(terminal, sections[..k + 1], sections[k + 1..]);
    assert sections[..k + 1] + sections[k + 1..] == sections;
  }

  /** Disjoint sections of dictionaries read back, with nothing beside them, exactly when all of them are readable. */
  lemma SectionsReadBackIff(terminal: set<string>, sections: seq<Section>)
    requires SectionLines(terminal, sections).Ok? && Separate(sections)
    requires forall k :: 0 <= k < |sections| ==> Proper(terminal, sections[k])
    ensures
      var read := ReadLines(Reader([], [], {}), SectionLines(terminal, sections).value);
      (&& read.Some? && SectionsStand(terminal, read.value.tree, sections)
       && NothingElse(terminal, read.value.tree, sections))
      <==> forall k :: 0 <= k < |sections| ==> Readable(terminal, sections[k])
  {
    var r := Reader([], [], {});
    var read := ReadLines(r, SectionLines(terminal, sections).value);
    if forall k :: 0 <= k < |sections| ==> Readable(terminal, sections[k]) {
      forall k | 0 <= k < |sections| ensures SectionOk(terminal, sections[k], r) { ClearNothing(sections[k].path); }
      SectionsRead(terminal, sections, r);
      assert forall k :: 0 <= k < |sections| ==> Proper(terminal, sections[k]);
      GrowAllHolds(terminal, sections);
    } else if read.Some? && SectionsStand(terminal, read.value.tree, sections) {
      ReadingStaysBare(r, SectionLines(terminal, sections).value);
      forall k | 0 <= k < |sections| ensures Readable(terminal, sections[k]) {
        StandingIsReadable(terminal, sections[k], read.value.tree);
      }
    }
  }

  lemma {:induction false} PartIsBare(tree: Tree, path: Path)
    requires TreeBare(tree)
    ensures TreeBare(TableAt(tree, path))
    ensures TableAt(tree, path) != [] ==> BarePath(path)
    decreases |path|
  {
    if path != [] {
      var i := Find(tree, path[0]);
      if i < |tree| && tree[i].node.Sub? {
        PartIsBare(tree[i].node.items, path[1..]);
        assert path == [path[0]] + path[1..];
      }
    }
  }

  lemma StandingIsReadable(terminal: set<string>, s: Section, tree: Tree)
    requires Proper(terminal, s) && TreeBare(tree)
    requires TableAt(tree, s.path) == Normal(terminal, s.path, s.table)
    ensures Readable(terminal, s)
  {
    PartIsBare(tree, s.path);
    BareIsLegible(terminal, s.path, s.table);
  }

  /** The rendered manifest reads back (at the path of each section stands the table of that section without what
      holds nothing, and above the sections stand only the tables on their paths) exactly when every key that leaves a
      trace in it is bare. */
  lemma ManifestReadsBackIff(terminal: set<string>, names: Names, config: Config)
    requires NamesOk(names) && ConfigOk(terminal, names, config)
    requires SectionLines(terminal, Sections(names, config)).Ok?
    ensures
      var sections := Sections(names, config);
      var read := ReadLines(Reader([], [], {}), [Blank, Blank] + SectionLines(terminal, sections).value);
      (&& read.Some? && SectionsStand(terminal, read.value.tree, sections)
       && NothingElse(terminal, read.value.tree, sections))
      <==> forall k :: 0 <= k < |sections| ==> Readable(terminal, sections[k])
  {
    var r, sections := Reader([], [], {}), Sections(names, config);
    SectionsSeparate(terminal, names, config);
    SectionsReadBackIff(terminal, sections);
    ReadAppend(r, [Blank, Blank], SectionLines(terminal, sections).value);
    assert [Blank, Blank][1..] == [Blank] && [Blank][1..] == [];
  }
}
