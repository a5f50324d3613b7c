/** The headers of a printed manifest: with no dot in a key none is emitted twice, with a dot one may be. */
module ManifestHeaders {
  import opened Text
  import opened ManifestValues
  import opened ManifestTables
  import opened ManifestExact
  import opened ManifestMain

  // ---- No dot, no header twice ----

  predicate Dotless(path: Path) {
    forall k :: 0 <= k < |path| ==> '.' !in path[k]
  }

  /** The keys of the subtables, at every depth, hold no dot. Keys of values may. */
  predicate DotlessTable(terminal: set<string>, path: Path, table: seq<Entry>)
    decreases table
  {
    forall k :: 0 <= k < |table| && IsSubtable(terminal, path, table[k]) ==>
      '.' !in table[k].key && DotlessTable(terminal, path + [table[k].key], table[k].value.entries)
  }

  /** The path a header stands for. */
  function PathOf(line: Line): Path
    requires line.Header?
  {
    Split(line.text, '.')
  }

  ghost predicate HeadersDiffer(lines: seq<Line>) {
    forall i, j :: 0 <= i < j < |lines| && lines[i].Header? && lines[j].Header? ==> PathOf(lines[i]) != PathOf(lines[j])
  }

  ghost predicate HeadersBelow(lines: seq<Line>, path: Path) {
    forall i :: 0 <= i < |lines| && lines[i].Header? ==> path <= PathOf(lines[i])
  }

  /** Each header lies at or below a subtable of `table`. */
  ghost predicate HeadersInside(lines: seq<Line>, path: Path, table: seq<Entry>) {
    forall i :: 0 <= i < |lines| && lines[i].Header? ==>
      path < PathOf(lines[i]) && HasKey(table, PathOf(lines[i])[|path|])
  }

  lemma HeadersDifferAppend(a: seq<Line>, b: seq<Line>)
    requires HeadersDiffer(a) && HeadersDiffer(b)
    requires forall i, j :: 0 <= i < |a| && 0 <= j < |b| && a[i].Header? && b[j].Header? ==>
               PathOf(a[i]) != PathOf(b[j])
    ensures HeadersDiffer(a + b)
  {
    var lines := a + b;
    forall i, j | 0 <= i < j < |lines| && lines[i].Header? && lines[j].Header?
      ensures PathOf(lines[i]) != PathOf(lines[j])
    {
      if i < |a| <= j {
        assert lines[i] == a[i] && lines[j] == b[j - |a|];
      } else if j < |a| {
        assert lines[i] == a[i] && lines[j] == a[j];
      } else {
        assert lines[i] == b[i - |a|] && lines[j] == b[j - |a|];
      }
    }
  }

  lemma {:induction false} NoHeaders(terminal: set<string>, path: Path, table: seq<Entry>)
    requires EntryLines(terminal, path, table).Ok?
    ensures forall i :: 0 <= i < |EntryLines(terminal, path, table).value| ==>
              EntryLines(terminal, path, table).value[i].Assign?
  {
    if table != [] { NoHeaders(terminal, path, table[..|table| - 1]); }
  }

  /** A table's own lines have one header at most, its own. */
  lemma OwnHeader(terminal: set<string>, path: Path, table: seq<Entry>)
    requires OwnLines(terminal, path, table).Ok? && path != [] && Dotless(path)
    ensures HeadersDiffer(OwnLines(terminal, path, table).value)
    ensures forall i :: 0 <= i < |OwnLines(terminal, path, table).value| ==>
              OwnLines(terminal, path, table).value[i].Header? ==>
                PathOf(OwnLines(terminal, path, table).value[i]) == path
  {
    NoHeaders(terminal, path, table);
    JoinSplits(path);
  }

  lemma {:induction false} TableHeaders(terminal: set<string>, path: Path, table: seq<Entry>)
    requires TableLines(terminal, path, table).Ok? && path != [] && Dotless(path)
    requires IsDictionary(terminal, path, table) && DotlessTable(terminal, path, table)
    ensures HeadersDiffer(TableLines(terminal, path, table).value)
    ensures HeadersBelow(TableLines(terminal, path, table).value, path)
    decreases table, 1
  {
    OwnHeader(terminal, path, table);
    SubHeaders(terminal, path, table);
    HeadersDifferAppend(OwnLines(terminal, path, table).value, SubLines(terminal, path, table).value);
  }

  lemma {:induction false} SubHeaders(terminal: set<string>, path: Path, table: seq<Entry>)
    requires SubLines(terminal, path, table).Ok? && path != [] && Dotless(path)
    requires IsDictionary(terminal, path, table) && DotlessTable(terminal, path, table)
    ensures HeadersDiffer(SubLines(terminal, path, table).value)
    ensures HeadersInside(SubLines(terminal, path, table).value, path, table)
    decreases table, 0
  {
    if table != [] {
      var e, rest := table[0], table[1..];
      assert forall k :: 0 <= k < |rest| ==> rest[k] == table[k + 1];
      var first, others := SubLine(terminal, path, e).value, SubLines(terminal, path, rest).value;
      if IsSubtable(terminal, path, e) { TableHeaders(terminal, path + [e.key], e.value.entries); }
      SubHeaders(terminal, path, rest);
      InsideBoth(first, others, path, table);
    }
  }

  lemma InsideBoth(first: seq<Line>, others: seq<Line>, path: Path, table: seq<Entry>)
    requires table != [] && Distinct(table)
    requires HeadersDiffer(first) && HeadersBelow(first, path + [table[0].key])
    requires HeadersDiffer(others) && HeadersInside(others, path, table[1..])
    ensures HeadersDiffer(first + others) && HeadersInside(first + others, path, table)
  {
    var key, rest, lines := table[0].key, table[1..], first + others;
    forall i | 0 <= i < |first| && first[i].Header?
      ensures path < PathOf(first[i]) && PathOf(first[i])[|path|] == key
    {
      assert path + [key] <= PathOf(first[i]);
      assert (path + [key])[|path|] == key && (path + [key])[..|path|] == path;
    }
    assert !HasKey(rest, key) by { assert forall k :: 0 <= k < |rest| ==> rest[k] == table[k + 1]; }
    HeadersDifferAppend(first, others);
    forall i | 0 <= i < |lines| && lines[i].Header?
      ensures path < PathOf(lines[i]) && HasKey(table, PathOf(lines[i])[|path|])
    {
      if i < |first| {
        assert lines[i] == first[i] && table[0].key == PathOf(lines[i])[|path|];
      } else {
        assert lines[i] == others[i - |first|];
        var k :| 0 <= k < |rest| && rest[k].key == PathOf(lines[i])[|path|];
        assert table[k + 1] == rest[k];
      }
    }
  }

  /** No header is printed twice for a table whose path and whose subtables' keys hold no dot. */
  lemma TableHeadersDiffer(terminal: set<string>, path: Path, table: seq<Entry>, i: nat, j: nat)
    requires TableLines(terminal, path, table).Ok? && path != [] && Dotless(path)
    requires IsDictionary(terminal, path, table) && DotlessTable(terminal, path, table)
    requires
      var lines := TableLines(terminal, path, table).value;
      i < j < |lines| && lines[i].Header? && lines[j].Header?
    ensures
      var lines := TableLines(terminal, path, table).value;
      lines[i].text != lines[j].text
  {
    TableHeaders(terminal, path, table);
    assert PathOf(TableLines(terminal, path, table).value[i]) != PathOf(TableLines(terminal, path, table).value[j]);
  }

  // ---- The whole manifest ----

  predicate DotlessSection(terminal: set<string>, s: Section) {
    Dotless(s.path) && DotlessTable(terminal, s.path, s.table)
  }

  /** Each header lies at or below a section. */
  ghost predicate HeadersWithin(lines: seq<Line>, sections: seq<Section>) {
    forall i :: 0 <= i < |lines| && lines[i].Header? ==>
      exists k :: 0 <= k < |sections| && sections[k].path <= PathOf(lines[i])
  }

  lemma SectionsApart(first: seq<Line>, others: seq<Line>, sections: seq<Section>)
    requires sections != [] && Separate(sections)
    requires HeadersDiffer(first) && HeadersBelow(first, sections[0].path)
    requires HeadersDiffer(others) && HeadersWithin(others, sections[1..])
    ensures HeadersDiffer(first + others)
  {
    forall i, j | 0 <= i < |first| && 0 <= j < |others| && first[i].Header? && others[j].Header?
      ensures PathOf(first[i]) != PathOf(others[j])
    {
      var k :| 0 <= k < |sections[1..]| && sections[1..][k].path <= PathOf(others[j]);
      assert sections[1..][k] == sections[k + 1] && Disjoint(sections[0].path, sections[k + 1].path);
      PrefixesMeet(sections[0].path, sections[k + 1].path, PathOf(first[i]));
    }
    HeadersDifferAppend(first, others);
  }

  lemma WithinBoth(first: seq<Line>, others: seq<Line>, sections: seq<Section>)
    requires sections != [] && HeadersBelow(first, sections[0].path) && HeadersWithin(others, sections[1..])
    ensures HeadersWithin(first + others, sections)
  {
    var lines := first + others;
    forall i | 0 <= i < |lines| && lines[i].Header?
      ensures exists k :: 0 <= k < |sections| && sections[k].path <= PathOf(lines[i])
    {
      if i < |first| {
        assert lines[i] == first[i] && sections[0].path <= PathOf(lines[i]);
      } else {
        assert lines[i] == others[i - |first|];
        var k :| 0 <= k < |sections[1..]| && sections[1..][k].path <= PathOf(lines[i]);
        assert sections[k + 1] == sections[1..][k];
      }
    }
  }

  lemma {:induction false} SectionHeaders(terminal: set<string>, sections: seq<Section>)
    requires SectionLines(terminal, sections).Ok? && Separate(sections)
    requires forall k :: 0 <= k < |sections| ==> Proper(terminal, sections[k]) && DotlessSection(terminal, sections[k])
    ensures HeadersDiffer(SectionLines(terminal, sections).value)
    ensures HeadersWithin(SectionLines(terminal, sections).value, sections)
  {
    if sections != [] {
      var s, rest := sections[0], sections[1..];
      assert Proper(terminal, s) && DotlessSection(terminal, s);
      assert forall k :: 0 <= k < |rest| ==> rest[k] == sections[k + 1];
      var first, others := TableLines(terminal, s.path, s.table).value, SectionLines(terminal, rest).value;
      TableHeaders(terminal, s.path, s.table);
      SectionHeaders(terminal, rest);
      SectionsApart(first, others, sections);
      WithinBoth(first, others, sections);
    }
  }

  /** The rendered manifest has no header twice if its tables' keys hold no dot. */
  lemma ManifestHeadersDiffer(terminal: set<string>, names: Names, config: Config, i: nat, j: nat)
    requires NamesOk(names) && ConfigOk(terminal, names, config)
    requires SectionLines(terminal, Sections(names, config)).Ok?
    requires forall k :: 0 <= k < |Sections(names, config)| ==> DotlessSection(terminal, Sections(names, config)[k])
    requires
      var lines := SectionLines(terminal, Sections(names, config)).value;
      i < j < |lines| && lines[i].Header? && lines[j].Header?
    ensures
      var lines := SectionLines(terminal, Sections(names, config)).value;
      lines[i].text != lines[j].text
  {
    SectionsSeparate(terminal, names, config);
    SectionHeaders(terminal, Sections(names, config));
    var lines := SectionLines(terminal, Sections(names, config)).value;
    assert PathOf(lines[i]) != PathOf(lines[j]);
  }

  // ---- With a dot, possibly twice ----

  /** A table with a single value. */
  lemma OneValueLines(terminal: set<string>, path: Path, key: string, n: int)
    ensures TableLines(terminal, path, [Entry(key, Number(n))])
         == Ok([Header(Join(path)), Assign(key, [NumberToken(n)]), Blank])
  {
    var table := [Entry(key, Number(n))];
    SubLinesOne(terminal, path, table[0]);
    assert table[..0] == [];
    assert EntryLines(terminal, path, table[..0]) == Ok([]);
    assert [] + [Assign(key, [NumberToken(n)])] == [Assign(key, [NumberToken(n)])];
    var own := [Header(Join(path))] + [Assign(key, [NumberToken(n)])] + [Blank];
    assert OwnLines(terminal, path, table) == Ok(own);
    assert SubLines(terminal, path, table) == Ok([]);
    assert TableLines(terminal, path, table) == Ok(own + []);
    assert own + [] == own == [Header(Join(path)), Assign(key, [NumberToken(n)]), Blank];
  }

  /** A table with a single subtable prints as that subtable. */
  lemma OneSubtableLines(terminal: set<string>, path: Path, key: string, inner: seq<Entry>)
    requires ShouldDescend(terminal, path)
    ensures TableLines(terminal, path, [Entry(key, Dict(inner))]) == TableLines(terminal, path + [key], inner)
  {
    var table := [Entry(key, Dict(inner))];
    SubLinesOne(terminal, path, table[0]);
    assert table[..0] == [];
    assert EntryLines(terminal, path, table[..0]) == Ok([]);
    assert OwnLines(terminal, path, table) == Ok([]);
    var lines := TableLines(terminal, path + [key], inner);
    if lines.Ok? { assert [] + lines.value == lines.value; }
  }

  lemma {:induction false} JoinTwo(path: Path, a: string, b: string)
    ensures Join(path + [a, b]) == Join(path + [a + ['.'] + b])
  {
    if path == [] {
      assert [a, b][1..] == [b];
      assert path + [a, b] == [a, b] && path + [a + ['.'] + b] == [a + ['.'] + b];
    } else {
      JoinTwo(path[1..], a, b);
      assert (path + [a, b])[1..] == path[1..] + [a, b];
      assert (path + [a + ['.'] + b])[1..] == path[1..] + [a + ['.'] + b];
    }
  }

  /** With a dot in a key a header may be emitted twice: `a.b` next to a table `a` that holds a table `b`, for any two
      keys `a` and `b`. */
  lemma DottedKeyRepeatsHeader(terminal: set<string>, path: Path, a: string, b: string, n: int)
    requires ShouldDescend(terminal, path) && ShouldDescend(terminal, path + [a])
    ensures
      var value := Dict([Entry("x", Number(n))]);
      var table := [Entry(a, Dict([Entry(b, value)])), Entry(a + ['.'] + b, value)];
      var lines := TableLines(terminal, path, table);
      && lines.Ok? && |lines.value| == 6
      && lines.value[0] == lines.value[3] == Header(Join(path + [a, b]))
  {
    var value := Dict([Entry("x", Number(n))]);
    var first, second := Entry(a, Dict([Entry(b, value)])), Entry(a + ['.'] + b, value);
    var table := [first, second];
    assert path + [a] + [b] == path + [a, b];
    OneSubtableLines(terminal, path + [a], b, value.entries);
    OneValueLines(terminal, path + [a] + [b], "x", n);
    OneValueLines(terminal, path + [second.key], "x", n);
    JoinTwo(path, a, b);
    TwoSubtableLines(terminal, path, first, second);
  }

  lemma TwoSubtableLines(terminal: set<string>, path: Path, first: Entry, second: Entry)
    requires IsSubtable(terminal, path, first) && IsSubtable(terminal, path, second)
    requires SubLine(terminal, path, first).Ok? && SubLine(terminal, path, second).Ok?
    ensures TableLines(terminal, path, [first, second])
         == Ok(SubLine(terminal, path, first).value + SubLine(terminal, path, second).value)
  {
    var table := [first, second];
    assert table[..1] == [first] && [first][..0] == [];
    assert EntryLines(terminal, path, [first][..0]) == Ok([]);
    assert EntryLines(terminal, path, table[..1]) == Ok([]);
    assert OwnLines(terminal, path, table) == Ok([]);
    assert table == [first] + [second];
    SubLinesSplit(terminal, path, [first], [second]);
    SubLinesOne(terminal, path, first);
    SubLinesOne(terminal, path, second);
    var lines := SubLine(terminal, path, first).value + SubLine(terminal, path, second).value;
    assert SubLines(terminal, path, table) == Ok(lines);
    assert TableLines(terminal, path, table) == Ok([] + lines);
    assert [] + lines == lines;
  }
}
