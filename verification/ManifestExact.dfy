/** Exactly when a printed table reads back: when every key that leaves a trace is bare. */
module ManifestExact {
  import opened Text
  import opened ManifestValues
  import opened ManifestTables

  /** What a dictionary is: the keys differ, here and in every subtable. */
  predicate IsDictionary(terminal: set<string>, path: Path, table: seq<Entry>)
    decreases table
  {
    && Distinct(table)
    && forall k :: 0 <= k < |table| && IsSubtable(terminal, path, table[k]) ==>
         IsDictionary(terminal, path + [table[k].key], table[k].value.entries)
  }

  /** Every key of a table that was read is bare, those inside its values too. */
  predicate TreeBare(tree: Tree)
    decreases tree
  {
    forall k :: 0 <= k < |tree| ==>
      && Bare(tree[k].key)
      && match tree[k].node
         case Leaf(v) => KeysOk(v)
         case Sub(items) => TreeBare(items)
  }

  // ---- The reader makes only such tables ----

  lemma {:induction false} OpenStaysBare(tree: Tree, path: Path)
    requires TreeBare(tree) && BarePath(path) && Open(tree, path).Some?
    ensures TreeBare(Open(tree, path).value)
    decreases |path|
  {
    if path != [] {
      var i := Find(tree, path[0]);
      assert Bare(path[0]);
      if i == |tree| {
        OpenStaysBare([], path[1..]);
      } else {
        OpenStaysBare(tree[i].node.items, path[1..]);
      }
    }
  }

  lemma {:induction false} SetStaysBare(tree: Tree, path: Path, key: string, v: Value)
    requires TreeBare(tree) && Bare(key) && KeysOk(v) && Set(tree, path, key, v).Some?
    ensures TreeBare(Set(tree, path, key, v).value)
    decreases |path|
  {
    if path != [] {
      var i := Find(tree, path[0]);
      SetStaysBare(tree[i].node.items, path[1..], key, v);
    }
  }

  lemma {:induction false} ReadingStaysBare(r: Reader, lines: seq<Line>)
    requires TreeBare(r.tree) && ReadLines(r, lines).Some?
    ensures TreeBare(ReadLines(r, lines).value.tree)
    decreases |lines|
  {
    if lines != [] {
      match lines[0] {
        case Header(text) => OpenStaysBare(r.tree, Split(text, '.'));
        case Assign(key, tokens) =>
          ParsedKeysOk(tokens);
          SetStaysBare(r.tree, r.current, key, ParseValue(tokens).value.value);
        case Blank =>
      }
      ReadingStaysBare(ReadLine(r, lines[0]).value, lines[1..]);
    }
  }

  // ---- So what they hold came from bare keys ----

  lemma {:induction false} AddedAreBare(tree: Tree, path: Path, items: Tree)
    requires Clear(tree, path) && TreeBare(Add(tree, path, items))
    ensures BarePath(path) && TreeBare(items)
    decreases |path|
  {
    var t := Add(tree, path, items);
    if path == [] {
      forall k | 0 <= k < |items| ensures items[k] == t[|tree| + k] { }
    } else {
      var i := Find(tree, path[0]);
      assert t[i].key == path[0];
      if i == |tree| {
        ClearNothing(path[1..]);
        AddedAreBare([], path[1..], items);
      } else {
        AddedAreBare(tree[i].node.items, path[1..], items);
      }
      assert path == [path[0]] + path[1..];
    }
  }

  lemma BareParts(a: Tree, b: Tree)
    requires TreeBare(a + b)
    ensures TreeBare(a) && TreeBare(b)
  {
    assert forall k :: 0 <= k < |a| ==> (a + b)[k] == a[k];
    assert forall k :: 0 <= k < |b| ==> (a + b)[|a| + k] == b[k];
  }

  /** A value among bare ones has a bare key. */
  lemma {:induction false} ValueIsBare(terminal: set<string>, path: Path, table: seq<Entry>, k: nat)
    requires TreeBare(Values(terminal, path, table)) && k < |table| && !IsSubtable(terminal, path, table[k])
    ensures Bare(table[k].key) && KeysOk(table[k].value)
  {
    var n := |table| - 1;
    var last := if IsSubtable(terminal, path, table[n]) then [] else [Item(table[n].key, Leaf(table[n].value))];
    BareParts(Values(terminal, path, table[..n]), last);
    if k < n {
      ValueIsBare(terminal, path, table[..n], k);
    } else {
      assert last[0].key == table[k].key;
    }
  }

  /** A subtable among bare ones is bare itself, and has a bare key if it holds anything. */
  lemma {:induction false} SubtableIsBare(terminal: set<string>, path: Path, table: seq<Entry>, k: nat)
    requires TreeBare(Subtables(terminal, path, table)) && k < |table| && IsSubtable(terminal, path, table[k])
    ensures
      var inner := Normal(terminal, path + [table[k].key], table[k].value.entries);
      TreeBare(inner) && (inner != [] ==> Bare(table[k].key))
  {
    BareParts(Subtable(terminal, path, table[0]), Subtables(terminal, path, table[1..]));
    if k == 0 {
      var inner := Normal(terminal, path + [table[0].key], table[0].value.entries);
      if inner != [] { assert Subtable(terminal, path, table[0])[0] == Item(table[0].key, Sub(inner)); }
    } else {
      SubtableIsBare(terminal, path, table[1..], k - 1);
    }
  }

  /** A dictionary whose normal form is bare is legible. */
  lemma {:induction false} BareIsLegible(terminal: set<string>, path: Path, table: seq<Entry>)
    requires IsDictionary(terminal, path, table) && TreeBare(Normal(terminal, path, table))
    ensures Legible(terminal, path, table)
    decreases table
  {
    BareParts(Values(terminal, path, table), Subtables(terminal, path, table));
    forall k | 0 <= k < |table| && !IsSubtable(terminal, path, table[k])
      ensures Bare(table[k].key) && KeysOk(table[k].value)
    {
      ValueIsBare(terminal, path, table, k);
    }
    forall k | 0 <= k < |table| && IsSubtable(terminal, path, table[k])
      ensures Legible(terminal, path + [table[k].key], table[k].value.entries)
      ensures Normal(terminal, path + [table[k].key], table[k].value.entries) != [] ==> Bare(table[k].key)
    {
      SubtableIsBare(terminal, path, table, k);
      BareIsLegible(terminal, path + [table[k].key], table[k].value.entries);
    }
  }

  /** The printed lines of a dictionary read back as that dictionary exactly when every key that leaves a trace in
      them is bare. The printer does not quote keys, so with any other key they are rejected or read as something
      else. */
  lemma TableReadsBackIff(terminal: set<string>, path: Path, table: seq<Entry>, r: Reader)
    requires IsDictionary(terminal, path, table) && TableLines(terminal, path, table).Ok?
    requires path != [] && NoneUnder(r.defined, path) && Fresh(r.tree, path, table) && TreeBare(r.tree)
    ensures
      var read, normal := ReadLines(r, TableLines(terminal, path, table).value), Normal(terminal, path, table);
      read.Some? && read.value.tree == Grow(r.tree, path, normal)
      <==> Legible(terminal, path, table) && (normal != [] ==> BarePath(path))
  {
    var read, normal := ReadLines(r, TableLines(terminal, path, table).value), Normal(terminal, path, table);
    if Legible(terminal, path, table) && (normal != [] ==> BarePath(path)) {
      TableReads(terminal, path, table, r);
    }
    if read.Some? && read.value.tree == Grow(r.tree, path, normal) {
      ReadingStaysBare(r, TableLines(terminal, path, table).value);
      if normal != [] { AddedAreBare(r.tree, path, normal); }
      BareIsLegible(terminal, path, table);
    }
  }
}
