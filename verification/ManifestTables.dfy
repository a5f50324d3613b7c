/** Tables of the manifest printer of update_distributable_pixi.py: `_append_table` over an ordered nested table, a
    reader for its lines, and the proof that what is printed reads back. */
module ManifestTables {
  import opened Text
  import opened ManifestValues

  type Path = seq<string>

  /** Header text is what stands between the brackets. */
  datatype Line = Header(text: string) | Assign(key: string, tokens: seq<Token>) | Blank

  // ---- Printing ----

  /** `'.'.join(path)`. */
  function Join(path: Path): string {
    if |path| == 0 then []
    else if |path| == 1 then path[0]
    else path[0] + ['.'] + Join(path[1..])
  }

  /** Tables below a table of one of the `terminal` names are printed inline. */
  predicate ShouldDescend(terminal: set<string>, path: Path) {
    path == [] || path[|path| - 1] !in terminal
  }

  predicate IsSubtable(terminal: set<string>, path: Path, e: Entry) {
    e.value.Dict? && ShouldDescend(terminal, path)
  }

  /** The assignments of a table, in order. */
  function EntryLines(terminal: set<string>, path: Path, table: seq<Entry>): Result<seq<Line>, Error> {
    if table == [] then Ok([])
    else
      var n := |table| - 1;
      match EntryLines(terminal, path, table[..n])
      case Err(e) => Err(e)
      case Ok(before) =>
        if IsSubtable(terminal, path, table[n]) then Ok(before)
        else match FormatValue(table[n].value)
          case Err(e) => Err(e)
          case Ok(tokens) => Ok(before + [Assign(table[n].key, tokens)])
  }

  /** The header and the assignments, if there is any assignment. */
  function OwnLines(terminal: set<string>, path: Path, table: seq<Entry>): Result<seq<Line>, Error> {
    match EntryLines(terminal, path, table)
    case Err(e) => Err(e)
    case Ok(assigns) => if assigns == [] then Ok([]) else Ok([Header(Join(path))] + assigns + [Blank])
  }

  /** The lines of a table: its own, then those of its subtables. */
  function TableLines(terminal: set<string>, path: Path, table: seq<Entry>): Result<seq<Line>, Error>
    decreases table, 1
  {
    match OwnLines(terminal, path, table)
    case Err(e) => Err(e)
    case Ok(own) =>
      match SubLines(terminal, path, table)
      case Err(e) => Err(e)
      case Ok(subs) => Ok(own + subs)
  }

  function SubLines(terminal: set<string>, path: Path, table: seq<Entry>): Result<seq<Line>, Error>
    decreases table, 0
  {
    if table == [] then Ok([])
    else
      match SubLine(terminal, path, table[0])
      case Err(e) => Err(e)
      case Ok(first) =>
        match SubLines(terminal, path, table[1..])
        case Err(e) => Err(e)
        case Ok(rest) => Ok(first + rest)
  }

  /** The lines of one entry that is a subtable, and none of any other. */
  function SubLine(terminal: set<string>, path: Path, e: Entry): Result<seq<Line>, Error>
    decreases e, 2
  {
    if IsSubtable(terminal, path, e) then TableLines(terminal, path + [e.key], e.value.entries) else Ok([])
  }

  // ---- Reading ----

  /** A table that was read: values, and subtables that headers opened. */
  datatype Node = Leaf(value: Value) | Sub(items: seq<Item>)
  datatype Item = Item(key: string, node: Node)

  type Tree = seq<Item>

  function Find(tree: Tree, key: string): (i: nat)
    ensures i <= |tree| && (i < |tree| ==> tree[i].key == key) && forall j :: 0 <= j < i ==> tree[j].key != key
  {
    if tree == [] || tree[0].key == key then 0 else 1 + Find(tree[1..], key)
  }

  predicate Has(tree: Tree, key: string) { Find(tree, key) < |tree| }

  /** Open the table at `path`, making the tables on the way; a value on the way is an error. */
  function Open(tree: Tree, path: Path): Option<Tree>
    decreases |path|
  {
    if path == [] then Some(tree)
    else
      var i := Find(tree, path[0]);
      if i == |tree| then
        match Open([], path[1..])
        case None => None
        case Some(sub) => Some(tree + [Item(path[0], Sub(sub))])
      else match tree[i].node
        case Leaf(_) => None
        case Sub(items) =>
          match Open(items, path[1..])
          case None => None
          case Some(sub) => Some(tree[i := Item(path[0], Sub(sub))])
  }

  /** Assign in the table at `path`, which is there; a key that is there already is an error. */
  function Set(tree: Tree, path: Path, key: string, v: Value): Option<Tree>
    decreases |path|
  {
    if path == [] then if Has(tree, key) then None else Some(tree + [Item(key, Leaf(v))])
    else
      var i := Find(tree, path[0]);
      if i == |tree| then None
      else match tree[i].node
        case Leaf(_) => None
        case Sub(items) =>
          match Set(items, path[1..], key, v)
          case None => None
          case Some(sub) => Some(tree[i := Item(path[0], Sub(sub))])
  }

  /** The tree so far, the table assignments go to, and the headers seen (section "Table" of TOML v1.0.0: no header
      twice). */
  datatype Reader = Reader(tree: Tree, current: Path, defined: set<Path>)

  predicate BarePath(path: Path) {
    forall k :: 0 <= k < |path| ==> Bare(path[k])
  }

  function ReadLine(r: Reader, line: Line): Option<Reader> {
    match line
    case Blank => Some(r)
    case Header(text) => (
      var path := Split(text, '.');
      if !BarePath(path) || path in r.defined then None
      else match Open(r.tree, path)
        case None => None
        case Some(tree) => Some(Reader(tree, path, r.defined + {path})))
    case Assign(key, tokens) => (
      if !Bare(key) then None
      else match ParseValue(tokens)
        case None => None
        case Some(p) =>
          if p.rest != [] then None
          else match Set(r.tree, r.current, key, p.value)
            case None => None
            case Some(tree) => Some(r.(tree := tree)))
  }

  function ReadLines(r: Reader, lines: seq<Line>): Option<Reader>
    decreases |lines|
  {
    if lines == [] then Some(r)
    else match ReadLine(r, lines[0])
      case None => None
      case Some(r') => ReadLines(r', lines[1..])
  }

  lemma {:induction false} ReadAppend(r: Reader, a: seq<Line>, b: seq<Line>)
    ensures ReadLines(r, a + b) == match ReadLines(r, a) case None => None case Some(r') => ReadLines(r', b)
    decreases |a|
  {
    if a == [] {
      assert a + b == b;
    } else {
      assert (a + b)[0] == a[0] && (a + b)[1..] == a[1..] + b;
      if ReadLine(r, a[0]).Some? { ReadAppend(ReadLine(r, a[0]).value, a[1..], b); }
    }
  }

  // ---- Headers ----

  lemma {:induction false} JoinSplits(path: Path)
    requires path != [] && forall k :: 0 <= k < |path| ==> '.' !in path[k]
    ensures Split(Join(path), '.') == path
  {
    SplitAtom(path[0], '.');
    if |path| == 1 {
      assert path == [path[0]];
    } else {
      JoinSplits(path[1..]);
      SplitConcat(path[0], '.', Join(path[1..]));
      assert path == [path[0]] + path[1..];
    }
  }

  lemma HeaderReadsBack(path: Path)
    requires path != [] && BarePath(path)
    ensures Split(Join(path), '.') == path
  {
    forall k | 0 <= k < |path| ensures '.' !in path[k] { assert Bare(path[k]); }
    JoinSplits(path);
  }

  // ---- What is read back ----

  /** The table as the reader has it: the values first, then the subtables that hold anything. */
  function Values(terminal: set<string>, path: Path, table: seq<Entry>): Tree {
    if table == [] then []
    else
      var n := |table| - 1;
      Values(terminal, path, table[..n]) + if IsSubtable(terminal, path, table[n]) then []
        else [Item(table[n].key, Leaf(table[n].value))]
  }

  function Normal(terminal: set<string>, path: Path, table: seq<Entry>): Tree
    decreases table, 1
  {
    Values(terminal, path, table) + Subtables(terminal, path, table)
  }

  function Subtables(terminal: set<string>, path: Path, table: seq<Entry>): Tree
    decreases table, 0
  {
    if table == [] then [] else Subtable(terminal, path, table[0]) + Subtables(terminal, path, table[1..])
  }

  function Subtable(terminal: set<string>, path: Path, e: Entry): Tree
    decreases e, 2
  {
    if !IsSubtable(terminal, path, e) then []
    else
      var inner := Normal(terminal, path + [e.key], e.value.entries);
      if inner == [] then [] else [Item(e.key, Sub(inner))]
  }

  /** The keys of a dictionary differ. */
  predicate Distinct(table: seq<Entry>) {
    forall i, j :: 0 <= i < j < |table| ==> table[i].key != table[j].key
  }

  /** Every key that leaves a trace in the printed lines is bare: those of the values, down through arrays and inline
      tables, and those of the subtables that hold anything. */
  predicate Legible(terminal: set<string>, path: Path, table: seq<Entry>)
    decreases table
  {
    && Distinct(table)
    && forall k :: 0 <= k < |table| ==>
         if IsSubtable(terminal, path, table[k]) then
           var inner := path + [table[k].key];
           && Legible(terminal, inner, table[k].value.entries)
           && (Normal(terminal, inner, table[k].value.entries) != [] ==> Bare(table[k].key))
         else Bare(table[k].key) && KeysOk(table[k].value)
  }

  /** `items` added to the table at `path`, making the tables on the way. */
  function Add(tree: Tree, path: Path, items: Tree): Tree
    decreases |path|
  {
    if path == [] then tree + items
    else
      var i := Find(tree, path[0]);
      if i == |tree| then tree + [Item(path[0], Sub(Add([], path[1..], items)))]
      else match tree[i].node
        case Leaf(_) => tree
        case Sub(inner) => tree[i := Item(path[0], Sub(Add(inner, path[1..], items)))]
  }

  /** No value is in the way of `path`. */
  predicate Clear(tree: Tree, path: Path)
    decreases |path|
  {
    path == [] ||
    (var i := Find(tree, path[0]);
     i < |tree| ==> tree[i].node.Sub? && Clear(tree[i].node.items, path[1..]))
  }

  /** The table at `path`, empty if there is none. */
  function TableAt(tree: Tree, path: Path): Tree
    decreases |path|
  {
    if path == [] then tree
    else
      var i := Find(tree, path[0]);
      if i < |tree| && tree[i].node.Sub? then TableAt(tree[i].node.items, path[1..]) else []
  }

  // ---- Facts about trees ----

  lemma FindChanged(tree: Tree, i: nat, node: Node, key: string)
    requires i < |tree|
    ensures Find(tree[i := Item(tree[i].key, node)], key) == Find(tree, key)
  {
    var t := tree[i := Item(tree[i].key, node)];
    assert forall j :: 0 <= j < |tree| ==> t[j].key == tree[j].key;
    var x, y := Find(t, key), Find(tree, key);
    assert x >= y && y >= x;
  }

  lemma FindAdded(tree: Tree, item: Item, key: string)
    ensures Find(tree + [item], key) ==
      if Has(tree, key) then Find(tree, key) else if item.key == key then |tree| else |tree| + 1
  {
    var t := tree + [item];
    var x, y := Find(t, key), Find(tree, key);
    assert y < |tree| ==> t[y] == tree[y];
    assert forall j :: 0 <= j < |tree| ==> t[j] == tree[j];
    assert t[|tree|] == item;
  }

  lemma FindTwo(a: Tree, b: Tree, key: string)
    requires !Has(a, key)
    ensures Find(a + b, key) == |a| + Find(b, key)
  {
    var t := a + b;
    var x, y := Find(t, key), Find(b, key);
    assert forall j :: 0 <= j < |a| ==> t[j] == a[j];
    assert forall j :: 0 <= j < |b| ==> t[|a| + j] == b[j];
    assert x < |t| ==> x >= |a| && b[x - |a|].key == key;
    assert y < |b| ==> t[|a| + y].key == key;
  }

  /** Opening a clear path adds nothing to the table there. */
  lemma {:induction false} OpenIsAdd(tree: Tree, path: Path)
    requires Clear(tree, path)
    ensures Open(tree, path) == Some(Add(tree, path, []))
    decreases |path|
  {
    if path == [] {
      assert tree + [] == tree;
    } else {
      var i := Find(tree, path[0]);
      if i == |tree| {
        ClearNothing(path[1..]);
        OpenIsAdd([], path[1..]);
      } else {
        OpenIsAdd(tree[i].node.items, path[1..]);
      }
    }
  }

  /** A printed header opens its table exactly when every key on its path is bare: the printer does not quote keys. */
  lemma HeaderReadsBackIff(r: Reader, path: Path)
    requires path != [] && path !in r.defined && Clear(r.tree, path)
    ensures ReadLine(r, Header(Join(path))).Some? && ReadLine(r, Header(Join(path))).value.current == path
            <==> BarePath(path)
  {
    if BarePath(path) {
      HeaderReadsBack(path);
      OpenIsAdd(r.tree, path);
    }
  }

  /** For instance, a header with a space in a key is rejected, though no key on it holds a dot. */
  lemma SpacedHeaderIsRejected()
    ensures ReadLine(Reader([], [], {}), Header(Join(["a b"]))) == None
  {
    var path := ["a b"];
    JoinSplits(path);
    assert path[0][1] == ' ' && ' ' in path[0];
    assert !Bare(path[0]);
  }

  lemma {:induction false} ClearNothing(path: Path)
    ensures Clear([], path) && TableAt([], path) == []
  {
  }

  /** After adding, the path is still clear, and the table there has the items. */
  lemma {:induction false} AddReaches(tree: Tree, path: Path, items: Tree)
    requires Clear(tree, path)
    ensures Clear(Add(tree, path, items), path)
    ensures TableAt(Add(tree, path, items), path) == TableAt(tree, path) + items
    decreases |path|
  {
    if path != [] {
      var i := Find(tree, path[0]);
      if i == |tree| {
        ClearNothing(path[1..]);
        AddReaches([], path[1..], items);
        FindAdded(tree, Item(path[0], Sub(Add([], path[1..], items))), path[0]);
      } else {
        var inner := tree[i].node.items;
        AddReaches(inner, path[1..], items);
        FindChanged(tree, i, Sub(Add(inner, path[1..], items)), path[0]);
      }
    }
  }

  /** Adding twice is adding once. */
  lemma {:induction false} AddTwice(tree: Tree, path: Path, a: Tree, b: Tree)
    requires Clear(tree, path)
    ensures Add(Add(tree, path, a), path, b) == Add(tree, path, a + b)
    decreases |path|
  {
    if path == [] {
      assert tree + a + b == tree + (a + b);
    } else {
      var i := Find(tree, path[0]);
      if i == |tree| {
        ClearNothing(path[1..]);
        AddTwice([], path[1..], a, b);
        FindAdded(tree, Item(path[0], Sub(Add([], path[1..], a))), path[0]);
        var t := tree + [Item(path[0], Sub(Add([], path[1..], a)))];
        assert t[i := Item(path[0], Sub(Add([], path[1..], a + b)))] ==
          tree + [Item(path[0], Sub(Add([], path[1..], a + b)))];
      } else {
        var inner := tree[i].node.items;
        AddTwice(inner, path[1..], a, b);
        FindChanged(tree, i, Sub(Add(inner, path[1..], a)), path[0]);
      }
    }
  }

  /** Assigning a new key adds it. */
  lemma {:induction false} SetIsAdd(tree: Tree, path: Path, key: string, v: Value, before: Tree)
    requires Clear(before, path) && tree == Add(before, path, [])
    requires !Has(TableAt(before, path), key)
    ensures Set(tree, path, key, v) == Some(Add(tree, path, [Item(key, Leaf(v))]))
    decreases |path|
  {
    if path == [] {
      assert tree == before;
    } else {
      var i := Find(before, path[0]);
      if i == |before| {
        ClearNothing(path[1..]);
        SetIsAdd(Add([], path[1..], []), path[1..], key, v, []);
        FindAdded(before, Item(path[0], Sub(Add([], path[1..], []))), path[0]);
      } else {
        var inner := before[i].node.items;
        SetIsAdd(Add(inner, path[1..], []), path[1..], key, v, inner);
        FindChanged(before, i, Sub(Add(inner, path[1..], [])), path[0]);
      }
    }
  }

  /** Adding below a new key adds a subtable of that key. */
  lemma {:induction false} AddBelow(tree: Tree, path: Path, key: string, items: Tree)
    requires Clear(tree, path) && !Has(TableAt(tree, path), key)
    ensures Clear(tree, path + [key]) && TableAt(tree, path + [key]) == []
    ensures Add(tree, path + [key], items) == Add(tree, path, [Item(key, Sub(items))])
    decreases |path|
  {
    var p := path + [key];
    if path == [] {
      assert p[0] == key && p[1..] == [];
      assert [] + items == items;
    } else {
      assert p[0] == path[0] && p[1..] == path[1..] + [key];
      var i := Find(tree, path[0]);
      if i == |tree| {
        ClearNothing(path[1..]);
        AddBelow([], path[1..], key, items);
      } else {
        AddBelow(tree[i].node.items, path[1..], key, items);
      }
    }
  }

  /** Adding nothing leaves even the path unmade. */
  function Grow(tree: Tree, path: Path, items: Tree): Tree {
    if items == [] then tree else Add(tree, path, items)
  }

  /** The keys of these entries are new in the table at a clear path. */
  ghost predicate Fresh(tree: Tree, path: Path, table: seq<Entry>) {
    Clear(tree, path) && forall k :: 0 <= k < |table| ==> !Has(TableAt(tree, path), table[k].key)
  }

  lemma GrowReaches(tree: Tree, path: Path, items: Tree)
    requires Clear(tree, path)
    ensures Clear(Grow(tree, path, items), path)
    ensures TableAt(Grow(tree, path, items), path) == TableAt(tree, path) + items
  {
    if items == [] {
      assert TableAt(tree, path) + items == TableAt(tree, path);
    } else {
      AddReaches(tree, path, items);
    }
  }

  lemma GrowTwice(tree: Tree, path: Path, a: Tree, b: Tree)
    requires Clear(tree, path)
    ensures Grow(Grow(tree, path, a), path, b) == Grow(tree, path, a + b)
  {
    if a == [] {
      assert a + b == b;
    } else if b == [] {
      assert a + b == a;
    } else {
      AddTwice(tree, path, a, b);
    }
  }

  // ---- The values of a table read back ----

  lemma LegibleAt(terminal: set<string>, path: Path, table: seq<Entry>, k: nat)
    requires Legible(terminal, path, table) && k < |table|
    ensures !IsSubtable(terminal, path, table[k]) ==> Bare(table[k].key) && KeysOk(table[k].value)
    ensures forall j :: 0 <= j < |table| && j != k ==> table[j].key != table[k].key
  {
  }

  lemma {:induction false} ValuesKeys(terminal: set<string>, path: Path, table: seq<Entry>, key: string)
    requires forall k :: 0 <= k < |table| ==> table[k].key != key
    ensures !Has(Values(terminal, path, table), key)
  {
    if table != [] {
      var n := |table| - 1;
      ValuesKeys(terminal, path, table[..n], key);
      if IsSubtable(terminal, path, table[n]) {
        assert Values(terminal, path, table) == Values(terminal, path, table[..n]);
      } else {
        FindAdded(Values(terminal, path, table[..n]), Item(table[n].key, Leaf(table[n].value)), key);
      }
    }
  }

  /** The table that assignments go to: open, clear, and a fixed point of opening. */
  predicate Ready(r: Reader, path: Path) {
    r.current == path && Clear(r.tree, path) && Add(r.tree, path, []) == r.tree
  }

  lemma StaysReady(r: Reader, path: Path, items: Tree)
    requires Ready(r, path)
    ensures Ready(r.(tree := Add(r.tree, path, items)), path)
  {
    AddReaches(r.tree, path, items);
    AddTwice(r.tree, path, items, []);
    assert items + [] == items;
  }

  lemma AssignReads(r: Reader, path: Path, e: Entry)
    requires Ready(r, path) && Bare(e.key) && KeysOk(e.value) && FormatValue(e.value).Ok?
    requires !Has(TableAt(r.tree, path), e.key)
    ensures ReadLine(r, Assign(e.key, FormatValue(e.value).value)) ==
      Some(r.(tree := Add(r.tree, path, [Item(e.key, Leaf(e.value))])))
  {
    var tokens := FormatValue(e.value).value;
    ValueReadsBack(e.value, []);
    assert tokens + [] == tokens;
    SetIsAdd(r.tree, path, e.key, e.value, r.tree);
  }

  /** A printed assignment reads back exactly when its key, and every key inside its value, is bare. */
  lemma AssignReadsBackIff(r: Reader, path: Path, e: Entry)
    requires Ready(r, path) && FormatValue(e.value).Ok? && !Has(TableAt(r.tree, path), e.key)
    ensures ReadLine(r, Assign(e.key, FormatValue(e.value).value))
            == Some(r.(tree := Add(r.tree, path, [Item(e.key, Leaf(e.value))])))
            <==> Bare(e.key) && KeysOk(e.value)
  {
    var tokens, wanted := FormatValue(e.value).value, [Item(e.key, Leaf(e.value))];
    if Bare(e.key) && KeysOk(e.value) {
      AssignReads(r, path, e);
    } else if Bare(e.key) && ParseValue(tokens).Some? {
      var read := [Item(e.key, Leaf(ParseValue(tokens).value.value))];
      ParsedKeysOk(tokens);
      SetIsAdd(r.tree, path, e.key, read[0].node.value, r.tree);
      AddReaches(r.tree, path, read);
      AddReaches(r.tree, path, wanted);
      assert (TableAt(r.tree, path) + read)[|TableAt(r.tree, path)|] == read[0];
      assert (TableAt(r.tree, path) + wanted)[|TableAt(r.tree, path)|] == wanted[0];
    }
  }

  lemma ReadSnoc(r: Reader, lines: seq<Line>, line: Line)
    ensures ReadLines(r, lines + [line]) ==
      match ReadLines(r, lines) case None => None case Some(r') => ReadLine(r', line)
  {
    ReadAppend(r, lines, [line]);
    match ReadLines(r, lines)
    case None =>
    case Some(r') =>
      assert [line][1..] == [];
  }

  lemma {:induction false} EntriesRead(terminal: set<string>, path: Path, table: seq<Entry>, r: Reader, n: nat)
    requires Legible(terminal, path, table) && n <= |table| && EntryLines(terminal, path, table[..n]).Ok?
    requires Ready(r, path) && Fresh(r.tree, path, table)
    ensures ReadLines(r, EntryLines(terminal, path, table[..n]).value)
         == Some(r.(tree := Add(r.tree, path, Values(terminal, path, table[..n]))))
    ensures EntryLines(terminal, path, table[..n]).value == [] <==> Values(terminal, path, table[..n]) == []
  {
    if n > 0 {
      assert table[..n][..n - 1] == table[..n - 1];
      EntriesRead(terminal, path, table, r, n - 1);
      if IsSubtable(terminal, path, table[n - 1]) {
        assert Values(terminal, path, table[..n]) == Values(terminal, path, table[..n - 1]);
      } else {
        OneMoreRead(terminal, path, table, r, n);
      }
    } else {
      assert table[..n] == [];
    }
  }

  lemma OneMoreRead(terminal: set<string>, path: Path, table: seq<Entry>, r: Reader, n: nat)
    requires Legible(terminal, path, table) && 0 < n <= |table| && EntryLines(terminal, path, table[..n]).Ok?
    requires Ready(r, path) && Fresh(r.tree, path, table) && !IsSubtable(terminal, path, table[n - 1])
    requires EntryLines(terminal, path, table[..n - 1]).Ok?
    requires ReadLines(r, EntryLines(terminal, path, table[..n - 1]).value)
          == Some(r.(tree := Add(r.tree, path, Values(terminal, path, table[..n - 1]))))
    ensures ReadLines(r, EntryLines(terminal, path, table[..n]).value)
         == Some(r.(tree := Add(r.tree, path, Values(terminal, path, table[..n]))))
  {
    var e, before := table[n - 1], Values(terminal, path, table[..n - 1]);
    var r1 := r.(tree := Add(r.tree, path, before));
    assert table[..n][..n - 1] == table[..n - 1];
    LegibleAt(terminal, path, table, n - 1);
    StaysReady(r, path, before);
    ValuesKeys(terminal, path, table[..n - 1], e.key);
    AddReaches(r.tree, path, before);
    FindTwo(TableAt(r.tree, path), before, e.key);
    AssignReads(r1, path, e);
    ReadSnoc(r, EntryLines(terminal, path, table[..n - 1]).value, Assign(e.key, FormatValue(e.value).value));
    AddTwice(r.tree, path, before, [Item(e.key, Leaf(e.value))]);
  }

  lemma StaysOpen(tree: Tree, path: Path)
    requires Clear(tree, path)
    ensures Add(Add(tree, path, []), path, []) == Add(tree, path, [])
  {
    var nothing: Tree := [];
    AddTwice(tree, path, nothing, nothing);
    assert nothing + nothing == nothing;
  }

  /** A table's own lines read back as its values. */
  lemma OwnReads(terminal: set<string>, path: Path, table: seq<Entry>, r: Reader)
    requires Legible(terminal, path, table) && OwnLines(terminal, path, table).Ok?
    requires path != [] && (Values(terminal, path, table) != [] ==> BarePath(path))
    requires path !in r.defined && Fresh(r.tree, path, table)
    ensures
      var values, read := Values(terminal, path, table), ReadLines(r, OwnLines(terminal, path, table).value);
      && read.Some? && read.value.tree == Grow(r.tree, path, values)
      && read.value.defined == if values == [] then r.defined else r.defined + {path}
  {
    assert table[..|table|] == table;
    var assigns := EntryLines(terminal, path, table).value;
    var r0 := Reader(Add(r.tree, path, []), path, r.defined + {path});
    OpenIsAdd(r.tree, path);
    AddReaches(r.tree, path, []);
    assert TableAt(r.tree, path) + [] == TableAt(r.tree, path);
    StaysOpen(r.tree, path);
    assert Ready(r0, path) && Fresh(r0.tree, path, table);
    EntriesRead(terminal, path, table, r0, |table|);
    if assigns != [] {
      HeaderReadsBack(path);
      var lines := [Header(Join(path))] + assigns;
      assert lines[1..] == assigns;
      ReadSnoc(r, lines, Blank);
      AddTwice(r.tree, path, [], Values(terminal, path, table));
      assert [] + Values(terminal, path, table) == Values(terminal, path, table);
    }
  }

  // ---- Whole tables read back ----

  predicate NoneUnder(defined: set<Path>, path: Path) {
    forall d :: d in defined ==> !(path <= d)
  }

  /** Reading added headers at or below `path` only. */
  predicate OnlyUnder(defined: set<Path>, defined': set<Path>, path: Path) {
    forall d :: d in defined' ==> d in defined || path <= d
  }

  lemma SubtableKeys(terminal: set<string>, path: Path, e: Entry, key: string)
    requires e.key != key
    ensures !Has(Subtable(terminal, path, e), key)
  {
  }

  /** The lines of a table read back as that table, values first and without what holds no value at all. */
  lemma {:induction false} TableReads(terminal: set<string>, path: Path, table: seq<Entry>, r: Reader)
    requires Legible(terminal, path, table) && TableLines(terminal, path, table).Ok?
    requires path != [] && (Normal(terminal, path, table) != [] ==> BarePath(path))
    requires NoneUnder(r.defined, path) && Fresh(r.tree, path, table)
    ensures
      var read := ReadLines(r, TableLines(terminal, path, table).value);
      && read.Some? && read.value.tree == Grow(r.tree, path, Normal(terminal, path, table))
      && OnlyUnder(r.defined, read.value.defined, path)
    decreases table, 1
  {
    OwnReads(terminal, path, table, r);
    var own := OwnLines(terminal, path, table).value;
    var r1, values := ReadLines(r, own).value, Values(terminal, path, table);
    ReadAppend(r, own, SubLines(terminal, path, table).value);
    OwnLeavesRoom(terminal, path, table, r, r1);
    SubsRead(terminal, path, table, r1);
    GrowTwice(r.tree, path, values, Subtables(terminal, path, table));
  }

  /** The subtables of a table are still to be opened once its values are read. */
  lemma OwnLeavesRoom(terminal: set<string>, path: Path, table: seq<Entry>, r: Reader, r1: Reader)
    requires Distinct(table) && Fresh(r.tree, path, table) && NoneUnder(r.defined, path)
    requires r1.tree == Grow(r.tree, path, Values(terminal, path, table)) && r1.defined <= r.defined + {path}
    ensures Room(terminal, path, table, r1)
  {
    GrowReaches(r.tree, path, Values(terminal, path, table));
    forall k | 0 <= k < |table| && IsSubtable(terminal, path, table[k])
      ensures !Has(TableAt(r1.tree, path), table[k].key) && NoneUnder(r1.defined, path + [table[k].key])
    {
      OwnSkips(terminal, path, table, TableAt(r.tree, path), k);
    }
  }

  lemma OwnSkips(terminal: set<string>, path: Path, table: seq<Entry>, before: Tree, k: nat)
    requires Distinct(table) && k < |table| && IsSubtable(terminal, path, table[k]) && !Has(before, table[k].key)
    ensures !Has(before + Values(terminal, path, table), table[k].key)
  {
    ValuesSkip(terminal, path, table, k, |table|);
    assert table[..|table|] == table;
    FindTwo(before, Values(terminal, path, table), table[k].key);
  }

  /** The key of a subtable is not among the values. */
  lemma {:induction false} ValuesSkip(terminal: set<string>, path: Path, table: seq<Entry>, k: nat, n: nat)
    requires Distinct(table) && k < |table| && n <= |table| && IsSubtable(terminal, path, table[k])
    ensures !Has(Values(terminal, path, table[..n]), table[k].key)
  {
    if n > 0 {
      assert table[..n][..n - 1] == table[..n - 1];
      ValuesSkip(terminal, path, table, k, n - 1);
      var before := Values(terminal, path, table[..n - 1]);
      if IsSubtable(terminal, path, table[n - 1]) {
        assert Values(terminal, path, table[..n]) == before;
      } else {
        FindAdded(before, Item(table[n - 1].key, Leaf(table[n - 1].value)), table[k].key);
      }
    }
  }

  /** The subtables among these entries may be opened: their keys are new, and no header names them yet. */
  ghost predicate Room(terminal: set<string>, path: Path, table: seq<Entry>, r: Reader) {
    && Clear(r.tree, path)
    && forall k :: 0 <= k < |table| && IsSubtable(terminal, path, table[k]) ==>
         !Has(TableAt(r.tree, path), table[k].key) && NoneUnder(r.defined, path + [table[k].key])
  }

  lemma {:induction false} SubsRead(terminal: set<string>, path: Path, table: seq<Entry>, r: Reader)
    requires Legible(terminal, path, table) && SubLines(terminal, path, table).Ok?
    requires (Subtables(terminal, path, table) != [] ==> BarePath(path)) && Room(terminal, path, table, r)
    ensures
      var read := ReadLines(r, SubLines(terminal, path, table).value);
      && read.Some? && read.value.tree == Grow(r.tree, path, Subtables(terminal, path, table))
      && OnlyUnder(r.defined, read.value.defined, path)
    decreases table, 0
  {
    if table != [] {
      var e := table[0];
      LegibleRest(terminal, path, table);
      SubRead(terminal, path, e, r);
      var first := SubLine(terminal, path, e).value;
      var r1 := ReadLines(r, first).value;
      ReadAppend(r, first, SubLines(terminal, path, table[1..]).value);
      RoomLeft(terminal, path, table, r, r1);
      SubsRead(terminal, path, table[1..], r1);
      GrowTwice(r.tree, path, Subtable(terminal, path, e), Subtables(terminal, path, table[1..]));
    }
  }

  lemma LegibleRest(terminal: set<string>, path: Path, table: seq<Entry>)
    requires Legible(terminal, path, table) && table != []
    ensures Legible(terminal, path, table[1..])
    ensures Subtable(terminal, path, table[0]) != [] ==> Bare(table[0].key)
    ensures IsSubtable(terminal, path, table[0]) ==>
              Legible(terminal, path + [table[0].key], table[0].value.entries)
  {
    assert forall k :: 0 <= k < |table[1..]| ==> table[1..][k] == table[k + 1];
  }

  lemma Apart(path: Path, a: string, b: string, d: Path)
    requires a != b && path + [a] <= d
    ensures !(path + [b] <= d)
  {
    assert d[|path|] == (path + [a])[|path|] == a;
    assert (path + [b])[|path|] == b;
  }

  lemma RoomLeft(terminal: set<string>, path: Path, table: seq<Entry>, r: Reader, r1: Reader)
    requires table != [] && Distinct(table) && Room(terminal, path, table, r)
    requires r1.tree == Grow(r.tree, path, Subtable(terminal, path, table[0]))
    requires OnlyUnder(r.defined, r1.defined, path + [table[0].key])
    ensures Room(terminal, path, table[1..], r1)
  {
    var e, rest := table[0], table[1..];
    GrowReaches(r.tree, path, Subtable(terminal, path, e));
    forall k | 0 <= k < |rest| && IsSubtable(terminal, path, rest[k])
      ensures !Has(TableAt(r1.tree, path), rest[k].key) && NoneUnder(r1.defined, path + [rest[k].key])
    {
      assert rest[k] == table[k + 1] && e.key != rest[k].key;
      SubtableKeys(terminal, path, e, rest[k].key);
      FindTwo(TableAt(r.tree, path), Subtable(terminal, path, e), rest[k].key);
      forall d | d in r1.defined ensures !(path + [rest[k].key] <= d) {
        if d !in r.defined { Apart(path, e.key, rest[k].key, d); }
      }
    }
  }

  lemma {:induction false} SubRead(terminal: set<string>, path: Path, e: Entry, r: Reader)
    requires SubLine(terminal, path, e).Ok? && Clear(r.tree, path)
    requires IsSubtable(terminal, path, e) ==> Legible(terminal, path + [e.key], e.value.entries)
    requires Subtable(terminal, path, e) != [] ==> BarePath(path) && Bare(e.key)
    requires IsSubtable(terminal, path, e) ==>
      !Has(TableAt(r.tree, path), e.key) && NoneUnder(r.defined, path + [e.key])
    ensures
      var read := ReadLines(r, SubLine(terminal, path, e).value);
      && read.Some? && read.value.tree == Grow(r.tree, path, Subtable(terminal, path, e))
      && OnlyUnder(r.defined, read.value.defined, path + [e.key])
    decreases e, 2
  {
    if IsSubtable(terminal, path, e) {
      var inner := Normal(terminal, path + [e.key], e.value.entries);
      AddBelow(r.tree, path, e.key, inner);
      TableReads(terminal, path + [e.key], e.value.entries, r);
    }
  }
}
