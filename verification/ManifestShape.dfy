/** What the manifest printer prints, said of the lines themselves: which tables are inline, which have a header, and
    what stands under it. */
module ManifestShape {
  import opened Text
  import opened ManifestValues
  import opened ManifestTables

  // ---- Values ----

  /** The tokens of a value: one for a scalar, a bracketed list, or a braced list of pairs. */
  ghost predicate Written(v: Value, ts: seq<Token>)
    decreases v
  {
    match v
    case Str(s) => ts == [StringToken(s)]
    case Boolean(b) => ts == [BooleanToken(b)]
    case Number(n) => ts == [NumberToken(n)]
    case List(items) =>
      |ts| >= 2 && ts[0] == LeftBracket && ts[|ts| - 1] == RightBracket && WrittenItems(items, ts[1..|ts| - 1])
    case Dict(entries) =>
      |ts| >= 2 && ts[0] == LeftBrace && ts[|ts| - 1] == RightBrace && WrittenEntries(entries, ts[1..|ts| - 1])
    case Unsupported => false
  }

  /** Values with commas between them. */
  ghost predicate WrittenItems(items: seq<Value>, ts: seq<Token>)
    decreases items
  {
    if items == [] then ts == []
    else if |items| == 1 then Written(items[0], ts)
    else exists n ::
      0 <= n < |ts| && ts[n] == Comma && Written(items[0], ts[..n]) && WrittenItems(items[1..], ts[n + 1..])
  }

  ghost predicate WrittenEntries(entries: seq<Entry>, ts: seq<Token>)
    decreases entries
  {
    if entries == [] then ts == []
    else if |entries| == 1 then WrittenPair(entries[0], ts)
    else exists n ::
      0 <= n < |ts| && ts[n] == Comma && WrittenPair(entries[0], ts[..n]) && WrittenEntries(entries[1..], ts[n + 1..])
  }

  ghost predicate WrittenPair(e: Entry, ts: seq<Token>)
    decreases e
  {
    |ts| >= 2 && ts[0] == KeyToken(e.key) && ts[1] == Equals && Written(e.value, ts[2..])
  }

  lemma {:induction false} ValueIsWritten(v: Value)
    requires FormatValue(v).Ok?
    ensures Written(v, FormatValue(v).value)
    decreases v
  {
    match v
    case List(items) =>
      ItemsAreWritten(items);
      var ts := FormatItems(items).value;
      assert ([LeftBracket] + ts + [RightBracket])[1..|ts| + 1] == ts;
    case Dict(entries) =>
      EntriesAreWritten(entries);
      var ts := FormatEntries(entries).value;
      assert ([LeftBrace] + ts + [RightBrace])[1..|ts| + 1] == ts;
    case _ =>
  }

  lemma {:induction false} ItemsAreWritten(items: seq<Value>)
    requires FormatItems(items).Ok?
    ensures WrittenItems(items, FormatItems(items).value)
    decreases items
  {
    if items != [] {
      ValueIsWritten(items[0]);
      if |items| > 1 {
        var first, rest := FormatValue(items[0]).value, FormatItems(items[1..]).value;
        ItemsAreWritten(items[1..]);
        AtComma(first, rest);
      }
    }
  }

  lemma {:induction false} EntriesAreWritten(entries: seq<Entry>)
    requires FormatEntries(entries).Ok?
    ensures WrittenEntries(entries, FormatEntries(entries).value)
    decreases entries
  {
    if entries != [] {
      var value := FormatValue(entries[0].value).value;
      var pair := [KeyToken(entries[0].key), Equals] + value;
      ValueIsWritten(entries[0].value);
      assert pair[2..] == value;
      if |entries| > 1 {
        var rest := FormatEntries(entries[1..]).value;
        EntriesAreWritten(entries[1..]);
        AtComma(pair, rest);
      }
    }
  }

  lemma AtComma(first: seq<Token>, rest: seq<Token>)
    ensures
      var ts := first + [Comma] + rest;
      ts[|first|] == Comma && ts[..|first|] == first && ts[|first| + 1..] == rest
  {
  }

  // ---- Tables ----

  /** The entries that are no dictionaries, in order. */
  function NoDicts(table: seq<Entry>): seq<Entry> {
    if table == [] then []
    else
      var before, e := NoDicts(table[..|table| - 1]), table[|table| - 1];
      if e.value.Dict? then before else before + [e]
  }

  /** A header, one assignment per entry in order, and a blank line; or nothing for no entry. */
  ghost predicate Assigning(lines: seq<Line>, path: Path, entries: seq<Entry>) {
    if entries == [] then lines == []
    else
      && |lines| == |entries| + 2 && lines[0] == Header(Join(path)) && lines[|entries| + 1] == Blank
      && forall k :: 0 <= k < |entries| ==>
           lines[k + 1].Assign? && lines[k + 1].key == entries[k].key && Written(entries[k].value, lines[k + 1].tokens)
  }

  /** The lines of a table. Below a terminal name everything is assigned, dictionaries inline. Elsewhere the entries
      that are no dictionaries are assigned, and then each dictionary follows as a table of its own. */
  ghost predicate Printed(terminal: set<string>, path: Path, table: seq<Entry>, lines: seq<Line>)
    decreases table, 1
  {
    if |path| > 0 && path[|path| - 1] in terminal then Assigning(lines, path, table)
    else exists n :: 0 <= n <= |lines| && Assigning(lines[..n], path, NoDicts(table))
                     && Following(terminal, path, table, lines[n..])
  }

  ghost predicate Following(terminal: set<string>, path: Path, table: seq<Entry>, lines: seq<Line>)
    decreases table, 0
  {
    if table == [] then lines == []
    else if !table[0].value.Dict? then Following(terminal, path, table[1..], lines)
    else exists n :: 0 <= n <= |lines|
                     && Printed(terminal, path + [table[0].key], table[0].value.entries, lines[..n])
                     && Following(terminal, path, table[1..], lines[n..])
  }

  ghost predicate AllAssigned(assigns: seq<Line>, entries: seq<Entry>) {
    && |assigns| == |entries|
    && forall k :: 0 <= k < |entries| ==>
         assigns[k].Assign? && assigns[k].key == entries[k].key && Written(entries[k].value, assigns[k].tokens)
  }

  lemma {:induction false} EntriesAssigned(terminal: set<string>, path: Path, table: seq<Entry>)
    requires EntryLines(terminal, path, table).Ok?
    ensures AllAssigned(EntryLines(terminal, path, table).value,
                        if |path| > 0 && path[|path| - 1] in terminal then table else NoDicts(table))
  {
    if table != [] {
      EntriesAssigned(terminal, path, table[..|table| - 1]);
      if FormatValue(table[|table| - 1].value).Ok? { ValueIsWritten(table[|table| - 1].value); }
    }
  }

  lemma OwnAssigned(terminal: set<string>, path: Path, table: seq<Entry>)
    requires OwnLines(terminal, path, table).Ok?
    ensures Assigning(OwnLines(terminal, path, table).value, path,
                      if |path| > 0 && path[|path| - 1] in terminal then table else NoDicts(table))
  {
    EntriesAssigned(terminal, path, table);
    Framed(EntryLines(terminal, path, table).value, path,
           if |path| > 0 && path[|path| - 1] in terminal then table else NoDicts(table));
  }

  lemma Framed(assigns: seq<Line>, path: Path, entries: seq<Entry>)
    requires AllAssigned(assigns, entries)
    ensures Assigning(if assigns == [] then [] else [Header(Join(path))] + assigns + [Blank], path, entries)
  {
  }

  lemma {:induction false} NothingFollows(terminal: set<string>, path: Path, table: seq<Entry>)
    requires |path| > 0 && path[|path| - 1] in terminal
    ensures SubLines(terminal, path, table) == Ok([])
  {
    if table != [] {
      NothingFollows(terminal, path, table[1..]);
      var none: seq<Line> := [];
      assert none + none == none;
    }
  }

  /** The printer's lines are these. */
  lemma {:induction false} TableIsPrinted(terminal: set<string>, path: Path, table: seq<Entry>)
    requires TableLines(terminal, path, table).Ok?
    ensures Printed(terminal, path, table, TableLines(terminal, path, table).value)
    decreases table, 1
  {
    var own, subs := OwnLines(terminal, path, table).value, SubLines(terminal, path, table).value;
    OwnAssigned(terminal, path, table);
    if |path| > 0 && path[|path| - 1] in terminal {
      NothingFollows(terminal, path, table);
      assert own + subs == own;
    } else {
      SubsFollow(terminal, path, table);
      assert (own + subs)[..|own|] == own && (own + subs)[|own|..] == subs;
    }
  }

  lemma {:induction false} SubsFollow(terminal: set<string>, path: Path, table: seq<Entry>)
    requires !(|path| > 0 && path[|path| - 1] in terminal) && SubLines(terminal, path, table).Ok?
    ensures Following(terminal, path, table, SubLines(terminal, path, table).value)
    decreases table, 0
  {
    if table != [] {
      var first, rest := SubLine(terminal, path, table[0]).value, SubLines(terminal, path, table[1..]).value;
      SubsFollow(terminal, path, table[1..]);
      if table[0].value.Dict? {
        TableIsPrinted(terminal, path + [table[0].key], table[0].value.entries);
        assert (first + rest)[..|first|] == first && (first + rest)[|first|..] == rest;
      } else {
        assert first + rest == rest;
      }
    }
  }

  /** No value anywhere in the table is of a kind TOML cannot print. */
  ghost predicate AllSupported(table: seq<Entry>) {
    forall k :: 0 <= k < |table| ==> Supported(table[k].value)
  }

  /** A table is printed exactly when it holds no such value. */
  lemma {:induction false} TablePrintsIff(terminal: set<string>, path: Path, table: seq<Entry>)
    ensures TableLines(terminal, path, table).Ok? <==> AllSupported(table)
    decreases table, 1
  {
    EntriesPrintIff(terminal, path, table);
    SubsPrintIff(terminal, path, table);
  }

  lemma {:induction false} EntriesPrintIff(terminal: set<string>, path: Path, table: seq<Entry>)
    ensures EntryLines(terminal, path, table).Ok? <==>
              forall k :: 0 <= k < |table| && !IsSubtable(terminal, path, table[k]) ==> Supported(table[k].value)
  {
    if table != [] {
      var n := |table| - 1;
      EntriesPrintIff(terminal, path, table[..n]);
      FormatsIffSupported(table[n].value);
      assert forall k :: 0 <= k < n ==> table[..n][k] == table[k];
    }
  }

  lemma {:induction false} SubsPrintIff(terminal: set<string>, path: Path, table: seq<Entry>)
    ensures SubLines(terminal, path, table).Ok? <==>
              forall k :: 0 <= k < |table| && IsSubtable(terminal, path, table[k]) ==> Supported(table[k].value)
    decreases table, 0
  {
    if table != [] {
      var e, rest := table[0], table[1..];
      if IsSubtable(terminal, path, e) { TablePrintsIff(terminal, path + [e.key], e.value.entries); }
      SubsPrintIff(terminal, path, rest);
      assert forall k :: 0 <= k < |rest| ==> rest[k] == table[k + 1];
      assert forall k :: 0 < k < |table| ==> table[k] == rest[k - 1];
    }
  }
}
