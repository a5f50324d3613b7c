/** Values of the manifest printer of update_distributable_pixi.py, at the level of tokens: how `_format_value` prints
    them, and a reader for TOML v1.0.0 arrays and inline tables that gets them back. */
module ManifestValues {
  import opened Text

  datatype Value =
    | Str(text: string)
    | Boolean(flag: bool)
    | Number(number: int)
    | List(items: seq<Value>)
    | Dict(entries: seq<Entry>)
    | Unsupported

  datatype Entry = Entry(key: string, value: Value)

  /** A string token stands for a quoted string with its escapes. */
  datatype Token =
    | StringToken(text: string)
    | BooleanToken(flag: bool)
    | NumberToken(number: int)
    | KeyToken(key: string)
    | Equals
    | Comma
    | LeftBracket
    | RightBracket
    | LeftBrace
    | RightBrace

  datatype Error = UnsupportedValue

  predicate BareChar(c: char) {
    'a' <= c <= 'z' || 'A' <= c <= 'Z' || '0' <= c <= '9' || c == '_' || c == '-'
  }

  /** A bare key (section "Keys" of TOML v1.0.0). */
  predicate Bare(key: string) {
    |key| > 0 && forall c :: c in key ==> BareChar(c)
  }

  predicate HasKey(entries: seq<Entry>, key: string) {
    exists k :: 0 <= k < |entries| && entries[k].key == key
  }

  /** What a dictionary is, and its keys are bare, all the way down. */
  predicate KeysOk(v: Value)
    decreases v
  {
    match v
    case List(items) => forall k :: 0 <= k < |items| ==> KeysOk(items[k])
    case Dict(entries) => EntriesOk(entries)
    case _ => true
  }

  predicate EntriesOk(entries: seq<Entry>)
    decreases entries
  {
    entries == [] || (Bare(entries[0].key) && !HasKey(entries[1..], entries[0].key) && KeysOk(entries[0].value)
                      && EntriesOk(entries[1..]))
  }

  // ---- Printing ----

  predicate Opens(t: Token) {
    !t.RightBracket? && !t.RightBrace? && !t.Comma?
  }

  function FormatValue(v: Value): (r: Result<seq<Token>, Error>)
    decreases v
    ensures r.Ok? ==> |r.value| > 0 && Opens(r.value[0])
  {
    match v
    case Str(s) => Ok([StringToken(s)])
    case Boolean(b) => Ok([BooleanToken(b)])
    case Number(n) => Ok([NumberToken(n)])
    case List(items) => (
      match FormatItems(items)
      case Err(e) => Err(e)
      case Ok(ts) => Ok([LeftBracket] + ts + [RightBracket]))
    case Dict(entries) => (
      match FormatEntries(entries)
      case Err(e) => Err(e)
      case Ok(ts) => Ok([LeftBrace] + ts + [RightBrace]))
    case Unsupported => Err(UnsupportedValue)
  }

  function FormatItems(items: seq<Value>): Result<seq<Token>, Error>
    decreases items
  {
    if items == [] then Ok([])
    else match FormatValue(items[0])
      case Err(e) => Err(e)
      case Ok(first) =>
        if |items| == 1 then Ok(first)
        else match FormatItems(items[1..])
          case Err(e) => Err(e)
          case Ok(rest) => Ok(first + [Comma] + rest)
  }

  function FormatEntries(entries: seq<Entry>): Result<seq<Token>, Error>
    decreases entries
  {
    if entries == [] then Ok([])
    else match FormatValue(entries[0].value)
      case Err(e) => Err(e)
      case Ok(first) =>
        var pair := [KeyToken(entries[0].key), Equals] + first;
        if |entries| == 1 then Ok(pair)
        else match FormatEntries(entries[1..])
          case Err(e) => Err(e)
          case Ok(rest) => Ok(pair + [Comma] + rest)
  }

  // ---- Reading ----

  datatype Parsed<+T> = Parsed(value: T, rest: seq<Token>)

  function ParseValue(ts: seq<Token>): (r: Option<Parsed<Value>>)
    decreases |ts|, 1
    ensures r.Some? ==> |r.value.rest| < |ts|
  {
    if ts == [] then None
    else match ts[0]
      case StringToken(s) => Some(Parsed(Str(s), ts[1..]))
      case BooleanToken(b) => Some(Parsed(Boolean(b), ts[1..]))
      case NumberToken(n) => Some(Parsed(Number(n), ts[1..]))
      case LeftBracket => (
        match ParseItems(ts[1..])
        case None => None
        case Some(p) => Some(Parsed(List(p.value), p.rest)))
      case LeftBrace =>
        if |ts| > 1 && ts[1].RightBrace? then Some(Parsed(Dict([]), ts[2..]))
        else (
          match ParseEntries(ts[1..])
          case None => None
          case Some(p) => Some(Parsed(Dict(p.value), p.rest)))
      case _ => None
  }

  /** After an opening bracket: values separated by commas, one more comma allowed, and the closing bracket. */
  function ParseItems(ts: seq<Token>): (r: Option<Parsed<seq<Value>>>)
    decreases |ts|, 2
    ensures r.Some? ==> |r.value.rest| < |ts|
  {
    if ts == [] then None
    else if ts[0].RightBracket? then Some(Parsed([], ts[1..]))
    else match ParseValue(ts)
      case None => None
      case Some(p) =>
        if p.rest == [] then None
        else if p.rest[0].RightBracket? then Some(Parsed([p.value], p.rest[1..]))
        else if p.rest[0].Comma? then (
          match ParseItems(p.rest[1..])
          case None => None
          case Some(q) => Some(Parsed([p.value] + q.value, q.rest)))
        else None
  }

  /** After an opening brace: pairs separated by commas, bare keys, no key twice, and the closing brace. */
  function ParseEntries(ts: seq<Token>): (r: Option<Parsed<seq<Entry>>>)
    decreases |ts|, 2
    ensures r.Some? ==> |r.value.rest| < |ts|
  {
    if |ts| < 2 || !ts[0].KeyToken? || !ts[1].Equals? || !Bare(ts[0].key) then None
    else match ParseValue(ts[2..])
      case None => None
      case Some(p) =>
        var e := Entry(ts[0].key, p.value);
        if p.rest == [] then None
        else if p.rest[0].RightBrace? then Some(Parsed([e], p.rest[1..]))
        else if p.rest[0].Comma? then (
          match ParseEntries(p.rest[1..])
          case None => None
          case Some(q) => if HasKey(q.value, e.key) then None else Some(Parsed([e] + q.value, q.rest)))
        else None
  }

  // ---- What is printed reads back ----

  lemma {:induction false} ValueReadsBack(v: Value, rest: seq<Token>)
    requires KeysOk(v) && FormatValue(v).Ok?
    ensures ParseValue(FormatValue(v).value + rest) == Some(Parsed(v, rest))
    decreases v
  {
    var ts := FormatValue(v).value + rest;
    match v
    case List(items) =>
      var inner := FormatItems(items).value;
      assert ts[1..] == inner + ([RightBracket] + rest);
      ItemsReadBack(items, rest);
    case Dict(entries) =>
      var inner := FormatEntries(entries).value;
      assert ts[1..] == inner + ([RightBrace] + rest);
      if entries == [] {
        assert ts[2..] == rest;
      } else {
        EntriesReadBack(entries, rest);
        assert ts[1].KeyToken?;
      }
    case Str(_) => assert ts[1..] == rest;
    case Boolean(_) => assert ts[1..] == rest;
    case Number(_) => assert ts[1..] == rest;
    case Unsupported =>
  }

  lemma {:induction false} ItemsReadBack(items: seq<Value>, rest: seq<Token>)
    requires (forall k :: 0 <= k < |items| ==> KeysOk(items[k])) && FormatItems(items).Ok?
    ensures ParseItems(FormatItems(items).value + ([RightBracket] + rest)) == Some(Parsed(items, rest))
    decreases items
  {
    var ts := FormatItems(items).value + ([RightBracket] + rest);
    if items == [] {
      assert ts[1..] == rest;
    } else {
      var first := FormatValue(items[0]).value;
      assert ts[0] == first[0];
      if |items| == 1 {
        ValueReadsBack(items[0], [RightBracket] + rest);
        assert ([RightBracket] + rest)[1..] == rest && items == [items[0]];
      } else {
        var more := FormatItems(items[1..]).value + ([RightBracket] + rest);
        assert ts == first + ([Comma] + more);
        ValueReadsBack(items[0], [Comma] + more);
        assert ([Comma] + more)[1..] == more;
        ItemsReadBack(items[1..], rest);
        assert items == [items[0]] + items[1..];
      }
    }
  }

  lemma {:induction false} EntriesReadBack(entries: seq<Entry>, rest: seq<Token>)
    requires entries != [] && EntriesOk(entries) && FormatEntries(entries).Ok?
    ensures ParseEntries(FormatEntries(entries).value + ([RightBrace] + rest)) == Some(Parsed(entries, rest))
    ensures FormatEntries(entries).value != [] && FormatEntries(entries).value[0].KeyToken?
    decreases entries
  {
    if |entries| == 1 {
      ValueReadsBack(entries[0].value, [RightBrace] + rest);
      LastEntryReadsBack(entries[0], rest);
      assert entries == [entries[0]];
    } else {
      var more := FormatEntries(entries[1..]).value + ([RightBrace] + rest);
      ValueReadsBack(entries[0].value, [Comma] + more);
      EntriesReadBack(entries[1..], rest);
      NextEntryReadsBack(entries[0], more, entries[1..], rest);
      var pair := [KeyToken(entries[0].key), Equals] + FormatValue(entries[0].value).value;
      assert FormatEntries(entries).value + ([RightBrace] + rest) == pair + ([Comma] + more);
      assert entries == [entries[0]] + entries[1..];
    }
  }

  /** The last pair before the closing brace. */
  lemma LastEntryReadsBack(e: Entry, rest: seq<Token>)
    requires Bare(e.key) && FormatValue(e.value).Ok?
    requires ParseValue(FormatValue(e.value).value + ([RightBrace] + rest)) ==
      Some(Parsed(e.value, [RightBrace] + rest))
    ensures ParseEntries([KeyToken(e.key), Equals] + FormatValue(e.value).value + ([RightBrace] + rest))
         == Some(Parsed([e], rest))
  {
    var first := FormatValue(e.value).value;
    var ts := [KeyToken(e.key), Equals] + first + ([RightBrace] + rest);
    assert ts[2..] == first + ([RightBrace] + rest);
    assert ([RightBrace] + rest)[1..] == rest;
  }

  /** A pair followed by others. */
  lemma NextEntryReadsBack(e: Entry, more: seq<Token>, others: seq<Entry>, rest: seq<Token>)
    requires Bare(e.key) && FormatValue(e.value).Ok? && !HasKey(others, e.key)
    requires ParseValue(FormatValue(e.value).value + ([Comma] + more)) == Some(Parsed(e.value, [Comma] + more))
    requires ParseEntries(more) == Some(Parsed(others, rest))
    ensures ParseEntries([KeyToken(e.key), Equals] + FormatValue(e.value).value + ([Comma] + more))
         == Some(Parsed([e] + others, rest))
  {
    var first := FormatValue(e.value).value;
    var ts := [KeyToken(e.key), Equals] + first + ([Comma] + more);
    assert ts[2..] == first + ([Comma] + more);
    assert ([Comma] + more)[1..] == more;
  }

  // ---- What reads at all has bare keys ----

  /** Every value the reader accepts has bare keys, none twice, all the way down. */
  lemma {:induction false} ParsedKeysOk(ts: seq<Token>)
    ensures ParseValue(ts).Some? ==> KeysOk(ParseValue(ts).value.value)
    decreases |ts|, 1
  {
    if ts != [] && ts[0].LeftBracket? {
      ParsedItemsOk(ts[1..]);
    } else if |ts| > 1 && ts[0].LeftBrace? {
      ParsedEntriesOk(ts[1..]);
    }
  }

  lemma {:induction false} ParsedItemsOk(ts: seq<Token>)
    ensures ParseItems(ts).Some? ==> forall v :: v in ParseItems(ts).value.value ==> KeysOk(v)
    decreases |ts|, 2
  {
    if ts != [] && !ts[0].RightBracket? && ParseValue(ts).Some? {
      var rest := ParseValue(ts).value.rest;
      ParsedKeysOk(ts);
      if rest != [] && rest[0].Comma? { ParsedItemsOk(rest[1..]); }
    }
  }

  lemma {:induction false} ParsedEntriesOk(ts: seq<Token>)
    ensures ParseEntries(ts).Some? ==> EntriesOk(ParseEntries(ts).value.value)
    decreases |ts|, 2
  {
    if |ts| >= 2 && ParseValue(ts[2..]).Some? {
      var rest := ParseValue(ts[2..]).value.rest;
      ParsedKeysOk(ts[2..]);
      if rest != [] && rest[0].Comma? { ParsedEntriesOk(rest[1..]); }
    }
  }

  /** A printed value reads back exactly when every key inside it is bare (and none is there twice): the printer does
      not quote the keys of inline tables. */
  lemma ValueReadsBackIff(v: Value, rest: seq<Token>)
    requires FormatValue(v).Ok?
    ensures ParseValue(FormatValue(v).value + rest) == Some(Parsed(v, rest)) <==> KeysOk(v)
  {
    if KeysOk(v) { ValueReadsBack(v, rest); }
    ParsedKeysOk(FormatValue(v).value + rest);
  }

  /** No value of a kind TOML cannot print. */
  predicate Supported(v: Value)
    decreases v
  {
    match v
    case Unsupported => false
    case List(items) => forall k :: 0 <= k < |items| ==> Supported(items[k])
    case Dict(entries) => forall k :: 0 <= k < |entries| ==> Supported(entries[k].value)
    case _ => true
  }

  /** Printing fails exactly on a value that is, or holds, one of an unsupported kind. */
  lemma {:induction false} FormatsIffSupported(v: Value)
    ensures FormatValue(v).Ok? <==> Supported(v)
    decreases v
  {
    match v
    case List(items) => FormatsItems(items);
    case Dict(entries) => FormatsEntries(entries);
    case _ =>
  }

  lemma {:induction false} FormatsItems(items: seq<Value>)
    ensures FormatItems(items).Ok? <==> forall k :: 0 <= k < |items| ==> Supported(items[k])
    decreases items
  {
    if items != [] {
      FormatsIffSupported(items[0]);
      FormatsItems(items[1..]);
      assert items == [items[0]] + items[1..];
    }
  }

  lemma {:induction false} FormatsEntries(entries: seq<Entry>)
    ensures FormatEntries(entries).Ok? <==> forall k :: 0 <= k < |entries| ==> Supported(entries[k].value)
    decreases entries
  {
    if entries != [] {
      FormatsIffSupported(entries[0].value);
      FormatsEntries(entries[1..]);
      assert entries == [entries[0]] + entries[1..];
    }
  }
}
