/** The progress file of operate_nvcf_functions.py and the job list built from it. */
module NvcfProgress {
  import opened Text
  import opened OrderedDict
  import opened NvcfWorker

  predicate IsBreak(c: char) { c == '\n' || c == '\r' }

  /** A text as universal newlines mode reads it, except that "\r\n" becomes two line breaks, which only adds a
      blank line. */
  function Normalized(text: string): (n: string)
    ensures |n| == |text| && forall k :: 0 <= k < |n| ==> n[k] == if IsBreak(text[k]) then '\n' else text[k]
  {
    seq(|text|, k requires 0 <= k < |text| => if IsBreak(text[k]) then '\n' else text[k])
  }

  function Lines(text: string): seq<string> { Split(Normalized(text), '\n') }

  /** The stripped lines that are not blank. */
  function Entries(lines: seq<string>): (e: set<string>)
    ensures forall p :: p in e <==> exists k :: 0 <= k < |lines| && Strip(lines[k]) == p && p != ""
  {
    if lines == [] then {}
    else
      var n := |lines| - 1;
      var s := Strip(lines[n]);
      if s == "" then Entries(lines[..n]) else Entries(lines[..n]) + {s}
  }

  /** `text[a..b]` is a line: between two line breaks or the ends, and without one. */
  ghost predicate LineAt(text: string, a: int, b: int) {
    && 0 <= a <= b <= |text|
    && (a == 0 || text[a - 1] == '\n' || text[a - 1] == '\r') && (b == |text| || text[b] == '\n' || text[b] == '\r')
    && forall k :: a <= k < b ==> text[k] != '\n' && text[k] != '\r'
  }

  /** Some line of the text is `p` between white space. */
  ghost predicate Names(text: string, p: string) {
    exists a, b :: LineAt(text, a, b) && IsStripped(text[a..b], p)
  }

  lemma LineIsStretch(text: string, a: nat, b: nat)
    ensures Stretch(Normalized(text), '\n', a, b) <==> LineAt(text, a, b)
    ensures LineAt(text, a, b) ==> Normalized(text)[a..b] == text[a..b]
  {
    var n := Normalized(text);
    if Stretch(n, '\n', a, b) {
      forall k | a <= k < b ensures text[k] != '\n' && text[k] != '\r' { assert n[a..b][k - a] == n[k]; }
    }
    if LineAt(text, a, b) {
      assert n[a..b] == text[a..b];
    }
  }

  lemma EntryIsNamed(text: string, p: string, k: nat)
    requires k < |Lines(text)| && Strip(Lines(text)[k]) == p && |p| > 0
    ensures Names(text, p)
  {
    var a, b := PartIsStretch(Normalized(text), '\n', k);
    LineIsStretch(text, a, b);
    StripSays(text[a..b], p);
  }

  lemma NamedIsEntry(text: string, p: string, a: nat, b: nat) returns (k: nat)
    requires LineAt(text, a, b) && IsStripped(text[a..b], p)
    ensures k < |Lines(text)| && Strip(Lines(text)[k]) == p && |p| > 0
  {
    LineIsStretch(text, a, b);
    k := StretchIsPart(Normalized(text), '\n', a, b);
    StripSays(text[a..b], p);
  }

  /** The file names exactly the inputs that are read from it. */
  lemma EntriesAreNamed(text: string, p: string)
    ensures p in Entries(Lines(text)) <==> Names(text, p)
  {
    if p in Entries(Lines(text)) {
      var k :| 0 <= k < |Lines(text)| && Strip(Lines(text)[k]) == p && p != "";
      EntryIsNamed(text, p, k);
    }
    if Names(text, p) {
      var a, b :| LineAt(text, a, b) && IsStripped(text[a..b], p);
      var k := NamedIsEntry(text, p, a, b);
      assert Strip(Lines(text)[k]) == p && p != "";
    }
  }

  lemma NamedExactly(text: string)
    ensures forall p :: p in Entries(Lines(text)) <==> Names(text, p)
  {
    forall p ensures p in Entries(Lines(text)) <==> Names(text, p) { EntriesAreNamed(text, p); }
  }

  method ReadProgressFile(text: string) returns (finished: set<string>)
    ensures finished == Entries(Lines(text))
    ensures forall p :: p in finished <==> Names(text, p)
  {
    var lines := Lines(text);
    finished := {};
    for k := 0 to |lines|
      invariant finished == Entries(lines[..k])
    {
      assert lines[..k + 1][..k] == lines[..k];
      var s := Strip(lines[k]);
      if s != "" { finished := finished + {s}; }
    }
    assert lines[..|lines|] == lines;
    NamedExactly(text);
  }

  /** A path the log can hold: not blank, no line break, and nothing for `strip` to remove. */
  predicate Clean(p: string) {
    |p| > 0 && Unpadded(p) && forall c :: c in p ==> !IsBreak(c)
  }

  /** What the driver appends for a finished input. */
  function LogLine(p: string): string { p + ['\n'] }

  /** A log the driver has written: empty, or ended by a line break. */
  predicate LineEnded(text: string) {
    |text| == 0 || text[|text| - 1] == '\n'
  }

  lemma LinesOfBroken(a: string, b: string)
    ensures Lines(a + ['\n'] + b) == Lines(a) + Lines(b)
  {
    assert Normalized(a + ['\n'] + b) == Normalized(a) + ['\n'] + Normalized(b);
    SplitConcat(Normalized(a), '\n', Normalized(b));
  }

  lemma LinesOfOne(p: string)
    requires forall c :: c in p ==> !IsBreak(c)
    ensures Lines(p) == [p]
  {
    assert Normalized(p) == p;
    SplitAtom(p, '\n');
  }

  lemma EntriesAppend(a: seq<string>, b: seq<string>)
    ensures Entries(a + b) == Entries(a) + Entries(b)
  {
    forall p ensures p in Entries(a + b) <==> p in Entries(a) || p in Entries(b) {
      if p in Entries(a) {
        var k :| 0 <= k < |a| && Strip(a[k]) == p && p != "";
        assert (a + b)[k] == a[k];
      }
      if p in Entries(b) {
        var k :| 0 <= k < |b| && Strip(b[k]) == p && p != "";
        assert (a + b)[|a| + k] == b[k];
      }
    }
  }

  /** Every path the file yields is clean. */
  lemma EntriesAreClean(text: string, p: string)
    requires p in Entries(Lines(text))
    ensures Clean(p)
  {
    var lines := Lines(text);
    var k :| 0 <= k < |lines| && Strip(lines[k]) == p && p != "";
    NoBreaks(text, k);
  }

  lemma {:induction false} SplitMembers(s: string, sep: char, k: nat, c: char)
    requires k < |Split(s, sep)| && c in Split(s, sep)[k]
    ensures c in s
  {
    if |s| > 0 {
      var rest := Split(s[1..], sep);
      if s[0] == sep {
        assert Split(s, sep)[k] == rest[k - 1];
        SplitMembers(s[1..], sep, k - 1, c);
      } else if k > 0 {
        assert Split(s, sep)[k] == rest[k];
        SplitMembers(s[1..], sep, k, c);
      } else if c != s[0] {
        assert Split(s, sep)[0] == [s[0]] + rest[0];
        SplitMembers(s[1..], sep, 0, c);
      }
    }
  }

  /** No line contains a line break. */
  lemma NoBreaks(text: string, k: nat)
    requires k < |Lines(text)|
    ensures forall c :: c in Lines(text)[k] ==> !IsBreak(c)
  {
    forall c | c in Lines(text)[k] ensures !IsBreak(c) {
      SplitMembers(Normalized(text), '\n', k, c);
    }
  }

  lemma NoLines(empty: string)
    requires |empty| == 0
    ensures Entries(Lines(empty)) == {}
  {
    LinesOfOne(empty);
    assert Lines(empty)[..0] == [];
  }

  lemma EntriesOfBroken(a: string, b: string)
    ensures Entries(Lines(a + ['\n'] + b)) == Entries(Lines(a)) + Entries(Lines(b))
  {
    LinesOfBroken(a, b);
    EntriesAppend(Lines(a), Lines(b));
  }

  /** A text that is empty or ends in a line break reads separately from what follows it. */
  lemma EntriesAfter(text: string, p: string)
    requires LineEnded(text)
    ensures Entries(Lines(text + p)) == Entries(Lines(text)) + Entries(Lines(p))
  {
    if |text| == 0 {
      NoLines(text);
      assert text + p == p;
    } else {
      var n := |text| - 1;
      var body, empty := text[..n], text[..0];
      assert text == body + ['\n'] + empty && text + p == body + ['\n'] + p;
      EntriesOfBroken(body, empty);
      EntriesOfBroken(body, p);
      NoLines(empty);
    }
  }

  lemma LineReads(p: string)
    ensures Entries(Lines(LogLine(p))) == Entries(Lines(p))
  {
    var empty := p[..0];
    assert LogLine(p) == p + ['\n'] + empty;
    EntriesOfBroken(p, empty);
    NoLines(empty);
  }

  /** What appending a line adds to what is read back. */
  lemma AppendReads(text: string, p: string)
    requires LineEnded(text)
    ensures LineEnded(text + LogLine(p))
    ensures Entries(Lines(text + LogLine(p))) == Entries(Lines(text)) + Entries(Lines(p))
  {
    EntriesAfter(text, LogLine(p));
    LineReads(p);
  }

  lemma OneClean(p: string)
    requires Clean(p)
    ensures Entries(Lines(p)) == {p}
  {
    LinesOfOne(p);
    StripFixed(p);
    assert [p][0] == p;
  }

  /** A recorded input is read back exactly when its path is clean, and then nothing else is added. */
  lemma RecordReads(text: string, p: string)
    requires LineEnded(text)
    ensures p in Entries(Lines(text + LogLine(p))) <==> Clean(p)
    ensures Clean(p) ==> Entries(Lines(text + LogLine(p))) == Entries(Lines(text)) + {p}
  {
    AppendReads(text, p);
    if Clean(p) {
      OneClean(p);
    } else if p in Entries(Lines(text + LogLine(p))) {
      EntriesAreClean(text + LogLine(p), p);
    }
  }

  // ---- A log whose last line was torn ----

  /** The parts with `tail` added to the last of them. */
  function AddBack(parts: seq<string>, tail: string): seq<string>
    requires |parts| >= 1
  {
    parts[..|parts| - 1] + [parts[|parts| - 1] + tail]
  }

  lemma AddFrontBack(c: char, sep: char, parts: seq<string>, tail: string)
    requires |parts| >= 1
    ensures AddFront(c, sep, AddBack(parts, tail)) == AddBack(AddFront(c, sep, parts), tail)
  {
    var last := |parts| - 1;
    if c == sep {
      assert ([""] + parts)[..last + 1] == [""] + parts[..last];
    } else if last == 0 {
      assert [c] + (parts[0] + tail) == ([c] + parts[0]) + tail;
    } else {
      assert ([[c] + parts[0]] + parts[1..])[..last] == [[c] + parts[0]] + parts[1..last];
    }
  }

  /** Text without the separator joins the last part. */
  lemma {:induction false} SplitJoined(a: string, tail: string, sep: char)
    requires sep !in tail
    ensures Split(a + tail, sep) == AddBack(Split(a, sep), tail)
  {
    if |a| == 0 {
      assert a + tail == tail;
      SplitAtom(tail, sep);
    } else {
      assert (a + tail)[0] == a[0] && (a + tail)[1..] == a[1..] + tail;
      SplitJoined(a[1..], tail, sep);
      AddFrontBack(a[0], sep, Split(a[1..], sep), tail);
    }
  }

  /** The line a text ends in, empty if it ends in a line break. */
  function LastLine(text: string): string { Lines(text)[|Lines(text)| - 1] }

  /** The lines before it. */
  function DoneLines(text: string): seq<string> { Lines(text)[..|Lines(text)| - 1] }

  /** A line without line breaks joins the last line. */
  lemma LinesJoined(text: string, p: string)
    requires forall c :: c in p ==> !IsBreak(c)
    ensures Lines(text + p) == DoneLines(text) + [LastLine(text) + p]
  {
    assert Normalized(text + p) == Normalized(text) + Normalized(p);
    assert Normalized(p) == p;
    SplitJoined(Normalized(text), p, '\n');
  }

  lemma {:induction false} StripLeftJoined(a: string, p: string)
    requires |p| > 0 && !IsSpace(p[0])
    ensures StripLeft(a + p) == StripLeft(a) + p
  {
    if |a| == 0 {
      assert a + p == p;
    } else {
      assert (a + p)[0] == a[0] && (a + p)[1..] == a[1..] + p;
      StripLeftJoined(a[1..], p);
    }
  }

  /** A clean path at the end of a line is all that `strip` leaves exactly when the rest of the line is blank. */
  lemma StripJoined(a: string, p: string)
    requires |p| > 0 && Unpadded(p)
    ensures Strip(a + p) == p <==> |Strip(a)| == 0
  {
    StripLeftJoined(a, p);
    var l := StripLeft(a);
    assert (l + p)[|l + p| - 1] == p[|p| - 1];
    assert Strip(a + p) == l + p;
    assert |l| == 0 ==> l + p == p;
    if |l| > 0 { StripRightKeeps(l); }
  }

  lemma {:induction false} StripRightKeeps(s: string)
    requires |s| > 0 && !IsSpace(s[0])
    ensures |StripRight(s)| > 0
  {
    if IsSpace(s[|s| - 1]) { StripRightKeeps(s[..|s| - 1]); }
  }

  /** Appended to any log, even one whose last line was torn, an input is read back exactly when a finished line
      names it already, or its path is clean and the last line is blank. */
  lemma RecordReadsIff(text: string, p: string)
    ensures p in Entries(Lines(text + LogLine(p))) <==>
              p in Entries(DoneLines(text)) || (Clean(p) && |Strip(LastLine(text))| == 0)
  {
    var empty := p[..0];
    assert text + LogLine(p) == (text + p) + ['\n'] + empty;
    EntriesOfBroken(text + p, empty);
    NoLines(empty);
    if p in Entries(Lines(text + LogLine(p))) { EntriesAreClean(text + LogLine(p), p); }
    DoneAreClean(text, p);
    if Clean(p) {
      LinesJoined(text, p);
      EntriesAppend(DoneLines(text), [LastLine(text) + p]);
      StripJoined(LastLine(text), p);
      OneLine(LastLine(text) + p, p);
    }
  }

  lemma DoneAreClean(text: string, p: string)
    ensures p in Entries(DoneLines(text)) ==> Clean(p)
  {
    if p in Entries(DoneLines(text)) {
      var k :| 0 <= k < |DoneLines(text)| && Strip(DoneLines(text)[k]) == p && p != "";
      assert DoneLines(text)[k] == Lines(text)[k];
      assert p in Entries(Lines(text));
      EntriesAreClean(text, p);
    }
  }

  lemma OneLine(line: string, p: string)
    requires |p| > 0
    ensures p in Entries([line]) <==> Strip(line) == p
  {
    assert [line][0] == line;
  }

  // ---- The job list ----

  type JobList = Items<Job>

  /** The writes that fill the job dictionary: the inputs not finished, numbered from one by their place in the
      input list. */
  function JobWrites(inputs: seq<(string, string)>, finished: set<string>): (w: JobList)
    ensures forall e :: e in w ==> e.key == e.value.input && e.key !in finished
  {
    if inputs == [] then []
    else
      var n := |inputs| - 1;
      if inputs[n].0 in finished then JobWrites(inputs[..n], finished)
      else JobWrites(inputs[..n], finished) + [Entry(inputs[n].0, Job(n + 1, inputs[n].0, inputs[n].1))]
  }

  // ---- What the job list is, in terms of the two lists it is built from ----

  /** Input `p` is listed at `k`, and not later. */
  ghost predicate LastAt(inputs: seq<(string, string)>, k: nat, p: string) {
    k < |inputs| && inputs[k].0 == p && forall j :: k < j < |inputs| ==> inputs[j].0 != p
  }

  /** The job of an entry is numbered and has the output path of the last place where its input is listed. */
  ghost predicate JobAt(inputs: seq<(string, string)>, finished: set<string>, e: Entry<Job>) {
    && e.key !in finished
    && exists k: nat :: LastAt(inputs, k, e.key) && e.value == Job(k + 1, inputs[k].0, inputs[k].1)
  }

  /** Input `p` is listed before `q` is listed for the first time. */
  ghost predicate ListedBefore(inputs: seq<(string, string)>, p: string, q: string) {
    exists a :: 0 <= a < |inputs| && inputs[a].0 == p && forall b :: 0 <= b <= a ==> inputs[b].0 != q
  }

  ghost predicate KeyIn(list: JobList, p: string) {
    exists i :: 0 <= i < |list| && list[i].key == p
  }

  /** One job per listed input that is not finished, in the order in which these are first listed. */
  ghost predicate ListsJobs(inputs: seq<(string, string)>, finished: set<string>, list: JobList) {
    && (forall i :: 0 <= i < |list| ==> JobAt(inputs, finished, list[i]))
    && (forall k :: 0 <= k < |inputs| && inputs[k].0 !in finished ==> KeyIn(list, inputs[k].0))
    && (forall i, j :: 0 <= i < j < |list| ==> ListedBefore(inputs, list[i].key, list[j].key))
  }

  lemma JobStays(inputs: seq<(string, string)>, finished: set<string>, n: nat, e: Entry<Job>)
    requires |inputs| == n + 1 && JobAt(inputs[..n], finished, e) && inputs[n].0 != e.key
    ensures JobAt(inputs, finished, e)
  {
    var k: nat :| LastAt(inputs[..n], k, e.key) && e.value == Job(k + 1, inputs[..n][k].0, inputs[..n][k].1);
    forall j | k < j < |inputs| ensures inputs[j].0 != e.key { assert j < n ==> inputs[..n][j] == inputs[j]; }
    assert LastAt(inputs, k, e.key);
  }

  lemma OrderStays(inputs: seq<(string, string)>, n: nat, p: string, q: string)
    requires |inputs| == n + 1 && ListedBefore(inputs[..n], p, q)
    ensures ListedBefore(inputs, p, q)
  {
    var a :| 0 <= a < n && inputs[..n][a].0 == p && forall b :: 0 <= b <= a ==> inputs[..n][b].0 != q;
    assert inputs[a].0 == p;
    forall b | 0 <= b <= a ensures inputs[b].0 != q { assert inputs[..n][b] == inputs[b]; }
  }

  function NewJob(inputs: seq<(string, string)>, n: nat): Entry<Job>
    requires n < |inputs|
  {
    Entry(inputs[n].0, Job(n + 1, inputs[n].0, inputs[n].1))
  }

  lemma PutJobs(inputs: seq<(string, string)>, finished: set<string>, n: nat, list: JobList, i: nat)
    requires |inputs| == n + 1 && ListsJobs(inputs[..n], finished, list) && inputs[n].0 !in finished
    requires i < |Put(list, NewJob(inputs, n))|
    ensures JobAt(inputs, finished, Put(list, NewJob(inputs, n))[i])
  {
    var e := NewJob(inputs, n);
    assert LastAt(inputs, n, e.key) && JobAt(inputs, finished, e);
    if i != Find(list, e.key) {
      if Has(list, e.key) { KeysDiffer(inputs[..n], list, Find(list, e.key), i); }
      JobStays(inputs, finished, n, list[i]);
    }
  }

  lemma PutKeys(inputs: seq<(string, string)>, finished: set<string>, n: nat, list: JobList, k: nat)
    requires |inputs| == n + 1 && ListsJobs(inputs[..n], finished, list)
    requires k < |inputs| && inputs[k].0 !in finished
    ensures KeyIn(Put(list, NewJob(inputs, n)), inputs[k].0)
  {
    var list' := Put(list, NewJob(inputs, n));
    if k < n {
      assert inputs[..n][k] == inputs[k] && KeyIn(list, inputs[k].0);
      var i :| 0 <= i < |list| && list[i].key == inputs[k].0;
      assert list'[i].key == inputs[k].0;
    } else {
      assert list'[Find(list, inputs[n].0)] == NewJob(inputs, n);
    }
  }

  lemma PutOrder(inputs: seq<(string, string)>, finished: set<string>, n: nat, list: JobList, i: nat, j: nat)
    requires |inputs| == n + 1 && ListsJobs(inputs[..n], finished, list) && inputs[n].0 !in finished
    requires i < j < |Put(list, NewJob(inputs, n))|
    ensures ListedBefore(inputs, Put(list, NewJob(inputs, n))[i].key, Put(list, NewJob(inputs, n))[j].key)
  {
    if j < |list| { OrderStays(inputs, n, list[i].key, list[j].key); } else { NewIsLast(inputs, finished, n, list, i); }
  }

  /** A job put into the list keeps it right. */
  lemma PutListsJobs(inputs: seq<(string, string)>, finished: set<string>, n: nat, list: JobList)
    requires |inputs| == n + 1 && ListsJobs(inputs[..n], finished, list) && inputs[n].0 !in finished
    ensures ListsJobs(inputs, finished, Put(list, NewJob(inputs, n)))
  {
    var list' := Put(list, NewJob(inputs, n));
    forall i | 0 <= i < |list'| ensures JobAt(inputs, finished, list'[i]) { PutJobs(inputs, finished, n, list, i); }
    forall k | 0 <= k < |inputs| && inputs[k].0 !in finished ensures KeyIn(list', inputs[k].0) {
      PutKeys(inputs, finished, n, list, k);
    }
    forall i, j | 0 <= i < j < |list'| ensures ListedBefore(inputs, list'[i].key, list'[j].key) {
      PutOrder(inputs, finished, n, list, i, j);
    }
  }

  lemma BeforeDiffers(inputs: seq<(string, string)>, p: string, q: string)
    requires ListedBefore(inputs, p, q)
    ensures p != q
  {
  }

  /** Two entries of a list in order do not share a key. */
  lemma KeysDiffer(inputs: seq<(string, string)>, list: JobList, i: nat, j: nat)
    requires forall i, j :: 0 <= i < j < |list| ==> ListedBefore(inputs, list[i].key, list[j].key)
    requires i < |list| && j < |list| && i != j
    ensures list[i].key != list[j].key
  {
    if i < j {
      BeforeDiffers(inputs, list[i].key, list[j].key);
    } else {
      BeforeDiffers(inputs, list[j].key, list[i].key);
    }
  }

  lemma NewIsLast(inputs: seq<(string, string)>, finished: set<string>, n: nat, list: JobList, i: nat)
    requires |inputs| == n + 1 && ListsJobs(inputs[..n], finished, list) && inputs[n].0 !in finished
    requires i < |list| && !Has(list, inputs[n].0)
    ensures ListedBefore(inputs, list[i].key, inputs[n].0)
  {
    assert JobAt(inputs[..n], finished, list[i]);
    var a: nat :| LastAt(inputs[..n], a, list[i].key);
    assert inputs[a].0 == list[i].key && !KeyIn(list, inputs[n].0);
    forall b | 0 <= b <= a ensures inputs[b].0 != inputs[n].0 {
      assert inputs[..n][b] == inputs[b];
      if inputs[b].0 !in finished { assert KeyIn(list, inputs[b].0); }
    }
  }

  lemma SkipListsJobs(inputs: seq<(string, string)>, finished: set<string>, n: nat, list: JobList)
    requires |inputs| == n + 1 && ListsJobs(inputs[..n], finished, list) && inputs[n].0 in finished
    ensures ListsJobs(inputs, finished, list)
  {
    forall i | 0 <= i < |list| ensures JobAt(inputs, finished, list[i]) { JobStays(inputs, finished, n, list[i]); }
    forall k | 0 <= k < |inputs| && inputs[k].0 !in finished ensures KeyIn(list, inputs[k].0) {
      assert inputs[..n][k] == inputs[k];
    }
    forall i, j | 0 <= i < j < |list| ensures ListedBefore(inputs, list[i].key, list[j].key) {
      OrderStays(inputs, n, list[i].key, list[j].key);
    }
  }

  lemma {:induction false} ListSays(inputs: seq<(string, string)>, finished: set<string>)
    ensures ListsJobs(inputs, finished, FromItems(JobWrites(inputs, finished)))
  {
    if inputs != [] {
      var n := |inputs| - 1;
      ListSays(inputs[..n], finished);
      var writes, list := JobWrites(inputs[..n], finished), FromItems(JobWrites(inputs[..n], finished));
      if inputs[n].0 in finished {
        SkipListsJobs(inputs, finished, n, list);
      } else {
        PutListsJobs(inputs, finished, n, list);
        var e := Entry(inputs[n].0, Job(n + 1, inputs[n].0, inputs[n].1));
        assert JobWrites(inputs, finished) == writes + [e] && (writes + [e])[..|writes|] == writes;
      }
    }
  }

  method BuildInputList(inputs: seq<(string, string)>, progress: string) returns (pending: JobList)
    ensures pending == FromItems(JobWrites(inputs, Entries(Lines(progress))))
    ensures ListsJobs(inputs, Entries(Lines(progress)), pending)
  {
    var finished := ReadProgressFile(progress);
    pending := [];
    for k := 0 to |inputs|
      invariant pending == FromItems(JobWrites(inputs[..k], finished))
    {
      assert inputs[..k + 1][..k] == inputs[..k];
      var (inputPath, outputPath) := inputs[k];
      if inputPath !in finished {
        var e := Entry(inputPath, Job(k + 1, inputPath, outputPath));
        assert (JobWrites(inputs[..k], finished) + [e])[..|JobWrites(inputs[..k], finished)|] ==
          JobWrites(inputs[..k], finished);
        pending := Put(pending, e);
      }
    }
    assert inputs[..|inputs|] == inputs;
    ListSays(inputs, finished);
  }

  lemma {:induction false} WritesAreInputs(inputs: seq<(string, string)>, finished: set<string>, p: string)
    ensures Has(JobWrites(inputs, finished), p) <==> p !in finished && exists k :: 0 <= k < |inputs| && inputs[k].0 == p
  {
    if inputs != [] {
      var n := |inputs| - 1;
      var before := inputs[..n];
      WritesAreInputs(before, finished, p);
      assert inputs == before + [inputs[n]];
      if inputs[n].0 !in finished {
        FindAppend(JobWrites(before, finished), Entry(inputs[n].0, Job(n + 1, inputs[n].0, inputs[n].1)), p);
      }
      if k :| 0 <= k < |inputs| && inputs[k].0 == p {
        assert k < n ==> before[k].0 == p;
      }
    }
  }

  /** The job list: every listed input that the log does not name, once, keyed by its own path. */
  lemma JobListSpec(inputs: seq<(string, string)>, finished: set<string>)
    ensures
      var pending := FromItems(JobWrites(inputs, finished));
      && DistinctKeys(pending)
      && (forall p :: Has(pending, p) <==> p !in finished && exists k :: 0 <= k < |inputs| && inputs[k].0 == p)
      && (forall e :: e in pending ==> e.value.input == e.key && e.key !in finished)
      && ListsJobs(inputs, finished, pending)
  {
    ListSays(inputs, finished);
    var writes := JobWrites(inputs, finished);
    var pending := FromItems(writes);
    FromItemsSpec(writes);
    forall p ensures Has(pending, p) <==> p !in finished && exists k :: 0 <= k < |inputs| && inputs[k].0 == p {
      WritesAreInputs(inputs, finished, p);
    }
    forall e | e in pending ensures e.value.input == e.key && e.key !in finished {
      EntryWritten([], writes, e);
    }
  }

  lemma {:induction false} EntryWritten<V>(d: Items<V>, writes: Items<V>, e: Entry<V>)
    requires e in PutAll(d, writes)
    ensures e in d || e in writes
  {
    if writes != [] {
      var n := |writes| - 1;
      if e !in PutAll(d, writes[..n]) { assert e == writes[n]; } else { EntryWritten(d, writes[..n], e); }
    }
  }
}
