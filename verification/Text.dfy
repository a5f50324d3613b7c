/** Option and Result values, and the string operations (`str.split`, `str.strip`) the models share. */
module Text {

  datatype Option<+T> = None | Some(value: T)

  datatype Result<+T, +E> = Ok(value: T) | Err(error: E)

  /** Adds one character at the front of the first part; a separator opens a new part instead. */
  function AddFront(c: char, sep: char, parts: seq<string>): (r: seq<string>)
    requires |parts| >= 1
    ensures |r| >= 1
  {
    if c == sep then [""] + parts else [[c] + parts[0]] + parts[1..]
  }

  /** `s.split(sep)` for a one-character separator: always at least one part, none containing `sep`. */
  function Split(s: string, sep: char): (parts: seq<string>)
    ensures |parts| >= 1
    ensures forall k :: 0 <= k < |parts| ==> sep !in parts[k]
  {
    if s == "" then [""] else AddFront(s[0], sep, Split(s[1..], sep))
  }

  lemma AddFrontConcat(c: char, sep: char, a: seq<string>, b: seq<string>)
    requires |a| >= 1
    ensures AddFront(c, sep, a + b) == AddFront(c, sep, a) + b
  {
    assert (a + b)[0] == a[0] && (a + b)[1..] == a[1..] + b;
  }

  /** Splitting a text joined by a separator is splitting both sides. */
  lemma {:induction false} SplitConcat(a: string, sep: char, b: string)
    ensures Split(a + [sep] + b, sep) == Split(a, sep) + Split(b, sep)
  {
    var whole := a + [sep] + b;
    if a == "" {
      assert whole[0] == sep && whole[1..] == b;
    } else {
      assert whole[0] == a[0] && whole[1..] == a[1..] + [sep] + b;
      SplitConcat(a[1..], sep, b);
      AddFrontConcat(a[0], sep, Split(a[1..], sep), Split(b, sep));
    }
  }

  lemma {:induction false} SplitAtom(s: string, sep: char)
    ensures |Split(s, sep)| == 1 <==> sep !in s
    ensures sep !in s ==> Split(s, sep) == [s]
  {
    if s != "" {
      SplitAtom(s[1..], sep);
      assert s == [s[0]] + s[1..];
    }
  }

  /** A longest stretch of `s` without `sep`. */
  ghost predicate Stretch(s: string, sep: char, a: int, b: int) {
    && 0 <= a <= b <= |s| && (a == 0 || s[a - 1] == sep) && (b == |s| || s[b] == sep) && sep !in s[a..b]
  }

  /** The parts are those stretches. */
  lemma {:induction false} PartIsStretch(s: string, sep: char, k: nat) returns (a: nat, b: nat)
    requires k < |Split(s, sep)|
    ensures Stretch(s, sep, a, b) && s[a..b] == Split(s, sep)[k] && (k == 0 <==> a == 0)
  {
    a, b := 0, 0;
    if |s| > 0 {
      var rest := Split(s[1..], sep);
      if s[0] == sep {
        if k > 0 {
          var x, y := PartIsStretch(s[1..], sep, k - 1);
          a, b := x + 1, y + 1;
          assert s[1..][x..y] == s[a..b];
        }
      } else {
        var x, y := PartIsStretch(s[1..], sep, k);
        a, b := if k == 0 then 0 else x + 1, y + 1;
        if k == 0 { assert s[0..b] == [s[0]] + s[1..][0..y]; } else { assert s[1..][x..y] == s[a..b]; }
      }
    }
  }

  lemma StretchBehind(s: string, sep: char, a: nat, b: nat)
    requires Stretch(s, sep, a, b) && a > 0
    ensures Stretch(s[1..], sep, a - 1, b - 1) && s[1..][a - 1..b - 1] == s[a..b]
  {
    assert s[1..][a - 1..b - 1] == s[a..b];
  }

  lemma StretchInFront(s: string, sep: char, b: nat)
    requires |s| > 0 && s[0] != sep && Stretch(s, sep, 0, b)
    ensures b > 0 && Stretch(s[1..], sep, 0, b - 1) && s[0..b] == [s[0]] + s[1..][0..b - 1]
  {
    assert s[0..b] == [s[0]] + s[1..][0..b - 1];
  }

  lemma HeadIn(s: string, b: nat)
    requires 0 < b <= |s|
    ensures s[0] in s[0..b]
  {
    assert s[0..b][0] == s[0];
  }

  lemma {:induction false} StretchIsPart(s: string, sep: char, a: nat, b: nat) returns (k: nat)
    requires Stretch(s, sep, a, b)
    ensures k < |Split(s, sep)| && Split(s, sep)[k] == s[a..b] && (k == 0 <==> a == 0)
  {
    k := 0;
    if |s| > 0 {
      if a > 0 {
        StretchBehind(s, sep, a, b);
        k := StretchIsPart(s[1..], sep, a - 1, b - 1);
        if s[0] == sep { k := k + 1; }
      } else if s[0] == sep {
        HeadIn(s, if b > 0 then b else 1);
      } else {
        StretchInFront(s, sep, b);
        k := StretchIsPart(s[1..], sep, 0, b - 1);
      }
    }
  }

  /** The characters `str.strip` removes. */
  predicate IsSpace(c: char) {
    || c == ' ' || '\t' <= c <= '\r' || '\U{1C}' <= c <= '\U{1F}' || c == '\U{85}' || c == '\U{A0}' || c == '\U{1680}'
    || '\U{2000}' <= c <= '\U{200A}' || c == '\U{2028}' || c == '\U{2029}' || c == '\U{202F}' || c == '\U{205F}'
    || c == '\U{3000}'
  }

  function StripLeft(s: string): (r: string)
    ensures r == "" || !IsSpace(r[0])
    ensures forall c :: c in r ==> c in s
    ensures s != "" && !IsSpace(s[0]) ==> r == s
  {
    if s == "" then "" else if IsSpace(s[0]) then StripLeft(s[1..]) else s
  }

  function StripRight(s: string): (r: string)
    ensures r == "" || !IsSpace(r[|r| - 1])
    ensures r <= s
    ensures s != "" && !IsSpace(s[|s| - 1]) ==> r == s
  {
    if s == "" then "" else if IsSpace(s[|s| - 1]) then StripRight(s[..|s| - 1]) else s
  }

  /** `s.strip()`. */
  function Strip(s: string): (r: string)
    ensures r == "" || (!IsSpace(r[0]) && !IsSpace(r[|r| - 1]))
    ensures forall c :: c in r ==> c in s
  {
    StripRight(StripLeft(s))
  }

  /** A string that starts and ends with a character `strip` keeps. */
  predicate Unpadded(s: string) {
    s == "" || (!IsSpace(s[0]) && !IsSpace(s[|s| - 1]))
  }

  /** White space by code point: tab to carriage return, the four separators and the space, next line, no-break space,
      ogham space, the spaces of the punctuation block, line and paragraph separator, and three more. */
  ghost predicate White(c: char) {
    var n := c as int;
    || 9 <= n <= 13 || 28 <= n <= 32 || n == 133 || n == 160 || n == 5760 || 8192 <= n <= 8202 || n == 8232 || n == 8233
    || n == 8239 || n == 8287 || n == 12288
  }

  lemma SpaceIsWhite(c: char)
    ensures IsSpace(c) <==> White(c)
  {
  }

  /** `s` is white from `i` to `j`. */
  ghost predicate Blank(s: string, i: int, j: int)
    requires 0 <= i <= j <= |s|
  {
    forall k :: i <= k < j ==> White(s[k])
  }

  /** `line` is `p` between white space, and `p` starts and ends with something else. */
  ghost predicate IsStripped(line: string, p: string) {
    exists i, j :: StripsTo(line, i, j) && line[i..j] == p
  }

  ghost predicate StripsTo(line: string, i: int, j: int) {
    0 <= i < j <= |line| && !White(line[i]) && !White(line[j - 1]) && Blank(line, 0, i) && Blank(line, j, |line|)
  }

  lemma {:induction false} StripLeftAt(s: string) returns (i: nat)
    ensures i <= |s| && StripLeft(s) == s[i..] && Blank(s, 0, i)
  {
    i := 0;
    if |s| > 0 {
      SpaceIsWhite(s[0]);
      if IsSpace(s[0]) {
        var k := StripLeftAt(s[1..]);
        i := k + 1;
        assert s[1..][k..] == s[i..];
        forall n | 0 <= n < i ensures White(s[n]) { if n > 0 { assert s[1..][n - 1] == s[n]; } }
      }
    }
  }

  lemma {:induction false} StripRightAt(s: string) returns (j: nat)
    ensures j <= |s| && StripRight(s) == s[..j] && Blank(s, j, |s|)
  {
    j := |s|;
    if |s| > 0 {
      var n := |s| - 1;
      SpaceIsWhite(s[n]);
      if IsSpace(s[n]) {
        j := StripRightAt(s[..n]);
        assert s[..n][..j] == s[..j];
        forall k | j <= k < |s| ensures White(s[k]) { if k < n { assert s[..n][k] == s[k]; } }
      }
    }
  }

  lemma {:induction false} StripLeftOf(s: string, i: nat)
    requires i < |s| && !White(s[i]) && Blank(s, 0, i)
    ensures StripLeft(s) == s[i..]
  {
    SpaceIsWhite(s[0]);
    if i > 0 {
      forall n | 0 <= n < i - 1 ensures White(s[1..][n]) { assert s[1..][n] == s[n + 1]; }
      assert s[1..][i - 1] == s[i] && s[1..][i - 1..] == s[i..];
      StripLeftOf(s[1..], i - 1);
    }
  }

  lemma {:induction false} StripRightOf(s: string, j: nat)
    requires 0 < j <= |s| && !White(s[j - 1]) && Blank(s, j, |s|)
    ensures StripRight(s) == s[..j]
  {
    var n := |s| - 1;
    SpaceIsWhite(s[n]);
    if j < |s| {
      forall k | j <= k < n ensures White(s[..n][k]) { assert s[..n][k] == s[k]; }
      assert s[..n][..j] == s[..j];
      StripRightOf(s[..n], j);
    }
  }

  lemma StripSays(line: string, p: string)
    ensures |p| > 0 && Strip(line) == p <==> IsStripped(line, p)
  {
    if |p| > 0 && Strip(line) == p {
      var i := StripLeftAt(line);
      var j := StripRightAt(line[i..]);
      StrippedAt(line, p, i, j);
    }
    if IsStripped(line, p) {
      var i, j :| StripsTo(line, i, j) && line[i..j] == p;
      StripsToSays(line, i, j);
    }
  }

  lemma StripsToSays(line: string, i: nat, j: nat)
    requires StripsTo(line, i, j)
    ensures Strip(line) == line[i..j]
  {
    StripLeftOf(line, i);
    var tail := line[i..];
    forall k | j - i <= k < |tail| ensures White(tail[k]) { assert tail[k] == line[i + k]; }
    assert tail[j - i - 1] == line[j - 1] && tail[..j - i] == line[i..j];
    StripRightOf(tail, j - i);
  }

  lemma StrippedAt(line: string, p: string, i: nat, j: nat)
    requires i <= |line| && Blank(line, 0, i) && j <= |line[i..]| && Blank(line[i..], j, |line[i..]|)
    requires |p| > 0 && p == line[i..][..j] && !IsSpace(p[0]) && !IsSpace(p[|p| - 1])
    ensures IsStripped(line, p)
  {
    SpaceIsWhite(p[0]);
    SpaceIsWhite(p[|p| - 1]);
    assert p == line[i..i + j] && p[0] == line[i] && p[|p| - 1] == line[i + j - 1];
    forall k | i + j <= k < |line| ensures White(line[k]) { assert line[i..][k - i] == line[k]; }
    assert StripsTo(line, i, i + j);
  }

  lemma StripFixed(s: string)
    ensures Strip(s) == s <==> Unpadded(s)
  {
  }
}
