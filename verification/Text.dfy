/**
 The string operations the note format is written in: trimming, splitting into lines, joining
 lines, writing a number. Whitespace is the full set that `\s` and `trim` use in JavaScript.
 */
module Text {
  datatype Option<+T> = None | Some(value: T)

  predicate IsSpace(c: char) {
    var n := c as int;
    9 <= n <= 13 || n == 32 || n == 0xA0 || n == 0x1680 || 0x2000 <= n <= 0x200A ||
    n == 0x2028 || n == 0x2029 || n == 0x202F || n == 0x205F || n == 0x3000 || n == 0xFEFF
  }

  /** The characters a regular expression's `.` does not match. */
  predicate EndsLine(c: char) {
    c == '\n' || c == '\r' || c as int == 0x2028 || c as int == 0x2029
  }

  predicate DotSafe(s: string) {
    forall i :: 0 <= i < |s| ==> !EndsLine(s[i])
  }

  /** A string that is one line: it can be an element of a split text. */
  predicate OneLine(s: string) {
    forall i :: 0 <= i < |s| ==> s[i] != '\n' && s[i] != '\r'
  }

  predicate AllSpace(s: string) {
    forall i :: 0 <= i < |s| ==> IsSpace(s[i])
  }

  /** Empty, or starting with something visible: what `\s+(.*)` can capture. */
  predicate FlushLeft(s: string) {
    s == "" || !IsSpace(s[0])
  }

  predicate Trimmed(s: string) {
    s == "" || (!IsSpace(s[0]) && !IsSpace(s[|s| - 1]))
  }

  function Repeat(s: string, n: nat): (r: string)
    ensures |r| == |s| * n
  {
    if n == 0 then "" else s + Repeat(s, n - 1)
  }

  lemma Regroup<T>(a: seq<T>, b: seq<T>, c: seq<T>)
    ensures a + (b + c) == a + b + c
  {
  }

  lemma CutAtMark<T>(s: seq<T>, k: nat, mark: seq<T>, rest: seq<T>)
    requires k + |mark| <= |s| && s[k..k + |mark|] == mark && rest == s[k + |mark|..]
    ensures s == s[..k] + (mark + rest)
  {
  }

  lemma TailOfTail<T>(s: seq<T>, i: nat, n: nat)
    requires i + n <= |s|
    ensures s[i..][n..] == s[i + n..]
  {
  }

  lemma SliceOfSlice<T>(s: seq<T>, a: nat, b: nat, k: nat, l: nat)
    requires a <= b <= |s| && k <= l <= b - a
    ensures s[a..b][k..l] == s[a + k..a + l]
  {
    var x, y := s[a..b][k..l], s[a + k..a + l];
    assert |x| == |y| && forall i :: 0 <= i < |x| ==> x[i] == y[i];
  }

  // ---------------------------------------------------------------- trimming

  function TrimStart(s: string): string {
    if s != "" && IsSpace(s[0]) then TrimStart(s[1..]) else s
  }

  function TrimEnd(s: string): string {
    if s != "" && IsSpace(s[|s| - 1]) then TrimEnd(s[..|s| - 1]) else s
  }

  function Trim(s: string): string {
    TrimEnd(TrimStart(s))
  }

  lemma {:induction false} TrimStartSplits(s: string)
    ensures |TrimStart(s)| <= |s|
    ensures s[|s| - |TrimStart(s)|..] == TrimStart(s)
    ensures AllSpace(s[..|s| - |TrimStart(s)|])
    ensures FlushLeft(TrimStart(s))
  {
    if s != "" && IsSpace(s[0]) {
      TrimStartSplits(s[1..]);
      var k := |s| - |TrimStart(s)|;
      assert s[k..] == s[1..][k - 1..];
      assert s[..k] == [s[0]] + s[1..][..k - 1];
    }
  }

  lemma {:induction false} TrimEndSplits(s: string)
    ensures |TrimEnd(s)| <= |s|
    ensures s[..|TrimEnd(s)|] == TrimEnd(s)
    ensures AllSpace(s[|TrimEnd(s)|..])
    ensures TrimEnd(s) == "" || !IsSpace(TrimEnd(s)[|TrimEnd(s)| - 1])
  {
    if s != "" && IsSpace(s[|s| - 1]) {
      var t := s[..|s| - 1];
      TrimEndSplits(t);
      var k := |TrimEnd(s)|;
      assert s[..k] == t[..k];
      assert s[k..] == t[k..] + [s[|s| - 1]];
    }
  }

  /** Trimming cuts whitespace off both ends and nothing else, and leaves none there. */
  lemma TrimSplits(s: string) returns (a: nat, b: nat)
    ensures a <= b <= |s| && Trim(s) == s[a..b]
    ensures AllSpace(s[..a]) && AllSpace(s[b..])
    ensures Trimmed(Trim(s))
    ensures Trim(s) == "" ==> AllSpace(s)
    ensures TrimStart(s) == s[a..] || Trim(s) == ""
  {
    var t := TrimStart(s);
    TrimStartSplits(s);
    TrimEndSplits(t);
    a := |s| - |t|;
    b := a + |Trim(s)|;
    assert s[b..] == t[|Trim(s)|..];
    assert s[a..b] == t[..|Trim(s)|];
    if Trim(s) == "" {
      assert s == s[..a] + s[b..];
    }
  }

  lemma {:induction false} AllSpaceTrimsAway(s: string)
    requires AllSpace(s)
    ensures TrimStart(s) == ""
  {
    if s != "" {
      AllSpaceTrimsAway(s[1..]);
    }
  }

  lemma BlankIff(s: string)
    ensures Trim(s) == "" <==> AllSpace(s)
  {
    if AllSpace(s) {
      AllSpaceTrimsAway(s);
    }
    var a, b := TrimSplits(s);
  }

  lemma TrimmedTrimsToItself(s: string)
    requires Trimmed(s)
    ensures Trim(s) == s
  {
  }

  lemma {:induction false} TrimStartPadded(pad: string, s: string)
    requires AllSpace(pad)
    ensures TrimStart(pad + s) == TrimStart(s)
  {
    if pad == "" {
      assert pad + s == s;
    } else {
      assert (pad + s)[1..] == pad[1..] + s;
      TrimStartPadded(pad[1..], s);
    }
  }

  lemma {:induction false} TrimEndPadded(s: string, pad: string)
    requires AllSpace(pad)
    ensures TrimEnd(s + pad) == TrimEnd(s)
  {
    if pad == "" {
      assert s + pad == s;
    } else {
      var k := |pad| - 1;
      assert (s + pad)[..|s + pad| - 1] == s + pad[..k];
      TrimEndPadded(s, pad[..k]);
    }
  }

  /** Padding a trimmed string on both sides and trimming gives it back. */
  lemma TrimPadded(a: string, s: string, b: string)
    requires AllSpace(a) && AllSpace(b) && Trimmed(s)
    ensures Trim(a + s + b) == s
  {
    assert a + s + b == a + (s + b);
    TrimStartPadded(a, s + b);
    if s == "" {
      assert s + b == b;
      AllSpaceTrimsAway(b);
    } else {
      assert TrimStart(s + b) == s + b;
      TrimEndPadded(s, b);
    }
  }

  // ---------------------------------------------------------------- lines

  /** `text.split("\n")`. */
  function Split(s: string): (r: seq<string>)
    ensures |r| >= 1
  {
    if s == "" then [""]
    else
      var r := Split(s[1..]);
      if s[0] == '\n' then [""] + r else [[s[0]] + r[0]] + r[1..]
  }

  /** `lines.join("\n")`. */
  function Join(lines: seq<string>): string {
    if |lines| == 0 then ""
    else if |lines| == 1 then lines[0]
    else lines[0] + "\n" + Join(lines[1..])
  }

  /** The lines of several texts one after another. */
  function Explode(texts: seq<string>): seq<string> {
    if texts == [] then [] else Split(texts[0]) + Explode(texts[1..])
  }

  lemma {:induction false} SplitAppend(a: string, b: string)
    ensures Split(a + "\n" + b) == Split(a) + Split(b)
  {
    if a == "" {
      assert (a + "\n" + b)[1..] == b;
    } else {
      assert (a + "\n" + b)[1..] == a[1..] + "\n" + b;
      SplitAppend(a[1..], b);
    }
  }

  lemma {:induction false} SplitOneLine(s: string)
    requires '\n' !in s
    ensures Split(s) == [s]
  {
    if s != "" {
      SplitOneLine(s[1..]);
      assert s == [s[0]] + s[1..];
    }
  }

  lemma {:induction false} JoinSplit(s: string)
    ensures Join(Split(s)) == s
  {
    if s != "" {
      JoinSplit(s[1..]);
      var r := Split(s[1..]);
      if s[0] != '\n' && |r| > 1 {
        assert Split(s)[1..] == r[1..];
      } else if s[0] == '\n' {
        assert Split(s)[1..] == r;
      }
    }
  }

  lemma {:induction false} SplitJoin(texts: seq<string>)
    requires texts != []
    ensures Split(Join(texts)) == Explode(texts)
  {
    if |texts| == 1 {
      assert Explode(texts[1..]) == [];
    } else {
      SplitJoin(texts[1..]);
      SplitAppend(texts[0], Join(texts[1..]));
    }
  }

  lemma {:induction false} ExplodeOneLines(lines: seq<string>)
    requires forall l :: l in lines ==> '\n' !in l
    ensures Explode(lines) == lines
  {
    if lines != [] {
      assert lines[0] in lines;
      SplitOneLine(lines[0]);
      assert forall l :: l in lines[1..] ==> l in lines;
      ExplodeOneLines(lines[1..]);
    }
  }

  /** Lines of a text hold only the text's characters, and never a newline. */
  lemma {:induction false} SplitChars(s: string)
    ensures forall i, j :: 0 <= i < |Split(s)| && 0 <= j < |Split(s)[i]| ==>
              Split(s)[i][j] in s && Split(s)[i][j] != '\n'
  {
    if s != "" {
      SplitChars(s[1..]);
    }
  }

  /** The characters of a joined text are the characters of its parts and the newlines between. */
  lemma {:induction false} JoinChars(lines: seq<string>, c: char)
    requires c != '\n'
    ensures c in Join(lines) <==> exists i :: 0 <= i < |lines| && c in lines[i]
  {
    if |lines| > 1 {
      JoinChars(lines[1..], c);
      assert Join(lines) == lines[0] + "\n" + Join(lines[1..]);
      if i :| 0 <= i < |lines| && c in lines[i] {
        if i > 0 { assert lines[1..][i - 1] == lines[i]; }
      }
    }
  }

  lemma {:induction false} JoinEnd(lines: seq<string>)
    requires lines != [] && lines[|lines| - 1] != ""
    ensures Join(lines) != "" && Join(lines)[|Join(lines)| - 1] == lines[|lines| - 1][|lines[|lines| - 1]| - 1]
  {
    if |lines| > 1 {
      JoinEnd(lines[1..]);
      assert Join(lines) == lines[0] + "\n" + Join(lines[1..]);
    }
  }

  /** A text ends in a newline, or is empty, exactly when its last line is empty. */
  lemma {:induction false} LastLineEmptyIff(s: string)
    ensures (s == "" || s[|s| - 1] == '\n') <==> Split(s)[|Split(s)| - 1] == ""
  {
    if s != "" {
      LastLineEmptyIff(s[1..]);
      if |s| > 1 { assert s[1..][|s| - 2] == s[|s| - 1]; }
    }
  }

  /** `text.replace(/\r\n?/g, "\n")`. */
  function Normalize(s: string): string {
    if s == "" then ""
    else if s[0] == '\r' then
      "\n" + Normalize(if |s| > 1 && s[1] == '\n' then s[2..] else s[1..])
    else [s[0]] + Normalize(s[1..])
  }

  lemma {:induction false} NormalizeRemovesReturns(s: string)
    ensures '\r' !in Normalize(s)
    decreases |s|
  {
    if s != "" {
      NormalizeRemovesReturns(if s[0] == '\r' && |s| > 1 && s[1] == '\n' then s[2..] else s[1..]);
    }
  }

  lemma {:induction false} NormalizeWithoutReturns(s: string)
    requires '\r' !in s
    ensures Normalize(s) == s
  {
    if s != "" {
      NormalizeWithoutReturns(s[1..]);
      assert s == [s[0]] + s[1..];
    }
  }

  /** `text.replace(/\n+$/, "")`. */
  function DropNewlines(s: string): string {
    if s != "" && s[|s| - 1] == '\n' then DropNewlines(s[..|s| - 1]) else s
  }

  // ---------------------------------------------------------------- numbers

  predicate IsDigit(c: char) { '0' <= c <= '9' }

  function Decimal(n: nat): (r: string)
    ensures r != "" && forall i :: 0 <= i < |r| ==> IsDigit(r[i])
  {
    var last := [('0' as int + n % 10) as char];
    if n < 10 then last else Decimal(n / 10) + last
  }

  function DecimalValue(s: string): int {
    if s == "" then 0
    else 10 * DecimalValue(s[..|s| - 1]) + (s[|s| - 1] as int - '0' as int)
  }

  lemma {:induction false} DecimalReadsBack(n: nat)
    ensures DecimalValue(Decimal(n)) == n
  {
    if n < 10 {
      assert Decimal(n)[..0] == "";
      assert DecimalValue("") == 0;
    } else {
      DecimalReadsBack(n / 10);
      assert Decimal(n)[..|Decimal(n)| - 1] == Decimal(n / 10);
    }
  }
}
