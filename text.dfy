/** String helpers that stand for the Python built-ins the core relies on:
    `str(int)`, zero-padded date fields, line splitting, `str.rstrip`,
    `str.rsplit('.', 1)` and `os.path.dirname` / `os.path.join`. */
module Text {

  /** Concatenation of a sequence of strings, as `''.join(ss)`. */
  function Concat(ss: seq<string>): (r: string)
    ensures |ss| == 1 ==> r == ss[0]
  {
    if ss == [] then "" else Concat(ss[..|ss| - 1]) + ss[|ss| - 1]
  }

  lemma ConcatAppend(ss: seq<string>, t: seq<string>)
    ensures Concat(ss + t) == Concat(ss) + Concat(t)
  {
    if t == [] {
      assert ss + t == ss;
    } else {
      assert (ss + t)[..|ss + t| - 1] == ss + t[..|t| - 1];
      ConcatAppend(ss, t[..|t| - 1]);
    }
  }

  // ---------------------------------------------------------------------
  // Decimal rendering, as Python's str() on an int.

  predicate IsDigit(c: char) { '0' <= c <= '9' }

  function DigitChar(d: nat): (c: char)
    requires d < 10
    ensures IsDigit(c) && c as int - '0' as int == d
  {
    ('0' as int + d) as char
  }

  /** Shortest decimal numeral of `n`: digits only, no leading zero. */
  function NatToString(n: nat): (s: string)
    ensures |s| >= 1
    ensures forall i :: 0 <= i < |s| ==> IsDigit(s[i])
    ensures s[0] == '0' ==> n == 0
    decreases n
  {
    if n < 10 then [DigitChar(n)] else NatToString(n / 10) + [DigitChar(n % 10)]
  }

  /** Value of a numeral, the reference reading of what NatToString writes. */
  function ParseNat(s: string): nat
    requires forall i :: 0 <= i < |s| ==> IsDigit(s[i])
  {
    if s == [] then 0
    else
      assert IsDigit(s[|s| - 1]);
      10 * ParseNat(s[..|s| - 1]) + (s[|s| - 1] as int - '0' as int)
  }

  lemma {:induction false} ParseNatToString(n: nat)
    ensures ParseNat(NatToString(n)) == n
    decreases n
  {
    if n >= 10 {
      var s := NatToString(n);
      assert s[..|s| - 1] == NatToString(n / 10);
      ParseNatToString(n / 10);
    }
  }

  /** Python's str() on an int: a minus sign for negative values. */
  function IntToString(i: int): (s: string)
    ensures |s| >= 1
    ensures s[0] == '-' <==> i < 0
    ensures i >= 0 ==> s == NatToString(i)
    ensures i < 0 ==> s == "-" + NatToString(-i)
  {
    if i < 0 then "-" + NatToString(-i) else NatToString(i)
  }

  /** Reads an optionally signed numeral back. */
  function ParseInt(s: string): int
    requires |s| >= 1
    requires s[0] == '-' ==> forall i :: 1 <= i < |s| ==> IsDigit(s[i])
    requires s[0] != '-' ==> forall i :: 0 <= i < |s| ==> IsDigit(s[i])
  {
    if s[0] == '-' then 0 - ParseNat(s[1..]) as int else ParseNat(s)
  }

  lemma ParseIntToString(i: int)
    ensures var s := IntToString(i);
      (s[0] == '-' ==> forall k :: 1 <= k < |s| ==> IsDigit(s[k])) &&
      ParseInt(s) == i
  {
    var s := IntToString(i);
    if i < 0 {
      assert s[1..] == NatToString(-i);
      ParseNatToString(-i);
    } else {
      ParseNatToString(i);
    }
  }

  lemma IntToStringInjective(i: int, j: int)
    requires IntToString(i) == IntToString(j)
    ensures i == j
  {
    ParseIntToString(i);
    ParseIntToString(j);
  }

  /** `n` written with at least `width` digits, left-padded with zeros
      (the `%Y`, `%m`, `%d` fields of strftime). */
  function ZeroPad(n: nat, width: nat): (s: string)
    ensures |s| >= width
    ensures forall i :: 0 <= i < |s| ==> IsDigit(s[i])
    ensures |NatToString(n)| >= width ==> s == NatToString(n)
  {
    var d := NatToString(n);
    if |d| >= width then d else Repeat('0', width - |d|) + d
  }

  function Repeat(c: char, k: nat): (s: string)
    ensures |s| == k && forall i :: 0 <= i < k ==> s[i] == c
  {
    if k == 0 then "" else [c] + Repeat(c, k - 1)
  }

  // ---------------------------------------------------------------------
  // Lines of a text file.

  /** The text of a file written line by line, each line ended by '\n'. */
  function Unlines(ls: seq<string>): (r: string)
  {
    if ls == [] then "" else ls[0] + "\n" + Unlines(ls[1..])
  }

  lemma {:induction false} UnlinesSnoc(ls: seq<string>, l: string)
    ensures Unlines(ls + [l]) == Unlines(ls) + l + "\n"
  {
    if ls == [] {
      assert [l][1..] == [];
    } else {
      assert (ls + [l])[1..] == ls[1..] + [l];
      UnlinesSnoc(ls[1..], l);
    }
  }

  /** `sep.join(ss)`. */
  function Join(ss: seq<string>, sep: string): string
  {
    if ss == [] then "" else if |ss| == 1 then ss[0] else ss[0] + sep + Join(ss[1..], sep)
  }

  lemma {:induction false} JoinSnoc(ss: seq<string>, t: string, sep: string)
    requires ss != []
    ensures Join(ss + [t], sep) == Join(ss, sep) + sep + t
  {
    if |ss| == 1 {
      assert (ss + [t])[1..] == [t];
    } else {
      assert (ss + [t])[1..] == ss[1..] + [t];
      JoinSnoc(ss[1..], t, sep);
    }
  }

  /** Index of the first `c` in `s`, or |s| when there is none. */
  function FirstIndex(s: string, c: char): (r: nat)
    ensures r <= |s|
    ensures forall i :: 0 <= i < r ==> s[i] != c
    ensures r < |s| ==> s[r] == c
  {
    if s == [] then 0 else if s[0] == c then 0 else 1 + FirstIndex(s[1..], c)
  }

  /** Lines of a text, as reading a file: a final '\n' ends the last line. */
  function SplitLines(s: string): seq<string>
    decreases |s|
  {
    if s == [] then []
    else
      var i := FirstIndex(s, '\n');
      if i == |s| then [s] else [s[..i]] + SplitLines(s[i + 1..])
  }

  predicate NoNewline(l: string) { '\n' !in l }

  lemma {:induction false} SplitUnlines(ls: seq<string>)
    requires forall k :: 0 <= k < |ls| ==> NoNewline(ls[k])
    ensures SplitLines(Unlines(ls)) == ls
  {
    if ls != [] {
      var s := Unlines(ls);
      var l := ls[0];
      assert s == l + ("\n" + Unlines(ls[1..]));
      FirstIndexOfPrefix(l, "\n" + Unlines(ls[1..]));
      assert s[..|l|] == l;
      assert s[|l| + 1..] == Unlines(ls[1..]);
      SplitUnlines(ls[1..]);
    }
  }

  lemma FirstIndexOfPrefix(l: string, rest: string)
    requires NoNewline(l) && |rest| > 0 && rest[0] == '\n'
    ensures FirstIndex(l + rest, '\n') == |l|
  {
    var r := FirstIndex(l + rest, '\n');
    assert forall i :: 0 <= i < |l| ==> (l + rest)[i] == l[i];
    assert (l + rest)[|l|] == '\n';
  }

  // ---------------------------------------------------------------------
  // Python string methods used to derive paths.

  /** `s.rstrip(chars)`: removes every trailing character that belongs to
      the SET `chars` (not a suffix). */
  function RStrip(s: string, chars: set<char>): (r: string)
    ensures |r| <= |s| && r == s[..|r|]
    ensures r != [] ==> r[|r| - 1] !in chars
    ensures forall i :: |r| <= i < |s| ==> s[i] in chars
  {
    if s == [] then s
    else if s[|s| - 1] in chars then RStrip(s[..|s| - 1], chars)
    else s
  }

  /** `s.rsplit(sep, 1)[0]`: the text before the last `sep`, or all of `s`. */
  function RSplitHead(s: string, sep: char): (r: string)
    ensures sep in s ==> exists t :: s == r + [sep] + t && sep !in t
    ensures sep !in s ==> r == s
  {
    var i := LastIndexAfter(s, sep);
    if i == 0 then
      s
    else
      assert s == s[..i - 1] + [sep] + s[i..];
      s[..i - 1]
  }

  /** `posixpath.dirname`: everything up to the last '/', with trailing
      slashes removed unless the head is made only of slashes. */
  function Dirname(p: string): (r: string)
    ensures |r| <= |p|
  {
    var i := LastIndexAfter(p, '/');
    var head := p[..i];
    if head != [] && !AllChar(head, '/') then RStrip(head, {'/'}) else head
  }

  /** One past the index of the last `c` in `s`, or 0 when there is none. */
  function LastIndexAfter(s: string, c: char): (r: nat)
    ensures r <= |s|
    ensures r > 0 ==> s[r - 1] == c
    ensures forall i :: r <= i < |s| ==> s[i] != c
  {
    if s == [] then 0
    else if s[|s| - 1] == c then |s|
    else LastIndexAfter(s[..|s| - 1], c)
  }

  predicate AllChar(s: string, c: char) { forall i :: 0 <= i < |s| ==> s[i] == c }

  /** `posixpath.join(a, b)` for two components. */
  function JoinPath(a: string, b: string): (r: string)
    ensures |b| > 0 && b[0] == '/' ==> r == b
  {
    if |b| > 0 && b[0] == '/' then b
    else if a == [] || a[|a| - 1] == '/' then a + b
    else a + "/" + b
  }
}
