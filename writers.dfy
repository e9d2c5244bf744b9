/** `write_tpl_file` and `write_dict`: two fixed-format line writers, with
    readers that recover what was written. */
module Writers {
  import opened Text

  // ---------------------------------------------------------------------
  // write_tpl_file (input_output.py:653-657).

  /** `'%s #%s       #\n' % (p, p)` without its newline: the name, then
      the name between the `#` markers of a 7-character-wide field. */
  function TplLine(p: string): string
  {
    p + " #" + p + "       #"
  }

  /** The file as written after the first `n` parameters. */
  function TplWritten(parNames: seq<string>, n: nat): string
    requires n <= |parNames|
  {
    if n == 0 then "ptf #\n" else TplWritten(parNames, n - 1) + (TplLine(parNames[n - 1]) + "\n")
  }

  method WriteTplFile(parNames: seq<string>) returns (text: string)
    ensures text == TplWritten(parNames, |parNames|)
  {
    text := "ptf #\n";
    for i := 0 to |parNames|
      invariant text == TplWritten(parNames, i)
    {
      var p := parNames[i];
      text := text + (p + " #" + p + "       #\n");
    }
  }

  function TplLines(parNames: seq<string>): (ls: seq<string>)
    ensures |ls| == |parNames| && forall i :: 0 <= i < |parNames| ==> ls[i] == TplLine(parNames[i])
  {
    seq(|parNames|, i requires 0 <= i < |parNames| => TplLine(parNames[i]))
  }

  lemma StrAssoc(a: string, b: string, c: string, x: string, y: string)
    requires x == a + b && y == x + c
    ensures y == a + (b + c)
  {
  }

  lemma {:induction false} TplWrittenLines(parNames: seq<string>, n: nat)
    requires n <= |parNames|
    ensures TplWritten(parNames, n) == Unlines(["ptf #"] + TplLines(parNames[..n]))
  {
    if n == 0 {
      assert ["ptf #"] + TplLines(parNames[..0]) == ["ptf #"];
    } else {
      TplWrittenLines(parNames, n - 1);
      var ls := ["ptf #"] + TplLines(parNames[..n - 1]);
      var l := TplLine(parNames[n - 1]);
      assert ["ptf #"] + TplLines(parNames[..n]) == ls + [l] by {
        assert TplLines(parNames[..n]) == TplLines(parNames[..n - 1]) + [l];
      }
      UnlinesSnoc(ls, l);
      StrAssoc(TplWritten(parNames, n - 1), l, "\n", Unlines(ls) + l, Unlines(ls + [l]));
    }
  }

  predicate PlainName(p: string) { '\n' !in p && '#' !in p }

  /** The parameter named by a template line: the text before its first
      `#`, less the blank in front of it. */
  function TplParam(line: string): string
  {
    var i := FirstIndex(line, '#');
    if i == 0 then "" else line[..i - 1]
  }

  lemma FirstIndexAt(u: string, rest: string, c: char)
    requires c !in u && |rest| > 0 && rest[0] == c
    ensures FirstIndex(u + rest, c) == |u|
  {
    assert forall i :: 0 <= i < |u| ==> (u + rest)[i] == u[i];
    assert (u + rest)[|u|] == c;
  }

  lemma PrefixOf(a: string, b: string)
    ensures (a + b)[..|a|] == a
  {
  }

  lemma TplParamOfLine(p: string)
    requires PlainName(p)
    ensures TplParam(TplLine(p)) == p
    ensures NoNewline(TplLine(p))
  {
    var u := p + " ";
    var rest := "#" + p + "       #";
    assert TplLine(p) == u + rest;
    FirstIndexAt(u, rest, '#');
    PrefixOf(p, " " + rest);
    assert u + rest == p + (" " + rest);
  }

  /** Reading the template back line by line gives the header `ptf #` and
      then each parameter, in input order and nothing else. */
  lemma TplRoundTrip(parNames: seq<string>, text: string)
    requires forall i :: 0 <= i < |parNames| ==> PlainName(parNames[i])
    requires text == TplWritten(parNames, |parNames|)
    ensures var ls := SplitLines(text);
      |ls| == |parNames| + 1 && ls[0] == "ptf #" &&
      forall i :: 0 <= i < |parNames| ==> TplParam(ls[i + 1]) == parNames[i]
  {
    TplWrittenLines(parNames, |parNames|);
    assert parNames[..|parNames|] == parNames;
    var ls := ["ptf #"] + TplLines(parNames);
    forall k | 0 <= k < |ls| ensures NoNewline(ls[k]) {
      if k == 0 {
        assert forall c :: 0 <= c < |ls[0]| ==> ls[0][c] != '\n';
      } else {
        TplParamOfLine(parNames[k - 1]);
      }
    }
    SplitUnlines(ls);
    forall i | 0 <= i < |parNames| ensures TplParam(ls[i + 1]) == parNames[i] {
      TplParamOfLine(parNames[i]);
    }
  }

  // ---------------------------------------------------------------------
  // write_dict (input_output.py:259-261).

  /** `k + ' ' + str(v)` without its newline; `str(v)` is supplied. */
  function DictLine(key: string, value: string): string
  {
    key + " " + value
  }

  /** The file as written after the first `n` entries, in the dictionary's
      iteration order. */
  function DictWritten(entries: seq<(string, string)>, n: nat): string
    requires n <= |entries|
  {
    if n == 0 then "" else DictWritten(entries, n - 1) + (DictLine(entries[n - 1].0, entries[n - 1].1) + "\n")
  }

  method WriteDict(entries: seq<(string, string)>) returns (text: string)
    ensures text == DictWritten(entries, |entries|)
  {
    text := "";
    for i := 0 to |entries|
      invariant text == DictWritten(entries, i)
    {
      var (k, v) := entries[i];
      text := text + (k + " " + v + "\n");
    }
  }

  function DictLines(entries: seq<(string, string)>): (ls: seq<string>)
    ensures |ls| == |entries| && forall i :: 0 <= i < |entries| ==> ls[i] == DictLine(entries[i].0, entries[i].1)
  {
    seq(|entries|, i requires 0 <= i < |entries| => DictLine(entries[i].0, entries[i].1))
  }

  lemma {:induction false} DictWrittenLines(entries: seq<(string, string)>, n: nat)
    requires n <= |entries|
    ensures DictWritten(entries, n) == Unlines(DictLines(entries[..n]))
  {
    if n > 0 {
      DictWrittenLines(entries, n - 1);
      var ls := DictLines(entries[..n - 1]);
      var l := DictLine(entries[n - 1].0, entries[n - 1].1);
      assert DictLines(entries[..n]) == ls + [l];
      UnlinesSnoc(ls, l);
      StrAssoc(DictWritten(entries, n - 1), l, "\n", Unlines(ls) + l, Unlines(ls + [l]));
    } else {
      assert DictLines(entries[..0]) == [];
    }
  }

  /** A line of the file read as two columns: the key up to the first
      blank, and the rest. */
  function DictEntry(line: string): (string, string)
  {
    var i := FirstIndex(line, ' ');
    if i == |line| then (line, "") else (line[..i], line[i + 1..])
  }

  predicate PlainKey(k: string) { '\n' !in k && ' ' !in k }

  lemma DictEntryOfLine(key: string, value: string)
    requires PlainKey(key) && '\n' !in value
    ensures DictEntry(DictLine(key, value)) == (key, value)
    ensures NoNewline(DictLine(key, value))
  {
    var l := DictLine(key, value);
    FirstIndexAt(key, " " + value, ' ');
    assert l == key + (" " + value);
    PrefixOf(key, " " + value);
    assert l[|key| + 1..] == value;
  }

  /** Reading the file back as two columns gives the entries, in order,
      when no key holds a blank and nothing holds a newline. */
  lemma DictRoundTrip(entries: seq<(string, string)>, text: string)
    requires forall i :: 0 <= i < |entries| ==> PlainKey(entries[i].0) && '\n' !in entries[i].1
    requires text == DictWritten(entries, |entries|)
    ensures var ls := SplitLines(text);
      |ls| == |entries| && forall i :: 0 <= i < |entries| ==> DictEntry(ls[i]) == entries[i]
  {
    DictWrittenLines(entries, |entries|);
    assert entries[..|entries|] == entries;
    var ls := DictLines(entries);
    forall k | 0 <= k < |ls| ensures NoNewline(ls[k]) && DictEntry(ls[k]) == entries[k] {
      DictEntryOfLine(entries[k].0, entries[k].1);
    }
    SplitUnlines(ls);
  }
}
