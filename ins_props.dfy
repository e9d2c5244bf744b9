/** What the instruction file written by `write_ins_file` says: its lines,
    their advances, their separators and the names they capture. */
module InsProps {
  import opened Text
  import opened InsOrder
  import opened InsGroup
  import opened InsFile

  // ---------------------------------------------------------------------
  // The text line by line.

  /** The column part of a line holding the fields `fs`: each token, then
      a separator unless the column is the last one. */
  function ColsText(fs: seq<Field>, ncols: int, delimiter: string): string
  {
    if fs == [] then ""
    else
      var k := |fs| - 1;
      var t := ColsText(fs[..k], ncols, delimiter) + FieldText(fs[k]);
      if k != ncols - 1 then t + Separator(delimiter) else t
  }

  /** The text of one line, without its end of line. */
  function LineText(l: InsLine, ncols: int, delimiter: string): string
  {
    "l" + IntToString(l.advance) + ColsText(l.fields, ncols, delimiter)
  }

  function Lines(doc: seq<InsLine>, ncols: int, delimiter: string): (ls: seq<string>)
    ensures |ls| == |doc| && forall i :: 0 <= i < |doc| ==> ls[i] == LineText(doc[i], ncols, delimiter)
  {
    seq(|doc|, i requires 0 <= i < |doc| => LineText(doc[i], ncols, delimiter))
  }

  /** The text written up to column `k` of line `i` is the text before
      the line, its advance, and the first `k` column tokens. */
  lemma {:induction false} WrittenLineIs(gs: seq<RowGroup>, i: nat, k: nat, ncols: int, nlHeader: int,
                                         delimiter: string)
    requires AllWellFormed(gs) && i < |gs|
    ensures WrittenLine(gs, i, k, ncols, nlHeader, delimiter) ==
      Written(gs, i, ncols, nlHeader, delimiter)
        + ("l" + IntToString(Advance(gs, i, nlHeader)) + ColsText(Fields(gs[i], k), ncols, delimiter))
  {
    if k > 0 {
      WrittenLineIs(gs, i, k - 1, ncols, nlHeader, delimiter);
      WrittenLineStep(gs, i, k, ncols, nlHeader, delimiter);
    }
  }

  lemma WrittenLineStep(gs: seq<RowGroup>, i: nat, k: nat, ncols: int, nlHeader: int, delimiter: string)
    requires AllWellFormed(gs) && i < |gs| && k > 0
    requires WrittenLine(gs, i, k - 1, ncols, nlHeader, delimiter) ==
      Written(gs, i, ncols, nlHeader, delimiter)
        + ("l" + IntToString(Advance(gs, i, nlHeader)) + ColsText(Fields(gs[i], k - 1), ncols, delimiter))
    ensures WrittenLine(gs, i, k, ncols, nlHeader, delimiter) ==
      Written(gs, i, ncols, nlHeader, delimiter)
        + ("l" + IntToString(Advance(gs, i, nlHeader)) + ColsText(Fields(gs[i], k), ncols, delimiter))
  {
    var sep := if k - 1 != ncols - 1 then Separator(delimiter) else "";
    var f := FieldText(FieldAt(gs[i], k - 1));
    WrittenLineUnfold(gs, i, k, ncols, nlHeader, delimiter);
    ColsTextUnfold(Fields(gs[i], k), ncols, delimiter);
    assert Fields(gs[i], k)[..k - 1] == Fields(gs[i], k - 1);
    Regroup(WrittenLine(gs, i, k, ncols, nlHeader, delimiter), ColsText(Fields(gs[i], k), ncols, delimiter),
            Written(gs, i, ncols, nlHeader, delimiter), "l" + IntToString(Advance(gs, i, nlHeader)),
            ColsText(Fields(gs[i], k - 1), ncols, delimiter), f, sep);
  }

  lemma WrittenLineUnfold(gs: seq<RowGroup>, i: nat, k: nat, ncols: int, nlHeader: int, delimiter: string)
    requires AllWellFormed(gs) && i < |gs| && k > 0
    ensures WrittenLine(gs, i, k, ncols, nlHeader, delimiter) ==
      WrittenLine(gs, i, k - 1, ncols, nlHeader, delimiter) + FieldText(FieldAt(gs[i], k - 1)) +
        (if k - 1 != ncols - 1 then Separator(delimiter) else "")
  {
    var t := WrittenLine(gs, i, k - 1, ncols, nlHeader, delimiter) + FieldText(FieldAt(gs[i], k - 1));
    assert t + "" == t;
  }

  lemma ColsTextUnfold(fs: seq<Field>, ncols: int, delimiter: string)
    requires fs != []
    ensures ColsText(fs, ncols, delimiter) ==
      ColsText(fs[..|fs| - 1], ncols, delimiter) + FieldText(fs[|fs| - 1]) +
        (if |fs| - 1 != ncols - 1 then Separator(delimiter) else "")
  {
    var t := ColsText(fs[..|fs| - 1], ncols, delimiter) + FieldText(fs[|fs| - 1]);
    assert t + "" == t;
  }

  lemma LinesSnoc(doc: seq<InsLine>, i: nat, ncols: int, delimiter: string)
    requires 0 < i <= |doc|
    ensures ["pif @"] + Lines(doc[..i], ncols, delimiter) ==
      (["pif @"] + Lines(doc[..i - 1], ncols, delimiter)) + [LineText(doc[i - 1], ncols, delimiter)]
  {
    LinesPrefix(doc, i, ncols, delimiter);
    ConsSnoc("pif @", Lines(doc[..i], ncols, delimiter), Lines(doc[..i - 1], ncols, delimiter),
             LineText(doc[i - 1], ncols, delimiter));
  }

  lemma LinesPrefix(doc: seq<InsLine>, i: nat, ncols: int, delimiter: string)
    requires 0 < i <= |doc|
    ensures Lines(doc[..i], ncols, delimiter) == Lines(doc[..i - 1], ncols, delimiter) + [LineText(doc[i - 1], ncols, delimiter)]
  {
    var la := Lines(doc[..i], ncols, delimiter);
    var lb := Lines(doc[..i - 1], ncols, delimiter);
    forall j | 0 <= j < i - 1 ensures la[j] == lb[j] {
      assert doc[..i][j] == doc[..i - 1][j];
    }
    assert doc[..i][i - 1] == doc[i - 1];
    SnocExt(la, lb, LineText(doc[i - 1], ncols, delimiter));
  }

  lemma SnocExt<T>(a: seq<T>, b: seq<T>, x: T)
    requires |a| == |b| + 1 && a[|b|] == x && forall j :: 0 <= j < |b| ==> a[j] == b[j]
    ensures a == b + [x]
  {
  }

  lemma ConsSnoc<T>(h: T, la: seq<T>, lb: seq<T>, x: T)
    requires la == lb + [x]
    ensures [h] + la == ([h] + lb) + [x]
  {
  }

  lemma Regroup(a: string, b: string, w: string, l: string, c: string, f: string, sep: string)
    requires a == (w + (l + c)) + f + sep && b == c + f + sep
    ensures a == w + (l + b)
  {
  }

  /** A whole line of the file is the text of its entry in InsDoc. */
  lemma WrittenLineFull(gs: seq<RowGroup>, i: nat, ncols: int, nlHeader: int, delimiter: string)
    requires AllWellFormed(gs) && i < |gs|
    ensures WrittenLine(gs, i, ColumnCount(ncols), ncols, nlHeader, delimiter) ==
      Written(gs, i, ncols, nlHeader, delimiter) + LineText(InsDoc(gs, ncols, nlHeader)[i], ncols, delimiter)
  {
    WrittenLineIs(gs, i, ColumnCount(ncols), ncols, nlHeader, delimiter);
  }

  lemma Rejoin(a: string, b: string, c: string, d: string, e: string, lt: string)
    requires a == b + "\n" && b == c + lt && c == d && e == d + lt + "\n"
    ensures a == e
  {
  }

  lemma {:induction false} WrittenIs(gs: seq<RowGroup>, i: nat, ncols: int, nlHeader: int, delimiter: string)
    requires AllWellFormed(gs) && i <= |gs|
    ensures Written(gs, i, ncols, nlHeader, delimiter) ==
      Unlines(["pif @"] + Lines(InsDoc(gs, ncols, nlHeader)[..i], ncols, delimiter))
  {
    if i == 0 {
      assert ["pif @"] + Lines(InsDoc(gs, ncols, nlHeader)[..0], ncols, delimiter) == ["pif @"];
    } else {
      WrittenIs(gs, i - 1, ncols, nlHeader, delimiter);
      WrittenIsStep(gs, i, ncols, nlHeader, delimiter);
    }
  }

  lemma WrittenIsStep(gs: seq<RowGroup>, i: nat, ncols: int, nlHeader: int, delimiter: string)
    requires AllWellFormed(gs) && 0 < i <= |gs|
    requires Written(gs, i - 1, ncols, nlHeader, delimiter) ==
      Unlines(["pif @"] + Lines(InsDoc(gs, ncols, nlHeader)[..i - 1], ncols, delimiter))
    ensures Written(gs, i, ncols, nlHeader, delimiter) ==
      Unlines(["pif @"] + Lines(InsDoc(gs, ncols, nlHeader)[..i], ncols, delimiter))
  {
    var doc := InsDoc(gs, ncols, nlHeader);
    var lt := LineText(doc[i - 1], ncols, delimiter);
    var ls := ["pif @"] + Lines(doc[..i - 1], ncols, delimiter);
    var wl := WrittenLine(gs, i - 1, ColumnCount(ncols), ncols, nlHeader, delimiter);
    WrittenLineFull(gs, i - 1, ncols, nlHeader, delimiter);
    LinesSnoc(doc, i, ncols, delimiter);
    UnlinesSnoc(ls, lt);
    Rejoin(Written(gs, i, ncols, nlHeader, delimiter), wl, Written(gs, i - 1, ncols, nlHeader, delimiter),
           Unlines(ls), Unlines(ls + [lt]), lt);
  }

  /** The file is the header line `pif @` followed by one line per row
      group, each ended by a newline. */
  lemma RenderLines(gs: seq<RowGroup>, ncols: int, nlHeader: int, delimiter: string)
    requires AllWellFormed(gs)
    ensures Render(gs, ncols, nlHeader, delimiter) ==
      Unlines(["pif @"] + Lines(InsDoc(gs, ncols, nlHeader), ncols, delimiter))
  {
    WrittenIs(gs, |gs|, ncols, nlHeader, delimiter);
    assert InsDoc(gs, ncols, nlHeader)[..|gs|] == InsDoc(gs, ncols, nlHeader);
  }

  /** A line holding all `ncols` columns is the tokens joined by
      ` @<delimiter>@`: `ncols - 1` separators and none after the last. */
  lemma ColsTextJoin(fs: seq<Field>, ncols: int, delimiter: string)
    requires |fs| == ncols >= 1
    ensures ColsText(fs, ncols, delimiter) ==
      Join(seq(|fs|, k requires 0 <= k < |fs| => FieldText(fs[k])), Separator(delimiter))
  {
    ColsTextPrefix(fs, |fs|, ncols, delimiter);
    assert fs[..|fs|] == fs;
  }

  lemma {:induction false} ColsTextPrefix(fs: seq<Field>, m: nat, ncols: int, delimiter: string)
    requires 1 <= m <= |fs| == ncols
    ensures ColsText(fs[..m], ncols, delimiter) ==
      Join(seq(m, k requires 0 <= k < m => FieldText(fs[k])), Separator(delimiter))
        + (if m != ncols then Separator(delimiter) else "")
  {
    var ts := seq(m, k requires 0 <= k < m => FieldText(fs[k]));
    assert fs[..m][..m - 1] == fs[..m - 1];
    if m == 1 {
      assert ColsText(fs[..0], ncols, delimiter) == "";
    } else {
      ColsTextPrefix(fs, m - 1, ncols, delimiter);
      var ts' := seq(m - 1, k requires 0 <= k < m - 1 => FieldText(fs[k]));
      assert ts == ts' + [FieldText(fs[m - 1])];
      JoinSnoc(ts', FieldText(fs[m - 1]), Separator(delimiter));
    }
  }

  // ---------------------------------------------------------------------
  // Reading the file back line by line.

  predicate NamesNoNewline(inds: seq<Triple>)
  {
    forall i :: 0 <= i < |inds| ==> NoNewline(inds[i].name)
  }

  predicate FieldsNoNewline(fs: seq<Field>)
  {
    forall k :: 0 <= k < |fs| ==> fs[k].Capture? ==> NoNewline(fs[k].name)
  }

  lemma IntToStringNoNewline(n: int)
    ensures NoNewline(IntToString(n))
  {
    var s := IntToString(n);
    if n < 0 {
      assert forall k :: 1 <= k < |s| ==> IsDigit(s[k]) by { assert s[1..] == NatToString(-n); }
    }
    assert forall k :: 0 <= k < |s| ==> s[k] != '\n';
  }

  lemma {:induction false} ColsTextNoNewline(fs: seq<Field>, ncols: int, delimiter: string)
    requires FieldsNoNewline(fs) && NoNewline(delimiter)
    ensures NoNewline(ColsText(fs, ncols, delimiter))
  {
    if fs != [] {
      var k := |fs| - 1;
      assert FieldsNoNewline(fs[..k]);
      ColsTextNoNewline(fs[..k], ncols, delimiter);
      assert NoNewline(FieldText(fs[k]));
      assert NoNewline(Separator(delimiter));
    }
  }

  /** Every name a group captures is one of its records' names. */
  lemma FieldsFromGroup(g: RowGroup, m: nat)
    requires WellFormed(g)
    ensures forall k :: 0 <= k < m ==> Fields(g, m)[k].Capture? ==> Fields(g, m)[k].name in g.names
  {
  }

  /** The names of a row group come from the records, so they hold no
      newline when no record name does. */
  lemma GroupNamesNoNewline(s: seq<Triple>, i: nat)
    requires NamesNoNewline(s) && i < |Grouped(s)|
    ensures forall j :: 0 <= j < |Grouped(s)[i].names| ==> NoNewline(Grouped(s)[i].names[j])
  {
    FlattenGrouped(s);
    FlattenNamesNoNewline(s, Grouped(s), i);
  }

  lemma FlattenNamesNoNewline(s: seq<Triple>, gs: seq<RowGroup>, i: nat)
    requires AllWellFormed(gs) && Flatten(gs) == s && NamesNoNewline(s) && i < |gs|
    ensures forall j :: 0 <= j < |gs[i].names| ==> NoNewline(gs[i].names[j])
  {
    MembersInFlatten(gs, i);
    var lo := |Flatten(gs[..i])|;
    forall j | 0 <= j < |gs[i].names| ensures NoNewline(gs[i].names[j]) {
      assert Members(gs[i])[j] == s[lo + j];
    }
  }

  lemma CoerceNoNewline(inds: seq<Triple>, fieldWd: nat)
    requires NamesNoNewline(inds)
    ensures NamesNoNewline(Coerce(inds, fieldWd))
  {
    var c := Coerce(inds, fieldWd);
    forall i | 0 <= i < |c| ensures NoNewline(c[i].name) {
      var n := inds[i].name;
      assert c[i].name == n[..|c[i].name|];
    }
  }

  lemma PermutedNoNewline(a: seq<Triple>, b: seq<Triple>)
    requires NamesNoNewline(a) && multiset(a) == multiset(b)
    ensures NamesNoNewline(b)
  {
    forall i | 0 <= i < |b| ensures NoNewline(b[i].name) {
      assert b[i] in multiset(a);
      var j :| 0 <= j < |a| && a[j] == b[i];
    }
  }

  lemma DocNoNewline(s: seq<Triple>, ncols: int, nlHeader: int, delimiter: string)
    requires NamesNoNewline(s) && NoNewline(delimiter)
    ensures forall i :: 0 <= i < |Grouped(s)| ==>
      NoNewline(LineText(InsDoc(Grouped(s), ncols, nlHeader)[i], ncols, delimiter))
  {
    var gs := Grouped(s);
    var doc := InsDoc(gs, ncols, nlHeader);
    forall i | 0 <= i < |gs| ensures NoNewline(LineText(doc[i], ncols, delimiter)) {
      GroupNamesNoNewline(s, i);
      FieldsFromGroup(gs[i], ColumnCount(ncols));
      assert FieldsNoNewline(doc[i].fields);
      ColsTextNoNewline(doc[i].fields, ncols, delimiter);
      IntToStringNoNewline(doc[i].advance);
    }
  }

  lemma HeaderNoNewline()
    ensures NoNewline("pif @")
  {
    assert forall c :: 0 <= c < |"pif @"| ==> "pif @"[c] != '\n';
  }

  lemma ConsNoNewline(h: string, rest: seq<string>)
    requires NoNewline(h) && forall k :: 0 <= k < |rest| ==> NoNewline(rest[k])
    ensures forall k :: 0 <= k < |[h] + rest| ==> NoNewline(([h] + rest)[k])
  {
  }

  /** Read back line by line, the instruction file is the header `pif @`
      and then one line per entry of InsDoc, as long as no name and not the
      delimiter holds a newline. */
  lemma InsTextLines(obsInds: seq<Triple>, predInds: seq<Triple>, ncols: int, nlHeader: int,
                     fieldWd: nat, delimiter: string)
    requires NamesNoNewline(obsInds) && NamesNoNewline(predInds) && NoNewline(delimiter)
    ensures var all := Sort(Coerce(obsInds, fieldWd) + Coerce(predInds, fieldWd));
      SplitLines(InsText(obsInds, predInds, ncols, nlHeader, fieldWd, delimiter)) ==
        ["pif @"] + Lines(InsDoc(Grouped(all), ncols, nlHeader), ncols, delimiter)
  {
    var merged := Coerce(obsInds, fieldWd) + Coerce(predInds, fieldWd);
    var all := Sort(merged);
    CoerceNoNewline(obsInds, fieldWd);
    CoerceNoNewline(predInds, fieldWd);
    assert NamesNoNewline(merged);
    PermutedNoNewline(merged, all);
    DocNoNewline(all, ncols, nlHeader, delimiter);
    var gs := Grouped(all);
    var ls := ["pif @"] + Lines(InsDoc(gs, ncols, nlHeader), ncols, delimiter);
    var text := InsText(obsInds, predInds, ncols, nlHeader, fieldWd, delimiter);
    assert text == Unlines(ls) by {
      RenderLines(gs, ncols, nlHeader, delimiter);
    }
    HeaderNoNewline();
    ConsNoNewline("pif @", Lines(InsDoc(gs, ncols, nlHeader), ncols, delimiter));
    SplitUnlines(ls);
  }
}
