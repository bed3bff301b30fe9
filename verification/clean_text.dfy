/**
 * clean_text, the page-text normaliser of execute_search: a regular-expression pass that
 * collapses every run of blank lines into one, then strip-and-drop-empty over the lines,
 * then a newline join.
 */
module PageText {
  import opened Text

  /** Length of the longest all-whitespace prefix of `s`. */
  function SpaceRun(s: string): (n: nat)
    ensures n <= |s| && AllSpace(s[..n]) && (n == |s| || !IsSpace(s[n]))
    decreases |s|
  {
    if s != [] && IsSpace(s[0]) then
      var n := 1 + SpaceRun(s[1..]);
      assert forall i :: 1 <= i < n ==> s[..n][i] == s[1..][..n - 1][i - 1];
      n
    else 0
  }

  /** Index of the last newline in `s`, or -1 when there is none. */
  function LastNewline(s: string): (k: int)
    ensures -1 <= k < |s|
    ensures k >= 0 ==> s[k] == '\n'
    ensures forall i :: k < i < |s| ==> s[i] != '\n'
    decreases |s|
  {
    if s == [] then -1
    else if s[|s| - 1] == '\n' then |s| - 1
    else LastNewline(s[..|s| - 1])
  }

  /**
   * re.sub(r'\n\s*\n+', '\n\n', s). At a newline the greedy `\s*` takes the whole whitespace
   * run and backtracks to its last newline, which `\n+` then takes; the match is replaced and
   * scanning resumes after it. Without a second newline in the run there is no match there.
   */
  function Collapse(s: string): string
    decreases |s|
  {
    if s == [] then []
    else if s[0] != '\n' then [s[0]] + Collapse(s[1..])
    else
      var t := s[1..];
      var k := LastNewline(t[..SpaceRun(t)]);
      if k < 0 then "\n" + Collapse(t) else "\n\n" + Collapse(t[k + 1..])
  }

  /** The stripped, non-empty lines of a list of lines, in order. */
  function KeptLines(lines: seq<string>): seq<string>
    decreases |lines|
  {
    if lines == [] then []
    else (if Strip(lines[0]) == [] then [] else [Strip(lines[0])]) + KeptLines(lines[1..])
  }

  /** The stripped, non-empty lines of a text. */
  function Kept(s: string): seq<string> {
    KeptLines(SplitLines(s))
  }

  /** clean_text(text). */
  function CleanText(text: string): string {
    Join("\n", Kept(Collapse(text)))
  }

  lemma {:induction false} KeptLinesConcat(a: seq<string>, b: seq<string>)
    ensures KeptLines(a + b) == KeptLines(a) + KeptLines(b)
    decreases |a|
  {
    if a == [] {
      assert a + b == b;
    } else {
      var head := if Strip(a[0]) == [] then [] else [Strip(a[0])];
      assert (a + b)[0] == a[0];
      assert (a + b)[1..] == a[1..] + b;
      KeptLinesConcat(a[1..], b);
      calc {
        KeptLines(a + b);
        head + KeptLines(a[1..] + b);
        head + (KeptLines(a[1..]) + KeptLines(b));
        { SeqAssoc(head, KeptLines(a[1..]), KeptLines(b)); }
        head + KeptLines(a[1..]) + KeptLines(b);
      }
    }
  }

  /** A line as clean_text emits it: non-empty, newline-free, its own strip. */
  predicate CleanLine(l: string) {
    l != [] && '\n' !in l && Strip(l) == l
  }

  lemma {:induction false} KeptLinesProps(lines: seq<string>)
    requires forall i :: 0 <= i < |lines| ==> '\n' !in lines[i]
    ensures forall i :: 0 <= i < |KeptLines(lines)| ==> CleanLine(KeptLines(lines)[i])
    decreases |lines|
  {
    if lines != [] {
      var rest := lines[1..];
      assert forall i :: 0 <= i < |rest| ==> rest[i] == lines[i + 1];
      KeptLinesProps(rest);
      var t := Strip(lines[0]);
      var head := if t == [] then [] else [t];
      if t != [] {
        StrippedLineClean(lines[0]);
      }
      CleanLinesConcat(head, KeptLines(rest));
    }
  }

  /** A newline-free line that is not blank strips to a clean line. */
  lemma StrippedLineClean(l: string)
    requires '\n' !in l && Strip(l) != []
    ensures CleanLine(Strip(l))
  {
    StripFixed(Strip(l));
  }

  lemma CleanLinesConcat(a: seq<string>, b: seq<string>)
    requires forall i :: 0 <= i < |a| ==> CleanLine(a[i])
    requires forall i :: 0 <= i < |b| ==> CleanLine(b[i])
    ensures forall i :: 0 <= i < |a + b| ==> CleanLine((a + b)[i])
  {
    forall i | 0 <= i < |a + b| ensures CleanLine((a + b)[i]) {
      if i >= |a| { assert (a + b)[i] == b[i - |a|]; }
    }
  }

  lemma {:induction false} KeptLinesBlank(lines: seq<string>)
    requires forall i :: 0 <= i < |lines| ==> AllSpace(lines[i])
    ensures KeptLines(lines) == []
    decreases |lines|
  {
    if lines != [] { KeptLinesBlank(lines[1..]); }
  }

  lemma {:induction false} KeptLinesFixed(lines: seq<string>)
    requires forall i :: 0 <= i < |lines| ==> lines[i] != [] && Strip(lines[i]) == lines[i]
    ensures KeptLines(lines) == lines
    decreases |lines|
  {
    if lines != [] {
      var rest := lines[1..];
      assert forall i :: 0 <= i < |rest| ==> rest[i] == lines[i + 1];
      KeptLinesFixed(rest);
      assert KeptLines(lines) == [lines[0]] + KeptLines(rest);
      assert [lines[0]] + rest == lines;
    }
  }

  /** The kept lines of a text split at one of its newlines are those of the two halves. */
  lemma KeptAtNewline(a: string, b: string)
    ensures Kept(a + "\n" + b) == Kept(a) + Kept(b)
  {
    SplitLinesAtNewline(a, b);
    KeptLinesConcat(SplitLines(a), SplitLines(b));
  }

  /** A whitespace-only text keeps no line. */
  lemma KeptBlank(w: string)
    requires AllSpace(w)
    ensures Kept(w) == []
  {
    var lines := SplitLines(w);
    forall i | 0 <= i < |lines| ensures AllSpace(lines[i]) {
      forall j | 0 <= j < |lines[i]| ensures IsSpace(lines[i][j]) {
        SplitLinesChars(w, i, lines[i][j]);
      }
    }
    KeptLinesBlank(lines);
  }

  lemma KeptEmpty()
    ensures Kept("") == []
  {
    assert SplitLines("") == [""];
    assert Strip("") == [];
    assert KeptLines([""]) == [] + KeptLines([]);
  }

  /** The two blank lines of "\n\n" are dropped. */
  lemma KeptDoubleNewline(p: string, q: string)
    ensures Kept(p + ("\n\n" + q)) == Kept(p) + Kept(q)
  {
    var b := "" + "\n" + q;
    calc {
      Kept(p + ("\n\n" + q));
      { assert "\n\n" + q == "\n" + b; SeqAssoc(p, "\n", b); }
      Kept(p + "\n" + b);
      { KeptAtNewline(p, b); }
      Kept(p) + Kept(b);
      { KeptAtNewline("", q); KeptEmpty(); }
      Kept(p) + ([] + Kept(q));
      { assert [] + Kept(q) == Kept(q); }
      Kept(p) + Kept(q);
    }
  }

  /** A whitespace-only stretch between two newlines is dropped. */
  lemma KeptBlankRun(p: string, w: string, q: string)
    requires AllSpace(w)
    ensures Kept(p + ("\n" + (w + "\n" + q))) == Kept(p) + Kept(q)
  {
    var b := w + "\n" + q;
    calc {
      Kept(p + ("\n" + b));
      { SeqAssoc(p, "\n", b); }
      Kept(p + "\n" + b);
      { KeptAtNewline(p, b); }
      Kept(p) + Kept(b);
      { KeptAtNewline(w, q); KeptBlank(w); }
      Kept(p) + ([] + Kept(q));
      { assert [] + Kept(q) == Kept(q); }
      Kept(p) + Kept(q);
    }
  }

  /** Replacing a blank-line run "\n w \n" by "\n\n" keeps the same lines. */
  lemma KeptCollapseMatch(p: string, w: string, q: string)
    requires AllSpace(w)
    ensures Kept(p + ("\n\n" + q)) == Kept(p + ("\n" + (w + "\n" + q)))
  {
    KeptDoubleNewline(p, q);
    KeptBlankRun(p, w, q);
  }

  /** A non-newline character is copied by the regular-expression pass. */
  lemma CollapsePlainStep(s: string)
    requires s != [] && s[0] != '\n'
    ensures Collapse(s) == [s[0]] + Collapse(s[1..])
  {
  }

  /** A newline with no second newline in the whitespace after it is copied. */
  lemma CollapseNoMatchStep(s: string)
    requires s != [] && s[0] == '\n'
    requires LastNewline(s[1..][..SpaceRun(s[1..])]) < 0
    ensures Collapse(s) == [s[0]] + Collapse(s[1..])
  {
  }

  /** A newline followed by whitespace holding another newline starts a blank-line run. */
  lemma CollapseMatchStep(s: string) returns (w: string, q: string)
    requires s != [] && s[0] == '\n'
    requires LastNewline(s[1..][..SpaceRun(s[1..])]) >= 0
    ensures AllSpace(w) && |q| < |s|
    ensures Collapse(s) == "\n\n" + Collapse(q)
    ensures s == "\n" + (w + "\n" + q)
  {
    var t := s[1..];
    var n := SpaceRun(t);
    var k := LastNewline(t[..n]);
    q := t[k + 1..];
    w := t[..k];
    assert AllSpace(w) by {
      forall i | 0 <= i < |w| ensures IsSpace(w[i]) { assert w[i] == t[..n][i]; }
    }
    assert t == w + [t[k]] + q;
    assert t[k] == t[..n][k];
  }

  lemma ConsSplit(s: string)
    requires s != []
    ensures s == [s[0]] + s[1..]
  {
  }

  /** The regular-expression pass never changes the kept lines, whatever text precedes it. */
  lemma {:induction false} KeptCollapse(p: string, s: string)
    ensures Kept(p + Collapse(s)) == Kept(p + s)
    decreases |s|
  {
    if s != [] {
      if s[0] != '\n' || LastNewline(s[1..][..SpaceRun(s[1..])]) < 0 {
        KeptCollapse(p + [s[0]], s[1..]);
        if s[0] != '\n' { CollapsePlainStep(s); } else { CollapseNoMatchStep(s); }
        SeqAssoc(p, [s[0]], Collapse(s[1..]));
        ConsSplit(s);
        SeqAssoc(p, [s[0]], s[1..]);
      } else {
        var w, q := CollapseMatchStep(s);
        KeptCollapse(p + "\n\n", q);
        SeqAssoc(p, "\n\n", Collapse(q));
        SeqAssoc(p, "\n\n", q);
        KeptCollapseMatch(p, w, q);
      }
    }
  }

  /** The regular-expression step is subsumed by the strip-and-filter step. */
  lemma CleanTextIgnoresCollapse(text: string)
    ensures CleanText(text) == Join("\n", Kept(text))
  {
    KeptCollapse("", Collapse(text));
    KeptCollapse("", text);
    assert "" + Collapse(text) == Collapse(text);
    assert "" + text == text;
  }

  /** The output has no empty line and every line is its own strip. */
  lemma CleanTextLines(text: string)
    ensures CleanText(text) == [] <==> Kept(text) == []
    ensures CleanText(text) != [] ==> SplitLines(CleanText(text)) == Kept(text)
    ensures forall i :: 0 <= i < |Kept(text)| ==> CleanLine(Kept(text)[i])
  {
    CleanTextIgnoresCollapse(text);
    var lines := Kept(text);
    KeptLinesProps(SplitLines(text));
    if lines != [] {
      CleanJoinSplits(lines);
    }
  }

  /** Joined clean lines form a non-empty text that splits back into them. */
  lemma CleanJoinSplits(lines: seq<string>)
    requires lines != [] && forall i :: 0 <= i < |lines| ==> CleanLine(lines[i])
    ensures Join("\n", lines) != [] && SplitLines(Join("\n", lines)) == lines
  {
    assert forall i :: 0 <= i < |lines| ==> '\n' !in lines[i];
    SplitJoinLines(lines);
    assert SplitLines([]) == [""];
    assert lines[0] != [];
  }

  /** Joining already clean lines and keeping the lines of the result gives them back. */
  lemma KeptOfCleanLines(lines: seq<string>)
    requires forall i :: 0 <= i < |lines| ==> CleanLine(lines[i])
    ensures Kept(Join("\n", lines)) == lines
  {
    if lines == [] {
      KeptEmpty();
    } else {
      SplitJoinLines(lines);
      KeptLinesFixed(lines);
    }
  }

  /** Cleaning a cleaned text changes nothing. */
  lemma CleanTextIdempotent(text: string)
    ensures CleanText(CleanText(text)) == CleanText(text)
  {
    var once := CleanText(text);
    var lines := Kept(text);
    CleanTextIgnoresCollapse(text);
    CleanTextIgnoresCollapse(once);
    KeptLinesProps(SplitLines(text));
    KeptOfCleanLines(lines);
  }
}
