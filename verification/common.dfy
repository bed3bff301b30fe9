/** Failure-carrying wrappers shared by every module of the model. */
module Wrappers {

  datatype Option<+T> = None | Some(value: T) {
    function GetOr(default: T): T {
      match this
      case Some(v) => v
      case None => default
    }
  }

  /** The errors that abort a run: every one of them is re-raised by the node that meets it. */
  datatype Failure =
    | ModelCallFailed      // a language-model call raised (network, provider, schema validation)
    | EmptyPlan            // plan_tasks: the planner returned zero tasks
    | NoTasks              // generate_final_answer: the task list is empty
    | MissingTaskResult    // generate_final_answer: a task has no task_result key
    | NoUserMessage        // generate_final_answer: the message list is empty

  datatype Result<+T> = Ok(value: T) | Err(error: Failure)

  /** What an external language-model call gives back: a value, or an exception. */
  datatype Reply<+T> = Replied(value: T) | CallFailed
}

/** Small text utilities with Python's semantics: str(n), sep.join, s.split('\n'), s.strip(). */
module Text {

  predicate IsDigit(c: char) {
    '0' <= c <= '9'
  }

  function Digit(d: nat): (c: char)
    requires d < 10
    ensures IsDigit(c) && c as int - '0' as int == d
  {
    (('0' as int) + d) as char
  }

  /** Python's str(n) for a non-negative integer: decimal, no leading zeros. */
  function NatToString(n: nat): (s: string)
    ensures |s| >= 1
    ensures forall i :: 0 <= i < |s| ==> IsDigit(s[i])
    ensures s[0] == '0' <==> n == 0
    ensures n == 0 ==> s == "0"
    decreases n
  {
    if n < 10 then [Digit(n)] else NatToString(n / 10) + [Digit(n % 10)]
  }

  /** Reads a string of decimal digits back as a number. */
  function ParseDecimal(s: string): nat
    requires forall i :: 0 <= i < |s| ==> IsDigit(s[i])
    decreases |s|
  {
    if s == [] then 0
    else
      assert IsDigit(s[|s| - 1]);
      ParseDecimal(s[..|s| - 1]) * 10 + (s[|s| - 1] as int - '0' as int)
  }

  lemma {:induction false} ParseNatToString(n: nat)
    ensures ParseDecimal(NatToString(n)) == n
    decreases n
  {
    if n >= 10 {
      var s := NatToString(n);
      assert s[..|s| - 1] == NatToString(n / 10);
      ParseNatToString(n / 10);
    }
  }

  /** Distinct indices give distinct decimal strings. */
  lemma NatToStringInjective(m: nat, n: nat)
    requires m != n
    ensures NatToString(m) != NatToString(n)
  {
    ParseNatToString(m);
    ParseNatToString(n);
  }

  /** Python's sep.join(parts). */
  function Join(sep: string, parts: seq<string>): string
    decreases |parts|
  {
    if |parts| == 0 then ""
    else if |parts| == 1 then parts[0]
    else parts[0] + sep + Join(sep, parts[1..])
  }

  /** Where parts[i] starts inside Join(sep, parts). */
  function Offset(sep: string, parts: seq<string>, i: nat): nat
    requires i < |parts|
    decreases i
  {
    if i == 0 then 0 else |parts[0]| + |sep| + Offset(sep, parts[1..], i - 1)
  }

  /** Every part sits at its offset, followed by the separator unless it is the last one. */
  lemma {:induction false} JoinLocates(sep: string, parts: seq<string>, i: nat)
    requires i < |parts|
    ensures Offset(sep, parts, i) + |parts[i]| <= |Join(sep, parts)|
    ensures Join(sep, parts)[Offset(sep, parts, i)..Offset(sep, parts, i) + |parts[i]|] == parts[i]
    ensures i + 1 == |parts| ==> Offset(sep, parts, i) + |parts[i]| == |Join(sep, parts)|
    ensures i + 1 < |parts| ==>
      Offset(sep, parts, i) + |parts[i]| + |sep| <= |Join(sep, parts)|
      && Join(sep, parts)[Offset(sep, parts, i) + |parts[i]|..Offset(sep, parts, i) + |parts[i]| + |sep|] == sep
    decreases i
  {
    if |parts| > 1 {
      var rest := Join(sep, parts[1..]);
      var pre := parts[0] + sep;
      assert Join(sep, parts) == pre + rest;
      if i > 0 {
        JoinLocates(sep, parts[1..], i - 1);
        var o := Offset(sep, parts[1..], i - 1);
        SliceShift(pre, rest, o, o + |parts[i]|);
        if i + 1 < |parts| {
          SliceShift(pre, rest, o + |parts[i]|, o + |parts[i]| + |sep|);
        }
      } else {
        SlicePrefix(parts[0], sep, rest);
      }
    }
  }

  lemma SliceShift(pre: string, rest: string, lo: nat, hi: nat)
    requires lo <= hi <= |rest|
    ensures (pre + rest)[|pre| + lo..|pre| + hi] == rest[lo..hi]
  {
  }

  lemma SlicePrefix(a: string, sep: string, rest: string)
    ensures (a + sep + rest)[..|a|] == a
    ensures (a + sep + rest)[|a|..|a| + |sep|] == sep
  {
  }

  /** Python's s.split('\n'): always at least one piece, none holds a newline. */
  function SplitLines(s: string): (r: seq<string>)
    ensures |r| >= 1
    ensures forall i :: 0 <= i < |r| ==> '\n' !in r[i]
    decreases |s|
  {
    if s == [] then [""]
    else if s[0] == '\n' then [""] + SplitLines(s[1..])
    else
      var rest := SplitLines(s[1..]);
      [[s[0]] + rest[0]] + rest[1..]
  }

  /** A line holding no newline is its own single piece. */
  lemma {:induction false} SplitLinesSingle(s: string)
    requires '\n' !in s
    ensures SplitLines(s) == [s]
    decreases |s|
  {
    if s != [] {
      assert '\n' !in s[1..] by {
        forall i | 0 <= i < |s[1..]| ensures s[1..][i] != '\n' { assert s[1..][i] == s[i + 1]; }
      }
      SplitLinesSingle(s[1..]);
      assert [s[0]] + s[1..] == s;
    }
  }

  /** Splitting at a newline splits the pieces: the split is a homomorphism over "\n". */
  lemma {:induction false} SplitLinesAtNewline(a: string, b: string)
    ensures SplitLines(a + "\n" + b) == SplitLines(a) + SplitLines(b)
    decreases |a|
  {
    var s := a + "\n" + b;
    if a == [] {
      assert s[1..] == b;
    } else {
      assert s[0] == a[0];
      assert s[1..] == a[1..] + "\n" + b;
      SplitLinesAtNewline(a[1..], b);
    }
  }

  /** Every character of every piece comes from the split string. */
  lemma {:induction false} SplitLinesChars(s: string, i: nat, c: char)
    requires i < |SplitLines(s)| && c in SplitLines(s)[i]
    ensures c in s
    decreases |s|
  {
    if s != [] {
      var rest := SplitLines(s[1..]);
      if s[0] == '\n' {
        if i > 0 { SplitLinesChars(s[1..], i - 1, c); }
      } else if i == 0 {
        if c != s[0] {
          assert c in rest[0];
          SplitLinesChars(s[1..], 0, c);
        }
      } else {
        SplitLinesChars(s[1..], i, c);
      }
    }
  }

  /** Joining newline-free lines with "\n" and splitting again gives the lines back. */
  lemma {:induction false} SplitJoinLines(lines: seq<string>)
    requires |lines| >= 1
    requires forall i :: 0 <= i < |lines| ==> '\n' !in lines[i]
    ensures SplitLines(Join("\n", lines)) == lines
    decreases |lines|
  {
    SplitLinesSingle(lines[0]);
    if |lines| > 1 {
      SplitJoinLines(lines[1..]);
      SplitLinesAtNewline(lines[0], Join("\n", lines[1..]));
    }
  }

  /** Python's str.isspace() for a single character (the Unicode White_Space set it uses). */
  predicate IsSpace(c: char) {
    c == ' ' || c == '\t' || c == '\n' || c == '\r' || c == '\U{0B}' || c == '\U{0C}'
    || ('\U{1C}' <= c <= '\U{1F}') || c == '\U{85}' || c == '\U{A0}' || c == '\U{1680}'
    || ('\U{2000}' <= c <= '\U{200A}') || c == '\U{2028}' || c == '\U{2029}'
    || c == '\U{202F}' || c == '\U{205F}' || c == '\U{3000}'
  }

  predicate AllSpace(s: string) {
    forall i :: 0 <= i < |s| ==> IsSpace(s[i])
  }

  function TrimStart(s: string): (r: string)
    ensures |r| <= |s| && r == s[|s| - |r|..]
    ensures r == [] || !IsSpace(r[0])
    decreases |s|
  {
    if s != [] && IsSpace(s[0]) then TrimStart(s[1..]) else s
  }

  lemma {:induction false} TrimStartEmpty(s: string)
    ensures TrimStart(s) == [] <==> AllSpace(s)
    decreases |s|
  {
    if s != [] && IsSpace(s[0]) {
      TrimStartEmpty(s[1..]);
      assert AllSpace(s) <==> AllSpace(s[1..]) by {
        if AllSpace(s[1..]) {
          forall i | 0 <= i < |s| ensures IsSpace(s[i]) { if i > 0 { assert s[i] == s[1..][i - 1]; } }
        }
      }
    }
  }

  function TrimEnd(s: string): (r: string)
    ensures |r| <= |s| && r == s[..|r|]
    ensures r == [] || !IsSpace(r[|r| - 1])
    decreases |s|
  {
    if s != [] && IsSpace(s[|s| - 1]) then TrimEnd(s[..|s| - 1]) else s
  }

  lemma {:induction false} TrimEndEmpty(s: string)
    ensures TrimEnd(s) == [] <==> AllSpace(s)
    decreases |s|
  {
    if s != [] && IsSpace(s[|s| - 1]) {
      TrimEndEmpty(s[..|s| - 1]);
      assert AllSpace(s) <==> AllSpace(s[..|s| - 1]) by {
        if AllSpace(s[..|s| - 1]) {
          forall i | 0 <= i < |s| ensures IsSpace(s[i]) { if i < |s| - 1 { assert s[i] == s[..|s| - 1][i]; } }
        }
      }
    }
  }

  /** Python's s.strip(): drops leading and trailing whitespace. */
  function Strip(s: string): (r: string)
    ensures r == [] || (!IsSpace(r[0]) && !IsSpace(r[|r| - 1]))
    ensures r == [] <==> AllSpace(s)
    ensures forall c :: c in r ==> c in s
  {
    var t := TrimStart(s);
    var r := TrimEnd(t);
    TrimStartEmpty(s);
    TrimEndEmpty(t);
    StripChars(s, t, r);
    r
  }

  /** lstrip removes only whitespace. */
  lemma {:induction false} TrimStartDrops(s: string)
    ensures AllSpace(s[..|s| - |TrimStart(s)|])
    decreases |s|
  {
    if s != [] && IsSpace(s[0]) {
      TrimStartDrops(s[1..]);
      var k := |s| - |TrimStart(s)|;
      forall i | 0 <= i < k ensures IsSpace(s[..k][i]) {
        if i > 0 { assert s[..k][i] == s[1..][..k - 1][i - 1]; }
      }
    }
  }

  /** rstrip removes only whitespace. */
  lemma {:induction false} TrimEndDrops(s: string)
    ensures AllSpace(s[|TrimEnd(s)|..])
    decreases |s|
  {
    if s != [] && IsSpace(s[|s| - 1]) {
      var p := s[..|s| - 1];
      TrimEndDrops(p);
      var k := |TrimEnd(s)|;
      forall i | 0 <= i < |s| - k ensures IsSpace(s[k..][i]) {
        if k + i < |s| - 1 { assert s[k..][i] == p[k..][i]; }
      }
    }
  }

  /**
   * strip removes exactly a leading and a trailing run of whitespace: what it keeps is one
   * slice of s, and everything outside that slice is whitespace.
   */
  lemma StripIsSlice(s: string)
    ensures exists i, j :: 0 <= i <= j <= |s| && Strip(s) == s[i..j] && AllSpace(s[..i]) && AllSpace(s[j..])
  {
    var t := TrimStart(s);
    TrimStartDrops(s);
    TrimEndDrops(t);
    StripSlice(s, t, TrimEnd(t));
  }

  lemma StripSlice(s: string, t: string, r: string)
    requires |t| <= |s| && t == s[|s| - |t|..] && AllSpace(s[..|s| - |t|])
    requires |r| <= |t| && r == t[..|r|] && AllSpace(t[|r|..])
    ensures var i, j := |s| - |t|, |s| - |t| + |r|;
      0 <= i <= j <= |s| && r == s[i..j] && AllSpace(s[..i]) && AllSpace(s[j..])
  {
    var i, j := |s| - |t|, |s| - |t| + |r|;
    forall k | 0 <= k < |r| ensures r[k] == s[i..j][k] {
      assert r[k] == t[k] == s[i + k];
    }
    forall k | 0 <= k < |s| - j ensures IsSpace(s[j..][k]) {
      assert s[j..][k] == t[|r|..][k];
    }
  }

  lemma StripChars(s: string, t: string, r: string)
    requires t == TrimStart(s) && r == TrimEnd(t)
    ensures forall c :: c in r ==> c in s
  {
    forall c | c in r ensures c in s {
      var k :| 0 <= k < |r| && r[k] == c;
      assert t[k] == c;
      assert s[|s| - |t| + k] == c;
    }
  }

  lemma SeqAssoc<T>(a: seq<T>, b: seq<T>, c: seq<T>)
    ensures a + b + c == a + (b + c)
  {
  }

  /** A string that already starts and ends with a non-space is left alone by strip. */
  lemma StripFixed(s: string)
    requires s == [] || (!IsSpace(s[0]) && !IsSpace(s[|s| - 1]))
    ensures Strip(s) == s
  {
    assert TrimStart(s) == s;
    assert TrimEnd(s) == s;
  }
}
