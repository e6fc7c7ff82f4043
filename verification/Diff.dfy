/** The line diff of the generated documentation: a table of longest common
    subsequences and a walk through it. */
module Diff {
  import opened Numbers

  // ----- lines ----------------------------------------------------------------------

  /** Where the first line ends, its line feed included. */
  function LineEnd(s: string): (n: nat)
    requires s != ""
    ensures 1 <= n <= |s|
  {
    if s[0] == '\n' || |s| == 1 then 1 else 1 + LineEnd(s[1..])
  }

  /** A line without its line feed and a carriage return before that; a last
      line with no line feed keeps its carriage return. */
  function Stripped(line: string): string {
    if line == "" || line[|line| - 1] != '\n' then line
    else if |line| > 1 && line[|line| - 2] == '\r' then line[..|line| - 2]
    else line[..|line| - 1]
  }

  function Lines(s: string): seq<string> {
    if s == "" then [] else [Stripped(s[..LineEnd(s)])] + Lines(s[LineEnd(s)..])
  }

  // ----- edit scripts -----------------------------------------------------------------

  datatype Edit = Keep(line: string) | Del(line: string) | Add(line: string)

  /** The text a script reads and the text it writes. */
  function Old(script: seq<Edit>): seq<string> {
    if script == [] then []
    else (if script[0].Add? then [] else [script[0].line]) + Old(script[1..])
  }

  function New(script: seq<Edit>): seq<string> {
    if script == [] then []
    else (if script[0].Del? then [] else [script[0].line]) + New(script[1..])
  }

  /** The lines it leaves alone, and how many it does not. */
  function Kept(script: seq<Edit>): seq<string> {
    if script == [] then []
    else (if script[0].Keep? then [script[0].line] else []) + Kept(script[1..])
  }

  function Changes(script: seq<Edit>): nat {
    if script == [] then 0 else (if script[0].Keep? then 0 else 1) + Changes(script[1..])
  }

  /** What is printed: one line for each change, with its sign. */
  function Render(script: seq<Edit>): string {
    if script == [] then ""
    else (match script[0]
          case Keep(_) => ""
          case Del(line) => "-" + line + "\n"
          case Add(line) => "+" + line + "\n") + Render(script[1..])
  }

  lemma Append(s: seq<Edit>, e: Edit)
    ensures Old(s + [e]) == Old(s) + if e.Add? then [] else [e.line]
    ensures New(s + [e]) == New(s) + if e.Del? then [] else [e.line]
    ensures Kept(s + [e]) == Kept(s) + if e.Keep? then [e.line] else []
    ensures Changes(s + [e]) == Changes(s) + if e.Keep? then 0 else 1
    ensures Render(s + [e]) == Render(s) + Render([e])
  {
    hide Old, New, Kept, Changes, Render;
    AppendOld(s, e);
    AppendNew(s, e);
    AppendKept(s, e);
    AppendChanges(s, e);
    AppendRender(s, e);
  }

  lemma {:induction false} AppendOld(s: seq<Edit>, e: Edit)
    ensures Old(s + [e]) == Old(s) + if e.Add? then [] else [e.line]
  {
    if s != [] {
      AppendOld(s[1..], e);
      assert (s + [e])[1..] == s[1..] + [e];
    } else {
      assert s + [e] == [e];
    }
  }

  lemma {:induction false} AppendNew(s: seq<Edit>, e: Edit)
    ensures New(s + [e]) == New(s) + if e.Del? then [] else [e.line]
  {
    if s != [] {
      AppendNew(s[1..], e);
      assert (s + [e])[1..] == s[1..] + [e];
    } else {
      assert s + [e] == [e];
    }
  }

  lemma {:induction false} AppendKept(s: seq<Edit>, e: Edit)
    ensures Kept(s + [e]) == Kept(s) + if e.Keep? then [e.line] else []
  {
    if s != [] {
      AppendKept(s[1..], e);
      assert (s + [e])[1..] == s[1..] + [e];
    } else {
      assert s + [e] == [e];
    }
  }

  lemma {:induction false} AppendChanges(s: seq<Edit>, e: Edit)
    ensures Changes(s + [e]) == Changes(s) + if e.Keep? then 0 else 1
  {
    if s != [] {
      AppendChanges(s[1..], e);
      assert (s + [e])[1..] == s[1..] + [e];
    } else {
      assert s + [e] == [e];
    }
  }

  lemma {:induction false} AppendRender(s: seq<Edit>, e: Edit)
    ensures Render(s + [e]) == Render(s) + Render([e])
  {
    if s != [] {
      AppendRender(s[1..], e);
      assert (s + [e])[1..] == s[1..] + [e];
    } else {
      assert s + [e] == [e];
    }
  }

  /** Every changed line is in one text only, every kept one in both. */
  lemma {:induction false} Balance(s: seq<Edit>)
    ensures Changes(s) + 2 * |Kept(s)| == |Old(s)| + |New(s)|
  {
    if s != [] {
      Balance(s[1..]);
    }
  }

  // ----- common subsequences ------------------------------------------------------------

  predicate Subsequence(c: seq<string>, s: seq<string>) {
    if c == [] then true
    else if s == [] then false
    else (c[0] == s[0] && Subsequence(c[1..], s[1..])) || Subsequence(c, s[1..])
  }

  predicate Common(c: seq<string>, a: seq<string>, b: seq<string>) {
    Subsequence(c, a) && Subsequence(c, b)
  }

  lemma {:induction false} SubsequenceTail(c: seq<string>, s: seq<string>)
    requires c != [] && s != [] && Subsequence(c, s)
    ensures Subsequence(c[1..], s[1..])
  {
    if !(c[0] == s[0] && Subsequence(c[1..], s[1..])) {
      SubsequenceTail(c, s[1..]);
      SubsequenceLonger(c[1..], s[1..]);
    }
  }

  lemma {:induction false} SubsequenceLonger(c: seq<string>, s: seq<string>)
    requires s != [] && Subsequence(c, s[1..])
    ensures Subsequence(c, s)
  {
  }

  /** What any script keeps is common to the texts it relates. */
  lemma {:induction false} KeptIsCommon(script: seq<Edit>)
    ensures Common(Kept(script), Old(script), New(script))
  {
    if script != [] {
      var (rest, e) := (script[1..], script[0]);
      KeptIsCommon(rest);
      assert Old(script)[if e.Add? then 0 else 1..] == Old(rest);
      assert New(script)[if e.Del? then 0 else 1..] == New(rest);
      if e.Keep? {
        assert Kept(script)[1..] == Kept(rest);
      } else {
        assert Kept(script) == Kept(rest);
      }
    }
  }

  /** The table's recurrence: entry `(i, j)` of `lcs`. */
  function Lcs(a: seq<string>, b: seq<string>, i: nat, j: nat): nat
    requires i <= |a| && j <= |b|
    decreases |a| - i + |b| - j
  {
    if i == |a| || j == |b| then 0
    else if a[i] == b[j] then Lcs(a, b, i + 1, j + 1) + 1
    else Max(Lcs(a, b, i + 1, j), Lcs(a, b, i, j + 1))
  }

  /** No entry exceeds the lines left, so none outgrows a 32-bit count of them. */
  lemma {:induction false} LcsBound(a: seq<string>, b: seq<string>, i: nat, j: nat)
    requires i <= |a| && j <= |b|
    ensures Lcs(a, b, i, j) <= |a| - i && Lcs(a, b, i, j) <= |b| - j
    decreases |a| - i + |b| - j
  {
    if i < |a| && j < |b| {
      LcsBound(a, b, i + 1, j + 1);
      LcsBound(a, b, i + 1, j);
      LcsBound(a, b, i, j + 1);
    }
  }

  /** No common subsequence is longer than the table says. */
  lemma {:induction false} LcsIsLongest(a: seq<string>, b: seq<string>, i: nat, j: nat, c: seq<string>)
    requires i <= |a| && j <= |b| && Common(c, a[i..], b[j..])
    ensures |c| <= Lcs(a, b, i, j)
    decreases |a| - i + |b| - j
  {
    if c != [] {
      assert a[i..] != [] && b[j..] != [];
      assert a[i..][1..] == a[i + 1..] && b[j..][1..] == b[j + 1..];
      if a[i] == b[j] {
        SubsequenceTail(c, a[i..]);
        SubsequenceTail(c, b[j..]);
        LcsIsLongest(a, b, i + 1, j + 1, c[1..]);
      } else if c[0] != a[i] {
        LcsIsLongest(a, b, i + 1, j, c);
      } else {
        LcsIsLongest(a, b, i, j + 1, c);
      }
    }
  }

  /** A script from one text to the other that keeps as much as can be kept. */
  ghost predicate Minimal(script: seq<Edit>, a: seq<string>, b: seq<string>) {
    && Old(script) == a && New(script) == b
    && (forall c :: Common(c, a, b) ==> |c| <= |Kept(script)|)
    && (forall other :: Old(other) == a && New(other) == b ==> Changes(script) <= Changes(other))
  }

  lemma KeepingMostIsMinimal(script: seq<Edit>, a: seq<string>, b: seq<string>)
    requires Old(script) == a && New(script) == b && |Kept(script)| == Lcs(a, b, 0, 0)
    ensures Minimal(script, a, b)
  {
    forall c | Common(c, a, b)
      ensures |c| <= |Kept(script)|
    {
      assert a[0..] == a && b[0..] == b;
      LcsIsLongest(a, b, 0, 0, c);
    }
    forall other | Old(other) == a && New(other) == b
      ensures Changes(script) <= Changes(other)
    {
      KeptIsCommon(other);
      Balance(script);
      Balance(other);
    }
  }

  lemma LcsEdges(a: seq<string>, b: seq<string>)
    ensures forall j :: 0 <= j <= |b| ==> Lcs(a, b, |a|, j) == 0
    ensures forall i :: 0 <= i <= |a| ==> Lcs(a, b, i, |b|) == 0
  {
  }

  // ----- the algorithm -------------------------------------------------------------------

  /** The table, filled from its far corner. */
  method FillTable(a: seq<string>, b: seq<string>) returns (lcs: array2<nat>)
    ensures fresh(lcs) && lcs.Length0 == |a| + 1 && lcs.Length1 == |b| + 1
    ensures forall i, j :: 0 <= i <= |a| && 0 <= j <= |b| ==> lcs[i, j] == Lcs(a, b, i, j)
  {
    hide Lcs;
    var n, m := |a|, |b|;
    lcs := new nat[n + 1, m + 1]((_, _) => 0);
    LcsEdges(a, b);
    var i := n;
    while i > 0
      invariant 0 <= i <= n
      invariant forall p, q :: 0 <= p < i && 0 <= q <= m ==> lcs[p, q] == 0
      invariant forall p, q :: i <= p <= n && 0 <= q <= m ==> lcs[p, q] == Lcs(a, b, p, q)
    {
      i := i - 1;
      var j := m;
      while j > 0
        invariant 0 <= j <= m
        invariant forall p, q :: 0 <= p < i && 0 <= q <= m ==> lcs[p, q] == 0
        invariant forall p, q :: i < p <= n && 0 <= q <= m ==> lcs[p, q] == Lcs(a, b, p, q)
        invariant forall q :: j <= q <= m ==> lcs[i, q] == Lcs(a, b, i, q)
      {
        j := j - 1;
        LcsStep(a, b, i, j);
        lcs[i, j] := if a[i] == b[j] then lcs[i + 1, j + 1] + 1 else Max(lcs[i + 1, j], lcs[i, j + 1]);
      }
    }
  }

  ghost predicate Filled(lcs: array2<nat>, a: seq<string>, b: seq<string>)
    reads lcs
  {
    && lcs.Length0 == |a| + 1 && lcs.Length1 == |b| + 1
    && forall i, j :: 0 <= i <= |a| && 0 <= j <= |b| ==> lcs[i, j] == Lcs(a, b, i, j)
  }

  /** The script so far takes the first `i` lines to the first `j`, is what has
      been printed, and has kept all but what the table has left to keep. */
  ghost predicate Walked(a: seq<string>, b: seq<string>, i: nat, j: nat, script: seq<Edit>, out: string) {
    && i <= |a| && j <= |b|
    && Old(script) == a[..i] && New(script) == b[..j] && out == Render(script)
    && |Kept(script)| + Lcs(a, b, i, j) == Lcs(a, b, 0, 0)
  }

  lemma WalkKeep(a: seq<string>, b: seq<string>, i: nat, j: nat, script: seq<Edit>, out: string)
    requires Walked(a, b, i, j, script, out) && i < |a| && j < |b| && a[i] == b[j]
    ensures Walked(a, b, i + 1, j + 1, script + [Keep(a[i])], out)
  {
    hide Old, New, Kept, Changes;
    Append(script, Keep(a[i]));
    LcsStep(a, b, i, j);
  }

  lemma WalkDel(a: seq<string>, b: seq<string>, i: nat, j: nat, script: seq<Edit>, out: string)
    requires Walked(a, b, i, j, script, out) && i < |a|
    requires j < |b| ==> a[i] != b[j] && Lcs(a, b, i + 1, j) >= Lcs(a, b, i, j + 1)
    ensures Walked(a, b, i + 1, j, script + [Del(a[i])], out + "-" + a[i] + "\n")
  {
    hide Old, New, Kept, Changes;
    Append(script, Del(a[i]));
  }

  lemma WalkAdd(a: seq<string>, b: seq<string>, i: nat, j: nat, script: seq<Edit>, out: string)
    requires Walked(a, b, i, j, script, out) && j < |b|
    requires i < |a| ==> a[i] != b[j] && Lcs(a, b, i + 1, j) < Lcs(a, b, i, j + 1)
    ensures Walked(a, b, i, j + 1, script + [Add(b[j])], out + "+" + b[j] + "\n")
  {
    hide Old, New, Kept, Changes;
    Append(script, Add(b[j]));
  }

  /** `out` prints a minimal edit script from `a` to `b`. */
  ghost predicate MinimalDiff(out: string, a: seq<string>, b: seq<string>) {
    exists script :: Minimal(script, a, b) && out == Render(script)
  }

  /** The `-` and `+` lines of a minimal edit script from `a` to `b`. */
  method DiffLines(a: seq<string>, b: seq<string>) returns (out: string)
    ensures MinimalDiff(out, a, b)
  {
    hide Lcs, Walked, MinimalDiff;
    var lcs := FillTable(a, b);
    var n, m := |a|, |b|;
    out := "";
    ghost var script: seq<Edit> := [];
    var i, j := 0, 0;
    WalkStart(a, b);
    while i < n && j < m
      invariant Filled(lcs, a, b) && 0 <= i <= n && 0 <= j <= m
      invariant Walked(a, b, i, j, script, out)
      decreases n - i + m - j
    {
      if a[i] == b[j] {
        WalkKeep(a, b, i, j, script, out);
        script := script + [Keep(a[i])];
        i := i + 1;
        j := j + 1;
      } else if lcs[i + 1, j] >= lcs[i, j + 1] {
        WalkDel(a, b, i, j, script, out);
        script := script + [Del(a[i])];
        out := out + "-" + a[i] + "\n";
        i := i + 1;
      } else {
        WalkAdd(a, b, i, j, script, out);
        script := script + [Add(b[j])];
        out := out + "+" + b[j] + "\n";
        j := j + 1;
      }
    }
    for k := i to n
      invariant Walked(a, b, k, j, script, out)
    {
      WalkDel(a, b, k, j, script, out);
      script := script + [Del(a[k])];
      out := out + "-" + a[k] + "\n";
    }
    for k := j to m
      invariant Walked(a, b, n, k, script, out)
    {
      WalkAdd(a, b, n, k, script, out);
      script := script + [Add(b[k])];
      out := out + "+" + b[k] + "\n";
    }
    WalkEnd(a, b, script, out);
  }

  lemma WalkStart(a: seq<string>, b: seq<string>)
    ensures Walked(a, b, 0, 0, [], "")
  {
  }

  lemma WalkEnd(a: seq<string>, b: seq<string>, script: seq<Edit>, out: string)
    requires Walked(a, b, |a|, |b|, script, out)
    ensures MinimalDiff(out, a, b)
  {
    hide Old, New, Kept, Changes, Minimal;
    KeepingMostIsMinimal(script, a, b);
  }

  lemma LcsStep(a: seq<string>, b: seq<string>, i: nat, j: nat)
    requires i < |a| && j < |b|
    ensures Lcs(a, b, i, j) == if a[i] == b[j] then Lcs(a, b, i + 1, j + 1) + 1
                               else Max(Lcs(a, b, i + 1, j), Lcs(a, b, i, j + 1))
  {
  }

  /** `diff`: the two texts are split into lines first. */
  method DiffTexts(before: string, after: string) returns (out: string)
    ensures MinimalDiff(out, Lines(before), Lines(after))
  {
    out := DiffLines(Lines(before), Lines(after));
  }

  // ----- an empty diff ----------------------------------------------------------------------

  function KeepAll(a: seq<string>): seq<Edit> {
    if a == [] then [] else [Keep(a[0])] + KeepAll(a[1..])
  }

  lemma {:induction false} KeepAllMeans(a: seq<string>)
    ensures Old(KeepAll(a)) == a && New(KeepAll(a)) == a && Changes(KeepAll(a)) == 0
  {
    if a != [] {
      KeepAllMeans(a[1..]);
      assert KeepAll(a)[1..] == KeepAll(a[1..]);
    }
  }

  lemma {:induction false} NothingChanged(s: seq<Edit>)
    ensures Changes(s) == 0 <==> Render(s) == ""
    ensures Changes(s) == 0 ==> Old(s) == New(s)
  {
    if s != [] {
      NothingChanged(s[1..]);
    }
  }

  /** Nothing is printed exactly when the two texts have the same lines. */
  lemma EmptyDiff(out: string, a: seq<string>, b: seq<string>)
    requires MinimalDiff(out, a, b)
    ensures out == "" <==> a == b
  {
    var script :| Minimal(script, a, b) && out == Render(script);
    NothingChanged(script);
    KeepAllMeans(a);
  }

  lemma LineEndingsAreDropped()
    ensures Lines("a\n") == Lines("a") && Lines("a\r\n") == Lines("a\n")
  {
    OneLine("a", "a");
    assert "a\n"[1..] == "\n";
    OneLine("a\n", "a");
    assert "a\r\n"[1..] == "\r\n" && "\r\n"[1..] == "\n";
    OneLine("a\r\n", "a");
  }

  /** Of texts that differ in their line endings alone, or in the last of them, the
      diff prints nothing. */
  lemma LineEndingsAreNotShown(out: string, out': string)
    requires MinimalDiff(out, Lines("a\n"), Lines("a"))
    requires MinimalDiff(out', Lines("a\r\n"), Lines("a\n"))
    ensures "a\n" != "a" && "a\r\n" != "a\n"
    ensures out == "" && out' == ""
  {
    hide Lines, MinimalDiff;
    LineEndingsAreDropped();
    EmptyDiff(out, Lines("a\n"), Lines("a"));
    EmptyDiff(out', Lines("a\r\n"), Lines("a\n"));
  }

  lemma OneLine(s: string, line: string)
    requires s != "" && LineEnd(s) == |s| && Stripped(s) == line
    ensures Lines(s) == [line]
  {
    assert s[..|s|] == s && s[|s|..] == "";
  }
}
