/** What the lines of a text are, and what a printed diff says of two texts. */
module DiffText {
  import opened Numbers
  import opened Diff

  // ----- the lines of a text -----------------------------------------------------------

  lemma {:induction false} LineEndMeans(s: string)
    requires s != ""
    ensures '\n' !in s[..LineEnd(s) - 1] && (s[LineEnd(s) - 1] == '\n' || LineEnd(s) == |s|)
  {
    if s[0] != '\n' && |s| > 1 {
      LineEndMeans(s[1..]);
      assert s[..LineEnd(s) - 1] == [s[0]] + s[1..][..LineEnd(s[1..]) - 1];
    }
  }

  /** The first line ends at the first line feed. */
  lemma {:induction false} LineEndAt(line: string, rest: string)
    requires '\n' !in line
    ensures LineEnd(line + "\n" + rest) == |line| + 1
  {
    var s := line + "\n" + rest;
    if line == "" {
      assert s[0] == '\n';
    } else {
      assert s[0] == line[0] && '\n' !in line[1..];
      LineEndAt(line[1..], rest);
      assert s[1..] == line[1..] + "\n" + rest;
    }
  }

  lemma {:induction false} LineEndWhole(line: string)
    requires line != "" && '\n' !in line
    ensures LineEnd(line) == |line|
  {
    if |line| > 1 {
      LineEndWhole(line[1..]);
    }
  }

  /** No line holds a line feed. */
  lemma {:induction false} LinesHoldNoFeed(s: string)
    ensures forall line :: line in Lines(s) ==> '\n' !in line
    decreases |s|
  {
    if s != "" {
      var n := LineEnd(s);
      LineEndMeans(s);
      LinesHoldNoFeed(s[n..]);
      assert forall c :: c in Stripped(s[..n]) ==> c in s[..n - 1] || s[n - 1] != '\n';
      assert s[..n] == s[..n - 1] + [s[n - 1]];
    }
  }

  /** Texts joined where one has ended a line have the lines of both. */
  lemma {:induction false} LinesJoin(a: string, b: string)
    requires a == "" || a[|a| - 1] == '\n'
    ensures Lines(a + b) == Lines(a) + Lines(b)
    decreases |a|
  {
    hide Lines, Stripped;
    if a == "" {
      NoLines();
      assert a + b == b;
    } else {
      var n := LineEnd(a);
      LineEndMeans(a);
      var (line, rest) := (a[..n - 1], a[n..]);
      assert a == line + "\n" + rest && a + b == line + "\n" + (rest + b);
      FirstLine(line, rest);
      FirstLine(line, rest + b);
      LinesJoin(rest, b);
    }
  }

  lemma NoLines()
    ensures Lines("") == []
  {
  }

  /** The line that ends first is the first line. */
  lemma FirstLine(line: string, rest: string)
    requires '\n' !in line
    ensures Lines(line + "\n" + rest) == [Stripped(line + "\n")] + Lines(rest)
  {
    hide Stripped;
    var s := line + "\n" + rest;
    LineEndAt(line, rest);
    assert s[..|line| + 1] == line + "\n" && s[|line| + 1..] == rest;
  }

  /** What can be told from its ending: no line feed in it, no carriage return last. */
  predicate Plain(line: string) {
    '\n' !in line && (line == "" || line[|line| - 1] != '\r')
  }

  /** The lines one after the other, each with its own ending. */
  function Text(lines: seq<string>, crlf: seq<bool>): string
    requires |crlf| == |lines|
  {
    if lines == [] then "" else lines[0] + (if crlf[0] then "\r\n" else "\n") + Text(lines[1..], crlf[1..])
  }

  lemma OneEnded(line: string, crlf: bool)
    requires Plain(line)
    ensures Lines(line + if crlf then "\r\n" else "\n") == [line]
  {
    var s := line + if crlf then "\r\n" else "\n";
    var body := if crlf then line + "\r" else line;
    assert s == body + "\n" + "" && '\n' !in body;
    LineEndAt(body, "");
    assert s[..|s|] == s && s[|s|..] == "";
  }

  /** A text's lines are the lines it was made of, whichever way each one ended. */
  lemma {:induction false} LinesOfText(lines: seq<string>, crlf: seq<bool>)
    requires |crlf| == |lines| && forall line :: line in lines ==> Plain(line)
    ensures Lines(Text(lines, crlf)) == lines
    ensures lines != [] ==> Text(lines, crlf) != "" && Text(lines, crlf)[|Text(lines, crlf)| - 1] == '\n'
  {
    if lines != [] {
      var first := lines[0] + if crlf[0] then "\r\n" else "\n";
      assert lines[0] in lines;
      OneEnded(lines[0], crlf[0]);
      LinesOfText(lines[1..], crlf[1..]);
      LinesJoin(first, Text(lines[1..], crlf[1..]));
      assert lines == [lines[0]] + lines[1..];
    }
  }

  /** And a last line that never ended is a line as it stands. */
  lemma LinesOfOpenText(lines: seq<string>, crlf: seq<bool>, last: string)
    requires |crlf| == |lines| && forall line :: line in lines ==> Plain(line)
    requires last != "" && '\n' !in last
    ensures Lines(Text(lines, crlf) + last) == lines + [last]
  {
    LinesOfText(lines, crlf);
    LinesJoin(Text(lines, crlf), last);
    LineEndWhole(last);
    assert last[..|last|] == last && last[|last|..] == "";
  }

  // ----- what is printed --------------------------------------------------------------------

  /** The printed lines, sign and all. */
  function Printed(out: string): seq<string>
    decreases |out|
  {
    if out == "" then [] else [out[..LineEnd(out) - 1]] + Printed(out[LineEnd(out)..])
  }

  /** Those that begin with a sign, without it. */
  function Signed(lines: seq<string>, sign: char): seq<string> {
    if lines == [] then []
    else (if lines[0] != "" && lines[0][0] == sign then [lines[0][1..]] else []) + Signed(lines[1..], sign)
  }

  /** `s` is `x` and `y` shuffled together, each in its own order. */
  predicate Merges(s: seq<string>, x: seq<string>, y: seq<string>)
    decreases |s|
  {
    if s == [] then x == [] && y == []
    else
      || (x != [] && x[0] == s[0] && Merges(s[1..], x[1..], y))
      || (y != [] && y[0] == s[0] && Merges(s[1..], x, y[1..]))
  }

  lemma SignedFirst(line: string, rest: seq<string>, sign: char)
    requires line != ""
    ensures Signed([line] + rest, sign) == (if line[0] == sign then [line[1..]] else []) + Signed(rest, sign)
  {
    assert ([line] + rest)[1..] == rest;
  }

  /** One change printed first is one line first. */
  lemma PrintedFirst(line: string, rest: string)
    requires '\n' !in line
    ensures Printed(line + "\n" + rest) == [line] + Printed(rest)
  {
    var s := line + "\n" + rest;
    LineEndAt(line, rest);
    assert s[..|line|] == line && s[|line| + 1..] == rest;
  }

  /** What a script's first edit adds to the texts and to the diff. */
  lemma FirstEdit(script: seq<Edit>)
    requires script != []
    ensures var (e, rest) := (script[0], script[1..]);
            && Old(script) == (if e.Add? then Old(rest) else [e.line] + Old(rest))
            && New(script) == (if e.Del? then New(rest) else [e.line] + New(rest))
            && Kept(script) == (if e.Keep? then [e.line] + Kept(rest) else Kept(rest))
            && Render(script) == (if e.Keep? then Render(rest)
                                  else [if e.Del? then '-' else '+'] + e.line + "\n" + Render(rest))
  {
    var rest := script[1..];
    assert [] + Old(rest) == Old(rest) && [] + New(rest) == New(rest) && [] + Kept(rest) == Kept(rest);
    assert "" + Render(rest) == Render(rest);
  }

  /** The lines printed with `-` are what the script takes out of the old text, those
      with `+` what it puts into the new; both leave what it keeps. */
  lemma {:induction false} ScriptPrints(script: seq<Edit>)
    requires forall e :: e in script ==> '\n' !in e.line
    ensures Merges(Old(script), Kept(script), Signed(Printed(Render(script)), '-'))
    ensures Merges(New(script), Kept(script), Signed(Printed(Render(script)), '+'))
  {
    if script != [] {
      hide Merges, Signed, Printed, Old, New, Kept, Render;
      var (e, rest) := (script[0], script[1..]);
      assert e in script;
      ScriptPrints(rest);
      FirstEdit(script);
      var more := Printed(Render(rest));
      if e.Keep? {
        MergeLeft(e.line, Old(rest), Kept(rest), Signed(more, '-'));
        MergeLeft(e.line, New(rest), Kept(rest), Signed(more, '+'));
      } else {
        PrintedSign(if e.Del? then '-' else '+', e.line, Render(rest));
        if e.Del? {
          MergeRight(e.line, Old(rest), Kept(rest), Signed(more, '-'));
          assert [] + Signed(more, '+') == Signed(more, '+');
        } else {
          MergeRight(e.line, New(rest), Kept(rest), Signed(more, '+'));
          assert [] + Signed(more, '-') == Signed(more, '-');
        }
      }
    }
  }

  lemma PrintedSign(sign: char, line: string, rest: string)
    requires '\n' !in line && (sign == '-' || sign == '+')
    ensures Signed(Printed([sign] + line + "\n" + rest), '-') ==
            (if sign == '-' then [line] else []) + Signed(Printed(rest), '-')
    ensures Signed(Printed([sign] + line + "\n" + rest), '+') ==
            (if sign == '+' then [line] else []) + Signed(Printed(rest), '+')
  {
    var signed := [sign] + line;
    PrintedFirst(signed, rest);
    SignedFirst(signed, Printed(rest), '-');
    SignedFirst(signed, Printed(rest), '+');
    assert signed[1..] == line;
  }

  lemma MergeLeft(line: string, s: seq<string>, x: seq<string>, y: seq<string>)
    requires Merges(s, x, y)
    ensures Merges([line] + s, [line] + x, y)
  {
    assert ([line] + s)[1..] == s && ([line] + x)[1..] == x;
  }

  lemma MergeRight(line: string, s: seq<string>, x: seq<string>, y: seq<string>)
    requires Merges(s, x, y)
    ensures Merges([line] + s, x, [line] + y)
  {
    assert ([line] + s)[1..] == s && ([line] + y)[1..] == y;
  }

  /** The lines of a script are lines of one of the texts. */
  lemma {:induction false} ScriptLines(script: seq<Edit>)
    ensures forall e :: e in script ==> e.line in Old(script) || e.line in New(script)
  {
    if script != [] {
      ScriptLines(script[1..]);
      forall e | e in script
        ensures e.line in Old(script) || e.line in New(script)
      {
        assert e == script[0] || e in script[1..];
      }
    }
  }

  /** The law of the printed diff, told of the two texts: take the lines printed with `-`
      out of the one, and those printed with `+` out of the other, and the same lines are
      left of both, in the same order; and no more lines than those could be kept. */
  lemma DiffTextsMeans(out: string, before: string, after: string) returns (kept: seq<string>)
    requires MinimalDiff(out, Lines(before), Lines(after))
    ensures Merges(Lines(before), kept, Signed(Printed(out), '-'))
    ensures Merges(Lines(after), kept, Signed(Printed(out), '+'))
    ensures forall c :: Common(c, Lines(before), Lines(after)) ==> |c| <= |kept|
  {
    hide Merges, Lines, Old, New, Kept, Render;
    var script :| Minimal(script, Lines(before), Lines(after)) && out == Render(script);
    LinesHoldNoFeed(before);
    LinesHoldNoFeed(after);
    ScriptLines(script);
    ScriptPrints(script);
    kept := Kept(script);
  }
}
