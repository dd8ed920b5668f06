/** The `/complexity` endpoint (`analyze_complexity`): split the stripped code
    into lines, count the lines that mention a function keyword, find the
    deepest indentation among the lines that are neither blank nor comments,
    and turn the three numbers into a score from 1 to 10 and a sentence. */
module Complexity {
  import PyText

  const FunctionKeywords: seq<string> := ["def ", "function ", "async def ", "func ", "fn "]
  const MinComplexity: int := 1
  const MaxComplexity: int := 10

  /** The response of `/complexity`. */
  datatype Metrics = Metrics(
    lines: nat, functions: nat, maxNestingDepth: nat, complexityScore: int, analysis: string)

  /** `code.strip().split('\n')`. */
  function Lines(code: string): seq<string> {
    PyText.Split(PyText.Strip(code), '\n')
  }

  /** `any(keyword in line.strip() for keyword in function_keywords)`. */
  predicate IsFunctionLine(line: string) {
    exists k :: 0 <= k < |FunctionKeywords| && PyText.Contains(PyText.Strip(line), FunctionKeywords[k])
  }

  /** `sum(1 for line in lines if ...)`: the number of function lines. */
  function FunctionCount(lines: seq<string>): (n: nat)
    ensures n <= |lines|
    ensures n == 0 <==> forall i :: 0 <= i < |lines| ==> !IsFunctionLine(lines[i])
  {
    if lines == [] then 0
    else
      var rest := FunctionCount(lines[1..]);
      assert forall i :: 1 <= i < |lines| ==> lines[i] == lines[1..][i - 1];
      (if IsFunctionLine(lines[0]) then 1 else 0) + rest
  }

  /** Blank lines and comment lines (`#`, `//`) are skipped. */
  predicate IsSkipped(line: string) {
    var stripped := PyText.LStrip(line);
    stripped == [] || PyText.StartsWith(stripped, "#") || PyText.StartsWith(stripped, "//")
  }

  /** `len(line) - len(line.lstrip())`. */
  function Indent(line: string): nat {
    |line| - |PyText.LStrip(line)|
  }

  /** The depth of a line: the tabs in its indentation if the line holds a
      tab anywhere, otherwise its indentation divided by 4. */
  function LineDepth(line: string): nat {
    if '\t' in line then PyText.CountChar(line[..Indent(line)], '\t') else Indent(line) / 4
  }

  /** The deepest line that is not skipped; 0 when there is none. */
  function MaxDepth(lines: seq<string>): nat {
    if lines == [] then 0
    else
      var last := lines[|lines| - 1];
      var before := MaxDepth(lines[..|lines| - 1]);
      if IsSkipped(last) || LineDepth(last) <= before then before else LineDepth(last)
  }

  function LinePoints(lineCount: nat): nat {
    if lineCount > 200 then 3 else if lineCount > 100 then 2 else if lineCount > 50 then 1 else 0
  }

  function FunctionPoints(functionCount: nat): nat {
    if functionCount > 10 then 3 else if functionCount > 5 then 2 else if functionCount > 2 then 1 else 0
  }

  function DepthPoints(maxDepth: nat): nat {
    if maxDepth > 5 then 4 else if maxDepth > 3 then 3 else if maxDepth > 2 then 2
    else if maxDepth > 1 then 1 else 0
  }

  /** The score before the cap: 1 plus the points of the three metrics. */
  function RawScore(lineCount: nat, functionCount: nat, maxDepth: nat): (s: int)
    ensures 1 <= s <= 11
  {
    1 + LinePoints(lineCount) + FunctionPoints(functionCount) + DepthPoints(maxDepth)
  }

  /** `min(score, 10)`. */
  function ComplexityScore(lineCount: nat, functionCount: nat, maxDepth: nat): (s: int)
    ensures MinComplexity <= s <= MaxComplexity
    ensures s == RawScore(lineCount, functionCount, maxDepth) || s == MaxComplexity
    ensures RawScore(lineCount, functionCount, maxDepth) <= MaxComplexity ==>
              s == RawScore(lineCount, functionCount, maxDepth)
  {
    var raw := RawScore(lineCount, functionCount, maxDepth);
    if raw < MaxComplexity then raw else MaxComplexity
  }

  const LowAnalysis: string := "Low complexity - code is simple and easy to understand."
  const ModerateAnalysis: string := "Moderate complexity - code is reasonably maintainable."
  const HighAnalysis: string := "High complexity - consider refactoring for better maintainability."
  const VeryHighAnalysis: string :=
    "Very high complexity - strongly recommend breaking into smaller functions."

  /** The sentence for a score. */
  function Analysis(score: int): string {
    if score <= 3 then LowAnalysis
    else if score <= 6 then ModerateAnalysis
    else if score <= 8 then HighAnalysis
    else VeryHighAnalysis
  }

  /** `analyze_complexity(request)`. */
  method AnalyzeComplexity(code: string) returns (m: Metrics)
    ensures m.lines == |Lines(code)|
    ensures m.functions == FunctionCount(Lines(code))
    ensures m.maxNestingDepth == MaxDepth(Lines(code))
    ensures m.complexityScore == ComplexityScore(m.lines, m.functions, m.maxNestingDepth)
    ensures m.analysis == Analysis(m.complexityScore)
  {
    var lines := PyText.Split(PyText.Strip(code), '\n');
    var lineCount := |lines|;
    var functionCount := FunctionCount(lines);
    var maxDepth := MaxNestingDepth(lines);
    var score := Score(lineCount, functionCount, maxDepth);
    var analysis;
    if score <= 3 {
      analysis := LowAnalysis;
    } else if score <= 6 {
      analysis := ModerateAnalysis;
    } else if score <= 8 {
      analysis := HighAnalysis;
    } else {
      analysis := VeryHighAnalysis;
    }
    m := Metrics(lineCount, functionCount, maxDepth, score, analysis);
  }

  /** Step 3, the loop over the lines keeping the deepest one. */
  method MaxNestingDepth(lines: seq<string>) returns (maxDepth: nat)
    ensures maxDepth == MaxDepth(lines)
  {
    maxDepth := 0;
    for n := 0 to |lines|
      invariant maxDepth == MaxDepth(lines[..n])
    {
      assert lines[..n + 1][..n] == lines[..n];
      var line := lines[n];
      var stripped := PyText.LStrip(line);
      if stripped == [] || PyText.StartsWith(stripped, "#") || PyText.StartsWith(stripped, "//") {
        continue;
      }
      var indent := |line| - |stripped|;
      var depth;
      if '\t' in line {
        depth := PyText.CountChar(line[..indent], '\t');
      } else {
        depth := indent / 4;
      }
      if depth > maxDepth {
        maxDepth := depth;
      }
    }
    assert lines[..|lines|] == lines;
  }

  /** Step 4, the score accumulated point by point and capped at 10. */
  method Score(lineCount: nat, functionCount: nat, maxDepth: nat) returns (score: int)
    ensures score == ComplexityScore(lineCount, functionCount, maxDepth)
  {
    score := 1;
    if lineCount > 200 {
      score := score + 3;
    } else if lineCount > 100 {
      score := score + 2;
    } else if lineCount > 50 {
      score := score + 1;
    }
    if functionCount > 10 {
      score := score + 3;
    } else if functionCount > 5 {
      score := score + 2;
    } else if functionCount > 2 {
      score := score + 1;
    }
    if maxDepth > 5 {
      score := score + 4;
    } else if maxDepth > 3 {
      score := score + 3;
    } else if maxDepth > 2 {
      score := score + 2;
    } else if maxDepth > 1 {
      score := score + 1;
    }
    score := if score < 10 then score else 10;
  }

  // ----- what the metrics promise -----

  /** There is always at least one line: one more than the newlines inside
      the stripped code, and no line holds a newline. */
  lemma LineCount(code: string)
    ensures |Lines(code)| == PyText.CountChar(PyText.Strip(code), '\n') + 1
    ensures |Lines(code)| >= 1
    ensures forall i :: 0 <= i < |Lines(code)| ==> '\n' !in Lines(code)[i]
  {
    PyText.SplitPieces(PyText.Strip(code), '\n');
  }

  /** MaxDepth is the maximum depth over the lines that are not skipped. */
  lemma {:induction false} MaxDepthIsMaximum(lines: seq<string>)
    ensures forall i :: 0 <= i < |lines| && !IsSkipped(lines[i]) ==> LineDepth(lines[i]) <= MaxDepth(lines)
    ensures MaxDepth(lines) == 0 ||
              exists i :: 0 <= i < |lines| && !IsSkipped(lines[i]) && LineDepth(lines[i]) == MaxDepth(lines)
  {
    if lines != [] {
      var init := lines[..|lines| - 1];
      MaxDepthIsMaximum(init);
      assert forall i :: 0 <= i < |init| ==> init[i] == lines[i];
    }
  }

  /** Adding a line at the end: a skipped or shallower line keeps the depth,
      a deeper one sets it. */
  lemma MaxDepthSnoc(lines: seq<string>, last: string)
    ensures MaxDepth(lines + [last]) ==
              if IsSkipped(last) || LineDepth(last) <= MaxDepth(lines) then MaxDepth(lines) else LineDepth(last)
  {
    assert (lines + [last])[..|lines|] == lines;
  }

  /** Skipped lines never change the depth, wherever they stand. */
  lemma {:induction false} MaxDepthIgnoresSkipped(before: seq<string>, line: string, after: seq<string>)
    requires IsSkipped(line)
    ensures MaxDepth(before + [line] + after) == MaxDepth(before + after)
    decreases |after|
  {
    if after == [] {
      MaxDepthSnoc(before, line);
      assert before + [line] + [] == before + [line];
      assert before + [] == before;
    } else {
      var init, last := after[..|after| - 1], after[|after| - 1];
      MaxDepthIgnoresSkipped(before, line, init);
      assert before + [line] + after == (before + [line] + init) + [last];
      assert before + after == (before + init) + [last];
      MaxDepthSnoc(before + [line] + init, last);
      MaxDepthSnoc(before + init, last);
    }
  }

  /** A line counts once however many keywords it holds; `async def ` holds
      `def ` too. */
  lemma AsyncDefCountsOnce(line: string)
    requires PyText.Contains(PyText.Strip(line), "async def ")
    ensures PyText.Contains(PyText.Strip(line), "def ")
    ensures FunctionCount([line]) == 1
  {
    var k := "async def ";
    assert PyText.StartsWith(k[6..], "def ");
    assert k[1..][1..][1..][1..][1..][1..] == k[6..];
    assert PyText.Contains(k, "def ");
    PyText.ContainsTransitive(PyText.Strip(line), k, "def ");
    assert FunctionKeywords[2] == k;
  }

  /** A line that holds a tab but has none in its indentation has depth 0,
      however many spaces indent it. */
  lemma TabOutsideIndent(line: string)
    requires '\t' in line && '\t' !in line[..Indent(line)]
    ensures LineDepth(line) == 0
  {
  }

  /** Stripping whitespace in front of text that does not start with
      whitespace leaves that text. */
  lemma {:induction false} LStripPrefix(ws: string, rest: string)
    requires forall k :: 0 <= k < |ws| ==> PyText.IsSpace(ws[k])
    requires rest == [] || !PyText.IsSpace(rest[0])
    ensures PyText.LStrip(ws + rest) == rest
  {
    if ws != [] {
      assert (ws + rest)[1..] == ws[1..] + rest;
      LStripPrefix(ws[1..], rest);
    } else {
      assert ws + rest == rest;
    }
  }

  /** n copies of c. */
  function Repeat(c: char, n: nat): (s: string)
    ensures |s| == n && forall k :: 0 <= k < n ==> s[k] == c
  {
    if n == 0 then [] else [c] + Repeat(c, n - 1)
  }

  lemma {:induction false} CountRepeat(c: char, n: nat)
    ensures PyText.CountChar(Repeat(c, n), c) == n
  {
    if n > 0 {
      CountRepeat(c, n - 1);
      assert Repeat(c, n)[1..] == Repeat(c, n - 1);
    }
  }

  /** A line indented by n tabs has depth n. */
  lemma TabIndentDepth(n: nat, rest: string)
    requires rest == [] || !PyText.IsSpace(rest[0])
    ensures LineDepth(Repeat('\t', n) + rest) == n
  {
    var line := Repeat('\t', n) + rest;
    LStripPrefix(Repeat('\t', n), rest);
    assert line[..Indent(line)] == Repeat('\t', n);
    CountRepeat('\t', n);
    if n > 0 {
      assert line[0] == '\t';
    }
  }

  /** A line indented by n spaces and holding no tab has depth n div 4. */
  lemma SpaceIndentDepth(n: nat, rest: string)
    requires rest == [] || !PyText.IsSpace(rest[0])
    requires '\t' !in rest
    ensures LineDepth(Repeat(' ', n) + rest) == n / 4
  {
    var line := Repeat(' ', n) + rest;
    LStripPrefix(Repeat(' ', n), rest);
    assert '\t' !in line by {
      forall k | 0 <= k < |line| ensures line[k] != '\t' {
        if k >= n { assert line[k] == rest[k - n]; }
      }
    }
  }

  /** The score is monotone in each metric. */
  lemma ScoreMonotone(l: nat, f: nat, d: nat, l': nat, f': nat, d': nat)
    requires l <= l' && f <= f' && d <= d'
    ensures ComplexityScore(l, f, d) <= ComplexityScore(l', f', d')
  {
    assert LinePoints(l) <= LinePoints(l');
    assert FunctionPoints(f) <= FunctionPoints(f');
    assert DepthPoints(d) <= DepthPoints(d');
  }

  /** The points reach 11 before the cap: very long, many functions, very deep. */
  lemma ScoreIsCapped(l: nat, f: nat, d: nat)
    requires l > 200 && f > 10 && d > 5
    ensures RawScore(l, f, d) == 11 && ComplexityScore(l, f, d) == 10
  {
  }

  /** The score is 1 exactly for short code with few functions and shallow nesting. */
  lemma ScoreMinimal(l: nat, f: nat, d: nat)
    ensures ComplexityScore(l, f, d) == 1 <==> l <= 50 && f <= 2 && d <= 1
  {
  }

  /** The sentence names the score's band. */
  lemma AnalysisBands(score: int)
    ensures MinComplexity <= score <= 3 ==> Analysis(score) == LowAnalysis
    ensures 4 <= score <= 6 ==> Analysis(score) == ModerateAnalysis
    ensures 7 <= score <= 8 ==> Analysis(score) == HighAnalysis
    ensures 9 <= score <= MaxComplexity ==> Analysis(score) == VeryHighAnalysis
    ensures Analysis(score) == LowAnalysis <==> score <= 3
  {
  }
}
