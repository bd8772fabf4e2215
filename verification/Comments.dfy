/** The comments the parser collects while it reads ahead (src/parser.c): runs of line comments on consecutive
    lines, newest first. */
module Comments {
  import opened Tokens

  datatype Run = Run(start: Position, end: Position, lines: seq<Token>)

  type Runs = seq<Run>

  // comment_get_comment: the newest run that ends on the line; older runs end on earlier lines, so the search
  // gives up at the first one that ends before it. The index is |runs| if there is none.
  function Lookup(runs: Runs, line: int): (i: nat)
    ensures i <= |runs|
    ensures i < |runs| ==> runs[i].end.line == line
  {
    if runs == [] || runs[0].end.line < line then |runs|
    else if runs[0].end.line == line then 0
    else 1 + Lookup(runs[1..], line)
  }

  // insert_comment_line: the comment continues the run that ends on the line before, or starts a run.
  function Insert(runs: Runs, tok: Token): Runs {
    var i := Lookup(runs, tok.start.line - 1);
    if i < |runs| then runs[i := Run(runs[i].start, tok.end, runs[i].lines + [tok])]
    else [Run(tok.start, tok.end, [tok])] + runs
  }

  // The list after the comments `cs` have been inserted in this order.
  function Collected(cs: seq<Token>): Runs {
    if cs == [] then [] else Insert(Collected(cs[..|cs| - 1]), cs[|cs| - 1])
  }

  // rbs_parser_get_comment: the lines of the comment that ends just above a line.
  function CommentAbove(runs: Runs, line: int): Option<seq<Token>> {
    var i := Lookup(runs, line - 1);
    if i < |runs| then Some(runs[i].lines) else None
  }

  // ---- what the lexer promises about line comments ---------------------------------------------------

  // A line comment is the first token of its line and ends on that line, so no two share one.
  ghost predicate OnePerLine(cs: seq<Token>) {
    && (forall i :: 0 <= i < |cs| ==> cs[i].end.line == cs[i].start.line)
    && (forall i, j :: 0 <= i < j < |cs| ==> cs[i].start.line < cs[j].start.line)
  }

  // ---- the simple definition: maximal runs -----------------------------------------------------------

  // The comment on the line next to the one at `i - 1`.
  predicate Joined(cs: seq<Token>, i: nat)
    requires 0 < i < |cs|
  {
    cs[i].start.line == cs[i - 1].start.line + 1
  }

  // Where the maximal run that ends with comment number `j - 1` begins.
  function RunStart(cs: seq<Token>, j: nat): (i: nat)
    requires 0 < j <= |cs|
    ensures i < j
    ensures forall k :: i < k < j ==> Joined(cs, k)
    ensures i > 0 ==> !Joined(cs, i)
  {
    if j == 1 || !Joined(cs, j - 1) then j - 1 else RunStart(cs, j - 1)
  }

  // The maximal run that ends with the last comment.
  function LastRun(cs: seq<Token>): Run
    requires cs != []
  {
    var b := RunStart(cs, |cs|);
    Run(cs[b].start, cs[|cs| - 1].end, cs[b..])
  }

  // The comments cut into maximal runs of consecutive lines, newest run first.
  function MaximalRuns(cs: seq<Token>): Runs
    decreases |cs|
  {
    if cs == [] then [] else [LastRun(cs)] + MaximalRuns(cs[..RunStart(cs, |cs|)])
  }

  ghost predicate EndsDecrease(runs: Runs) {
    forall i, j :: 0 <= i < j < |runs| ==> runs[j].end.line < runs[i].end.line
  }

  lemma {:induction false} PrefixOnePerLine(cs: seq<Token>, n: nat)
    requires OnePerLine(cs) && n <= |cs|
    ensures OnePerLine(cs[..n])
  {}

  lemma {:induction false} RunStartOfPrefix(cs: seq<Token>, n: nat, j: nat)
    requires 0 < j <= n <= |cs|
    ensures RunStart(cs[..n], j) == RunStart(cs, j)
    decreases j
  {
    if j > 1 && Joined(cs, j - 1) {
      RunStartOfPrefix(cs, n, j - 1);
    }
  }

  lemma {:induction false} NewestRunFirst(cs: seq<Token>)
    requires cs != []
    ensures MaximalRuns(cs) == [LastRun(cs)] + MaximalRuns(cs[..RunStart(cs, |cs|)])
  {}

  lemma {:induction false} StartOfLastRunGrows(cs: seq<Token>)
    requires |cs| > 1 && Joined(cs, |cs| - 1)
    ensures RunStart(cs, |cs|) == RunStart(cs[..|cs| - 1], |cs| - 1)
  {
    RunStartOfPrefix(cs, |cs| - 1, |cs| - 1);
  }

  lemma {:induction false} LastRunGrows(cs: seq<Token>)
    requires |cs| > 1 && Joined(cs, |cs| - 1)
    ensures var n := |cs| - 1;
            && RunStart(cs, |cs|) == RunStart(cs[..n], n)
            && LastRun(cs) == Run(LastRun(cs[..n]).start, cs[n].end, LastRun(cs[..n]).lines + [cs[n]])
  {
    hide RunStart;
    var n := |cs| - 1;
    StartOfLastRunGrows(cs);
    var b := RunStart(cs, |cs|);
    assert cs[b..] == cs[..n][b..] + [cs[n]];
  }

  // A comment right below the last one extends its run.
  lemma {:induction false} JoinedRunGrows(cs: seq<Token>)
    requires |cs| > 1 && Joined(cs, |cs| - 1)
    ensures var before := MaximalRuns(cs[..|cs| - 1]);
            before != [] && before[0] == LastRun(cs[..|cs| - 1]) && MaximalRuns(cs) == before[0 := LastRun(cs)]
  {
    var n := |cs| - 1;
    LastRunGrows(cs);
    NewestRunFirst(cs);
    NewestRunFirst(cs[..n]);
    hide MaximalRuns, RunStart, LastRun;
    assert cs[..n][..RunStart(cs[..n], n)] == cs[..RunStart(cs, |cs|)];
  }

  // Any other comment starts a run.
  lemma {:induction false} NewRunStarts(cs: seq<Token>)
    requires cs != [] && (|cs| > 1 ==> !Joined(cs, |cs| - 1))
    ensures var n := |cs| - 1;
            MaximalRuns(cs) == [Run(cs[n].start, cs[n].end, [cs[n]])] + MaximalRuns(cs[..n])
  {
    assert cs[|cs| - 1..] == [cs[|cs| - 1]];
  }

  lemma {:induction false} MaximalRunsDecrease(cs: seq<Token>)
    requires OnePerLine(cs)
    ensures EndsDecrease(MaximalRuns(cs))
    ensures forall r <- MaximalRuns(cs) :: r.end.line <= cs[|cs| - 1].start.line
    decreases |cs|
  {
    if cs != [] {
      var b := RunStart(cs, |cs|);
      PrefixOnePerLine(cs, b);
      MaximalRunsDecrease(cs[..b]);
    }
  }

  // After any number of comments the list is exactly their partition into maximal runs, newest first and
  // with strictly decreasing end lines.
  lemma {:induction false} CollectedAreMaximalRuns(cs: seq<Token>)
    requires OnePerLine(cs)
    ensures Collected(cs) == MaximalRuns(cs) && EndsDecrease(Collected(cs))
    decreases |cs|
  {
    MaximalRunsDecrease(cs);
    if cs != [] {
      var n := |cs| - 1;
      PrefixOnePerLine(cs, n);
      CollectedAreMaximalRuns(cs[..n]);
      if n > 0 && Joined(cs, n) {
        JoinedRunGrows(cs);
        LastRunGrows(cs);
      } else {
        NewRunStarts(cs);
        NothingToJoin(cs);
      }
    }
  }

  lemma {:induction false} NothingToJoin(cs: seq<Token>)
    requires OnePerLine(cs) && cs != [] && (|cs| > 1 ==> !Joined(cs, |cs| - 1))
    ensures var runs := MaximalRuns(cs[..|cs| - 1]);
            Lookup(runs, cs[|cs| - 1].start.line - 1) == |runs|
  {}

  // Giving up early loses nothing: the lookup is a full search.
  lemma {:induction false} EarlyExitIsFullSearch(runs: Runs, line: int)
    requires EndsDecrease(runs)
    ensures Lookup(runs, line) < |runs| <==> exists i :: 0 <= i < |runs| && runs[i].end.line == line
    ensures forall i :: 0 <= i < |runs| && runs[i].end.line == line ==> i == Lookup(runs, line)
  {
    if runs != [] && runs[0].end.line > line {
      EarlyExitIsFullSearch(runs[1..], line);
      assert forall i :: 0 < i < |runs| ==> runs[i] == runs[1..][i - 1];
    }
  }

  // Comment number `k` lies on the line before `line`, and none lies on that line.
  ghost predicate EndsAbove(cs: seq<Token>, k: int, line: int) {
    0 <= k < |cs| && cs[k].start.line == line - 1 && (k + 1 < |cs| ==> cs[k + 1].start.line != line)
  }

  lemma {:induction false} NewestRunDecides(cs: seq<Token>, line: int)
    requires OnePerLine(cs) && cs != []
    ensures cs[|cs| - 1].start.line == line - 1 ==> CommentAbove(MaximalRuns(cs), line) == Some(LastRun(cs).lines)
    ensures cs[|cs| - 1].start.line < line - 1 ==> CommentAbove(MaximalRuns(cs), line) == None
  {
    NewestRunFirst(cs);
    hide MaximalRuns;
  }

  lemma {:induction false} OlderRunsDecide(cs: seq<Token>, line: int)
    requires OnePerLine(cs) && cs != [] && cs[|cs| - 1].start.line > line - 1
    ensures CommentAbove(MaximalRuns(cs), line) == CommentAbove(MaximalRuns(cs[..RunStart(cs, |cs|)]), line)
  {
    NewestRunFirst(cs);
    hide MaximalRuns;
    assert MaximalRuns(cs)[1..] == MaximalRuns(cs[..RunStart(cs, |cs|)]);
  }

  lemma {:induction false} EndsWithTheLastRun(cs: seq<Token>, k: int, line: int)
    requires OnePerLine(cs) && cs != [] && cs[|cs| - 1].start.line <= line - 1
    ensures EndsAbove(cs, k, line) <==> k == |cs| - 1 && cs[k].start.line == line - 1
  {}

  lemma {:induction false} EndsBeforeTheLastRun(cs: seq<Token>, k: int, line: int)
    requires OnePerLine(cs) && cs != [] && cs[|cs| - 1].start.line > line - 1
    ensures EndsAbove(cs, k, line) <==> EndsAbove(cs[..RunStart(cs, |cs|)], k, line)
  {
    var b := RunStart(cs, |cs|);
    if EndsAbove(cs, k, line) {
      assert b <= k < |cs| - 1 ==> Joined(cs, k + 1);
    }
    if EndsAbove(cs[..b], k, line) {
      assert k + 1 == b ==> !Joined(cs, b);
    }
  }

  // The comment found above a line is the maximal run that ends on the line before it ...
  lemma {:induction false} RunAboveIsFound(cs: seq<Token>, k: int, line: int)
    requires OnePerLine(cs) && EndsAbove(cs, k, line)
    ensures CommentAbove(Collected(cs), line) == Some(cs[RunStart(cs, k + 1)..k + 1])
    decreases |cs|
  {
    hide MaximalRuns, Collected, CommentAbove, RunStart, Joined;
    var b := RunStart(cs, |cs|);
    CollectedAreMaximalRuns(cs);
    if cs[|cs| - 1].start.line > line - 1 {
      OlderRunsDecide(cs, line);
      EndsBeforeTheLastRun(cs, k, line);
      PrefixOnePerLine(cs, b);
      RunAboveIsFound(cs[..b], k, line);
      CollectedAreMaximalRuns(cs[..b]);
      RunStartOfPrefix(cs, b, k + 1);
      assert cs[..b][RunStart(cs, k + 1)..k + 1] == cs[RunStart(cs, k + 1)..k + 1];
    } else {
      NewestRunDecides(cs, line);
      EndsWithTheLastRun(cs, k, line);
      assert cs[b..] == cs[b..k + 1];
    }
  }

  // ... and none is found if no run ends there.
  lemma {:induction false} NoRunAboveIsFound(cs: seq<Token>, line: int)
    requires OnePerLine(cs) && forall k :: !EndsAbove(cs, k, line)
    ensures CommentAbove(Collected(cs), line) == None
    decreases |cs|
  {
    CollectedAreMaximalRuns(cs);
    if cs != [] {
      var b := RunStart(cs, |cs|);
      PrefixOnePerLine(cs, b);
      CollectedAreMaximalRuns(cs[..b]);
      hide MaximalRuns, Collected, CommentAbove;
      NewestRunDecides(cs, line);
      assert !EndsAbove(cs, |cs| - 1, line);
      if cs[|cs| - 1].start.line > line - 1 {
        OlderRunsDecide(cs, line);
        forall k
          ensures !EndsAbove(cs[..b], k, line)
        {
          EndsBeforeTheLastRun(cs, k, line);
        }
        NoRunAboveIsFound(cs[..b], line);
      }
    }
  }

  // The newest run ends with the last comment.
  lemma {:induction false} NewestCollected(cs: seq<Token>)
    requires OnePerLine(cs)
    ensures cs == [] ==> Collected(cs) == []
    ensures cs != [] ==> Collected(cs) != [] && Collected(cs)[0].end.line == cs[|cs| - 1].start.line
    ensures cs != [] ==> Collected(cs) == Insert(Collected(cs[..|cs| - 1]), cs[|cs| - 1])
  {
    CollectedAreMaximalRuns(cs);
    if cs != [] {
      NewestRunFirst(cs);
    }
  }

  // However many more tokens the window has read, and so whatever comments from below a token's line have
  // been collected meanwhile, the comment found for the token is the same.
  lemma {:induction false} LookaheadDoesNotMatter(cs: seq<Token>, more: seq<Token>, line: int)
    requires OnePerLine(cs + more)
    requires forall i :: 0 <= i < |more| ==> more[i].start.line > line
    ensures CommentAbove(Collected(cs + more), line) == CommentAbove(Collected(cs), line)
    decreases |more|
  {
    hide Collected, CommentAbove, Insert;
    if more == [] {
      assert cs + more == cs;
    } else {
      var all := cs + more;
      var n := |all| - 1;
      var rest := more[..|more| - 1];
      assert all[..n] == cs + rest && all[n] == more[|more| - 1];
      PrefixOnePerLine(all, n);
      LookaheadDoesNotMatter(cs, rest, line);
      NewestCollected(all[..n]);
      NewestCollected(all);
      OneMoreBelow(Collected(all[..n]), all[n], line);
    }
  }

  lemma {:induction false} OneMoreBelow(runs: Runs, tok: Token, line: int)
    requires runs != [] ==> runs[0].end.line < tok.start.line
    requires tok.start.line == tok.end.line > line
    ensures CommentAbove(Insert(runs, tok), line) == CommentAbove(runs, line)
  {
    var after := Insert(runs, tok);
    if runs != [] && runs[0].end.line == tok.start.line - 1 {
      assert after[1..] == runs[1..];
    } else {
      assert after[1..] == runs;
    }
  }
}
