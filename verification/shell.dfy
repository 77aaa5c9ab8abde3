/**
  One pass of the main loop: a line is tokenized, routed, and, when it
  names a built-in to run in the shell's own process, applied to the game.
  A redirected command or a pipeline stage runs in a forked child, which
  works on its own copy of the game record, so nothing it does reaches the
  shell's state; a child that accuses or exits ends only itself.
 */
module Shell {
  import opened Tokenizer
  import opened Commands
  import opened Routing
  import G = Game

  /** Where the game stands after a line: still running, or over. */
  datatype Outcome =
    | Continue(state: G.GameState)   // back to the prompt
    | CaseClosed(solved: bool)       // an accusation was made
    | Abandoned                      // the exit command

  /** The states the shell can be in: well formed and never past the last clue. */
  predicate Valid(g: G.GameState) {
    G.WellFormed(g) && g.progress <= G.Slots
  }

  /** The parts of the record no command ever writes. */
  predicate SameCase(g: G.GameState, h: G.GameState) {
    && g.locations == h.locations
    && g.suspects == h.suspects
    && g.suspectLocations == h.suspectLocations
    && g.weapon == h.weapon
    && g.motive == h.motive
    && g.correctSuspect == h.correctSuspect
  }

  /**
    A command run by the dispatch chain in the shell's own process. Only
    investigate, move and interview touch the game; accuse and exit end it.
   */
  function Apply(g: G.GameState, c: Command): (o: Outcome)
    requires G.WellFormed(g)
    ensures o.Continue? ==> G.WellFormed(o.state) && SameCase(g, o.state)
    ensures Valid(g) && o.Continue? ==> Valid(o.state)
    ensures o.Continue? && o.state != g ==> c.Investigate? || c.Move? || c.Interview?
    ensures o.CaseClosed? <==> c.Accuse?
    ensures o.Abandoned? <==> c.Exit?
    ensures c.Accuse? ==> (o.solved <==> G.IsFirstMatch(g.suspects, c.suspect, g.correctSuspect))
    ensures c.Investigate? ==> o == Continue(G.InvestigateCapped(g))
    ensures c.Move? ==> o == Continue(G.Move(g, c.location))
    ensures c.Interview? ==> o == Continue(G.Interview(g, c.suspect))
  {
    match c
    case Investigate => Continue(G.InvestigateCapped(g))
    case Interview(s) => Continue(G.Interview(g, s))
    case Accuse(s) => CaseClosed(G.Accuse(g, s))
    case Move(l) => Continue(G.Move(g, l))
    case Exit => Abandoned
    case _ => Continue(g)
  }

  /** The main loop's handling of one input line. */
  function RunLine(g: G.GameState, line: string): (o: Outcome)
    requires G.WellFormed(g)
    ensures o.Continue? ==> G.WellFormed(o.state) && SameCase(g, o.state)
    ensures Valid(g) && o.Continue? ==> Valid(o.state)
  {
    match Route(Tokenize(line))
    case Direct(Run(c)) => Apply(g, c)
    case _ => Continue(g)
  }

  /** The lines read until end of input, stopping at the first line that ends the game. */
  function RunSession(g: G.GameState, lines: seq<string>): (o: Outcome)
    requires G.WellFormed(g)
    ensures o.Continue? ==> G.WellFormed(o.state) && SameCase(g, o.state)
    decreases |lines|
  {
    if |lines| == 0 then Continue(g)
    else
      match RunLine(g, lines[0])
      case Continue(h) => RunSession(h, lines[1..])
      case o => o
  }

  /**
    A line that holds a pipe token, or a redirect token with a file name
    after it, runs its commands in children and leaves the shell's game
    exactly as it was, even when a child accuses or exits.
   */
  lemma ForkedLineLeavesGame(g: G.GameState, line: string)
    requires G.WellFormed(g)
    requires PipeToken in Tokenize(line) || HasRedirect(Tokenize(line))
    ensures RunLine(g, line) == Continue(g)
  {
  }

  /** A blank line is a no-op. */
  lemma BlankLineLeavesGame(g: G.GameState, line: string)
    requires G.WellFormed(g)
    requires IsBlank(line)
    ensures RunLine(g, line) == Continue(g)
  {
    BlankIffNoTokens(line);
  }

  /** A line with no pipe and no redirection runs the command its first tokens select. */
  lemma PlainLineApplies(g: G.GameState, line: string)
    requires G.WellFormed(g)
    requires |Tokenize(line)| > 0
    requires PipeToken !in Tokenize(line) && !HasRedirect(Tokenize(line))
    ensures RunLine(g, line) == Apply(g, Dispatch(Tokenize(line)))
  {
  }

  /** A session from a valid state stays valid and keeps the case's fixed facts. */
  lemma {:induction false} SessionKeepsValid(g: G.GameState, lines: seq<string>)
    requires Valid(g)
    ensures RunSession(g, lines).Continue? ==>
              Valid(RunSession(g, lines).state) && SameCase(g, RunSession(g, lines).state)
    decreases |lines|
  {
    if |lines| > 0 {
      var o := RunLine(g, lines[0]);
      if o.Continue? {
        SessionKeepsValid(o.state, lines[1..]);
      }
    }
  }

  /** Once a line ends the game, the lines after it are never read. */
  lemma {:induction false} SessionStopsAtEnding(g: G.GameState, lines: seq<string>, more: seq<string>)
    requires G.WellFormed(g)
    requires !RunSession(g, lines).Continue?
    ensures RunSession(g, lines + more) == RunSession(g, lines)
    decreases |lines|
  {
    assert |lines| > 0;
    assert (lines + more)[0] == lines[0];
    assert (lines + more)[1..] == lines[1..] + more;
    var o := RunLine(g, lines[0]);
    if o.Continue? {
      SessionStopsAtEnding(o.state, lines[1..], more);
    }
  }

  /** A session of lines none of which ends the game can be extended line by line. */
  lemma {:induction false} SessionAppend(g: G.GameState, lines: seq<string>, more: seq<string>)
    requires G.WellFormed(g)
    requires RunSession(g, lines).Continue?
    ensures G.WellFormed(RunSession(g, lines).state)
    ensures RunSession(g, lines + more) == RunSession(RunSession(g, lines).state, more)
    decreases |lines|
  {
    if |lines| == 0 {
      assert lines + more == more;
    } else {
      assert (lines + more)[0] == lines[0];
      assert (lines + more)[1..] == lines[1..] + more;
      var o := RunLine(g, lines[0]);
      SessionAppend(o.state, lines[1..], more);
    }
  }

  /** A running session followed by one more line is that line run on the session's state. */
  lemma SessionStep(g: G.GameState, lines: seq<string>, l: string)
    requires G.WellFormed(g) && RunSession(g, lines).Continue?
    ensures G.WellFormed(RunSession(g, lines).state)
    ensures RunSession(g, lines + [l]) == RunLine(RunSession(g, lines).state, l)
  {
    SessionAppend(g, lines, [l]);
    assert [l][1..] == [];
  }

  /**
    The line that accuses or exits ends the session with its own outcome,
    whatever lines follow it.
   */
  lemma SessionEndsAtLine(g: G.GameState, lines: seq<string>, l: string, more: seq<string>)
    requires G.WellFormed(g) && RunSession(g, lines).Continue?
    requires !RunLine(RunSession(g, lines).state, l).Continue?
    ensures RunSession(g, lines + [l] + more) == RunLine(RunSession(g, lines).state, l)
  {
    SessionStep(g, lines, l);
    SessionStopsAtEnding(g, lines + [l], more);
  }
}
