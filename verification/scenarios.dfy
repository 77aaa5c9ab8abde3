/**
  Concrete command lines run against any state that holds the opening
  case's tables (the one init_game builds). They pin down behaviour that
  follows from the rules above but is easy to miss: first-match substring
  lookup, presence checks for interviews, and the fact that forked stages
  cannot change or end the shell's game.
 */
module Scenarios {
  import opened Tokenizer
  import opened Commands
  import opened Routing
  import G = Game
  import opened Shell

  /** Tokens written back with single spaces come out of the tokenizer unchanged. */
  lemma Tokens(ts: seq<string>, line: string)
    requires forall k :: 0 <= k < |ts| ==> IsWord(ts[k])
    requires |ts| <= MaxTokens
    requires Join(ts) == line
    ensures Tokenize(line) == ts
  {
    TokenizeJoinRoundTrip(ts);
  }

  /** Two tokens with no pipe token and no redirect token in front go straight to the dispatch chain. */
  lemma TwoTokensPlain(a: string, b: string)
    requires a != PipeToken && b != PipeToken && a != RedirectToken
    ensures Route([a, b]) == Direct(Run(Dispatch([a, b])))
  {
    assert !HasRedirect([a, b]);
  }

  /** A command and its single argument, written as a two-token vector, select that command. */
  lemma Dispatches(name: string, c: Command)
    requires c != NotRecognized && |Arguments(c)| == 1 && name == Name(c)
    ensures Dispatch([name, Arguments(c)[0]]) == c
  {
    DispatchRender(c);
    assert Render(c) == [name, Arguments(c)[0]];
  }

  lemma TonyLacksA()
    ensures !G.Contains(G.Suspects[0], "a")
  {
    G.FirstCharAbsent(G.Suspects[0], "a");
  }

  lemma VictoriaHasA()
    ensures G.Contains(G.Suspects[1], "a")
  {
    assert G.OccursAt(G.Suspects[1], "a", 7);
  }

  /** "a" first occurs in Victoria's name, so it names her. */
  lemma LetterANamesVictoria()
    ensures G.FirstMatch(G.Suspects, "a") == G.Some(1)
  {
    TonyLacksA();
    VictoriaHasA();
  }

  lemma VictoriaHasVictoria()
    ensures G.Contains(G.Suspects[1], "Victoria")
  {
    assert G.OccursAt(G.Suspects[1], "Victoria", 0);
  }

  lemma VictoriaNamesVictoria()
    ensures G.FirstMatch(G.Suspects, "Victoria") == G.Some(1)
  {
    G.FirstCharAbsent(G.Suspects[0], "Victoria");
    VictoriaHasVictoria();
  }

  lemma StationLacksVelvet()
    ensures !G.Contains(G.Locations[0], "Velvet")
  {
    G.FirstCharAbsent(G.Locations[0], "Velvet");
  }

  lemma SceneLacksVelvet()
    ensures !G.Contains(G.Locations[1], "Velvet")
  {
    G.FirstCharAbsent(G.Locations[1], "Velvet");
  }

  lemma ClubHasVelvet()
    ensures G.Contains(G.Locations[2], "Velvet")
  {
    assert G.OccursAt(G.Locations[2], "Velvet", 0);
  }

  lemma VelvetIsTheNightclub()
    ensures G.FirstMatch(G.Locations, "Velvet") == G.Some(2)
  {
    StationLacksVelvet();
    SceneLacksVelvet();
    ClubHasVelvet();
  }

  lemma TokensAccuseA()
    ensures Tokenize("accuse a") == ["accuse", "a"]
  {
    var args := ["accuse", "a"];
    assert Join(args) == "accuse a";
    Tokens(args, "accuse a");
  }

  lemma TokensRedirectedAccusation()
    ensures Tokenize("accuse Vixen > notes") == ["accuse", "Vixen", ">", "notes"]
  {
    var args := ["accuse", "Vixen", ">", "notes"];
    assert Join(args) == "accuse Vixen > notes";
    Tokens(args, "accuse Vixen > notes");
  }

  lemma TokensExitPipeList()
    ensures Tokenize("exit | ls") == ["exit", "|", "ls"]
  {
    var args := ["exit", "|", "ls"];
    assert Join(args) == "exit | ls";
    Tokens(args, "exit | ls");
  }

  lemma TokensInterviewVictoria()
    ensures Tokenize("interview Victoria") == ["interview", "Victoria"]
  {
    var args := ["interview", "Victoria"];
    assert Join(args) == "interview Victoria";
    Tokens(args, "interview Victoria");
  }

  lemma TokensMoveVelvet()
    ensures Tokenize("move Velvet") == ["move", "Velvet"]
  {
    var args := ["move", "Velvet"];
    assert Join(args) == "move Velvet";
    Tokens(args, "move Velvet");
  }

  lemma RouteAccuseA()
    ensures Route(["accuse", "a"]) == Direct(Run(Accuse("a")))
  {
    TwoTokensPlain("accuse", "a");
    Dispatches("accuse", Accuse("a"));
  }

  lemma RouteInterviewVictoria()
    ensures Route(["interview", "Victoria"]) == Direct(Run(Interview("Victoria")))
  {
    TwoTokensPlain("interview", "Victoria");
    Dispatches("interview", Interview("Victoria"));
  }

  lemma RouteMoveVelvet()
    ensures Route(["move", "Velvet"]) == Direct(Run(Move("Velvet")))
  {
    TwoTokensPlain("move", "Velvet");
    Dispatches("move", Move("Velvet"));
  }

  /** A line whose tokens go straight to the dispatch chain applies their command in the shell's process. */
  lemma LineRuns(g: G.GameState, line: string, args: seq<string>, c: Command)
    requires G.WellFormed(g)
    requires Tokenize(line) == args && Route(args) == Direct(Run(c))
    ensures RunLine(g, line) == Apply(g, c)
  {
  }

  /** The game's own tables and culprit, whatever the rest of the record holds. */
  predicate OpeningTables(g: G.GameState) {
    && G.WellFormed(g)
    && g.locations == G.Locations
    && g.suspects == G.Suspects
    && g.suspectLocations == G.SuspectLocations
    && g.correctSuspect == 1
  }

  /** A move whose name first matches location k jumps there. */
  lemma MoveApplies(g: G.GameState, name: string, k: nat)
    requires G.WellFormed(g) && G.FirstMatch(g.locations, name) == G.Some(k)
    ensures Apply(g, Move(name)) == Continue(g.(progress := k))
  {
  }

  /**
    A line holding only `investigate` advances progress and the evidence
    count by one while a clue is left, and leaves the game as it is after
    the last one.
   */
  lemma InvestigateLine(g: G.GameState, line: string)
    requires G.WellFormed(g) && Tokenize(line) == ["investigate"]
    ensures G.HasClue(g) ==> RunLine(g, line) == Continue(G.Investigate(g))
    ensures !G.HasClue(g) ==> RunLine(g, line) == Continue(g)
  {
    var args := ["investigate"];
    BranchInvestigate(args);
    assert !HasRedirect(args);
    LineRuns(g, line, args, Investigate);
  }

  /** An accusation whose name first matches the culprit solves the case. */
  lemma AccuseApplies(g: G.GameState, name: string)
    requires G.WellFormed(g) && G.FirstMatch(g.suspects, name) == G.Some(g.correctSuspect)
    ensures Apply(g, Accuse(name)) == CaseClosed(true)
  {
  }

  /** An interview of the suspect named first, made where that suspect is, is recorded. */
  lemma InterviewApplies(g: G.GameState, name: string, k: nat)
    requires G.WellFormed(g) && G.FirstMatch(g.suspects, name) == G.Some(k)
    requires G.CurrentLocation(g) == g.suspectLocations[k]
    ensures Apply(g, Interview(name)) == Continue(g.(interviewsDone := g.interviewsDone[k := true]))
  {
    G.InterviewPresent(g, name, k);
  }

  /** An interview of a suspect who is elsewhere is not recorded. */
  lemma InterviewIgnored(g: G.GameState, name: string, k: nat)
    requires G.WellFormed(g) && G.FirstMatch(g.suspects, name) == G.Some(k)
    requires G.CurrentLocation(g) != g.suspectLocations[k]
    ensures Apply(g, Interview(name)) == Continue(g)
  {
    G.InterviewAbsent(g, name, k);
  }

  lemma VelvetNamedIn(g: G.GameState)
    requires OpeningTables(g)
    ensures G.FirstMatch(g.locations, "Velvet") == G.Some(2)
  {
    VelvetIsTheNightclub();
  }

  lemma LetterANamedIn(g: G.GameState)
    requires OpeningTables(g)
    ensures G.FirstMatch(g.suspects, "a") == G.Some(g.correctSuspect)
  {
    LetterANamesVictoria();
  }

  lemma VictoriaNamedIn(g: G.GameState)
    requires OpeningTables(g)
    ensures G.FirstMatch(g.suspects, "Victoria") == G.Some(1)
  {
    VictoriaNamesVictoria();
  }

  lemma VictoriaInClub(g: G.GameState)
    requires OpeningTables(g) && g.progress % G.Slots == 2
    ensures G.CurrentLocation(g) == g.suspectLocations[1]
  {
  }

  lemma VictoriaNotAtStation(g: G.GameState)
    requires OpeningTables(g) && g.progress % G.Slots == 0
    ensures G.CurrentLocation(g) != g.suspectLocations[1]
  {
  }

  /** The opening state holds the game's tables and stands at the police station. */
  lemma InitOpens()
    ensures OpeningTables(G.Init()) && G.Init().progress % G.Slots == 0
  {
  }

  /** Accusing with the single letter "a" solves the case: the first name holding an "a" is Victoria's. */
  lemma AccuseByOneLetter(g: G.GameState, line: string)
    requires OpeningTables(g)
    requires Tokenize(line) == ["accuse", "a"]
    ensures RunLine(g, line) == CaseClosed(true)
  {
    RouteAccuseA();
    LineRuns(g, line, ["accuse", "a"], Accuse("a"));
    LetterANamedIn(g);
    AccuseApplies(g, "a");
  }

  /** The same accusation with its output redirected is made by a child, and the game goes on. */
  lemma RedirectedAccusationKeepsPlaying(g: G.GameState, line: string)
    requires G.WellFormed(g)
    requires Tokenize(line) == ["accuse", "Vixen", ">", "notes"]
    ensures RunLine(g, line) == Continue(g)
  {
    assert Tokenize(line)[2] == RedirectToken;
    ForkedLineLeavesGame(g, line);
  }

  /** exit as a pipeline stage quits only its child. */
  lemma ExitInPipelineKeepsPlaying(g: G.GameState, line: string)
    requires G.WellFormed(g)
    requires Tokenize(line) == ["exit", "|", "ls"]
    ensures RunLine(g, line) == Continue(g)
  {
    assert Tokenize(line)[1] == PipeToken;
    ForkedLineLeavesGame(g, line);
  }

  /** Victoria is at the nightclub, so interviewing her from the police station records nothing. */
  lemma InterviewAwayIsIgnored(g: G.GameState, line: string)
    requires OpeningTables(g) && g.progress % G.Slots == 0
    requires Tokenize(line) == ["interview", "Victoria"]
    ensures RunLine(g, line) == Continue(g)
  {
    RouteInterviewVictoria();
    LineRuns(g, line, ["interview", "Victoria"], Interview("Victoria"));
    VictoriaNamedIn(g);
    VictoriaNotAtStation(g);
    InterviewIgnored(g, "Victoria", 1);
  }

  /** Asking to move to "Velvet" goes to the nightclub from anywhere. */
  lemma MoveVelvetLine(g: G.GameState, line: string)
    requires OpeningTables(g)
    requires Tokenize(line) == ["move", "Velvet"]
    ensures RunLine(g, line) == Continue(g.(progress := 2))
  {
    RouteMoveVelvet();
    LineRuns(g, line, ["move", "Velvet"], Move("Velvet"));
    VelvetNamedIn(g);
    MoveApplies(g, "Velvet", 2);
  }

  /** In the nightclub, the interview line records Victoria's interview. */
  lemma InterviewVictoriaLineInClub(g: G.GameState, line: string)
    requires OpeningTables(g) && g.progress % G.Slots == 2
    requires Tokenize(line) == ["interview", "Victoria"]
    ensures RunLine(g, line) == Continue(g.(interviewsDone := g.interviewsDone[1 := true]))
  {
    RouteInterviewVictoria();
    LineRuns(g, line, ["interview", "Victoria"], Interview("Victoria"));
    VictoriaNamedIn(g);
    VictoriaInClub(g);
    InterviewApplies(g, "Victoria", 1);
  }

  /** Two lines that both keep the game running. */
  lemma SessionOfTwo(g: G.GameState, a: string, b: string, g1: G.GameState, g2: G.GameState)
    requires G.WellFormed(g) && G.WellFormed(g1)
    requires RunLine(g, a) == Continue(g1) && RunLine(g1, b) == Continue(g2)
    ensures RunSession(g, [a, b]) == Continue(g2)
  {
    assert [a, b][0] == a && [a, b][1..] == [b];
    assert [b][0] == b && [b][1..] == [];
    assert RunSession(g1, [b]) == RunSession(g2, []);
  }

  /**
    From any point of the game, moving to the nightclub and then
    interviewing Victoria records that interview and no other.
   */
  lemma InterviewAfterMove(g: G.GameState, move: string, interview: string)
    requires OpeningTables(g)
    requires Tokenize(move) == ["move", "Velvet"] && Tokenize(interview) == ["interview", "Victoria"]
    ensures var o := RunSession(g, [move, interview]);
            && o.Continue?
            && o.state.progress == 2
            && o.state.interviewsDone == g.interviewsDone[1 := true]
  {
    var g1 := g.(progress := 2);
    MoveVelvetLine(g, move);
    InterviewVictoriaLineInClub(g1, interview);
    SessionOfTwo(g, move, interview, g1, g1.(interviewsDone := g1.interviewsDone[1 := true]));
  }
}
