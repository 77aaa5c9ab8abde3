/**
  The detective game's state and the transitions the shell's built-ins make
  on it. Suspects and locations are looked up by first-match substring
  search over fixed six-entry tables, the way strstr is used in the game's
  handlers.
 */
module Game {

  datatype Option<T> = None | Some(value: T)

  /** Entries in each of the game's fixed tables. */
  const Slots: nat := 6

  /**
    The game record. `progress` is both the clue counter and the index of the
    current location (modulo Slots); `interviewsDone[k]` records whether
    suspect k has been questioned.
   */
  datatype GameState = GameState(
    progress: int,
    locations: seq<string>,
    suspects: seq<string>,
    suspectLocations: seq<string>,
    weapon: string,
    motive: string,
    correctSuspect: int,
    evidenceFound: int,
    interviewsDone: seq<bool>)

  /** The tables have the fixed sizes of the record's arrays. */
  predicate Shaped(g: GameState) {
    && |g.locations| == Slots
    && |g.suspects| == Slots
    && |g.suspectLocations| == Slots
    && |g.interviewsDone| == Slots
  }

  /** A shaped state whose progress can index the location table modulo Slots. */
  predicate WellFormed(g: GameState) {
    Shaped(g) && g.progress >= 0
  }

  /** The location shown in the prompt and used to decide who can be interviewed. */
  function CurrentLocation(g: GameState): string
    requires WellFormed(g)
  {
    g.locations[g.progress % Slots]
  }

  /** The six places of the game, in table order. */
  const Locations: seq<string> :=
    ["Police Station", "Crime Scene", "Velvet Nightclub", "Docks", "Roosevelt Hotel", "City Morgue"]

  /** The six suspects, in table order. */
  const Suspects: seq<string> :=
    ["Tony 'Fingers' Moretti", "Victoria 'Vixen' LaRue", "Big Louie Scaletta",
     "Mickey O'Shea", "Dr. Eleanor Whitmore", "Sal 'The Tailor' Russo"]

  /** Where each suspect can be found, aligned with Suspects. */
  const SuspectLocations: seq<string> :=
    ["Velvet Nightclub", "Velvet Nightclub", "Docks", "Police Station", "City Morgue", "Roosevelt Hotel"]

  /** The state set up before the first prompt. */
  function Init(): (g: GameState)
    ensures WellFormed(g)
    ensures g.progress == 0 && g.evidenceFound == 0
    ensures forall k :: 0 <= k < Slots ==> !g.interviewsDone[k]
    ensures 0 <= g.correctSuspect < Slots && g.suspects[g.correctSuspect] == "Victoria 'Vixen' LaRue"
    ensures forall k :: 0 <= k < Slots ==> g.suspectLocations[k] in g.locations
  {
    GameState(
      0,
      Locations,
      Suspects,
      SuspectLocations,
      "a .38 snubnose",
      "The victim knew about Victoria's drug operation and was blackmailing her",
      1,
      0,
      [false, false, false, false, false, false])
  }

  /** `needle` occurs in `hay` starting at position i. */
  predicate OccursAt(hay: string, needle: string, i: int) {
    0 <= i && i + |needle| <= |hay| && hay[i..i + |needle|] == needle
  }

  /** Occurrences in hay[1..] are the occurrences in hay shifted left by one. */
  lemma OccursShift(hay: string, needle: string)
    requires |hay| > 0
    ensures forall i :: OccursAt(hay[1..], needle, i) ==> OccursAt(hay, needle, i + 1)
    ensures forall i :: 1 <= i && OccursAt(hay, needle, i) ==> OccursAt(hay[1..], needle, i - 1)
  {
    forall i | OccursAt(hay[1..], needle, i) ensures OccursAt(hay, needle, i + 1) {
      assert hay[1..][i..i + |needle|] == hay[i + 1..i + 1 + |needle|];
    }
    forall i | 1 <= i && OccursAt(hay, needle, i) ensures OccursAt(hay[1..], needle, i - 1) {
      assert hay[1..][i - 1..i - 1 + |needle|] == hay[i..i + |needle|];
    }
  }

  /** strstr(hay, needle) != NULL: the needle occurs somewhere in the haystack. */
  function Contains(hay: string, needle: string): (r: bool)
    ensures r <==> exists i :: OccursAt(hay, needle, i)
    decreases |hay|
  {
    if needle <= hay then
      assert OccursAt(hay, needle, 0);
      true
    else if |hay| == 0 then false
    else
      OccursShift(hay, needle);
      assert !OccursAt(hay, needle, 0);
      Contains(hay[1..], needle)
  }

  /** Every occurrence starts with the needle's first character. */
  lemma OccursFirstChar(hay: string, needle: string)
    requires |needle| > 0
    ensures forall i :: OccursAt(hay, needle, i) ==> hay[i] == needle[0]
  {
    forall i | OccursAt(hay, needle, i) ensures hay[i] == needle[0] {
      assert hay[i..i + |needle|][0] == hay[i];
    }
  }

  /** A needle whose first character is nowhere in the haystack does not occur in it. */
  lemma FirstCharAbsent(hay: string, needle: string)
    requires |needle| > 0 && needle[0] !in hay
    ensures !Contains(hay, needle)
  {
    OccursFirstChar(hay, needle);
  }

  /** k is the first index of `table` whose entry contains `key`. */
  predicate IsFirstMatch(table: seq<string>, key: string, k: int) {
    && 0 <= k < |table|
    && Contains(table[k], key)
    && forall j :: 0 <= j < k ==> !Contains(table[j], key)
  }

  /** At most one index is the first match. */
  lemma FirstMatchUnique(table: seq<string>, key: string, k: int)
    requires IsFirstMatch(table, key, k)
    ensures forall m :: IsFirstMatch(table, key, m) ==> m == k
  {
  }

  /** The scan `for (i = start; i < 6; i++) if (strstr(table[i], key)) break;`. */
  function FindFrom(table: seq<string>, key: string, start: nat): (r: Option<nat>)
    requires start <= |table|
    ensures r.Some? ==>
              && start <= r.value < |table|
              && Contains(table[r.value], key)
              && forall j :: start <= j < r.value ==> !Contains(table[j], key)
    ensures r.None? ==> forall j :: start <= j < |table| ==> !Contains(table[j], key)
    decreases |table| - start
  {
    if start == |table| then None
    else if Contains(table[start], key) then Some(start)
    else FindFrom(table, key, start + 1)
  }

  /** The first entry of `table` that contains `key`, if any. */
  function FirstMatch(table: seq<string>, key: string): (r: Option<nat>)
    ensures r.Some? ==> IsFirstMatch(table, key, r.value)
    ensures r.None? <==> forall j :: 0 <= j < |table| ==> !Contains(table[j], key)
  {
    FindFrom(table, key, 0)
  }

  /** handle_investigate reads clues[progress], a six-entry table. */
  predicate HasClue(g: GameState) {
    0 <= g.progress < Slots
  }

  /**
    handle_investigate as written: the clue for the current progress is
    reported, then progress and the evidence count both go up by one.
    Nothing in the source stops progress from leaving the clue table.
   */
  function Investigate(g: GameState): (r: GameState)
    requires HasClue(g)
    ensures r == g.(progress := r.progress, evidenceFound := r.evidenceFound)
    ensures r.progress == g.progress + 1 && r.evidenceFound == g.evidenceFound + 1
  {
    g.(progress := g.progress + 1, evidenceFound := g.evidenceFound + 1)
  }

  /**
    handle_investigate with the guard it evidently needs: once every clue
    has been handed out the state is left as it is.
   */
  function InvestigateCapped(g: GameState): (r: GameState)
    ensures HasClue(g) ==> r == Investigate(g)
    ensures !HasClue(g) ==> r == g
  {
    if HasClue(g) then Investigate(g) else g
  }

  /**
    Seven `investigate` commands from the start: the first six use the six
    clues and leave progress at 6, so the seventh would read past the clue
    table.
   */
  lemma SeventhInvestigateOverruns()
    ensures var g := Investigate(Investigate(Investigate(Investigate(Investigate(Investigate(Init()))))));
            g.progress == Slots && !HasClue(g)
  {
  }

  /** With the guard, investigating forever never moves progress past the last clue. */
  lemma {:induction false} CappedInvestigateStaysInTable(g: GameState, n: nat)
    requires 0 <= g.progress <= Slots
    ensures 0 <= IterateInvestigate(g, n).progress <= Slots
    ensures n >= Slots - g.progress ==> IterateInvestigate(g, n).progress == Slots
    decreases n
  {
    if n > 0 {
      CappedInvestigateStaysInTable(InvestigateCapped(g), n - 1);
    }
  }

  /** n guarded investigations in a row. */
  function IterateInvestigate(g: GameState, n: nat): GameState
    decreases n
  {
    if n == 0 then g else IterateInvestigate(InvestigateCapped(g), n - 1)
  }

  /** Investigating advances the current location as well, since both are read from progress. */
  lemma InvestigateAdvancesLocation(g: GameState)
    requires WellFormed(g) && HasClue(g)
    ensures WellFormed(Investigate(g))
    ensures CurrentLocation(Investigate(g)) == g.locations[(g.progress + 1) % Slots]
  {
  }

  /**
    handle_move: progress becomes the index of the first location whose name
    contains the argument; without a match nothing changes.
   */
  function Move(g: GameState, location: string): (r: GameState)
    requires Shaped(g)
    ensures r == g.(progress := r.progress)
    ensures (exists i :: 0 <= i < Slots && Contains(g.locations[i], location)) ==>
              IsFirstMatch(g.locations, location, r.progress)
    ensures (forall i :: 0 <= i < Slots ==> !Contains(g.locations[i], location)) ==> r == g
  {
    match FirstMatch(g.locations, location)
    case Some(i) => g.(progress := i)
    case None => g
  }

  /**
    handle_interview: the first suspect whose name contains the argument is
    marked as interviewed, but only when they are at the current location.
   */
  function Interview(g: GameState, name: string): (r: GameState)
    requires WellFormed(g)
    ensures r == g.(interviewsDone := r.interviewsDone)
    ensures |r.interviewsDone| == Slots
    ensures forall k :: 0 <= k < Slots ==>
              (r.interviewsDone[k] <==>
                 || g.interviewsDone[k]
                 || (IsFirstMatch(g.suspects, name, k) && g.suspectLocations[k] == CurrentLocation(g)))
  {
    match FirstMatch(g.suspects, name)
    case None => g
    case Some(k) =>
      if CurrentLocation(g) != g.suspectLocations[k] then g
      else
        FirstMatchUnique(g.suspects, name, k);
        g.(interviewsDone := g.interviewsDone[k := true])
  }

  /** The interview of a suspect found at the current location records exactly that suspect. */
  lemma InterviewPresent(g: GameState, name: string, k: nat)
    requires WellFormed(g)
    requires FirstMatch(g.suspects, name) == Some(k)
    requires CurrentLocation(g) == g.suspectLocations[k]
    ensures Interview(g, name) == g.(interviewsDone := g.interviewsDone[k := true])
  {
  }

  /** The interview of a suspect found elsewhere changes nothing. */
  lemma InterviewAbsent(g: GameState, name: string, k: nat)
    requires WellFormed(g)
    requires FirstMatch(g.suspects, name) == Some(k)
    requires CurrentLocation(g) != g.suspectLocations[k]
    ensures Interview(g, name) == g
  {
  }

  /** Asking the same suspect twice changes nothing the second time. */
  lemma InterviewIdempotent(g: GameState, name: string)
    requires WellFormed(g)
    ensures Interview(Interview(g, name), name) == Interview(g, name)
  {
    var r := Interview(g, name);
    var rr := Interview(r, name);
    assert CurrentLocation(r) == CurrentLocation(g);
    assert rr.interviewsDone == r.interviewsDone;
  }

  /**
    handle_whereis: the full name and location of the first suspect whose
    name contains the argument. It reports, and changes nothing.
   */
  function WhereIs(g: GameState, name: string): (r: Option<(string, string)>)
    requires Shaped(g)
    ensures r.None? <==> forall k :: 0 <= k < Slots ==> !Contains(g.suspects[k], name)
    ensures r.Some? ==> exists k :: IsFirstMatch(g.suspects, name, k) && r.value == (g.suspects[k], g.suspectLocations[k])
  {
    match FirstMatch(g.suspects, name)
    case None => None
    case Some(k) => Some((g.suspects[k], g.suspectLocations[k]))
  }

  /**
    handle_accuse: the accusation is correct exactly when the first suspect
    whose name contains the argument is the culprit; no match is a wrong
    accusation.
   */
  function Accuse(g: GameState, name: string): (solved: bool)
    requires Shaped(g)
    ensures solved <==> IsFirstMatch(g.suspects, name, g.correctSuspect)
  {
    match FirstMatch(g.suspects, name)
    case None => false
    case Some(k) =>
      FirstMatchUnique(g.suspects, name, k);
      k == g.correctSuspect
  }
}
