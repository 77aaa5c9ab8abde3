# OS Noire Shell, modelled in Dafny

OS Noire Shell is a small interactive Unix shell wrapped around a 1940s
detective game. Every line typed at the prompt is tokenized, scanned for a
pipe token `|` and a redirect token `>`, and then either handed to two
piped children, to one child with its output on a file, or to the built-in
command chain. Seven of those built-ins play the game: `investigate`,
`interview`, `move`, `whereis`, `accuse`, `status` and `exit`. The game is
a record holding a progress counter, the evidence count, the interviews
done, and fixed tables of six locations and six suspects. Suspects and
places are found by first-match substring search (`strstr`).

This project models that decision logic as pure functions and proves its
properties:

- `tokenizer.dfy` (module `Tokenizer`): `parse_input`. The reference
  definition (`Split`, `Tokenize`), the strtok loop as a method proved
  equal to it, and round trips with `Join`.
- `commands.dfy` (module `Commands`): the name and arity chain at the end of
  `execute_command`. It includes the registry of built-in names, and rendering a
  command back to its shortest argument vector.
- `routing.dfy` (module `Routing`): the pipe scan in `main`, `execute_with_pipe`'s
  split, `execute_command`'s redirect scan and `handle_redirection`'s split.
  These are modelled as the vectors each stage is given to run.
- `game.dfy` (module `Game`): the game record, `init_game`, and the
  `investigate`, `move`, `interview`, `whereis` and `accuse` transitions.
- `shell.dfy` (module `Shell`): one pass of the main loop, and a session of
  lines. Only a plain command runs in the shell's own process. A redirected
  command or a pipeline stage runs in a forked child, so its game changes
  are lost, and an `accuse` or `exit` there ends only the child.
- `scenarios.dfy` (module `Scenarios`): concrete lines against the game's own
  tables. One is the single letter that solves the case, another the
  interview that is ignored away from the suspect.

Three edge cases that a reader might expect the shell to reject are
accepted by the code, and the model follows it:

- A leading `|` is accepted; its left stage is the empty vector, which
  `execute_command` ignores.
- A trailing `>` is not a syntax error: the whole vector, `>` included, goes
  to the command chain.
- A second `|` is not rejected: it stays in the right stage as a literal
  argument.

## Model

| member | source | states |
|---|---|---|
| Tokenizer.Tokenize | OS-Noire-Shell.c:134-144 | at most 63 tokens are kept; each is non-empty and free of space, tab and newline; they are the first of the line's maximal runs, and all of them when fewer than 63 |
| Tokenizer.ParseInput | OS-Noire-Shell.c:134-144 | the strtok loop, which stops at the end of the line or when 63 tokens are stored, returns exactly the capped run list |
| Tokenizer.SplitAtDelim | OS-Noire-Shell.c:136-140 | no token spans a delimiter: cutting a line at one delimiter and tokenizing the halves gives the whole line's tokens |
| Tokenizer.SplitJoinRoundTrip | OS-Noire-Shell.c:134-144 | tokens written back with single spaces are split into exactly those tokens again |
| Tokenizer.TokenizeJoinRoundTrip | OS-Noire-Shell.c:134-144 | the capped tokenizer inverts writing back for every vector of up to 63 tokens |
| Tokenizer.TokenizeJoinTruncates | OS-Noire-Shell.c:138 | a longer vector written back comes out as its first 63 tokens |
| Tokenizer.BlankIffNoTokens | OS-Noire-Shell.c:134-144 | a line gives the empty vector exactly when all its characters are delimiters |
| Tokenizer.SplitKeepsContent | OS-Noire-Shell.c:134-144 | the tokens glued together are the line's non-delimiter characters in order: nothing else is dropped or reordered |
| Commands.Dispatch | OS-Noire-Shell.c:156-244 | a recognized command is always the one named by the first token |
| Commands.RecognizedIff | OS-Noire-Shell.c:156-244 | a vector is recognized exactly when its first token is a registered name with at least as many further tokens as that name requires |
| Commands.NotRecognizedCases | OS-Noire-Shell.c:242-244 | "Command not recognized" happens for an unknown name, for one of the eight one-argument names without an argument, and for mv without two, and for nothing else |
| Commands.DispatchRender | OS-Noire-Shell.c:156-241 | every command comes back from the chain when given its name and arguments, and its name is registered with that arity |
| Commands.RenderDispatch | OS-Noire-Shell.c:156-241 | a registered name with enough tokens is recognized, and the recognized command is exactly the vector's first 1 + arity tokens |
| Commands.DispatchIgnoresExtraTokens | OS-Noire-Shell.c:156-241 | tokens after the third never change the choice |
| Routing.FirstIndex | OS-Noire-Shell.c:283-287 | the scan stops at the first occurrence of the token, or at the end exactly when the token is absent |
| Routing.HandleRedirection | OS-Noire-Shell.c:247-260 | the command holds no redirect token and is followed in the vector by the redirect token and the target; the syntax error happens exactly when there is no redirect token or the first one is the last token |
| Routing.ExecuteCommand | OS-Noire-Shell.c:146-154 | an empty vector does nothing; redirection is taken exactly when some redirect token has a token after it, and then the child gets handle_redirection's command and target; otherwise the chain runs on the whole vector; the redirection syntax error never comes out |
| Routing.FirstRedirectHasTarget | OS-Noire-Shell.c:249-258 | if any redirect token has a successor then so does the first, so handle_redirection always succeeds when called from execute_command |
| Routing.ExecuteWithPipe | OS-Noire-Shell.c:281-300 | the pipe path never runs the vector directly; the syntax error happens exactly when there is no pipe token or the first one is the last token; otherwise the left stage holds no pipe token, the right stage is non-empty, and left, pipe token, right rebuild the vector |
| Routing.Route | OS-Noire-Shell.c:63-72 | a line with no pipe token runs execute_command on the whole vector; one with a pipe token anywhere takes execute_with_pipe's result instead |
| Routing.PipeSplit | OS-Noire-Shell.c:283-300 | with a token after the first pipe token, the line becomes a pipeline whose left stage is everything before that token and whose right stage is everything after it |
| Routing.PipeBeatsRedirect | OS-Noire-Shell.c:64-72 | a pipe token anywhere sends the line down the pipe path whatever redirect tokens it holds, and the left stage, the first pipe token and the right stage rebuild the vector in order |
| Routing.InvalidPipeIff | OS-Noire-Shell.c:289-292 | the pipe syntax error happens exactly when the first pipe token is the last token |
| Routing.SecondPipeIsLiteral | OS-Noire-Shell.c:300 | a later pipe token is passed to the right stage as an ordinary argument at its shifted position |
| Routing.LeadingPipe | OS-Noire-Shell.c:297-298 | a leading pipe token gives the left stage the empty vector, which execute_command treats as a no-op |
| Routing.TrailingRedirectDispatches | OS-Noire-Shell.c:149-154 | a lone trailing redirect token is not a redirection: the whole vector goes to the chain |
| Routing.RedirectedChildIsPlain | OS-Noire-Shell.c:260-271 | the redirected child's vector holds no redirect token, so the child never redirects again |
| Routing.RedirectSplit | OS-Noire-Shell.c:249-261 | the redirected command is the tokens before the first redirect token and the target is the token right after it; later tokens are ignored |
| Game.Init | OS-Noire-Shell.c:91-123 | the opening record is well formed, with progress and evidence at 0, no interview done, Victoria as the culprit, and every suspect at one of the game's locations |
| Game.Contains | OS-Noire-Shell.c:465 | strstr finds the needle exactly when it occurs at some position of the haystack |
| Game.FirstMatch | OS-Noire-Shell.c:463-469 | the index found is the first entry containing the key, and nothing is found exactly when no entry contains it |
| Game.Investigate | OS-Noire-Shell.c:446-447 | progress and the evidence count both rise by exactly one and nothing else in the record changes |
| Game.InvestigateCapped | OS-Noire-Shell.c:421-451 | with a clue left it is exactly investigate (progress and evidence each up by one, nothing else changed); with none left the state is unchanged |
| Game.SeventhInvestigateOverruns | OS-Noire-Shell.c:443-447 | after six investigations from the opening state, progress is 6, past the clue table the seventh reads |
| Game.CappedInvestigateStaysInTable | OS-Noire-Shell.c:446-448 | any number of guarded investigations keeps progress within 0..6, and enough of them reach 6 |
| Game.InvestigateAdvancesLocation | OS-Noire-Shell.c:446 | because the prompt's location is read from progress, investigating also moves the detective to the next location |
| Game.Move | OS-Noire-Shell.c:532-543 | progress becomes the first location index whose name contains the argument; with no match nothing changes; nothing but progress ever changes |
| Game.Interview | OS-Noire-Shell.c:463-497 | an interview is recorded exactly for the first suspect matching the name, and only when that suspect is at the current location; earlier interviews are kept and nothing but the interview flags changes |
| Game.InterviewPresent | OS-Noire-Shell.c:471-488 | a matched suspect who is at the current location gets exactly their flag set |
| Game.InterviewAbsent | OS-Noire-Shell.c:471-475 | a matched suspect who is elsewhere leaves the record unchanged |
| Game.InterviewIdempotent | OS-Noire-Shell.c:486-488 | asking the same name twice changes nothing the second time |
| Game.WhereIs | OS-Noire-Shell.c:568-582 | reports the full name and location of the first suspect whose name contains the argument, and nothing exactly when no suspect matches |
| Game.Accuse | OS-Noire-Shell.c:596-603 | the accusation is correct exactly when the first suspect matching the argument is the culprit; no match is a wrong accusation |
| Shell.Apply | OS-Noire-Shell.c:156-244 | investigate, move and interview apply the capped investigate, Game.Move and Game.Interview (an unmatched move or interview changes nothing) and no other command changes the game; the case's fixed facts and the progress bound are kept; accuse and only accuse closes the case, solved as Game.Accuse says; exit and only exit abandons it |
| Shell.RunLine | OS-Noire-Shell.c:58-73 | one line keeps the record well formed, the case's fixed facts and the progress bound |
| Shell.RunSession | OS-Noire-Shell.c:58-73 | a session that keeps running ends in a well-formed record with the same case |
| Shell.ForkedLineLeavesGame | OS-Noire-Shell.c:267-324 | a line with a pipe token (the two forks of execute_with_pipe) or a redirection (the fork of handle_redirection) runs its commands in children and leaves the shell's game unchanged, even when a child accuses or exits |
| Shell.BlankLineLeavesGame | OS-Noire-Shell.c:147 | a blank line leaves the game unchanged |
| Shell.PlainLineApplies | OS-Noire-Shell.c:70-72 | a line with no pipe token and no redirection applies the command its tokens select |
| Shell.SessionKeepsValid | OS-Noire-Shell.c:58-73 | from a valid state, every running session stays valid and keeps the case's fixed facts |
| Shell.SessionStopsAtEnding | OS-Noire-Shell.c:604-605 | a session that has ended, by an accusation or exit, reads none of the lines appended after it |
| Shell.SessionStep | OS-Noire-Shell.c:58-73 | while the game runs, the next line read is run on the state the earlier lines left |
| Shell.SessionEndsAtLine | OS-Noire-Shell.c:238-241 | the first line that accuses or exits (exit(0) here and at the end of accuse) gives the session's outcome, and no later line is read |
| Shell.SessionAppend | OS-Noire-Shell.c:58-73 | a running session extended with more lines is the extension run from where the session stopped |
| Scenarios.AccuseByOneLetter | OS-Noire-Shell.c:596-603 | accusing with the single letter "a" solves the case, because Victoria's name is the first to contain it |
| Scenarios.RedirectedAccusationKeepsPlaying | OS-Noire-Shell.c:267-272 | an accusation whose output is redirected is made by a child, and the game goes on unchanged |
| Scenarios.ExitInPipelineKeepsPlaying | OS-Noire-Shell.c:308-314 | exit as a pipeline stage ends only its child, and the game goes on unchanged |
| Scenarios.InterviewAwayIsIgnored | OS-Noire-Shell.c:471-475 | at the police station, interviewing Victoria, who is at the nightclub, records nothing |
| Scenarios.InvestigateLine | OS-Noire-Shell.c:156-157 | a line holding only `investigate` applies investigate in the shell's own process: progress and evidence go up by one while a clue is left, and nothing changes after the last clue |
| Scenarios.MoveVelvetLine | OS-Noire-Shell.c:532-543 | "move Velvet" goes to the nightclub, location 2, from any point of the game |
| Scenarios.InterviewAfterMove | OS-Noire-Shell.c:463-497 | moving to the nightclub and then interviewing Victoria records her interview and no other |

## Left out

- fork, pipe, dup2, open, close, wait and waitpid around the splits are not modelled. A forked stage is represented only by the vector it is given, and its effect on the game as none, since the child has its own copy of the record.
- A failed `open` of the redirection target is not modelled; it changes nothing in the game either way.
- The `system()` calls (`ls`, `cat`, `du`, `date`, `rev`, `examine`), `chdir` and `rename` are left out: these commands are chosen by the chain but leave the game unchanged.
- `demonstrate_exec`, `demonstrate_waitpid`, `demonstrate_execvp` and `controlled_forkbomb` are left out; they only create processes and sleep.
- `create_case_file`, `create_case_files` and the case files written by `investigate` are left out; they are file I/O.
- Printed text, colours and the `status` and `help` output are left out. `accuse` and `exit` are outcomes of a line, not process exits.
- The 1024-byte `fgets` buffer, a line longer than it being read in pieces, and NUL bytes are not modelled. A line is any sequence of characters.
- The 32-byte table entries are not modelled: the table strings are short literals that fit them.
- The pointers that `memcpy` copies past the terminator for the right stage are not modelled. The right stage is the suffix up to the terminator, which is all `execute_command` reads.
- Game.Investigate: requires progress inside the clue table, because reading `clues[progress]` past it is undefined behaviour in the source (see Findings); the shell uses Game.InvestigateCapped.
- Game.InvestigateCapped: leaves the state unchanged once progress is 6. The source has no guard, so what it should do there is a choice of this model.
- `evidence_found` and `progress` are C `int`s; their overflow is not modelled. Capped investigation never goes past 6.

## Findings

| source | as written | input that shows it | evidently intended | confidence | as-written member | corrected member |
|---|---|---|---|---|---|---|
| OS-Noire-Shell.c:443-447 | `investigate` reads `clues[game.progress]` and `discoveries[game.progress]`, then increments progress with no bound check | seven `investigate` lines from the start: the first six leave progress at 6, and the seventh indexes the six-entry tables at 6 | investigate should stop handing out clues once all six are found, keeping progress at most 6 | not executed | Game.SeventhInvestigateOverruns | Game.CappedInvestigateStaysInTable |
