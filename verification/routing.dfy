/**
  How a token vector becomes an action: main's scan for a pipe token,
  execute_with_pipe's split into two stage vectors, execute_command's scan
  for a redirection that has a file name after it, and handle_redirection's
  split into a command vector and a target. Only what each stage is given
  to run is modelled; the processes and descriptors around it are not.
 */
module Routing {
  import opened Commands

  const PipeToken: string := "|"
  const RedirectToken: string := ">"

  /** Index of the first occurrence of `tok` in `args`, or |args| when there is none. */
  function FirstIndex(args: seq<string>, tok: string): (i: nat)
    ensures i <= |args|
    ensures forall k :: 0 <= k < i ==> args[k] != tok
    ensures i < |args| ==> args[i] == tok
    ensures i == |args| <==> tok !in args
    decreases |args|
  {
    if |args| == 0 then 0
    else if args[0] == tok then 0
    else 1 + FirstIndex(args[1..], tok)
  }

  /** Absence from a prefix, stated position by position. */
  lemma NotInPrefix(args: seq<string>, tok: string, m: nat)
    requires m <= |args|
    ensures tok !in args[..m] <==> forall k :: 0 <= k < m ==> args[k] != tok
  {
    assert forall k :: 0 <= k < m ==> args[..m][k] == args[k];
  }

  /** What one call of execute_command does with its vector. */
  datatype Exec =
    | NoOp                                        // the vector is empty
    | Run(command: Command)                       // the dispatch chain runs in this process
    | Redirected(cmd: seq<string>, target: string) // a child runs `cmd` with its output on `target`
    | InvalidRedirection                          // handle_redirection's syntax error

  /** What the main loop does with a tokenized line. */
  datatype LineAction =
    | Direct(exec: Exec)                             // no pipe token: execute_command on the whole vector
    | Pipeline(left: seq<string>, right: seq<string>) // two children run execute_command on these
    | InvalidPipe                                    // execute_with_pipe's syntax error

  /** The test guarding handle_redirection: some redirect token has a token after it. */
  predicate HasRedirect(args: seq<string>) {
    exists i :: 0 <= i < |args| - 1 && args[i] == RedirectToken
  }

  /**
    handle_redirection: split at the first redirect token. The command is
    everything before it and the target is the token right after it; later
    tokens are dropped.
   */
  function HandleRedirection(args: seq<string>): (e: Exec)
    ensures e.Redirected? ==>
              && RedirectToken !in e.cmd
              && e.cmd + [RedirectToken, e.target] <= args
    ensures e.InvalidRedirection? <==>
              (RedirectToken !in args || (args[|args| - 1] == RedirectToken && RedirectToken !in args[..|args| - 1]))
    ensures e.Redirected? || e.InvalidRedirection?
  {
    var i := FirstIndex(args, RedirectToken);
    if i == |args| || i + 1 == |args| then InvalidRedirection
    else
      assert args[..i + 2] == args[..i] + [RedirectToken, args[i + 1]];
      Redirected(args[..i], args[i + 1])
  }

  /** execute_command: nothing for an empty vector, then redirection, then the dispatch chain. */
  function ExecuteCommand(args: seq<string>): (e: Exec)
    ensures e.NoOp? <==> |args| == 0
    ensures e.Redirected? <==> |args| > 0 && HasRedirect(args)
    ensures e.Redirected? ==> e == HandleRedirection(args)
    ensures e.Run? ==> |args| > 0 && e.command == Dispatch(args)
    ensures !e.InvalidRedirection?
  {
    if |args| == 0 then NoOp
    else if HasRedirect(args) then
      FirstRedirectHasTarget(args);
      HandleRedirection(args)
    else Run(Dispatch(args))
  }

  /**
    If some redirect token has a successor then so does the first one, so
    handle_redirection's syntax error cannot be reached from execute_command.
   */
  lemma FirstRedirectHasTarget(args: seq<string>)
    requires HasRedirect(args)
    ensures FirstIndex(args, RedirectToken) + 1 < |args|
    ensures HandleRedirection(args).Redirected?
  {
    var j :| 0 <= j < |args| - 1 && args[j] == RedirectToken;
    assert FirstIndex(args, RedirectToken) <= j;
  }

  /**
    execute_with_pipe: split at the first pipe token. The left stage gets
    everything before it, the right stage everything after it, and a pipe
    token with nothing after it is a syntax error.
   */
  function ExecuteWithPipe(args: seq<string>): (a: LineAction)
    ensures !a.Direct?
    ensures a.InvalidPipe? <==> PipeToken !in args || FirstIndex(args, PipeToken) == |args| - 1
    ensures a.Pipeline? ==>
              && PipeToken !in a.left
              && a.left + [PipeToken] + a.right == args
              && |a.right| > 0
  {
    var i := FirstIndex(args, PipeToken);
    if i == |args| || i + 1 == |args| then InvalidPipe
    else
      assert args[..i] + [PipeToken] + args[i + 1..] == args;
      Pipeline(args[..i], args[i + 1..])
  }

  /** main's loop body: a pipe token anywhere takes the pipe path, otherwise execute_command. */
  function Route(args: seq<string>): (a: LineAction)
    ensures a.Direct? <==> PipeToken !in args
    ensures a.Direct? ==> a.exec == ExecuteCommand(args)
    ensures !a.Direct? ==> a == ExecuteWithPipe(args)
  {
    if PipeToken in args then ExecuteWithPipe(args) else Direct(ExecuteCommand(args))
  }

  /**
    The pipe split by position: with the first pipe token at index i and a
    token after it, the left stage is args[..i] and the right stage args[i+1..].
   */
  lemma PipeSplit(args: seq<string>)
    requires PipeToken in args
    requires FirstIndex(args, PipeToken) + 1 < |args|
    ensures var i := FirstIndex(args, PipeToken);
            Route(args) == Pipeline(args[..i], args[i + 1..])
  {
  }

  /** A pipe token makes the pipe path win over any redirection: execute_command never sees the whole line. */
  lemma PipeBeatsRedirect(args: seq<string>)
    requires PipeToken in args
    ensures Route(args).Pipeline? || Route(args).InvalidPipe?
    ensures Route(args).Pipeline? ==> Route(args).left + [PipeToken] + Route(args).right == args
  {
    var i := FirstIndex(args, PipeToken);
    if i + 1 < |args| {
      PipeSplit(args);
    }
  }

  /** The pipe syntax error happens exactly when the first pipe token is the last token. */
  lemma InvalidPipeIff(args: seq<string>)
    requires PipeToken in args
    ensures Route(args).InvalidPipe? <==> args[|args| - 1] == PipeToken && PipeToken !in args[..|args| - 1]
  {
    var i := FirstIndex(args, PipeToken);
    var n := |args|;
    NotInPrefix(args, PipeToken, n - 1);
    if i + 1 == n {
      assert args[..n - 1] == args[..i];
    }
  }

  /** A later pipe token is not interpreted: it stays in the right stage as a literal argument. */
  lemma SecondPipeIsLiteral(args: seq<string>, j: nat)
    requires FirstIndex(args, PipeToken) < j < |args| && args[j] == PipeToken
    ensures Route(args).Pipeline?
    ensures var r := Route(args).right; var i := FirstIndex(args, PipeToken);
            r[j - i - 1] == PipeToken
  {
    assert PipeToken in args;
    PipeSplit(args);
  }

  /** A leading pipe token is accepted and hands its left stage the empty vector, which is a no-op. */
  lemma LeadingPipe(rest: seq<string>)
    requires |rest| > 0
    ensures Route([PipeToken] + rest) == Pipeline([], rest)
    ensures ExecuteCommand(Route([PipeToken] + rest).left) == NoOp
  {
    assert ([PipeToken] + rest)[1..] == rest;
  }

  /** A trailing redirect token with no file name is not a redirection: the whole vector is dispatched. */
  lemma TrailingRedirectDispatches(args: seq<string>)
    requires |args| > 0 && args[|args| - 1] == RedirectToken
    requires RedirectToken !in args[..|args| - 1]
    ensures ExecuteCommand(args) == Run(Dispatch(args))
  {
    NotInPrefix(args, RedirectToken, |args| - 1);
  }

  /**
    The child of a redirection runs an ordinary command: its vector has no
    redirect token, so it is never redirected a second time.
   */
  lemma RedirectedChildIsPlain(args: seq<string>)
    requires ExecuteCommand(args).Redirected?
    ensures var c := ExecuteCommand(args).cmd;
            ExecuteCommand(c) == NoOp || ExecuteCommand(c) == Run(Dispatch(c))
  {
    var c := ExecuteCommand(args).cmd;
    NotInPrefix(c, RedirectToken, |c|);
    assert c[..|c|] == c;
  }

  /**
    The redirected command and target are the tokens before the first
    redirect token and the one right after it; anything later is ignored.
   */
  lemma RedirectSplit(cmd: seq<string>, target: string, rest: seq<string>)
    requires RedirectToken !in cmd
    ensures ExecuteCommand(cmd + [RedirectToken, target] + rest) == Redirected(cmd, target)
  {
    var args := cmd + [RedirectToken, target] + rest;
    assert args[|cmd|] == RedirectToken;
    assert args[..|cmd|] == cmd;
    NotInPrefix(args, RedirectToken, |cmd|);
  }
}
