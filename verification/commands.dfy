/**
  The built-in command table of the shell: the if/else chain at the end of
  execute_command chooses an action by the first token and by how many
  arguments follow it. A name that needs an argument it was not given is
  not recognized, exactly like an unknown name.
 */
module Commands {

  /** One action the dispatch chain can choose, with the arguments it passes on. */
  datatype Command =
    | Investigate
    | Interview(suspect: string)
    | Accuse(suspect: string)
    | Examine(item: string)
    | Move(location: string)
    | WhereIs(suspect: string)
    | Status
    | Help
    | List
    | ChangeDir(path: string)
    | Cat(file: string)
    | ForkBomb
    | Rename(source: string, target: string)
    | DiskUsage
    | Date
    | Reverse(file: string)
    | ExecDemo
    | WaitDemo
    | ExecvpDemo
    | Exit
    | NotRecognized

  /** Every name the chain knows, with the number of arguments it insists on. */
  const Registry: map<string, nat> := map[
    "investigate" := 0, "interview" := 1, "accuse" := 1, "examine" := 1,
    "move" := 1, "whereis" := 1, "status" := 0, "help" := 0, "ls" := 0,
    "cd" := 1, "cat" := 1, "forkbomb" := 0, "mv" := 2, "du" := 0,
    "date" := 0, "rev" := 1, "execdemo" := 0, "waitdemo" := 0,
    "execvpdemo" := 0, "exit" := 0]

  /**
    The name-and-arity chain of execute_command. The chain is only reached
    with a non-empty vector; tokens past the ones a command needs are ignored.
   */
  function Dispatch(args: seq<string>): (c: Command)
    requires |args| > 0
    ensures c != NotRecognized ==> args[0] == Name(c)
  {
    var name := args[0];
    var has1 := |args| > 1;
    var has2 := |args| > 2;
    if name == "investigate" then Investigate
    else if name == "interview" && has1 then Interview(args[1])
    else if name == "accuse" && has1 then Accuse(args[1])
    else if name == "examine" && has1 then Examine(args[1])
    else if name == "move" && has1 then Move(args[1])
    else if name == "whereis" && has1 then WhereIs(args[1])
    else if name == "status" then Status
    else if name == "help" then Help
    else if name == "ls" then List
    else if name == "cd" && has1 then ChangeDir(args[1])
    else if name == "cat" && has1 then Cat(args[1])
    else if name == "forkbomb" then ForkBomb
    else if name == "mv" && has1 && has2 then Rename(args[1], args[2])
    else if name == "du" then DiskUsage
    else if name == "date" then Date
    else if name == "rev" && has1 then Reverse(args[1])
    else if name == "execdemo" then ExecDemo
    else if name == "waitdemo" then WaitDemo
    else if name == "execvpdemo" then ExecvpDemo
    else if name == "exit" then Exit
    else NotRecognized
  }

  /** The token that selects a command (empty for NotRecognized, which has none). */
  function Name(c: Command): string {
    match c
    case Investigate => "investigate"
    case Interview(_) => "interview"
    case Accuse(_) => "accuse"
    case Examine(_) => "examine"
    case Move(_) => "move"
    case WhereIs(_) => "whereis"
    case Status => "status"
    case Help => "help"
    case List => "ls"
    case ChangeDir(_) => "cd"
    case Cat(_) => "cat"
    case ForkBomb => "forkbomb"
    case Rename(_, _) => "mv"
    case DiskUsage => "du"
    case Date => "date"
    case Reverse(_) => "rev"
    case ExecDemo => "execdemo"
    case WaitDemo => "waitdemo"
    case ExecvpDemo => "execvpdemo"
    case Exit => "exit"
    case NotRecognized => ""
  }

  /** The arguments a command carries, in the order the chain reads them. */
  function Arguments(c: Command): seq<string> {
    match c
    case Interview(s) => [s]
    case Accuse(s) => [s]
    case Examine(i) => [i]
    case Move(l) => [l]
    case WhereIs(s) => [s]
    case ChangeDir(p) => [p]
    case Cat(f) => [f]
    case Rename(a, b) => [a, b]
    case Reverse(f) => [f]
    case _ => []
  }

  /** The shortest argument vector that selects `c`. */
  function Render(c: Command): (args: seq<string>)
    requires c != NotRecognized
    ensures |args| == 1 + |Arguments(c)|
  {
    [Name(c)] + Arguments(c)
  }

  /*
    One lemma per branch of the chain: the registered arity of the name, and
    what the chain returns for a vector starting with it. Keeping each name's
    comparisons in a lemma of its own keeps the proofs below small.
   */

  lemma BranchInvestigate(args: seq<string>)
    requires |args| > 0 && args[0] == "investigate"
    ensures args[0] in Registry && Registry[args[0]] == 0
    ensures Dispatch(args) == (Investigate)
    ensures Render(Dispatch(args)) == args[..1]
  {
  }

  lemma BranchInterview(args: seq<string>)
    requires |args| > 0 && args[0] == "interview"
    ensures args[0] in Registry && Registry[args[0]] == 1
    ensures Dispatch(args) == (if |args| > 1 then Interview(args[1]) else NotRecognized)
    ensures |args| > 1 ==> Render(Dispatch(args)) == args[..2]
  {
  }

  lemma BranchAccuse(args: seq<string>)
    requires |args| > 0 && args[0] == "accuse"
    ensures args[0] in Registry && Registry[args[0]] == 1
    ensures Dispatch(args) == (if |args| > 1 then Accuse(args[1]) else NotRecognized)
    ensures |args| > 1 ==> Render(Dispatch(args)) == args[..2]
  {
  }

  lemma BranchExamine(args: seq<string>)
    requires |args| > 0 && args[0] == "examine"
    ensures args[0] in Registry && Registry[args[0]] == 1
    ensures Dispatch(args) == (if |args| > 1 then Examine(args[1]) else NotRecognized)
    ensures |args| > 1 ==> Render(Dispatch(args)) == args[..2]
  {
  }

  lemma BranchMove(args: seq<string>)
    requires |args| > 0 && args[0] == "move"
    ensures args[0] in Registry && Registry[args[0]] == 1
    ensures Dispatch(args) == (if |args| > 1 then Move(args[1]) else NotRecognized)
    ensures |args| > 1 ==> Render(Dispatch(args)) == args[..2]
  {
  }

  lemma BranchWhereIs(args: seq<string>)
    requires |args| > 0 && args[0] == "whereis"
    ensures args[0] in Registry && Registry[args[0]] == 1
    ensures Dispatch(args) == (if |args| > 1 then WhereIs(args[1]) else NotRecognized)
    ensures |args| > 1 ==> Render(Dispatch(args)) == args[..2]
  {
  }

  lemma BranchStatus(args: seq<string>)
    requires |args| > 0 && args[0] == "status"
    ensures args[0] in Registry && Registry[args[0]] == 0
    ensures Dispatch(args) == (Status)
    ensures Render(Dispatch(args)) == args[..1]
  {
  }

  lemma BranchHelp(args: seq<string>)
    requires |args| > 0 && args[0] == "help"
    ensures args[0] in Registry && Registry[args[0]] == 0
    ensures Dispatch(args) == (Help)
    ensures Render(Dispatch(args)) == args[..1]
  {
  }

  lemma BranchList(args: seq<string>)
    requires |args| > 0 && args[0] == "ls"
    ensures args[0] in Registry && Registry[args[0]] == 0
    ensures Dispatch(args) == (List)
    ensures Render(Dispatch(args)) == args[..1]
  {
  }

  lemma BranchChangeDir(args: seq<string>)
    requires |args| > 0 && args[0] == "cd"
    ensures args[0] in Registry && Registry[args[0]] == 1
    ensures Dispatch(args) == (if |args| > 1 then ChangeDir(args[1]) else NotRecognized)
    ensures |args| > 1 ==> Render(Dispatch(args)) == args[..2]
  {
  }

  lemma BranchCat(args: seq<string>)
    requires |args| > 0 && args[0] == "cat"
    ensures args[0] in Registry && Registry[args[0]] == 1
    ensures Dispatch(args) == (if |args| > 1 then Cat(args[1]) else NotRecognized)
    ensures |args| > 1 ==> Render(Dispatch(args)) == args[..2]
  {
  }

  lemma BranchForkBomb(args: seq<string>)
    requires |args| > 0 && args[0] == "forkbomb"
    ensures args[0] in Registry && Registry[args[0]] == 0
    ensures Dispatch(args) == (ForkBomb)
    ensures Render(Dispatch(args)) == args[..1]
  {
  }

  lemma BranchRename(args: seq<string>)
    requires |args| > 0 && args[0] == "mv"
    ensures args[0] in Registry && Registry[args[0]] == 2
    ensures Dispatch(args) == (if |args| > 2 then Rename(args[1], args[2]) else NotRecognized)
    ensures |args| > 2 ==> Render(Dispatch(args)) == args[..3]
  {
  }

  lemma BranchDiskUsage(args: seq<string>)
    requires |args| > 0 && args[0] == "du"
    ensures args[0] in Registry && Registry[args[0]] == 0
    ensures Dispatch(args) == (DiskUsage)
    ensures Render(Dispatch(args)) == args[..1]
  {
  }

  lemma BranchDate(args: seq<string>)
    requires |args| > 0 && args[0] == "date"
    ensures args[0] in Registry && Registry[args[0]] == 0
    ensures Dispatch(args) == (Date)
    ensures Render(Dispatch(args)) == args[..1]
  {
  }

  lemma BranchReverse(args: seq<string>)
    requires |args| > 0 && args[0] == "rev"
    ensures args[0] in Registry && Registry[args[0]] == 1
    ensures Dispatch(args) == (if |args| > 1 then Reverse(args[1]) else NotRecognized)
    ensures |args| > 1 ==> Render(Dispatch(args)) == args[..2]
  {
  }

  lemma BranchExecDemo(args: seq<string>)
    requires |args| > 0 && args[0] == "execdemo"
    ensures args[0] in Registry && Registry[args[0]] == 0
    ensures Dispatch(args) == (ExecDemo)
    ensures Render(Dispatch(args)) == args[..1]
  {
  }

  lemma BranchWaitDemo(args: seq<string>)
    requires |args| > 0 && args[0] == "waitdemo"
    ensures args[0] in Registry && Registry[args[0]] == 0
    ensures Dispatch(args) == (WaitDemo)
    ensures Render(Dispatch(args)) == args[..1]
  {
  }

  lemma BranchExecvpDemo(args: seq<string>)
    requires |args| > 0 && args[0] == "execvpdemo"
    ensures args[0] in Registry && Registry[args[0]] == 0
    ensures Dispatch(args) == (ExecvpDemo)
    ensures Render(Dispatch(args)) == args[..1]
  {
  }

  lemma BranchExit(args: seq<string>)
    requires |args| > 0 && args[0] == "exit"
    ensures args[0] in Registry && Registry[args[0]] == 0
    ensures Dispatch(args) == (Exit)
    ensures Render(Dispatch(args)) == args[..1]
  {
  }

  /**
    Dispatch recognizes a vector exactly when its first token is a registered
    name followed by at least as many tokens as that name requires.
   */
  lemma RecognizedIff(args: seq<string>)
    requires |args| > 0
    ensures Dispatch(args) != NotRecognized <==>
              args[0] in Registry && |args| > Registry[args[0]]
  {
    if args[0] == "investigate" {
      BranchInvestigate(args);
    } else if args[0] == "interview" {
      BranchInterview(args);
    } else if args[0] == "accuse" {
      BranchAccuse(args);
    } else if args[0] == "examine" {
      BranchExamine(args);
    } else if args[0] == "move" {
      BranchMove(args);
    } else if args[0] == "whereis" {
      BranchWhereIs(args);
    } else if args[0] == "status" {
      BranchStatus(args);
    } else if args[0] == "help" {
      BranchHelp(args);
    } else if args[0] == "ls" {
      BranchList(args);
    } else if args[0] == "cd" {
      BranchChangeDir(args);
    } else if args[0] == "cat" {
      BranchCat(args);
    } else if args[0] == "forkbomb" {
      BranchForkBomb(args);
    } else if args[0] == "mv" {
      BranchRename(args);
    } else if args[0] == "du" {
      BranchDiskUsage(args);
    } else if args[0] == "date" {
      BranchDate(args);
    } else if args[0] == "rev" {
      BranchReverse(args);
    } else if args[0] == "execdemo" {
      BranchExecDemo(args);
    } else if args[0] == "waitdemo" {
      BranchWaitDemo(args);
    } else if args[0] == "execvpdemo" {
      BranchExecvpDemo(args);
    } else if args[0] == "exit" {
      BranchExit(args);
    } else {
      assert args[0] !in Registry;
    }
  }

  /** "Command not recognized" comes from an unknown name or a missing argument, and from nothing else. */
  lemma NotRecognizedCases(args: seq<string>)
    requires |args| > 0
    ensures Dispatch(args) == NotRecognized <==>
              || args[0] !in Registry
              || (args[0] in {"interview", "accuse", "examine", "move", "whereis", "cd", "cat", "rev"} && |args| < 2)
              || (args[0] == "mv" && |args| < 3)
  {
    RecognizedIff(args);
  }

  /** Rendering a command and dispatching the result gives the command back, and its name is registered with its arity. */
  lemma DispatchRender(c: Command)
    requires c != NotRecognized
    ensures Dispatch(Render(c)) == c
    ensures Render(c)[0] in Registry && |Render(c)| == 1 + Registry[Render(c)[0]]
  {
    var args := Render(c);
    match c
    case Investigate => BranchInvestigate(args);
    case Interview(_) => BranchInterview(args);
    case Accuse(_) => BranchAccuse(args);
    case Examine(_) => BranchExamine(args);
    case Move(_) => BranchMove(args);
    case WhereIs(_) => BranchWhereIs(args);
    case Status => BranchStatus(args);
    case Help => BranchHelp(args);
    case List => BranchList(args);
    case ChangeDir(_) => BranchChangeDir(args);
    case Cat(_) => BranchCat(args);
    case ForkBomb => BranchForkBomb(args);
    case Rename(_, _) => BranchRename(args);
    case DiskUsage => BranchDiskUsage(args);
    case Date => BranchDate(args);
    case Reverse(_) => BranchReverse(args);
    case ExecDemo => BranchExecDemo(args);
    case WaitDemo => BranchWaitDemo(args);
    case ExecvpDemo => BranchExecvpDemo(args);
    case Exit => BranchExit(args);
  }

  /**
    A vector whose name is registered and carries enough tokens is its
    command's rendering followed by tokens the chain never reads.
   */
  lemma RenderDispatch(args: seq<string>)
    requires |args| > 0 && args[0] in Registry && |args| > Registry[args[0]]
    ensures Dispatch(args) != NotRecognized
    ensures Render(Dispatch(args)) == args[..1 + Registry[args[0]]]
  {
    if args[0] == "investigate" {
      BranchInvestigate(args);
    } else if args[0] == "interview" {
      BranchInterview(args);
    } else if args[0] == "accuse" {
      BranchAccuse(args);
    } else if args[0] == "examine" {
      BranchExamine(args);
    } else if args[0] == "move" {
      BranchMove(args);
    } else if args[0] == "whereis" {
      BranchWhereIs(args);
    } else if args[0] == "status" {
      BranchStatus(args);
    } else if args[0] == "help" {
      BranchHelp(args);
    } else if args[0] == "ls" {
      BranchList(args);
    } else if args[0] == "cd" {
      BranchChangeDir(args);
    } else if args[0] == "cat" {
      BranchCat(args);
    } else if args[0] == "forkbomb" {
      BranchForkBomb(args);
    } else if args[0] == "mv" {
      BranchRename(args);
    } else if args[0] == "du" {
      BranchDiskUsage(args);
    } else if args[0] == "date" {
      BranchDate(args);
    } else if args[0] == "rev" {
      BranchReverse(args);
    } else if args[0] == "execdemo" {
      BranchExecDemo(args);
    } else if args[0] == "waitdemo" {
      BranchWaitDemo(args);
    } else if args[0] == "execvpdemo" {
      BranchExecvpDemo(args);
    } else if args[0] == "exit" {
      BranchExit(args);
    }
  }

  /** Tokens past the third one never influence the choice. */
  lemma DispatchIgnoresExtraTokens(args: seq<string>, extra: seq<string>)
    requires |args| >= 3
    ensures Dispatch(args + extra) == Dispatch(args)
  {
    var full := args + extra;
    assert full[0] == args[0] && full[1] == args[1] && full[2] == args[2];
    if args[0] == "investigate" {
      BranchInvestigate(args);
      BranchInvestigate(full);
    } else if args[0] == "interview" {
      BranchInterview(args);
      BranchInterview(full);
    } else if args[0] == "accuse" {
      BranchAccuse(args);
      BranchAccuse(full);
    } else if args[0] == "examine" {
      BranchExamine(args);
      BranchExamine(full);
    } else if args[0] == "move" {
      BranchMove(args);
      BranchMove(full);
    } else if args[0] == "whereis" {
      BranchWhereIs(args);
      BranchWhereIs(full);
    } else if args[0] == "status" {
      BranchStatus(args);
      BranchStatus(full);
    } else if args[0] == "help" {
      BranchHelp(args);
      BranchHelp(full);
    } else if args[0] == "ls" {
      BranchList(args);
      BranchList(full);
    } else if args[0] == "cd" {
      BranchChangeDir(args);
      BranchChangeDir(full);
    } else if args[0] == "cat" {
      BranchCat(args);
      BranchCat(full);
    } else if args[0] == "forkbomb" {
      BranchForkBomb(args);
      BranchForkBomb(full);
    } else if args[0] == "mv" {
      BranchRename(args);
      BranchRename(full);
    } else if args[0] == "du" {
      BranchDiskUsage(args);
      BranchDiskUsage(full);
    } else if args[0] == "date" {
      BranchDate(args);
      BranchDate(full);
    } else if args[0] == "rev" {
      BranchReverse(args);
      BranchReverse(full);
    } else if args[0] == "execdemo" {
      BranchExecDemo(args);
      BranchExecDemo(full);
    } else if args[0] == "waitdemo" {
      BranchWaitDemo(args);
      BranchWaitDemo(full);
    } else if args[0] == "execvpdemo" {
      BranchExecvpDemo(args);
      BranchExecvpDemo(full);
    } else if args[0] == "exit" {
      BranchExit(args);
      BranchExit(full);
    }
  }
}
