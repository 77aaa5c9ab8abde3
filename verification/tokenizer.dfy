/**
  The shell's tokenizer: an input line is cut into the maximal runs of
  characters that are not a space, a tab or a newline, in order, and at most
  MaxTokens of them are kept (the argument array has MaxArgs slots and the
  last one holds the terminator).
 */
module Tokenizer {

  /** Size of the argument array. */
  const MaxArgs: nat := 64

  /** Tokens kept per line: one slot of the array is the terminator. */
  const MaxTokens: nat := MaxArgs - 1

  /** The delimiter set handed to strtok. */
  predicate IsDelim(c: char) {
    c == ' ' || c == '\t' || c == '\n'
  }

  /** A token: non-empty and free of delimiters. */
  predicate IsWord(t: string) {
    |t| > 0 && forall i :: 0 <= i < |t| ==> !IsDelim(t[i])
  }

  /** True when every character of `s` is a delimiter (this includes the empty line). */
  predicate IsBlank(s: string) {
    forall i :: 0 <= i < |s| ==> IsDelim(s[i])
  }

  /** Length of the run of non-delimiters that starts `s`. */
  function RunLength(s: string): (n: nat)
    ensures n <= |s|
    ensures forall i :: 0 <= i < n ==> !IsDelim(s[i])
    ensures n < |s| ==> IsDelim(s[n])
  {
    if |s| == 0 || IsDelim(s[0]) then 0 else 1 + RunLength(s[1..])
  }

  /** Every maximal run of non-delimiters of `s`, left to right, without a cap. */
  function Split(s: string): (ts: seq<string>)
    ensures forall k :: 0 <= k < |ts| ==> IsWord(ts[k])
    decreases |s|
  {
    if |s| == 0 then []
    else if IsDelim(s[0]) then Split(s[1..])
    else
      var n := RunLength(s);
      [s[..n]] + Split(s[n..])
  }

  /** What parse_input leaves in the argument array: the first MaxTokens runs. */
  function Tokenize(line: string): (args: seq<string>)
    ensures |args| <= MaxTokens
    ensures forall k :: 0 <= k < |args| ==> IsWord(args[k])
    ensures args <= Split(line)
    ensures |args| < MaxTokens ==> args == Split(line)
  {
    var ts := Split(line);
    if |ts| <= MaxTokens then ts else ts[..MaxTokens]
  }

  /** The characters of `s` that are not delimiters, in order. */
  function NonDelims(s: string): string {
    if |s| == 0 then []
    else if IsDelim(s[0]) then NonDelims(s[1..])
    else [s[0]] + NonDelims(s[1..])
  }

  /** The tokens glued back together without separators. */
  function Concat(ts: seq<string>): string {
    if |ts| == 0 then [] else ts[0] + Concat(ts[1..])
  }

  /** The tokens written back as a line, one space between neighbours. */
  function Join(ts: seq<string>): string {
    if |ts| == 0 then []
    else if |ts| == 1 then ts[0]
    else ts[0] + " " + Join(ts[1..])
  }

  /** Skipping one leading delimiter does not change the runs. */
  lemma SplitSkipsDelim(line: string, p: nat)
    requires p < |line| && IsDelim(line[p])
    ensures Split(line[p..]) == Split(line[p + 1..])
  {
    assert line[p..][1..] == line[p + 1..];
  }

  /** A scanned run line[p..q) that ends at a delimiter or the end is the next token. */
  lemma SplitTakesRun(line: string, p: nat, q: nat)
    requires p < q <= |line|
    requires forall k :: p <= k < q ==> !IsDelim(line[k])
    requires q < |line| ==> IsDelim(line[q])
    ensures Split(line[p..]) == [line[p..q]] + Split(line[q..])
  {
    var s := line[p..];
    assert forall k :: 0 <= k < q - p ==> !IsDelim(s[k]);
    assert q - p < |s| ==> IsDelim(s[q - p]);
    assert RunLength(s) == q - p;
    assert s[..q - p] == line[p..q];
    assert s[q - p..] == line[q..];
  }

  /** The scan inside strtok: advance from `p` to the first delimiter or the end. */
  method ScanRun(line: string, p: nat) returns (q: nat)
    requires p <= |line|
    ensures p <= q <= |line|
    ensures forall k :: p <= k < q ==> !IsDelim(line[k])
    ensures q < |line| ==> IsDelim(line[q])
  {
    q := p;
    while q < |line| && !IsDelim(line[q])
      invariant p <= q <= |line|
      invariant forall k :: p <= k < q ==> !IsDelim(line[k])
      decreases |line| - q
    {
      q := q + 1;
    }
  }

  /**
    The strtok loop of parse_input: skip delimiters, take the run that
    follows as a token, and stop at the end of the line or once MaxTokens
    tokens are stored.
   */
  method ParseInput(line: string) returns (args: seq<string>)
    ensures args == Tokenize(line)
  {
    args := [];
    var p := 0;
    while p < |line| && |args| < MaxTokens
      invariant 0 <= p <= |line|
      invariant |args| <= MaxTokens
      invariant args + Split(line[p..]) == Split(line)
      decreases |line| - p
    {
      if IsDelim(line[p]) {
        SplitSkipsDelim(line, p);
        assert args + Split(line[p + 1..]) == Split(line);
        p := p + 1;
      } else {
        var q := ScanRun(line, p);
        SplitTakesRun(line, p, q);
        assert (args + [line[p..q]]) + Split(line[q..]) == args + Split(line[p..]);
        args := args + [line[p..q]];
        p := q;
      }
    }
    TokenizeFromLoop(line, args, p);
  }

  /** Where the strtok loop stops, the tokens it holds are exactly Tokenize's. */
  lemma TokenizeFromLoop(line: string, args: seq<string>, p: nat)
    requires p <= |line| && |args| <= MaxTokens
    requires args + Split(line[p..]) == Split(line)
    requires p == |line| || |args| == MaxTokens
    ensures args == Tokenize(line)
  {
    if p == |line| {
      assert line[p..] == [];
    } else {
      assert Split(line)[..MaxTokens] == args;
    }
  }

  /** A word on its own splits into exactly itself. */
  lemma SplitWord(t: string)
    requires IsWord(t)
    ensures RunLength(t) == |t|
    ensures Split(t) == [t]
  {
    var n := RunLength(t);
    assert t[..n] == t;
    assert t[n..] == [];
  }

  /** A delimiter stops the leading run exactly where the prefix before it ends. */
  lemma {:induction false} RunLengthBeforeDelim(a: string, c: char, b: string)
    requires IsDelim(c)
    ensures RunLength(a + [c] + b) == RunLength(a)
    decreases |a|
  {
    if |a| == 0 {
      assert (a + [c] + b)[0] == c;
    } else if IsDelim(a[0]) {
      assert (a + [c] + b)[0] == a[0];
    } else {
      assert (a + [c] + b)[1..] == a[1..] + [c] + b;
      RunLengthBeforeDelim(a[1..], c, b);
    }
  }

  /**
    Cutting a line at one delimiter and splitting the two halves gives the
    same tokens as splitting the whole line: no token spans a delimiter.
   */
  lemma {:induction false} SplitAtDelim(a: string, c: char, b: string)
    requires IsDelim(c)
    ensures Split(a + [c] + b) == Split(a) + Split(b)
    decreases |a|
  {
    var s := a + [c] + b;
    if |a| == 0 {
      assert s[0] == c;
      assert s[1..] == b;
    } else if IsDelim(a[0]) {
      assert s[0] == a[0];
      assert s[1..] == a[1..] + [c] + b;
      SplitAtDelim(a[1..], c, b);
    } else {
      assert s[0] == a[0];
      RunLengthBeforeDelim(a, c, b);
      var n := RunLength(a);
      assert s[..n] == a[..n];
      assert s[n..] == a[n..] + [c] + b;
      SplitAtDelim(a[n..], c, b);
    }
  }

  /** Writing tokens back with single spaces and tokenizing again gives the same tokens. */
  lemma {:induction false} SplitJoinRoundTrip(ts: seq<string>)
    requires forall k :: 0 <= k < |ts| ==> IsWord(ts[k])
    ensures Split(Join(ts)) == ts
  {
    if |ts| == 0 {
    } else if |ts| == 1 {
      SplitWord(ts[0]);
    } else {
      assert IsWord(ts[0]);
      SplitWord(ts[0]);
      SplitJoinRoundTrip(ts[1..]);
      SplitAtDelim(ts[0], ' ', Join(ts[1..]));
      assert Join(ts) == ts[0] + [' '] + Join(ts[1..]);
      assert ts == [ts[0]] + ts[1..];
    }
  }

  /** The capped tokenizer inverts Join on any vector that fits the argument array. */
  lemma TokenizeJoinRoundTrip(ts: seq<string>)
    requires forall k :: 0 <= k < |ts| ==> IsWord(ts[k])
    requires |ts| <= MaxTokens
    ensures Tokenize(Join(ts)) == ts
  {
    SplitJoinRoundTrip(ts);
  }

  /** A longer vector comes back cut to its first MaxTokens words. */
  lemma TokenizeJoinTruncates(ts: seq<string>)
    requires forall k :: 0 <= k < |ts| ==> IsWord(ts[k])
    requires |ts| > MaxTokens
    ensures Tokenize(Join(ts)) == ts[..MaxTokens]
  {
    SplitJoinRoundTrip(ts);
  }

  /** A line yields no tokens exactly when it is blank. */
  lemma {:induction false} BlankIffNoTokens(line: string)
    ensures IsBlank(line) <==> Tokenize(line) == []
    decreases |line|
  {
    if |line| == 0 {
    } else if IsDelim(line[0]) {
      BlankIffNoTokens(line[1..]);
      assert IsBlank(line) <==> IsBlank(line[1..]) by {
        if IsBlank(line[1..]) {
          forall i | 0 <= i < |line| ensures IsDelim(line[i]) {
            if i > 0 { assert line[i] == line[1..][i - 1]; }
          }
        }
      }
    } else {
      assert !IsBlank(line);
    }
  }

  /** The characters of a leading run are passed through unchanged. */
  lemma {:induction false} NonDelimsOfRun(s: string, n: nat)
    requires n <= RunLength(s)
    ensures NonDelims(s) == s[..n] + NonDelims(s[n..])
    decreases n
  {
    if n > 0 {
      assert !IsDelim(s[0]);
      assert RunLength(s[1..]) == RunLength(s) - 1;
      NonDelimsOfRun(s[1..], n - 1);
      assert s[1..][n - 1..] == s[n..];
      assert s[..n] == [s[0]] + s[1..][..n - 1];
    }
  }

  /** Tokenizing loses no character but the delimiters and keeps the others in order. */
  lemma {:induction false} SplitKeepsContent(s: string)
    ensures Concat(Split(s)) == NonDelims(s)
    decreases |s|
  {
    if |s| == 0 {
    } else if IsDelim(s[0]) {
      SplitKeepsContent(s[1..]);
    } else {
      var n := RunLength(s);
      NonDelimsOfRun(s, n);
      SplitKeepsContent(s[n..]);
      var ts := Split(s);
      assert ts[0] == s[..n];
      assert ts[1..] == Split(s[n..]);
    }
  }
}
