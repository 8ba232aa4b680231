/** From a typed line to a command and its arguments. */
module Dispatch {
  import opened Common
  import opened CText

  // ------------------------------------------------------------------------------------
  // Repeated spaces
  // ------------------------------------------------------------------------------------

  /** `indexOf("  ") >= 0`. */
  predicate HasDouble(s: string) {
    exists i | 0 < i < |s| :: s[i - 1] == ' ' && s[i] == ' '
  }

  /** `replace("  ", " ")`: left to right, without overlaps. */
  function ReplacePass(s: string): (t: string)
    ensures |t| <= |s|
    ensures s != [] ==> t != [] && t[0] == s[0]
    decreases |s|
  {
    if |s| < 2 then s
    else if s[0] == ' ' && s[1] == ' ' then " " + ReplacePass(s[2..])
    else [s[0]] + ReplacePass(s[1..])
  }

  /** Each run of spaces becomes one space, in one pass. */
  function Collapse(s: string): (t: string)
    ensures |t| <= |s|
    ensures s != [] ==> t != [] && t[0] == s[0]
    decreases |s|
  {
    if |s| < 2 then s
    else if s[0] == ' ' && s[1] == ' ' then Collapse(s[1..])
    else [s[0]] + Collapse(s[1..])
  }

  lemma CollapseCons(c: char, s: string)
    ensures Collapse([c] + s) == if c == ' ' && s != [] && s[0] == ' ' then Collapse(s) else [c] + Collapse(s)
  {
    assert ([c] + s)[1..] == s;
    if s == [] { assert [c] + s == [c]; }
  }

  lemma {:induction false} PassKeepsCollapse(s: string)
    ensures Collapse(ReplacePass(s)) == Collapse(s)
    decreases |s|
  {
    hide Collapse;
    if |s| >= 2 {
      assert s == [s[0]] + s[1..];
      CollapseCons(s[0], s[1..]);
      if s[0] == ' ' && s[1] == ' ' {
        assert s[1..] == [' '] + s[2..];
        PassKeepsCollapse(s[2..]);
        CollapseCons(' ', s[2..]);
        CollapseCons(' ', ReplacePass(s[2..]));
        if s[2..] == [] { assert ReplacePass(s[2..]) == []; }
      } else {
        PassKeepsCollapse(s[1..]);
        CollapseCons(s[0], ReplacePass(s[1..]));
      }
    }
  }

  lemma {:induction false} PassShortens(s: string)
    requires HasDouble(s)
    ensures |ReplacePass(s)| < |s|
    decreases |s|
  {
    if !(s[0] == ' ' && s[1] == ' ') {
      var i :| 0 < i < |s| && s[i - 1] == ' ' && s[i] == ' ';
      assert s[1..][i - 2] == ' ' && s[1..][i - 1] == ' ';
      PassShortens(s[1..]);
    }
  }

  lemma {:induction false} CollapseLeavesSingles(s: string)
    requires !HasDouble(s)
    ensures Collapse(s) == s
    decreases |s|
  {
    if |s| >= 2 {
      assert !(s[0] == ' ' && s[1] == ' ');
      forall i | 0 < i < |s| - 1 ensures !(s[1..][i - 1] == ' ' && s[1..][i] == ' ') {
        assert !(s[i] == ' ' && s[i + 1] == ' ');
      }
      CollapseLeavesSingles(s[1..]);
    }
  }

  lemma {:induction false} CollapseHasNoDouble(s: string)
    ensures !HasDouble(Collapse(s))
    decreases |s|
  {
    if |s| >= 2 {
      CollapseHasNoDouble(s[1..]);
      var t := Collapse(s[1..]);
      if !(s[0] == ' ' && s[1] == ' ') {
        forall i | 0 < i < |t| + 1 ensures !(([s[0]] + t)[i - 1] == ' ' && ([s[0]] + t)[i] == ' ') {
          if i > 1 { assert !(t[i - 2] == ' ' && t[i - 1] == ' '); }
        }
      }
    }
  }

  lemma CollapseIsIdempotent(s: string)
    ensures Collapse(Collapse(s)) == Collapse(s)
  {
    hide Collapse;
    CollapseHasNoDouble(s);
    CollapseLeavesSingles(Collapse(s));
  }

  /** The repeated replacement ends, and amounts to one pass over the runs. */
  method CollapseSpaces(s: string) returns (command: string)
    ensures command == Collapse(s)
  {
    hide Collapse, ReplacePass, HasDouble;
    command := s;
    while HasDouble(command)
      invariant Collapse(command) == Collapse(s)
      decreases |command|
    {
      PassKeepsCollapse(command);
      PassShortens(command);
      command := ReplacePass(command);
    }
    CollapseLeavesSingles(command);
  }

  // ------------------------------------------------------------------------------------
  // Finding the command
  // ------------------------------------------------------------------------------------

  /** The name, then the end of the line or a space. */
  predicate Matches(line: string, name: string) {
    name != "" && name <= line && (|line| == |name| || line[|name|] == ' ')
  }

  ghost predicate IsLongest(table: seq<string>, line: string, name: string) {
    name in table && Matches(line, name) && forall n | n in table && Matches(line, n) :: |n| <= |name|
  }

  ghost predicate NoneMatches(table: seq<string>, line: string) {
    forall n | n in table :: !Matches(line, n)
  }

  /** Two longest matches are the same name, so the order of the table does not matter. */
  lemma OrderIsIrrelevant(table: seq<string>, permuted: seq<string>, line: string, a: string, b: string)
    requires forall n :: n in table <==> n in permuted
    requires IsLongest(table, line, a) && IsLongest(permuted, line, b)
    ensures a == b
  {
    assert a in permuted && b in table;
    assert a == line[..|a|] && b == line[..|b|];
  }

  /** The strings that the argument pointer can point into. */
  datatype Buffer = TheLine | HelpLiteral | ExitLiteral
  datatype Pointer = Pointer(buffer: Buffer, offset: nat)
  datatype Found = Found(index: nat, args: Pointer)

  predicate IsAlias(line: string) {
    line == "?" || line == "quit" || line == "logout"
  }

  /** The space-stripped remainder starts at k. */
  predicate ArgsAt(line: string, length: nat, k: nat) {
    && length <= k <= |line|
    && (forall i | length <= i < k :: line[i] == ' ')
    && (k < |line| ==> line[k] != ' ')
  }

  method SkipSpaces(line: string, from: nat) returns (k: nat)
    requires from <= |line|
    ensures ArgsAt(line, from, k)
  {
    k := from;
    while k < |line| && line[k] == ' '
      invariant from <= k <= |line|
      invariant forall i | from <= i < k :: line[i] == ' '
    {
      k := k + 1;
    }
  }

  /** `findCommand`; an alias looks a literal up instead, and then the arguments are in that literal. */
  method FindCommand(table: seq<string>, line: string, buffer: Buffer) returns (found: Option<Found>)
    ensures match found
            case None => NoneMatches(table, line)
            case Some(f) =>
              && f.index < |table|
              && (!NoneMatches(table, line) ==>
                    && IsLongest(table, line, table[f.index])
                    && f.args.buffer == buffer && ArgsAt(line, |table[f.index]|, f.args.offset))
              && (NoneMatches(table, line) ==>
                    && IsAlias(line)
                    && IsLongest(table, if line == "?" then "help" else "exit", table[f.index])
                    && f.args.buffer == if line == "?" then HelpLiteral else ExitLiteral)
    ensures NoneMatches(table, line) && line == "?" && "help" in table ==> found.Some?
    ensures NoneMatches(table, line) && (line == "quit" || line == "logout") && "exit" in table ==> found.Some?
    decreases IsAlias(line)
  {
    hide Matches;
    var best: Option<nat>, bestLength, i := None, 0, 0;
    while i < |table|
      invariant i <= |table|
      invariant best.None? ==> bestLength == 0 && forall j | 0 <= j < i :: !Matches(line, table[j])
      invariant best.Some? ==> && best.value < i && bestLength == |table[best.value]| && Matches(line, table[best.value])
                               && forall j | 0 <= j < i && Matches(line, table[j]) :: |table[j]| <= bestLength
    {
      MatchesMeans(line, table[i]);
      if Matches(line, table[i]) && |table[i]| > bestLength {
        best, bestLength := Some(i), |table[i]|;
      }
      i := i + 1;
    }
    if best.None? {
      if line == "?" {
        found := FindCommand(table, "help", HelpLiteral);
        LiteralMatches("help");
      } else if line == "quit" || line == "logout" {
        found := FindCommand(table, "exit", ExitLiteral);
        LiteralMatches("exit");
      } else {
        found := None;
      }
      assert NoneMatches(table, line);
      return;
    }
    assert table[best.value] in table;
    MatchesMeans(line, table[best.value]);
    var args := SkipSpaces(line, bestLength);
    return Some(Found(best.value, Pointer(buffer, args)));
  }

  lemma MatchesMeans(line: string, name: string)
    ensures Matches(line, name) ==> 0 < |name| <= |line| && name == line[..|name|]
  {
  }

  lemma LiteralMatches(name: string)
    requires name != ""
    ensures Matches(name, name)
  {
  }

  // ------------------------------------------------------------------------------------
  // Executing a line
  // ------------------------------------------------------------------------------------

  datatype Dispatched =
    | Blank
    | Unknown
    | Call(index: nat, args: string)
    | Stray(index: nat)   // the argument pointer was measured against another string

  /** What a line is matched as. */
  function Normal(input: string): string { LowerAll(Collapse(Trim(input))) }

  /**
   * A call gets the longest name that is a whole-word prefix of the lower-cased line, and as
   * arguments the rest of the line as typed, without the spaces before it.
   */
  ghost predicate CallsWith(table: seq<string>, input: string, index: nat, args: string) {
    var c := Collapse(Trim(input));
    && index < |table| && IsLongest(table, LowerAll(c), table[index])
    && |args| <= |c| && c[|c| - |args|..] == args && ArgsAt(c, |table[index]|, |c| - |args|)
    && LowerAll(c[..|table[index]|]) == table[index]
  }

  method ExecuteCommand(table: seq<string>, input: string) returns (d: Dispatched)
    ensures d == Blank <==> Trim(input) == ""
    ensures d.Call? ==> CallsWith(table, input, d.index, d.args)
    ensures d.Unknown? ==> NoneMatches(table, Normal(input))
    ensures d.Stray? ==> IsAlias(Normal(input)) && NoneMatches(table, Normal(input))
    ensures NoneMatches(table, Normal(input)) && "help" in table && "exit" in table && Trim(input) != "" ==>
              (d.Stray? <==> IsAlias(Normal(input)))
  {
    hide Trim, Collapse, IsLongest, Lower, NoneMatches;
    assert input[0..|input|] == input;
    var b, e := TrimBounds(input, 0, |input|);
    var trimmed := input[b..e];
    if trimmed == "" { return Blank; }
    var command := CollapseSpaces(trimmed);
    var lowered := LowerAll(command);
    var found := FindCommand(table, lowered, TheLine);
    if found.None? { return Unknown; }
    if found.value.args.buffer != TheLine { return Stray(found.value.index); }
    var k := found.value.args.offset;
    SameShape(table, command, found.value.index, k);
    return Call(found.value.index, command[k..]);
  }

  /** Lower-casing moves nothing, so an offset into the lowered line is one into the typed line. */
  lemma SameShape(table: seq<string>, c: string, index: nat, k: nat)
    requires index < |table| && IsLongest(table, LowerAll(c), table[index])
    requires ArgsAt(LowerAll(c), |table[index]|, k)
    ensures ArgsAt(c, |table[index]|, k) && LowerAll(c[..|table[index]|]) == table[index]
    ensures |c| - |c[k..]| == k
  {
    var n := |table[index]|;
    forall i | 0 <= i < |c| ensures LowerAll(c)[i] == ' ' <==> c[i] == ' ' {}
    assert LowerAll(c[..n]) == LowerAll(c)[..n];
  }

  // ------------------------------------------------------------------------------------
  // The firmware's own table
  // ------------------------------------------------------------------------------------

  const COMMANDS: seq<string> := [
    "status", "watch", "uptime", "version", "logs",
    "pc status", "pc ping", "pc wake", "pc ssh",
    "net status", "vpn status", "vpn failover", "vpn retry-primary",
    "reboot", "ota", "help", "exit"]

  /** No name of the table matches an alias, so with this table exactly the three aliases go astray. */
  lemma AliasesGoAstray(line: string)
    requires line == "?" || line == "quit" || line == "logout"
    ensures IsAlias(line) && NoneMatches(COMMANDS, line) && "help" in COMMANDS && "exit" in COMMANDS
  {
    assert COMMANDS[15] == "help" && COMMANDS[16] == "exit";
    forall n | n in COMMANDS ensures !Matches(line, n) {
      assert n != "?" && n != "quit" && n != "logout";
      assert ' ' !in "?" && ' ' !in "quit" && ' ' !in "logout";
    }
  }

  // ------------------------------------------------------------------------------------
  // What does not matter
  // ------------------------------------------------------------------------------------

  lemma LowerKeepsSpaces(c: char)
    ensures IsSpace(Lower(c)) <==> IsSpace(c)
  {
  }

  lemma LowerSplits(s: string)
    requires s != ""
    ensures |LowerAll(s)| == |s| && LowerAll(s)[0] == Lower(s[0]) && LowerAll(s)[|s| - 1] == Lower(s[|s| - 1])
    ensures LowerAll(s)[1..] == LowerAll(s[1..]) && LowerAll(s)[..|s| - 1] == LowerAll(s[..|s| - 1])
  {
    hide Lower;
  }

  lemma TrimSteps(s: string)
    requires s != ""
    ensures TrimLeft(s) == if IsSpace(s[0]) then TrimLeft(s[1..]) else s
    ensures TrimRight(s) == if IsSpace(s[|s| - 1]) then TrimRight(s[..|s| - 1]) else s
  {
    hide IsSpace;
  }

  lemma NothingTrims()
    ensures TrimLeft("") == TrimRight("") == "" && LowerAll("") == ""
  {
  }

  lemma {:induction false} TrimLeftOfLower(s: string)
    ensures TrimLeft(LowerAll(s)) == LowerAll(TrimLeft(s))
    decreases |s|
  {
    hide *;
    NothingTrims();
    if s != "" {
      LowerSplits(s);
      LowerKeepsSpaces(s[0]);
      TrimSteps(s);
      TrimSteps(LowerAll(s));
      TrimLeftOfLower(s[1..]);
    }
  }

  lemma {:induction false} TrimRightOfLower(s: string)
    ensures TrimRight(LowerAll(s)) == LowerAll(TrimRight(s))
    decreases |s|
  {
    hide *;
    NothingTrims();
    if s != "" {
      LowerSplits(s);
      LowerKeepsSpaces(s[|s| - 1]);
      TrimSteps(s);
      TrimSteps(LowerAll(s));
      TrimRightOfLower(s[..|s| - 1]);
    }
  }

  lemma {:induction false} CollapseOfLower(s: string)
    ensures Collapse(LowerAll(s)) == LowerAll(Collapse(s))
    decreases |s|
  {
    if |s| >= 2 {
      assert LowerAll(s)[1..] == LowerAll(s[1..]);
      CollapseOfLower(s[1..]);
      if !(s[0] == ' ' && s[1] == ' ') {
        assert LowerAll([s[0]] + Collapse(s[1..])) == [Lower(s[0])] + LowerAll(Collapse(s[1..]));
      }
    }
  }

  /** Lines that differ only in letter case are matched as the same line. */
  lemma CaseDoesNotMatter(a: string, b: string)
    requires SameIgnoringCase(a, b)
    ensures Normal(a) == Normal(b)
  {
    hide LowerAll, Collapse, TrimLeft, TrimRight;
    LowerInside(a);
    LowerInside(b);
  }

  lemma LowerInside(s: string)
    ensures Normal(s) == Collapse(Trim(LowerAll(s)))
  {
    hide LowerAll, Collapse, TrimLeft, TrimRight;
    TrimLeftOfLower(s);
    TrimRightOfLower(TrimLeft(s));
    CollapseOfLower(Trim(s));
  }

  /** Nor do whitespace around a line and repeated spaces in it. */
  lemma SpacesDoNotMatter(a: string, line: string, b: string)
    requires Spaces(a) && Spaces(b) && Bare(line)
    ensures Normal(a + (line + b)) == LowerAll(Collapse(line)) == Normal(Collapse(line))
  {
    hide *;
    TrimOf(a, line, b);
    CollapseIsBare(line);
    BareStays(Collapse(line));
    CollapseIsIdempotent(line);
    NormalIs(a + (line + b));
    NormalIs(Collapse(line));
  }

  lemma NormalIs(s: string)
    ensures Normal(s) == LowerAll(Collapse(Trim(s)))
  {
  }

  lemma BareStays(s: string)
    requires Bare(s)
    ensures Trim(s) == s
  {
    hide Trim, IsSpace;
    TrimOf("", s, "");
    assert "" + (s + "") == s;
  }

  lemma {:induction false} CollapseIsBare(line: string)
    requires Bare(line)
    ensures Bare(Collapse(line))
  {
    CollapseEnds(line);
  }

  lemma {:induction false} CollapseEnds(line: string)
    ensures line != "" ==> Collapse(line)[|Collapse(line)| - 1] == line[|line| - 1]
    decreases |line|
  {
    if |line| >= 2 { CollapseEnds(line[1..]); }
  }

  /** The arguments of a call are all that follows the name and the spaces after it, from the first other character on. */
  lemma ArgumentsAreTheRest(table: seq<string>, input: string, index: nat, args: string)
    requires CallsWith(table, input, index, args)
    ensures exists gap: string ::
              && Collapse(Trim(input)) == Collapse(Trim(input))[..|table[index]|] + (gap + args)
              && (forall i | 0 <= i < |gap| :: gap[i] == ' ')
              && (args != "" ==> gap != "" && args[0] != ' ')
  {
    hide *;
    var c := Collapse(Trim(input));
    CallShape(table, c, input, index, args);
    GapBetween(c, |table[index]|, |c| - |args|, args);
  }

  lemma CallShape(table: seq<string>, c: string, input: string, index: nat, args: string)
    requires c == Collapse(Trim(input)) && CallsWith(table, input, index, args)
    ensures index < |table| && |table[index]| <= |c| - |args| && c[|c| - |args|..] == args
    ensures ArgsAt(c, |table[index]|, |c| - |args|) && (|table[index]| < |c| ==> c[|table[index]|] == ' ')
  {
    hide Trim, Collapse, Lower;
    var n := |table[index]|;
    assert Matches(LowerAll(c), table[index]);
    if n < |c| { FirstIsSpace(c, n); }
  }

  lemma GapBetween(c: string, n: nat, k: nat, args: string)
    requires ArgsAt(c, n, k) && c[k..] == args && (n < |c| ==> c[n] == ' ')
    ensures exists gap: string ::
              && c == c[..n] + (gap + args)
              && (forall i | 0 <= i < |gap| :: gap[i] == ' ')
              && (args != "" ==> gap != "" && args[0] != ' ')
  {
    var gap := c[n..k];
    assert c[..n] + (gap + args) == c;
    assert forall i | 0 <= i < |gap| :: gap[i] == c[n + i];
  }

  lemma FirstIsSpace(c: string, n: nat)
    requires n < |c| && LowerAll(c)[n] == ' '
    ensures c[n] == ' '
  {
  }
}
