/**
 * The command line `Execute` hands to the shell. Under `sh`, every second
 * backtick (the one that closes a command substitution) is preceded by
 * `|dos2unix`, so that the CRLF output of the substituted command is
 * converted before the shell uses it; under `cmd` the line is passed as is.
 */
module Shell {
  const BACKTICK: char := '`'
  const PIPE: string := "|dos2unix"

  /** The text one character adds: a closing backtick (an odd count of backticks before it) gets the pipe first. */
  function Piece(c: char, count: nat): string
  {
    if c == BACKTICK && count % 2 != 0 then PIPE + [c] else [c]
  }

  function Next(c: char, count: nat): nat
  {
    if c == BACKTICK then count + 1 else count
  }

  /** The rewrite of `s`, when `count` backticks have been seen before it. */
  function Rewrite(s: string, count: nat): string
    decreases |s|
  {
    if s == [] then [] else Piece(s[0], count) + Rewrite(s[1..], Next(s[0], count))
  }

  function Dos2UnixLine(cmdLine: string): string
  {
    Rewrite(cmdLine, 0)
  }

  /** The `foreach` over the command line that fills the `StringBuilder`. */
  method RewriteCommand(cmdLine: string) returns (r: string)
    ensures r == Dos2UnixLine(cmdLine)
  {
    var b: string := [];
    var count: nat := 0;
    for i := 0 to |cmdLine|
      invariant b + Rewrite(cmdLine[i..], count) == Rewrite(cmdLine, 0)
    {
      var line := cmdLine[i];
      assert cmdLine[i..][1..] == cmdLine[i + 1..];
      if line == BACKTICK {
        if count % 2 != 0 {
          b := b + PIPE;
        }
        count := count + 1;
      }
      b := b + [line];
    }
    assert cmdLine[|cmdLine|..] == [];
    r := b;
  }

  /** Removes the pipe in front of each closing backtick again. */
  function Strip(t: string, count: nat): string
    decreases |t|
  {
    if t == [] then []
    else if count % 2 != 0 && |t| >= |PIPE| + 1 && t[..|PIPE| + 1] == PIPE + [BACKTICK] then
      [BACKTICK] + Strip(t[|PIPE| + 1..], count + 1)
    else [t[0]] + Strip(t[1..], Next(t[0], count))
  }

  /** Inside a substitution, no backtick comes before the pipe that precedes the closing one. */
  lemma {:induction false} NoEarlyBacktick(s: string, count: nat)
    requires count % 2 != 0
    ensures forall k :: 0 <= k < |PIPE| && k < |Rewrite(s, count)| ==> Rewrite(s, count)[k] != BACKTICK
    decreases |s|
  {
    if s != [] && s[0] != BACKTICK {
      NoEarlyBacktick(s[1..], count);
      var tail := Rewrite(s[1..], count);
      assert Rewrite(s, count) == [s[0]] + tail;
      forall k | 1 <= k < |PIPE| && k < |Rewrite(s, count)|
        ensures Rewrite(s, count)[k] != BACKTICK
      {
        assert Rewrite(s, count)[k] == tail[k - 1];
      }
    }
  }

  /** The rewrite loses nothing: stripping the pipes gives the command line back. */
  lemma {:induction false} StripRewrite(s: string, count: nat)
    ensures Strip(Rewrite(s, count), count) == s
    decreases |s|
  {
    if s != [] {
      var c, tail := s[0], Rewrite(s[1..], Next(s[0], count));
      StripRewrite(s[1..], Next(c, count));
      var t := Piece(c, count) + tail;
      assert Rewrite(s, count) == t;
      if c == BACKTICK && count % 2 != 0 {
        assert t[..|PIPE| + 1] == PIPE + [BACKTICK];
        assert t[|PIPE| + 1..] == tail;
      } else {
        assert t == [c] + tail && t[1..] == tail;
        if count % 2 != 0 && |t| >= |PIPE| + 1 {
          NoEarlyBacktick(s[1..], count);
          assert t[|PIPE|] == tail[|PIPE| - 1] != BACKTICK;
        }
      }
    }
  }

  function Backticks(s: string): nat
    decreases |s|
  {
    if s == [] then 0 else (if s[0] == BACKTICK then 1 else 0) + Backticks(s[1..])
  }

  /**
   * The rewrite adds one pipe per closing backtick: with `count` seen
   * before, those are the odd numbers among `count` to
   * `count + Backticks(s) - 1`.
   */
  lemma {:induction false} RewriteLength(s: string, count: nat)
    ensures |Rewrite(s, count)| == |s| + |PIPE| * ((count + Backticks(s)) / 2 - count / 2)
    decreases |s|
  {
    if s != [] {
      var next := Next(s[0], count);
      RewriteLength(s[1..], next);
      assert |Rewrite(s, count)| == |Piece(s[0], count)| + |Rewrite(s[1..], next)|;
      if s[0] == BACKTICK {
        assert (count + 1) / 2 - count / 2 == count % 2;
      }
    }
  }

  /** The rewrite keeps every backtick and adds none. */
  lemma {:induction false} RewriteKeepsBackticks(s: string, count: nat)
    ensures Backticks(Rewrite(s, count)) == Backticks(s)
    decreases |s|
  {
    if s != [] {
      var c := s[0];
      RewriteKeepsBackticks(s[1..], Next(c, count));
      BackticksAppend(Piece(c, count), Rewrite(s[1..], Next(c, count)));
      PieceBackticks(c, count);
    }
  }

  lemma PieceBackticks(c: char, count: nat)
    ensures Backticks(Piece(c, count)) == if c == BACKTICK then 1 else 0
  {
    if c == BACKTICK && count % 2 != 0 {
      BackticksAppend(PIPE, [c]);
      assert Backticks(PIPE) == 0;
    }
  }

  lemma {:induction false} BackticksAppend(a: string, b: string)
    ensures Backticks(a + b) == Backticks(a) + Backticks(b)
    decreases |a|
  {
    if a != [] {
      var ab := a + b;
      BackticksAppend(a[1..], b);
      assert ab[0] == a[0] && ab[1..] == a[1..] + b;
      assert Backticks(ab) == (if a[0] == BACKTICK then 1 else 0) + Backticks(a[1..] + b);
    } else {
      assert a + b == b;
    }
  }

  /** The program and the arguments `Execute` starts. */
  datatype Command = Command(fileName: string, arguments: string)

  function ShellCommand(useDos2Unix: bool, cmdLine: string): (r: Command)
    ensures useDos2Unix ==>
      (r.fileName == "sh" && exists line :: r.arguments == "-c \"" + line + "\"" && Strip(line, 0) == cmdLine)
    ensures useDos2Unix ==> r.arguments == "-c \"" + Dos2UnixLine(cmdLine) + "\""
    ensures !useDos2Unix ==> r == Command("cmd", "/c \"" + cmdLine + "\"")
  {
    StripRewrite(cmdLine, 0);
    if useDos2Unix then Command("sh", "-c \"" + Dos2UnixLine(cmdLine) + "\"")
    else Command("cmd", "/c \"" + cmdLine + "\"")
  }
}
