/**
 The command-line scan of the type tester's main: -v=N sets the verbosity,
 -t takes the next argument as a single expression to test, and everything
 else is ignored. Every argument, the program name argv[0] included, is
 scanned until a -t with a following argument ends the scan.
 */
module CommandLine {
  import opened Wrappers

  /** The variables the scan sets: verbosity_level, givenTest and str. */
  datatype Settings = Settings(verbosity: int, givenTest: bool, str: string)

  /** The character at position k of a C string: past the end it reads the terminating NUL. */
  function CharAt(s: string, k: nat): (ch: char)
    ensures k < |s| ==> ch == s[k]
    ensures k >= |s| ==> ch == '\0'
  {
    if k < |s| then s[k] else '\0'
  }

  /** An argument that starts with -t. */
  predicate IsTestFlag(arg: string)
    ensures IsTestFlag(arg) <==> |arg| >= 2 && arg[..2] == "-t"
  {
    CharAt(arg, 0) == '-' && CharAt(arg, 1) == 't'
  }

  /** The verbosity an argument sets: -v= followed by a digit 0 to 3, whatever follows it. */
  function VerbositySetting(arg: string): (v: Option<int>)
    ensures v.Some? ==> 0 <= v.value <= 3 && !IsTestFlag(arg)
    ensures v.Some? <==> |arg| >= 4 && arg[..3] == "-v=" && '0' <= arg[3] <= '3'
    ensures v.Some? ==> v.value == arg[3] as int - '0' as int
  {
    if CharAt(arg, 0) == '-' && CharAt(arg, 1) == 'v' && CharAt(arg, 2) == '=' && '0' <= CharAt(arg, 3) <= '3'
    then Some(CharAt(arg, 3) as int - '0' as int)
    else None
  }

  /** The verbosity left by the last valid -v=N among args, or the default 0. */
  function LastVerbosity(args: seq<string>): (v: int)
    ensures 0 <= v <= 3
    ensures (forall j :: 0 <= j < |args| ==> VerbositySetting(args[j]).None?) ==> v == 0
  {
    if |args| == 0 then 0
    else
      match VerbositySetting(args[|args| - 1])
      case Some(n) => n
      case None => LastVerbosity(args[..|args| - 1])
  }

  /** The verbosity is the one set by the last argument that sets one. */
  lemma {:induction false} LastVerbosityIsLastSetting(args: seq<string>, j: nat)
    requires j < |args| && VerbositySetting(args[j]).Some?
    requires forall k :: j < k < |args| ==> VerbositySetting(args[k]).None?
    ensures LastVerbosity(args) == VerbositySetting(args[j]).value
  {
    if j < |args| - 1 {
      var front := args[..|args| - 1];
      assert front[j] == args[j];
      forall k | j < k < |front|
        ensures VerbositySetting(front[k]).None?
      {
        assert front[k] == args[k];
      }
      LastVerbosityIsLastSetting(front, j);
    }
  }

  /** The position of the first -t argument, if any. */
  function FirstTestFlag(args: seq<string>): (r: Option<nat>)
    ensures r.Some? ==> r.value < |args| && IsTestFlag(args[r.value])
    ensures r.Some? ==> forall j :: 0 <= j < r.value ==> !IsTestFlag(args[j])
    ensures r.None? <==> forall j :: 0 <= j < |args| ==> !IsTestFlag(args[j])
  {
    if |args| == 0 then None
    else if IsTestFlag(args[0]) then Some(0)
    else
      match FirstTestFlag(args[1..])
      case None => None
      case Some(i) => Some(i + 1)
  }

  /** A -t preceded by no other -t is the first one. */
  lemma FirstTestFlagIs(args: seq<string>, i: nat)
    requires i < |args| && IsTestFlag(args[i])
    requires forall j :: 0 <= j < i ==> !IsTestFlag(args[j])
    ensures FirstTestFlag(args) == Some(i)
  {
  }

  /**
   What the scan leaves: with no -t, the last verbosity setting and no
   test; with a first -t at position i, the last verbosity setting before
   it, a test, and the argument after it as the expression, or the empty
   string when the -t ends the line.
   */
  function ExpectedSettings(args: seq<string>): Settings
  {
    match FirstTestFlag(args)
    case None => Settings(LastVerbosity(args), false, "")
    case Some(i) => Settings(LastVerbosity(args[..i]), true, if i + 1 < |args| then args[i + 1] else "")
  }

  /** Scanning one more argument before any -t: how the first -t and the last verbosity move. */
  lemma {:induction false} ScanStep(prefix: seq<string>, arg: string)
    requires FirstTestFlag(prefix).None?
    ensures FirstTestFlag(prefix + [arg]) == if IsTestFlag(arg) then Some(|prefix|) else None
    ensures LastVerbosity(prefix + [arg]) == match VerbositySetting(arg) case Some(n) => n case None => LastVerbosity(prefix)
  {
    var next := prefix + [arg];
    assert next[..|next| - 1] == prefix;
    assert next[|prefix|] == arg;
    forall j | 0 <= j < |prefix|
      ensures next[j] == prefix[j]
    {
    }
  }

  /** The scan's step for an argument -v=N, N from 0 to 3, before any -t. */
  lemma SetsVerbosity(argv: seq<string>, i: nat, n: int)
    requires i < |argv| && FirstTestFlag(argv[..i]).None? && 0 <= n <= 3
    requires CharAt(argv[i], 0) == '-' && CharAt(argv[i], 1) == 'v' && CharAt(argv[i], 2) == '='
    requires CharAt(argv[i], 3) as int == '0' as int + n
    ensures FirstTestFlag(argv[..i + 1]).None? && LastVerbosity(argv[..i + 1]) == n
  {
  }

  /** The scan's step for an argument that is neither -t nor a valid -v=N, before any -t. */
  lemma KeepsVerbosity(argv: seq<string>, i: nat)
    requires i < |argv| && FirstTestFlag(argv[..i]).None?
    requires !(CharAt(argv[i], 0) == '-' && CharAt(argv[i], 1) == 't')
    requires !(CharAt(argv[i], 0) == '-' && CharAt(argv[i], 1) == 'v' && CharAt(argv[i], 2) == '=' &&
               '0' <= CharAt(argv[i], 3) <= '3')
    ensures FirstTestFlag(argv[..i + 1]).None? && LastVerbosity(argv[..i + 1]) == LastVerbosity(argv[..i])
  {
    assert argv[..i + 1] == argv[..i] + [argv[i]];
    ScanStep(argv[..i], argv[i]);
  }

  /** The scan's step for the first -t: it is the first -t of the whole line. */
  lemma FindsTestFlag(argv: seq<string>, i: nat)
    requires i < |argv| && FirstTestFlag(argv[..i]).None?
    requires CharAt(argv[i], 0) == '-' && CharAt(argv[i], 1) == 't'
    ensures FirstTestFlag(argv) == Some(i)
  {
    forall j | 0 <= j < i
      ensures !IsTestFlag(argv[j])
    {
      assert argv[..i][j] == argv[j];
    }
    FirstTestFlagIs(argv, i);
  }

  /** The argv loop of main. */
  method ScanArguments(argv: seq<string>) returns (s: Settings)
    ensures s == ExpectedSettings(argv)
  {
    var end := false;
    var verbosity := 0;
    var str := "";
    var givenTest := false;
    var i := 0;
    while i < |argv| && !end
      invariant 0 <= i <= |argv|
      invariant !givenTest ==>
                  !end && str == "" && FirstTestFlag(argv[..i]).None? && verbosity == LastVerbosity(argv[..i])
      invariant givenTest ==>
                  1 <= i && FirstTestFlag(argv) == Some(i - 1) && verbosity == LastVerbosity(argv[..i - 1]) &&
                  end == (i < |argv|) && str == (if i < |argv| then argv[i] else "")
    {
      var arg := argv[i];
      if CharAt(arg, 0) == '-' {
        if CharAt(arg, 1) == 'v' {
          if CharAt(arg, 2) == '=' {
            if CharAt(arg, 3) == '0' {
              verbosity := 0;
              SetsVerbosity(argv, i, 0);
            } else if CharAt(arg, 3) == '1' {
              verbosity := 1;
              SetsVerbosity(argv, i, 1);
            } else if CharAt(arg, 3) == '2' {
              verbosity := 2;
              SetsVerbosity(argv, i, 2);
            } else if CharAt(arg, 3) == '3' {
              verbosity := 3;
              SetsVerbosity(argv, i, 3);
            } else {
              KeepsVerbosity(argv, i);
            }
          } else {
            KeepsVerbosity(argv, i);
          }
        } else if CharAt(arg, 1) == 't' {
          FindsTestFlag(argv, i);
          givenTest := true;
          if |argv| > i + 1 {
            str := argv[i + 1];
            end := true;
          }
        } else {
          KeepsVerbosity(argv, i);
        }
      } else {
        KeepsVerbosity(argv, i);
      }
      i := i + 1;
    }
    if !givenTest {
      assert argv[..i] == argv;
    }
    s := Settings(verbosity, givenTest, str);
  }

  lemma {:induction false} FirstTestFlagOfPrefix(args: seq<string>, more: seq<string>)
    requires FirstTestFlag(args).Some?
    ensures FirstTestFlag(args + more) == FirstTestFlag(args)
  {
    var i := FirstTestFlag(args).value;
    assert (args + more)[i] == args[i];
    forall j | 0 <= j < i
      ensures !IsTestFlag((args + more)[j])
    {
      assert (args + more)[j] == args[j];
    }
  }

  /** Once a -t with a following argument is seen, no later argument changes the outcome. */
  lemma {:induction false} LaterArgumentsIgnored(args: seq<string>, more: seq<string>)
    requires FirstTestFlag(args).Some? && FirstTestFlag(args).value + 1 < |args|
    ensures ExpectedSettings(args + more) == ExpectedSettings(args)
    ensures ExpectedSettings(args).givenTest && ExpectedSettings(args).str == args[FirstTestFlag(args).value + 1]
  {
    var i := FirstTestFlag(args).value;
    FirstTestFlagOfPrefix(args, more);
    assert (args + more)[..i] == args[..i];
    assert (args + more)[i + 1] == args[i + 1];
  }

  /**
   Before any -t, an argument that starts with -v=N, N from 0 to 3, sets
   the verbosity to N, whatever follows the digit, and changes nothing else.
   */
  lemma {:induction false} VerbosityFlagTakesEffect(args: seq<string>, a: string)
    requires FirstTestFlag(args).None? && |a| >= 4 && a[..3] == "-v=" && '0' <= a[3] <= '3'
    ensures ExpectedSettings(args + [a]) == ExpectedSettings(args).(verbosity := a[3] as int - '0' as int)
  {
  }

  /**
   Before any -t, an argument that is neither -t nor a valid -v=N, such
   as an unknown flag, a -v with another character, or a plain word,
   changes nothing.
   */
  lemma {:induction false} OtherArgumentIgnored(args: seq<string>, a: string)
    requires FirstTestFlag(args).None? && !IsTestFlag(a) && VerbositySetting(a).None?
    ensures ExpectedSettings(args + [a]) == ExpectedSettings(args)
  {
  }

  /** A -t on the last argument selects the single-expression mode with the empty expression. */
  lemma {:induction false} TrailingTestFlag(args: seq<string>, a: string)
    requires FirstTestFlag(args).None? && IsTestFlag(a)
    ensures ExpectedSettings(args + [a]) == Settings(LastVerbosity(args), true, "")
  {
  }
}
