/**
 * Command-line handling of the DOS builds (processCmdLine in SAMPLES/EXAMPLE.C
 * and SAMPLES/SHOWTEXT.C).  Options start with '/' or '-'; "/m<hex>" sets the
 * display mode, "/?" asks for the usage text and any other option is unknown.
 * The programs differ in what a bare argument means (EXAMPLE.C: unknown,
 * SHOWTEXT.C: the texture file) and in an empty command line (SHOWTEXT.C
 * needs a texture file and stops).  "Stops" means: prints a message and exits
 * with status 1; the messages are not modelled.
 */
module CommandLine {
  import opened Toolkit

  /** Which program's command line. */
  datatype Program = ExampleCli | ShowTextCli

  /** What processCmdLine leaves: the display mode, the texture file, and whether the program stops. */
  datatype Outcome = Outcome(mode: nat, textureFile: Option<string>, stop: bool)

  // ---------------------------------------------------------------------
  // The "%lx" conversion of sscanf
  // ---------------------------------------------------------------------

  predicate IsHexDigit(c: char)
  {
    ('0' <= c <= '9') || ('a' <= c <= 'f') || ('A' <= c <= 'F')
  }

  function HexValue(c: char): (v: nat)
    requires IsHexDigit(c)
    ensures v < 16
  {
    if '0' <= c <= '9' then c as int - '0' as int
    else if 'a' <= c <= 'f' then c as int - 'a' as int + 10
    else c as int - 'A' as int + 10
  }

  /** The lower-case digit for a value below 16. */
  function HexChar(v: nat): (c: char)
    requires v < 16
    ensures IsHexDigit(c) && HexValue(c) == v
  {
    if v < 10 then ('0' as int + v) as char else ('a' as int + v - 10) as char
  }

  predicate IsSpace(c: char)
  {
    c == ' ' || c == '\t' || c == '\n' || c == '\r' || c == '\U{B}' || c == '\U{C}'
  }

  /** The text after the leading white space that a conversion skips. */
  function SkipSpace(s: string): (t: string)
    ensures |t| <= |s| && t == s[|s| - |t|..]
    ensures t == [] || !IsSpace(t[0])
  {
    if s != [] && IsSpace(s[0]) then SkipSpace(s[1..]) else s
  }

  /** The number of hex digits `s` starts with. */
  function HexRun(s: string): (n: nat)
    ensures n <= |s|
    ensures forall i :: 0 <= i < n ==> IsHexDigit(s[i])
    ensures n < |s| ==> !IsHexDigit(s[n])
  {
    if s != [] && IsHexDigit(s[0]) then 1 + HexRun(s[1..]) else 0
  }

  /** The value of a run of hex digits, most significant first. */
  function HexNumber(d: string): nat
    requires forall i :: 0 <= i < |d| ==> IsHexDigit(d[i])
  {
    if d == [] then 0 else HexNumber(d[..|d| - 1]) * 16 + HexValue(d[|d| - 1])
  }

  /**
   * sscanf(s, "%lx", &v): skip white space, accept an optional "0x" or "0X"
   * before a hex digit, then read the longest run of hex digits.  None when
   * there is no digit, in which case `v` is left as it was.
   */
  function ScanHex(s: string): Option<nat>
  {
    ScanHexNumber(SkipSpace(s))
  }

  /** The conversion once the white space is skipped. */
  function ScanHexNumber(t: string): Option<nat>
  {
    var u := if |t| >= 3 && t[0] == '0' && (t[1] == 'x' || t[1] == 'X') && IsHexDigit(t[2]) then t[2..] else t;
    var n := HexRun(u);
    if n == 0 then None else Some(HexNumber(u[..n]))
  }

  /** The lower-case hexadecimal text of `n`, without a prefix. */
  function HexString(n: nat): (s: string)
    ensures |s| > 0 && forall i :: 0 <= i < |s| ==> IsHexDigit(s[i])
  {
    if n < 16 then [HexChar(n)] else HexString(n / 16) + [HexChar(n % 16)]
  }

  lemma {:induction false} HexNumberOfHexString(n: nat)
    ensures HexNumber(HexString(n)) == n
  {
    var s := HexString(n);
    if n < 16 {
      assert s[..0] == [];
    } else {
      HexNumberOfHexString(n / 16);
      assert s[..|s| - 1] == HexString(n / 16);
    }
  }

  /** A hex digit string is read back whole. */
  lemma HexRunOfDigits(s: string)
    requires forall i :: 0 <= i < |s| ==> IsHexDigit(s[i])
    ensures HexRun(s) == |s|
  {
  }

  /** Reading the hexadecimal text of a number gives the number back. */
  lemma ScanHexRoundTrip(n: nat)
    ensures ScanHex(HexString(n)) == Some(n)
  {
    var s := HexString(n);
    assert SkipSpace(s) == s;
    if |s| >= 3 && s[0] == '0' {
      HexNumberLeadingZero(n);
    }
    HexRunOfDigits(s);
    assert s[..|s|] == s;
    HexNumberOfHexString(n);
  }

  /** Only the number 0 has text starting with '0', and that text is one character. */
  lemma {:induction false} HexNumberLeadingZero(n: nat)
    requires HexString(n)[0] == '0'
    ensures n == 0 && |HexString(n)| == 1
  {
    if n >= 16 {
      assert HexString(n)[0] == HexString(n / 16)[0];
      HexNumberLeadingZero(n / 16);
      assert false;
    }
  }

  /** White space before the number is skipped, however much of it there is. */
  lemma {:induction false} ScanHexSkipsSpace(ws: string, s: string)
    requires forall i :: 0 <= i < |ws| ==> IsSpace(ws[i])
    ensures ScanHex(ws + s) == ScanHex(s)
  {
    SkipSpaceOfSpace(ws, s);
  }

  lemma {:induction false} SkipSpaceOfSpace(ws: string, s: string)
    requires forall i :: 0 <= i < |ws| ==> IsSpace(ws[i])
    ensures SkipSpace(ws + s) == SkipSpace(s)
  {
    if ws == [] {
      assert ws + s == s;
    } else {
      assert (ws + s)[0] == ws[0] && (ws + s)[1..] == ws[1..] + s;
      SkipSpaceOfSpace(ws[1..], s);
    }
  }

  /** After "0x" or "0X" the digits are read whole. */
  lemma ScanHexAfterPrefix(x: char, s: string)
    requires x == 'x' || x == 'X'
    requires s != [] && forall i :: 0 <= i < |s| ==> IsHexDigit(s[i])
    ensures ScanHex(['0', x] + s) == Some(HexNumber(s))
  {
    var t := ['0', x] + s;
    assert SkipSpace(t) == t by {
      assert !IsSpace(t[0]);
    }
    assert ScanHexNumber(t) == Some(HexNumber(s)) by {
      assert t[2] == s[0] && t[2..] == s;
      HexRunOfDigits(s);
      assert s[..|s|] == s;
    }
  }

  /** Text with no hex digit after the white space sets nothing. */
  lemma ScanHexNoDigits(s: string)
    requires SkipSpace(s) == [] || !IsHexDigit(SkipSpace(s)[0])
    ensures ScanHex(s) == None
  {
  }

  // ---------------------------------------------------------------------
  // processCmdLine
  // ---------------------------------------------------------------------

  /** An argument starting with '/' or '-'. */
  predicate IsOption(arg: string)
  {
    |arg| > 0 && (arg[0] == '/' || arg[0] == '-')
  }

  /** The option letter, or NUL for a lone '/' or '-'. */
  function OptionLetter(arg: string): char
  {
    if |arg| > 1 then arg[1] else '\0'
  }

  predicate IsModeOption(arg: string)
  {
    IsOption(arg) && (OptionLetter(arg) == 'm' || OptionLetter(arg) == 'M')
  }

  /** Whether `arg` makes the program stop after the loop. */
  predicate Stops(p: Program, arg: string)
  {
    if IsOption(arg) then !IsModeOption(arg) else p == ExampleCli
  }

  /** One pass of the argument loop. */
  function ArgEffect(p: Program, o: Outcome, arg: string): Outcome
  {
    if IsOption(arg) then
      if IsModeOption(arg) then
        match ScanHex(arg[2..])
        case Some(v) => o.(mode := v)
        case None => o
      else o.(stop := true)
    else if p == ExampleCli then o.(stop := true)
    else o.(textureFile := Some(arg))
  }

  /** The loop over `args`, in order. */
  function ArgsEffect(p: Program, o: Outcome, args: seq<string>): Outcome
  {
    if args == [] then o else ArgEffect(p, ArgsEffect(p, o, args[..|args| - 1]), args[|args| - 1])
  }

  /** processCmdLine with argv (program name first), starting from the current mode and texture file. */
  function CmdLine(p: Program, argv: seq<string>, mode: nat, file: Option<string>): Outcome
  {
    if |argv| > 1 then ArgsEffect(p, Outcome(mode, file, false), argv[1..])
    else Outcome(mode, file, p == ShowTextCli)
  }

  /** processCmdLine: the loop over argv[1..], one ArgEffect per argument. */
  method ProcessCmdLine(p: Program, argv: seq<string>, mode: nat, file: Option<string>) returns (r: Outcome)
    ensures r == CmdLine(p, argv, mode, file)
  {
    if |argv| > 1 {
      r := Outcome(mode, file, false);
      var i := 1;
      while i < |argv|
        invariant 1 <= i <= |argv|
        invariant r == ArgsEffect(p, Outcome(mode, file, false), argv[1..i])
      {
        r := ArgEffect(p, r, argv[i]);
        ArgsEffectStep(p, Outcome(mode, file, false), argv, i);
        i := i + 1;
      }
      assert argv[1..i] == argv[1..];
    } else {
      r := Outcome(mode, file, p == ShowTextCli);
    }
  }

  /** Extending the processed arguments by argv[i] is one more pass. */
  lemma ArgsEffectStep(p: Program, o: Outcome, argv: seq<string>, i: int)
    requires 1 <= i < |argv|
    ensures ArgsEffect(p, o, argv[1..i + 1]) == ArgEffect(p, ArgsEffect(p, o, argv[1..i]), argv[i])
  {
    assert argv[1..i + 1][..i - 1] == argv[1..i];
  }

  /** The loop sets the stop flag exactly when some argument stops the program. */
  lemma {:induction false} ArgsStopIff(p: Program, o: Outcome, args: seq<string>)
    ensures ArgsEffect(p, o, args).stop <==> o.stop || exists i :: 0 <= i < |args| && Stops(p, args[i])
  {
    if args != [] {
      var init := args[..|args| - 1];
      ArgsStopIff(p, o, init);
      SomeStopsStep(p, args, init);
    }
  }

  /** Some argument stops the program exactly when one before the last does or the last one does. */
  lemma SomeStopsStep(p: Program, args: seq<string>, init: seq<string>)
    requires args != [] && init == args[..|args| - 1]
    ensures (exists i :: 0 <= i < |args| && Stops(p, args[i])) <==>
            (exists i :: 0 <= i < |init| && Stops(p, init[i])) || Stops(p, args[|args| - 1])
  {
    if exists i :: 0 <= i < |init| && Stops(p, init[i]) {
      var i :| 0 <= i < |init| && Stops(p, init[i]);
      assert args[i] == init[i];
    }
    if exists i :: 0 <= i < |args| && Stops(p, args[i]) {
      var i :| 0 <= i < |args| && Stops(p, args[i]);
      if i < |init| {
        assert init[i] == args[i];
      }
    }
  }

  /**
   * EXAMPLE.C stops exactly when some argument is not a mode option;
   * SHOWTEXT.C stops when there is no argument or some option is not a mode option.
   */
  lemma CmdLineStopIff(p: Program, argv: seq<string>, mode: nat, file: Option<string>)
    ensures CmdLine(p, argv, mode, file).stop <==>
            (p == ShowTextCli && |argv| <= 1) ||
            exists i :: 1 <= i < |argv| && Stops(p, argv[i])
  {
    if |argv| > 1 {
      var args := argv[1..];
      ArgsStopIff(p, Outcome(mode, file, false), args);
      if exists i :: 0 <= i < |args| && Stops(p, args[i]) {
        var i :| 0 <= i < |args| && Stops(p, args[i]);
        assert argv[i + 1] == args[i];
      }
      if exists i :: 1 <= i < |argv| && Stops(p, argv[i]) {
        var i :| 1 <= i < |argv| && Stops(p, argv[i]);
        assert args[i - 1] == argv[i];
      }
    }
  }

  /** Without a mode option the mode stays as it was. */
  lemma {:induction false} ArgsKeepMode(p: Program, o: Outcome, args: seq<string>)
    requires forall i :: 0 <= i < |args| ==> !IsModeOption(args[i])
    ensures ArgsEffect(p, o, args).mode == o.mode
  {
    if args != [] {
      var init := args[..|args| - 1];
      assert forall i :: 0 <= i < |init| ==> init[i] == args[i];
      ArgsKeepMode(p, o, init);
    }
  }

  /** Without a bare argument the texture file stays as it was. */
  lemma {:induction false} ArgsKeepTexture(p: Program, o: Outcome, args: seq<string>)
    requires forall i :: 0 <= i < |args| ==> IsOption(args[i])
    ensures ArgsEffect(p, o, args).textureFile == o.textureFile
  {
    if args != [] {
      var init := args[..|args| - 1];
      assert forall i :: 0 <= i < |init| ==> init[i] == args[i];
      ArgsKeepTexture(p, o, init);
    }
  }

  /** A mode option written as "/m" followed by the hex text of n, given last, sets the mode to n. */
  lemma LastModeOptionWins(p: Program, o: Outcome, args: seq<string>, n: nat)
    requires args != [] && args[|args| - 1] == "/m" + HexString(n)
    ensures ArgsEffect(p, o, args).mode == n && ArgsEffect(p, o, args).stop == ArgsEffect(p, o, args[..|args| - 1]).stop
  {
    var arg := args[|args| - 1];
    assert arg[2..] == HexString(n);
    ScanHexRoundTrip(n);
  }

  /** In SHOWTEXT.C the last bare argument names the texture file, and does not stop the program. */
  lemma LastBareArgumentIsTexture(o: Outcome, args: seq<string>)
    requires args != [] && !IsOption(args[|args| - 1])
    ensures ArgsEffect(ShowTextCli, o, args).textureFile == Some(args[|args| - 1])
    ensures ArgsEffect(ShowTextCli, o, args).stop == ArgsEffect(ShowTextCli, o, args[..|args| - 1]).stop
  {
  }
}
