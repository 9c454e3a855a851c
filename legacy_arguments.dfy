/** The legacy script's hand-written command-line parser: the first argument
    selects an option, the option may take the next argument as its value,
    and anything unexpected ends the process with exit status 1. */
module LegacyArguments {
  import opened Text
  import opened Highlights

  /** The state of the process after parsing: still running, or ended by
      sys.exit(code), or ended by an uncaught exception. */
  datatype Status = Running | Exited(code: int) | Crashed

  /** self.program = {'video': ..., 'target decibel': ...} */
  datatype Program = Program(video: string, targetDecibel: real)

  const Defaults: Program := Program("", 85.0)

  /** The Python values an argument can be: sys.argv holds strings only. */
  datatype Value = Str(s: string) | Float(x: real)

  /** float(v) for a float value; strings have none. */
  function FloatValue(v: Value): real {
    match v
    case Float(x) => x
    case Str(_) => 0.0
  }

  /** _seek: the argument after the current one, or False when there is none. */
  datatype SeekResult = NoFollowing | Following(value: string)

  /** _next: None when already past the end, the next argument, or the
      IndexError raised when stepping past the last one. */
  datatype NextResult = Nothing | Moved(value: Value) | IndexError

  /** `not self._seek()` is false only for a following argument that is a
      non-empty string. */
  predicate Truthy(r: SeekResult) {
    r.Following? && r.value != ""
  }

  function SeekOf(args: seq<string>, index: nat): (r: SeekResult)
    ensures r.Following? <==> index + 1 < |args|
    ensures r.Following? ==> r.value == args[index + 1]
  {
    if index + 1 > |args| - 1 then NoFollowing else Following(args[index + 1])
  }

  predicate IsTargetFlag(a: string) {
    a == "-t" || a == "--target-decibel"
  }

  predicate IsVideoFlag(a: string) {
    a == "-i" || a == "--input" || a == "-v" || a == "--video"
  }

  predicate IsHelpFlag(a: string) {
    a == "-h" || a == "--help"
  }

  /** The parser's fields once the constructor is done. */
  datatype Outcome = Outcome(status: Status, program: Program, index: nat, current: Option<string>)

  /** What the constructor leaves behind for the arguments after the program name. */
  function Parse(args: seq<string>, pathExists: string -> bool): (o: Outcome)
    ensures o.status != Crashed
    ensures o.status.Exited? ==> o.status.code == 1
  {
    if args == [] then Outcome(Exited(1), Defaults, 0, None)
    else
      var c := args[0];
      if IsTargetFlag(c) then
        if !Truthy(SeekOf(args, 0)) then Outcome(Exited(1), Defaults, 0, Some(c))
        else
          var v := Str(args[1]);
          if !v.Float? then Outcome(Exited(1), Defaults, 1, Some(args[1]))
          else Outcome(Running, Defaults.(targetDecibel := v.x), 1, Some(args[1]))
      else if IsVideoFlag(c) then
        if !Truthy(SeekOf(args, 0)) then Outcome(Exited(1), Defaults, 0, Some(c))
        else if !pathExists(args[1]) then Outcome(Exited(1), Defaults, 1, Some(args[1]))
        else Outcome(Running, Defaults.(video := args[1]), 1, Some(args[1]))
      else if IsHelpFlag(c) then Outcome(Running, Defaults, 0, Some(c))
      else Outcome(Exited(1), Defaults, 0, Some(c))
  }

  /** ArgumentParser: the arguments after the program name, the cursor over
      them, the options read so far, and whether the process goes on. The
      file-system check is the parameter `pathExists`. */
  class ArgumentParser {
    var args: seq<string>
    var current: Option<string>
    var index: nat
    var program: Program
    var status: Status

    function Snapshot(): Outcome
      reads this
    {
      Outcome(status, program, index, current)
    }

    /** __init__: drops the program name; no argument at all exits with
        status 1, otherwise the first argument is dispatched. */
    constructor(argv: seq<string>, pathExists: string -> bool)
      requires |argv| >= 1
      ensures args == argv[1..]
      ensures Snapshot() == Parse(argv[1..], pathExists)
    {
      args := argv[1..];
      current := None;
      index := 0;
      program := Defaults;
      status := Running;
      new;
      if args == [] {
        status := Exited(1);
        return;
      }
      current := Some(args[0]);
      Run(pathExists);
    }

    /** _seek */
    method Seek() returns (r: SeekResult)
      ensures r == SeekOf(args, index)
    {
      if index + 1 > |args| - 1 {
        return NoFollowing;
      }
      return Following(args[index + 1]);
    }

    /** _next: steps the cursor to the following argument and returns it. */
    method Next() returns (r: NextResult)
      modifies this
      ensures args == old(args) && program == old(program) && status == old(status)
      ensures old(index) > |args| - 1 ==> r == Nothing && index == old(index) && current == old(current)
      ensures old(index) == |args| - 1 ==> r == IndexError && index == old(index) + 1 && current == old(current)
      ensures old(index) + 1 < |args| ==>
                r == Moved(Str(args[old(index) + 1])) && index == old(index) + 1 && current == Some(args[index])
    {
      if index > |args| - 1 {
        return Nothing;
      }
      index := index + 1;
      if index >= |args| {
        return IndexError;
      }
      current := Some(args[index]);
      return Moved(Str(args[index]));
    }

    /** _run: the dispatch on the current (first) argument. */
    method Run(pathExists: string -> bool)
      requires args != [] && index == 0 && current == Some(args[0])
      requires status == Running && program == Defaults
      modifies this
      ensures args == old(args)
      ensures Snapshot() == Parse(args, pathExists)
    {
      var c := current.value;
      if IsTargetFlag(c) {
        var following := Seek();
        if !Truthy(following) {
          status := Exited(1);
          return;
        }
        var next := Next();
        assert next.Moved?;
        var targetDecibel := next.value;
        // isinstance(target_decibel, float): never true of an argument string
        status := if targetDecibel.Float? then status else Exited(1);
        program := if targetDecibel.Float? then program.(targetDecibel := FloatValue(targetDecibel)) else program;
      } else if IsVideoFlag(c) {
        var following := Seek();
        if !Truthy(following) {
          status := Exited(1);
          return;
        }
        var next := Next();
        assert next.Moved? && next.value.Str?;
        var videoPath := next.value.s;
        if !pathExists(videoPath) {
          status := Exited(1);
          return;
        }
        program := program.(video := videoPath);
      } else if IsHelpFlag(c) {
      } else {
        status := Exited(1);
      }
    }
  }

  /** Nothing after the program name: exit status 1. */
  lemma NoArgumentsExit(pathExists: string -> bool)
    ensures Parse([], pathExists).status == Exited(1)
  {
  }

  /** An unknown first argument: exit status 1. */
  lemma UnknownOptionExits(args: seq<string>, pathExists: string -> bool)
    requires args != [] && !IsTargetFlag(args[0]) && !IsVideoFlag(args[0]) && !IsHelpFlag(args[0])
    ensures Parse(args, pathExists).status == Exited(1)
  {
  }

  /** The target option never succeeds: its value is a string, never a float. */
  lemma TargetOptionAlwaysExits(args: seq<string>, pathExists: string -> bool)
    requires args != [] && IsTargetFlag(args[0])
    ensures Parse(args, pathExists).status == Exited(1)
    ensures Parse(args, pathExists).program.targetDecibel == 85.0
  {
  }

  /** The video option succeeds exactly when a non-empty path to an existing
      file follows it, and then records that path with the default target. */
  lemma VideoOption(args: seq<string>, pathExists: string -> bool)
    requires args != [] && IsVideoFlag(args[0])
    ensures Parse(args, pathExists).status == Running <==> |args| >= 2 && args[1] != "" && pathExists(args[1])
    ensures Parse(args, pathExists).status == Running ==> Parse(args, pathExists).program == Program(args[1], 85.0)
  {
  }

  /** The help option keeps the defaults: no video and a target of 85. */
  lemma HelpKeepsDefaults(args: seq<string>, pathExists: string -> bool)
    requires args != [] && IsHelpFlag(args[0])
    ensures Parse(args, pathExists) == Outcome(Running, Program("", 85.0), 0, Some(args[0]))
  {
  }

  /** Only the first argument and the one after it are ever read. */
  lemma LaterArgumentsIgnored(args: seq<string>, extra: seq<string>, pathExists: string -> bool)
    requires |args| >= 2
    ensures Parse(args + extra, pathExists) == Parse(args, pathExists)
  {
    assert (args + extra)[0] == args[0] && (args + extra)[1] == args[1];
  }

  // ---------------------------------------------------------------------
  // the target option as evidently intended

  function Pow10(n: nat): (p: nat)
    ensures p >= 1
  {
    if n == 0 then 1 else 10 * Pow10(n - 1)
  }

  /** An unsigned decimal literal: digits, optionally a point and more digits. */
  function ParseDecimal(s: string): Option<real> {
    var whole := LeadingDigits(s);
    if whole == [] then None
    else if |whole| == |s| then Some(ParseDigits(whole) as real)
    else if s[|whole|] == '.' && |s| > |whole| + 1 && AllDigits(s[|whole| + 1..]) then
      Some(DecimalValue(whole, s[|whole| + 1..]))
    else None
  }

  /** The value of whole.fraction. */
  function DecimalValue(whole: string, fraction: string): real
    requires AllDigits(whole) && AllDigits(fraction)
  {
    ParseDigits(whole) as real + ParseDigits(fraction) as real / Pow10(|fraction|) as real
  }

  lemma {:induction false} LeadingDigitsOfDigits(d: string)
    requires AllDigits(d)
    ensures LeadingDigits(d) == d
  {
    if d != [] {
      LeadingDigitsOfDigits(d[1..]);
    }
  }

  /** A whole number reads back as itself. */
  lemma DecimalOfWhole(n: nat)
    ensures ParseDecimal(Digits(n)) == Some(n as real)
  {
    LeadingDigitsOfDigits(Digits(n));
    DigitsRoundTrip(n);
  }

  /** Digits, a point and digits read back as the whole part plus the fraction. */
  lemma DecimalOfParts(whole: string, fraction: string)
    requires whole != [] && fraction != [] && AllDigits(whole) && AllDigits(fraction)
    ensures ParseDecimal(whole + "." + fraction) == Some(DecimalValue(whole, fraction))
  {
    var s := whole + "." + fraction;
    assert s == whole + ("." + fraction);
    LeadingDigitsOf(whole, "." + fraction);
    assert LeadingDigits(s) == whole;
    assert s[|whole|] == '.';
    assert s[|whole| + 1..] == fraction;
  }

  /** n.m reads back as n plus m tenths, hundredths, ... by the width of m. */
  lemma DecimalOfFraction(n: nat, m: nat)
    ensures var r := ParseDecimal(Digits(n) + "." + Digits(m));
            r.Some? && r.value == n as real + m as real / Pow10(|Digits(m)|) as real
  {
    DigitsRoundTrip(n);
    DigitsRoundTrip(m);
    DecimalOfNumerals(Digits(n), Digits(m), n, m);
  }

  lemma DecimalOfNumerals(whole: string, fraction: string, n: nat, m: nat)
    requires whole != [] && fraction != [] && AllDigits(whole) && AllDigits(fraction)
    requires ParseDigits(whole) == n && ParseDigits(fraction) == m
    ensures var r := ParseDecimal(whole + "." + fraction);
            r.Some? && r.value == n as real + m as real / Pow10(|fraction|) as real
  {
    DecimalOfParts(whole, fraction);
  }

  /** Parse with the target option's value converted to a number, as the
      float check evidently meant; every other option is unchanged. */
  function ParseIntended(args: seq<string>, pathExists: string -> bool): Outcome {
    if args != [] && IsTargetFlag(args[0]) then
      if !Truthy(SeekOf(args, 0)) then Outcome(Exited(1), Defaults, 0, Some(args[0]))
      else
        match ParseDecimal(args[1])
        case None => Outcome(Exited(1), Defaults, 1, Some(args[1]))
        case Some(x) => Outcome(Running, Defaults.(targetDecibel := x), 1, Some(args[1]))
    else Parse(args, pathExists)
  }

  /** With the intended check, `-t N` sets the target to N. */
  lemma IntendedTargetAccepted(n: nat, rest: seq<string>, pathExists: string -> bool)
    ensures var o := ParseIntended(["-t", Digits(n)] + rest, pathExists);
            o.status == Running && o.program == Program("", n as real)
  {
    DecimalOfWhole(n);
    assert (["-t", Digits(n)] + rest)[1] == Digits(n);
  }

  /** With the intended check, a value that is not a decimal literal still exits 1. */
  lemma IntendedTargetRejectsNonNumbers(args: seq<string>, pathExists: string -> bool)
    requires |args| >= 2 && IsTargetFlag(args[0]) && ParseDecimal(args[1]).None?
    ensures ParseIntended(args, pathExists).status == Exited(1)
  {
  }
}
