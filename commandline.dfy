/**
 * Start-up of the monitor: the board generation from the environment, the
 * `-g` option, and the positional arguments (GPIO tokens, then the while-on
 * and the off command). Both a usage error and a fatal error exit with
 * status 1; they are told apart here because they come from different
 * checks.
 */
module CommandLine {
  import opened Wrappers
  import opened BitVector
  import opened Resolver
  import opened Episode

  /** `set_generation`: an unset BOARD_GENERATION is fatal; "2" selects the
      second generation's table and every other value the first's. */
  function SelectGeneration(boardGeneration: Option<string>): (r: Option<seq<MapEntry>>)
    ensures r.None? <==> boardGeneration.None?
    ensures r.Some? ==> (r.value == Gen2Map <==> boardGeneration.value == "2")
    ensures r.Some? ==> (r.value == Gen1Map <==> boardGeneration.value != "2")
  {
    match boardGeneration
    case None => None
    case Some(g) => if g == "2" then Some(Gen2Map) else Some(Gen1Map)
  }

  /** An option as getopt returns it for the option string "g:": `-g` with
      its argument, or anything else (an unknown option, or `-g` without an
      argument). */
  datatype Opt = Generation(arg: string) | Unknown

  /** An option `main` accepts: `-g 1` or `-g 2`. */
  predicate Accepted(o: Opt)
  {
    o.Generation? && (o.arg == "1" || o.arg == "2")
  }

  /** The table an accepted option selects. */
  function Selected(o: Opt): seq<MapEntry>
    requires Accepted(o)
  {
    if o.arg == "1" then Gen1Map else Gen2Map
  }

  /** The getopt loop of `main`, from `table` on: `-g 1` and `-g 2` select a
      table, any other argument or option is a usage error (None). */
  function ApplyOptions(table: seq<MapEntry>, opts: seq<Opt>): Option<seq<MapEntry>>
    decreases |opts|
  {
    if opts == [] then Some(table)
    else match opts[0]
      case Unknown => None
      case Generation(arg) =>
        if arg == "1" then ApplyOptions(Gen1Map, opts[1..])
        else if arg == "2" then ApplyOptions(Gen2Map, opts[1..])
        else None
  }

  /** The options succeed exactly when every one is accepted; then the last
      `-g` decides the table, and without options the table stays. */
  lemma {:induction false} LastOptionWins(table: seq<MapEntry>, opts: seq<Opt>)
    ensures ApplyOptions(table, opts).Some? <==> forall i :: 0 <= i < |opts| ==> Accepted(opts[i])
    ensures opts == [] ==> ApplyOptions(table, opts) == Some(table)
    ensures opts != [] && ApplyOptions(table, opts).Some? ==>
      ApplyOptions(table, opts).value == Selected(opts[|opts| - 1])
    decreases |opts|
  {
    if opts != [] {
      var rest := opts[1..];
      if Accepted(opts[0]) {
        LastOptionWins(Selected(opts[0]), rest);
        assert forall i :: 0 < i < |opts| ==> opts[i] == rest[i - 1];
        if rest != [] {
          assert opts[|opts| - 1] == rest[|rest| - 1];
        }
      }
    }
  }

  /** The positional arguments of a run: the GPIO tokens and the two
      commands. */
  datatype Invocation = Invocation(gpios: seq<string>, whileOnCommand: string, offCommand: string)

  /** The positional split of `main` as written: at least three arguments,
      of which all but the last two are GPIO tokens. Nothing bounds the
      number of tokens. */
  function SplitArgsAsWritten(positional: seq<string>): (r: Option<Invocation>)
    ensures r.Some? <==> |positional| >= 3
    ensures r.Some? ==> r.value.gpios + [r.value.whileOnCommand, r.value.offCommand] == positional
  {
    if |positional| < 3 then None
    else
      var n := |positional| - 2;
      Some(Invocation(positional[..n], positional[n], positional[n + 1]))
  }

  /** The positional split with the width bound the vector needs: between
      one and MaxLines GPIO tokens, then the two commands; any other count
      is a usage error. */
  function SplitArgs(positional: seq<string>): (r: Option<Invocation>)
    ensures r.Some? <==> 3 <= |positional| <= MaxLines + 2
    ensures r.Some? ==> r.value.gpios + [r.value.whileOnCommand, r.value.offCommand] == positional
    ensures r.Some? ==> 1 <= |r.value.gpios| <= MaxLines
  {
    if |positional| < 3 || |positional| - 2 > MaxLines then None
    else
      var n := |positional| - 2;
      Some(Invocation(positional[..n], positional[n], positional[n + 1]))
  }

  /** Splitting what an invocation puts on the command line gives it back. */
  lemma SplitRoundTrip(inv: Invocation)
    requires 1 <= |inv.gpios| <= MaxLines
    ensures SplitArgs(inv.gpios + [inv.whileOnCommand, inv.offCommand]) == Some(inv)
  {
    var p := inv.gpios + [inv.whileOnCommand, inv.offCommand];
    assert p[..|inv.gpios|] == inv.gpios;
  }

  /** `(1 << n) - 1` as x86 evaluates it: the shift count of a 32-bit shift
      is taken modulo 32, and the result is an `unsigned` word. */
  function MaskedAllUp(n: nat): nat
  {
    (Shl(1, n % 32) + 0xFFFF_FFFF) % 0x1_0000_0000
  }

  /** With 32 GPIO tokens the program as written starts, but its all-normal
      reference is 0 while a scan of 32 normal lines reads 0xFFFFFFFF: the
      comparison on which `update` leaves its loop fails on that scan, and
      holds instead on the scan where every line is asserted. */
  lemma WideAllUpIsZero(positional: seq<string>, scan: seq<Level>, asserted: seq<Level>)
    requires |positional| == 34
    requires |scan| == 32 && forall i :: 0 <= i < 32 ==> scan[i] == 1
    requires |asserted| == 32 && forall i :: 0 <= i < 32 ==> asserted[i] == 0
    ensures SplitArgsAsWritten(positional).Some?
    ensures |SplitArgsAsWritten(positional).value.gpios| == 32
    ensures SplitArgs(positional).None?
    ensures MaskedAllUp(32) == 0
    ensures Vector(scan) == 0xFFFF_FFFF
    ensures Vector(scan) != MaskedAllUp(32)
    ensures Vector(asserted) == MaskedAllUp(32)
  {
    assert |SplitArgsAsWritten(positional).value.gpios| == 32;
    AllUpExactly(scan);
    VectorZero(asserted);
    Pow2MaxLines();
  }

  /** Every split that starts has an all-normal reference that fits the
      32-bit `int` in which `1 << n` is computed, and a scan that reads 1 on
      every line matches it. */
  lemma AcceptedWidthFits(positional: seq<string>, scan: seq<Level>)
    requires SplitArgs(positional).Some?
    requires |scan| == |SplitArgs(positional).value.gpios|
    requires forall i :: 0 <= i < |scan| ==> scan[i] == 1
    ensures AllUp(|scan|) < 0x8000_0000
    ensures Vector(scan) == AllUp(|scan|)
  {
    PowMonotone(|scan|, MaxLines);
    Pow2MaxLines();
    AllUpExactly(scan);
  }

  /** The loop of `main` that resolves each GPIO token in order; the first
      token `get_gpio` rejects ends the program (None). */
  function ResolveAll(table: seq<MapEntry>, tokens: seq<string>): (r: Option<seq<nat>>)
    ensures r.Some? <==> forall i :: 0 <= i < |tokens| ==> Resolve(table, tokens[i]).Some?
    ensures r.Some? ==> |r.value| == |tokens|
    ensures r.Some? ==> forall i :: 0 <= i < |tokens| ==> r.value[i] == Resolve(table, tokens[i]).value
  {
    if tokens == [] then Some([])
    else match Resolve(table, tokens[0])
      case None => None
      case Some(n) =>
        match ResolveAll(table, tokens[1..])
        case None => None
        case Some(rest) => Some([n] + rest)
  }

  /** How start-up ends: the monitor is configured and its lines requested,
      or the program prints its usage, or it reports a fatal error. */
  datatype Startup = Started(cfg: Config) | Usage | Fatal

  /** `main` up to the event loop, in the program's order: the generation
      (fatal), the options (usage), the argument count (usage), each GPIO
      token (fatal), and the request of the lines from the driver, whose
      success `setupOk` stands for (fatal). */
  function Start(boardGeneration: Option<string>, opts: seq<Opt>, positional: seq<string>,
                 setupOk: bool): Startup
  {
    match SelectGeneration(boardGeneration)
    case None => Fatal
    case Some(initial) =>
      match ApplyOptions(initial, opts)
      case None => Usage
      case Some(table) =>
        match SplitArgs(positional)
        case None => Usage
        case Some(inv) =>
          match ResolveAll(table, inv.gpios)
          case None => Fatal
          case Some(lines) =>
            if setupOk then Started(Config(lines, inv.whileOnCommand, inv.offCommand)) else Fatal
  }

  /** The table start-up resolves the tokens with. */
  function TableOf(boardGeneration: Option<string>, opts: seq<Opt>): Option<seq<MapEntry>>
  {
    match SelectGeneration(boardGeneration)
    case None => None
    case Some(initial) => ApplyOptions(initial, opts)
  }

  /** A started monitor watches one line per GPIO token, in order, each the
      token's resolution in the selected table, and runs the last two
      arguments as its commands. */
  lemma StartedConfig(boardGeneration: Option<string>, opts: seq<Opt>, positional: seq<string>,
                      setupOk: bool)
    requires Start(boardGeneration, opts, positional, setupOk).Started?
    ensures TableOf(boardGeneration, opts).Some?
    ensures var cfg := Start(boardGeneration, opts, positional, setupOk).cfg;
      && cfg.Valid()
      && |cfg.lines| == |positional| - 2
      && (forall i :: 0 <= i < |cfg.lines| ==>
            cfg.lines[i] == Resolve(TableOf(boardGeneration, opts).value, positional[i]).value)
      && cfg.whileOnCommand == positional[|positional| - 2]
      && cfg.offCommand == positional[|positional| - 1]
  {
    var inv := SplitArgs(positional).value;
    assert positional == inv.gpios + [inv.whileOnCommand, inv.offCommand];
  }

  /** BOARD_GENERATION is read before the options: leaving it unset is
      fatal even when `-g` names a generation. */
  lemma GenerationRequired(opts: seq<Opt>, positional: seq<string>, setupOk: bool)
    ensures Start(None, opts, positional, setupOk) == Fatal
  {
  }

  /** `-g` overrides the environment: BOARD_GENERATION=2 with `-g 1`
      resolves USER as GPIO 14. */
  lemma OptionOverridesEnvironment(cmd: string, off: string)
    ensures Start(Some("2"), [Generation("1")], ["USER", cmd, off], true)
      == Started(Config([14], cmd, off))
  {
    var positional := ["USER", cmd, off];
    assert SelectGeneration(Some("2")) == Some(Gen2Map);
    assert ApplyOptions(Gen2Map, [Generation("1")]) == Some(Gen1Map) by {
      assert [Generation("1")][1..] == [];
    }
    assert positional[..1] == ["USER"];
    assert SplitArgs(positional) == Some(Invocation(["USER"], cmd, off));
    assert Resolve(Gen1Map, "USER") == Some(14);
    var tokens := ["USER"];
    assert tokens[0] == "USER";
    var resolved := ResolveAll(Gen1Map, tokens);
    assert resolved.Some? && |resolved.value| == 1 && resolved.value[0] == 14;
    assert resolved.value == [14];
  }

  /** A start with fewer than three positional arguments prints the usage,
      whatever the token resolution and the driver would do. */
  lemma TooFewArguments(boardGeneration: Option<string>, opts: seq<Opt>, positional: seq<string>,
                        setupOk: bool)
    requires boardGeneration.Some? && forall i :: 0 <= i < |opts| ==> Accepted(opts[i])
    requires |positional| < 3
    ensures Start(boardGeneration, opts, positional, setupOk) == Usage
  {
    LastOptionWins(SelectGeneration(boardGeneration).value, opts);
  }

  /** A GPIO token that does not resolve is fatal before the lines are
      requested, whatever the driver would do. */
  lemma UnresolvedTokenIsFatal(boardGeneration: Option<string>, opts: seq<Opt>, positional: seq<string>,
                               setupOk: bool, i: nat)
    requires TableOf(boardGeneration, opts).Some? && SplitArgs(positional).Some?
    requires i < |positional| - 2 && Resolve(TableOf(boardGeneration, opts).value, positional[i]).None?
    ensures Start(boardGeneration, opts, positional, setupOk) == Fatal
  {
    var inv := SplitArgs(positional).value;
    assert inv.gpios[i] == positional[i];
  }

  /** An unknown GPIO name is fatal before the lines are requested. */
  lemma UnknownGpioIsFatal(positional: seq<string>, setupOk: bool)
    requires |positional| == 3 && positional[0] == "FOO"
    ensures Start(Some("1"), [], positional, setupOk) == Fatal
  {
    UnknownTokenFails(Gen1Map, "FOO");
    assert TableOf(Some("1"), []) == Some(Gen1Map);
    UnresolvedTokenIsFatal(Some("1"), [], positional, setupOk, 0);
  }
}
