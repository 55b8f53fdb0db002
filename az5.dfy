/**
 * The monitor process: the program's globals (the selected name table, the
 * array of monitored line numbers and its length, the two commands) and
 * the log of what the process did to the world outside. `Configure` is
 * `main` up to the event loop, `Update` is `update`, and `Wakeup` is one
 * pass of the event loop.
 */
module Az5 {
  import opened Wrappers
  import opened BitVector
  import opened Numerals
  import opened Resolver
  import opened Sampling
  import opened Episode
  import opened Events
  import opened CommandLine

  class Monitor {
    var gpioMap: seq<MapEntry>
    var lines: array<nat>
    var nLines: nat
    var whileOnCommand: string
    var offCommand: string
    /** The `setenv`, `system` and `exit` calls made so far. */
    var log: seq<Action>

    /** The monitor is configured: the line array holds exactly `nLines`
        lines, between one and MaxLines of them. The static initialisation
        does not establish this; only a successful `Configure` does. */
    predicate Configured()
      reads this
    {
      lines.Length == nLines && 1 <= nLines <= MaxLines
    }

    /** The configuration the globals describe. */
    function Cfg(): Config
      reads this, lines
    {
      Config(lines[..], whileOnCommand, offCommand)
    }

    /** The static initialisation: the first generation's table, no lines
        yet, nothing done. */
    constructor ()
      ensures gpioMap == Gen1Map && nLines == 0 && lines.Length == 0 && log == []
    {
      gpioMap := Gen1Map;
      lines := new nat[0];
      nLines := 0;
      whileOnCommand, offCommand := "", "";
      log := [];
    }

    /** The getopt loop of `main`: `-g 1` and `-g 2` select a table; any
        other option or argument makes `ok` false, where the program prints
        its usage. */
    method ParseOptions(opts: seq<Opt>) returns (ok: bool)
      modifies this`gpioMap
      ensures ok <==> ApplyOptions(old(gpioMap), opts).Some?
      ensures ok ==> ApplyOptions(old(gpioMap), opts) == Some(gpioMap)
    {
      var i := 0;
      while i < |opts|
        invariant i <= |opts|
        invariant ApplyOptions(old(gpioMap), opts) == ApplyOptions(gpioMap, opts[i..])
      {
        assert opts[i..][1..] == opts[i + 1..];
        match opts[i] {
          case Generation(arg) =>
            if arg == "1" {
              gpioMap := Gen1Map;
            } else if arg == "2" {
              gpioMap := Gen2Map;
            } else {
              return false;
            }
          case Unknown =>
            return false;
        }
        i := i + 1;
      }
      return true;
    }

    /** `n_lines` and the freshly allocated `lines`, filled with each GPIO
        token's resolution in order; `ok` is false where `get_gpio` rejects
        a token and the program exits. */
    method ResolveLines(tokens: seq<string>) returns (ok: bool)
      requires 1 <= |tokens| <= MaxLines
      modifies this`lines, this`nLines
      ensures fresh(lines) && Configured() && nLines == |tokens|
      ensures ok <==> ResolveAll(gpioMap, tokens).Some?
      ensures ok ==> ResolveAll(gpioMap, tokens) == Some(lines[..])
    {
      nLines := |tokens|;
      lines := new nat[nLines];
      var i := 0;
      while i != nLines
        invariant i <= nLines == lines.Length == |tokens| && fresh(lines)
        invariant forall j :: 0 <= j < i ==> Resolve(gpioMap, tokens[j]) == Some(lines[j])
      {
        var n := GetGpio(gpioMap, tokens[i]);
        if n.None? {
          return false;
        }
        lines[i] := n.value;
        i := i + 1;
      }
      assert lines[..] == ResolveAll(gpioMap, tokens).value;
      return true;
    }

    /** `main` up to the event loop: select the table from the environment
        and the options, check the argument count, fill the line array with
        the resolved tokens, keep the two commands, and request the lines.
        A usage or fatal error logs exit(1). */
    method Configure(boardGeneration: Option<string>, opts: seq<Opt>, positional: seq<string>,
                     setupOk: bool) returns (r: Startup)
      modifies this
      ensures r == Start(boardGeneration, opts, positional, setupOk)
      ensures r.Started? ==> Configured() && Cfg() == r.cfg && log == old(log) && fresh(lines)
      ensures r.Started? ==> TableOf(boardGeneration, opts) == Some(gpioMap)
      ensures !r.Started? ==> log == old(log) + [Exit(1)]
    {
      var initial := SelectGeneration(boardGeneration);
      if initial.None? {
        log := log + [Exit(1)];
        return Fatal;
      }
      gpioMap := initial.value;
      var ok := ParseOptions(opts);
      if !ok || |positional| < 3 || |positional| - 2 > MaxLines {
        log := log + [Exit(1)];
        return Usage;
      }
      var inv := SplitArgs(positional).value;
      ok := ResolveLines(inv.gpios);
      if !ok {
        log := log + [Exit(1)];
        return Fatal;
      }
      whileOnCommand := positional[|positional| - 2];
      offCommand := positional[|positional| - 1];
      assert positional == inv.gpios + [inv.whileOnCommand, inv.offCommand];
      if !setupOk {
        log := log + [Exit(1)];
        return Fatal;
      }
      return Started(Cfg());
    }

    /** `update`: sample the lines until they all read normal, publishing
        the active mask and running the while-on command for every other
        sample, then the off command if the while-on command ran. `scans`
        are the samples the driver would give; when it runs out with a line
        still asserted the episode is still open. */
    method Update(scans: seq<seq<LineValue>>) returns (status: Status)
      requires Configured()
      requires forall k :: 0 <= k < |scans| ==> |scans[k]| == nLines
      modifies this`log
      ensures status == Episode.Update(Cfg(), scans).status
      ensures log == old(log) + Episode.Update(Cfg(), scans).actions
    {
      ghost var cfg := Cfg();
      ghost var episode := Episode.Update(cfg, scans);
      var allUp := Shl(1, nLines) - 1;
      assert allUp == AllUp(|cfg.lines|);
      var wasOn := false;
      var k := 0;
      while k < |scans|
        invariant k <= |scans|
        invariant Poll(cfg, scans[k..], wasOn).status == episode.status
        invariant log + Poll(cfg, scans[k..], wasOn).actions == old(log) + episode.actions
      {
        assert scans[k..][1..] == scans[k + 1..];
        PollStep(cfg, scans[k..], wasOn);
        var current, _ := GpioRead(scans[k]);
        if current.None? {
          log := log + [Exit(1)];
          return Failed;
        }
        if current.value == allUp {
          break;
        }
        log := log + [SetEnv(ActiveVariable, Decimal(Xor(current.value, allUp))), System(whileOnCommand)];
        wasOn := true;
        k := k + 1;
      }
      if k == |scans| {
        return Polling;
      }
      if wasOn {
        log := log + [System(offCommand)];
      }
      return Clear;
    }

    /** One pass of the event loop: a failed wait exits, a zero result is
        skipped, each reported monitored line has its event read (a failed
        read exits), and `update` runs once when at least one was. */
    method Wakeup(res: int, reported: seq<nat>, readOk: seq<bool>, scans: seq<seq<LineValue>>)
      returns (w: Wake)
      requires Configured() && |readOk| == nLines
      requires forall k :: 0 <= k < |scans| ==> |scans[k]| == nLines
      modifies this`log
      ensures w == Events.Wakeup(Cfg(), res, reported, readOk, scans).wake
      ensures log == old(log) + Events.Wakeup(Cfg(), res, reported, readOk, scans).actions
    {
      if res < 0 {
        log := log + [Exit(1)];
        return WaitFailed;
      }
      if res == 0 {
        return Idle;
      }
      var acked, failed := Acknowledge(lines[..], reported, readOk);
      if failed {
        var f := acked[|acked| - 1];
        assert f in Pending(lines[..][..f + 1], reported);
        assert lines[..][f] in reported;
        log := log + [Exit(1)];
        return ReadFailed;
      }
      assert AllRead(lines[..], reported, readOk) by {
        forall i | 0 <= i < |lines[..]| && lines[..][i] in reported
          ensures readOk[i]
        {
          assert i in acked;
        }
      }
      if acked == [] {
        return Idle;
      }
      var status := Update(scans);
      return Dispatched(status);
    }
  }
}
