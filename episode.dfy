/**
 * The aggregation state machine (`update`): after an edge, sample the lines
 * until they all read normal; for every sample that is not all normal,
 * publish the asserted lines in AZ5_ACTIVE and run the while-on command;
 * once they are, run the off command if the while-on command ran at all.
 * The busy poll never ends while a line stays asserted, so an episode is
 * modelled over a finite trace of scans.
 */
module Episode {
  import opened Wrappers
  import opened BitVector
  import opened Numerals
  import opened Sampling

  /** The environment variable the while-on command reads. */
  const ActiveVariable: string := "AZ5_ACTIVE"

  /** What the process does to the world outside: `setenv`, `system` and
      `exit`. Messages on stderr are not recorded. */
  datatype Action =
    | SetEnv(name: string, value: string)
    | System(command: string)
    | Exit(status: int)

  /** The monitor's configuration after start-up: the line numbers in the
      order given, and the two commands. */
  datatype Config = Config(lines: seq<nat>, whileOnCommand: string, offCommand: string)
  {
    predicate Valid()
    {
      1 <= |lines| <= MaxLines
    }
  }

  /** How an episode ended: every line read normal, the trace ran out while
      a line was still asserted, or a read failed and the program exited. */
  datatype Status = Clear | Polling | Failed

  datatype Outcome = Outcome(actions: seq<Action>, status: Status)

  /** `current ^ all_up` */
  function ActiveMask(n: nat, current: nat): nat
  {
    Xor(current, AllUp(n))
  }

  /** Sampling loop of `update` from some point on: `wasOn` says whether
      the while-on command has already run in this call. */
  function Poll(cfg: Config, scans: seq<seq<LineValue>>, wasOn: bool): Outcome
    decreases |scans|
  {
    if scans == [] then Outcome([], Polling)
    else match ReadVector(scans[0])
      case None => Outcome([Exit(1)], Failed)
      case Some(current) =>
        if current == AllUp(|cfg.lines|) then
          Outcome(if wasOn then [System(cfg.offCommand)] else [], Clear)
        else
          var rest := Poll(cfg, scans[1..], true);
          Outcome([SetEnv(ActiveVariable, Decimal(ActiveMask(|cfg.lines|, current))), System(cfg.whileOnCommand)]
                  + rest.actions, rest.status)
  }

  /** The three ways one sample decides the sampling loop. */
  lemma PollStep(cfg: Config, scans: seq<seq<LineValue>>, wasOn: bool)
    requires scans != []
    ensures ReadVector(scans[0]).None? ==> Poll(cfg, scans, wasOn) == Outcome([Exit(1)], Failed)
    ensures ReadVector(scans[0]) == Some(AllUp(|cfg.lines|)) ==>
      Poll(cfg, scans, wasOn) == Outcome(if wasOn then [System(cfg.offCommand)] else [], Clear)
    ensures ReadVector(scans[0]).Some? && ReadVector(scans[0]).value != AllUp(|cfg.lines|) ==>
      var rest := Poll(cfg, scans[1..], true);
      Poll(cfg, scans, wasOn) == Outcome(
        [SetEnv(ActiveVariable, Decimal(ActiveMask(|cfg.lines|, ReadVector(scans[0]).value))),
         System(cfg.whileOnCommand)] + rest.actions, rest.status)
  {
  }

  /** One call of `update`. */
  function Update(cfg: Config, scans: seq<seq<LineValue>>): Outcome
  {
    Poll(cfg, scans, false)
  }

  /** The first k scans are readable and none of them is all normal. */
  predicate Busy(cfg: Config, scans: seq<seq<LineValue>>, k: nat)
    requires k <= |scans|
  {
    forall j :: 0 <= j < k ==> ReadVector(scans[j]).Some? && ReadVector(scans[j]).value != AllUp(|cfg.lines|)
  }

  /** The two actions taken for the j-th scan of a busy prefix: publish its
      active mask, then run the while-on command. */
  predicate Reacted(cfg: Config, scans: seq<seq<LineValue>>, actions: seq<Action>, j: nat)
    requires j < |scans| && ReadVector(scans[j]).Some? && 2 * j + 1 < |actions|
  {
    && actions[2 * j] == SetEnv(ActiveVariable, Decimal(ActiveMask(|cfg.lines|, ReadVector(scans[j]).value)))
    && actions[2 * j + 1] == System(cfg.whileOnCommand)
  }

  /** The loop ends at the first scan that reads all normal: each earlier
      scan got exactly its SetEnv and while-on pair, in order, and the off
      command runs once at the end when the while-on command ran before. */
  lemma {:induction false} PollClears(cfg: Config, scans: seq<seq<LineValue>>, wasOn: bool, k: nat)
    requires k < |scans| && Busy(cfg, scans, k)
    requires ReadVector(scans[k]) == Some(AllUp(|cfg.lines|))
    ensures var out := Poll(cfg, scans, wasOn);
      && out.status == Clear
      && |out.actions| == 2 * k + (if wasOn || k > 0 then 1 else 0)
      && (forall j :: 0 <= j < k ==> Reacted(cfg, scans, out.actions, j))
      && ((wasOn || k > 0) ==> out.actions[2 * k] == System(cfg.offCommand))
    decreases k
  {
    if k > 0 {
      var out := Poll(cfg, scans, wasOn);
      var rest := Poll(cfg, scans[1..], true);
      PollClears(cfg, scans[1..], true, k - 1);
      assert out.actions[2..] == rest.actions;
      forall j | 0 <= j < k
        ensures Reacted(cfg, scans, out.actions, j)
      {
        if j > 0 {
          assert Reacted(cfg, scans[1..], rest.actions, j - 1);
        }
      }
    }
  }

  /** A failed read ends the episode with exit(1) after the actions of the
      scans before it; the off command does not run. */
  lemma {:induction false} PollFails(cfg: Config, scans: seq<seq<LineValue>>, wasOn: bool, k: nat)
    requires k < |scans| && Busy(cfg, scans, k)
    requires ReadVector(scans[k]).None?
    ensures var out := Poll(cfg, scans, wasOn);
      && out.status == Failed
      && |out.actions| == 2 * k + 1
      && (forall j :: 0 <= j < k ==> Reacted(cfg, scans, out.actions, j))
      && out.actions[2 * k] == Exit(1)
    decreases k
  {
    if k > 0 {
      var out := Poll(cfg, scans, wasOn);
      var rest := Poll(cfg, scans[1..], true);
      PollFails(cfg, scans[1..], true, k - 1);
      assert out.actions[2..] == rest.actions;
      forall j | 0 <= j < k
        ensures Reacted(cfg, scans, out.actions, j)
      {
        if j > 0 {
          assert Reacted(cfg, scans[1..], rest.actions, j - 1);
        }
      }
    }
  }

  /** A trace that never reads all normal keeps the episode open: one
      SetEnv and while-on pair per scan and no off command. */
  lemma {:induction false} PollOpen(cfg: Config, scans: seq<seq<LineValue>>, wasOn: bool)
    requires Busy(cfg, scans, |scans|)
    ensures var out := Poll(cfg, scans, wasOn);
      && out.status == Polling
      && |out.actions| == 2 * |scans|
      && (forall j :: 0 <= j < |scans| ==> Reacted(cfg, scans, out.actions, j))
    decreases |scans|
  {
    if scans != [] {
      var out := Poll(cfg, scans, wasOn);
      var rest := Poll(cfg, scans[1..], true);
      PollOpen(cfg, scans[1..], true);
      assert out.actions[2..] == rest.actions;
      forall j | 0 <= j < |scans|
        ensures Reacted(cfg, scans, out.actions, j)
      {
        if j > 0 {
          assert Reacted(cfg, scans[1..], rest.actions, j - 1);
        }
      }
    }
  }

  /** `update` leaves its loop on a reading of `(1 << n) - 1` and on no
      other: it ends Clear exactly when some scan reads all normal after a
      busy prefix. */
  lemma {:induction false} ClearOnlyOnAllUp(cfg: Config, scans: seq<seq<LineValue>>, wasOn: bool)
    ensures Poll(cfg, scans, wasOn).status == Clear <==>
      exists k :: 0 <= k < |scans| && Busy(cfg, scans, k) && ReadVector(scans[k]) == Some(AllUp(|cfg.lines|))
    decreases |scans|
  {
    if scans != [] {
      ClearOnlyOnAllUp(cfg, scans[1..], true);
      if Poll(cfg, scans, wasOn).status == Clear {
        if ReadVector(scans[0]) != Some(AllUp(|cfg.lines|)) {
          var k :| 0 <= k < |scans| - 1 && Busy(cfg, scans[1..], k) && ReadVector(scans[1..][k]) == Some(AllUp(|cfg.lines|));
          assert ReadVector(scans[k + 1]) == Some(AllUp(|cfg.lines|));
          assert Busy(cfg, scans, k + 1) by {
            forall j | 0 <= j < k + 1
              ensures ReadVector(scans[j]).Some? && ReadVector(scans[j]).value != AllUp(|cfg.lines|)
            {
              if j > 0 {
                assert scans[j] == scans[1..][j - 1];
              }
            }
          }
        } else {
          assert Busy(cfg, scans, 0);
        }
      } else if exists k :: 0 <= k < |scans| && Busy(cfg, scans, k) && ReadVector(scans[k]) == Some(AllUp(|cfg.lines|)) {
        var k :| 0 <= k < |scans| && Busy(cfg, scans, k) && ReadVector(scans[k]) == Some(AllUp(|cfg.lines|));
        PollClears(cfg, scans, wasOn, k);
      }
    }
  }

  /** Every mask published in AZ5_ACTIVE names exactly the asserted lines:
      bit i is set when line i reads 0. It is never zero, and its decimal
      form fits the 11-byte buffer. */
  lemma PublishedMask(cfg: Config, scan: seq<LineValue>)
    requires cfg.Valid() && |scan| == |cfg.lines|
    requires ReadVector(scan).Some? && ReadVector(scan).value != AllUp(|cfg.lines|)
    ensures var mask := ActiveMask(|cfg.lines|, ReadVector(scan).value);
      && mask != 0
      && (forall i :: 0 <= i < |scan| ==> (BitAt(mask, i) == 1 <==> scan[i] == 0))
      && |Decimal(mask)| <= 10
  {
    var levels := LevelsOf(scan);
    ActiveMaskOfScan(levels);
    var mask := ActiveMask(|cfg.lines|, ReadVector(scan).value);
    assert mask == Xor(Vector(levels), AllUp(|levels|));
    MaskFitsWord(|cfg.lines|, mask);
    DecimalFitsBuffer(mask);
  }

  lemma MaskFitsWord(n: nat, mask: nat)
    requires n <= MaxLines && mask < Pow2(n)
    ensures mask <= ULongMax
  {
    PowMonotone(n, MaxLines);
    Pow2MaxLines();
  }

  lemma {:induction false} PowMonotone(a: nat, b: nat)
    requires a <= b
    ensures Pow2(a) <= Pow2(b)
    decreases b
  {
    if a < b {
      PowMonotone(a, b - 1);
    }
  }

  /** Two lines, both normal: no action at all. */
  lemma QuietEdge(cfg: Config)
    requires |cfg.lines| == 2
    ensures Update(cfg, [[1, 1]]) == Outcome([], Clear)
  {
    var scans: seq<seq<LineValue>> := [[1, 1]];
    ReadAllUp(scans[0]);
  }

  /** Two lines, the first asserted for two samples: AZ5_ACTIVE is "1"
      before each of the two while-on runs, then the off command runs once. */
  lemma AlarmThenClear(cfg: Config)
    requires |cfg.lines| == 2
    ensures Update(cfg, [[0, 1], [0, 1], [1, 1]]) == Outcome(
      [SetEnv(ActiveVariable, "1"), System(cfg.whileOnCommand),
       SetEnv(ActiveVariable, "1"), System(cfg.whileOnCommand),
       System(cfg.offCommand)], Clear)
  {
    var busy: seq<LineValue> := [0, 1];
    var scans: seq<seq<LineValue>> := [busy, busy, [1, 1]];
    ReadAllUp(scans[2]);
    ReadAllUp(busy);
    assert LevelsOf(busy) == [0, 1];
    assert Vector([0, 1]) == 2;
    assert AllUp(2) == 3;
    assert ActiveMask(2, 2) == 1 by {
      assert Xor(2, 3) == 1 + 2 * Xor(1, 1);
      assert Xor(1, 1) == 0 + 2 * Xor(0, 0);
    }
    assert Decimal(1) == "1";
    assert scans[1..][1..] == [[1, 1]];
  }
}
