/**
 * One wakeup of the event loop (the body of `loop`): wait for edges on the
 * monitored lines, acknowledge the event of every monitored line the driver
 * reports, and run `update` once if there was at least one.
 * The driver is an oracle: the wait's result, the line numbers it reports,
 * and whether reading line i's pending event succeeds.
 */
module Events {
  import opened Sampling
  import opened Episode

  /** The indices of the monitored lines that the wait reported, in order.
      A line is identified by its number on the chip, which is what the
      program's comparison of line handles amounts to. */
  function Pending(lines: seq<nat>, reported: seq<nat>): (p: seq<nat>)
    ensures forall i :: i in p <==> 0 <= i < |lines| && lines[i] in reported
    ensures forall j, k :: 0 <= j < k < |p| ==> p[j] < p[k]
    ensures forall j :: 0 <= j < |p| ==> p[j] < |lines|
  {
    if lines == [] then []
    else
      var last := |lines| - 1;
      Pending(lines[..last], reported) + if lines[last] in reported then [last] else []
  }

  /** The events acknowledged in one wakeup: for each monitored line in
      order, search the reported lines for it and, when found, read its
      event; a failed read stops the loop, and the program exits. */
  method Acknowledge(lines: seq<nat>, reported: seq<nat>, readOk: seq<bool>)
    returns (acked: seq<nat>, failed: bool)
    requires |readOk| == |lines|
    ensures !failed ==> acked == Pending(lines, reported)
    ensures !failed ==> forall j :: 0 <= j < |acked| ==> readOk[acked[j]]
    ensures failed ==> acked != [] && acked[|acked| - 1] < |lines|
    ensures failed ==> acked == Pending(lines[..acked[|acked| - 1] + 1], reported)
    ensures failed ==> !readOk[acked[|acked| - 1]]
    ensures failed ==> forall j :: 0 <= j < |acked| - 1 ==> readOk[acked[j]]
  {
    acked, failed := [], false;
    var i := 0;
    while i != |lines|
      invariant i <= |lines|
      invariant acked == Pending(lines[..i], reported)
      invariant forall j :: 0 <= j < |acked| ==> readOk[acked[j]]
    {
      var found := false;
      var k := 0;
      while k != |reported| && !found
        invariant k <= |reported|
        invariant found <==> lines[i] in reported[..k]
      {
        assert reported[..k + 1] == reported[..k] + [reported[k]];
        found := reported[k] == lines[i];
        k := k + 1;
      }
      assert !found ==> reported[..k] == reported;
      assert lines[..i + 1][..i] == lines[..i];
      if found {
        acked := acked + [i];
        if !readOk[i] {
          failed := true;
          return;
        }
      }
      i := i + 1;
    }
    assert lines[..i] == lines;
  }

  /** How one wakeup ended: the wait failed, nothing to do (a zero result
      or no monitored line reported), an event read failed, or `update`
      ran and ended with the given status. */
  datatype Wake = WaitFailed | Idle | ReadFailed | Dispatched(status: Status)

  datatype WakeOutcome = WakeOutcome(wake: Wake, actions: seq<Action>)

  /** Every monitored line the wait reported has its event read. */
  predicate AllRead(lines: seq<nat>, reported: seq<nat>, readOk: seq<bool>)
    requires |readOk| == |lines|
  {
    forall i :: 0 <= i < |lines| && lines[i] in reported ==> readOk[i]
  }

  /** One wakeup of `loop`: `res` is what `gpiod_line_event_wait_bulk`
      returned, `reported` the line numbers of its event set, `readOk[i]`
      whether `gpiod_line_event_read` succeeds on line i, and `scans` what
      `update` would read. */
  function Wakeup(cfg: Config, res: int, reported: seq<nat>, readOk: seq<bool>,
                  scans: seq<seq<LineValue>>): WakeOutcome
    requires |readOk| == |cfg.lines|
  {
    if res < 0 then WakeOutcome(WaitFailed, [Exit(1)])
    else if res == 0 then WakeOutcome(Idle, [])
    else if !AllRead(cfg.lines, reported, readOk) then WakeOutcome(ReadFailed, [Exit(1)])
    else if Pending(cfg.lines, reported) == [] then WakeOutcome(Idle, [])
    else
      var u := Update(cfg, scans);
      WakeOutcome(Dispatched(u.status), u.actions)
  }

  /** No pending line is the same as no monitored line reported. */
  lemma NoPending(lines: seq<nat>, reported: seq<nat>)
    ensures Pending(lines, reported) == [] <==> forall i :: 0 <= i < |lines| ==> lines[i] !in reported
  {
    var p := Pending(lines, reported);
    if p != [] {
      assert p[0] in p;
    }
  }

  /** `update` runs, once, exactly when the wait succeeded with a positive
      result, at least one monitored line was reported, and every reported
      line's event was read; its actions are then the wakeup's actions. */
  lemma DispatchedIffPending(cfg: Config, res: int, reported: seq<nat>, readOk: seq<bool>,
                             scans: seq<seq<LineValue>>)
    requires |readOk| == |cfg.lines|
    ensures var w := Wakeup(cfg, res, reported, readOk, scans);
      w.wake.Dispatched? <==>
        res > 0 && (exists i :: 0 <= i < |cfg.lines| && cfg.lines[i] in reported) &&
        (forall i :: 0 <= i < |cfg.lines| && cfg.lines[i] in reported ==> readOk[i])
    ensures var w := Wakeup(cfg, res, reported, readOk, scans);
      w.wake.Dispatched? ==> w.actions == Update(cfg, scans).actions
  {
    NoPending(cfg.lines, reported);
  }

  /** A zero result, or a wakeup that reports none of the monitored lines,
      does nothing at all; a failed wait or event read exits with status 1
      and nothing else. */
  lemma QuietWakeups(cfg: Config, res: int, reported: seq<nat>, readOk: seq<bool>,
                     scans: seq<seq<LineValue>>)
    requires |readOk| == |cfg.lines|
    ensures res == 0 ==> Wakeup(cfg, res, reported, readOk, scans) == WakeOutcome(Idle, [])
    ensures (forall i :: 0 <= i < |cfg.lines| ==> cfg.lines[i] !in reported) && res >= 0 ==>
      Wakeup(cfg, res, reported, readOk, scans) == WakeOutcome(Idle, [])
    ensures res < 0 || (res > 0 && !AllRead(cfg.lines, reported, readOk)) ==>
      Wakeup(cfg, res, reported, readOk, scans).actions == [Exit(1)]
  {
    NoPending(cfg.lines, reported);
  }
}
