/** The periodic tick of the Stellaris Launchpad platform layer and what is
    built on it: `sys_tick_handler` toggles the run LED, counts down
    `timeout_counter` and advances the Morse player; `platform_delay` waits
    for that countdown; the fatal-error path starts the `"TARGET LOST."`
    beacon.  The tick runs at `SYSTICKHZ` = 10 Hz, so one tick is
    `SYSTICKMS` = 100 ms; the model counts ticks and never milliseconds.

    Each tick and each call into the platform is one atomic transition: the
    interleaving of the interrupt with the main line is not modelled.  The
    UART layer that turns read timeouts into ticks (`timeout / 100`, with `-1`
    as its timeout sentinel, which a byte-wide return value turns into 255
    and so confuses with a received 0xFF) is not part of this model. */
module SysTick {
  import opened MorseCode
  import opened MorsePlayer

  /** `uint32_t`. */
  type U32 = x: int | 0 <= x < 0x1_0000_0000

  /** The state the tick touches: the Morse player, the level of the run LED,
      `running_status` and `timeout_counter`. */
  datatype Board = Board(
    player: Player,
    runLed: bool,
    runningStatus: U8,
    timeoutCounter: U32)

  /** `sys_tick_handler`: flip the run LED while a target runs, count the
      timeout down without wrapping below zero, then play one Morse tick. */
  function Tick(b: Board): (c: Board)
    ensures c.runningStatus == b.runningStatus
    ensures c.timeoutCounter <= b.timeoutCounter
  {
    var runLed := if b.runningStatus != 0 then !b.runLed else b.runLed;
    var counter := if b.timeoutCounter != 0 then b.timeoutCounter - 1 else 0;
    Board(Step(b.player), runLed, b.runningStatus, counter)
  }

  function Ticks(b: Board, k: nat): Board
    decreases k
  {
    if k == 0 then b else Ticks(Tick(b), k - 1)
  }

  /** The error-LED level after each of the next `k` ticks. */
  function ErrorLedTrace(b: Board, k: nat): (t: seq<bool>)
    ensures |t| == k
  {
    seq(k, i requires 0 <= i < k => Ticks(b, i + 1).player.errorLed)
  }

  /** `morse(msg, repeat)` on the board. */
  function Morse(b: Board, msg: string, repeat: bool): (c: Board)
    ensures c.player == Restart(b.player, msg, repeat)
    ensures c.player.cursor == At(0) && !c.player.errorLed
    ensures c.runLed == b.runLed && c.runningStatus == b.runningStatus
    ensures c.timeoutCounter == b.timeoutCounter
  {
    b.(player := Restart(b.player, msg, repeat))
  }

  /** The message the fatal-error path plays. */
  const FaultMessage: string := "TARGET LOST."

  /** What the fatal-error path does to the tick state: clear
      `running_status`, then start the fault message on repeat. */
  function FatalError(b: Board): (c: Board)
    ensures c.runningStatus == 0
    ensures c.player.msg == FaultMessage && c.player.repeat
  {
    Morse(b.(runningStatus := 0), FaultMessage, true)
  }

  /** One more tick at the end is one more `Tick`. */
  lemma {:induction false} TicksSnoc(b: Board, k: nat)
    ensures Ticks(b, k + 1) == Tick(Ticks(b, k))
    decreases k
  {
    if k > 0 {
      TicksSnoc(Tick(b), k - 1);
    }
  }

  /** The three parts of the tick run independently: after `k` ticks the
      player has taken `k` steps, the counter has fallen to `max(0, n - k)`,
      and the run LED has flipped `k` times while a target runs and not at
      all otherwise. */
  lemma {:induction false} TicksSummary(b: Board, k: nat)
    ensures Ticks(b, k).player == Steps(b.player, k)
    ensures Ticks(b, k).runningStatus == b.runningStatus
    ensures Ticks(b, k).timeoutCounter
      == if b.timeoutCounter >= k then b.timeoutCounter - k else 0
    ensures Ticks(b, k).runLed
      == if b.runningStatus != 0 && k % 2 == 1 then !b.runLed else b.runLed
    decreases k
  {
    if k > 0 {
      TicksSummary(Tick(b), k - 1);
    }
  }

  /** The error LED the board shows is the player's trace. */
  lemma ErrorLedIsTrace(b: Board, k: nat)
    ensures ErrorLedTrace(b, k) == Trace(b.player, k)
  {
    forall i | 0 <= i < k
      ensures ErrorLedTrace(b, k)[i] == Trace(b.player, k)[i]
    {
      TicksSummary(b, i + 1);
      TraceIndex(b.player, k, i);
    }
  }

  /** The counter set by `platform_delay(n)` first reads zero after exactly
      `n` ticks. */
  lemma DelayExpiresAfter(b: Board, delay: U32, k: nat)
    ensures Ticks(b.(timeoutCounter := delay), k).timeoutCounter == 0 <==> k >= delay
  {
    TicksSummary(b.(timeoutCounter := delay), k);
  }

  /** `platform_delay(delay)`: set the counter and let ticks run until it
      reads zero.  Returns the board after the wait and the ticks it took. */
  method PlatformDelay(b: Board, delay: U32) returns (r: Board, ticks: nat)
    ensures ticks == delay
    ensures r == Ticks(b.(timeoutCounter := delay), ticks)
    ensures r.timeoutCounter == 0
  {
    r := b.(timeoutCounter := delay);
    ticks := 0;
    while r.timeoutCounter != 0
      invariant ticks <= delay
      invariant r == Ticks(b.(timeoutCounter := delay), ticks)
      invariant r.timeoutCounter == delay - ticks
      decreases r.timeoutCounter
    {
      TicksSnoc(b.(timeoutCounter := delay), ticks);
      r := Tick(r);
      ticks := ticks + 1;
    }
  }

  /** The fault message: twelve characters, no NUL, 94 ticks per copy
      (T 6, A 8, R 10, G 12, E 4, T 6, space 4, L 12, O 14, S 8, T 6, `.` 4). */
  lemma FaultMessageSignal()
    ensures |FaultMessage| == 12 && NoNul(FaultMessage)
    ensures |Signal(FaultMessage)| == 94
  {
    var m := FaultMessage;
    KeyingLengths();
    assert |SignalFrom(m, 12)| == 0;
    assert |SignalFrom(m, 11)| == 4;
    assert |SignalFrom(m, 10)| == 10;
    assert |SignalFrom(m, 9)| == 18;
    assert |SignalFrom(m, 8)| == 32;
    assert |SignalFrom(m, 7)| == 44;
    assert |SignalFrom(m, 6)| == 48;
    assert |SignalFrom(m, 5)| == 54;
    assert |SignalFrom(m, 4)| == 58;
    assert |SignalFrom(m, 3)| == 70;
    assert |SignalFrom(m, 2)| == 80;
    assert |SignalFrom(m, 1)| == 88;
  }

  /** The bit counts of the letters of the fault message. */
  lemma KeyingLengths()
    ensures |CharKeying('T')| == 6 && |CharKeying('A')| == 8 && |CharKeying('R')| == 10
    ensures |CharKeying('G')| == 12 && |CharKeying('E')| == 4 && |CharKeying('L')| == 12
    ensures |CharKeying('O')| == 14 && |CharKeying('S')| == 8
    ensures |CharKeying(' ')| == 4 && |CharKeying('.')| == 4
  {
    KeyingLength('T');
    KeyingLength('A');
    KeyingLength('R');
    KeyingLength('G');
    KeyingLength('E');
    KeyingLength('L');
    KeyingLength('O');
    KeyingLength('S');
    KeyingLength(' ');
    KeyingLength('.');
    LoadIsTableRow('T');
    LoadIsTableRow('A');
    LoadIsTableRow('R');
    LoadIsTableRow('G');
    LoadIsTableRow('E');
    LoadIsTableRow('L');
    LoadIsTableRow('O');
    LoadIsTableRow('S');
  }

  /** A repeating message started on the board: the run LED holds its level
      when no target runs, and the error LED finishes whatever letter was in
      flight and then repeats the message's keying with no gap between
      copies. */
  lemma BeaconRepeats(b: Board, msg: string, n: nat, k: nat)
    requires |msg| > 0 && NoNul(msg)
    ensures var f := Morse(b.(runningStatus := 0), msg, true);
      var r := Repeat(Signal(msg), n);
      && ErrorLedTrace(f, b.player.bits + |r|) == LsbFirst(b.player.code, b.player.bits) + r
      && Ticks(f, k).runLed == b.runLed
  {
    var f := Morse(b.(runningStatus := 0), msg, true);
    RestartRepeats(b.player, msg, n);
    ErrorLedIsTrace(f, b.player.bits + |Repeat(Signal(msg), n)|);
    TicksSummary(f, k);
  }

  /** The fault beacon: after the fatal-error path the run LED holds its
      level, and the error LED finishes whatever letter was in flight and then
      repeats the 94-tick keying of `"TARGET LOST."` with no gap between
      copies. */
  lemma FaultBeacon(b: Board, n: nat, k: nat)
    ensures var f := FatalError(b);
      var r := Repeat(Signal(FaultMessage), n);
      && |r| == 94 * n
      && ErrorLedTrace(f, b.player.bits + |r|) == LsbFirst(b.player.code, b.player.bits) + r
      && Ticks(f, k).runLed == b.runLed
  {
    FaultMessageSignal();
    BeaconRepeats(b, FaultMessage, n, k);
  }
}
