/** The Morse player of the Stellaris Launchpad platform layer: `morse`
    restarts playback, `morse_update` advances it by one bit per tick.

    The C code keeps a pointer into a NUL-terminated string; here the message
    is the characters of that buffer, the read at index `|msg|` yields the
    terminator, and a read beyond it (which in C reads whatever memory follows
    the string) moves the cursor to `Overrun`, where the model stops.
    Messages are taken to be ASCII, one character per byte, and are copied
    at `morse` rather than read through the caller's pointer. */
module MorsePlayer {
  import opened MorseCode

  const NUL: char := '\0'

  /** `morse_ptr`: null (idle), an index into the message, or past its end. */
  datatype Cursor = Idle | At(pos: nat) | Overrun

  /** The player's state: `morse_msg`, `morse_ptr`, `morse_repeat`, the static
      `code`/`bits` of `morse_update`, and the level of the error LED. */
  datatype Player = Player(
    msg: string,
    cursor: Cursor,
    repeat: bool,
    code: U16,
    bits: U8,
    errorLed: bool)

  /** The character `*morse_ptr` reads: the terminator one past the end. */
  function CharAt(msg: string, pos: nat): char
    requires pos <= |msg|
  {
    if pos < |msg| then msg[pos] else NUL
  }

  /** A C string: no NUL before its terminator. */
  predicate NoNul(msg: string)
  {
    forall i | 0 <= i < |msg| :: msg[i] != NUL
  }

  /** The pattern invariant: no set bit lies beyond the bits still to play. */
  predicate ValidPattern(p: Player)
  {
    p.bits <= 16 && p.code < Pow2(p.bits)
  }

  predicate Valid(p: Player)
  {
    && ValidPattern(p)
    && !p.cursor.Overrun?
    && (p.cursor.At? ==> p.cursor.pos <= |p.msg|)
  }

  /** Every message but the empty repeating one stays inside its buffer. */
  predicate Playable(p: Player)
  {
    !p.repeat || |p.msg| > 0
  }

  /** The pattern is used up and the cursor rests on the terminator. */
  predicate AtEnd(p: Player)
  {
    p.cursor == At(|p.msg|) && p.bits == 0
  }

  /** Drive the error LED to `code & 1`, then `code >>= 1; bits--`. */
  function Emit(p: Player): (q: Player)
    requires p.bits > 0
  {
    p.(errorLed := p.code % 2 == 1, code := p.code / 2, bits := p.bits - 1)
  }

  /** Consume character `c`, leave the cursor at `next`, load its pattern and
      play its first bit. */
  function LoadAndEmit(p: Player, c: char, next: nat): (q: Player)
  {
    var l := Load(c);
    Emit(p.(cursor := At(next), code := l.code, bits := l.bits))
  }

  /** `morse_update`: one tick of playback. */
  function Step(p: Player): (q: Player)
    ensures q.msg == p.msg && q.repeat == p.repeat
    ensures p.cursor.Idle? ==> q == p
  {
    match p.cursor
    case Idle => p
    case Overrun => p
    case At(pos) =>
      if p.bits != 0 then Emit(p)
      else if pos > |p.msg| then p.(cursor := Overrun)
      else if CharAt(p.msg, pos) == NUL && !p.repeat then p.(cursor := Idle)
      else
        // the terminator of a repeating message wraps to its first character
        var at := if CharAt(p.msg, pos) != NUL then pos else 0;
        LoadAndEmit(p, CharAt(p.msg, at), at + 1)
  }

  /** One tick keeps a valid playable player valid. */
  lemma StepKeepsValid(p: Player)
    requires Valid(p) && Playable(p)
    ensures Valid(Step(p))
  {
    match p.cursor
    case Idle =>
    case At(pos) =>
      if p.bits != 0 {
        assert Pow2(p.bits) == 2 * Pow2(p.bits - 1);
      } else if CharAt(p.msg, pos) != NUL || p.repeat {
        var at := if CharAt(p.msg, pos) != NUL then pos else 0;
        LoadFits(CharAt(p.msg, at));
        var l := Load(CharAt(p.msg, at));
        assert Pow2(l.bits) == 2 * Pow2(l.bits - 1);
      }
  }

  /** `morse(msg, repeat)`: point at the new message and drive the error LED
      low; the static `code`/`bits` keep whatever was in flight. */
  function Restart(p: Player, msg: string, repeat: bool): (q: Player)
    ensures q.msg == msg && q.repeat == repeat
    ensures q.cursor == At(0) && !q.errorLed
    ensures q.code == p.code && q.bits == p.bits
    ensures ValidPattern(p) ==> Valid(q)
  {
    p.(msg := msg, cursor := At(0), repeat := repeat, errorLed := false)
  }

  function Steps(p: Player, k: nat): Player
    decreases k
  {
    if k == 0 then p else Steps(Step(p), k - 1)
  }

  /** The error-LED level after each of the next `k` ticks. */
  function Trace(p: Player, k: nat): (t: seq<bool>)
    ensures |t| == k
    decreases k
  {
    if k == 0 then [] else [Step(p).errorLed] + Trace(Step(p), k - 1)
  }

  function Repeat(s: seq<bool>, n: nat): (r: seq<bool>)
    ensures |r| == n * |s|
  {
    if n == 0 then [] else s + Repeat(s, n - 1)
  }

  /** Running `a` ticks and then `b` ticks is running `a + b` ticks. */
  lemma {:induction false} StepsAdd(p: Player, a: nat, b: nat)
    ensures Steps(p, a + b) == Steps(Steps(p, a), b)
    decreases a
  {
    if a > 0 {
      StepsAdd(Step(p), a - 1, b);
    }
  }

  /** The trace of `a + b` ticks is the trace of the first `a` followed by the
      trace of the next `b`. */
  lemma {:induction false} TraceAdd(p: Player, a: nat, b: nat)
    ensures Trace(p, a + b) == Trace(p, a) + Trace(Steps(p, a), b)
    decreases a
  {
    if a > 0 {
      TraceAdd(Step(p), a - 1, b);
    }
  }

  /** The trace read tick by tick: entry `i` is the LED after `i + 1` ticks. */
  lemma {:induction false} TraceIndex(p: Player, k: nat, i: nat)
    requires i < k
    ensures Trace(p, k)[i] == Steps(p, i + 1).errorLed
    decreases i
  {
    if i > 0 {
      TraceIndex(Step(p), k - 1, i - 1);
    }
  }

  /** Playback never changes the message or the repeat flag, and a valid
      playable player stays valid: in particular it never reads past the
      terminator. */
  lemma {:induction false} StepsKeepValid(p: Player, k: nat)
    ensures Steps(p, k).msg == p.msg && Steps(p, k).repeat == p.repeat
    ensures Valid(p) && Playable(p) ==> Valid(Steps(p, k))
    ensures Valid(p) && Playable(p) ==> !Steps(p, k).cursor.Overrun?
    decreases k
  {
    if k > 0 {
      if Valid(p) && Playable(p) {
        StepKeepsValid(p);
      }
      StepsKeepValid(Step(p), k - 1);
    }
  }

  /** The idle state absorbs: ticks change nothing, the LED holds its level. */
  lemma {:induction false} IdleAbsorbs(p: Player, k: nat)
    requires p.cursor.Idle?
    ensures Steps(p, k) == p
    ensures Trace(p, k) == seq(k, _ => p.errorLed)
  {
    if k > 0 {
      IdleAbsorbs(p, k - 1);
    }
  }

  /** While bits remain, each tick uses up one bit without moving the
      cursor. */
  lemma {:induction false} EmitSteps(p: Player, k: nat)
    requires p.cursor.At? && k <= p.bits
    ensures Steps(p, k).cursor == p.cursor && Steps(p, k).bits == p.bits - k
    ensures Steps(p, k).msg == p.msg && Steps(p, k).repeat == p.repeat
    decreases k
  {
    if k > 0 {
      EmitSteps(Step(p), k - 1);
    }
  }

  /** While bits remain, each tick plays the next bit of `code`, least
      significant first. */
  lemma {:induction false} EmitTrace(p: Player, k: nat)
    requires p.cursor.At? && k <= p.bits
    ensures Trace(p, k) == LsbFirst(p.code, k)
    decreases k
  {
    if k > 0 {
      EmitTrace(Step(p), k - 1);
    }
  }

  /** Consuming a character leaves the cursor on the next one once its
      pattern is used up. */
  lemma CharSteps(p: Player)
    requires p.cursor.At? && p.cursor.pos < |p.msg| && p.bits == 0
    requires p.msg[p.cursor.pos] != NUL
    ensures var e := Steps(p, Load(p.msg[p.cursor.pos]).bits);
      && e.cursor == At(p.cursor.pos + 1) && e.bits == 0
      && e.msg == p.msg && e.repeat == p.repeat
  {
    var c := p.msg[p.cursor.pos];
    var q := Step(p);
    assert q == LoadAndEmit(p, c, p.cursor.pos + 1);
    EmitSteps(q, Load(c).bits - 1);
  }

  /** Consuming a character plays the whole pattern loaded for it. */
  lemma CharTrace(p: Player)
    requires p.cursor.At? && p.cursor.pos < |p.msg| && p.bits == 0
    requires p.msg[p.cursor.pos] != NUL
    ensures var l := Load(p.msg[p.cursor.pos]);
      Trace(p, l.bits) == LsbFirst(l.code, l.bits)
  {
    var c := p.msg[p.cursor.pos];
    var l := Load(c);
    var q := Step(p);
    assert q == LoadAndEmit(p, c, p.cursor.pos + 1);
    EmitTrace(q, l.bits - 1);
    assert LsbFirst(l.code, l.bits) == [l.code % 2 == 1] + LsbFirst(l.code / 2, l.bits - 1);
  }

  /** Consuming one character plays exactly that character's keying and
      leaves the cursor on the next one with the pattern used up. */
  lemma PlaysChar(p: Player)
    requires p.cursor.At? && p.cursor.pos < |p.msg| && p.bits == 0
    requires p.msg[p.cursor.pos] != NUL
    ensures var c := p.msg[p.cursor.pos];
      var e := Steps(p, |CharKeying(c)|);
      && Trace(p, |CharKeying(c)|) == CharKeying(c)
      && e.cursor == At(p.cursor.pos + 1) && e.bits == 0
      && e.msg == p.msg && e.repeat == p.repeat
  {
    LoadPlaysKeying(p.msg[p.cursor.pos]);
    KeyingLength(p.msg[p.cursor.pos]);
    CharSteps(p);
    CharTrace(p);
  }

  /** From character `pos` on, a C string is consumed character after
      character and playback comes to rest on the terminator. */
  lemma {:induction false} RestSteps(p: Player)
    requires p.cursor.At? && p.cursor.pos <= |p.msg| && p.bits == 0
    requires NoNul(p.msg)
    ensures var n := |SignalFrom(p.msg, p.cursor.pos)|;
      && AtEnd(Steps(p, n))
      && Steps(p, n).msg == p.msg && Steps(p, n).repeat == p.repeat
    decreases |p.msg| - p.cursor.pos
  {
    var pos := p.cursor.pos;
    if pos < |p.msg| {
      var c := p.msg[pos];
      var a, b := |CharKeying(c)|, |SignalFrom(p.msg, pos + 1)|;
      assert |SignalFrom(p.msg, pos)| == a + b;
      PlaysChar(p);
      var e := Steps(p, a);
      RestSteps(e);
      StepsAdd(p, a, b);
    }
  }

  /** From character `pos` on, a C string plays the keying of each of its
      characters in turn. */
  lemma {:induction false} RestTrace(p: Player)
    requires p.cursor.At? && p.cursor.pos <= |p.msg| && p.bits == 0
    requires NoNul(p.msg)
    ensures Trace(p, |SignalFrom(p.msg, p.cursor.pos)|) == SignalFrom(p.msg, p.cursor.pos)
    decreases |p.msg| - p.cursor.pos
  {
    var pos := p.cursor.pos;
    if pos < |p.msg| {
      var c := p.msg[pos];
      var a, b := |CharKeying(c)|, |SignalFrom(p.msg, pos + 1)|;
      assert SignalFrom(p.msg, pos) == CharKeying(c) + SignalFrom(p.msg, pos + 1);
      PlaysChar(p);
      var e := Steps(p, a);
      RestTrace(e);
      TraceAdd(p, a, b);
    }
  }

  /** From character `pos` on, a C string plays its keying character after
      character and comes to rest on the terminator. */
  lemma PlaysRest(p: Player)
    requires p.cursor.At? && p.cursor.pos <= |p.msg| && p.bits == 0
    requires NoNul(p.msg)
    ensures var n := |SignalFrom(p.msg, p.cursor.pos)|;
      && Trace(p, n) == SignalFrom(p.msg, p.cursor.pos)
      && AtEnd(Steps(p, n))
      && Steps(p, n).msg == p.msg && Steps(p, n).repeat == p.repeat
  {
    RestSteps(p);
    RestTrace(p);
  }

  /** With repeat on, the terminator sends the cursor back to the start and
      the first character is consumed in the same tick: the message repeats
      with no pause between copies. */
  lemma {:induction false} RepeatsForever(p: Player, n: nat)
    requires p.repeat && |p.msg| > 0 && NoNul(p.msg) && p.bits == 0
    requires p.cursor == At(0) || p.cursor == At(|p.msg|)
    ensures Trace(p, |Repeat(Signal(p.msg), n)|) == Repeat(Signal(p.msg), n)
    decreases n
  {
    if n > 0 {
      var L := |Signal(p.msg)|;
      SignalLength(p.msg, 0);
      var p0 := p.(cursor := At(0));
      assert Step(p) == Step(p0);
      PlaysRest(p0);
      assert Trace(p, L) == Trace(p0, L) && Steps(p, L) == Steps(p0, L);
      RepeatsForever(Steps(p, L), n - 1);
      assert n * L == L + (n - 1) * L;
      TraceAdd(p, L, (n - 1) * L);
    }
  }

  /** With repeat off, a C string started by `morse` (with nothing in flight)
      plays once; the terminator then idles the player without touching the
      LED, which stays dark from then on.  The empty message idles on its
      first tick. */
  lemma PlaysOnceThenDark(p: Player, msg: string, k: nat)
    requires p.bits == 0 && NoNul(msg)
    ensures var q := Restart(p, msg, false);
      var L := |Signal(msg)|;
      && Trace(q, L + k) == Signal(msg) + seq(k, _ => false)
      && (k > 0 ==> Steps(q, L + k).cursor.Idle?)
  {
    var q := Restart(p, msg, false);
    var L := |Signal(msg)|;
    PlaysRest(q);
    var e := Steps(q, L);
    assert !e.errorLed by {
      if L > 0 {
        TraceIndex(q, L, L - 1);
        SignalEndsDark(msg, 0);
      }
    }
    if k > 0 {
      var d := Step(e);
      assert d == e.(cursor := Idle);
      IdleAbsorbs(d, k - 1);
      StepsAdd(q, L, k);
      TraceAdd(q, L, k);
      assert Trace(e, k) == [false] + seq(k - 1, _ => false);
    }
  }

  /** `morse` keeps the static `code`/`bits`: what was left of the letter in
      flight is played first, then the new message from its first character. */
  lemma RestartKeepsInFlight(p: Player, msg: string, repeat: bool)
    requires NoNul(msg)
    ensures var q := Restart(p, msg, repeat);
      var e := Steps(q, p.bits);
      && Trace(q, p.bits) == LsbFirst(p.code, p.bits)
      && e.cursor == At(0) && e.bits == 0
      && Trace(q, p.bits + |Signal(msg)|) == LsbFirst(p.code, p.bits) + Signal(msg)
  {
    var q := Restart(p, msg, repeat);
    EmitSteps(q, p.bits);
    EmitTrace(q, p.bits);
    var e := Steps(q, p.bits);
    RestTrace(e);
    TraceAdd(q, p.bits, |Signal(msg)|);
  }

  /** `morse(msg, 1)` on a non-empty C string: the letter in flight is
      finished, then the message repeats with no pause between copies. */
  lemma RestartRepeats(p: Player, msg: string, n: nat)
    requires |msg| > 0 && NoNul(msg)
    ensures var q := Restart(p, msg, true);
      var r := Repeat(Signal(msg), n);
      Trace(q, p.bits + |r|) == LsbFirst(p.code, p.bits) + r
  {
    var q := Restart(p, msg, true);
    EmitSteps(q, p.bits);
    EmitTrace(q, p.bits);
    RepeatsForever(Steps(q, p.bits), n);
    TraceAdd(q, p.bits, |Repeat(Signal(msg), n)|);
  }

  /** `morse("", 1)` with nothing in flight does not idle: the terminator
      wraps to itself, is played as a four-tick gap, and the fifth tick reads
      the byte after the terminator. */
  lemma EmptyRepeatReadsPastEnd(p: Player)
    requires p.bits == 0
    ensures var q := Restart(p, "", true);
      && Trace(q, 4) == [false, false, false, false]
      && Steps(q, 4).cursor == At(1)
      && Steps(q, 5).cursor == Overrun
  {
    var q := Restart(p, "", true);
    var s := Step(q);
    EmptyRepeatGap(q);
    EmitSteps(s, 3);
    EmitTrace(s, 3);
    var e := Steps(s, 3);
    assert Steps(q, 4) == e;
    StepsAdd(q, 4, 1);
    assert Steps(e, 1) == Step(e);
  }

  /** The first tick of `morse("", 1)` loads the four-tick gap for the
      terminator, plays its first bit and moves the cursor past the
      terminator. */
  lemma EmptyRepeatGap(q: Player)
    requires q.msg == "" && q.cursor == At(0) && q.bits == 0 && q.repeat
    ensures Step(q) == q.(cursor := At(1), code := 0, bits := 3, errorLed := false)
    ensures LsbFirst(0, 3) == [false, false, false]
  {
    assert Load(NUL) == Letter(0, 4);
    assert LsbFirst(0, 3) == [false] + LsbFirst(0, 2);
    assert LsbFirst(0, 2) == [false] + LsbFirst(0, 1);
  }
}
