/** The Morse encoder of the Stellaris Launchpad platform layer: the constant
    `morse_letter` table, one entry per letter 'A'..'Z', and an independent
    reference definition of the on/off keying each entry is meant to hold.

    An entry is a 16-bit pattern played least-significant bit first, plus the
    number of bits to play.  The reference keying turns a dot into "on, off",
    a dash into "on, on, on, off", and closes the letter with "off, off". */
module MorseCode {

  /** The C integer widths that matter here: `uint8_t` and `uint16_t`. */
  type U8 = x: int | 0 <= x < 0x100
  type U16 = x: int | 0 <= x < 0x1_0000

  function Pow2(n: nat): (r: nat)
    ensures r >= 1
  {
    if n == 0 then 1 else 2 * Pow2(n - 1)
  }

  /** The low `n` bits of `code`, least significant first: the order in which
      the player drives them onto the error LED (`true` = lit). */
  function LsbFirst(code: nat, n: nat): (r: seq<bool>)
    ensures |r| == n
  {
    if n == 0 then [] else [code % 2 == 1] + LsbFirst(code / 2, n - 1)
  }

  datatype Mark = Dot | Dash

  function MarkKeying(m: Mark): seq<bool>
  {
    match m
    case Dot => [true, false]
    case Dash => [true, true, true, false]
  }

  function MarksKeying(marks: seq<Mark>): seq<bool>
  {
    if |marks| == 0 then [] else MarkKeying(marks[0]) + MarksKeying(marks[1..])
  }

  /** The keying of one letter: its marks, then the inter-letter gap. */
  function Keying(marks: seq<Mark>): seq<bool>
  {
    MarksKeying(marks) + [false, false]
  }

  function Count(marks: seq<Mark>, m: Mark): nat
  {
    if |marks| == 0 then 0
    else (if marks[0] == m then 1 else 0) + Count(marks[1..], m)
  }

  /** One row of `morse_letter`. */
  datatype Letter = Letter(code: U16, bits: U8)

  /** `morse_letter`, indexed by `c - 'A'` (the C code writes the codes as binary literals). */
  const MorseLetter: seq<Letter> := [
    Letter(0x1D, 8),     // 'A' .-
    Letter(0x157, 12),   // 'B' -...
    Letter(0x5D7, 14),   // 'C' -.-.
    Letter(0x57, 10),    // 'D' -..
    Letter(0x1, 4),      // 'E' .
    Letter(0x175, 12),   // 'F' ..-.
    Letter(0x177, 12),   // 'G' --.
    Letter(0x55, 10),    // 'H' ....
    Letter(0x5, 6),      // 'I' ..
    Letter(0x1DDD, 16),  // 'J' .---
    Letter(0x1D7, 12),   // 'K' -.-
    Letter(0x15D, 12),   // 'L' .-..
    Letter(0x77, 10),    // 'M' --
    Letter(0x17, 8),     // 'N' -.
    Letter(0x777, 14),   // 'O' ---
    Letter(0x5DD, 14),   // 'P' .--.
    Letter(0x1D77, 16),  // 'Q' --.-
    Letter(0x5D, 10),    // 'R' .-.
    Letter(0x15, 8),     // 'S' ...
    Letter(0x7, 6),      // 'T' -
    Letter(0x75, 10),    // 'U' ..-
    Letter(0x1D5, 12),   // 'V' ...-
    Letter(0x1DD, 12),   // 'W' .--
    Letter(0x757, 14),   // 'X' -..-
    Letter(0x1DD7, 16),  // 'Y' -.--
    Letter(0x577, 14)    // 'Z' --..
  ]

  /** The International Morse Code of each letter, as documented beside each
      table row; this is the reference the table is checked against. */
  const MorsePattern: seq<seq<Mark>> := [
    [Dot, Dash],             // A
    [Dash, Dot, Dot, Dot],   // B
    [Dash, Dot, Dash, Dot],  // C
    [Dash, Dot, Dot],        // D
    [Dot],                   // E
    [Dot, Dot, Dash, Dot],   // F
    [Dash, Dash, Dot],       // G
    [Dot, Dot, Dot, Dot],    // H
    [Dot, Dot],              // I
    [Dot, Dash, Dash, Dash], // J
    [Dash, Dot, Dash],       // K
    [Dot, Dash, Dot, Dot],   // L
    [Dash, Dash],            // M
    [Dash, Dot],             // N
    [Dash, Dash, Dash],      // O
    [Dot, Dash, Dash, Dot],  // P
    [Dash, Dash, Dot, Dash], // Q
    [Dot, Dash, Dot],        // R
    [Dot, Dot, Dot],         // S
    [Dash],                  // T
    [Dot, Dot, Dash],        // U
    [Dot, Dot, Dot, Dash],   // V
    [Dot, Dash, Dash],       // W
    [Dash, Dot, Dot, Dash],  // X
    [Dash, Dot, Dash, Dash], // Y
    [Dash, Dash, Dot, Dot]   // Z
  ]

  /** The integer a letter's keying denotes when read least significant bit
      first: a dot contributes the two bits 0b01, a dash the four bits 0b0111. */
  function MarksCode(marks: seq<Mark>): nat
  {
    if |marks| == 0 then 0
    else if marks[0] == Dot then 1 + 4 * MarksCode(marks[1..])
    else 7 + 16 * MarksCode(marks[1..])
  }

  /** The number of bits the marks take: two per dot, four per dash. */
  function MarksBits(marks: seq<Mark>): nat
  {
    if |marks| == 0 then 0
    else (if marks[0] == Dot then 2 else 4) + MarksBits(marks[1..])
  }

  /** What a table row must hold to agree with the letter's dots and dashes. */
  predicate RowMatches(i: nat)
    requires i < |MorseLetter| && i < |MorsePattern|
  {
    && MorseLetter[i].code == MarksCode(MorsePattern[i])
    && MorseLetter[i].bits == MarksBits(MorsePattern[i]) + 2
    && 4 <= MorseLetter[i].bits <= 16
    && |MorsePattern[i]| > 0
  }

  lemma RowsAToC()
    ensures |MorseLetter| == 26 && |MorsePattern| == 26
    ensures RowMatches(0) && RowMatches(1) && RowMatches(2)
  {
  }

  lemma RowsDToF()
    ensures |MorseLetter| == 26 && |MorsePattern| == 26
    ensures RowMatches(3) && RowMatches(4) && RowMatches(5)
  {
  }

  lemma RowsGToI()
    ensures |MorseLetter| == 26 && |MorsePattern| == 26
    ensures RowMatches(6) && RowMatches(7) && RowMatches(8)
  {
  }

  lemma RowsJToL()
    ensures |MorseLetter| == 26 && |MorsePattern| == 26
    ensures RowMatches(9) && RowMatches(10) && RowMatches(11)
  {
  }

  lemma RowsMToO()
    ensures |MorseLetter| == 26 && |MorsePattern| == 26
    ensures RowMatches(12) && RowMatches(13) && RowMatches(14)
  {
  }

  lemma RowsPToR()
    ensures |MorseLetter| == 26 && |MorsePattern| == 26
    ensures RowMatches(15) && RowMatches(16) && RowMatches(17)
  {
  }

  lemma RowsSToU()
    ensures |MorseLetter| == 26 && |MorsePattern| == 26
    ensures RowMatches(18) && RowMatches(19) && RowMatches(20)
  {
  }

  lemma RowsVToX()
    ensures |MorseLetter| == 26 && |MorsePattern| == 26
    ensures RowMatches(21) && RowMatches(22) && RowMatches(23)
  {
  }

  lemma RowsYToZ()
    ensures |MorseLetter| == 26 && |MorsePattern| == 26
    ensures RowMatches(24) && RowMatches(25)
  {
  }

  /** Every row of `morse_letter` agrees with its letter's dots and dashes. */
  lemma RowsMatch()
    ensures |MorseLetter| == 26 && |MorsePattern| == 26
    ensures forall i | 0 <= i < 26 :: RowMatches(i)
  {
    RowsAToC();
    RowsDToF();
    RowsGToI();
    RowsJToL();
    RowsMToO();
    RowsPToR();
    RowsSToU();
    RowsVToX();
    RowsYToZ();
    forall i | 0 <= i < 26
      ensures RowMatches(i)
    {
      assert i in {0, 1, 2, 3, 4, 5, 6, 7, 8, 9, 10, 11, 12,
                   13, 14, 15, 16, 17, 18, 19, 20, 21, 22, 23, 24, 25};
    }
  }

  /** Playing a dot's keying then `LsbFirst(rest, n)` is playing one number. */
  lemma LsbFirstDot(rest: nat, n: nat)
    ensures LsbFirst(1 + 4 * rest, 2 + n) == MarkKeying(Dot) + LsbFirst(rest, n)
  {
    assert LsbFirst(1 + 4 * rest, 2 + n) == [true] + LsbFirst(2 * rest, 1 + n);
    assert LsbFirst(2 * rest, 1 + n) == [false] + LsbFirst(rest, n);
  }

  /** Playing a dash's keying then `LsbFirst(rest, n)` is playing one number. */
  lemma LsbFirstDash(rest: nat, n: nat)
    ensures LsbFirst(7 + 16 * rest, 4 + n) == MarkKeying(Dash) + LsbFirst(rest, n)
  {
    assert LsbFirst(7 + 16 * rest, 4 + n) == [true] + LsbFirst(3 + 8 * rest, 3 + n);
    assert LsbFirst(3 + 8 * rest, 3 + n) == [true] + LsbFirst(1 + 4 * rest, 2 + n);
    LsbFirstDot(rest, n);
  }

  /** The number `MarksCode` fits in the bits of the marks' keying. */
  lemma {:induction false} CodeFits(marks: seq<Mark>)
    ensures MarksCode(marks) < Pow2(|MarksKeying(marks)|)
  {
    if |marks| > 0 {
      var rest := marks[1..];
      var r, l := MarksCode(rest), |MarksKeying(rest)|;
      CodeFits(rest);
      if marks[0] == Dot {
        assert MarksCode(marks) == 1 + 4 * r && |MarksKeying(marks)| == l + 2;
        assert Pow2(l + 2) == 4 * Pow2(l);
      } else {
        assert MarksCode(marks) == 7 + 16 * r && |MarksKeying(marks)| == l + 4;
        assert Pow2(l + 4) == 16 * Pow2(l) by {
          assert Pow2(l + 4) == 2 * Pow2(l + 3) && Pow2(l + 3) == 2 * Pow2(l + 2);
          assert Pow2(l + 2) == 4 * Pow2(l);
        }
      }
    }
  }

  /** Round trip between the two readings of a letter: `MarksCode` played
      LSB first over the letter's length gives back exactly the letter's
      keying. */
  lemma {:induction false} KeyingIsCode(marks: seq<Mark>)
    ensures LsbFirst(MarksCode(marks), |Keying(marks)|) == Keying(marks)
  {
    if |marks| == 0 {
      assert Keying(marks) == [false, false];
      assert LsbFirst(0, 2) == [false] + LsbFirst(0, 1);
    } else {
      var rest := marks[1..];
      var r, n := MarksCode(rest), |Keying(rest)|;
      KeyingIsCode(rest);
      assert MarksKeying(marks) == MarkKeying(marks[0]) + MarksKeying(rest);
      assert Keying(marks) == MarkKeying(marks[0]) + Keying(rest);
      if marks[0] == Dot {
        assert MarksCode(marks) == 1 + 4 * r && |Keying(marks)| == 2 + n;
        LsbFirstDot(r, n);
      } else {
        assert MarksCode(marks) == 7 + 16 * r && |Keying(marks)| == 4 + n;
        LsbFirstDash(r, n);
      }
    }
  }

  /** The last mark of a letter ends dark, so the marks' keying ends dark. */
  lemma {:induction false} MarksKeyingShape(marks: seq<Mark>)
    requires |marks| > 0
    ensures |MarksKeying(marks)| >= 2
    ensures MarksKeying(marks)[0]
    ensures !MarksKeying(marks)[|MarksKeying(marks)| - 1]
  {
    if |marks| > 1 {
      MarksKeyingShape(marks[1..]);
    }
  }

  lemma {:induction false} MarksKeyingLength(marks: seq<Mark>)
    ensures |MarksKeying(marks)| == MarksBits(marks)
    ensures |MarksKeying(marks)| == 2 * Count(marks, Dot) + 4 * Count(marks, Dash)
  {
    if |marks| > 0 {
      MarksKeyingLength(marks[1..]);
    }
  }

  /** The shape of a letter's keying: it starts lit, ends with three dark
      bits, and is two bits per dot, four per dash, plus the closing gap. */
  lemma KeyingShape(marks: seq<Mark>)
    requires |marks| > 0
    ensures var k := Keying(marks);
      && |k| == 2 * Count(marks, Dot) + 4 * Count(marks, Dash) + 2
      && k[0]
      && !k[|k| - 1] && !k[|k| - 2] && !k[|k| - 3]
  {
    MarksKeyingLength(marks);
    MarksKeyingShape(marks);
  }

  /** What a row of `morse_letter` promises: 4 to 16 bits, no set bit beyond
      the played window, and, played LSB first, exactly the keying of the
      letter's dots and dashes; so it starts lit, ends with three dark bits,
      and takes two bits per dot, four per dash and two for the closing gap. */
  predicate WellFormedRow(l: Letter, marks: seq<Mark>)
  {
    && 4 <= l.bits <= 16
    && l.code < Pow2(l.bits)
    && LsbFirst(l.code, l.bits) == Keying(marks)
    && l.bits == 2 * Count(marks, Dot) + 4 * Count(marks, Dash) + 2
    && LsbFirst(l.code, l.bits)[0]
    && !LsbFirst(l.code, l.bits)[l.bits - 1]
    && !LsbFirst(l.code, l.bits)[l.bits - 2]
    && !LsbFirst(l.code, l.bits)[l.bits - 3]
  }

  /** A row whose code and length are those the marks denote is well formed. */
  lemma AgreeingRowIsWellFormed(l: Letter, marks: seq<Mark>)
    requires l.code == MarksCode(marks) && l.bits == MarksBits(marks) + 2
    requires 4 <= l.bits <= 16 && |marks| > 0
    ensures WellFormedRow(l, marks)
  {
    KeyingIsCode(marks);
    CodeFits(marks);
    KeyingShape(marks);
    MarksKeyingLength(marks);
    assert Pow2(|MarksKeying(marks)| + 2) == 4 * Pow2(|MarksKeying(marks)|);
  }

  /** The `morse_letter` table has one well-formed row per letter 'A'..'Z'. */
  lemma LetterTableWellFormed()
    ensures |MorseLetter| == 26 && |MorsePattern| == 26
    ensures forall i | 0 <= i < 26 :: WellFormedRow(MorseLetter[i], MorsePattern[i])
  {
    RowsMatch();
    forall i | 0 <= i < 26
      ensures WellFormedRow(MorseLetter[i], MorsePattern[i])
    {
      assert RowMatches(i);
      AgreeingRowIsWellFormed(MorseLetter[i], MorsePattern[i]);
    }
  }

  predicate IsUpper(c: char)
  {
    'A' <= c <= 'Z'
  }

  /** `c - 'A'`: the table index of an upper-case letter. */
  function LetterIndex(c: char): (i: nat)
    requires IsUpper(c)
    ensures i < 26 && i < |MorseLetter|
    ensures c == ('A' as int + i) as char
  {
    (c as int) - ('A' as int)
  }

  /** Entry `i` of a table, found by walking back from its last entry (the
      walk keeps a lookup at an unknown index from unfolding the whole
      table). */
  function Nth<T>(t: seq<T>, i: nat): T
    requires i < |t|
    decreases |t|
  {
    if i == |t| - 1 then t[|t| - 1] else Nth(t[..|t| - 1], i)
  }

  lemma {:induction false} NthIsIndex<T>(t: seq<T>, i: nat)
    requires i < |t|
    ensures Nth(t, i) == t[i]
    decreases |t|
  {
    if i < |t| - 1 {
      NthIsIndex(t[..|t| - 1], i);
    }
  }

  /** What the player should emit for one character of a message: the keying
      of an upper-case letter, four dark bits for anything else. */
  function CharKeying(c: char): (k: seq<bool>)
    ensures |k| >= 4 && !k[|k| - 1]
  {
    if IsUpper(c) then LetterKeying(LetterIndex(c)) else [false, false, false, false]
  }

  /** The keying of table row `i`. */
  function LetterKeying(i: nat): (k: seq<bool>)
    requires i < 26
    ensures |k| >= 4 && !k[|k| - 1]
  {
    LetterTableWellFormed();
    NthIsIndex(MorsePattern, i);
    Keying(Nth(MorsePattern, i))
  }

  /** Table row `i`. */
  function LetterRow(i: nat): (l: Letter)
    requires i < 26
    ensures 4 <= l.bits <= 16
  {
    LetterTableWellFormed();
    NthIsIndex(MorseLetter, i);
    Nth(MorseLetter, i)
  }

  /** The pattern `morse_update` loads when it consumes character `c`: the
      table row of an upper-case letter, and `code = 0, bits = 4` for any other
      character (lower case, space and punctuation included). */
  function Load(c: char): (l: Letter)
    ensures 4 <= l.bits <= 16
    ensures !IsUpper(c) ==> l == Letter(0, 4)
  {
    if IsUpper(c) then LetterRow(LetterIndex(c)) else Letter(0, 4)
  }

  /** An upper-case letter loads its row of `morse_letter`. */
  lemma LoadIsTableRow(c: char)
    requires IsUpper(c)
    ensures Load(c) == MorseLetter[LetterIndex(c)]
  {
    NthIsIndex(MorseLetter, LetterIndex(c));
  }

  /** The pattern loaded for a character has no set bit beyond its length. */
  lemma LoadFits(c: char)
    ensures Load(c).code < Pow2(Load(c).bits)
  {
    if IsUpper(c) {
      var i := LetterIndex(c);
      LetterTableWellFormed();
      NthIsIndex(MorseLetter, i);
      assert WellFormedRow(MorseLetter[i], MorsePattern[i]);
    }
  }

  /** The pattern loaded for a character, played least significant bit
      first, is exactly the character's keying. */
  lemma LoadPlaysKeying(c: char)
    ensures LsbFirst(Load(c).code, Load(c).bits) == CharKeying(c)
  {
    if IsUpper(c) {
      var i := LetterIndex(c);
      LetterTableWellFormed();
      NthIsIndex(MorseLetter, i);
      NthIsIndex(MorsePattern, i);
      assert WellFormedRow(MorseLetter[i], MorsePattern[i]);
    }
  }

  /** A character's keying lasts as many ticks as its pattern has bits. */
  lemma KeyingLength(c: char)
    ensures |CharKeying(c)| == Load(c).bits
  {
    LoadPlaysKeying(c);
  }

  /** The keying of a message from character `pos` on, character after
      character. */
  function SignalFrom(msg: string, pos: nat): seq<bool>
    decreases |msg| - pos
  {
    if pos >= |msg| then [] else CharKeying(msg[pos]) + SignalFrom(msg, pos + 1)
  }

  /** The keying of a whole message. */
  function Signal(msg: string): seq<bool>
  {
    SignalFrom(msg, 0)
  }

  /** Every character takes at least four ticks. */
  lemma {:induction false} SignalLength(msg: string, pos: nat)
    requires pos <= |msg|
    ensures |SignalFrom(msg, pos)| >= 4 * (|msg| - pos)
    decreases |msg| - pos
  {
    if pos < |msg| {
      SignalLength(msg, pos + 1);
    }
  }

  /** Every character's keying ends dark, so every tail of a message does too. */
  lemma {:induction false} SignalEndsDark(msg: string, pos: nat)
    requires |SignalFrom(msg, pos)| > 0
    ensures !SignalFrom(msg, pos)[|SignalFrom(msg, pos)| - 1]
    decreases |msg| - pos
  {
    if |SignalFrom(msg, pos + 1)| > 0 {
      SignalEndsDark(msg, pos + 1);
    }
  }
}
