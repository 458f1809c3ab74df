# Stellaris Launchpad Morse beacon and system tick

This project models the part of the Black Magic Probe's Stellaris Launchpad
platform layer that runs on the periodic system tick. It covers:

- the constant `morse_letter` table, which holds one 16-bit pattern and one
  bit count per letter 'A'..'Z';
- `morse`, which starts a new message on the error LED;
- `morse_update`, which plays one bit of the current letter per tick;
- `sys_tick_handler`, which on each tick toggles the run LED while a target
  runs, counts `timeout_counter` down without going below zero, and then
  advances the Morse player;
- `platform_delay`, which waits until that counter reaches zero;
- the message `"TARGET LOST."`, which the fatal-error path plays on repeat
  after it clears `running_status`.

The model is one sequential state machine built from immutable records and
pure transitions:

- `MorseCode` (`morse_code.dfy`) holds the table and an independent reference
  for it. The reference gives each letter's dots and dashes, where a dot plays
  "on, off", a dash plays "on, on, on, off", and every letter closes with
  "off, off".
- `MorsePlayer` (`morse_player.dfy`) holds `morse` as `Restart` and
  `morse_update` as `Step`. `Trace(p, k)` is the list of error-LED levels over
  the next `k` ticks.
- `SysTick` (`systick.dfy`) holds the tick (`Tick`), the delay
  (`PlatformDelay`) and the fatal-error beacon.

The C code points into a NUL-terminated string. Here the message is the
buffer's characters, and the read at index `|msg|` returns the terminator. A
read one further moves the cursor to `Overrun`, where the model stops.

In two places the code does not do what a plain description of the beacon
suggests. The model follows the code in both:

- `morse("", 1)` does not go idle. The terminator wraps around to itself and
  is played as a four-tick gap. The next character read is the byte after the
  terminator, beyond the buffer (`EmptyRepeatReadsPastEnd`). With repeat off,
  the empty message idles on its first tick.
- `morse` does not clear the static `code`/`bits` of `morse_update`. Whatever
  remains of the letter in flight is played before the new message starts
  (`RestartKeepsInFlight`, `RestartRepeats`, `FaultBeacon`).

## Model

| member | source | states |
|---|---|---|
| MorseCode.LetterTableWellFormed | src/platforms/stellaris-launchpad/platform.c:31-61 | The table has 26 rows, one per letter. Every row has 4 to 16 bits and no set bit beyond them. Played LSB first, each row is exactly its letter's dot/dash keying: it starts lit, ends with three dark bits, and is 2 bits per dot, 4 per dash, plus 2. |
| MorseCode.RowsMatch | src/platforms/stellaris-launchpad/platform.c:35-60 | Each row's code and bit count are the number and length its letter's dots and dashes denote. |
| MorseCode.KeyingIsCode | src/platforms/stellaris-launchpad/platform.c:35-60 | The number a dot/dash sequence denotes, read LSB first over the keying's length, plays back exactly that keying. |
| MorseCode.CodeFits | src/platforms/stellaris-launchpad/platform.c:31-34 | The number a dot/dash sequence denotes fits in the bits its marks take. |
| MorseCode.AgreeingRowIsWellFormed | src/platforms/stellaris-launchpad/platform.c:35-60 | Any row whose code and length agree with a letter's marks has every property a table row promises. |
| MorseCode.KeyingShape | src/platforms/stellaris-launchpad/platform.c:35-60 | A letter's keying starts lit, ends with three dark bits, and has length 2·dots + 4·dashes + 2. |
| MorseCode.LetterIndex | src/platforms/stellaris-launchpad/platform.c:92-93 | `c - 'A'` of an upper-case letter is a table index in 0..25 and maps back to the letter. |
| MorseCode.Load | src/platforms/stellaris-launchpad/platform.c:92-98 | The loaded pattern always has 4 to 16 bits. Any character that is not an upper-case letter loads `code = 0, bits = 4`. |
| MorseCode.LoadIsTableRow | src/platforms/stellaris-launchpad/platform.c:92-95 | An upper-case letter loads row `c - 'A'` of the table. |
| MorseCode.LoadFits | src/platforms/stellaris-launchpad/platform.c:92-98 | The pattern loaded for any character has no set bit beyond its bit count. |
| MorseCode.LoadPlaysKeying | src/platforms/stellaris-launchpad/platform.c:92-98 | The pattern loaded for any character, played LSB first, is that character's keying: the letter's dots and dashes, or four dark ticks for anything else. |
| MorseCode.KeyingLength | src/platforms/stellaris-launchpad/platform.c:92-98 | A character's keying lasts exactly as many ticks as its loaded bit count. |
| MorseCode.SignalLength | src/platforms/stellaris-launchpad/platform.c:92-98 | Every character takes at least four ticks, so a message's keying is at least four ticks per character. |
| MorseCode.SignalEndsDark | src/platforms/stellaris-launchpad/platform.c:35-60 | Every tail of a message's keying ends with the LED dark. |
| MorsePlayer.Step | src/platforms/stellaris-launchpad/platform.c:74-102 | One tick never changes the message or the repeat flag. With a null cursor it changes nothing. |
| MorsePlayer.StepKeepsValid | src/platforms/stellaris-launchpad/platform.c:74-102 | From a valid state (no set bit beyond `bits`, cursor within the buffer), one tick leads to a valid state, unless the message is empty and repeats. |
| MorsePlayer.StepsKeepValid | src/platforms/stellaris-launchpad/platform.c:74-102 | Any number of ticks keeps the message and repeat flag. From a valid state they keep it valid, so the cursor never moves past the terminator. |
| MorsePlayer.IdleAbsorbs | src/platforms/stellaris-launchpad/platform.c:79 | With a null cursor, every tick leaves the state unchanged and the LED holds its level. |
| MorsePlayer.EmitSteps | src/platforms/stellaris-launchpad/platform.c:100-101 | While bits remain, each tick uses up one bit and leaves the cursor where it is. |
| MorsePlayer.EmitTrace | src/platforms/stellaris-launchpad/platform.c:100-101 | While bits remain, the LED shows `code` LSB first, one bit per tick. |
| MorsePlayer.CharSteps | src/platforms/stellaris-launchpad/platform.c:81-82 | Consuming a character moves the cursor to the next one. After the character's bit count of ticks the pattern is used up. |
| MorsePlayer.CharTrace | src/platforms/stellaris-launchpad/platform.c:81-101 | Consuming a character plays its whole loaded pattern, LSB first, over that many ticks. |
| MorsePlayer.PlaysChar | src/platforms/stellaris-launchpad/platform.c:81-101 | Consuming one character plays exactly its keying and stops on the next character with the pattern used up. |
| MorsePlayer.RestSteps | src/platforms/stellaris-launchpad/platform.c:74-102 | From any position of a C string, playback moves through the characters one by one and comes to rest on the terminator. |
| MorsePlayer.RestTrace | src/platforms/stellaris-launchpad/platform.c:74-102 | From any position of a C string, the LED plays each remaining character's keying in order. |
| MorsePlayer.PlaysRest | src/platforms/stellaris-launchpad/platform.c:74-102 | The two lemmas above combined: the rest of the message plays, and playback rests on the terminator. |
| MorsePlayer.RepeatsForever | src/platforms/stellaris-launchpad/platform.c:84-87 | With repeat on, a non-empty C string plays its keying `n` times back to back, for every `n`. The terminator's tick already plays the first bit of the next copy, so no pause is inserted. |
| MorsePlayer.PlaysOnceThenDark | src/platforms/stellaris-launchpad/platform.c:79-90 | With repeat off, a message plays once. The terminator then idles the player without writing the LED, and the LED stays dark from then on. This includes the empty message, which idles on its first tick. |
| MorsePlayer.Restart | src/platforms/stellaris-launchpad/platform.c:67-77 | `morse` installs the new message and repeat flag, points the cursor at its start and drives the LED low. It keeps the static `code`/`bits` of the letter in flight unchanged, and a state with a valid pattern stays valid. |
| MorsePlayer.RestartKeepsInFlight | src/platforms/stellaris-launchpad/platform.c:67-81 | After `morse`, the remaining bits of the letter in flight play first. The new message then plays from its first character. |
| MorsePlayer.RestartRepeats | src/platforms/stellaris-launchpad/platform.c:67-87 | After `morse(msg, 1)` on a non-empty C string, the letter in flight finishes and then the message repeats with no pause between copies. |
| MorsePlayer.EmptyRepeatReadsPastEnd | src/platforms/stellaris-launchpad/platform.c:84-87 | `morse("", 1)` plays a four-tick dark gap with the cursor past the terminator. The fifth tick reads beyond the buffer. |
| SysTick.Tick | src/platforms/stellaris-launchpad/platform.c:105-119 | A tick never changes `running_status` and never increases `timeout_counter`. |
| SysTick.TicksSummary | src/platforms/stellaris-launchpad/platform.c:105-119 | After `k` ticks the Morse player has taken `k` steps and `timeout_counter` is `max(0, n - k)`. The run LED has flipped once per tick while a target runs, and not at all otherwise. |
| SysTick.ErrorLedIsTrace | src/platforms/stellaris-launchpad/platform.c:105-119 | The error LED seen tick by tick on the board is the Morse player's trace. |
| SysTick.DelayExpiresAfter | src/platforms/stellaris-launchpad/platform.c:182-186 | Once `platform_delay(n)` sets the counter, it reads zero after `k` ticks exactly when `k >= n`. |
| SysTick.PlatformDelay | src/platforms/stellaris-launchpad/platform.c:182-186 | The wait ends after exactly `delay` ticks, immediately when `delay` is 0, with the counter at zero and the board advanced by that many ticks. |
| SysTick.Morse | src/platforms/stellaris-launchpad/platform.c:67-72 | On the board, `morse` restarts the player exactly as `MorsePlayer.Restart` does, and leaves the run LED, `running_status` and the counter alone. |
| SysTick.FatalError | src/platforms/stellaris-launchpad/platform.h:80-82 | The fatal-error path clears `running_status` and starts `"TARGET LOST."` on repeat. |
| SysTick.FaultMessageSignal | src/platforms/stellaris-launchpad/platform.h:82 | `"TARGET LOST."` has twelve characters and no NUL, and one copy of its keying takes 94 ticks. |
| SysTick.KeyingLengths | src/platforms/stellaris-launchpad/platform.c:35-60 | The keying lengths of T, A, R, G, E, L, O and S are 6, 8, 10, 12, 4, 12, 14 and 8 ticks. Space and `.` each take 4. |
| SysTick.BeaconRepeats | src/platforms/stellaris-launchpad/platform.c:67-119 | After `running_status` is cleared and a non-empty message starts on repeat, the run LED holds its level. The error LED finishes the letter in flight and then repeats the message with no gap. |
| SysTick.FaultBeacon | src/platforms/stellaris-launchpad/platform.h:80-82 | After the fatal-error path, the run LED holds its level. The error LED finishes the letter in flight and then repeats the 94-tick keying of `"TARGET LOST."` `n` times back to back. |

## Left out

- `platform_init`, `uart_init`, `gpio_set_val`, `gpio_get`, `uart0_isr` and `platform_target_voltage` are left out. They are register-level clock, GPIO and UART setup and vendor driver calls.
- The start-up busy-wait loop is left out. So is the `while(timeout_counter);` spin of `platform_delay`; the delay is modelled as ticks elapsing until the counter reads zero.
- The interrupt and the main line are not interleaved. Each tick and each `morse` call is one atomic transition, so `volatile` accesses are not modelled.
- The LEDs are booleans. The run LED's level, which the C code reads back through the GPIO pin, is a field of the board state.
- Reads beyond the terminator are not modelled: the cursor moves to `Overrun` and the model stops there. In C this reads whatever memory follows the string.
- `src/platforms/stellaris-launchpad/gdb_if.c` is not part of this model. It converts timeouts with `timeout / 100`, which agrees with `SYSTICKMS`, and its `-1` timeout sentinel becomes byte 255, which it cannot tell apart from a received 0xFF.
- A message is a sequence of characters, not of bytes. A character outside ASCII loads one four-tick gap, where the C code reads it as several UTF-8 bytes and plays one gap per byte. Messages are taken to be ASCII.
- `morse` keeps the caller's pointer and reads the buffer only as it plays. The model copies the message at `morse`, so a caller that changes its buffer during playback is not modelled.
- `morse(NULL, repeat)`, which idles the player through the null-cursor check, cannot be expressed: `Restart` always points the cursor at a message. The idle state itself, and the way playback reaches it, are modelled.
- Of the fatal-error path, only clearing `running_status` and `morse("TARGET LOST.", 1)` are modelled. `setjmp`/`longjmp`, `gdb_putpacketz` and `target_list_free` are left out.
- MorsePlayer.PlaysOnceThenDark: stated only for a start with no bits in flight. `RestartKeepsInFlight` covers the in-flight prefix.
- MorsePlayer.RepeatsForever: the empty repeating message is excluded because playing it reads beyond the buffer. `EmptyRepeatReadsPastEnd` states what happens instead.
