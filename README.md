# az5 — a verified model of the GPIO alarm monitor

az5 watches a set of GPIO lines on `gpiochip0` that are asserted low. The
board tables name a `USER` line and, for each of two slots, lines called
`SLOT_x_TWARN`, `SLOT_x_TSHUT` and `SLOT_x_SALRT`. After any edge on a watched line it samples all the lines.
For as long as any line reads 0, it does two things on every sample:

- it puts the set of asserted lines, as a decimal bit mask, into the
  environment variable `AZ5_ACTIVE`;
- it runs the "while-on" shell command.

Once every line reads 1 again, it runs the "off" command, but only if the
while-on command ran at least once. Lines are named on the command line by
number, or by name through the table of the board generation. The
generation comes from `BOARD_GENERATION` and can be overridden by `-g 1|2`.

The model covers the single source file `az5.c`. Its modules follow the
program's parts:

| module | file | models |
|---|---|---|
| `BitVector` | bitvector.dfy | the logical vector: the C shift, or and xor operators on naturals, and `all_up = (1 << n) - 1` |
| `Numerals` | numerals.dfy | `strtoul(s, &end, 0)` and `sprintf("%u")` |
| `Resolver` | resolver.dfy | the two name tables and `get_gpio` |
| `Sampling` | sampling.dfy | `gpio_read` |
| `Episode` | episode.dfy | `update`, over a finite trace of samples |
| `Events` | events.dfy | one pass of the event loop in `loop` |
| `CommandLine` | commandline.dfy | `set_generation`, the `-g` option and the argument split of `main` |
| `Az5` | az5.dfy | class `Monitor`: the program's globals, with `main`, `update` and a wakeup as methods that change them |

The driver and the shell are not modelled; they are inputs and outputs:

- A sample is the sequence of values `gpiod_line_get_value` returns, line by
  line. A negative value is a read error.
- A wakeup is given by:
  - the result of `gpiod_line_event_wait_bulk`;
  - the line numbers in its event set;
  - whether `gpiod_line_event_read` succeeds on each line.
- Whether `setup_gpio` can request the lines is one boolean.
- What the process does is recorded in a log of `SetEnv(name, value)`,
  `System(command)` and `Exit(status)` actions.

The logical vector has at most `MaxLines` = 31 lines, because
`1 << n_lines` is computed in a 32-bit `int`. The buffer comment at
az5.c:118 ("good for up to 32 bits") suggests that 32 lines were meant to
work, but the code does not support 32 and nothing in it bounds the count
(see "## Findings"). The model departs from the code here: it rejects more
than 31 GPIO tokens with the usage error.

## Model

| member | source | states |
|---|---|---|
| BitVector.Shl | az5.c:105 | `x << k`, defined as x times 2^k on naturals |
| BitVector.Or | az5.c:105 | bitwise or of x and y on naturals, bit by bit; its contract bounds the result between the larger operand and their sum |
| BitVector.Xor | az5.c:122 | `x ^ y` on naturals, bit by bit; its contract states the result is zero exactly when the operands are equal |
| BitVector.AllUp | az5.c:113 | the all-normal reference `(1 << n) - 1` |
| BitVector.VectorBit | az5.c:105 | bit i of the vector is the level of line i |
| BitVector.VectorBound | az5.c:97-106 | the vector of n lines is below 2^n: no bit above the last line is set |
| BitVector.VectorAppend | az5.c:105 | or-ing `res << i` into `vec`, with line i's level as `res`, appends that level to the vector of lines 0..i-1 |
| BitVector.DecodeVector | az5.c:97-107 | the levels of the scan are read back from the vector's bits: nothing is lost |
| BitVector.VectorDecode | az5.c:97-107 | every value below 2^n is the vector of the scan its bits describe |
| BitVector.VectorInjective | az5.c:97-107 | two scans of the same length with equal vectors are equal |
| BitVector.OrBits | az5.c:105 | a bit of x or-ed with y is set exactly when it is set in x or in y |
| BitVector.XorBits | az5.c:122 | a bit of `x ^ y` is set exactly when x and y differ there |
| BitVector.AllUpExactly | az5.c:113-121 | a scan's vector equals `(1 << n) - 1` exactly when every line reads 1 |
| BitVector.VectorZero | az5.c:120-122 | a vector is 0 exactly when every line reads 0 |
| BitVector.XorAllUp | az5.c:122 | `current ^ all_up` is the vector of the complemented scan |
| BitVector.ActiveMaskOfScan | az5.c:120-122 | the active mask is below 2^n, is 0 exactly when the scan is all normal, and has bit i set exactly when line i reads 0 |
| Numerals.Strtoul | az5.c:184 | strtoul never moves `end` past the string and never returns more than ULONG_MAX |
| Numerals.Decimal | az5.c:122 | `sprintf(active, "%u", m)`: the decimal digits of m, most significant first |
| Numerals.DigitsShape | az5.c:122 | `%u` writes only digits of the base, with a leading zero only for the value 0 |
| Numerals.DigitsValue | az5.c:122 | the digits `%u` writes have the printed value |
| Numerals.StrtoulWhole | az5.c:184 | a token made only of digits of its base is read whole, with its value |
| Numerals.DecimalRoundTrip | az5.c:184 | strtoul reads the decimal form of every value up to ULONG_MAX back to that value, with `end` at the end |
| Numerals.HexRoundTrip | az5.c:184 | strtoul reads "0x" and the hexadecimal digits of a value back to that value, consuming everything |
| Numerals.OctalRoundTrip | az5.c:184 | strtoul reads "0" and the octal digits of a value back to that value, consuming everything |
| Numerals.DecimalFitsBuffer | az5.c:118 | the decimal form of a 32-bit value has at most 10 characters, so it fits `active[10 + 1]` |
| Resolver.FindName | az5.c:181-183 | the index found is the first entry carrying the name; None means no entry carries it |
| Resolver.Resolve | az5.c:176-190 | what `get_gpio` returns for a token: the first matching entry's number, else strtoul's value when `*end` is the NUL, else None where the program exits |
| Resolver.GetGpio | az5.c:176-190 | the table loop and the number parse give the token's resolution: the first matching entry's number, else strtoul's value when it consumed the whole token, else failure |
| Resolver.ResolveName | az5.c:181-183 | a name in the table resolves to the number of its first entry, whatever strtoul would read |
| Resolver.ResolveNumber | az5.c:184-189 | a token that is no name resolves exactly when strtoul consumes all of it, and then to strtoul's value |
| Resolver.NamesStartWithLetters | az5.c:34-54 | every name in either generation's table is non-empty and starts with a letter |
| Resolver.ResolveNumerals | az5.c:181-189 | with either table, the decimal, "0x" hexadecimal and "0" octal forms of every 32-bit value resolve to it |
| Resolver.UnknownTokenFails | az5.c:184-188 | "FOO" is neither a name nor a number in either table, so `get_gpio` exits |
| Resolver.LeadingZeroIsOctal | az5.c:184 | "010" is read in octal and resolves to GPIO 8 |
| Resolver.OctalStopsAtEight | az5.c:184-188 | "08" stops at the '8' (not an octal digit) and is rejected |
| Resolver.EmptyTokenIsZero | az5.c:184-189 | the empty token converts nothing, leaves `end` on the terminating NUL, and so resolves to GPIO 0 |
| Sampling.ReadVector | az5.c:97-107 | the vector one scan yields, or None when some line's read fails |
| Sampling.GpioRead | az5.c:86-108 | reads the lines in index order and returns the vector of the scan. On the first negative value it stops with no vector, having read exactly that many lines, all earlier ones successfully |
| Sampling.ReadVectorBits | az5.c:97-107 | a readable scan yields a vector below 2^n whose bit i is the value of line i |
| Sampling.ReadAllUp | az5.c:113-121 | a scan reads as `(1 << n) - 1` exactly when every line reads 1 |
| Episode.Poll | az5.c:116-129 | the sampling loop of `update` from some sample on, given whether the while-on command already ran: its actions and how it ends |
| Episode.Update | az5.c:111-130 | one call of `update`: the sampling loop with `was_on` false |
| Episode.PollClears | az5.c:116-129 | when scan k is the first to read all normal, `update` ends Clear. Each of the k earlier scans gets exactly its `AZ5_ACTIVE` setting and while-on command, in order. The off command runs once, last, exactly when the while-on command ran, so a first sample that reads all normal runs nothing |
| Episode.PollFails | az5.c:116-127 | a failed read after k busy scans ends with exit(1) after those scans' 2k actions, without the off command |
| Episode.PollOpen | az5.c:116-127 | while no scan reads all normal, every scan gets its two actions and the off command never runs |
| Episode.ClearOnlyOnAllUp | az5.c:113-121 | `update` ends Clear exactly when some scan reads `(1 << n) - 1` after readable, not-all-normal scans; no other value ends its loop |
| Episode.PublishedMask | az5.c:118-123 | every published mask is non-zero, has bit i set exactly when line i reads 0, and its decimal form fits the 11-byte buffer |
| Episode.QuietEdge | az5.c:116-129 | an edge after which both lines already read 1 runs no command at all |
| Episode.AlarmThenClear | az5.c:116-129 | with line 0 asserted for two samples, `AZ5_ACTIVE=1` precedes each of two while-on runs, then the off command runs once |
| Events.Pending | az5.c:151-162 | the lines found are exactly the monitored indices whose line is in the event set, each once, in increasing order |
| Events.Acknowledge | az5.c:150-168 | without a failure, exactly the pending lines have their events read, all successfully. On a failure, the reads stop at the first pending line whose read fails, after reading the pending lines before it |
| Events.NoPending | az5.c:161-170 | no line is found exactly when no monitored line is in the event set |
| Events.Wakeup | az5.c:141-171 | one pass of the event loop: exit on a failed wait, skip a zero result, exit on a failed event read, skip when no monitored line was reported, else `update` |
| Events.DispatchedIffPending | az5.c:142-171 | `update` runs exactly when the wait result is positive, some monitored line was reported, and every reported line's event was read; its actions are then the wakeup's actions |
| Events.QuietWakeups | az5.c:142-170 | a zero result, or an event set with no monitored line, does nothing; a failed wait or event read exits with status 1 and does nothing else |
| CommandLine.SelectGeneration | az5.c:193-203 | unset BOARD_GENERATION is fatal; "2" selects the second table and every other value the first |
| CommandLine.ApplyOptions | az5.c:239-251 | the getopt loop: `-g 1` and `-g 2` select a table, anything else is the usage error |
| CommandLine.LastOptionWins | az5.c:239-251 | the options are accepted exactly when each is `-g 1` or `-g 2`; then the last one decides the table, and without options the environment's choice stands |
| CommandLine.SplitArgsAsWritten | az5.c:252-255 | as written, any three or more positional arguments are accepted; all but the last two are GPIO tokens and the last two are the commands |
| CommandLine.SplitArgs | az5.c:252-266 | accepts between 3 and MaxLines + 2 positional arguments; all but the last two are GPIO tokens (between 1 and MaxLines of them), the last two are the while-on and off commands |
| CommandLine.SplitRoundTrip | az5.c:252-266 | splitting the arguments of an invocation gives that invocation back |
| CommandLine.WideAllUpIsZero | az5.c:113 | with 32 GPIO tokens the program as written starts, its all-normal reference is 0 under x86 shift semantics, and the all-normal scan reads 0xFFFFFFFF, which differs from it, so the test at which `update` leaves its loop fails on that scan; the scan with every line at 0 reads 0 and passes it. The corrected split rejects the call |
| CommandLine.AcceptedWidthFits | az5.c:113 | for every accepted argument count, `(1 << n) - 1` fits a 32-bit `int` and equals the vector of the all-normal scan |
| CommandLine.ResolveAll | az5.c:262-263 | the tokens all resolve exactly when start-up goes on, and then line i is token i's resolution |
| CommandLine.Start | az5.c:232-268 | how `main` ends before the event loop, checking in the program's order: generation, options, argument count, each token, line request |
| CommandLine.StartedConfig | az5.c:252-266 | a started monitor has 1 to MaxLines lines, one per GPIO token in order, each the token's resolution in the selected table; the last two arguments are its commands |
| CommandLine.GenerationRequired | az5.c:238-247 | BOARD_GENERATION is checked before the options, so leaving it unset is fatal even with `-g` |
| CommandLine.OptionOverridesEnvironment | az5.c:238-247 | BOARD_GENERATION=2 with `-g 1` resolves USER through the first table, to GPIO 14 |
| CommandLine.TooFewArguments | az5.c:252-253 | with valid generation and options, fewer than three positional arguments print the usage |
| CommandLine.UnresolvedTokenIsFatal | az5.c:262-263 | once the table and the argument count are settled, any GPIO token that does not resolve ends start-up fatally, whether or not the lines could be requested |
| CommandLine.UnknownGpioIsFatal | az5.c:262-268 | with BOARD_GENERATION=1 and the GPIO token "FOO", start-up is fatal whether or not the lines could be requested |
| Az5.Monitor.constructor | az5.c:56-61 | the static initialisation selects the first generation's table, with no lines and nothing done |
| Az5.Monitor.ParseOptions | az5.c:239-251 | the getopt loop updates the table as the option semantics say, and fails exactly where they give a usage error |
| Az5.Monitor.ResolveLines | az5.c:255-263 | sets `n_lines`, fills a fresh line array with each token's resolution, in order, and fails exactly when some token does not resolve |
| Az5.Monitor.Configure | az5.c:232-268 | start-up ends as the start-up semantics say: a started monitor's globals describe exactly the resulting configuration (the table the generation and options select, the resolved lines in order, the two commands) with nothing logged, and any other ending logs exit(1) |
| Az5.Monitor.Update | az5.c:111-130 | the sampling loop appends exactly the actions of `update` on the trace to the log, and ends with its status |
| Az5.Monitor.Wakeup | az5.c:141-171 | one pass of the event loop appends exactly the wakeup's actions to the log and ends as the wakeup semantics say |

## Left out

- The GPIO driver (`setup_gpio`, `gpiod_line_get_value`, `gpiod_line_event_wait_bulk`, `gpiod_line_event_read`) is not modelled. Its results are inputs: samples, a wait result and event set, per-line read success, and one boolean for the line request.
- Line handles are compared by the line's number. The driver hands out one handle per line of the chip, so `line == bulk->lines[i]` holds exactly when the numbers are equal.
- The effects of `system()` and `setenv()` are not modelled; the calls are recorded in the action log. Their results are ignored by the program, apart from a `perror` when `setenv` fails, which is not modelled.
- Messages on stderr, the usage text and its line wrapping are not modelled. A usage error is recorded as the `Usage` ending with exit(1).
- getopt is reduced to the sequence of options it returns: `-g` with its argument, or anything else. The positional arguments are what follows the options. getopt's reordering of argv is not modelled.
- A `malloc` failure of the line array is not modelled: Dafny's allocation cannot fail.
- The event loop runs forever. The model covers one pass of it (`Events.Wakeup`, `Az5.Monitor.Wakeup`).
- The sampling loop of `update` can run forever while a line stays asserted. It is modelled over a finite trace of samples. When the trace runs out with a line still asserted, the episode ends with the status `Polling`.
- `unsigned long` is taken to be 32 bits wide, so the result of `strtoul` fits `unsigned n` unchanged. On a 64-bit `unsigned long`, values above 2^32 - 1 would be truncated by that assignment; this is not modelled.
- The chip handle that is opened and never released is not modelled.
- With 31 lines, `1 << 31` in `int` overflows, and `(1 << 31) - 1` overflows again (`INT_MIN - 1`). Both rely on the compiler's two's-complement wrapping. The model takes `all_up` as 2^31 - 1 (0x7FFFFFFF), which is what GCC produces.

## Findings

| source | as written | input that shows it | evidently intended | confidence | as-written member | corrected member |
|---|---|---|---|---|---|---|
| az5.c:113 | `n_lines = argc - optind - 2` (line 255) has no upper bound, and `all_up = (1 << n_lines) - 1` shifts a 32-bit `int` by `n_lines` | 32 GPIO tokens (34 positional arguments): the shift is undefined; on x86 the count is taken modulo 32, so `all_up` is 0, while the all-normal scan reads 0xFFFFFFFF: `update` never leaves its loop on an all-normal scan; it leaves it instead when every line reads 0 | the vector holds every accepted line; the model rejects more than 31 GPIO tokens with the usage error | not executed; the effect at 32 or more lines depends on the compiler and CPU | CommandLine.WideAllUpIsZero | CommandLine.SplitArgs |
