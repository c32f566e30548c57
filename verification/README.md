# Instrument scripts: decoders, splitters and option rules

A Dafny model of the pure logic inside three instrument scripts. Everything
around it is serial, USB or Modbus input and output.

- **`at-btmeter.py`** logs a Bluetooth/serial multimeter.
  - `DecodeBuffer` turns a block of meter bytes into a display line. It checks the one-based position tag in each byte's high nibble. It reads the mode, four seven-segment digits with their decimal points, and the flag nibbles from byte 9 on (five in a 14-byte frame). A `"*"` means a rejected block.
  - The read loop cuts the byte stream into blocks wherever more than 0.100 s pass between two reads.
  - The `-h`/`-i=`/`-f=` options choose the meter and the output file.
- **`at-rd6000.py`** drives an RD60xx bench supply.
  - `TokenSplit` cuts a command argument at commas. An opening bracket is both a cut and a token of its own. A closing bracket cuts before itself and starts the next token, so `]=3` stays whole.
  - The argument loop accepts options first, then command tokens of fixed shapes (`on`, `off`, `[`, `]=n`, `m=n`, `v=x`, `ovp=x`, …). At the end it checks that the `[` and `]=` group markers balance.
  - The constructor of `RD6006` derives the serial number, the model and the current resolution from four holding registers.
- **`at-u3.py`** samples a LabJack U3.
  - The option loop range-checks the input and loop counts and gives file names a default `.json`.
  - An optional JSON configuration names the channels and supplies their calibration. Missing keys get defaults.
  - The analog-input mask is split over the FIO and EIO ports.
  - The version byte selects the high-voltage calibration for the first four inputs.
  - Each reading is corrected by tare, scale and offset.

The model is built as follows:

- Every parser is a fold (`Basics.ApplyAll`) over the arguments. The result is `Outcome`: `Ok`, `Help`, `BadToken(token)` or `Failed(message)`. These match the script's `ShowHelp`, `ShowErrorToken` and `ShowError` exits.
- Python's `int()` and `float()` are a parameter, `NumberSyntax`. Every property holds for any conversion.
- Opening and parsing the configuration file is a parameter too: `load: string -> Option<Document>`.
- The meter's read loop is a fold over a trace of reads. Each read carries its completion time in integer microseconds and the bytes it returned.

Modules, one per file:

| module | file |
|---|---|
| `Basics` | `basics.dfy` |
| `MeterDecode` | `meter_decode.dfy` |
| `MeterFramer` | `meter_framer.dfy` |
| `MeterOptions` | `meter_options.dfy` |
| `SupplyTokens` | `supply_tokens.dfy` |
| `SupplyCommands` | `supply_commands.dfy` |
| `SupplyRegisters` | `supply_registers.dfy` |
| `AcqOptions` | `acq_options.dfy` |
| `AcqConfig` | `acq_config.dfy` |
| `AcqHardware` | `acq_hardware.dfy` |

Each operation is related to something independent of its own body:

- the decoder to an encoder (`Encode`) and a stateless rendering (`Render`);
- the framer to a specification of its blocks by the silences in the trace (`Closed`, `Open`);
- the token splitter to the input without commas;
- the option loops to "the last occurrence of each option wins";
- the register arithmetic to its inverse.

## Model

| member | source | states |
|---|---|---|
| MeterDecode.DecodeDigit | at-btmeter.py:199-220 | the result is `'#'` or a decimal digit, and a digit is returned only for the segment code of that digit |
| MeterDecode.DecodeSegmentCode | at-btmeter.py:199-220 | the segment code of every digit decodes back to that digit |
| MeterDecode.DecodeDigitExact | at-btmeter.py:199-220 | a code decodes to a digit iff it is one of the ten segment codes 0x7d, 0x05, 0x5b, 0x1f, 0x27, 0x3e, 0x7e, 0x15, 0x7f, 0x3f; distinct codes never give the same digit |
| MeterDecode.DotMask | at-btmeter.py:235-238 | the test `nibble & 0x08` and the clearing `nibble &= ~0x08` agree with "nibble at least 8" and "nibble mod 8" |
| MeterDecode.ClearDotBounds | at-btmeter.py:235-239 | clearing the point bit leaves a value below 8, and the nibble is that value plus 8 when the point is set |
| MeterDecode.DigitCode | at-btmeter.py:235-242 | the segment code assembled from a digit's two nibbles is always below 128 |
| MeterDecode.DecodeBuffer | at-btmeter.py:222-247 | the result is `"*"` iff some byte's high nibble minus one differs from its index; the empty buffer gives `""`; a valid non-empty buffer starts with `"Volts "` when byte 0's low nibble is 7 and with `"? "` otherwise |
| MeterDecode.LongBufferRejected | at-btmeter.py:222-226 | every buffer of 16 or more bytes is rejected with `"*"` |
| MeterDecode.Scan | at-btmeter.py:227-247 | the decoder's byte loop, carrying the script's `Digit` variable; its contract is `ScanIsRender` (next row): for every buffer it emits the stateless rendering |
| MeterDecode.ScanIsRender | at-btmeter.py:227-247 | the byte loop with its carried `Digit` variable emits, for every buffer, the concatenation of per-byte pieces in which each digit is decoded from its own two bytes |
| MeterDecode.DecodeIsRender | at-btmeter.py:222-247 | a positionally valid buffer decodes to that stateless rendering |
| MeterDecode.FieldsOfEncode | at-btmeter.py:227-247 | reading the mode, the four (point, code) digits and the five flags back from the frame built for them gives them again |
| MeterDecode.EncodeFieldsOf | at-btmeter.py:222-247 | every positionally valid 14-byte buffer is the frame of the fields read from it |
| MeterDecode.DecodeEncoded | at-btmeter.py:222-247 | decoding a frame gives the mode label, each digit preceded by `.` when its point is set, one space, and the five flags in lower-case hexadecimal |
| MeterDecode.DecodeFrame | at-btmeter.py:222-247 | every positionally valid 14-byte buffer decodes to the display of its fields |
| MeterDecode.ObservedFrameVolts0000 | at-btmeter.py:188 | the frame of the row `7 7d 7d 7d fd 08041` decodes to `"Volts 000.0 08041"` |
| MeterDecode.ObservedFrameOhms0000 | at-btmeter.py:189 | the frame of the row `3 7d 7d 7d fd 00401` decodes to `"? 000.0 00401"` |
| MeterDecode.ObservedFrameVolts548 | at-btmeter.py:190 | the bytes 0x17, 0x27, 0x3d, …, 0xe1 decode to `"Volts 05.48 00041"` |
| MeterDecode.ObservedFrameVolts389 | at-btmeter.py:191 | the frame of the row `7 7d 1f ff 3f 00041` decodes to `"Volts 03.89 00041"` |
| MeterDecode.ObservedFrameVolts390 | at-btmeter.py:192 | the frame of the row `7 7d 1f bf 7d 00041` decodes to `"Volts 03.90 00041"` |
| MeterDecode.ObservedFrameVolts376 | at-btmeter.py:193 | the frame of the row `7 7d 1f 95 7e 00041` decodes to `"Volts 03.76 00041"` |
| MeterDecode.ObservedFrameVolts2152 | at-btmeter.py:194 | the frame of the row `7 5b 85 3e 5b 00041` decodes to `"Volts 2.152 00041"` |
| MeterDecode.ObservedFrameVolts1924 | at-btmeter.py:195 | the frame of the row `7 05 bf 5b 27 00041` decodes to `"Volts 1.924 00041"` |
| MeterFramer.Step | at-btmeter.py:249-260 | one read closes the buffer iff it comes more than 100000 µs after the previous read and the buffer is non-empty; the closed buffer is appended unchanged; no earlier block changes; closed blocks plus the open buffer grow by exactly the bytes read |
| MeterFramer.Run | at-btmeter.py:249-260 | the read loop as a fold of `Step` over a trace; its contracts are `RunKeepsAllBytes`, `RunEmitsNonEmpty` and `RunSplitsAtSilences` below |
| MeterFramer.Printed | at-btmeter.py:255-257 | the printed lines are, in order, the decodings of the non-empty runs of bytes that a silence has closed, one line per run |
| MeterFramer.RunKeepsAllBytes | at-btmeter.py:249-260 | the closed blocks followed by the open buffer are all bytes read, in order |
| MeterFramer.RunEmitsNonEmpty | at-btmeter.py:255-258 | no empty block is ever handed to the decoder |
| MeterFramer.RunSplitsAtSilences | at-btmeter.py:249-260 | the closed blocks are exactly the non-empty runs of reads between two reads that followed a silence, and the open buffer is the run since the last silence |
| MeterFramer.NoSilenceNoFrames | at-btmeter.py:249-260 | a trace without a silence closes no block and keeps every byte in the buffer |
| MeterFramer.ThreeBlocks | at-btmeter.py:249-260 | a read 150 ms after the first closes the first read's bytes; a read 0.1 ms later joins the open buffer |
| MeterOptions.Option | at-btmeter.py:111-135 | an argument is taken iff it is `-i=` with an integer or `-f=` with a non-empty name; `-h` gives the help, anything else that token as error; `-i=` sets the index and `-f=` the name, with `.dat` added when it has no dot |
| MeterOptions.Parse | at-btmeter.py:111-135 | the argument loop as a fold of `Option` from the defaults; its contracts are `ParseAccepts`, `ParseStopsAtFirst` and `ParseLastWins` below |
| MeterOptions.ParseAccepts | at-btmeter.py:111-135 | a command line is taken iff every argument is |
| MeterOptions.ParseStopsAtFirst | at-btmeter.py:111-135 | a refused command line ends with the first refused argument |
| MeterOptions.OptionChosen | at-btmeter.py:118-131 | an accepted option moves the "last occurrence" settings of the earlier arguments to those of one argument more |
| MeterOptions.ParseLastWins | at-btmeter.py:107-135 | a taken command line sets the meter index and the file name from their last occurrences, keeps index 1 and `at-btmeter.dat` otherwise, and the file name always holds a dot |
| Basics.WithDefaultExtension | at-btmeter.py:125-129 | an empty name is refused; a name with a dot is kept; any other name is the name followed by the extension |
| Basics.DefaultExtensionHasDot | at-u3.py:139-156 | with an extension holding a dot, every accepted name ends up holding one |
| Basics.DefaultExtensionIdempotent | at-u3.py:139-147 | applying the rule to its own result changes nothing |
| Basics.HexDigit | at-btmeter.py:246 | `'%x'` of a nibble is a digit for values below 10 and a letter `a`–`f` otherwise, and reads back as the nibble |
| SupplyTokens.TokenSplit | at-rd6000.py:404-426 | the splitter; its contracts are `TokensWellFormed` and `TokensCoverInput` below, with `CommaSeparates`, `BracketSeparates`, `ClosingSeparates`, `ClosingPlain` and `PlainText` describing how it cuts |
| SupplyTokens.Feed | at-rd6000.py:408-423 | one turn of the character loop; its contract is `FeedKeeps`: tokens stay well formed, the pending text keeps no comma or `[`, and the joined text grows by the character unless it is a comma |
| SupplyTokens.RunInvariant | at-rd6000.py:404-426 | during the character loop the handed-out tokens are well formed, the pending text holds no comma or `[`, and tokens plus pending text are the input read so far without its commas |
| SupplyTokens.TokensWellFormed | at-rd6000.py:404-426 | every token is non-empty and is a lone `[` or text with no comma, no `[` and a `]` only at its head |
| SupplyTokens.TokensCoverInput | at-rd6000.py:404-426 | the tokens joined together are the input with its commas removed |
| SupplyTokens.CommaSeparates | at-rd6000.py:409-412 | splitting `a,b` gives the tokens of `a` followed by those of `b` |
| SupplyTokens.BracketSeparates | at-rd6000.py:413-417 | splitting `a[b` gives the tokens of `a`, then `"["`, then the tokens of `b` |
| SupplyTokens.PlainText | at-rd6000.py:422-425 | text without comma or brackets is one token, or none when it is empty |
| SupplyTokens.ClosingSeparates | at-rd6000.py:418-421 | splitting `a]b` gives the tokens of `a` followed by those of `]b`: a closing bracket cuts before itself |
| SupplyTokens.ClosingPlain | at-rd6000.py:418-425 | a closing bracket followed by text without comma or brackets is one token: nothing cuts after the bracket |
| SupplyTokens.ClosingExample | at-rd6000.py:418-421 | `c=1]=3` splits into `c=1` and `]=3`: a closing bracket starts a token |
| SupplyTokens.GroupExample | at-rd6000.py:404-426 | `[v=5,c=1]=3` splits into `[`, `v=5`, `c=1`, `]=3` |
| SupplyCommands.StartsWithAny | at-rd6000.py:392-398 | a token no longer than the prefix length is an error; otherwise the answer is true iff its head of that length is one of the prefixes |
| SupplyCommands.ValidInteger | at-rd6000.py:368-376 | the command is kept unchanged iff it is longer than the prefix and `int()` takes the rest; otherwise it is the error token |
| SupplyCommands.ValidFloat | at-rd6000.py:378-386 | the command is kept unchanged iff it is longer than the prefix and `float()` takes the rest; otherwise it is the error token |
| SupplyCommands.Command | at-rd6000.py:450-466 | a token is taken iff it is `on`, `off`, `[`, `]=`/`m=` with an integer, one of `s= c= c+ c- v= v+ v-` with a float, or `ovp=`/`ocp=` with a float; it is appended unchanged, `[` raises the depth and `]=` lowers it; any other token is the error |
| SupplyCommands.Argument | at-rd6000.py:436-466 | an argument is taken iff it is an option before any command that is `-i=` with an integer (which sets the index), or a non-option whose tokens are all commands (which are appended, moving the depth by their sum); `-h` before any command gives the help; any other option is that token as error; a refused non-option gives its first token that is not a command |
| SupplyCommands.TokensFirstBad | at-rd6000.py:450-466 | refused tokens end the loop with the first token that is not a command |
| SupplyCommands.TokensAccepted | at-rd6000.py:450-466 | the tokens of an argument are taken iff each one is a command token |
| SupplyCommands.TokensEffect | at-rd6000.py:450-466 | taken tokens are appended in order, and the depth moves by the number of `[` minus the number of `]=` |
| SupplyCommands.Loop | at-rd6000.py:435-466 | the argument loop before the balance check, as a fold of `Argument`; its contracts are `LoopAccepts`, `LoopCommands`, `LoopIndex`, `LoopTokensValid` and `LoopOptionsFirst` below |
| SupplyCommands.LoopAccepts | at-rd6000.py:435-466 | the argument loop completes iff every argument passes its check, given the commands before it: no `-h`, no option after a command, `-i=` only with an integer, only command tokens elsewhere |
| SupplyCommands.LoopCommands | at-rd6000.py:435-466 | a completed loop holds the tokens of every non-option argument in order, at the depth they sum to |
| SupplyCommands.LoopIndex | at-rd6000.py:440-446 | a completed loop holds the integer of the last `-i=` option, or 1 when there is none |
| SupplyCommands.LoopTokensValid | at-rd6000.py:450-466 | every command a completed loop holds is one of the accepted token shapes |
| SupplyCommands.LoopOptionsFirst | at-rd6000.py:436-438 | in a completed loop no option follows an argument that gave a command |
| SupplyCommands.ParseBalanced | at-rd6000.py:432-469 | an accepted command line holds exactly the tokens of its non-option arguments, all well formed, with options first and as many `[` as `]=` |
| SupplyCommands.Parse | at-rd6000.py:432-469 | a command line is taken iff every argument passes its check and the depth sums to zero; an otherwise acceptable line whose groups do not balance gets the mismatch message; a taken line holds exactly the tokens of its non-option arguments |
| SupplyCommands.DepthCounts | at-rd6000.py:453-458 | the depth is the number of `[` tokens less the number of `]=` tokens |
| SupplyCommands.ParseStopsAtFirst | at-rd6000.py:435-466 | a line whose first refused argument is number k ends with that argument's own outcome, computed after the arguments before it: the help or an error token, never the balance check |
| SupplyCommands.ParseMismatch | at-rd6000.py:468-469 | a completed loop is refused with the mismatch message iff the final count of `[` tokens differs from the count of `]=` tokens; intermediate depths are not checked |
| SupplyRegisters.Serial | at-rd6000.py:52 | `regs[1] << 16 \| regs[2]` is `regs[1] * 65536 + regs[2]` |
| SupplyRegisters.Model | at-rd6000.py:54 | the model number is the register divided by ten, rounded down |
| SupplyRegisters.Identify | at-rd6000.py:51-60 | serial, model, firmware register and voltage resolution 100; the current resolution is 100 iff the model is 6012 or 6018, and 1000 otherwise |
| SupplyRegisters.SerialRoundTrip | at-rd6000.py:52 | the serial number gives back its high register by division and its low register by remainder |
| SupplyRegisters.SerialInjective | at-rd6000.py:52 | two units with equal serial numbers have equal registers 1 and 2 |
| SupplyRegisters.AmpResolutionByRegister | at-rd6000.py:54-60 | the finer current resolution is chosen iff register 0 is in 60120–60129 or 60180–60189 |
| AcqOptions.Bounded | at-u3.py:118-138 | a count is taken iff `int()` reads it and it lies within the option's bounds, and then it is that integer |
| AcqOptions.Option | at-u3.py:114-160 | an argument is taken iff it is `-n=` with 1..12, `-l=` or `-t=` with an integer of at least 1, or `-c=`/`-o=` with a non-empty name; `-h` gives the help, anything else that token as error |
| AcqOptions.Parse | at-u3.py:114-160 | the option loop as a fold of `Option` from the defaults; its contracts are `ParseAccepts`, `ParseStopsAtFirst` and `ParseLastWins` below |
| AcqOptions.ParseAccepts | at-u3.py:114-160 | a command line is taken iff every argument is |
| AcqOptions.ParseStopsAtFirst | at-u3.py:114-160 | a refused command line ends with the first refused argument |
| AcqOptions.OptionInRange | at-u3.py:118-156 | an accepted option keeps the counts in range and both file names holding a dot |
| AcqOptions.OptionChosen | at-u3.py:114-160 | an accepted option moves the "last occurrence" settings of the earlier arguments to those of one argument more |
| AcqOptions.ParseLastWins | at-u3.py:114-160 | a taken command line sets every option from its last occurrence and keeps the defaults (4, 10, 100, no config, `at-u3-output.json`) otherwise; all settings are in range |
| AcqConfig.DefaultChannels | at-u3.py:212-217 | without listed channels there are `InputCount` channels named `input-i`, with tare 0, scale 1 and offset 0 (none for a count below one) |
| AcqConfig.Configure | at-u3.py:166-217 | without a config file the command-line settings are kept with default channels; every outcome is a setup or an error, with as many channels as the input count |
| AcqConfig.Merge | at-u3.py:171-208 | the settings after a loaded file's keys replace the command-line values; its contract is `ConfigureFromFile` (next row) |
| AcqConfig.ConfigureFromFile | at-u3.py:171-208 | a loaded file's listed channels keep their keys and default the missing ones; the input count becomes their number without a range check; `outputfile`, `loop.delay` and `loop.count` each replace the command-line value when present and leave it unchanged when absent, even when the `loop` section holds only the other key |
| AcqConfig.ConfigureFails | at-u3.py:171-210 | configuration fails iff the file does not load, its `channels` is malformed, or its `loop` is; each failure carries the script's message |
| AcqConfig.InputNamesDistinct | at-u3.py:214 | the default channel names of different inputs differ |
| AcqHardware.PortMasks | at-u3.py:247-249 | the FIO mask is below 256 and FIO + 256 × EIO is `2 ** n - 1` |
| AcqHardware.MaskBit | at-u3.py:247 | bit i of `2 ** n - 1` is set iff i < n |
| AcqHardware.PortMasksShape | at-u3.py:247-249 | up to eight inputs use FIO only (EIO 0); from eight on, FIO is 255 and EIO is `2 ** (n - 8) - 1` |
| AcqHardware.PortPins | at-u3.py:247-249 | FIO pin i is analog iff input i is scanned; for up to 16 inputs EIO pin i is analog iff input i + 8 is |
| AcqHardware.HighVoltageBits | at-u3.py:255-258 | the high-voltage test holds iff bits 1 and 4 of the version byte are both set |
| AcqHardware.Ranges | at-u3.py:267-271 | input i uses the low-voltage calibration iff the unit is not high-voltage or i ≥ 4 |
| AcqHardware.HighRangeCount | at-u3.py:267-271 | a high-voltage unit reads min(n, 4) inputs on the high range, any other unit none |
| AcqHardware.Correct | at-u3.py:273-275 | the tare/scale/offset correction of a calibrated reading; its contracts are `CorrectRoundTrip` and `DefaultChannelIdentity` below |
| AcqHardware.CorrectRoundTrip | at-u3.py:273-275 | with a non-zero scale, the tare/scale/offset correction is undone by its inverse, both ways round |
| AcqHardware.DefaultChannelIdentity | at-u3.py:273-275 | a default channel passes readings through unchanged |

## Left out

- Device input and output are not modelled. This covers:
  - serial and Bluetooth port enumeration and opening;
  - the Modbus reads and retries of the supply;
  - the LabJack `configIO`/`getFeedback`/`configU3` calls;
  - the JSON file reads and writes;
  - printing, the help text and process exit.
  The bytes the meter returns, the supply's four registers, the U3 version byte and the parsed configuration file are inputs of the model instead.
- Clocks are not modelled. `time.time()` becomes the tick of each read, in integer microseconds. The 0.100 s threshold becomes a strict comparison with 100000 ticks, so floating-point rounding of the time difference is not modelled. The meter loop's initial `Time0` is the parameter `t0`.
- The meter loop runs forever. The model covers every finite prefix of its trace. The file write after the loop is unreachable, and `OutputSet` is never filled, so neither is modelled.
- MeterOptions.Option: the "options must come before commands" branch tests a token list that this script never fills. It is unreachable and is not modelled.
- Python's `int()` and `float()` parsing is not modelled. It is the `NumberSyntax` parameter, so the properties hold for any conversion.
- Floating point:
  - SupplyRegisters.Identify keeps the firmware register raw, rather than the `regs[3] / 100` float the script shows.
  - AcqHardware.Correct computes on exact reals, so the correction is not rounded.
  - LabJack's `binaryToCalibratedAnalogVoltage` is not modelled. Its result is the input of `Correct`.
- SupplyRegisters.SerialInjective states equality of the register values as integers rather than as 16-bit words.
- AcqConfig.Configure models the file as JSON values of the types the script expects. The loading parameter reduces the file to the keys the script reads: a `channels` section that the loop over it fails on, and a `loop` section on which the `delay` or the `count` lookup fails. A `name`, `tare`, `scale`, `offset`, `outputfile`, `delay` or `count` of some other JSON type is not modelled. The script would store it unchecked.
- The sampling loop of the U3 script, its pacing by `time.sleep`, and its JSON output are not modelled.
- The supply's command execution is not modelled: ramps, delays and repeat groups. Neither is colon splitting, which its help text describes. The script only prints the parsed token list, and `TokenSplit` cuts at commas and brackets, never at colons.
- The last row of the meter's observed-frame table (`342.0 08041`) gives no segment codes, so it has no vector.

Where the code differs from its own comments, the model follows the code:

- The comment table of observed frames (at-btmeter.py:183-196) has a `units` column (`mv`, `Ohms`, `V`). The decoder never produces a unit: where the table shows one, it prints the five flag nibbles in hexadecimal.
- Any mode nibble other than 7 prints `? `. This includes the row the comment table labels `Ohms`.
- The comment at at-btmeter.py:183 calls the high nibble the index "1..14". The code checks `byte div 16 - 1 == index`, so a fifteenth byte with tag 15 is also accepted.
- A segment code outside the digit table shows as `#`.
- The configuration error message keeps the script's wording `has an an invalid`.
- A configuration file with an empty `channels` list gives zero inputs, because the input count becomes the list's length before the defaults are filled in.
