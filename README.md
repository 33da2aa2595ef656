# UXIBxx I/O board: a Dafny model

This project models the UXIBxx I/O board. The board is an AVR USB device with
numbered digital terminals, driven over a USB CDC serial line by a Python host
driver. The model covers both ends of the line protocol and the firmware
modules around it:

- **The firmware command front end** (`firmware/src/cmdproc.c`,
  `firmware/src/commands.c`).
  - Module `CmdProcSpec` states it as pure functions: `Accumulate`/`Feed` for
    the byte accumulator, `FindSpec` for the registry lookup, and `ParseArgs`
    and `Parse` for the parser.
  - Class `CmdProc.CommandProcessor` and the methods of module `CmdProc` work
    as the C does, in place on `char` arrays: NULs are written over
    operators and delimiters, and `strchr`, `strlen`, `strcpy` and `strncpy`
    are modelled in module `CStr`. Each method is proved equal to the pure
    specification.
  - Module `Commands` holds the five-entry command table (INP?, OUT?, OUT=,
    DIR?, DIR=).
- **Terminal I/O** (`firmware/src/gpio.c`, module `Gpio`).
  - The 14-entry terminal table.
  - The port registers, as bytes of eight bits.
  - Pure readers and writers, and class `GpioPorts`, whose
    read-modify-write methods are proved equal to those writers.
- **Status LEDs** (`firmware/src/statusleds.c`, module `StatusLeds`).
  - The heartbeat and "wink" state machine, as pure steps on `LedState`.
  - Class `StatusLedDriver`, whose methods are proved equal to those steps.
  - Tick differences are taken modulo 2^16. On the AVR `int` is 16 bits
    wide, so the `uint16_t` subtraction does not promote to a wider type.
- **Non-volatile parameters** (`firmware/src/nvparams.c`, module `NvParams`).
  - avr-libc's `_crc16_update` (reflected polynomial 0xA001), bit by bit, and
    `calculateCrc` as a loop proved equal to its fold.
  - The 19-byte record image, load / save / defaults over an EEPROM array,
    and the save-then-load round trip.
- **USB descriptors** (`firmware/src/usbcdc_descriptors.c`, module
  `UsbDescriptors`).
  - The serial-number string descriptor (`usbcdc__initSerialNo`), as a loop
    over a `bv16` array.
  - The Get Descriptor dispatch of section 9.4.3 of USB 2.0, including its
    switch fall-through (see Findings).
- **The host drivers** (`driver/uxibxx/_driver.py`, `driver/fbibxx.py`).
  - Module `DriverProtocol` gives each driver operation as a pure function
    on a `PortState`: the text written so far plus the queue of raw
    `readline()` results.
  - Classes `UxibxxDriver.UxibxxIoBoard` and `FbibxxDriver.FbibxxIoBoard`
    perform the same exchanges through `HostPort.SerialPort` and are proved
    equal to those functions.
  - Module `PyText` models the Python `str` operations the drivers use:
    `strip`, `split`, `join`, `rsplit`, `int()` and `str()` of integers.
- **Composition** (module `Composition`).
  - The exact text the driver writes, fed byte by byte through the
    firmware's accumulator, parses to the command the driver meant.
  - The identification queries the driver sends (`IDN?`, `TLS?`, `TCP:n?`)
    are not in the firmware's table, so the parser answers them with the CMD
    error.

Notes on the source as written:

- `sscanf("%u")` on the AVR accumulates the digits and stores them into a
  16-bit `unsigned int`. The model therefore takes the decimal value modulo
  2^16, negated modulo 2^16 after a `-` sign, after skipping leading C
  white space (`CmdProcSpec.ScanUnsigned`). A number followed by junk is
  accepted.
- A STRING token longer than 16 characters is rejected with ARG_FMT
  (`firmware/src/cmdproc.c:119-120`) before `parseArgVal`'s truncation is
  reached; a shorter STRING token is copied whole. The project's
  documentation describes long STRING tokens as truncated; the model
  follows the code.
- The documentation also describes `IDN?` as a registered query. The
  `commands.c` table has no IDN entry, so the model answers it with CMD
  (`Composition.BareQueryUnregistered`).
- `cmdproc.c` reads the registry as `cmdproc__commandSpecs`, while
  `commands.c` defines `cmdproc_commands`. The model passes the registry to
  the parser as a parameter and instantiates it with the `commands.c` table
  (`Commands.Table`).
- `cmdproc.h` does not declare the argument types, the argument value
  union or the error codes that `cmdproc.c` uses. They are taken from how
  `cmdproc.c` uses them, with an argument maximum of 16
  (`ARG_BUF_SIZE` 17).
- The heartbeat LED is PD5 of PORTD (`firmware/src/statusleds.c:5-7`),
  which is also the output bit of terminals 1-12
  (`firmware/src/gpio.c:19-30`). The two modules are modelled separately.

## Model

| member | source | states |
|---|---|---|
| CmdProcSpec.AccumulateKeepsInvariant | firmware/src/cmdproc.c:31-44 | one byte keeps the line within INPUT_BUF_SIZE-1 characters, NUL-free and free of ignored bytes |
| CmdProcSpec.AccumulateIgnores | firmware/src/cmdproc.c:32-33 | NUL, `\n`, `\t`, space, and any byte while a line is ready, leave the state unchanged |
| CmdProcSpec.AccumulateAppendsOrTerminates | firmware/src/cmdproc.c:34-43 | `\r` marks the line ready without changing it; another byte is appended below 32 characters and dropped at 32 |
| CmdProcSpec.FeedKeepsInvariant | firmware/src/cmdproc.c:31-44 | any byte stream keeps the accumulator invariant |
| CmdProcSpec.FeedWhileReady | firmware/src/cmdproc.c:32-33 | while a line is pending, every further byte is ignored |
| CmdProcSpec.FeedSplit | firmware/src/cmdproc.c:31-44 | feeding a + b is feeding a, then b |
| CmdProcSpec.FeedLine | firmware/src/cmdproc.c:34-43 | a short line of kept bytes followed by `\r` arrives whole and ready |
| CmdProc.CommandProcessor.constructor | firmware/src/cmdproc.c:19-23 | a fresh 33-byte buffer with an empty line, not ready |
| CmdProc.CommandProcessor.Init | firmware/src/cmdproc.c:26-29 | the line becomes empty and not ready |
| CmdProc.CommandProcessor.ProcessIncomingChar | firmware/src/cmdproc.c:31-44 | the buffer, count and flag take exactly the state `Accumulate` gives |
| CmdProc.CommandProcessor.HasCommandWaiting | firmware/src/cmdproc.c:46-48 | returns the ready flag |
| CmdProc.CommandProcessor.FindOperator | firmware/src/cmdproc.c:146-155 | the shape (`?` beats `=`, else Do) and the end of the left side, as `ShapeOf` and `LeftEnd` give them |
| CmdProc.CommandProcessor.SplitLine | firmware/src/cmdproc.c:146-161 | the left and right sides are copied into fresh NUL-terminated buffers |
| CmdProc.CommandProcessor.GetCommand | firmware/src/cmdproc.c:136-207 | the command is `Parse` of the pending line, the returned code is its parseError, and the accumulator is re-armed empty |
| CmdProc.SplitMnemonic | firmware/src/cmdproc.c:162-168 | the mnemonic ends at the first `:` of the left side; the left arguments follow it when present |
| CmdProc.ParseSides | firmware/src/cmdproc.c:162-201 | from the two side buffers the command equals `Parse(line, reg)` |
| CmdProc.ParseLists | firmware/src/cmdproc.c:177-201 | the left list's error wins over the right list's; with no errors both value lists are those of the specification |
| CmdProc.ArgListIn | firmware/src/cmdproc.c:178-200 | an absent list gives N_ARGS when arguments are declared; a present one is parsed as `ParseArgs` |
| CmdProc.GetCommandSpec | firmware/src/cmdproc.c:84-100 | returns the first index matching (strncmp 16, cmdType), else -1 with the last entry left in `*dest` |
| CmdProc.ParseArgsIn | firmware/src/cmdproc.c:102-134 | the pointer walk returns `ParseArgs`'s error, or fills the destination with its values |
| CmdProc.ParseArgsNext | firmware/src/cmdproc.c:109-130 | one loop round either returns the error `ParseArgs` ends in or keeps the loop invariant one token further |
| CmdProc.ParseArgsRound | firmware/src/cmdproc.c:112-126 | one token parsed and stored, or ARG_FMT for the whole list |
| CmdProc.TakeArg | firmware/src/cmdproc.c:112-125 | the token up to the next comma is cut and parsed as `ParseArgVal` |
| CmdProc.CutToken | firmware/src/cmdproc.c:112-118 | the comma is overwritten by NUL and the rest of the list follows it |
| CStr.StrChr | firmware/src/cmdproc.c:112 | returns the first occurrence of c, or the terminating NUL |
| CStr.StrLen | firmware/src/cmdproc.c:119 | returns the length up to the NUL |
| CStr.StrCpy | firmware/src/cmdproc.c:158-160 | copies the text and its NUL, leaving the rest of the destination |
| CStr.StrNCpyArg | firmware/src/cmdproc.c:121 | copies a short token and NUL-pads to 16, leaving the final byte |
| CmdProcSpec.Truncate | firmware/src/cmdproc.c:63-64 | a prefix of at most n characters, the whole text when it is short enough |
| CmdProcSpec.StrnEqShort | firmware/src/cmdproc.c:94 | for texts of at most 16 characters strncmp equality is equality |
| CmdProcSpec.SkipSpace | firmware/src/cmdproc.c:57 | a suffix starting at a non-space |
| CmdProcSpec.DigitRun | firmware/src/cmdproc.c:57 | the longest run of leading digits |
| CmdProcSpec.ScanLeadingDigits | firmware/src/cmdproc.c:57-59 | digits followed by junk scan to their decimal value modulo 2^16 |
| CmdProcSpec.ScanNeedsDigit | firmware/src/cmdproc.c:57-59 | a token without any digit fails to scan |
| CmdProcSpec.ParseArgVal | firmware/src/cmdproc.c:50-82 | a value has the requested type; STRING always succeeds truncated to 16; the signed types always fail |
| CmdProcSpec.ParseArgValNumeric | firmware/src/cmdproc.c:55-77 | UINT8 succeeds iff the scan succeeds with value at most 255; UINT16 iff the scan succeeds, with no range check |
| CmdProcSpec.ParseArgs | firmware/src/cmdproc.c:102-134 | success gives one value per declared type; failure is N_ARGS or ARG_FMT |
| CmdProcSpec.ParseArgsTyped | firmware/src/cmdproc.c:124 | every parsed value has its declared type |
| CmdProcSpec.Fields | firmware/src/cmdproc.c:109-129 | comma-free fields, none for an empty list |
| CmdProcSpec.ParseArgsStep | firmware/src/cmdproc.c:109-129 | one token: ARG_FMT if it does not parse, else its value before the rest |
| CmdProcSpec.ParseArgsByFields | firmware/src/cmdproc.c:102-134 | success iff the field count equals the type count and every field parses; the values are the fields' values |
| CmdProcSpec.ParseArgsCountMismatch | firmware/src/cmdproc.c:109-133 | parsable fields of the wrong count give N_ARGS |
| CmdProcSpec.ParseArgsBadField | firmware/src/cmdproc.c:119-125 | the first unparsable field gives ARG_FMT |
| CmdProcSpec.TrailingCommaIgnored | firmware/src/cmdproc.c:109-129 | one trailing comma does not change the result |
| CmdProcSpec.FindSpec | firmware/src/cmdproc.c:84-100 | the first matching index, or -1 exactly when nothing matches |
| CmdProcSpec.FindSpecUnique | firmware/src/cmdproc.c:87-99 | with distinct keys, the lookup finds the one matching entry whatever the order |
| CmdProcSpec.LeftEnd | firmware/src/cmdproc.c:146-155 | the left side ends at the first `?`, else the first `=`, else at the end of the line |
| CmdProcSpec.Parse | firmware/src/cmdproc.c:136-207 | the shape is the line's; a failed parse has no arguments; a good one names a registered spec and has its argument counts |
| CmdProcSpec.ParseTyped | firmware/src/cmdproc.c:177-201 | the arguments of a good parse have their declared types |
| CmdProcSpec.QueryBeatsSet | firmware/src/cmdproc.c:146-151 | a line with `?` anywhere is a Query whose left side ends at the first `?` |
| CmdProcSpec.ParseCmdError | firmware/src/cmdproc.c:169-175 | CMD iff the mnemonic is over 16 characters or unregistered for the shape |
| CmdProcSpec.ParseErrorPrecedence | firmware/src/cmdproc.c:177-201 | the left side's errors come before the right side's; missing lists give N_ARGS |
| Commands.TableFits | firmware/src/commands.c:12-55 | five entries, each with at most one left and one right argument |
| Commands.TableKeysDistinct | firmware/src/commands.c:12-55 | the (mnemonic, type) keys are pairwise distinct |
| Commands.TableArgumentContracts | firmware/src/commands.c:17-53 | one UINT8 left argument each; queries take no right argument, sets one UINT8 |
| Commands.TableLookupIsUnique | firmware/src/commands.c:12-55 | lookup returns the one matching entry |
| Commands.TableKeys | firmware/src/commands.c:4-55 | the registered keys are exactly INP?, OUT?, OUT=, DIR?, DIR= |
| Gpio.TableBitsInRange | firmware/src/gpio.c:18-33 | every terminal's bit is below 8 |
| Gpio.TableRoles | firmware/src/gpio.c:18-33 | every terminal has a direction and an output register, and an input register only PINB |
| Gpio.FindTerminal | firmware/src/gpio.c:38-44 | the first entry with the number, or none |
| Gpio.GetTerminalNumbers | firmware/src/gpio.c:18-44 | terminals 1-14 exist, at index number - 1 |
| Gpio.OutputOnlyTerminalsShareBit | firmware/src/gpio.c:19-30 | terminals 1-12 all drive the same output bit |
| Gpio.PortDEntries | firmware/src/gpio.c:19-30 | terminals 1-12 are PORTD bit PD5 with no input register |
| Gpio.OutputOnlyTerminals | firmware/src/gpio.c:19-30 | terminals 1-12 exist, have an output and no input |
| Gpio.TestBit | firmware/src/gpio.c:66-77 | 1 iff the bit is set, else 0 |
| Gpio.Input | firmware/src/gpio.c:75-86 | -1 exactly for an unknown terminal or a missing input register, else the bit |
| Gpio.Output | firmware/src/gpio.c:88-95 | -1 exactly for an unknown terminal or a missing output register, else the bit |
| Gpio.Direction | firmware/src/gpio.c:122-129 | -1 exactly for an unknown terminal or a missing direction register, else the bit |
| Gpio.WriteOutput | firmware/src/gpio.c:97-106 | fails exactly where reading the output fails; otherwise the output then reads !!on |
| Gpio.WriteOutputEffect | firmware/src/gpio.c:97-106 | every terminal sharing the bit reads !!on, every other terminal's output is unchanged, and inputs and directions are unchanged |
| Gpio.WriteDirection | firmware/src/gpio.c:108-120 | fails for an unknown terminal, no direction register, OUT without output, IN without input; otherwise the direction reads back |
| Gpio.WriteDirectionKeeps | firmware/src/gpio.c:108-120 | outputs and inputs are unchanged |
| Gpio.SetIoRegBitExact | firmware/src/gpio.c:46-53 | exactly the named bit of the named register changes |
| Gpio.InitEntryEffect | firmware/src/gpio.c:55-64 | the effect of one table entry on the registers |
| Gpio.InitFromEffect | firmware/src/gpio.c:55-64 | the loop from entry i has the closed-form effect |
| Gpio.InitDefaults | firmware/src/gpio.c:55-64 | after init each terminal has its initial direction and output; inputs are unchanged |
| Gpio.InitIdempotent | firmware/src/gpio.c:55-64 | init twice is init once |
| Gpio.GpioPorts.constructor | firmware/src/gpio.c:18-33 | the registers start as given |
| Gpio.GpioPorts.SetIoRegBit | firmware/src/gpio.c:46-53 | the register file with the one bit set to on != 0 |
| Gpio.GpioPorts.SetOutput | firmware/src/gpio.c:97-106 | -1 with no change, or 0 with the registers `WriteOutput` gives |
| Gpio.GpioPorts.SetDirection | firmware/src/gpio.c:108-120 | -1 with no change, or 0 with the registers `WriteDirection` gives |
| Gpio.GpioPorts.Init | firmware/src/gpio.c:55-64 | the registers become the closed-form init effect |
| StatusLeds.Elapsed | firmware/src/statusleds.c:86-97 | the uint16_t difference: now - earlier, plus 2^16 when it wraps |
| StatusLeds.ElapsedIsModular | firmware/src/statusleds.c:86-97 | the difference is (now - earlier) mod 2^16 |
| StatusLeds.InitStep | firmware/src/statusleds.c:54-66 | both LEDs off and driven, flags and lastHbtChangeTick cleared, wink idle |
| StatusLeds.SetHbtLedStep | firmware/src/statusleds.c:68-70 | the heartbeat LED is lit iff on != 0 (active low); nothing else changes |
| StatusLeds.SetUsbLedStep | firmware/src/statusleds.c:72-75 | usbLedSetting is !!on and the USB LED is lit iff on != 0; nothing else changes |
| StatusLeds.WinkStep | firmware/src/statusleds.c:77-79 | only startWink is set |
| StatusLeds.HeartbeatTick | firmware/src/statusleds.c:83-89 | only hbt and lastHbtChangeTick can change |
| StatusLeds.WinkTick | firmware/src/statusleds.c:90-106 | keeps the invariant (cooldown implies winking); heartbeat state untouched |
| StatusLeds.TickStep | firmware/src/statusleds.c:81-107 | keeps the invariant and records the tick |
| StatusLeds.TaskStep | firmware/src/statusleds.c:109-121 | keeps the invariant |
| StatusLeds.ApiKeepsInv | firmware/src/statusleds.c:68-79 | the three API calls keep the invariant |
| StatusLeds.TickHeartbeat | firmware/src/statusleds.c:83-89 | hbtAck clears hbt; else at 500 ms elapsed (mod 2^16) hbt is set and the tick recorded; else nothing |
| StatusLeds.TickWinkPhase | firmware/src/statusleds.c:90-106 | idle to dark on request (LED off, start recorded); dark to cooldown at 60 ms (LED restored); cooldown to idle at 100 ms |
| StatusLeds.TaskTogglesOnce | firmware/src/statusleds.c:110-117 | a fresh hbt toggles the LED once and sets hbtAck; a second task call does not toggle again |
| StatusLeds.TaskHandshake | firmware/src/statusleds.c:110-121 | hbtAck clears only after hbt is clear; startWink clears only once winking |
| StatusLeds.TasksKeepWinkRequest | firmware/src/statusleds.c:118-121 | any number of task calls keep a pending wink request |
| StatusLeds.WinkNotDropped | firmware/src/statusleds.c:102-121 | a request pending while the LED is idle survives any number of task calls, and the next tick starts the wink |
| StatusLeds.WinkRequestMerged | firmware/src/statusleds.c:90-121 | a request made while a wink runs is cleared by the next task call with the phase unchanged; when that wink ends the LED goes idle with no request, so no second wink starts |
| StatusLeds.CooldownEnds | firmware/src/statusleds.c:90-95 | a tick 100 ms after the start of a wink in cooldown returns the LED to idle, keeping the invariant |
| StatusLeds.StatusLedDriver.constructor | firmware/src/statusleds.c:17-29 | all state zero |
| StatusLeds.StatusLedDriver.Init | firmware/src/statusleds.c:54-66 | the state `InitStep` gives |
| StatusLeds.StatusLedDriver.SetHbtLed | firmware/src/statusleds.c:68-70 | the state `SetHbtLedStep` gives |
| StatusLeds.StatusLedDriver.SetUsbLed | firmware/src/statusleds.c:72-75 | the state `SetUsbLedStep` gives |
| StatusLeds.StatusLedDriver.WinkUsbLed | firmware/src/statusleds.c:77-79 | the state `WinkStep` gives |
| StatusLeds.StatusLedDriver.OnMsTick | firmware/src/statusleds.c:81-107 | the state `TickStep` gives |
| StatusLeds.StatusLedDriver.HeartbeatOnTick | firmware/src/statusleds.c:83-89 | the state `HeartbeatTick` gives |
| StatusLeds.StatusLedDriver.WinkOnTick | firmware/src/statusleds.c:90-106 | the state `WinkTick` gives |
| StatusLeds.StatusLedDriver.Task | firmware/src/statusleds.c:109-121 | the state `TaskStep` gives |
| NvParams.CalculateCrc | firmware/src/nvparams.c:14-19 | the loop computes the fold of `_crc16_update` from 0xFFFF over the first n bytes |
| NvParams.CrcFromAppend | firmware/src/nvparams.c:14-19 | the CRC of a + b continues from the CRC of a |
| NvParams.CrcFromInjective | firmware/src/nvparams.c:14-19 | over the same bytes, different start values give different CRCs |
| NvParams.SingleByteErrorDetected | firmware/src/nvparams.c:29 | changing one byte changes the CRC |
| NvParams.CrcCheckValue | firmware/src/nvparams.c:14-19 | the CRC of "123456789" is 0x4B37 (CRC-16/MODBUS) |
| NvParams.ImageRoundTrip | firmware/src/nvparams.c:28-43 | record and 19-byte image convert both ways without loss |
| NvParams.WordBytes | firmware/src/nvparams.c:28-43 | a 16-bit word survives its little-endian bytes |
| NvParams.BytesWord | firmware/src/nvparams.c:28-43 | two bytes survive the word they form |
| NvParams.LoadImage | firmware/src/nvparams.c:26-33 | accepted iff the stored CRC matches the CRC of the first 17 bytes; then the record is the image |
| NvParams.SaveLoadRoundTrip | firmware/src/nvparams.c:26-44 | loading a saved record gives it back |
| NvParams.CorruptIdRefused | firmware/src/nvparams.c:29-30 | a saved image with one ID byte changed is refused |
| NvParams.StrNCpy | firmware/src/nvparams.c:22 | the first n bytes are the source, zero-padded; later bytes are untouched |
| NvParams.DefaultsIdShape | firmware/src/nvparams.c:21-24 | the ID is at most 15 default bytes, zero-filled to byte 16; byte 16 and the CRC are untouched |
| NvParams.NvRecord.constructor | firmware/src/nvparams.c:21-44 | the record starts as given |
| NvParams.LoadDefaults | firmware/src/nvparams.c:21-24 | the record becomes `DefaultsInto` of the old one |
| NvParams.Load | firmware/src/nvparams.c:26-33 | -1 with the record untouched when the CRC fails, else 0 with the loaded record |
| NvParams.Init | firmware/src/nvparams.c:35-38 | the stored record when it validates, else the defaults |
| NvParams.Save | firmware/src/nvparams.c:40-44 | only the CRC changes, to the CRC of the ID bytes; the EEPROM holds the record's image and nothing else changes |
| UsbDescriptors.Widen | firmware/src/usbcdc_descriptors.c:164 | a char widened to uint16_t: ASCII unchanged, high bytes sign-extended |
| UsbDescriptors.SerialLen | firmware/src/usbcdc_descriptors.c:160-162 | min(strlen, 16) |
| UsbDescriptors.SerialUnitsAfterInit | firmware/src/usbcdc_descriptors.c:163-164 | the first strLen units are the widened characters; the rest keep their old values |
| UsbDescriptors.SerialLengthField | firmware/src/usbcdc_descriptors.c:165 | bLength = 2 + 2 * strLen, even, at most 34, and gives back strLen |
| UsbDescriptors.SerialFromPowerOn | firmware/src/usbcdc_descriptors.c:157-166 | from the zeroed descriptor, ASCII IDs give their code units and the tail stays zero |
| UsbDescriptors.SerialDescriptor.constructor | firmware/src/usbcdc_descriptors.c:25 | a zeroed 17-unit descriptor of size 0 |
| UsbDescriptors.SerialDescriptor.InitSerialNo | firmware/src/usbcdc_descriptors.c:157-166 | the units `SerialUnitsAfterInit` gives, and the size field USB_STRING_LEN(strLen) |
| UsbDescriptors.GetDescriptorByType | firmware/src/usbcdc_descriptors.c:169-207 | wIndex is ignored; the device type gives 18 bytes from flash, configuration the config descriptor, other types NO_DESCRIPTOR |
| UsbDescriptors.GetDescriptorStrings | firmware/src/usbcdc_descriptors.c:182-204 | string indices 0-3 give language, manufacturer, product (flash) and serial (RAM); higher indices give the configuration descriptor |
| UsbDescriptors.StringIndexFallsThrough | firmware/src/usbcdc_descriptors.c:183-204 | string index 4 answers with the configuration descriptor, where the intended dispatch answers nothing |
| UsbDescriptors.IntendedAnswersStringsWithStrings | firmware/src/usbcdc_descriptors.c:177-207 | the corrected dispatch answers a string request only with a string descriptor or nothing, and agrees with the original everywhere else |
| HostPort.SerialPort.constructor | driver/uxibxx/_driver.py:47-49 | nothing written yet; the given replies queued |
| HostPort.SerialPort.Write | driver/uxibxx/_driver.py:186-197 | the text is appended to the written log |
| HostPort.SerialPort.ReadLine | driver/uxibxx/_driver.py:178 | returns the next queued reply, or "" when none is left, and consumes it |
| PyText.StripLeftSpaces | driver/uxibxx/_driver.py:181 | lstrip removes exactly the leading white space |
| PyText.StripRightSpaces | driver/uxibxx/_driver.py:181 | rstrip removes exactly the trailing white space |
| PyText.StripSlice | driver/uxibxx/_driver.py:181 | strip is a slice whose ends are not white space |
| PyText.StripFixed | driver/uxibxx/_driver.py:181 | text without outer white space is its own strip |
| PyText.StripIdempotent | driver/uxibxx/_driver.py:181 | strip twice is strip once |
| PyText.AfterLastSplits | driver/uxibxx/_driver.py:191 | rsplit("=", 1)[-1] is the text after the last `=`, the whole text without one |
| PyText.IndexOfFirst | driver/uxibxx/_driver.py:51 | the first occurrence of the separator |
| PyText.SplitPieces | driver/uxibxx/_driver.py:170 | no piece contains the separator |
| PyText.SplitJoin | driver/uxibxx/_driver.py:170 | joining the pieces gives the text back |
| PyText.SplitCount | driver/uxibxx/_driver.py:170 | the pieces number one more than the separators |
| PyText.JoinSplit | driver/uxibxx/_driver.py:170 | separator-free pieces split back out of their join |
| PyText.NatTextDigits | driver/uxibxx/_driver.py:256 | str(n) is digits with no leading zero |
| PyText.NatTextValue | driver/uxibxx/_driver.py:256 | the digits of str(n) have value n |
| PyText.ParseIntText | driver/uxibxx/_driver.py:172 | int(str(n)) == n for every integer |
| PyText.ParseIntIgnoresSpace | driver/uxibxx/_driver.py:172 | int() ignores surrounding white space |
| DriverProtocol.ReadResponseOutcomes | driver/uxibxx/_driver.py:177-184 | one line consumed; ResponseTimeout iff no trailing newline, RemoteError on an "ERROR" prefix, else the stripped text |
| DriverProtocol.AskTraffic | driver/uxibxx/_driver.py:186-191 | writes exactly cmd + "?\r"; succeeds iff the reply has `=`, with the text after the last one; else BadResponse |
| DriverProtocol.AskWrites | driver/uxibxx/_driver.py:187-188 | the port after _ask is one write then one read |
| DriverProtocol.TellTraffic | driver/uxibxx/_driver.py:193-197 | writes exactly cmd + "\r"; succeeds iff the reply line is "OK" |
| DriverProtocol.AskErrors | driver/uxibxx/_driver.py:177-191 | _ask raises only ResponseTimeout, RemoteError or BadResponse |
| DriverProtocol.DictSetKeys | driver/uxibxx/_driver.py:65-67 | dict assignment adds a new key at the end and keeps an old key in place |
| DriverProtocol.DictSetLookup | driver/uxibxx/_driver.py:65-67 | after assignment the key maps to the new value, others unchanged |
| DriverProtocol.DictSetDistinct | driver/uxibxx/_driver.py:65-67 | assignment keeps the keys distinct |
| DriverProtocol.Keys | driver/uxibxx/_driver.py:333-339 | terminal_nos is every key, in order |
| DriverProtocol.Lookup | driver/uxibxx/_driver.py:199-218 | a terminal has no entry exactly when it is not a key |
| DriverProtocol.WithCapabilityFilters | driver/uxibxx/_driver.py:341-361 | input_nos / output_nos hold exactly the keys whose capabilities contain the letter, in key order |
| DriverProtocol.CheckOutcomes | driver/uxibxx/_driver.py:199-218 | InvalidTerminalNo for unknown terminals first, then Unsupported without "O", "I", or both |
| DriverProtocol.FailedCheckTouchesNothing | driver/uxibxx/_driver.py:220-316 | a failing check raises its error with the port untouched |
| DriverProtocol.SetOutputLine | driver/uxibxx/_driver.py:259-277 | writes "OUT:n=1" for truthy on and "OUT:n=0" otherwise, and succeeds iff the reply is "OK" |
| DriverProtocol.AnswerBoolOutcome | driver/uxibxx/_driver.py:241 | bool(int(answer)): fails on a non-integer, else true iff non-zero |
| DriverProtocol.GetOutputLine | driver/uxibxx/_driver.py:243-257 | after the check, asks "OUT:n" and converts the answer |
| DriverProtocol.GetInputLine | driver/uxibxx/_driver.py:220-241 | after the check, asks "INP:n" and converts the answer |
| DriverProtocol.DirectionCodesBijective | driver/uxibxx/_driver.py:31-34 | 0 and 1 are the only codes, mapped one to one onto INPUT and OUTPUT |
| DriverProtocol.GetDirectionResult | driver/uxibxx/_driver.py:279-295 | asks "DIR:n"; the direction whose code is the answer, else BadResponse |
| DriverProtocol.SetDirectionLine | driver/uxibxx/_driver.py:297-316 | an invalid direction raises ValueError before writing; else writes "DIR:n=0" or "DIR:n=1" |
| DriverProtocol.ParseAllMeaning | driver/uxibxx/_driver.py:171-174 | the list comprehension succeeds with each piece's int, or some piece is not an integer |
| DriverProtocol.ParseAllTexts | driver/uxibxx/_driver.py:172 | the decimal texts of numbers parse back to them |
| DriverProtocol.TermNosRoundTrip | driver/uxibxx/_driver.py:169-175 | a TLS answer that joins terminal numbers by commas parses back to those numbers |
| DriverProtocol.Texts | driver/uxibxx/_driver.py:66 | one decimal text per number |
| DriverProtocol.QueryCapabilitiesKeys | driver/uxibxx/_driver.py:65-67 | the capability dict's keys are distinct and are exactly the terminal numbers |
| DriverProtocol.QueryCapabilitiesErrors | driver/uxibxx/_driver.py:65-67 | the comprehension raises only what _ask raises |
| DriverProtocol.IdentifyFields | driver/uxibxx/_driver.py:51 | the IDN answer unpacks iff it has exactly one comma; model and ID are the two fields |
| DriverProtocol.CheckIdentityOrder | driver/uxibxx/_driver.py:52-63 | the model is checked before the ID; None skips a check; passing means both match |
| DriverProtocol.ConnectAfterIdentify | driver/uxibxx/_driver.py:51-67 | a failed identity check raises IdMismatch right after IDN; a passed one proceeds as with no expectations |
| DriverProtocol.ConnectNeverMismatches | driver/fbibxx.py:52-61 | without expectations, __init__ raises only exchange errors or the ValueError of a bad IDN answer |
| DriverProtocol.ConnectCapabilities | driver/uxibxx/_driver.py:64-67 | after __init__ the capability keys are exactly the TLS numbers |
| DriverSteps.ParsePieces | driver/uxibxx/_driver.py:171-174 | the loop computes `ParseAll` |
| DriverSteps.AnswerToBool | driver/uxibxx/_driver.py:241 | the conversion computes `AnswerBool` |
| UxibxxDriver.UxibxxIoBoard.Attach | driver/uxibxx/_driver.py:47-49 | bound to its port, nothing learned yet |
| UxibxxDriver.UxibxxIoBoard.Open | driver/uxibxx/_driver.py:36-67 | construction does the exchanges `Connect` describes and raises its error, or holds its identity and capabilities |
| UxibxxDriver.UxibxxIoBoard.Identify | driver/uxibxx/_driver.py:51 | the exchange `Identify` describes |
| UxibxxDriver.UxibxxIoBoard.GetTermNos | driver/uxibxx/_driver.py:169-175 | the exchange `TermNos` describes |
| UxibxxDriver.UxibxxIoBoard.QueryCapabilities | driver/uxibxx/_driver.py:65-67 | the exchanges `QueryCapabilities` describes |
| UxibxxDriver.UxibxxIoBoard.ReadResponse | driver/uxibxx/_driver.py:177-184 | the exchange `ReadResponse` describes |
| UxibxxDriver.UxibxxIoBoard.Ask | driver/uxibxx/_driver.py:186-191 | the exchange `Ask` describes |
| UxibxxDriver.UxibxxIoBoard.Tell | driver/uxibxx/_driver.py:193-197 | the exchange `Tell` describes |
| UxibxxDriver.UxibxxIoBoard.GetInput | driver/uxibxx/_driver.py:220-241 | the exchange `GetInput` describes |
| UxibxxDriver.UxibxxIoBoard.GetOutput | driver/uxibxx/_driver.py:243-257 | the exchange `GetOutput` describes |
| UxibxxDriver.UxibxxIoBoard.SetOutput | driver/uxibxx/_driver.py:259-277 | the exchange `SetOutput` describes |
| UxibxxDriver.UxibxxIoBoard.GetDirection | driver/uxibxx/_driver.py:279-295 | the exchange `GetDirection` describes |
| UxibxxDriver.UxibxxIoBoard.SetDirection | driver/uxibxx/_driver.py:297-316 | the exchange `SetDirection` describes |
| FbibxxDriver.FbibxxIoBoard.Attach | driver/fbibxx.py:54-56 | bound to its port, nothing learned yet |
| FbibxxDriver.FbibxxIoBoard.Open | driver/fbibxx.py:52-61 | the exchanges `Connect` describes with no expectations; never IdMismatch |
| FbibxxDriver.FbibxxIoBoard.Identify | driver/fbibxx.py:57 | the exchange `Identify` describes |
| FbibxxDriver.FbibxxIoBoard.GetTermNos | driver/fbibxx.py:68-74 | the exchange `TermNos` describes |
| FbibxxDriver.FbibxxIoBoard.QueryCapabilities | driver/fbibxx.py:59-61 | the exchanges `QueryCapabilities` describes |
| FbibxxDriver.FbibxxIoBoard.ReadResponse | driver/fbibxx.py:76-83 | the exchange `ReadResponse` describes |
| FbibxxDriver.FbibxxIoBoard.Ask | driver/fbibxx.py:85-90 | the exchange `Ask` describes |
| FbibxxDriver.FbibxxIoBoard.Tell | driver/fbibxx.py:92-96 | the exchange `Tell` describes |
| FbibxxDriver.FbibxxIoBoard.GetInput | driver/fbibxx.py:117-123 | the exchange `GetInput` describes |
| FbibxxDriver.FbibxxIoBoard.GetOutput | driver/fbibxx.py:125-128 | the exchange `GetOutput` describes |
| FbibxxDriver.FbibxxIoBoard.SetOutput | driver/fbibxx.py:130-132 | the exchange `SetOutput` describes |
| FbibxxDriver.FbibxxIoBoard.GetDirection | driver/fbibxx.py:134-142 | the exchange `GetDirection` describes |
| FbibxxDriver.FbibxxIoBoard.SetDirection | driver/fbibxx.py:144-151 | the exchange `SetDirection` describes |
| Composition.DecimalValueAgrees | firmware/src/cmdproc.c:57 | the firmware's decimal value of digits equals Python's |
| Composition.DecimalArg | firmware/src/cmdproc.c:102-134 | str(n) for n in 0..255 is a short digit token that parses as the UINT8 list [n] |
| Composition.DecimalScans | firmware/src/cmdproc.c:50-82 | str(n) for n in 0..255 parses as UINT8 n |
| Composition.DecimalText | firmware/src/cmdproc.c:32-162 | str(n) for n in 0..255 has no ignored, operator, colon or comma character |
| Composition.SingleArg | firmware/src/cmdproc.c:109-133 | a comma-free short token is a one-element list |
| Composition.LineParts | firmware/src/cmdproc.c:146-168 | "mnem:args" + op + right splits into that shape, mnemonic, arguments and right side |
| Composition.ParseAccepts | firmware/src/cmdproc.c:169-207 | a registered mnemonic with parsable sides gives the command with no error |
| Composition.DriverLineArrives | firmware/src/cmdproc.c:31-44 | a driver line followed by `\r` arrives whole in the accumulator |
| Composition.EntryLookup | firmware/src/commands.c:12-55 | where each registered key sits in the table and what it declares |
| Composition.UInt8LineAccepted | firmware/src/cmdproc.c:136-207 | "mnem:n" + op + right parses to the command with left [n] under any registry declaring one UINT8 |
| Composition.QueryLineParses | firmware/src/cmdproc.c:31-207 | "INP:n?", "OUT:n?", "DIR:n?" arrive whole and parse to the Query with left [n] |
| Composition.QueryLineCommand | firmware/src/cmdproc.c:136-207 | the same queries parse to the Query with left [n] |
| Composition.SetLineParses | firmware/src/cmdproc.c:31-207 | "OUT:n=v" and "DIR:n=v" arrive whole and parse to the Set with left [n] and right [v] |
| Composition.SetLineCommand | firmware/src/cmdproc.c:136-207 | the same lines parse to the Set with left [n] and right [v] |
| Composition.SetOutputWrites | driver/uxibxx/_driver.py:259-277 | set_output writes "OUT:" + str(n) + "=" + str(b) + "\r" with b = 1 for truthy on, else 0 |
| Composition.OnDigitIsText | driver/uxibxx/_driver.py:277 | int(bool(on)) rendered as text |
| Composition.SetOutputReachesFirmware | driver/uxibxx/_driver.py:259-277 | for n in 0..255 set_output's line arrives whole and parses to OUT/Set with left [n] and right [b] |
| Composition.UnregisteredIsCmd | firmware/src/cmdproc.c:169-175 | an unregistered mnemonic gives CMD |
| Composition.CapabilityQueryUnregistered | driver/uxibxx/_driver.py:66 | "TCP:n?" parses to CMD under the commands.c table |
| Composition.BareQueryUnregistered | firmware/src/commands.c:12-55 | "IDN?" and "TLS?" parse to CMD under the commands.c table |
| Composition.DoLinesUnregistered | firmware/src/commands.c:12-55 | every Do-shaped line parses to CMD |

## Left out

- I/O hardware: AVR register addresses, `volatile`, flash (`memcpy_P`,
  `pgm_read_byte`, PROGMEM) and EEPROM access are plain reads and writes of
  the modelled stores. Registers are five 8-bit bytes (DDRB, PINB, PORTB,
  DDRD, PORTD); PINB is only read.
- Concurrency: the interrupt-driven `statusleds__onMsTick` and byte ingestion
  run as separate atomic steps; their interleaving with `statusleds__task`
  and `cmdproc__getCommand` is not modelled.
- The LUFA USB stack, endpoint setup, `firmware/src/usbcdc.c`,
  `firmware/src/mstick.c` and `firmware/src/main.c` are not part of this
  model. No command dispatcher or reply formatter exists in the source, so
  the firmware side stops at the parsed command.
- `board_info.h` is not part of this model: `DEFAULT_SERIALNO_STR` is a
  parameter of `NvParams.LoadDefaults`, `NvParams.Init` and
  `UsbDescriptors.SerialDescriptor.InitSerialNo`.
- The contents of the LUFA descriptor structures: their sizes are named
  constants (device 18, language 4, configuration 62) and the manufacturer,
  product and serial sizes are parameters.
- The Python drivers' OS and serial plumbing: `list_connected_devices`,
  `_select_and_open`, `open_first_device`, `from_board_id`,
  `from_serial_portname`, the serial timeout setting, ASCII encoding and
  decoding errors, and the fbibxx.py `__main__` demo loop.
- HostPort.SerialPort: the serial port is a log of written text plus a
  queue of raw reply lines; an empty queue reads as "", which is how a
  timed-out `readline()` looks to the driver.
- DriverProtocol.TermNos: BadResponse carries the TLS answer text rather
  than the list of its comma pieces.
- DriverProtocol.CheckOutcomes: Unsupported carries the terminal number
  rather than the message text; exception message texts are not modelled.
- CmdProcSpec.Parse: on a parse error the argument lists are empty, where
  the C leaves `dest->leftArgs`/`rightArgs` partly written; the mnemonic
  is empty when it is too long, as the C does not copy it then.
- CmdProcSpec.ScanUnsigned: digit strings beyond `unsigned long` range are
  undefined behaviour in C; the model reduces every value modulo 2^16.
- StatusLeds.WinkNotDropped: stated for task calls between two ticks; the
  interleaving with interrupts inside a call is not modelled.
- CmdProc.CommandProcessor.GetCommand: requires a ready line. The C has no
  such guard; called with no line pending it would search stale bytes past
  `inputNBytes`, and that call is not modelled.

## Findings

| source | as written | input that shows it | evidently intended | confidence | as-written member | corrected member |
|---|---|---|---|---|---|---|
| firmware/src/usbcdc_descriptors.c:183-204 | the inner string-index switch has no default and no break after it, so an unknown string index falls through into the Configuration case | GET_DESCRIPTOR with wValue 0x0304 (string descriptor, index 4) returns the 62-byte configuration descriptor | an unknown string index answers NO_DESCRIPTOR with a NULL address | not executed | UsbDescriptors.StringIndexFallsThrough | UsbDescriptors.IntendedAnswersStringsWithStrings |
