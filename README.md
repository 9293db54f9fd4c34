# ed-debby line editor core, in Dafny

A model of the in-memory part of a small `ed`-style line editor written in
Rust. It covers five things:

- **Line buffer.** An optional sequence of lines, an optional remembered
  file name and a current-line cursor. `save` first picks the target file,
  then writes each line followed by `\n`. `from_file` splits a file into
  lines. `char_length` counts bytes.
- **Addresses.** The address value (`.`, an absolute line number, `$`, or
  no address), its derived total order, and `Address::from_str`, including
  Rust's rules for parsing a `usize`.
- **The parser.** The parser module's private copy of `from_str`, and the
  behaviour its unit tests expect of the `address` rule, which takes only the leading
  address of a command line.
- **Command dispatch.** `command_runner` maps the verb `q` to Quit, `w` to
  save and continue, `wq` to save and quit if the save worked, and anything
  else to continue.
- **Editing and input.** Line-input mode collects lines until one whose
  trimmed text is `.`, or until the reader stops. The buffer's splice
  operations (`insert_into_buffer`, `append_into_buffer`, the `i` command)
  put a block of lines into the buffer and move the cursor.

The modules follow the source files:

| file | module | source |
|---|---|---|
| wrappers.dfy | `Wrappers` | `Option` and `Result` |
| text.dfy | `Text` | Rust's `str::len` (UTF-8 bytes) and `str::trim` (Unicode White_Space) |
| command_structs.dfy | `CommandStructs` | src/command_structs.rs |
| ed_command_parser.dfy | `EdCommandParser` | src/ed_command_parser.rs |
| line_array_buffer.dfy | `LineArrayBuffer` | src/buffer/line_array_buffer.rs |
| input_mode.dfy | `InputMode` | src/input_mode.rs |
| ed_commands.dfy | `EdCommands` | src/ed_commands.rs |
| modify.dfy | `Modify` | src/modify.rs |

How the model stands in for things the editor does not compute itself:

- **The buffer.** `LineBuffer` is a class, and its methods change its
  fields, as the Rust methods change `&mut self`. Its fields as a value
  (`BufferView`) are what the pure specifications (`SaveOutcome`, `Run`,
  `Spliced`) talk about.
- **Address resolution.** `address_to_index` is called by src/modify.rs
  but is defined in no file of this model. The splice operations take it
  as a parameter: any function from an address and the buffer's fields to
  an index. The tests fix three of its values, and `Modify.FitsTests`
  states exactly those. They are required only by the methods that replay
  the tests.
- **Files.** A file is its text. `from_file` receives that text. `save`
  returns the text it would write, as a `SavedFile`. Whether the operating
  system lets `File::create` open the target is a boolean parameter.
- **The line reader.** The interactive reader is the sequence of results
  its `readline` calls return: a line, an interrupt, end of input, or
  another error. Running out of results counts as end of input.
- **`usize`.** It is taken to be 64 bits wide.
- **`test_files/one.txt`.** The file is not part of this model. Its lines
  are taken to be `one`, `two`, `three`, `four`, `five`. The tests fix only
  the first, second and last of them, the count of five, and the byte count
  of 24; the two middle lines are inferred to fit those.

Behaviour of the code worth knowing:

- `command_runner` dispatches only `q`, `w` and `wq`. Every other verb,
  including `i`, is a no-op that continues. `insert` exists but nothing
  dispatches it.
- `save(Some(f))` records `f` as the buffer's file name before it tries
  to create the file. So the name is kept even when the save fails, not
  only on success.
- A missing file name is an `InvalidInput` I/O error with the message
  "No filename provided". There is no separate error kind for it.
- Input mode ends on a line whose trimmed text is `.`, not only on a line
  that is exactly `.`.
- Reading a file also strips a `\r` that comes just before a `\n`.

## Model

| member | source | states |
|---|---|---|
| CommandStructs.Compare | src/command_structs.rs:10-16 | The derived `Ord` on addresses: by variant position (`Current`, `Absolute`, `Last`, `None`), then by line number for two `Absolute`s. It has no postcondition of its own; AddressOrderIsTotal and AddressVariantOrder state its properties. |
| CommandStructs.AddressOrderIsTotal | src/command_structs.rs:10-16 | The derived comparison on addresses is a total order: `Equal` holds exactly for equal addresses, `Less` and `Greater` are mirror images, and `<=` is reflexive, antisymmetric, transitive and total. |
| CommandStructs.AddressVariantOrder | src/command_structs.rs:11-16 | `Current < Absolute(m) < Last < None`, and `Absolute(m) <= Absolute(n)` iff `m <= n` (likewise for `<`). |
| CommandStructs.ParseUsize | src/command_structs.rs:33 | `parse::<usize>().ok()`: `None` for the empty text and a lone `+`, otherwise the digit loop with a check for overflow at each step. It has no postcondition of its own; ParseUsizeExactly characterises it. |
| CommandStructs.ParseUsizeExactly | src/command_structs.rs:33 | Rust's digit-by-digit `parse::<usize>` loop, which checks for overflow at every step, succeeds iff the text is an optional `+` followed by one or more decimal digits whose value is at most 2^64-1. It then returns that value. |
| CommandStructs.FromStr | src/command_structs.rs:29-35 | `Address::from_str`: `.` and `$` first, then `parse::<usize>`. It has no postcondition of its own; FromStrSymbols, FromStrAbsolute, FromStrRejects, FromStrRejectsExamples and FromStrDecimal state its properties. |
| CommandStructs.FromStrSymbols | src/command_structs.rs:30-32 | `from_str(".") == Some(Current)` and `from_str("$") == Some(Last)`. |
| CommandStructs.FromStrAbsolute | src/command_structs.rs:29-35 | `from_str(s) == Some(Absolute(n))` iff `s` is `usize` text whose value is `n`. |
| CommandStructs.FromStrRejects | src/command_structs.rs:27-35 | `from_str(s)` is `None` iff `s` is neither `.`, `$` nor `usize` text. It never returns `Some(Address::None)`. |
| CommandStructs.FromStrRejectsExamples | src/command_structs.rs:33 | The empty string, every string starting with `-`, and the decimal text of any number above 2^64-1 (with or without a leading `+`) all parse to `None`. |
| CommandStructs.FromStrDecimal | src/command_structs.rs:33 | Round trip: the decimal text of every `usize` `n`, with or without a leading `+`, parses to `Some(Absolute(n))`. |
| CommandStructs.DecimalValue | src/command_structs.rs:33 | The decimal text of `n` denotes `n`. This is the half of the round trip about digits. |
| CommandStructs.Default | src/command_structs.rs:86-94 | `EdCommand::default()`. It has no postcondition of its own; DefaultCommandIsNoOp states its fields and that running it does nothing. |
| EdCommandParser.FromStr | src/ed_command_parser.rs:13-19 | The parser's private `from_str`. It has no postcondition of its own; FromStrAgrees and FromStrCases state its properties. |
| EdCommandParser.FromStrAgrees | src/ed_command_parser.rs:13-19 | The parser module's private `from_str` succeeds on exactly the same strings as the public one, with the corresponding address. |
| EdCommandParser.FromStrCases | src/ed_command_parser.rs:13-19 | The private `from_str` maps `.` to `Current`, `$` to `Last`, and the decimal text of every `usize` `n` to `Absolute(n)`. |
| EdCommandParser.AddressRule | src/ed_command_parser.rs:81-84 | The text the `address` rule matches at the start of a line: `.`, `$` or the leading run of digits. The grammar file is not part of this model, so this is the rule as its unit tests pin it down. It has no postcondition of its own; AddressRuleTakesLeadingToken and AddressRuleExamples state its properties. |
| EdCommandParser.AddressRuleTakesLeadingToken | src/ed_command_parser.rs:47-63 | The `address` rule matches a non-empty prefix of the line and fails exactly when the line does not start with `.`, `$` or a digit. A digit token is the whole leading run of digits and stops at the first non-digit. |
| EdCommandParser.AddressRuleExamples | src/ed_command_parser.rs:47-88 | On the lines of its unit tests: `50` gives `50` (`Absolute(50)`), `5` gives `5` (`Absolute(5)`), `5s/foo123/123foo/` gives only `5`, `$` gives `Last`, and `.` gives `Current`. |
| EdCommandParser.AddressTokenAccepted | src/ed_command_parser.rs:81-87 | `from_str` accepts every token the rule matches, if a digit token's value fits in a `usize`. A digit token `t` yields `Absolute(value of t)`. |
| EdCommandParser.OverflowingAddressToken | src/ed_command_parser.rs:81-87 | A digit run whose value exceeds 2^64-1 is matched by the rule but rejected by `from_str`. Without the proviso above, the tests' `unwrap` would panic. |
| LineArrayBuffer.LineBuffer.Empty | src/buffer/line_array_buffer.rs:9-15 | A new empty buffer has absent lines, no file name and cursor 0. |
| LineArrayBuffer.LineBuffer.FromFile | src/buffer/line_array_buffer.rs:18-31 | A loaded buffer holds the file's text split into lines, remembers the path as its file name, and has cursor 0. |
| LineArrayBuffer.LineBuffer.Save | src/buffer/line_array_buffer.rs:34-61 | `save` changes only the file name, and matches `SaveOutcome`. An explicit name is recorded first. The target is the explicit name, else the remembered one, else `InvalidInput`. If the file cannot be created, that error is returned. Otherwise the loop writes each line with `\n`, in order. |
| LineArrayBuffer.SaveOutcome | src/buffer/line_array_buffer.rs:34-61 | What `save(name)` does to the buffer's fields, and what it returns. It has no postcondition of its own; LineBuffer.Save is proved to match it, and SaveRecordsName, SaveWithoutName and SaveKeepsLines state its properties. |
| LineArrayBuffer.SaveRecordsName | src/buffer/line_array_buffer.rs:36-39 | `save(Some(f))` records `f` whether or not creating the file then succeeds. On success it writes the serialised lines to `f`. |
| LineArrayBuffer.SaveWithoutName | src/buffer/line_array_buffer.rs:41-49 | `save(None)` leaves the buffer unchanged. With no remembered name it fails with `InvalidInput`. Otherwise, if the file can be created, it writes the serialised lines to the remembered file. |
| LineArrayBuffer.SaveKeepsLines | src/buffer/line_array_buffer.rs:34-61 | Saving never changes the lines or the cursor. |
| LineArrayBuffer.SplitLines | src/buffer/line_array_buffer.rs:24 | `BufRead::lines`: one line per `\n`, with a `\r` just before it dropped, plus a final unterminated line that keeps any `\r`. It has no postcondition of its own; SplitSerialise, SerialiseSplit and ReloadDropsTrailingCr state its properties. |
| LineArrayBuffer.Serialise | src/buffer/line_array_buffer.rs:54-58 | The text `save` writes: each line followed by `\n`, and nothing for absent lines. It has no postcondition of its own; SplitSerialise, SerialiseSplit and TotalLenIsSerialisedSize state its properties. |
| LineArrayBuffer.SplitSerialise | src/buffer/line_array_buffer.rs:24 | Round trip: splitting saved lines back into lines reproduces them, provided no line contains `\n` or ends in `\r`. |
| LineArrayBuffer.SerialiseSplit | src/buffer/line_array_buffer.rs:54-58 | Converse: text that is empty or ends in `\n`, and contains no `\r`, is exactly what saving its lines writes. |
| LineArrayBuffer.ReloadDropsTrailingCr | src/buffer/line_array_buffer.rs:24 | A final unterminated line ending in `\r` is read with its `\r`, but after a save it reads back without it. So the proviso of the round trip is needed. |
| LineArrayBuffer.TotalLenIsSerialisedSize | src/buffer/line_array_buffer.rs:65-72 | The summed UTF-8 byte lengths of the lines, plus one per line, equal the byte length of the saved text. |
| LineArrayBuffer.LineBuffer.CharLength | src/buffer/line_array_buffer.rs:63-76 | `char_length()`. It has no postcondition of its own; CharLengthIsSavedSize states its value. |
| LineArrayBuffer.CharLengthIsSavedSize | src/buffer/line_array_buffer.rs:63-76 | `char_length()` is `None` when the lines are absent. Otherwise it is the UTF-8 byte length of what `save` writes. |
| LineArrayBuffer.EmptyBufferCreate | src/buffer/line_array_buffer.rs:84-134 | Test replay: the empty buffer has no lines, no file name, cursor 0 and `char_length() == None`. |
| LineArrayBuffer.FromFileCreate | src/buffer/line_array_buffer.rs:92-124 | Test replay: loading `one.txt` remembers its name and reads `one` … `five`. `char_length()` is `Some(24)`. |
| LineArrayBuffer.FileSave | src/buffer/line_array_buffer.rs:104-117 | Test replay: save `one.txt` to `/tmp/out.txt`, load that file, and the lines are the same. |
| Text.TrimIsSurroundedText | src/input_mode.rs:16 | `trim(s) == t` iff `s` is `t` with only white space before and after it (for a non-empty `t` that neither starts nor ends with white space). |
| InputMode.Collected | src/input_mode.rs:10-40 | The lines input mode returns for a given sequence of reads. It has no postcondition of its own; InputMode.InputMode is proved to return it, and CollectedIsLeadingLines, CollectedHasNoTerminator, CollectedIgnoresLaterEvents and ExhaustedIsEof state its properties. |
| InputMode.InputMode | src/input_mode.rs:5-41 | The reading loop returns exactly `Collected(events)`. |
| InputMode.CollectedIsLeadingLines | src/input_mode.rs:16-22 | The result is the longest run of leading events that are lines other than the terminator. The lines are taken untrimmed and in reading order. The next event, if any, is a terminator, an interrupt, end of input or a reader error. |
| InputMode.CollectedHasNoTerminator | src/input_mode.rs:16-22 | No returned line trims to `.`. |
| InputMode.CollectedIgnoresLaterEvents | src/input_mode.rs:16-40 | Once a terminator, interrupt, end of input or error is read, nothing after it affects the result. This is partial success, with no rollback. |
| InputMode.ExhaustedIsEof | src/input_mode.rs:29-32 | Appending an end-of-input event to the reads changes nothing. So running out of reads is handled like CTRL-D. |
| InputMode.TerminatorIsDotLine | src/input_mode.rs:16-17 | The terminating line is exactly a `.` with only white space around it. |
| EdCommands.Run | src/ed_commands.rs:12-45 | What `command_runner` does to the buffer's fields, what it returns, and what file it writes. It has no postcondition of its own; CommandRunner is proved to match it, and the lemmas below state its properties. |
| EdCommands.QuitCommand | src/ed_commands.rs:26-31 | `quit` returns `Ok(Quit)`. |
| EdCommands.Write | src/ed_commands.rs:33-38 | `write` saves to the command's argument or the remembered name. Success gives `Continue` and the file written. A save error is returned unchanged. |
| EdCommands.WriteQuit | src/ed_commands.rs:40-45 | `write_quit` saves as `write` does. Success gives `Quit`, otherwise the save's error. |
| EdCommands.CommandRunner | src/ed_commands.rs:12-24 | `command_runner` changes only the file name, and its result, new buffer and written file match `Run`. |
| EdCommands.QuitLeavesBuffer | src/ed_commands.rs:17 | `q` returns `Quit`, leaves the buffer unchanged and writes nothing. |
| EdCommands.OtherVerbsContinue | src/ed_commands.rs:20 | An absent or unrecognised verb returns `Continue`, leaves the buffer unchanged and writes nothing. |
| EdCommands.WriteSaves | src/ed_commands.rs:18-19 | `w`/`wq` succeed iff a target (argument, else remembered name) exists and can be created. On success they write the serialised lines to it, and `w` continues while `wq` quits. Otherwise they return the save's error and write nothing. The new file name is the target. |
| EdCommands.WriteQuitNeedsSave | src/ed_commands.rs:40-45 | `wq` returns `Quit` iff the save succeeds. |
| EdCommands.WriteWithoutFilename | src/ed_commands.rs:93-112 | `w` or `wq` with no argument and no remembered name fails with `InvalidInput`, and leaves the buffer unchanged. |
| EdCommands.RunIgnoresRange | src/ed_commands.rs:12-24 | Dispatch depends only on the verb and the argument, never on `address1`, `address2` or the separator. |
| EdCommands.RunKeepsLines | src/ed_commands.rs:12-24 | No dispatched command changes the lines or the cursor. The file name changes only for `w`/`wq` with an argument. |
| EdCommands.DefaultCommandIsNoOp | src/command_structs.rs:86-94 | `EdCommand::default()` has both addresses `Current`, separator `Comma`, and no verb or argument. Running it changes nothing and continues. |
| EdCommands.QuitReturnsQuitSignal | src/ed_commands.rs:54-67 | Test replay: `q` on an empty buffer gives `Ok(Quit)`. |
| EdCommands.WriteReturnsContinueSignal | src/ed_commands.rs:69-92 | Test replay: `w` twice on a buffer whose file is `/tmp/foo.txt` gives `Ok(Continue)` both times. |
| EdCommands.WriteWithNoFilename | src/ed_commands.rs:93-112 | Test replay: `w` with no file anywhere gives the `InvalidInput` error. The test at lines 132-151 issues the same command. |
| EdCommands.WriteQuitReturnsQuit | src/ed_commands.rs:113-131 | Test replay: `wq` on a buffer whose file is `/tmp/foo.txt` gives `Ok(Quit)` and writes an empty file. |
| Modify.Spliced | src/modify.rs:45-50 | The lines after splicing a block in at an index; absent lines become the block. It has no postcondition of its own; SplicedPlacesBlock, SplicedKeepsOrder and SplicedNothing state its properties. |
| Modify.SplicedPlacesBlock | src/modify.rs:47-49 | Splicing at `index` makes the length grow by the block's size. It keeps `old[..index]`, puts the block next, then `old[index..]`. Taking the block out gives the old lines back. |
| Modify.SplicedKeepsOrder | src/modify.rs:48 | Each old line `k` is still present: at `k` if it came before the index, else at `k + |block|`. |
| Modify.SplicedNothing | src/modify.rs:136-146 | Splicing an empty block leaves existing lines unchanged. |
| Modify.AppendKeepsFirstLine | src/modify.rs:83 | An append splices at one past the resolved index, so the lines up to and including the resolved line keep their places. In particular the first line is never displaced. |
| Modify.InsertIntoBuffer | src/modify.rs:38-54 | Absent lines become exactly the block, whatever the index. Otherwise the result is `old[..i] + block + old[i..]`, where `i = address_to_index(location)`. The cursor becomes `i + |block|`, and that is the return value. The file name is unchanged. The index must be at most the line count, since `Vec::splice` panics beyond it. |
| Modify.AppendIntoBuffer | src/modify.rs:78-94 | As `InsertIntoBuffer`, at `address_to_index(location) + 1`, which must be at most the line count. |
| Modify.Insert | src/modify.rs:71-77 | The `i` command inserts the lines input mode collects at `command.address2`, not `address1`. It moves the cursor past them, leaves the file name, and continues. |
| Modify.BasicInsert | src/modify.rs:101-110 | Test replay: inserting `one`,`two`,`three` at `Absolute(0)` into an empty buffer returns 3, and line 2 is `three`. |
| Modify.InsertMiddle | src/modify.rs:112-122 | Test replay: inserting `alpha` at `Absolute(2)` into the 5-line file returns 2. The buffer then has 6 lines, with `alpha` at index 1. |
| Modify.InsertIntoEmpty | src/modify.rs:124-134 | Test replay: inserting `alpha` at `Absolute(1)` into an empty buffer returns 1 and gives the single line `alpha`. |
| Modify.InsertEmpty | src/modify.rs:136-146 | Test replay: inserting no lines at `Absolute(2)` returns 1, keeps 5 lines, and index 1 is still `two`. |
| Modify.AppendMiddle | src/modify.rs:148-159 | Test replay: appending `alpha` after `Absolute(2)` in the 5-line file returns 3. The buffer then has 6 lines, with `alpha` at index 2. |

## Left out

- `address_to_index` is not part of this model. It is a parameter of the splice operations. Only the three values the tests fix are assumed, and only where the tests are replayed.
- File I/O:
  - `from_file` failing to open or read a file, including invalid UTF-8, is not modelled. The constructor receives text that was read successfully.
  - A `writeln!` failing part-way through `save` is not modelled. Only the success or failure of `File::create` is.
- Building the line editor (src/input_mode.rs:6) and adding to its history (src/input_mode.rs:15) can fail with `?`; neither failure is modelled. Neither is the printing of `CTRL-C`, `CTRL-D` or reader errors. So in the model, input mode always succeeds.
- Modify.Insert: returns the status itself rather than a `Result`. Its only error path in the source is the input-mode failure just listed.
- LineArrayBuffer.CharLengthIsSavedSize: the sum is an unbounded natural number. Overflow of the `usize` addition is not modelled, because no buffer that fits in memory reaches it.
- Modify.AppendIntoBuffer: requires `address_to_index(location) + 1` to be at most the line count, because `Vec::splice` panics beyond it. The index is always at least 1 (src/modify.rs:83), so on present but empty lines (for example after loading an empty file, where `SplitLines("") == []`) every append panics in the source, and the model has no call for that case. For the same reason an append never puts lines before the first line: `Absolute(0)` gets no special case (AppendKeepsFirstLine).
- Modify.InsertIntoBuffer: the cursor `index + |block|` is unbounded. Overflow of `usize` is not modelled, for the same reason.
- EdCommandParser.AddressTokenAccepted: holds only for digit tokens whose value fits in a `usize`. OverflowingAddressToken shows that larger digit runs are matched but not accepted. The grammar file is not part of this model, so the `address` rule is taken to be `.`, `$` or a run of digits, matched at the start of the line.
- LineArrayBuffer.SplitSerialise: needs lines without `\n` that do not end in `\r`. ReloadDropsTrailingCr shows that a file whose last line ends in `\r` without a `\n` does not survive a save and reload unchanged.
- The rest of the command grammar (ranges, separators, verbs, arguments, parse errors) is not modelled. The grammar file is not part of this model, and its tests cover only the address rule.
- The private `RangeSep` and `EdCommand` in src/ed_command_parser.rs are not modelled separately. `RangeSep` is the same as in src/command_structs.rs. The private `EdCommand` differs only in its two addresses, which have the parser's private three-variant `Address` (no `None`, no order; src/ed_command_parser.rs:6-10, 30-31). The model runs commands with the public `EdCommand`, whose addresses are never looked at in dispatch (see RunIgnoresRange).
- Printing, numbered printing, `=`, delete, correct/replace and range validation are not modelled: no shown file implements them.
- src/command_parser/parse_args.rs (command-line flags, help text), src/main.rs (process wiring), src/tester.py (end-to-end harness), src/address/mod.rs (a stub calling an undefined function) and src/ed_command_error.rs (error wrapping and formatting) are not modelled: they hold no logic of the core.
- The doc example in src/modify.rs:31-37 calls a constructor that does not exist, and is not modelled.
