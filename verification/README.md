# Verified model of the contester

The contester polls a database for unchecked solutions, writes each one's source and a
configuration to files, starts a judge, and stores the text the judge leaves. This project
models that program, the judge's configuration reader and output matcher, and the parts of
the bundled MySQL client headers that compute something: byte order, the trailing-space
scan, time-out arithmetic and a few numeric helpers.

`dafny verify dfyconfig.toml` checks all of it.

## How the parts fit

- `Tables`, `Loading`, `Join`: one snapshot of the database, the constructors that load a
  solution with its task, groups, tests and language, and what they compute as a join. How
  many queries the server answers before it refuses one is an input. Conversions to `int`,
  and texts passing through C strings, are explicit.
- `Json`, `Config`: the writer's events as tokens, a parser that is the exact inverse of
  emission, `create_cfg_json`, and the judge's `read_main_config` at
  checker_rc/reader.cpp:139-231. `Config.ReadMainConfig` computes, loops included, the function
  `Config.ReadConfig` on every document. The limits are written as 64-bit numbers and read as
  32-bit ones, so the judge rejects a configuration whose limit is 2^32 or more, and that is
  exactly when it does.
- `Judging`: the three work files and one run of the judge. What the judge does is an input:
  it may leave any files, and write the result file, leave it alone or delete it. So is the
  success of each `remove` and of the final update.
- `Queue`: the transition system. Its events are the poll with the server's answer, a poll
  that throws (which nothing catches, so the program ends), a construction that throws
  (which is caught), a judged solution, and changes by others, which may add solutions with
  identifiers that fit an `int` and edit everything but existing solutions.
- `Safety`: exactly when the queue is safe, with and without changes by others.
- `Progress`, `Liveness`: how fast the queue drains, and who gets a turn. "Constructible"
  means that loading would not throw with all queries working. A pending solution is "good"
  when it is constructible and its identifier fits an `int`; g counts these, and b all other
  pending ones. "Fault-free" means that queries work, results are stored and nothing changes
  from outside.
- `Contester`: the main loop, shown to be a run of that system. The server's answers and
  refusals, the judge and the changes by others are inputs, so that they alone decide which
  run it is; when nothing is refused and nobody else interferes, it is a fault-free one.
- `Codec`, `ByteOrder`, `EndianStores`: one byte codec for any width, and each fixed-width
  store and decoder as an instance. `StringScan` uses it. `Bits` defines `&` and `|` bit by bit.
- `TimespecArithmetic`, `Numeric`, `Matcher`: the remaining helpers.

Identifiers are put into an `int`, and much depends on whether that cuts one.

- Loading: `Join.LoadSucceedsExactly` says without any condition when it works, and
  `Join.CutIdentifierThrows` shows a cut identifier that breaks it. It can also succeed with
  another task's tests, as in `Join.CutGroupReadsOthersTests`; `Join.LoadIsJoinExactly` and
  `Join.ContributesExactlyWhen` say exactly when the rows are the right ones.
- Safety: `Safety.SafeExactlyWhen` and `Safety.SafeAloneExactlyWhen` say when the program
  judges a solution a second time, and `Safety.UnsafeState` is such a state. Others who add an
  identifier that does not fit leave a pending one, to which both theorems apply from then on.
- Progress: a pending solution whose identifier does not fit is never judged
  (`Queue.UnfitIsNeverJudged`, with `Liveness.NeverJudged` as an example), and it uses up a
  place in the round. It does so without helping anyone unless it is cut to a good solution's
  identifier; hence the condition in `Progress.DrainedExactlyWhen`, and none in
  `Liveness.StarvableExactlyWhen`.

The comment above `skip_trailing_space` says that it returns the last non-space character;
the code returns the position after it, and so does the model.

## Model

| member | source | states |
|---|---|---|
| `Progress.DrainedExactlyWhen` | contester/src/contester.cpp:24-37 | With g good and b other solutions pending, every fault-free run of n complete rounds has judged all good ones if g <= n * max(0, 10 - b), whichever rows LIMIT 10 picks; and only if, when no pending identifier is cut to that of a good solution |
| `Progress.Drains` | contester/src/contester.cpp:24-37 | Whatever the identifiers: after any fault-free run with n polls at most max(0, g - n * max(0, 10 - b)) good solutions are pending outside the round in progress, and the other pending ones are the same as at first |
| `Progress.SlowRun` | contester/src/contester.cpp:24-37 | When no pending identifier is cut to that of a good solution: for every n some fault-free run of n rounds leaves exactly that many, so the bound cannot be improved |
| `Liveness.StarvableExactlyWhen` | contester/src/contester.cpp:24-37 | Whatever the identifiers: a good solution can be kept waiting for any number of fault-free rounds if and only if at least ten pending solutions are not good and are not cut to its own identifier |
| `Liveness.JudgedWithin` | contester/src/contester.cpp:24-37 | With o such solutions it is judged in every fault-free run of n complete rounds once g <= n * max(0, 10 - o) |
| `Liveness.DrainsAtAllExactlyWhen` | contester/src/contester.cpp:24-37 | Whatever the identifiers: there is a number of fault-free rounds after which all good solutions are surely judged if and only if for each good solution fewer than ten of the others are not cut to its identifier; with b < 10 there always is |
| `Liveness.CutsCanHelp` | contester/src/contester.cpp:24-37 | Why the bound needs a condition to be exact: ten pending solutions cut to the identifier of the only good one, which is judged in the first round although max(0, 10 - b) is 0 |
| `Liveness.CanIdleExactlyWhen` | contester/src/contester.cpp:24-37 | Whatever the identifiers: one or more fault-free rounds without a single save are possible if and only if the pending solutions whose identifier, put into an int, finds no constructible solution number at least ten, or are all there are; any number of rounds can then end in the very state they began in |
| `Liveness.DeadAreBad` | contester/src/contester.cpp:24-37 | When no pending identifier is cut to that of a constructible solution, these are the b pending ones that are not good, so ten of them can stop the queue for ever |
| `Liveness.CanBeJudgedExactlyWhen` | contester/src/data.cpp:126-128 | With others adding what is missing, some run judges a given pending solution if and only if its identifier fits an int |
| `Liveness.CanBeJudgedAloneExactlyWhen` | contester/src/data.cpp:126-128 | Without outside changes some run does, queries and saves failing or not, if and only if its identifier fits an int and it is constructible |
| `Liveness.NeverJudged` | contester/src/data.cpp:126-128 | The only solution, 0x100000001, is pending with its task and language present, and stays pending in every run |
| `Queue.UnfitIsNeverJudged` | contester/src/data.cpp:126-128 | Over every run, whatever others do, the row of a solution whose identifier does not fit an int stays exactly as it is |
| `Progress.PollSelectsQuota` | contester/src/data.cpp:121-130 | Whatever the identifiers: after any answer to the poll at least min(g, max(0, 10 - b)) good solutions are selected |
| `Progress.SavedLeaveGood` | contester/src/data.cpp:228-232 | Whatever the identifiers: over a fault-free run exactly the saved solutions leave the good ones, and the other pending ones stay |
| `Progress.SavesShrinkGood` | contester/src/data.cpp:228-232 | When, moreover, no pending identifier is cut to that of a constructible solution, the good ones go down by exactly one for each save |
| `Queue.RunsAttributed` | contester/src/data.cpp:228-232 | Over every run, whatever the identifiers and with others adding solutions and editing problems at any point: a row differs from its first state only if that solution was saved, and then exactly in status and in result; every saved solution, also an added one, is checked and holds the last saved text |
| `Safety.SafeExactlyWhen` | contester/src/contester.cpp:24-37 | With others editing problems and adding solutions whose identifiers fit: in every run no solution is saved twice, none that was not pending is saved, and nothing else changes rows, if and only if every pending identifier fits an int |
| `Safety.SafeAloneExactlyWhen` | contester/src/contester.cpp:24-37 | Without outside changes the same holds if and only if no pending identifier is cut to that of a solution that can be constructed |
| `Safety.CutIdentifierRejudges` | contester/src/data.cpp:126-128 | From any state between rounds: a pending solution whose identifier is cut to that of a constructible one can have that one judged and saved in its place, whatever its status, and stays pending |
| `Safety.UnsafeState` | contester/src/data.cpp:126-128 | A concrete such state: solution 1 checked, solution 0x100000001 pending |
| `Queue.CheckedGrows` | contester/src/contester.cpp:24-37 | Over every run, whatever the identifiers, checked solutions stay checked; when the pending identifiers fit, their rows do not change again |
| `Queue.AttemptsBalance` | contester/src/data.cpp:121-130 | Over every run, selections equal attempts plus what is still to attend, and there are at most ten per poll |
| `Queue.RunsAreIsolated` | contester/src/data.cpp:408-431 | Over every run that starts without a result file, with no extension ".json" (as text: letter case is not folded) and with result files removable: also when loading or saving throws, each judge finds its own solution's source and configuration and no result file, and the stored text is what it produced, or empty |
| `Queue.StoredIsProduced` | contester/src/data.cpp:413-431 | Under the same conditions, every solution that was saved in the run holds in the end what the judge produced for it in the run of the judge that was saved last, which was isolated in that sense |
| `Queue.RunsAreIsolatedExactly` | contester/src/data.cpp:408-431 | Over every run: a judged solution is isolated in that sense if and only if no result file was there before and its extension, as text, is not ".json" |
| `Queue.NoResultBetweenSolutions` | contester/src/data.cpp:419-430 | Under the same conditions there is never a result file between solutions |
| `Queue.WorkFilesAreGone` | contester/src/data.cpp:413-431 | Over every run, once a solution has been judged and the three removes succeeded: after every event until the next is judged, also one that threw, there is no configuration file, no result file and no source file of that solution |
| `Queue.LeftoverResultIsStored` | contester/src/data.cpp:421-429 | If one solution's result file cannot be removed and the judge leaves it alone for the next, the next is stored with the first one's result |
| `Queue.SaveKeepsLoading` | contester/src/data.cpp:92-117 | Storing a result makes no solution constructible or unconstructible |
| `Judging.JudgeSeesOwnInput` | contester/src/data.cpp:143-149 | The judge finds the solution's code under "solution" with the language's extension if and only if that is not ".json"; it always finds the configuration under "solution.json", and all other files, "result.json" among them, as they were |
| `Judging.StoredText` | contester/src/data.cpp:421-430 | The stored text is the judge's verdict; when the judge left the result file alone, whatever an earlier run left in it; when it deleted the file, empty |
| `Judging.FilesLeft` | contester/src/data.cpp:416-430 | Which of the three files remain, depending on the judge and on which removes succeeded; every other file is as the judge left it |
| `Judging.LanguageIsUsed` | contester/src/data.cpp:138-141 | A configured language's extension ends the source file's name and its command template is what the judge is told; both are empty for a language that is not configured |
| `Judging.Checker.Run` | contester/src/data.cpp:413-431 | For every judge and whichever calls outside succeed: files, result and table after `run` are those of the outcome function; it reports a save exactly when the update is made, and otherwise leaves the tables as they were |
| `Judging.Checker.CreateFiles` | contester/src/data.cpp:143-220 | The source file holds the code and the configuration file the emitted document; nothing else changes |
| `Queue.SelectionInNumbers` | contester/src/data.cpp:121-130 | An answer to the poll lists different rows with status 0, at most ten, and all of them when fewer than ten |
| `Contester.GetNotCheckedIds` | contester/src/data.cpp:121-130 | Unless the query throws, the result is the answer's identifiers, in order, each put into an int; they are of rows with status 0 |
| `Contester.AttendOne` | contester/src/contester.cpp:29-36 | One try block, caught exceptions included, is one step of the queue: the solution is judged, by what the judge does and with the update's success, if and only if it is constructible and the server answers all queries of its construction; otherwise it is skipped |
| `Contester.Round` | contester/src/contester.cpp:24-38 | One pass of the loop is the run of the queue that the poll's answer and the attempts determine, one attempt for each selected solution in order; the program ends exactly when the poll is refused; if nothing is refused the run is fault-free |
| `Contester.Serve` | contester/src/contester.cpp:24-45 | From any tables, any number of passes, with others changing the tables in between, is one run of the queue; all row changes are attributed to its saves and, when the pending identifiers fit, no solution is saved twice; when nothing is refused and nobody else changes anything, after n passes at most max(0, g - n * max(0, 10 - b)) good solutions are left |
| `Contester.CalmIsPossible` | contester/src/contester.cpp:24-45 | There is an outside that refuses nothing and changes nothing, so that the last clause applies |
| `Join.LoadThrowsExactly` | contester/src/data.cpp:92-117 | When the identifiers of the rows listed for it fit an int, construction throws if and only if the solution, its task or its language row is missing, and reports the first of these; the throws for groups, checker tests and tests are unreachable |
| `Join.LoadSucceedsExactly` | contester/src/data.cpp:92-117 | On any snapshot, construction succeeds if and only if those three rows exist and every listed group, checker test and test is found again by its int identifier |
| `Join.CutIdentifierThrows` | contester/src/data.cpp:296-306 | A snapshot with all three rows in which a group identifier above 2^32 makes construction throw |
| `Join.LoadIsJoinExactly` | contester/src/data.cpp:241-339 | With unique test identifiers: the rows loaded for a task are those of the join of its groups with `checkertests`, in group order, then test order, if and only if each listed group is found again by its int identifier and the test identifiers then listed are, in order, those of the joined rows |
| `Join.ContributesExactlyWhen` | contester/src/data.cpp:275-339 | For one group: it is found and exactly its own rows are looked up for it if and only if the tests listed for its int identifier are, put into an int in turn, its own |
| `Join.ReadsOwnWhen` | contester/src/data.cpp:275-339 | With unique identifiers: for a group whose identifier fits, that is if and only if its tests' identifiers fit; for a group without tests, if and only if the group read in its place exists and has none; for a cut one with tests, only if every test listed in their place is itself cut |
| `Join.LoadIsJoin` | contester/src/data.cpp:241-339 | When that holds of each of a task's groups, its loaded tests are the join, in group order, then test order |
| `Join.CutGroupReadsOthersTests` | contester/src/data.cpp:275-294 | A snapshot on which loading a task whose only group has no tests succeeds with the test of another task's group |
| `Join.LoadedInOrder` | contester/src/data.cpp:180-195 | With unique identifiers, and those of the task's groups and their tests fitting an int: of two loaded tests, the earlier one's group is listed before the later one's, or it is the same group and the earlier one is listed before the later one |
| `Join.OwnedConcat` | contester/src/data.cpp:330-339 | Selecting by foreign key distributes over concatenation: the listing order and every occurrence are kept |
| `Join.LoadConserves` | contester/src/data.cpp:241-339 | When each group of the task reads its own rows, the loaded tests are, as a multiset, the `checkertests` rows whose group belongs to the task, found in one pass; count and total score are conserved |
| `Join.LoadedTestsAreDistinct` | contester/src/data.cpp:275-339 | Under the same condition no test is loaded twice |
| `Join.JoinIsSemiJoin` | contester/src/data.cpp:275-339 | Going through the groups one by one selects the same rows, as often, as one pass over the test table |
| `Tables.ListThenFetch` | contester/src/data.cpp:330-339 | With unique identifiers, listing by foreign key and looking each one up gives back exactly the listed rows if and only if their identifiers fit an int |
| `Tables.FetchAllFailsAtFirst` | contester/src/data.cpp:286-293 | When looking identifiers up throws, it is for the first of them that has no row |
| `Join.SolutionFieldsAreCells` | contester/src/data.cpp:92-117 | Each cell arrives in the solution's field of the same name, put into an int or cut at the first null character, and so unchanged when it fits; the task and the language are those the cells name |
| `Join.TestResultsAreRows` | contester/src/data.cpp:109-112 | The solution keeps one test result for each of its rows, in listing order, and these rows themselves when their identifiers fit |
| `Join.TaskAndLangFieldsAreCells` | contester/src/data.cpp:241-264 | The same for tasks and languages |
| `Join.ListedFieldsAreCells` | contester/src/data.cpp:275-385 | The same for groups, checker tests and test results |
| `Loading.ReadSolution` | contester/src/data.cpp:92-117 | The constructor gives what the snapshot holds if and only if the server answers all the queries it takes; otherwise it throws the query's exception |
| `Join.QueriesOfLoaded` | contester/src/data.cpp:92-117 | Constructing a solution takes exactly 5 queries, 2 for each group of its task, and 1 for each checker test and each test result |
| `Loading.ReadTask` | contester/src/data.cpp:241-264 | The same for a task and its loop over groups |
| `Loading.ReadGroup` | contester/src/data.cpp:275-294 | The same for a group and its loop over tests |
| `Config.DatabaseToJudge` | contester/src/data.cpp:152-220 | When each group of its task reads its own rows and its test results are found, the judge accepts a present solution's configuration if and only if both limit columns are in [0, 2^32), and then it gets those limits, the checker, and exactly the joined test rows, in order, each path being the tests directory, a backslash and the cell's text |
| `Config.ReadConfigExactly` | contester/src/data.cpp:152-220 | Whoever wrote the document: the judge's reader accepts it if and only if every member it looks for is there and of its type and all numbers are in range, and then gives exactly these values (the first of several members of one name counts) |
| `Config.ConfigRoundTrip` | contester/src/data.cpp:152-220 | The written configuration parses; its title is the task's; the judge's reader accepts it if and only if both limits are below 2^32, and then recovers limits, file names, the language with its configured command template, and checker and full test list with every path inside the tests directory |
| `Config.CreateCfgJson` | contester/src/data.cpp:152-220 | The writer's events are, token by token, the document that is listed in `Config.DocumentTokens`, for any number of groups and tests; it parses back to its tree |
| `Config.WriteTests` | contester/src/data.cpp:179-196 | The nested loops write one array with the tests of all groups, group after group |
| `Config.TestsDirText` | contester/src/data.cpp:222-226 | The tests directory is the base, the contest's number, a backslash and the task's number, both in decimal |
| `Config.ToStringIsDecimal` | contester/src/data.cpp:222-226 | A number's text is a minus sign if it is negative and then its decimal digits, without leading zeros |
| `Config.TestsDirInjective` | contester/src/data.cpp:222-226 | Different tasks, or contests, never share a tests directory |
| `Json.ParseIsInverseOfEmit` | contester/src/data.cpp:152-220 | A token sequence is a balanced, properly keyed document if and only if some tree emits it, and that tree is unique |
| `StringScan.SkipTrailingSpaceAligned` | contester/contrib/mysql/include/m_string.h:297-327 | For every string, start address, word size 4 or 8 and byte order, the aligned form returns the byte loop's answer; all accesses are inside the string, words aligned, and it terminates |
| `StringScan.SkipTrailingSpace8` | contester/contrib/mysql/include/m_string.h:334-346 | The eight-byte form returns the byte loop's answer |
| `StringScan.NaiveEnd` | contester/contrib/mysql/include/m_string.h:343-345 | The byte loop's answer: only spaces after it, and it is the start or preceded by a non-space |
| `StringScan.NaiveEndIsUnique` | contester/contrib/mysql/include/m_string.h:263-295 | These conditions determine the answer, so that all forms agree |
| `StringScan.WordZone` | contester/contrib/mysql/include/m_string.h:310-317 | In a string of more than 20 bytes the first and last word boundaries are inside it, the assertion at 317 holds, and the first is below the last |
| `StringScan.AlignedIsMultiple` | contester/contrib/mysql/include/m_string.h:310-313 | An aligned address is a multiple of the word size |
| `StringScan.WordIsSpaces` | contester/contrib/mysql/include/m_string.h:321-322 | An aligned word inside the string equals the constant if and only if all its bytes are spaces |
| `StringScan.SpaceWord` | contester/contrib/mysql/include/m_string.h:299-306 | In either byte order a word equals the constant if and only if all its bytes are spaces |
| `StringScan.PaddingIsSkipped` | contester/contrib/mysql/include/m_string.h:263-295 | Appending spaces does not move the answer |
| `Codec.DecodeEncode` | contester/contrib/mysql/include/byte_order_generic.h:38-97 | For every width n, decoding a stored value gives it modulo 256^n |
| `Codec.EncodeDecode` | contester/contrib/mysql/include/byte_order_generic.h:38-97 | For every width, storing a decoded value restores the bytes |
| `Codec.DecodeInjective` | contester/contrib/mysql/include/byte_order_generic.h:56-69 | Equal values of the same width have equal bytes |
| `ByteOrder.StoreThenDecode` | contester/contrib/mysql/include/byte_order_generic.h:76-97 | At any place of a buffer: the stored value is read back modulo 256^n and no other byte changes |
| `ByteOrder.DecodeThenStore` | contester/contrib/mysql/include/byte_order_generic.h:76-97 | Storing what was read leaves the buffer as it was |
| `ByteOrder.FixedWidthsRoundTrip` | contester/contrib/mysql/include/my_byteorder.h:45-101 | The decoders of widths 2, 3, 4, 5, 6 and 8 undo the stores modulo 2^(8n) |
| `ByteOrder.SignedFullWidthRoundTrip` | contester/contrib/mysql/include/byte_order_generic.h:20-36 | At widths 2, 4 and 8 every signed value survives store and decode |
| `ByteOrder.Sint3RoundTrip` | contester/contrib/mysql/include/my_global.h:527-528 | A 32-bit signed value survives a three-byte store and `sint3korr` if and only if it is in [INT_MIN24, INT_MAX24] |
| `ByteOrder.Uint2korr` | contester/contrib/mysql/include/byte_order_generic.h:38-44 | The low-byte-first value of the first 2 bytes, without loss to intermediate widths |
| `ByteOrder.Uint4korr` | contester/contrib/mysql/include/byte_order_generic.h:46-54 | The low-byte-first value of the first 4 bytes, without loss to intermediate widths |
| `ByteOrder.Uint8korr` | contester/contrib/mysql/include/byte_order_generic.h:56-69 | The low-byte-first value of the first 8 bytes, without loss to intermediate widths |
| `ByteOrder.Uint3korr` | contester/contrib/mysql/include/my_byteorder.h:45-52 | The low-byte-first value of the first 3 bytes, without loss to intermediate widths |
| `ByteOrder.Uint5korr` | contester/contrib/mysql/include/my_byteorder.h:54-63 | The low-byte-first value of the first 5 bytes, without loss to intermediate widths |
| `ByteOrder.Uint6korr` | contester/contrib/mysql/include/my_byteorder.h:65-75 | The low-byte-first value of the first 6 bytes, without loss to intermediate widths |
| `ByteOrder.Sint2korr` | contester/contrib/mysql/include/byte_order_generic.h:20-26 | The two's-complement reading of the first 2 bytes |
| `ByteOrder.Sint4korr` | contester/contrib/mysql/include/byte_order_generic.h:28-36 | The two's-complement reading of the first 4 bytes |
| `ByteOrder.Sint8korr` | contester/contrib/mysql/include/byte_order_generic.h:71-74 | The two's-complement reading of the first 8 bytes |
| `ByteOrder.Sint3korr` | contester/contrib/mysql/include/my_byteorder.h:31-43 | The two's-complement reading of the first 3 bytes |
| `ByteOrder.Int2store` | contester/contrib/mysql/include/byte_order_generic.h:76-81 | Writes the 2-byte form at its place and nothing else |
| `ByteOrder.Int4store` | contester/contrib/mysql/include/byte_order_generic.h:83-89 | Writes the 4-byte form at its place and nothing else |
| `ByteOrder.Int3store` | contester/contrib/mysql/include/my_byteorder.h:77-82 | Writes the 3-byte form at its place and nothing else |
| `ByteOrder.Int5store` | contester/contrib/mysql/include/my_byteorder.h:84-91 | Writes the 5-byte form at its place and nothing else |
| `ByteOrder.Int6store` | contester/contrib/mysql/include/my_byteorder.h:93-101 | Writes the 6-byte form at its place and nothing else |
| `ByteOrder.Int8store` | contester/contrib/mysql/include/byte_order_generic.h:91-97 | Two four-byte stores write the flat eight-byte form and nothing else |
| `EndianStores.X86LoadsArePortable` | contester/contrib/mysql/include/byte_order_generic_x86.h:19-28 | Native loads on a little-endian machine equal the portable decoders |
| `EndianStores.X86Store` | contester/contrib/mysql/include/byte_order_generic_x86.h:30-43 | Native stores write the same bytes as the portable stores |
| `EndianStores.Float4storeBig` | contester/contrib/mysql/include/big_endian.h:21-25 | A big-endian machine writes the same bytes as a little-endian one: the low-byte-first form of the bit pattern |
| `EndianStores.Float4storeLittle` | contester/contrib/mysql/include/little_endian.h:27-30 | A little-endian machine writes the low-byte-first form of the bit pattern |
| `EndianStores.Float8storeBig` | contester/contrib/mysql/include/big_endian.h:35-43 | A big-endian machine writes the same bytes as a little-endian one: the low-byte-first form of the bit pattern |
| `EndianStores.Float8storeLittle` | contester/contrib/mysql/include/little_endian.h:37-40 | A little-endian machine writes the low-byte-first form of the bit pattern |
| `EndianStores.Float4getBig` | contester/contrib/mysql/include/big_endian.h:27-33 | Reads back the bit pattern that a store on either machine wrote |
| `EndianStores.Float4getLittle` | contester/contrib/mysql/include/little_endian.h:22-25 | Reads back the bit pattern that a store on either machine wrote |
| `EndianStores.Float8getBig` | contester/contrib/mysql/include/big_endian.h:45-55 | Reads back the bit pattern that a store on either machine wrote |
| `EndianStores.Float8getLittle` | contester/contrib/mysql/include/little_endian.h:32-35 | Reads back the bit pattern that a store on either machine wrote |
| `EndianStores.DoublestoreSwapped` | contester/contrib/mysql/include/little_endian.h:47-55 | Writes the two words of a double exchanged, and nothing else |
| `EndianStores.DoublegetSwapped` | contester/contrib/mysql/include/little_endian.h:56-66 | Gives the object whose exchanged words are in the buffer |
| `EndianStores.SwapWordsTwice` | contester/contrib/mysql/include/little_endian.h:46-66 | Exchanging the words twice gives the object back |
| `EndianStores.UshortgetBig` | contester/contrib/mysql/include/big_endian.h:57-59 | The machine's own value of two bytes |
| `EndianStores.ShortgetBig` | contester/contrib/mysql/include/big_endian.h:60-62 | The machine's own signed value of two bytes |
| `EndianStores.LonggetBig` | contester/contrib/mysql/include/big_endian.h:63-69 | The machine's own signed value of four bytes |
| `EndianStores.UlonggetBig` | contester/contrib/mysql/include/big_endian.h:70-76 | The machine's own value of four bytes |
| `EndianStores.ShortstoreBig` | contester/contrib/mysql/include/big_endian.h:77-80 | Writes the machine's own bytes of a signed short |
| `EndianStores.LongstoreBig` | contester/contrib/mysql/include/big_endian.h:81-85 | Writes the machine's own bytes of a signed long, shifts of negative values included |
| `EndianStores.MachineFormatRoundTrip` | contester/contrib/mysql/include/big_endian.h:57-85 | On either machine a signed short or long read back in machine format is the stored one |
| `TimespecArithmetic.SplitIsExact` | contester/contrib/mysql/include/my_pthread.h:271-276 | Seconds and nanoseconds add up to TIME * 100 + NSEC if and only if the 64-bit sum does not overflow |
| `TimespecArithmetic.Split` | contester/contrib/mysql/include/my_pthread.h:271-276 | The result is normalised, and what it stands for when the sum wraps |
| `TimespecArithmetic.Timespec.SetTimeNsec` | contester/contrib/mysql/include/my_pthread.h:271-276 | The setter leaves that value in the structure |
| `TimespecArithmetic.CmpComparesTotals` | contester/contrib/mysql/include/my_pthread.h:289-293 | On normalised values the comparison is that of the nanoseconds, zero only for equal values |
| `TimespecArithmetic.DiffIsExact` | contester/contrib/mysql/include/my_pthread.h:297-298 | The difference is the exact gap if and only if it is not negative and fits in 64 bits |
| `TimespecArithmetic.SetCompareSubtract` | contester/contrib/mysql/include/my_pthread.h:271-298 | Across two values the setter built, comparison and difference are those of the requested times |
| `TimespecArithmetic.WinTimespec.SetTimeNsec` | contester/contrib/mysql/include/my_pthread.h:81-84 | In range, the time field stands for TIME * 100 + NSEC - NSEC mod 100 nanoseconds, and the time-out is NSEC in whole milliseconds while that fits |
| `TimespecArithmetic.WinTimeModulo` | contester/contrib/mysql/include/my_pthread.h:81-84 | In every case the time field is, modulo 2^64, the time plus the offset in units of 100 nanoseconds, an offset from 2^63 up being negative and cut toward zero |
| `TimespecArithmetic.WinTimeLosesTheRemainder` | contester/contrib/mysql/include/my_pthread.h:81-84 | The Windows form loses exactly NSEC mod 100, which the POSIX form keeps |
| `TimespecArithmetic.WinCmpCompares` | contester/contrib/mysql/include/my_pthread.h:101-104 | The Windows comparison is that of the 64-bit numbers, all three results |
| `TimespecArithmetic.WinDiffIsExact` | contester/contrib/mysql/include/my_pthread.h:105-106 | The Windows difference is the exact gap if and only if it fits in a signed 64-bit integer |
| `TimespecArithmetic.WinDiffModulo` | contester/contrib/mysql/include/my_pthread.h:105-106 | It is always the gap modulo 2^64, as a signed number |
| `TimespecArithmetic.WinCompareSubtract` | contester/contrib/mysql/include/my_pthread.h:101-106 | Windows comparison and difference are those of the requested times cut to 100 nanoseconds |
| `Numeric.MyAlignIsLeastMultiple` | contester/contrib/mysql/include/my_global.h:596 | For every A and power of two L of the same unsigned type, the result is the least multiple of L not below A, modulo the word; it is not below A if and only if the sum does not overflow |
| `Numeric.MyAlignFits` | contester/contrib/mysql/include/my_global.h:596 | Without overflow it is that least multiple |
| `Numeric.MyAlignIdempotent` | contester/contrib/mysql/include/my_global.h:596 | Aligning twice is aligning once, also after overflow |
| `Numeric.MyAlignMonotone` | contester/contrib/mysql/include/my_global.h:596 | Without overflow, alignment is monotone |
| `Numeric.NarrowMaskLosesHighBits` | contester/contrib/mysql/include/my_global.h:596 | With L of a narrower unsigned type and no overflow, the result is the same if and only if the sum fits that type; otherwise the high bits of A are lost |
| `Numeric.Rint` | contester/contrib/mysql/include/my_global.h:859-876 | The result is an integer; it is the nearest, ties to even, for |x| <= 2^53, and in general if and only if x is not an odd tie too large for the parity check |
| `Numeric.NearestEvenIsUnique` | contester/contrib/mysql/include/my_global.h:852-857 | Being within one half, and even on ties, determines the integer |
| `Numeric.NearestEvenIsOdd` | contester/contrib/mysql/include/my_global.h:852-857 | Rounding commutes with negation |
| `Numeric.NearestEvenIsMonotone` | contester/contrib/mysql/include/my_global.h:852-857 | Rounding is monotone |
| `Numeric.ConversionsAreInverse` | contester/contrib/mysql/include/my_global.h:462-480 | Over exact reals the two conversions are inverse on [0, 2^64), and the way back cuts off the fraction |
| `Matcher.StringsMatch` | checker_rc/matcher.cpp:6-32 | Decides the relation in both modes |
| `Matcher.AnswersMatch` | checker_rc/matcher.cpp:34-46 | True if and only if some answer of the list matches |
| `Matcher.AcceptedIsMonotone` | checker_rc/matcher.cpp:34-46 | More answers accept more; so order and repetition do not matter |
| `Matcher.AllIsMembership` | checker_rc/matcher.cpp:9-13 | In mode ALL exactly the outputs that are among the answers are accepted; with no answers, none in either mode |
| `Matcher.WnlCharacterised` | checker_rc/matcher.cpp:14-28 | WNL holds if and only if the output is not empty and the strings are equal or differ by one final newline whose shorter string does not itself end in one |
| `Matcher.WnlIsEquivalence` | checker_rc/matcher.cpp:14-28 | On non-empty strings WNL is reflexive, symmetric and transitive |
| `Matcher.WnlOnEmptyOutput` | checker_rc/matcher.cpp:9-28 | WNL is reflexive exactly on non-empty outputs; it is not symmetric; ALL implies it except for two empty strings |

## Left out

- Queries and updates: SQL text, quoting and the MySQL client. A query answers from the tables or throws; an update happens or throws and changes nothing.
- Integer columns are 64-bit values and an SQL NULL is the value it reads as, 0 or the empty text; a NULL foreign key or status, which matches no query, is not modelled, nor is a cell that `std::stoll` refuses.
- A load reads one snapshot; changes between two queries of the same load are not modelled.
- The listing order of a table is its order in the snapshot, the same for all queries on it.
- Progress.DrainedExactlyWhen: when a pending identifier is cut to that of a good solution, the exact number of rounds depends on which are cut to which; only a sufficient number is given, and `Liveness.DrainsAtAllExactlyWhen` says exactly when there is one.
- Judging.Checker.CreateFiles: both files are always written; the source does not notice when a stream fails to open or to write, and a stale or missing source would then break isolation.
- The judge's command line, which passes the names of the three files on.
- Files: names are compared as texts (Windows also takes ".JSON" for ".json"; no paths) and text-mode newline translation is not modelled.
- Contester.Serve: covers any finite number of passes of the endless loop; waiting between passes is not modelled.
- Exceptions other than the program's own, such as running out of memory.
- JSON text: string escaping and number formatting; a document is its token sequence.
- `read_config`, the version banner and the connection set-up: they only fill in fields.
- The judge itself beyond its configuration reader: compiling, starting processes, measuring time and memory, and the `check.exe` launch in checker_rc/matcher.cpp:56-103.
- `parse_testlib_checker_report`: one substring search.
- Floating point: `rint` and the conversions are over exact reals; the float stores are over bit patterns. NaN, infinities and rounding of results are not modelled.
- Addresses do not wrap around.
- The `char*` overloads of the byte-order functions, the plain `memcpy` gets and stores of both endianness headers, and the little-endian short and long forms, which only forward to members that are modelled.
- The instrumentation wrappers, read-write locks, cache and character-set headers: their code is not in the repository, or only declares.
