# Verified models of the C systems programs

This project models nine programs of the repository in Dafny and proves what they promise, for
every input, every run and every interleaving. `dafny verify dfyconfig.toml` checks all of it.

| file | what it models |
|---|---|
| `Common.dfy` | bytes, ranges of numbers, and the descriptor table of a process (`Descriptors`) |
| `Pipeline.dfy` | mini-pipeline: three processes and one pipe, every interleaving |
| `Runner.dfy` | parallel-runner: a parent and its children, each with a pipe, every interleaving |
| `Checksum.dfy` | port-scanner: the Internet checksum and the TCP header built with it |
| `Slots.dfy` | the client table of the two chat servers |
| `TcpServer.dfy` | tcp-suite server: the poll loop |
| `MtlsServer.dfy` | mtls-chat server: the poll loop, with the kernel and OpenSSL as the other party |
| `Hexdump.dfy` | hexdump: the writer, and a reader of what it writes |
| `Sniffer.dfy` | packet-sniffer: the capture file, and a reader of the pcap format |
| `Shell.dfy` | mini-shell: `readline`, `tokenize`, `interpret`, `execute` |
| `HttpServer.dfy` | http-server: `get_filename` and `build_http` |

## How the programs are modelled

- The two process protocols are transition systems. One step is one system call of one process;
  `fork` copies the descriptor table, an exit closes everything, a read meets end of file only when
  no process holds the write end, a write breaks only when no process holds the read end. Descriptor
  numbers and process ids are any numbers not in use. A run is a sequence of states from the initial
  one, and the theorems speak about every run.
- The commands the two protocols execute are one process each: it writes a given sequence of bytes in
  pieces of any size, or reads until it has as many bytes as it wants or end of file. A command that
  cannot be executed is part of the pipeline model; in the runner it is a command without output.
- The chat servers are a state, a function for one iteration of the poll loop, and a class with the
  arrays of the C code whose methods are proved equal to that function. What poll, accept, read and
  OpenSSL return comes in as an arbitrary input per iteration.
- In the mTLS server every call to the kernel and to OpenSSL is played against a record of what is open
  and allocated, and logged. Allocated memory may be reused after it is freed. A double free, a use after
  free or a call on a closed descriptor would leave no record, and the theorems say there always is one.
- Loops over buffers are methods on arrays, so every index is proved to be in bounds.
- The checksum and the pcap writer are modelled on a little-endian host.

## Where the code and its documentation differ

- The tcp-suite README promises up to 100 clients; the scan covers slots 2 to 100, so there are at most 99
  (`TcpServer.PrefixIsPeak`), that many there can be, and the next one is not tracked
  (`TcpServer.HundredthIsDropped`).
- The mtls-chat README says the server multiplexes all sockets. It does not keep doing so: `nfds` is lowered
  on every departure, so after a client leaves a slot other than the last, the last client is no longer
  polled. `MtlsServer.CoverageIsLost` gives a run of three iterations, `MtlsServer.IterationPolledIff` the
  exact condition for an iteration and `MtlsServer.CoverageKeptIff` the one for a whole run. Once there is a
  gap, a failed handshake loses a client as well, because it lowers `nfds` too:
  `MtlsServer.FailedHandshakeLosesClient` gives a run of five iterations, `MtlsServer.AcceptStrandsIff` the
  exact condition.
- The shell does not end at end of file: it goes on reading empty lines (`Shell.Interpret`, `Shell.StopsIffExit`).
- The http-server decodes an escape in which `sscanf` finds no number into an arbitrary byte, because its
  variable is then never set (`HttpServer.DecidedIffScannable`); an escape with one digit, a sign or blanks
  before the digits is decoded into a byte all the same.
- The parallel-runner README promises the output in completion order, fastest commands first. `waitpid` may
  return any child that has ended, so a command that ended first can be printed after one that ended later:
  `Runner.OvertakesIff` says for which two commands, `Runner.KeepsOrderIff` when the order holds in every run,
  and `Runner.OvertakingRun` gives the run. A command whose output does not fit a pipe makes the runner hang
  (`Runner.FinishesIffAllFit`).
- The parallel-runner starts the first ten commands but waits once per command, so with more than ten it reads
  past its arrays (`Runner.InBoundsIff`).
- The checksum is exact up to 65537 words; one word more and it can be wrong (`Checksum.BoundIsTight`), and
  `Checksum.ChecksumRightIff` says for every buffer whether it is.

## Model

| member | source | states |
|---|---|---|
| `Pipeline.HoldersParent` | projects/ipc/mini-pipeline/main.c:46-47 | the parent holds each pipe end exactly until the close of that end |
| `Pipeline.HoldersChild1` | projects/ipc/mini-pipeline/main.c:31-33 | child 1 holds the read end until its first close, and a write end until it exits |
| `Pipeline.HoldersChild2` | projects/ipc/mini-pipeline/main.c:40-42 | child 2 holds the write end until its first close, and a read end until it exits |
| `Pipeline.StepConserves` | projects/ipc/mini-pipeline/main.c:22-52 | no step of any process loses, adds or reorders a byte |
| `Pipeline.StepKeepsInv` | projects/ipc/mini-pipeline/main.c:22-52 | every instruction of every process keeps the invariant on tables, order and data |
| `Pipeline.RunInvariant` | projects/ipc/mini-pipeline/main.c:22-52 | the invariant holds in every state of every interleaving |
| `Pipeline.BytesConserved` | projects/ipc/mini-pipeline/main.c:29-47 | in every reachable state what cmd2 has read followed by what is queued is what cmd1 has written |
| `Pipeline.OnlyTheStandardStreamsRemain` | projects/ipc/mini-pipeline/main.c:29-47 | after setup the only descriptor on the write end is child 1's stdout, the only one on the read end child 2's stdin |
| `Pipeline.NotStuck` | projects/ipc/mini-pipeline/main.c:22-52 | in every reachable state that is not final some process can move |
| `Pipeline.RunsAreBounded` | projects/ipc/mini-pipeline/main.c:22-52 | every run ends, within a number of steps linear in the bytes to write |
| `Pipeline.MaximalRunsComplete` | projects/ipc/mini-pipeline/main.c:22-52 | a run that cannot go on has returned with both children exited and cmd2 has all bytes, or as many as it wanted; nothing if a command could not be executed |
| `Runner.IndexOf` | projects/ipc/parallel-runner/main.c:35-38 | the first index with the pid, -1 exactly when there is none |
| `Runner.FindIndex` | projects/ipc/parallel-runner/main.c:35-38 | the scan loop finds that index, and leaves the array exactly when there are more commands than entries and none matches |
| `Runner.WritersOf` | projects/ipc/parallel-runner/main.c:19-28 | only the parent before its close and child i before its exit hold pipe i's write end |
| `Runner.ParentReads` | projects/ipc/parallel-runner/main.c:19-43 | a child that has not been reaped always has a reader |
| `Runner.NoBrokenPipe` | projects/ipc/parallel-runner/main.c:19-43 | so no command is killed by writing to its pipe |
| `Runner.StepKeepsInv` | projects/ipc/parallel-runner/main.c:17-44 | every instruction of the parent and of every child keeps the invariant |
| `Runner.RunInvariant` | projects/ipc/parallel-runner/main.c:17-44 | the invariant holds in every state of every interleaving |
| `Runner.OnlyChildWrites` | projects/ipc/parallel-runner/main.c:17-44 | once the parent has closed its copy only child i holds pipe i's write end, and the read after waitpid never blocks |
| `Runner.ReadersOf` | projects/ipc/parallel-runner/main.c:19-43 | the parent holds the read end of exactly the pipes it has not yet read and closed, and no child that of its own pipe after its first close |
| `Runner.NothingLeftOpen` | projects/ipc/parallel-runner/main.c:28-43 | at the end the parent has open what it started with |
| `Runner.ReadNeverBlocks` | projects/ipc/parallel-runner/main.c:33-43 | at the read nobody holds the write end of the pipe read |
| `Runner.NotStuck` | projects/ipc/parallel-runner/main.c:17-44 | if the output of every command started fits its pipe, some process can always move until the end |
| `Runner.StepDecreases` | projects/ipc/parallel-runner/main.c:17-44 | every step decreases the instructions and bytes left |
| `Runner.RunsAreBounded` | projects/ipc/parallel-runner/main.c:17-44 | every run is finite |
| `Runner.FinishesIffAllFit` | projects/ipc/parallel-runner/main.c:31-44 | a run that cannot go on has finished if and only if every output fits the pipe capacity and there are at most ten commands, and has left its arrays if and only if the first ten fit and there are more |
| `Runner.ReportsAreComplete` | projects/ipc/parallel-runner/main.c:31-44 | at the end each command is reported once, in the order waitpid returned them, with its first min(1024, length) bytes |
| `Runner.InBoundsIff` | projects/ipc/parallel-runner/main.c:15-44 | in every run every index is below MAX, if and only if there are at most MAX commands or some output of the first MAX does not fit |
| `Runner.OvertakingRun` | projects/ipc/parallel-runner/main.c:31-44 | for any two commands started whose outputs fit, a run in which the first ends first and the second is printed first |
| `Runner.OvertakesIff` | projects/ipc/parallel-runner/main.c:31-44 | of two commands one can end first and be printed after the other if and only if both are started and both outputs fit |
| `Runner.KeepsOrderIff` | projects/ipc/parallel-runner/main.c:31-44 | every run prints in completion order if and only if at most one output of the commands started fits |
| `Checksum.AddWords` | projects/networking/port-scanner/main.c:279-285 | the loop and the odd byte compute the 32-bit accumulator |
| `Checksum.Compute` | projects/networking/port-scanner/main.c:278-290 | the function computes `ChecksumOf`, about which the rows below are |
| `Checksum.AccumulatorIsSum` | projects/networking/port-scanner/main.c:282-285 | the accumulator is the plain sum minus a multiple of 2^32 |
| `Checksum.NeverWraps` | projects/networking/port-scanner/main.c:282-285 | through the first 65537 words the accumulator is the plain sum |
| `Checksum.TwoFoldsSuffice` | projects/networking/port-scanner/main.c:287-288 | after two folds the low half is the one's-complement value of any 32-bit sum |
| `Checksum.ChecksumExact` | projects/networking/port-scanner/main.c:278-290 | up to 65537 words the result is the complement of the one's-complement sum |
| `Checksum.ChecksumRightIff` | projects/networking/port-scanner/main.c:278-290 | for every buffer, exactly when the result is right |
| `Checksum.RightIffNoWrap` | projects/networking/port-scanner/main.c:278-290 | for every length a C int can hold, the result is right if and only if the sum of the words is below 2^32 |
| `Checksum.BoundIsTight` | projects/networking/port-scanner/main.c:278-290 | 65538 words of all ones give a wrong result |
| `Checksum.StoredBytesAreNetworkOrder` | projects/networking/port-scanner/main.c:272-290 | the bytes stored without htons are those of the big-endian computation (section 2(B) of RFC 1071) |
| `Checksum.AcceptedIff` | projects/networking/port-scanner/main.c:278-290 | a buffer checks to 0 exactly when its sum is a positive multiple of 65535 |
| `Checksum.StoredChecksumVerifies` | projects/networking/port-scanner/main.c:269-272 | storing a buffer's checksum in a zeroed word makes the buffer check to 0 |
| `Checksum.OneWordChangeDetected` | projects/networking/port-scanner/main.c:278-290 | replacing one word of a buffer that checks to 0 goes undetected exactly when the words are congruent modulo 65535 and the buffer is not all zero |
| `Checksum.PseudoHeaderReads` | projects/networking/port-scanner/main.c:293-301 | the bytes put before the header read as the pseudo header of section 3.1 of RFC 793, and no others do |
| `Checksum.TcpChecksum` | projects/networking/port-scanner/main.c:293-308 | the checksum of the header behind any twelve bytes that read as the pseudo header: both addresses, zero, protocol 6, length 20 |
| `Checksum.FillCheck` | projects/networking/port-scanner/main.c:272 | with the check field filled in, any such pseudo header and the header check to 0 |
| `Checksum.BuildTcph` | projects/networking/port-scanner/main.c:261-275 | for all addresses, ports and sequence numbers the header reads as a SYN with those ports and number, data offset 5 and window 65535, and the segment checks to 0 |
| `Slots.FirstFree` | projects/networking/mtls-chat/server.c:172-173 | the first free slot, or the end when there is none |
| `Slots.FindFree` | projects/networking/mtls-chat/server.c:172-191 | the scan loop of the accept functions finds it |
| `TcpServer.AcceptKeepsTable` | projects/networking/tcp-suite/server.c:71-78 | first fit raises nfds only over slots that are all taken, so nfds - 2 stays the peak |
| `TcpServer.BroadcastReaches` | projects/networking/tcp-suite/server.c:84-89 | the write loop reaches exactly the connections that have not left |
| `TcpServer.StepKeepsInv` | projects/networking/tcp-suite/server.c:60-115 | every iteration of the poll loop keeps the invariant |
| `TcpServer.RunKeepsInv` | projects/networking/tcp-suite/server.c:60-115 | the invariant holds at every loop head of every run |
| `TcpServer.PrefixIsPeak` | projects/networking/tcp-suite/server.c:54-110 | tracked clients lie below nfds, nfds - 2 is the most there have been at once in the run, at most 99 |
| `TcpServer.HundredthIsDropped` | projects/networking/tcp-suite/server.c:54-78 | there is a run with 99 clients at once, after which one more connection leaves the table as it was |
| `TcpServer.IterationSlots` | projects/networking/tcp-suite/server.c:60-115 | what becomes of every slot: its client stays, leaves because it was read and found gone, or the slot, the first free one, is taken |
| `TcpServer.IterationAccepts` | projects/networking/tcp-suite/server.c:62-78 | a connection begins exactly when a client is accepted while a slot is free |
| `TcpServer.IterationLeaves` | projects/networking/tcp-suite/server.c:95-110 | a connection ends exactly in the iteration in which its slot is ready and the read returns 0 or less |
| `TcpServer.RunReads` | projects/networking/tcp-suite/server.c:60-115 | the chunks of a run are, iteration by iteration, what stdin brought when it was ready and accept had not failed; the run ends where poll fails |
| `TcpServer.EveryChunkDelivered` | projects/networking/tcp-suite/server.c:60-115 | a connection has been sent, in order, what was typed from its acceptance to its departure, both iterations included |
| `TcpServer.Server.constructor` | projects/networking/tcp-suite/server.c:45-57 | the table starts empty |
| `TcpServer.Server.DoAccept` | projects/networking/tcp-suite/server.c:71-78 | the scan and the slot assignment do what `Accept` says |
| `TcpServer.Server.DoBroadcast` | projects/networking/tcp-suite/server.c:84-89 | the write loop does what `Broadcast` says |
| `TcpServer.Server.DoRead` | projects/networking/tcp-suite/server.c:95-110 | the read loop frees exactly the slots of the clients that left |
| `TcpServer.Server.Iterate` | projects/networking/tcp-suite/server.c:60-115 | one turn of the loop is one step, and keeps the invariant |
| `TcpServer.Server.Serve` | projects/networking/tcp-suite/server.c:60-115 | on any sequence of inputs the server is in the state of the run |
| `MtlsServer.AcceptedState` | projects/networking/mtls-chat/server.c:172-191 | a completed accept leaves exactly one new descriptor and one object bound to it, in the first free slot |
| `MtlsServer.FailedHandshakeFrees` | projects/networking/mtls-chat/server.c:197-213 | whichever way the handshake fails, what it allocated is freed |
| `MtlsServer.RejectedState` | projects/networking/mtls-chat/server.c:132-137 | after a failed handshake table and world are as before, but for nfds and the counters |
| `MtlsServer.FillKeepsCount` | projects/networking/mtls-chat/server.c:172-185 | first fit keeps nfds - 2 at or below the number of clients |
| `MtlsServer.UseIsSafe` | projects/networking/mtls-chat/server.c:226-230 | a call on a live slot's object is legal and only logged |
| `MtlsServer.BroadcastIsSafe` | projects/networking/mtls-chat/server.c:224-231 | a broadcast is one legal SSL_write to the object of every live slot from 2 to nfds-1, in slot order, and nothing else |
| `MtlsServer.MonitorStep` | projects/networking/mtls-chat/server.c:233-270 | the calls made for each outcome of SSL_read, in order; the slot is freed if the client leaves and nothing changes otherwise; the invariant is kept |
| `MtlsServer.StepKeepsInv` | projects/networking/mtls-chat/server.c:120-159 | every iteration of the poll loop keeps the invariant |
| `MtlsServer.RunKeepsInv` | projects/networking/mtls-chat/server.c:120-159 | the invariant holds at every loop head of every run |
| `MtlsServer.ObjectsAreSound` | projects/networking/mtls-chat/server.c:120-270 | no double free, no use after free; each client slot has its own live object bound to its own open descriptor; no leak; accepted minus closed is the number of clients |
| `MtlsServer.BranchCalls` | projects/networking/mtls-chat/server.c:123-140 | the calls of the accepting branch for every outcome, the table it leaves, and when the iteration gets past it |
| `MtlsServer.PassIs` | projects/networking/mtls-chat/server.c:153-158 | one pass asks exactly the clients that are ready below a bound that every departure lowers, and frees exactly the slots of those that leave |
| `MtlsServer.IterationCalls` | projects/networking/mtls-chat/server.c:120-159 | all calls of an iteration in order: the accepting branch; if it gets past it and reads a line, one SSL_write per polled client; if it gets past that, the pass over the clients |
| `MtlsServer.PolledIffCompact` | projects/networking/mtls-chat/server.c:132-191 | 2 <= nfds <= MAX_CLIENTS, nfds - 2 never exceeds the clients, and all are polled exactly when they fill 2..nfds-1 |
| `MtlsServer.DepartureStrandsLast` | projects/networking/mtls-chat/server.c:261-269 | from such a state a departure keeps all polled if and only if it is from the last slot, and else strands exactly the last client |
| `MtlsServer.AcceptPolledIff` | projects/networking/mtls-chat/server.c:124-140 | after the accepting branch all clients are polled if and only if there is no gap between them when it gives out a slot, and they all were before when it does not |
| `MtlsServer.AcceptKeepsPolled` | projects/networking/mtls-chat/server.c:124-140 | from a state in which all are polled, accepting, refusing and failing handshakes strand no client |
| `MtlsServer.AcceptStrandsIff` | projects/networking/mtls-chat/server.c:124-140 | from any reachable state, the accepting branch stops polling a client it polled before if and only if a handshake fails in a slot below the last polled one and that one is taken |
| `MtlsServer.StrandedStays` | projects/networking/mtls-chat/server.c:154-158 | a client beyond nfds is not reached by the monitoring loop |
| `MtlsServer.MonitorKeepsStranded` | projects/networking/mtls-chat/server.c:153-158 | so one pass of the monitoring loop never restores coverage |
| `MtlsServer.MonitorKeepsPolledIff` | projects/networking/mtls-chat/server.c:153-158 | one pass of the monitoring loop keeps all polled if and only if nobody leaves a slot before the last |
| `MtlsServer.IterationPolledIff` | projects/networking/mtls-chat/server.c:120-159 | from any reachable state, all clients are polled after an iteration if and only if the accepting branch leaves them so and nobody leaves a slot before the last; so only giving out a slot to a table without a gap restores coverage |
| `MtlsServer.IterationKeepsPolledIff` | projects/networking/mtls-chat/server.c:120-159 | from a state in which all are polled, an iteration keeps it so if and only if nobody leaves a slot before the last |
| `MtlsServer.CoverageKeptIff` | projects/networking/mtls-chat/server.c:120-159 | in every run all clients are polled at every loop head if and only if in no iteration a client leaves a slot before the last |
| `MtlsServer.CoverageIsLost` | projects/networking/mtls-chat/server.c:120-159 | a run of three iterations after which a connected client is polled no more |
| `MtlsServer.FailedHandshakeLosesClient` | projects/networking/mtls-chat/server.c:132-137 | a run of five iterations in which a failed handshake ends the polling of a connected client |
| `MtlsServer.Server.constructor` | projects/networking/mtls-chat/server.c:103-118 | the table starts empty |
| `MtlsServer.Server.TcpAcceptFunction` | projects/networking/mtls-chat/server.c:162-195 | the function does what `TcpAccept` says |
| `MtlsServer.Server.TlsAcceptFunction` | projects/networking/mtls-chat/server.c:197-213 | the function does what `TlsAccept` says |
| `MtlsServer.Server.BroadcastAll` | projects/networking/mtls-chat/server.c:224-231 | the function does what `BroadcastFrom` says |
| `MtlsServer.Server.MonitorOne` | projects/networking/mtls-chat/server.c:233-270 | the function does what `Monitor` says |
| `MtlsServer.Server.MonitorAll` | projects/networking/mtls-chat/server.c:153-158 | the loop, with its moving bound, does what `MonitorFrom` says |
| `MtlsServer.Server.Iterate` | projects/networking/mtls-chat/server.c:120-159 | one turn of the loop is one step, and keeps the invariant |
| `Hexdump.PrintBits` | tools/hexdump/main.c:199-204 | the bit loop prints the eight binary digits |
| `Hexdump.PrintBytes` | tools/hexdump/main.c:189-207 | the first loop prints the cells of the bytes read |
| `Hexdump.PrintPadding` | tools/hexdump/main.c:209-224 | the second loop prints the blank cells that are missing |
| `Hexdump.PrintData` | tools/hexdump/main.c:187-225 | together they print the data column |
| `Hexdump.PrintAscii` | tools/hexdump/main.c:228-234 | two blanks and the ASCII column |
| `Hexdump.PrintLine` | tools/hexdump/main.c:158-168 | the loop body prints one line |
| `Hexdump.Run` | tools/hexdump/main.c:150-172 | the program prints the dump of the whole file |
| `Hexdump.AsciiShows` | tools/hexdump/main.c:228-234 | the ASCII column shows each printable byte in its place and a dot for any other |
| `Hexdump.ReadColumn` | tools/hexdump/main.c:187-225 | a data column, complete or padded, reads back as the bytes of its line |
| `Hexdump.ReadLineRoundTrip` | tools/hexdump/main.c:158-168 | a line reads back as its offset and its bytes |
| `Hexdump.DumpRoundTrip` | tools/hexdump/main.c:150-172 | for every file, width, grouping, format and choice of columns the dump reads back as the file |
| `Hexdump.OffsetsAreMultiples` | tools/hexdump/main.c:174-185 | what line k shows before its colon is k * width, in upper-case hexadecimal or in decimal as asked, with eight places or as many as it needs |
| `Hexdump.ColumnsAlign` | tools/hexdump/main.c:187-225 | every data column has width * digits + 2 * ((width - 1) / grouping) characters, digits being 8 in binary and 2 in hexadecimal |
| `Hexdump.DataShows` | tools/hexdump/main.c:187-225 | in the data column byte i stands at i * digits + 2 * (i / grouping), in hexadecimal or in binary, with blanks in the gaps and in the cells of an incomplete line |
| `Hexdump.DumpShows` | tools/hexdump/main.c:150-234 | the dump has a line per width bytes, closed by a newline; line k shows the offset k * width, a colon and two blanks, the bytes from there on, and two blanks and their characters |
| `Sniffer.Matches` | projects/networking/packet-sniffer/main.c:129-139 | the filter accepts exactly the interfaces named, or when none is named all but lo |
| `Sniffer.Capture` | projects/networking/packet-sniffer/main.c:96-154 | the loop writes the file of the run |
| `Sniffer.RecordReads` | projects/networking/packet-sniffer/main.c:144-152 | a record reads back as its times, lengths and bytes, whatever follows |
| `Sniffer.HeaderReads` | projects/networking/packet-sniffer/main.c:87-96 | the file header is a pcap 2.4 header with snap length 65535, for Ethernet |
| `Sniffer.HeaderBytes` | projects/networking/packet-sniffer/main.c:87-96 | the 24 bytes of it |
| `Sniffer.FileIs` | projects/networking/packet-sniffer/main.c:96-154 | at every loop head the file is one header and the records kept since the last rotation |
| `Sniffer.CaptureReadsBack` | projects/networking/packet-sniffer/main.c:86-154 | at every loop head the file reads as exactly the frames of length 1..65535 from an interface named, or from any but lo when none is named, received since the last truncation, in order |
| `Sniffer.RunsIff` | projects/networking/packet-sniffer/main.c:101-121 | the loop has gone on exactly when every recvfrom brought a frame and every rotation, due after 7200 seconds, opened its file |
| `Sniffer.LastStep` | projects/networking/packet-sniffer/main.c:101-121 | the event that ends the loop leaves the file as it was, or empty but for its header after a rotation |
| `Shell.ReadLine` | projects/ipc/mini-shell/main.c:82-113 | the line up to newline or end of file, NUL-terminated inside the buffer across every growth |
| `Shell.Strtok` | projects/ipc/mini-shell/main.c:125-136 | the next word, cut off in place |
| `Shell.Tokenize` | projects/ipc/mini-shell/main.c:116-140 | the spans strtok finds, every one of which still reads as its word at the end |
| `Shell.SpansAreMaximalRuns` | projects/ipc/mini-shell/main.c:125-137 | the spans found are exactly the maximal runs without blank, tab, carriage return and newline, in order |
| `Shell.WordsAreRuns` | projects/ipc/mini-shell/main.c:116-140 | the words of a line are the texts of those runs before its first NUL |
| `Shell.Execute` | projects/ipc/mini-shell/main.c:166-177 | status 0 exactly for exit |
| `Shell.ReadCommand` | projects/ipc/mini-shell/main.c:72-73 | reading and tokenizing give the words of the next line |
| `Shell.Interpret` | projects/ipc/mini-shell/main.c:64-80 | for every input and every number of turns: the non-empty word lists of the lines read are dispatched, the loop goes on until it has read an exit, and with a turn per line it has dispatched the session up to the first exit and has ended if and only if there is one |
| `Shell.LineAtIs` | projects/ipc/mini-shell/main.c:82-113 | the n-th readline returns the n-th line, and an empty one after end of file |
| `Shell.LinesJoin` | projects/ipc/mini-shell/main.c:94-101 | the lines of the input are its pieces between newlines |
| `Shell.StopsIffExit` | projects/ipc/mini-shell/main.c:70-79 | some turn ends the loop if and only if some line of the input is an exit |
| `HttpServer.DecodedLength` | projects/networking/http-server/main.c:144-153 | the result is shorter than the text by two per escape taken |
| `HttpServer.ScanIsStandard` | projects/networking/http-server/main.c:146-147 | the number found behind a '%' is the one of sections 7.21.6.2 and 7.22.1.4 of C11: the longest item of at most two characters, converted if it is a number |
| `HttpServer.TrimmedIs` | projects/networking/http-server/main.c:146-147 | before the number all white space of the C locale is skipped and nothing else |
| `HttpServer.DecidedIffScannable` | projects/networking/http-server/main.c:144-153 | the text decides the result if and only if sscanf finds a number in every escape taken |
| `HttpServer.OneDigitEscape` | projects/networking/http-server/main.c:145-149 | "%4g" is decoded into the byte 4 |
| `HttpServer.GetFilename` | projects/networking/http-server/main.c:139-156 | for every text, escapes without a number included, the decoded text and its terminator, within the len + 1 bytes allocated |
| `HttpServer.DecodeInvertsEncode` | projects/networking/http-server/main.c:139-156 | decoding inverts every encoder that escapes each '%' (section 2.1 of RFC 3986) |
| `HttpServer.ReadFile` | projects/networking/http-server/main.c:187-189 | for every sequence of short reads and errors, header and a prefix of the file; without error as much as fits |
| `HttpServer.HeaderIs` | projects/networking/http-server/main.c:177-178 | the header is the status line 200, the content type and an empty line |
| `HttpServer.BuildHttp` | projects/networking/http-server/main.c:166-192 | the same for the whole response, never longer than 52428800 bytes, and the 404 text when the file cannot be opened |

## Left out

- Clients, udp-messenger, cat, io-redirector, text-readability and scrape.py: thin input and output without a deep property.
- greyscale-filter: not modelled.
- Certificate and socket setup, OpenSSL internals, regular expressions, MIME lookup, threads, signals and ioctl calls: only the results of these calls appear, as inputs.
- Command-line parsing: the models start from the option ranges it enforces.
- Failures of fork and malloc, and commands that fork themselves: a command is one process.
- Runner.Do: what follows once the arrays have been left, and what printf does with the buffer (it stops at a NUL and a full buffer has none), is not modelled.
- TcpServer.Step: a client accepted while the table is full is never closed by the program and is not tracked here; writes are complete; what is echoed to stdout is not modelled.
- MtlsServer.Step: the bytes of messages are not modelled, only which objects they are read from and written to.
- Hexdump.OffsetText: offsets are unbounded numbers; wrap-around at 2^64 bytes is not modelled.
- Sniffer.Capture: writes succeed, and a signal that ends the loop is a run that stops there.
- Shell.Tokenize: the capacity of the token array is not modelled; tokens are a sequence. Status 1 stands for whatever a command other than exit does.
- HttpServer.Scan: "0x" within the two characters is no number, as C11 has it; a library that reads it as 0 stores one of the bytes left open.
