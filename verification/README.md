# Frobio, modelled and verified

Frobio is network software for 6809 Color Computers: C programs on the machine and the Go server
they talk to. This project models its stateful cores in Dafny and proves what they keep over every
run. `dafny verify dfyconfig.toml` checks all of it.

- **FUSE rendezvous** (`Fuse*.dfy`). Clients and daemons meet through path descriptors that point
  at each other. `Fuse` gives each stretch of kernel code between two sleeps as a step, `FuseRpc`
  says independently of it what a call service may do, `FuseProofs` and `FuseRuns` prove that every
  run is such a service, `FuseMeaning` what that gives a caller byte by byte, `FuseClean` what a
  failed reservation does, and `FuseManager` has the C functions as methods on the descriptors.
- **Memory managers**. `Octet` and `OctetHeap` are the mark-and-sweep collector, as its comments
  intend it; `Malloc` and `MallocHeap` the power-of-two allocator.
- **Wiznet rings** (`WizRing`). The chip runs between any two accesses of the host.
- **Regular expressions** (`Regex*.dfy`): a language defined without the matcher, the backtracking
  matcher, the compiler and the search; `RegexMeaning` has what is found in the characters themselves.
- **List codec** (`ListCodec`, `ListBuf`, `ListEnds`), **tokeniser** (`Tokens`,
  and `TokenMeaning` character by character) and **interpreter** of the command language: `Interp`
  evaluates to a depth, `InterpProofs` is about its call frames, `InterpRules` says by rules what
  evaluation means, `InterpYields` and `InterpMeaning` that the two agree, and `InterpText` starts
  from a command's text.
- **TFTP fetch** (`Tftp`, `TftpFiles`), after RFC 1350, sections 2 and 6.
- **Mux sessions** (`Mux`, `MuxProofs`, `MuxRuns`, `MuxTexts`) between `r.c` and the server's commands.
- **Remote sectors** (`Disk`, `DiskProofs`, `DiskRuns`): driver, server and network as three
  independent actors.
- **Drive images** (`Drives`, `DriveProofs`, `DriveSession`, `DriveReads`) for HDB-DOS.
- **Broadcast burn** (`Burn`, `BurnRescue`): cutting an image into records, and the rescue loop.
- **Calendar** (`Calendar`) and **RC4** (`Arcfour`, `ArcfourMeaning`).
- Bytes, 16-bit words and joined sequences, common to all, are in `Common.dfy`.

Protocols are state machines over their steps, and their theorems are about every schedule. Code
that changes fields or arrays in place is a class whose methods are proved to do what a
specification function says; the theorems are about that function.

## Where the code falls short

Each of these is a lemma below, or part of a method's contract; the condition under which the code
does as it should is exact.

- FUSE: a failed task reservation leaves the daemon taken for good, so that the next client halts
  the system (`FailedReservationJams`, `JamStays`); at close it can leave a link count that nothing
  accounts for (`LinkCountCanLeak`). Neither happens while reservations succeed (`CleanExactly`,
  `ReservedRunsAreClean`). A second client that calls a daemon in mid-operation halts the
  system, as does one that waits 50 ticks: these are the guards in `AssertsExactly`.
- `octet2.c` departs from its comments at lines 79, 118, 149 and 177-181. The heap is modelled as
  the comments say, and what the text does instead is stated beside it (`SweepAsWritten`,
  `ReuseAsWrittenIsSizedOnlyInBucketZero`, `CapacityIndexAsWritten`, `CopyLengthAsWritten`). Its test
  for room passes when the sum wraps at 64K (`RoomTestPasses`).
- `malloc.c`: a request of 32768 bytes or more gets 8 (`BucketHoldsRequest`), into which `ReAlloc`
  copies whatever the old block held (`MallocHeap.Heap.ReAlloc`), and the test against `heap_max`
  passes when the sum wraps at 64K (`BrkTestPasses`).
- `regexp.c` drops all but the first 29 symbols of a pattern (`CompileWritten`); a lone backslash at
  its end compiles to whatever token the array held (`StaleDecides`); a `-` may be refused by a class
  that covers it (`DashExactly`, `DashIsRefused`); and an escaped `-` also stands for a range from the
  backslash to what follows it (`ClassExactly`, `PlainUnion`).
- `ElemLen` counts the backslashes of a braced element (`LengthExactly`, `EncodedLength`); nothing
  uses its count.
- `SplitList` runs past a text that ends in an odd run of backslashes inside braces
  (`SplitOverruns`).
- `SplitList` takes trailing whitespace for an empty element (`TrailingBlank`).
- `fuse-tftp.c` identifies blocks by 16 bits alone (`SafeExactly`, `LateDuplicate`), and never
  acknowledges a block again, so that one lost acknowledgement ends the transfer
  (`FinishesUnlessAckLost`).
- Mux: `putt` stops short at a NUL (`PutTCopies`), and texts sent to the client at theirs (`GetTCopies`,
  `TextsAreShown`); and a command that panics in its turn hangs both
  sides (`PanicHangsExactly`, `PutTWriteFailureHangs`).
- The server panics at a read of the sector within which the image file ends (`FinishesExactly`).
- HDB-DOS images of the same base name loaded in one second are saved to one file, and one of them
  is lost (`SavedFilesKept`, `SameNameOverwrites`, `SessionLosesAnImage`).
- `broadcast-burn.go` misplaces a group that starts in page 0 but not at 0
  (`RecordsAreRightExactly`). An image that reaches into the packet or the marks of its own
  records in `rescue.c` can be lost without a sign of it (`BarImageIsLost`, `PacketImageIsLost`,
  `PacketLosesExactly`, `BarHoldsTheMark`); elsewhere none is (`AllMarkedIsAllThere`).
- `f-ntp.c` takes 2100 for a leap year (`DateOf`).
- `ncl.c` runs past a text that ends in an odd run of backslashes inside brackets
  (`OverrunsExactly`, `TokenOverrunsExactly`).
  A blank at the end of a line joins it to the next (`BlankJoinsLines`), and within quotes a quote
  after a lone `$` opens another quoted word (`QuotedWord`).

## Model

| member | source | states |
|---|---|---|
| `FuseRuns.Delivery` | frob3/fuse-modules/fusec.c:796-1051 | In every run that has not halted, a client operation that returns gives exactly the reply its daemon wrote after reading that very request, with nothing else done by that daemon in between: the daemon's buffer had the request byte by byte, and the caller's registers and memory have the reply byte by byte; and each call returns at most once |
| `FuseMeaning.CallsMean` | frob3/fuse-modules/fusec.c:796-1051 | Likewise from step to step of a run: the question is that of the client's own call, with its registers, memory and path name, and the answer the one the daemon's write was made with |
| `FuseMeaning.RequestsMean` | frob3/fuse-modules/fusec.c:818-876 | Any request a daemon is given, answered or not, carries the operation, path, A, B and size of the call put to it, and the path name or the caller's memory byte by byte as far as there is room |
| `FuseMeaning.StepMeans` | frob3/fuse-modules/fusec.c:952-1051 | A question is put only by a client's open, call or last close, a request is as long as the daemon's read had room for, and an answer is given only by a daemon's write |
| `FuseRpc.LeavesExactly` | frob3/fuse-modules/fusec.c:907-931 | A read that ends well leaves the lesser of the two sizes and that many bytes of the reply, a write the reply's size, anything else what was there; and the specification of DaemonWriteC is just that |
| `FuseRpc.RequestsExactly` | frob3/fuse-modules/fusec.c:818-875 | Likewise what is put in the daemon's buffer |
| `FuseRuns.NoAnswerLost` | frob3/fuse-modules/fusec.c:933-942 | Once a request is answered, its process can resume, and resuming returns that answer and no other |
| `FuseRuns.AssertsExactly` | frob3/fuse-modules/fusec.c:727-767 | After any run the next step halts, or wraps a link byte, if and only if one of the named guards holds; no other assertion, Os9Awaken, CheckPeer or CheckClient ever fires |
| `FuseRuns.NeverWild` | frob3/fuse-modules/fusec.c:985-1001 | No run follows a pointer to a stack frame that has gone or to a path that has been closed |
| `FuseRuns.LinksConserved` | frob3/fuse-modules/fusec.c:753-767 | In every reachable state a descriptor's link count is its process links plus the descriptors whose peer points at it, if and only if it is not an orphan whose daemon was closed; what IOMan does with the descriptor of an open that failed is left out |
| `FuseRuns.LinkCountCanLeak` | frob3/fuse-modules/fusec.c:1116-1140 | A run with a failed task reservation at close, after which the daemon closes, leaves a link count that nothing accounts for |
| `FuseClean.FailedReservationJams` | frob3/fuse-modules/fusec.c:974-995 | A task reservation that fails, at an open, a call or a close, leaves the daemon pointing at a client that is not in a call; at a close it also leaves the client's descriptor behind |
| `FuseClean.CleanExactly` | frob3/fuse-modules/fusec.c:974-995 | From a state in which every daemon with a peer is working for it and no descriptor is left over, a step leads to another exactly when no reservation fails in it |
| `FuseClean.ReservedRunsAreClean` | frob3/fuse-modules/fusec.c:974-995 | So in every run whose reservations all succeed no daemon is ever jammed, and every descriptor's link count is its process links plus the peers pointing at it |
| `FuseRuns.JamStays` | frob3/fuse-modules/fusec.c:974-995 | From then on no step un-jams that daemon, delivers to it or submits to it, short of closing it |
| `FuseRuns.OneDaemonPerName` | frob3/fuse-modules/fusec.c:771-792 | No two open daemons have the same name |
| `FuseRuns.WriteOutOfTurn` | frob3/fuse-modules/fusec.c:882-888 | A daemon that writes without having read a request never completes the write |
| `FuseRuns.RunKeeps` | frob3/fuse-modules/fusec.c:727-1140 | Every run keeps the whole invariant, and its events are what a correct call service may do |
| `FuseRuns.StepKeeps` | frob3/fuse-modules/fusec.c:727-1140 | Every kernel segment keeps it, and halts or wraps exactly at its guard |
| `FuseRpc.StagesExplained` | frob3/fuse-modules/fusec.c:796-944 | Each call's stage is explained by its own question, its delivery and its daemon's answer, in that order |
| `FuseRpc.AtMostOneServed` | frob3/fuse-modules/fusec.c:974-980 | A daemon serves at most one call at a time |
| `FuseRpc.AcceptedReturns` | frob3/fuse-modules/fusec.c:1043-1050 | In any accepted log a return carries the reply to the same call's question, byte by byte |
| `FuseRpc.ReturnsOnce` | frob3/fuse-modules/fusec.c:1043-1050 | No call returns twice |
| `FuseProofs.SetPeerLinks` | frob3/fuse-modules/fusec.c:753-757 | SetPeer keeps every link count equal to users plus pointers |
| `FuseProofs.ClearPeerLinks` | frob3/fuse-modules/fusec.c:763-767 | ClearPeer does, for daemon and client |
| `FuseProofs.RemoveDaemonLinks` | frob3/fuse-modules/fusec.c:1127-1131 | Closing a daemon leaves at most an orphan out of balance |
| `FuseProofs.OpenDaemonKeeps` | frob3/fuse-modules/fusec.c:771-792 | OpenDaemon keeps the invariant; it halts exactly when the name is free but too long |
| `FuseProofs.ClientOpenKeeps` | frob3/fuse-modules/fusec.c:948-995 | An opening client operation keeps it, whether or not a task number can be reserved |
| `FuseProofs.ClientCallKeeps` | frob3/fuse-modules/fusec.c:975-1029 | Every later client operation keeps it |
| `FuseProofs.ClientResumeKeeps` | frob3/fuse-modules/fusec.c:1043-1050 | Resuming a client keeps it and returns the reply in its own stack frame |
| `FuseProofs.CloseKeeps` | frob3/fuse-modules/fusec.c:1116-1140 | CloseC keeps it, on every path through it |
| `FuseProofs.ReadResumeKeeps` | frob3/fuse-modules/fusec.c:806-878 | A daemon read keeps it and delivers the request of the client that points at it |
| `FuseProofs.DaemonWriteKeeps` | frob3/fuse-modules/fusec.c:882-944 | A daemon write keeps it, answers the call it was reading, and leaves the client the bytes of the reply |
| `FuseProofs.SpinTickKeeps` | frob3/fuse-modules/fusec.c:727-739 | A tick of SwitchProcess keeps it |
| `FuseManager.Manager.FindDaemon` | frob3/fuse-modules/fusec.c:691-725 | The table walk finds the first descriptor that is a daemon of that name, or none |
| `FuseManager.Manager.Enter` | frob3/fuse-modules/fusec.c:727-1140 | The code over one table of descriptors, updated field by field, entered wherever the kernel may: it keeps the invariant and the log of correct calls, never follows a bad pointer, stops exactly at the named guards, and a daemon's write leaves the client the bytes of its reply |
| `OctetHeap.Heap.Mark` | frob3/octet/octet2.c:136-161 | omark marks exactly what is reachable from the object through unmarked ones, changes nothing else, and ends because fewer objects are left unmarked; false where it panics |
| `OctetHeap.Heap.MarkChildren` | frob3/octet/octet2.c:147-160 | The payload scan leaves every child of the object marked |
| `OctetHeap.Heap.MarkRoots` | frob3/octet/octet2.c:168-169 | Marking from each root in turn |
| `OctetHeap.Heap.MarkRoot` | frob3/octet/octet2.c:136-145 | One root |
| `OctetHeap.MarksAreLive` | frob3/octet/octet2.c:136-169 | After marking from all roots a block is marked if and only if it is reachable from a root |
| `OctetHeap.MarkingDecreases` | frob3/octet/octet2.c:145-157 | The measure of omark: marking leaves fewer unmarked blocks |
| `OctetHeap.Heap.Collect` | frob3/octet/octet2.c:163-191 | ogc keeps the heap valid, whatever stale pointers the garbage holds; every reachable object is unchanged and unmarked, every other block is cleared and on its bucket's free list, and no omark panics |
| `OctetHeap.Heap.Sweep` | frob3/octet/octet2.c:171-190 | The sweep puts exactly the unreachable blocks on the free lists of their buckets, each once |
| `OctetHeap.Heap.SweepBlock` | frob3/octet/octet2.c:175-189 | One turn of the sweep |
| `OctetHeap.CollectedAll` | frob3/octet/octet2.c:163-191 | Marking then sweeping is a collection |
| `OctetHeap.CollectedOk` | frob3/octet/octet2.c:163-191 | A collection keeps the tiling, and the roots sound |
| `OctetHeap.ClosedIsSound` | frob3/octet/octet2.c:147-159 | Blocks in use that include the roots and their own children hold everything live, with sound pointers |
| `OctetHeap.LiveStays` | frob3/octet/octet2.c:163-191 | Whatever leaves the live objects alone keeps the roots sound |
| `OctetHeap.Heap.AllocTry` | frob3/octet/octet2.c:70-96 | oalloc_try gives a zeroed object of the class asked for and the least bucket, on memory no object in use held; 0 exactly when there is no free block of the bucket and no room; and carves beyond the heap exactly when there is no free block and the 16-bit sum passes 64K |
| `OctetHeap.RoomTestPasses` | frob3/octet/octet2.c:86 | The 16-bit test for room passes exactly when there is room or the sum wraps |
| `OctetHeap.Heap.TakeFirst` | frob3/octet/octet2.c:76-82 | Reuse of the head of a free list |
| `OctetHeap.Heap.Carve` | frob3/octet/octet2.c:84-95 | Carving at ORamUsed extends the tiling by that block |
| `OctetHeap.Heap.Allocate` | frob3/octet/octet2.c:98-110 | oalloc does so after at most one collection, and disturbs no live object; it panics exactly for class 0, a size too big, or no room while every block of the bucket is live, and wraps exactly as oalloc_try does |
| `OctetHeap.CollectedSpace` | frob3/octet/octet2.c:98-106 | After a collection there is no space for a bucket exactly when there was no room and all its blocks were live |
| `OctetHeap.Heap.ReAlloc` | frob3/octet/octet2.c:112-123 | orealloc keeps an object that is large enough; otherwise it moves its class and words to a new object with zeros after them, frees the old one if asked, leaves every other live object as it was, keeps the roots sound, and panics or wraps exactly as oalloc does |
| `OctetHeap.Heap.Free` | frob3/octet/octet2.c:125-134 | ofree clears the object and puts it on its bucket's list; nothing else changes, and roots that did not lead to it stay sound, whatever garbage points at it |
| `OctetHeap.FreeOk` | frob3/octet/octet2.c:125-134 | Freeing keeps tiling and lists |
| `OctetHeap.TakeOk` | frob3/octet/octet2.c:76-82 | So does taking the first free block |
| `OctetHeap.CarveOk` | frob3/octet/octet2.c:84-95 | So does carving |
| `OctetHeap.BlockPlaced` | frob3/octet/octet2.c:31-35 | Every block lies within the heap, at an even address, with its bucket's capacity |
| `Octet.TilesDisjoint` | frob3/octet/octet2.c:84-95 | Two blocks of a tiling do not overlap |
| `Octet.ClosedUnderReach` | frob3/octet/octet2.c:147-159 | A set closed under children holds all that its members reach |
| `Octet.SizeToBucket` | frob3/octet/octet2.c:37-43 | The bucket is the smallest that holds the size, or none does |
| `OctetHeap.SweepAsWritten` | frob3/octet/octet2.c:171-190 | The text, having masked the mark bit off, sweeps every block: whatever was marked, it leaves every live object as it was if and only if every root is null |
| `Octet.ReuseAsWrittenIsSizedOnlyInBucketZero` | frob3/octet/octet2.c:79 | The text zeroes from the header on; what it leaves is a sound block if and only if the bucket was 0, and the intended one if also the last word was 0 |
| `Octet.CapacityIndexAsWritten` | frob3/octet/octet2.c:145-152 | The text indexes the capacity table past its end; its scan finds the children of every object of that size and nothing else if and only if the word it finds there ends the scan with the object's last word |
| `Octet.CopyLengthAsWritten` | frob3/octet/octet2.c:115-118 | The text copies more than the old object holds; the new object is the one intended if and only if the bytes copied from beyond the old one are zero |
| `WizRing.Wiz.TcpRecv` | frob3/axiom41/axcore.c:1401-1410 | Whatever the chip does in between, the bytes returned are the next ones of the stream that arrived, in order, across both wraps; on an error nothing is lost; it stops short only at an error of the link or with less than the next chunk waiting |
| `WizRing.Wiz.RecvChunkTry` | frob3/axiom41/axcore.c:1365-1387 | A chunk read is the next stretch of the arrived stream; it is put off only while too few bytes wait, fails exactly for an error of the link, and then nothing changes |
| `WizRing.Wiz.RecvChunk` | frob3/axiom41/axcore.c:1389-1397 | So is a chunk retried |
| `WizRing.Wiz.ReadOut` | frob3/axiom41/axcore.c:1371-1382 | The copy in one or two pieces is that stretch |
| `WizRing.Wiz.GetN` | frob3/axiom41/axcore.c:1378-1381 | Bytes read from the ring one by one while more arrive |
| `WizRing.Wiz.Acknowledge` | frob3/axiom41/axcore.c:1384-1385 | Moving the read pointer frees exactly those bytes |
| `WizRing.Wiz.TcpSend` | frob3/axiom41/axcore.c:1473-1482 | What the chip may transmit grows by exactly the data, in order, up to an error of the link or a lack of room for the next chunk |
| `WizRing.Wiz.SendChunk` | frob3/axiom41/axcore.c:1463-1472 | A chunk sent is appended whole, or not at all: for an error of the link, or while the ring has too little room |
| `WizRing.Wiz.CopyIn` | frob3/axiom41/axcore.c:1440-1454 | The copy in one or two pieces fills the slots after the committed ones, and overwrites none still to be transmitted |
| `WizRing.Wiz.Finalize` | frob3/axiom41/axcore.c:1456-1461 | Only then is the data committed |
| `WizRing.Wiz.ChipRuns` | frob3/axiom41/axcore.c:1365-1387 | Any number of chip steps keep the rings' meaning |
| `WizRing.MaskedRegister` | frob3/axiom41/axcore.c:1372 | A masked 16-bit pointer is the slot of the full count |
| `WizRing.RegisterDifference` | frob3/axiom41/axcore.c:1361 | The 16-bit difference of two counts at most a ring apart is their difference |
| `WizRing.SlotsDistinct` | frob3/axiom41/axcore.c:1372-1382 | Bytes less than a ring apart never share a slot |
| `RegexMatch.MatchPattern` | frob3/ncl/regexp.c:446-467 | The matcher ends, and succeeds exactly when a prefix of the text (all of it under $) is in the pattern's language |
| `RegexMatch.MatchStar` | frob3/ncl/regexp.c:395-403 | matchstar succeeds exactly when some number of repetitions leaves an accepted rest |
| `RegexMatch.MatchPlus` | frob3/ncl/regexp.c:405-411 | matchplus, with at least one |
| `RegexMatch.MatchQuestion` | frob3/ncl/regexp.c:413-421 | matchquestion, with at most one |
| `RegexMatch.Search` | frob3/ncl/regexp.c:84-105 | re_matchp gives 0 or -1 under ^, and otherwise the least accepted start, or -1 when there is none or only the empty end |
| `RegexMatch.MissingMeans` | frob3/ncl/regexp.c:94-98 | So -1 means: accepted at no start before the end |
| `RegexMatch.LeastExists` | frob3/ncl/regexp.c:91-101 | Where some start is accepted a least one is |
| `Regex.AcceptsCons` | frob3/ncl/regexp.c:446-464 | Acceptance of a sequence of items, split at the first item's string |
| `Regex.AcceptsOpt` | frob3/ncl/regexp.c:413-421 | The language of an optional item |
| `Regex.AcceptsRepeat` | frob3/ncl/regexp.c:395-411 | The language of a repeated item |
| `Regex.TokensHead` | frob3/ncl/regexp.c:448-456 | What two compiled tokens tell about a well-formed pattern |
| `RegexCompile.Compiler.Compile` | frob3/ncl/regexp.c:110-260 | The compiler's loop over its global arrays is its specification, stale token included |
| `RegexCompile.Compiler.ReadClass` | frob3/ncl/regexp.c:219-233 | The loop that copies a class |
| `RegexCompile.RoundTrip` | frob3/ncl/regexp.c:110-260 | Compiling a written pattern whose classes fit gives its tokens back if and only if it has at most 29 |
| `RegexCompile.CompileWritten` | frob3/ncl/regexp.c:120-259 | A longer pattern is cut after its 29th token |
| `RegexCompile.StaleDecides` | frob3/ncl/regexp.c:152-203 | What the array held before makes a difference exactly when the compiler stands, with room left, at a backslash that ends the pattern, and then only at that token |
| `RegexClass.ClassExactly` | frob3/ncl/regexp.c:345-368 | What a class accepts, with a - in front or at the end or without, escaped or as a range: of all but -, what some item accepts, an escaped - being read as a range from the backslash as well; and the - itself if it stands in front, or at the end without ranges, or is covered by an escape before any range |
| `RegexClass.ClassIsUnion` | frob3/ncl/regexp.c:345-368 | A class of well-formed items accepts a character other than - exactly when one of its items does |
| `RegexClass.PlainUnion` | frob3/ncl/regexp.c:345-368 | Which is to say, covers it, unless the class has an escaped - and the character is a backslash or after it |
| `RegexClass.DashExactly` | frob3/ncl/regexp.c:357-360 | It accepts a - exactly when an escape before any range covers it, or it stands last in a class without ranges |
| `RegexClass.DashIsRefused` | frob3/ncl/regexp.c:357-360 | So [a-z\D] refuses it and [\Da-z] accepts it |
| `RegexApi.ReMatch` | frob3/ncl/regexp.c:80-82 | re_match of any well-formed pattern within the limits: the least start, or -1; for letters, dots and escapes it is the first place before the end where each character of the text is what its place in the pattern stands for; for a word of ordinary characters the first place it stands at, under ^ 0 if the text begins with it, under $ where the text ends with it, and otherwise -1 |
| `RegexMeaning.AtomTakes` | frob3/ncl/regexp.c:371-393 | What a letter, a dot and each escape take, by the codes of the characters |
| `RegexMeaning.EscapeCovers` | frob3/ncl/regexp.c:326-343 | An escape in a class stands for the same characters |
| `RegexMeaning.ClassTakes` | frob3/ncl/regexp.c:345-377 | An inverted class takes just what the class does not |
| `RegexMeaning.UnitsAccepted` | frob3/ncl/regexp.c:446-467 | A pattern without quantifiers is accepted at a place exactly where it stands there, character by character |
| `RegexMeaning.WordHere` | frob3/ncl/regexp.c:390-391 | For a word, where the text has that word |
| `RegexMeaning.OnePattern` | frob3/ncl/regexp.c:110-260 | Two patterns within the limits that are written alike are the same |
| `MallocHeap.Heap.Malloc` | frob3/froblib/malloc.c:114-204 | Malloc gives zeroed memory of the request's bucket on no live block, all other blocks as they were; it panics exactly for too big a request, or without a free block, room, or a page that would make room; and the sum wraps exactly when it passes 64K |
| `MallocHeap.Heap.Reuse` | frob3/froblib/malloc.c:149-161 | Reuse takes the first free block of the bucket |
| `MallocHeap.Heap.BreakFresh` | frob3/froblib/malloc.c:163-203 | Fresh memory is broken off at heap_here |
| `MallocHeap.Heap.Free` | frob3/froblib/malloc.c:206-229 | Free panics exactly on a free block, clears the block, and touches no other |
| `MallocHeap.Heap.ReAlloc` | frob3/froblib/malloc.c:231-243 | ReAlloc keeps a block that is large enough; otherwise it moves the old contents to the front of a zeroed block and frees the old one, failing exactly as Malloc does, and overrunning exactly when 32768 bytes or more are asked for a block of more than 8 |
| `Malloc.WhichBucket` | frob3/froblib/malloc.c:85-99 | The doubling loop finds the bucket of the specification |
| `Malloc.BucketHoldsRequest` | frob3/froblib/malloc.c:85-99 | The bucket holds the request if and only if it is at most 16384 bytes; from 32768 on requests get 8 bytes |
| `Malloc.BucketIsTight` | frob3/froblib/malloc.c:85-99 | And it is the smallest such bucket |
| `Malloc.BlockPlaced` | frob3/froblib/malloc.c:163-197 | Every block lies in heap_min..heap_here, intact, with its bucket's capacity, and the heap is as long as its blocks with headers |
| `Malloc.BlocksDisjoint` | frob3/froblib/malloc.c:163-197 | No two blocks overlap |
| `Malloc.BrkCounts` | frob3/froblib/malloc.c:189-190 | In each bucket buck_num_brk is the live blocks plus the length of the free list |
| `Malloc.TakeBucket` | frob3/froblib/malloc.c:149-160 | Taking a free block keeps every bucket's list and count |
| `Malloc.PushBucket` | frob3/froblib/malloc.c:223-225 | So does freeing one |
| `Malloc.CarveBucket` | frob3/froblib/malloc.c:189-203 | So does breaking off one |
| `Malloc.BrkTestPasses` | frob3/froblib/malloc.c:164-167 | The 16-bit test lets a request through exactly when it fits or the sum wraps |
| `ListCodec.RoundTrip` | frob3/ncl/ncl.c:761-781 | Splitting an encoded list gives the list back, for every list of strings, however plain char is signed |
| `ListCodec.ListAppend` | frob3/ncl/ncl.c:1325-1339 | lappend onto an encoded list decodes to the concatenation |
| `ListCodec.ElemRoundTrip` | frob3/froblib/buf.c:121-147 | Decoding an encoded element gives it back and stops right after it |
| `ListCodec.BracedRoundTrip` | frob3/froblib/buf.c:201-214 | Likewise a braced one |
| `ListCodec.AppendAllFollows` | frob3/froblib/buf.c:121-147 | Appending elements to a nonempty buffer adds exactly their text |
| `ListCodec.SplitFormThen` | frob3/ncl/ncl.c:761-781 | Splitting an encoded list with something after it |
| `ListCodec.TrailingBlank` | frob3/ncl/ncl.c:765-778 | Whitespace after an encoded list, however much, adds one empty element; so the list is read back exactly when there is none |
| `ListCodec.WordsSplit` | frob3/ncl/ncl.c:761-781 | Beyond encoder output, too: visible words with any blanks, tabs and line ends between them are split into those words |
| `ListCodec.EncodedIsNulFree` | frob3/froblib/buf.c:107-147 | The encoding of NUL-free strings is NUL-free |
| `ListBuf.Buf.AppElemC` | frob3/froblib/buf.c:107-119 | By the byte, escaped if need be |
| `ListBuf.Buf.AppElemS` | frob3/froblib/buf.c:121-147 | By a blank, unless empty, and the encoded element |
| `ListBuf.ElemDecode` | frob3/froblib/buf.c:198-225 | The decoding loop is the specification's |
| `ListBuf.ElemLen` | frob3/froblib/buf.c:167-195 | ElemLen agrees with ElemDecode on where the element ends, and reports the length of what is written there |
| `ListEnds.LengthExactly` | frob3/froblib/buf.c:177-187 | Which is the decoded length if and only if the element is bare or has no backslash before its closing brace |
| `ListEnds.EncodedLength` | frob3/froblib/buf.c:121-147 | And of an encoded item if and only if the item is written bare or is empty |
| `ListBuf.SplitList` | frob3/ncl/ncl.c:761-781 | The splitting loop is the specification's |
| `ListEnds.BracedOverruns` | frob3/froblib/buf.c:203-214 | A braced element is read past the end of its text if and only if an odd run of backslashes ends the text and without the last one the braces stay open to the end |
| `ListEnds.SplitOverruns` | frob3/ncl/ncl.c:761-781 | SplitList reads past the end of its text if and only if an odd run of backslashes ends the text and without the last one the list would end inside braces |
| `ListBuf.FormList` | frob3/ncl/ncl.c:1444-1452 | The forming loop is |
| `ListBuf.AppendTo` | frob3/ncl/ncl.c:1331-1337 | And that of lappend |
| `Tftp.AlwaysRight` | frob3/fuse-daemons/fuse-tftp.c:122-170 | Against a lock-step sender over a network that loses, doubles, delays and reorders, the fragments of a file whose block numbers identify its blocks are always a whole number of right blocks |
| `Tftp.DoneIsWhole` | frob3/fuse-daemons/fuse-tftp.c:158-170 | When the loop ends they are the file |
| `Tftp.SafeExactly` | frob3/fuse-daemons/fuse-tftp.c:146-161 | This holds in every run if and only if no two blocks with the same 16-bit number differ |
| `Tftp.ShortFilesAreIdentified` | frob3/fuse-daemons/fuse-tftp.c:147-160 | As in every file of at most 65536 blocks |
| `Tftp.LateDuplicate` | frob3/fuse-daemons/fuse-tftp.c:147-155 | Otherwise a late duplicate is saved in the wrong place |
| `Tftp.CanFinish` | frob3/fuse-daemons/fuse-tftp.c:134-170 | Every file can be fetched whole |
| `Tftp.FinishesUnlessAckLost` | frob3/fuse-daemons/fuse-tftp.c:146-170 | After any run over a network that may lose packets for good, a transfer of fewer than 65536 blocks can still finish exactly when the receiver is done, or waits for the block being sent, or that block's acknowledgement is not lost |
| `TftpFiles.FragList.Append` | frob3/fuse-daemons/fuse-tftp.c:90-96 | The walk to the end of the linked list hangs the fragment there |
| `TftpFiles.FragList.SaveBytes` | frob3/fuse-daemons/fuse-tftp.c:108-119 | An empty packet adds none |
| `TftpFiles.Getter.OnData` | frob3/fuse-daemons/fuse-tftp.c:146-161 | The DATA case in place is the protocol's step, acknowledged exactly when accepted |
| `TftpFiles.Cursor.Read` | frob3/fuse-daemons/fuse-tftp.c:250-284 | Read returns the next bytes of one fragment, nothing only at the end |
| `TftpFiles.Cursor.ReadLn` | frob3/fuse-daemons/fuse-tftp.c:250-284 | ReadLn returns the next bytes up to a carriage return, the size or the end |
| `TftpFiles.ReadAll` | frob3/fuse-daemons/fuse-tftp.c:392-408 | Any mix of Read and ReadLn returns the file in order before EOF |
| `TftpFiles.RestIsAll` | frob3/fuse-daemons/fuse-tftp.c:90-119 | The list from its root is what was saved |
| `MuxRuns.SessionIsRight` | frob3/lemma/mux.go:94-124 | Under every schedule nobody panics or gives up, and the client has exited exactly when all that is due has moved; then both sides are as the command means, with its verdict |
| `MuxRuns.NeverStuck` | frob3/net-cmds/r.c:135-232 | In every reachable state before the exit exactly one actor can move, and after it none |
| `MuxRuns.FairSessionsEnd` | frob3/lemma/mux.go:126-159 | Every fair schedule of as many rounds as the command costs ends the session |
| `MuxRuns.GetBCopies` | frob3/lemma/mux.go:421-471 | getb saves one file equal to the server's, however it is cut into chunks, and changes nothing else |
| `MuxRuns.PutTCopies` | frob3/lemma/mux.go:307-371 | putt gives the server the file with CR as LF if and only if the file has no NUL |
| `MuxTexts.GetTCopies` | frob3/lemma/mux.go:373-419 | gett saves one file and changes nothing else; it is the lines, each with a carriage return, if and only if none has a NUL |
| `MuxTexts.TextsAreShown` | frob3/lemma/mux.go:275-305 | help, echo and vecho write their texts to standard output and change nothing else; all of them if and only if no text has a NUL |
| `MuxTexts.TextsArrive` | frob3/net-cmds/r.c:151-156 | Subcommands 1 and 2 take a text up to its first NUL, to the open file or else standard output, and to standard error |
| `MuxRuns.PanicHangsExactly` | frob3/lemma/mux.go:253-267 | Wherever in a session of any command its function panics, the session still ends, in every fair continuation and with the verdict of the panic, if and only if the command did not have the turn; if it did, no continuation ends it |
| `MuxRuns.PutTWriteFailureHangs` | frob3/lemma/mux.go:339-360 | So putt hangs when the server cannot write the first line of a file that is not empty to C |
| `MuxRuns.EmitsMean` | frob3/lemma/mux.go:222-249 | A command that sends subcommands and exits does to the client what they do |
| `MuxRuns.LinesAreTheFile` | frob3/net-cmds/r.c:167-191 | The lines sent for 6 make up the file exactly when it has no NUL |
| `MuxProofs.ClientKeeps` | frob3/net-cmds/r.c:135-232 | The client's steps keep the turn and what the session is to end with |
| `MuxProofs.DispatcherKeeps` | frob3/lemma/mux.go:94-124 | So do the dispatcher's |
| `MuxProofs.CommandKeeps` | frob3/lemma/mux.go:161-191 | And the command's |
| `MuxProofs.OneLine` | frob3/net-cmds/r.c:167-191 | One line against the whole bout of asking |
| `DiskRuns.ActsAsAnArray` | frob3/drivers/rblemmac.c:208-238 | Whatever the timing of the two programs and the network, every call answers as an array of sectors does, and between calls both streams are empty and the image is that array |
| `DiskRuns.FinishesExactly` | frob3/lemma/waiter.go:312-366 | Under fair timing every call returns if and only if no read is of the sector within which the file ends; otherwise the server panics |
| `DiskRuns.WholeIsSafe` | frob3/lemma/waiter.go:319-328 | An image of whole sectors makes all calls safe |
| `DiskRuns.RaggedIsNot` | frob3/lemma/waiter.go:326-328 | And any other image does not |
| `DiskRuns.DriveIsIgnored` | frob3/lemma/waiter.go:211-221 | The drive number makes no difference |
| `DiskRuns.NeverDeadlocked` | frob3/drivers/rblemmac.c:208-238 | While calls are outstanding somebody can move |
| `DiskProofs.SectorAfterWrite` | frob3/lemma/waiter.go:338-361 | A write changes its sector and no other, zeros past the end included |
| `DiskProofs.AfterHolds` | frob3/lemma/waiter.go:312-366 | After any writes a sector holds what the last one to it wrote, or what it held at first |
| `DiskProofs.QuintArrives` | frob3/lemma/waiter.go:49-69 | The 24-bit sector number survives the quint |
| `DiskProofs.StepKeeps` | frob3/lemma/waiter.go:255-366 | Every step keeps the streams and the image in phase, and comes nearer the end |
| `DriveSession.NeverMountedTwice` | frob3/lemma/hdbdos.go:528-578 | In any session no nonempty path is mounted on two drives |
| `DriveSession.EverythingIsSavedOnce` | frob3/lemma/hdbdos.go:580-605 | After any session and its cleanups every sector write is in exactly one save, every save is the image with all its writes, and one cleanup would have done |
| `DriveSession.SavedFilesKept` | frob3/lemma/hdbdos.go:585-593 | After any session and its cleanups a stored save is still in its file exactly when the last save to that file has the same image |
| `DriveSession.SameNameOverwrites` | frob3/lemma/hdbdos.go:586 | Of two images of one base name loaded in one second the first is lost exactly when they differ |
| `DriveSession.SessionLosesAnImage` | frob3/lemma/hdbdos.go:585-593 | A session of two mounts and two writes that loses one |
| `DriveProofs.WriteThenRead` | frob3/lemma/hdbdos.go:290-314 | A sector written is what is read next, and no other sector of any drive reads differently |
| `DriveReads.ReadsTheMountedFile` | frob3/lemma/hdbdos.go:266-305 | In any session without a panic, after a path is mounted on a drive and until the drive is mounted again or unmounted, a read gives each byte as last written since, or else as it is in the file of that path when the drive was first used, and panics if and only if that file was missing or of no floppy's size |
| `DriveReads.ReadsABlankDisk` | frob3/lemma/hdbdos.go:266-274 | A drive that nothing is mounted on reads as a blank disk, byte by byte, but for what was written |
| `DriveReads.BlankDiskBytes` | frob3/lemma/hdbdos.go:373-420 | The bytes of the blank disk |
| `DriveReads.MountHolds` | frob3/lemma/hdbdos.go:546-578 | SetDrive leaves the drive with the model's path, not used yet, or as it was if it had that path |
| `DriveReads.MountElsewhere` | frob3/lemma/hdbdos.go:546-562 | Any other drive keeps its record, but for one that had the path |
| `DriveReads.RunsAreAfter` | frob3/lemma/hdbdos.go:218-319 | These sessions are those of the results below |
| `DriveProofs.SectorKeeps` | frob3/lemma/hdbdos.go:218-319 | A sector request keeps the cache in order, and a read gives the bytes last written there, or those that were loaded |
| `DriveProofs.SetDriveKeeps` | frob3/lemma/hdbdos.go:546-578 | SetDrive keeps it and never finds a path mounted twice |
| `DriveProofs.CleanupKeeps` | frob3/lemma/hdbdos.go:580-594 | So does saving one drive |
| `DriveProofs.CleanupsAreOne` | frob3/lemma/hdbdos.go:229-231 | However many cleanups are registered, the first does all the work |
| `DriveProofs.AllSaved` | frob3/lemma/hdbdos.go:601-605 | After them no write is left unsaved or saved twice |
| `DriveProofs.UnmountAllKeeps` | frob3/lemma/menu.go:502-509 | Unmounting all drives keeps it |
| `DriveProofs.TempNameIsFree` | frob3/lemma/hdbdos.go:308-311 | A temporary name is no other drive's path |
| `DriveProofs.OverlayAt` | frob3/lemma/hdbdos.go:312 | An image with its writes, byte by byte |
| `DriveSession.Session.IsModelMounted` | frob3/lemma/hdbdos.go:528-544 | The loop finds the one drive with the path, or that there are two |
| `DriveSession.Session.SetDrive` | frob3/lemma/hdbdos.go:546-578 | SetDrive in place is its specification |
| `DriveSession.Session.CleanupOneDrive` | frob3/lemma/hdbdos.go:580-594 | So is HdbDosCleanupOneDrive |
| `DriveSession.Session.Cleanup` | frob3/lemma/hdbdos.go:601-605 | And HdbDosCleanup |
| `DriveSession.Session.Sector` | frob3/lemma/hdbdos.go:218-319 | And HdbDosSector |
| `BurnRescue.NothingElseIsBurnt` | frob3/axiom41/rescue.c:297-320 | Whatever packets are lost, doubled or out of order, each byte outside the packet at 0400-0487 and the bar at 0500-06DF is as it was or as the image has it |
| `BurnRescue.AllMarkedIsAllThere` | frob3/axiom41/rescue.c:308-319 | A record is marked exactly when a packet of it came after the key, and once all are marked the image is in memory, in the part of the bar beyond its own marks as well |
| `BurnRescue.BarImageIsLost` | frob3/axiom41/rescue.c:298-317 | An image with a byte in the bar can be marked as burnt and not be there |
| `BurnRescue.PacketImageIsLost` | frob3/axiom41/rescue.c:201-204 | So can one with a byte where packets are received |
| `BurnRescue.PacketLosesExactly` | frob3/axiom41/rescue.c:201-204 | Of a byte there, with all records marked: one more packet can lose it, and leaves all marks, if and only if some record's packet can have another byte in its place |
| `BurnRescue.NothingWanted` | frob3/axiom41/rescue.c:312 | Before any packet has been heard nothing is burnt |
| `BurnRescue.PokesTheRecord` | frob3/axiom41/rescue.c:314-316 | The byte loop writes the record where it belongs and nothing else |
| `BurnRescue.PacketArrives` | frob3/axiom41/rescue.c:218-223 | The struct read from a received packet is the record's |
| `BurnRescue.Rescue.BurnPacket` | frob3/axiom41/rescue.c:310-319 | The burning loop in place is its specification |
| `BurnRescue.Rescue.Listen` | frob3/axiom41/rescue.c:301-305 | So is the listening loop |
| `Burn.Transmitter.TransmitGroup` | frob3/burning/broadcast-burn.go:130-151 | The byte loop cuts a group at page ends, with one slip in page 0 |
| `Burn.Transmitter.TransmitAll` | frob3/burning/broadcast-burn.go:83-105 | An image of poke commands becomes the records of its groups, or is refused |
| `Burn.RecordsAreRightExactly` | frob3/burning/broadcast-burn.go:135-149 | The records of a group hold its bytes at their addresses if and only if it is empty, starts at 0, or starts beyond page 0 |
| `Burn.RecordsAreTheImage` | frob3/burning/broadcast-burn.go:130-151 | All records together hold exactly the image's bytes, each as often |
| `Burn.RecordsArePaged` | frob3/burning/broadcast-burn.go:137-147 | Every record lies in one 64-byte page |
| `Burn.CutGrows` | frob3/burning/broadcast-burn.go:135-149 | One more byte joins the last record or begins a new one |
| `Burn.ParsesBack` | frob3/burning/broadcast-burn.go:85-101 | Groups written as poke commands are parsed back |
| `Calendar.DateOf` | frob3/net-cmds/f-ntp.c:89-122 | The fields are the one Gregorian date and time with that offset from 2020 if and only if the offset is below 29 February 2100; the loops end and the month assertion holds |
| `Calendar.YearOf` | frob3/net-cmds/f-ntp.c:93-100 | The year loop leaves less than a year, and notices its underflow unless the offset is within a year of 32 bits |
| `Calendar.MonthOf` | frob3/net-cmds/f-ntp.c:103-110 | The month loop leaves less than a month, in months 1 to 12 |
| `Calendar.RightExactly` | frob3/net-cmds/f-ntp.c:80-83 | The every-fourth-year rule agrees with the Gregorian exactly before 29 February 2100 |
| `Calendar.OneDate` | frob3/net-cmds/f-ntp.c:112-122 | No two dates have the same number of seconds |
| `Arcfour.CipherIsItsInverse` | frob3/metal/arcfour.h:60-82 | Ciphering twice from equal engines gives the buffer back |
| `Arcfour.CipherInPieces` | frob3/metal/arcfour.h:60-82 | A buffer ciphered in two pieces comes out as ciphered whole |
| `Arcfour.EngineInPieces` | frob3/metal/arcfour.h:67-81 | And so does the engine |
| `Arcfour.AnyPieces` | frob3/metal/arcfour.h:60-82 | Likewise in any number of pieces |
| `ArcfourMeaning.MixesTheKey` | frob3/metal/arcfour.h:38-58 | Mixing a key of any length into any table is the key schedule: 256 steps that add the table's byte and the key's, the key gone through over and over, and change two bytes about |
| `ArcfourMeaning.CipherBits` | frob3/metal/arcfour.h:60-82 | Each bit comes out as the sum of its own and the key stream's, which depends on the engine alone |
| `ArcfourMeaning.CiphersWithStream` | frob3/metal/arcfour.h:72-78 | Each byte by the one of the key stream at its place |
| `Arcfour.AlwaysAPermutation` | frob3/metal/arcfour.h:30-82 | After any calls the state is a permutation of 0..255 |
| `Arcfour.EachByteOnce` | frob3/metal/arcfour.h:33 | So every byte is in it, in one place |
| `Arcfour.Rc4Engine.Init` | frob3/metal/arcfour.h:30-36 | The identity, with x and y zero |
| `Arcfour.Rc4Engine.MixKey` | frob3/metal/arcfour.h:38-58 | The key mixing loop in place |
| `Arcfour.Rc4Engine.Rc4` | frob3/metal/arcfour.h:60-82 | The ciphering loop in place |
| `Arcfour.Rc4Engine.SwapByte` | frob3/metal/arcfour.h:22-28 | Two entries exchanged |
| `Tokens.OverrunsExactly` | frob3/ncl/ncl.c:145-177 | picolParseCommand passes the end of its text exactly when an odd run of backslashes ends the text and without the last one the bracket stays open to the end |
| `Tokens.TokenOverrunsExactly` | frob3/ncl/ncl.c:293-330 | picolGetToken does exactly at such a bracket |
| `Tokens.EvenIsSafe` | frob3/ncl/ncl.c:158-160 | So it never does in a text that ends in an even number of backslashes |
| `Tokens.TokenIsSound` | frob3/ncl/ncl.c:293-330 | Everywhere else a token stays in the text, keeps position plus remaining length, is a slice of what is moved over, and comes nearer the end |
| `Tokens.TokensRunOut` | frob3/ncl/ncl.c:293-330 | Repeated picolGetToken comes to PT_EOF, or to such a bracket, within two tokens more than characters, each token after the one before |
| `Tokens.TokensReachEof` | frob3/ncl/ncl.c:293-330 | And to PT_EOF in every text that ends in an even number of backslashes |
| `Tokens.BracesQuote` | frob3/ncl/ncl.c:202-227 | Braces around a word make exactly that token if and only if its own braces match and no backslash is left over |
| `TokenMeaning.BareWord` | frob3/ncl/ncl.c:229-283 | A bare word ends at the first blank, line end, semicolon, $ or [ that no backslash escapes, or the end, and no sooner |
| `TokenMeaning.QuotedWord` | frob3/ncl/ncl.c:229-283 | A quoted word ends at its quote, or at a $ or [ after which the quote is still open |
| `TokenMeaning.QuotedMore` | frob3/ncl/ncl.c:229-283 | And so does the rest of it, after a variable or a command |
| `TokenMeaning.BracedWord` | frob3/ncl/ncl.c:202-227 | Braces around matching braces make exactly the word between them |
| `TokenMeaning.VariableName` | frob3/ncl/ncl.c:179-200 | A $ and a name are that variable, the whole name and no more; a $ alone is itself |
| `TokenMeaning.BracketedCommand` | frob3/ncl/ncl.c:145-177 | Brackets around a text make exactly that command if and only if its own brackets, braces and backslashes match |
| `TokenMeaning.OpenCommand` | frob3/ncl/ncl.c:145-177 | A bracket that nothing closes takes the rest of the text |
| `TokenMeaning.Separator` | frob3/ncl/ncl.c:123-132 | A run of blanks, and line ends after the first, separates words |
| `TokenMeaning.CommandEnds` | frob3/ncl/ncl.c:134-143 | A line end or semicolon, with what white space follows, ends a command |
| `TokenMeaning.Comment` | frob3/ncl/ncl.c:285-291 | A # where a command may begin is passed over to the end of its line |
| `TokenMeaning.TextEnds` | frob3/ncl/ncl.c:293-299 | The end of the text ends a command and then itself |
| `TokenMeaning.BlankJoinsLines` | frob3/ncl/ncl.c:123-132 | So a blank at the end of a line joins it to the next |
| `Tokens.TokenParser.ParseSep` | frob3/ncl/ncl.c:123-132 | The scan for separators |
| `Tokens.TokenParser.ParseEol` | frob3/ncl/ncl.c:134-143 | The scan for ends of commands |
| `Tokens.TokenParser.ParseCommand` | frob3/ncl/ncl.c:145-177 | The scan for a bracket |
| `Tokens.TokenParser.ParseVar` | frob3/ncl/ncl.c:179-200 | The scan for a variable name |
| `Tokens.TokenParser.ParseBrace` | frob3/ncl/ncl.c:202-227 | The scan for a brace |
| `Tokens.TokenParser.ParseString` | frob3/ncl/ncl.c:229-283 | The scan for a string |
| `Tokens.TokenParser.ParseComment` | frob3/ncl/ncl.c:285-291 | The scan over a comment |
| `Tokens.TokenParser.GetToken` | frob3/ncl/ncl.c:293-330 | picolGetToken in place is its specification |
| `InterpMeaning.EvalMeans` | frob3/ncl/ncl.c:468-591 | An evaluation ends with a code and a state if and only if the rules of InterpRules lead there: words joined from tokens, commands in turn, if, and, or, while with break and continue, foreach, catch and its number, set, return, eval, proc and proc calls with their arguments bound |
| `InterpMeaning.OneEnd` | frob3/ncl/ncl.c:468-591 | So the rules lead to one end at most |
| `InterpYields.ArgumentsBind` | frob3/ncl/ncl.c:1085-1125 | The frame a proc begins with: each parameter its argument, the last of two of one name, and args the list of what is left; none exactly if the number of arguments is wrong |
| `InterpText.CommandLeads` | frob3/ncl/ncl.c:468-591 | A text that is a name and words in braces ends as the command of those words does, and in no other way |
| `InterpText.IfElse` | frob3/ncl/ncl.c:963-974 | An if, as text, takes the branch that the number of its condition chooses |
| `Interp.Eval` | frob3/ncl/ncl.c:468-591 | Every evaluation that ends, with any code, ends with the call frame it began with on top and those below as they were |
| `Interp.CallProc` | frob3/ncl/ncl.c:1085-1132 | A proc call changes no variable of any frame of its callers, and never ends with RETURN |
| `Interp.RunForEach` | frob3/ncl/ncl.c:1420-1442 | foreach never ends with BREAK or CONTINUE |
| `Interp.RunWhile` | frob3/ncl/ncl.c:1044-1062 | while keeps the frames |
| `InterpProofs.CallersDoNotMatter` | frob3/ncl/ncl.c:1085-1132 | A proc called with the same arguments and globals does the same from any caller, as long as it does not call info, which prints the variables of all callers |
| `InterpProofs.EvalLocal` | frob3/ncl/ncl.c:468-591 | No evaluation without info can see the frames below its own |
| `InterpProofs.AnyDepth` | frob3/ncl/ncl.c:468-591 | An evaluation that ends within some depth ends in the same way within any greater one |

## Left out

- FuseProofs.RemoveDaemonLinks: an orphan's count is not tied to anything, because the code has none left to tie it to.
- FuseRuns.LinksConserved: the operating system's reclaiming of the path of an open that failed: in the model the descriptor stays, usable, after a reservation that failed, and none is made where the name has no daemon or, for a daemon, is taken (E_SHARE).
- FUSE: signals other than the wake-up, and user memory beyond the buffers named in registers.
- FUSE: a run stops at the first halt or wrapped link byte; what the machine does after it is not modelled.
- OctetHeap.Heap.Mark: marks as the comments of the file intend, not as lines 149 and 181 are written; the difference is in the lemmas of `Octet`.
- MallocHeap.Heap.Malloc: the counters buck_num_alloc and buck_num_free are not modelled (the retry counts an allocation twice); whether Os9Mem grants a page is a parameter.
- OctetHeap.Heap.AllocTry: after a wrapped sum no further state is modelled.
- MallocHeap.Heap.ReAlloc: after an overrun, as after a wrapped sum, no further state is modelled.
- WizRing.Wiz.TcpRecv: the endless retry is bounded by a `patience` parameter, what the interrupt register says is a parameter, and a 16-bit register is read in one piece; the ring routines repeated in `rblemmac.c` are not modelled a second time.
- RegexMatch.MatchPattern: characters are unsigned bytes; patterns are well-formed, with anchors only at the ends and one quantifier after an item.
- RegexCompile.Compiler.Compile: an unterminated `[` reads past the pattern, which is an outcome of the model without a further state.
- ListCodec.RoundTrip: strings are without NUL in the source, but the statement does not need it.
- Tftp.AlwaysRight: the port a packet comes from is not looked at by the code either; error packets and the lengths of time-outs are not modelled.
- Mux: a line of a file that `gett` cannot take whole; one session at a time; opening files never fails, payloads fit the client's buffer, FWrite writes all it is given, time-outs never strike, and nothing panics in Exit3 itself. The actors are values, not objects: the goroutine's channel hand-over is one step.
- Disk: link errors of the chip, commands other than the block ones, and failing reads and writes of the host's file system. The two programs are values that take turns, not objects.
- Drives: the reply's packet form, keyboard injections, and directories and names with `.` or `..`; saved images are values, not slices that alias. The history of each record (what it was loaded with and what was written to it) is kept in the record, though the code keeps none.
- Burn: packets are whole, since a packet across the ring's end is read again at the wrong offset (`rescue.c:210`); the magic writes that unlock the memory, and the last mark at 05E0.
- BurnRescue.NothingElseIsBurnt: images lie outside the packet at 0400-0487 and the marks of their own records from 0500 on, have no address twice, and at most 255 records.
- Calendar.DateOf: an offset within a year of 32 bits may wrap unnoticed; that is an outcome of the model without a further state.
- Tokens: the copy of a token into fresh memory.
- Interp.Eval: evaluation is cut off at a depth, which AnyDepth shows not to matter; the frames and Result are values rather than updated in place, so that a proc that redefines itself while it runs, and the freeing of argv after `unknown`, are not captured. `source`, `info` and `exit` are left out; all other commands are any function of the current frame and the globals. The interpreter checks only the least number of arguments.
- Interp.RunWhile: a BREAK in the condition of a while is passed on, as the code does.
- DNS, DHCP, screens, menus, web pages, LemMan file operations, logging, and the COPICO variants: less state, or calls into a host system.
