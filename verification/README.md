# Panthera: a verification of its algorithms and protocols

Panthera runs the speech engines of several Mac OS X releases on other systems. Between the engine and the
host sits code that no one hears when it is right: a regular-expression engine the speech dictionary calls, a
Fourier transform, timer sources and serial queues, an audio collector and its pacer, the accounting around an
AAC decoder, a rewriter for numbers, a settings file, and an interpreter for the linker's fixup streams. This
project models that code and proves what its comments, tests and callers rely on.

Code that updates things in place is modelled as classes, arrays and loops, each proved against a function that
says what it computes; code that runs on several threads is a state machine of atomic steps, and its theorems
hold in every interleaving. The directories are independent of each other, but for two small modules they share
in `common/`:

* `regex/`: the POSIX extended regular expressions (section 9.4 of IEEE Std 1003.1-2017, Base Definitions) of
  `src/tiger_host_regex.c`. `RegexProgram` is the node arena, `RegexMeaning` what an expression denotes,
  `RegexMatcher` the backtracking matcher over continuation frames, `RegexGrammar` and `RegexCompiler` the
  parser, `RegexPrinter` a canonical printer, `RegexReading` and `RegexBrackets` what each piece of a pattern's
  text denotes, `RegexTable` the table behind `regcomp`, `regexec` and `regfree`, and `RegexLostMatch` a match the
  matcher loses.
* `fft/`: the packed real transform of `src/tiger_host_accel.c` over exact reals. A turn is any function from
  reals to complex numbers that adds up, is -1 at one half and mirrors under conjugation; cosine and sine of a
  full turn are one, and nothing else about them is used.
* `gcd/`: timer sources, the pool they live in and the serial queues they are delivered on
  (`src/tiger_host_gcd.c`, `src/tiger_host_gcd_queue.c`). `Sources` is the state machine, `SourceInvariants` and
  `SourceSteps` what every step keeps, `SourceTheorems` what follows for whole runs; `SourceCounts` counts callbacks
  against deliveries, `SourceProgress` finds the continuations that get there, and `SourceTimers` follows timers,
  wakeups and the claiming of slots.
* `audio/`: the timeline collector, the pacer with its ring, and the streaming reader (`src/tiger_host_audio.c`,
  `src/tiger_host_jni.c`). `TimelineLaws` says what collecting a slice does in terms of the slice, `PacerJudging`
  tells what becomes of one from the run.
* `aac/`: the stream accounting of `src/tiger_host_aac.c` around a decoder of unknown latency.
* `numbers/`: the number rewriter of `src/tiger_host_numbers.c`; `NumberReading` reads its results back.
* `settings/`: the settings file of `sapi/settings.cpp`; `SettingsLines` says what a line means.
* `dyld/`: the compressed fixup streams of `src/tiger_host_dyldinfo.c`, with LEB128 as in section 7.6 of DWARF
  version 4; `DyldOpcodes` is the table of the opcodes' byte forms.

Five promises turned out not to hold on all inputs; each is proved exactly as far as it does hold.

* The matcher skips an empty iteration of a repetition and counts it as padding at the end. Given that it is right
  about the body, it is right about a repetition exactly when at most one iteration is asked for, or an empty match
  of the body can be carried to the end of what follows it (`RepetitionExactIff`, for each repetition with its own
  bounds). `SearchLosesMatch` shows the loss: the pattern `(^|a){2}$`, compiled from its text, denotes the whole of
  the subject `a`, and the search answers that nothing matches. Bodies that are null everywhere or nowhere, in
  particular bodies without anchors, are safe (`UniformBodiesAreSteady`).
* A slice timed past the end of the collector's buffer makes whatever the rest of the buffer held before part of
  the audio, and only such a slice does (`StaleFramesExposed`). It need not carry a single sample
  (`OvershootIsHeard`); without one the old content is never heard (`OldContentIsNeverHeard`).
* Feeding the last access unit twice more completes a stream, whatever the decoder lets out within its latency,
  exactly for decoders that hold back at most two frames, or streams that are all codec delay
  (`TwoCopiesSuffice`). One that holds three may lose the whole of a stream of three units (`ThreeHeldFramesLose`).
* A slice is meant to be kept out of the buffer of an utterance it does not belong to. The buffer is cleared for the
  next utterance before that one becomes the current one, and the pacer's test is not one step with what it decides.
  Of the slices accepted by the time the buffer is cleared, or until the next utterance is the current one, and not
  judged yet, exactly those can end up in its buffer that have passed the test, or are still to be tested and belong
  to the current utterance (`OnlyTheWantedOutliveTheClearing`, `OnlyTheWantedBleedOver`); any number of them can
  (`QueuedSlicesBleedOver`). Once the next utterance is the current one, a single one is left that can: the one that
  has just passed the test (`OnlyThePassedBleedsOver`, `HasteBleedsOver`). Waiting for the pacer to be idle before
  clearing, and accepting nothing until the utterance is current, rules it out (`NothingBleedsOver`).
* A settings table comes back from its file exactly when its keys are bare, its strings fit on one line in 63
  characters and its numbers are within 31 bits (`RoundTrip`); and everything the reader ever returns is of that
  kind, so rewriting a file is stable whatever it held.

Two comments in the source disagree with its code, and the model follows the code. `re_slot_for` says the oldest
slot is taken when the table is full; the code takes the first, which is the oldest only as long as no slot was
freed and used again (`SlotFor`). A comment at `src/tiger_host_jni.c:284-286` calls rewriting twice harmless
because words hold no digits; the property is true, but also needs the argument that a rewrite can shorten a
text until a far-away `]]` turns what came before it into a command (`NumberTwice`).

## Model

| member | source | states |
|---|---|---|
| RegexProgram.TreeSurvivesGrowth | src/tiger_host_regex.c:87-101 | growing the arena never changes the tree an earlier node stands for |
| RegexProgram.TreeBoundsOk | src/tiger_host_regex.c:68-83 | every node of a well-formed arena stands for a tree whose repetition bounds are not crossed |
| RegexMeaning.MatchesForward | src/tiger_host_regex.c:479-522 | whatever an expression matches ends at or after its start and inside the subject |
| RegexMeaning.CutSound | src/tiger_host_regex.c:445-469 | skipping empty iterations invents no match: what the cut form matches, the expression denotes |
| RegexMeaning.CutComplete | src/tiger_host_regex.c:452-455 | when every repetition's empty iteration can be carried to its end, the cut form loses no match |
| RegexMeaning.CutExact | src/tiger_host_regex.c:445-469 | under that condition the cut form and the denotation match exactly the same spans |
| RegexMeaning.RepetitionExactIff | src/tiger_host_regex.c:452-455 | for one repetition, given that the cut is right about its body, the cut agrees with the denotation if and only if at most one iteration is asked for or the body's empty matches travel |
| RegexMeaning.NullableIsEmptyMatch | src/tiger_host_regex.c:479-522 | a syntactic test, given whether the position is a line start or end, decides whether an expression matches the empty string there |
| RegexMeaning.UniformBodiesAreSteady | src/tiger_host_regex.c:452-455 | bodies null everywhere or nowhere, in particular anchor-free ones, meet the condition on every subject |
| RegexMeaning.AnchoredBodyLosesMatch | src/tiger_host_regex.c:452-455 | two iterations of "line start or a", then line end, denote all of "a" while the cut form matches at no start |
| RegexMatcher.RunDecides | src/tiger_host_regex.c:479-522 | running a node in any continuation answers yes iff some end of a cut match is accepted by the continuation, unless the budget ran out, and then only answers no; spent never goes back |
| RegexMatcher.RepDecides | src/tiger_host_regex.c:445-469 | the same for a repetition with any count and mark: the answer is that of the iterations still owed and allowed |
| RegexMatcher.ContDecides | src/tiger_host_regex.c:471-477 | running a continuation decides whether the frames accept the position |
| RegexMatcher.Search | src/tiger_host_regex.c:524-540 | a match is reported only if the expression denotes some substring; with the budget unspent and steady repetitions, no match is reported only if it denotes none |
| RegexMatcher.UnbudgetedRunIsExact | src/tiger_host_regex.c:479-522 | without a budget every run ends, and its answer is whether the expression matches at that start |
| RegexMatcher.BudgetOnlyForgets | src/tiger_host_regex.c:484-485 | a budget turns matches into "no match" only: yes is the unbudgeted yes, and so is every answer given before it ran out |
| RegexLostMatch.PatternParses | src/tiger_host_regex.c:186-413 | the text of the pattern is read as that expression |
| RegexLostMatch.SearchLosesMatch | src/tiger_host_regex.c:452-455 | compiled from that text, the pattern denotes all of "a" and the search of "a" reports no match |
| RegexCompiler.ScanDigits | src/tiger_host_regex.c:320-340 | a run of digits read modulo the width of an unsigned |
| RegexCompiler.ScanInterval | src/tiger_host_regex.c:320-340 | an interval is read, or refused, exactly as the grammar says, crossed bounds included |
| RegexCompiler.ScanElement | src/tiger_host_regex.c:186-250 | one bracket element, be it a class, a collating element, a range or a character, is read as the grammar says |
| RegexCompiler.ScanMembers | src/tiger_host_regex.c:186-250 | the member loop of a bracket yields the grammar's set of bytes and end, or its refusal |
| RegexCompiler.Parser.NewNode | src/tiger_host_regex.c:87-101 | a new node gets the next index and leaves the earlier arena as it was |
| RegexCompiler.Parser.ParseAltern | src/tiger_host_regex.c:381-396 | the arena node returned stands for the grammar's tree, the cursor moves to where the grammar stops, and a refusal is a refusal |
| RegexCompiler.Parser.ParseConcat | src/tiger_host_regex.c:363-379 | the same for a concatenation, the empty one included |
| RegexCompiler.Parser.ParseRepeat | src/tiger_host_regex.c:342-361 | the same for an atom and the operators after it |
| RegexCompiler.Parser.ParseBracket | src/tiger_host_regex.c:186-250 | the set stored has the members of the grammar's bracket after case folding and negation |
| RegexCompiler.Parser.ParseOne | src/tiger_host_regex.c:260-315 | the same for one atom |
| RegexCompiler.Compile | src/tiger_host_regex.c:398-413 | a program is returned iff the flags ask for extended syntax and the grammar reads the whole pattern; it is well formed, acyclic, and stands for that tree |
| RegexPrinter.PrintThenParse | src/tiger_host_regex.c:186-413 | the printed form of every printable expression is a pattern that parses, to the end, to the expression itself |
| RegexPrinter.CompilePrinted | src/tiger_host_regex.c:398-413 | compiling a printed expression gives a program that stands for that expression |
| RegexReading.OperatorIffWritten | src/tiger_host_regex.c:320-361 | an operator is read at a place exactly where one of `*`, `+`, `?`, `{n}`, `{n,}`, `{n,m}` stands there, with bounds of any length and not crossed |
| RegexReading.RepeatedAtom | src/tiger_host_regex.c:342-361 | an atom and all the operators written after it denote the stretches that can be cut, operator by operator, into as many consecutive ones as each allows: one or more for `+`, any number for `*`, at most one for `?`, the written bounds for a brace |
| RegexReading.RepeatedPattern | src/tiger_host_regex.c:342-413 | the same for a whole pattern that is an atom and operators |
| RegexReading.CharacterAtom | src/tiger_host_regex.c:312-314 | an ordinary character denotes one byte that equals it, or under the case flag is its letter in the other case |
| RegexReading.QuotedAtom | src/tiger_host_regex.c:297-300 | so does any character after a backslash |
| RegexReading.AnyAtom | src/tiger_host_regex.c:282-286 | a dot denotes any one byte, but for a newline under the newline flag |
| RegexReading.LineStartAtom | src/tiger_host_regex.c:287-291 | a circumflex denotes the empty stretch at the start and, under the newline flag, after a newline |
| RegexReading.LineEndAtom | src/tiger_host_regex.c:292-296 | a dollar denotes the empty stretch at the end and, under the newline flag, before a newline |
| RegexReading.GroupAtom | src/tiger_host_regex.c:264-271 | a group denotes what it holds, and is read exactly if a parenthesis closes it |
| RegexReading.Concatenation | src/tiger_host_regex.c:363-379 | pieces one after another denote what can be cut into one stretch for each |
| RegexReading.Alternation | src/tiger_host_regex.c:381-396 | branches between bars denote what any of them denotes |
| RegexReading.PlainText | src/tiger_host_regex.c:479-522 | a pattern of ordinary characters denotes exactly the stretches whose bytes are like them, one by one |
| RegexReading.Refused | src/tiger_host_regex.c:301-311 | a pattern with something in any branch where no atom can begin is refused |
| RegexReading.StrayParenthesis | src/tiger_host_regex.c:398-413 | so is one with a parenthesis that nothing opened |
| RegexBrackets.BracketMeans | src/tiger_host_regex.c:186-250 | a bracket denotes one byte its items ask for: a character, a range of codes, a class given by its code table, or a collating element; under the case flag the letter in its other case too; with a circumflex one they do not ask for, and under the newline flag no newline |
| RegexBrackets.BracketIffItems | src/tiger_host_regex.c:186-250 | a bracket is read if and only if its text is such items up to a closing bracket |
| RegexTable.Table.Find | src/tiger_host_regex.c:594-601 | the first slot holding an address, none for the null address |
| RegexTable.Table.PlaceFor | src/tiger_host_regex.c:607-636 | an address gets its own slot, a spare one, a new one, or in a full table the first one's |
| RegexTable.FilledKeeps | src/tiger_host_regex.c:607-636 | storing a program changes what the table knows of no other address, but for the one a full table drops |
| RegexTable.Table.RegComp | src/tiger_host_regex.c:680-704 | afterwards the address holds the program of the pattern's tree, or the refusal, and every other address what it held unless evicted |
| RegexTable.SubjectOf | src/tiger_host_regex.c:716-742 | the subject is what lies between bounds that are in order and short enough, or else all that follows, cut at a NUL |
| RegexTable.Table.RegExec | src/tiger_host_regex.c:708-768 | a match means the pattern last compiled at the address denotes a substring of the subject, bounds applied, and is not a suppressed abbreviation; no match within budget means it denotes none |
| RegexTable.Table.RegFree | src/tiger_host_regex.c:770-781 | the address is forgotten and every other one kept |
| RegexTable.AbbreviationIff | src/tiger_host_regex.c:663-677 | a pattern counts as an abbreviation rule exactly if it holds one of the five marks, whatever stands around it |
| BitReversal.RevInvolutive | src/tiger_host_accel.c:416-424 | reversing the bits of an index twice gives it back, and reversed indices stay in range |
| BitReversal.NextReversed | src/tiger_host_accel.c:416-419 | the carry loop over `j` steps from the reversal of one index to that of the next |
| Fft.BitReverse | src/tiger_host_accel.c:416-424 | the in-place loop leaves at every index the sample from the bit-reversed one |
| Dft.BinSplit | src/tiger_host_accel.c:443-464 | a transform of twice the points is the even half's plus the twiddled odd half's, for either direction |
| Fft.Twiddle | src/tiger_host_accel.c:447-454 | the table entry of a setup of any larger size and the recomputed angle are the same root |
| Fft.Stage | src/tiger_host_accel.c:443-464 | one stage turns blocks holding transforms of their decimated samples into blocks of twice the length doing so |
| Fft.FftComplex | src/tiger_host_accel.c:411-465 | on any power-of-two length the arrays end up holding the discrete Fourier sum, in either direction, with tables or without |
| RealDft.Inversion | src/tiger_host_accel.c:566-583 | transforming forward and back multiplies every sample by the number of points |
| RealDft.PackedBin | src/tiger_host_accel.c:542-546 | the spectrum of the packed signal is the even samples' plus i times the odd samples' |
| RealDft.MiddleBin | src/tiger_host_accel.c:547-560 | recombining a packed bin with its mirror gives the true bin of the real signal |
| RealDft.UnpackedIsSpectrum | src/tiger_host_accel.c:591-596 | unpacking a half spectrum by symmetry gives twice the whole true spectrum |
| RealDft.RoundTrip | src/tiger_host_accel.c:540-603 | the inverse of the unpacked half spectrum is twice the number of points times the signal |
| Zrip.CreateFftSetup | src/tiger_host_accel.c:354-399 | the setup's tables hold every stage's roots at their prefix offsets and the recombination roots, for radix 2 |
| Zrip.FillStages | src/tiger_host_accel.c:387-392 | the doubly nested loop writes each stage's roots where the stages read them |
| Zrip.Recombine | src/tiger_host_accel.c:545-560 | the recombination loop leaves half the packed true spectrum in the scratch arrays |
| Zrip.Forward | src/tiger_host_accel.c:535-564 | the forward call leaves twice the true half spectrum, the two real bins sharing slot 0, at any signed stride, and touches nothing off the grid |
| Zrip.Inverse | src/tiger_host_accel.c:565-603 | the inverse call leaves the inverse sum of the spectrum the slots stand for, at any signed stride, and touches nothing off the grid |
| Zrip.FftZrip | src/tiger_host_accel.c:480-605 | with a setup, a larger one, or none, either direction is computed, at stride zero into the one slot there is; a setup that is too small or a single point changes nothing |
| Zrip.ForwardThenInverse | src/tiger_host_accel.c:540-603 | forward then inverse multiplies every slot by exactly twice the number of points, unless the stride makes them all one |
| SourceSteps.ExecKeeps | src/tiger_host_gcd.c:330-768 | the invariant tying slots, threads, queues, lock and callback histories holds after any list of steps from an empty pool |
| SourceTheorems.AtMostOneCallback | src/tiger_host_gcd_queue.c:49-70 | in every interleaving no two callbacks run on one serial queue at once |
| SourceTheorems.SettledInOrder | src/tiger_host_gcd_queue.c:84-107 | everything enqueued is settled, in hand or waiting, in the order it was enqueued |
| SourceTheorems.CallbacksFollowArrivals | src/tiger_host_gcd_queue.c:39-107 | the callbacks of a run begin in the order of arrival; some may be skipped, none runs twice |
| SourceTheorems.NoLostWakeup | src/tiger_host_gcd_queue.c:49-70 | a non-empty queue has its event set, its worker awake, or only producers that are about to set it |
| SourceTheorems.WaiterIsNeverStuck | src/tiger_host_gcd_queue.c:84-107 | whenever a thread waits for its delivery, it may return or some step of its queue is enabled |
| SourceTheorems.NoJobOutlivesItsDelivery | src/tiger_host_gcd_queue.c:84-107 | outside its wait no queue holds a thread's job, which lives on that thread's stack |
| SourceTheorems.QuietMeansIdle | src/tiger_host_gcd_queue.c:84-107 | an in-flight count of zero means nothing is queued, in hand or running |
| SourceTheorems.CancelRunsOnceAfterEvents | src/tiger_host_gcd.c:433-450 | per incarnation the cancel callback begins at most once, and then every event callback that began has returned |
| SourceTheorems.NoEventAfterCancel | src/tiger_host_gcd.c:433-450 | once the cancel callback has begun no event callback of that incarnation begins in any continuation |
| SourceTheorems.CloseAlwaysDelivers | src/tiger_host_gcd.c:433-450 | a thread leaving its loop always finds its source retired and not yet delivered, also when the source cancelled itself |
| SourceTheorems.ReusableSlotIsUnheld | src/tiger_host_gcd.c:476-512 | a slot that may be claimed is held only by threads that have exited |
| SourceTheorems.LiveThreadHoldsItsIncarnation | src/tiger_host_gcd.c:476-512 | a live thread's slot is still the incarnation it was started for, and every other thread of that slot is older and gone |
| SourceTheorems.ClaimIsExclusive | src/tiger_host_gcd.c:330-338 | a slot just claimed, spare or new, can be claimed by nobody else in any continuation until it is cancelled |
| SourceCounts.SkippedIffCancelled | src/tiger_host_gcd_queue.c:39-47 | a queued event is skipped if and only if a canceller has begun to write to its source, and a cleanup never is |
| SourceCounts.EveryEventIsServed | src/tiger_host_gcd.c:365-450 | in every run and for every thread each expiry was armed for and, with a handler, makes one delivery; every delivery has run its callback or was skipped, and none is skipped without a cancellation; a thread that has gone has run the cancel callback exactly if there was one |
| SourceProgress.WaiterCanReturn | src/tiger_host_gcd_queue.c:84-107 | from every state in which a thread waits for its delivery, turns of its queue alone let it return |
| SourceProgress.ArmedSourceCanFire | src/tiger_host_gcd.c:365-433 | a running, armed source with a handler has a continuation that runs its event callback once more, whatever is queued before it |
| SourceProgress.CancelledSourceCanClose | src/tiger_host_gcd.c:433-450 | a cancelled source has one that runs its cancel callback |
| SourceProgress.SourceCanStart | src/tiger_host_gcd.c:722-746 | resuming a source starts a thread of its own, and changes neither its timer nor its handlers |
| SourceTimers.ArmedIsLastWord | src/tiger_host_gcd.c:365-432 | a timer is armed exactly if that is the last word on it in the run: set or cleared, due, cancelled, or repeated after its delivery |
| SourceTimers.WaitingThreadGoesOn | src/tiger_host_gcd.c:754-768 | a source thread that waits can go on once its source is cancelled, and whenever its timer is armed |
| SourceTimers.LongestRetiredIsClaimed | src/tiger_host_gcd.c:476-512 | a new source gets, of the vacant slots, the one that has been retired the longest, and an unused one only if there is none |
| Timeline.Collector.Place | src/tiger_host_audio.c:599-604 | silence up to the position, then the samples, as far as the buffer reaches, and the new end |
| Timeline.Collector.Clock | src/tiger_host_audio.c:544-576 | the epoch, origin and base after a slice's time, the replaced kick and the clock that went back included |
| Timeline.Collector.Store | src/tiger_host_audio.c:578-605 | the first buffer of a list is written where the slice belongs |
| Timeline.Collector.Collect | src/tiger_host_audio.c:483-606 | one slice changes the collector's whole state as the specification function says |
| TimelineLaws.CollectKeeps | src/tiger_host_audio.c:483-606 | over any list of slices base and end only move forward and nothing below the base ever changes |
| TimelineLaws.SliceLands | src/tiger_host_audio.c:578-605 | a slice that fits is in the buffer at its position, as many frames of its first buffer as it says it has, after silence if that is past the end; no other frame changes, and the end is the later of the two ends |
| TimelineLaws.RoundIsNearest | src/tiger_host_audio.c:586 | a position is the nearest whole frame |
| TimelineLaws.ClockShows | src/tiger_host_audio.c:544-576 | after a slice the clock shows its time, for any clock that went back or forward |
| TimelineLaws.LaterSliceKeepsClock | src/tiger_host_audio.c:575-586 | a slice of the same restart count not earlier than the one before it is placed on the same clock |
| TimelineLaws.EarlierSliceAppends | src/tiger_host_audio.c:575-586 | one that is earlier changes no frame below the end, and its samples come after the end |
| TimelineLaws.NewEpochStarts | src/tiger_host_audio.c:544-555 | the first slice of a new restart count goes to the end of the audio, or over a kick |
| TimelineLaws.StaleFramesExposed | src/tiger_host_audio.c:577-604 | collecting a slice makes frames nobody wrote part of the audio if and only if it starts past a buffer that is not full, and then the whole rest of it |
| TimelineLaws.OldContentIsNeverHeard | src/tiger_host_audio.c:483-606 | in a run without such a slice the audio does not depend on what the buffer held before |
| TimelineLaws.OvershootIsHeard | src/tiger_host_audio.c:577-604 | one frame, then an empty slice timed past the end: the rest of the old content becomes audio |
| TimelineLaws.TimelineIsConcatenation | src/tiger_host_audio.c:483-606 | for runs contiguous within each epoch the buffer is the epochs' audio in order, each silent one-frame kick replaced by the epoch after it |
| StreamReader.WriteSettles | src/tiger_host_audio.c:599-604 | each single store of a slice brings the buffer nearer to what collecting the slice comes to, and none touches frames below both the end and its position |
| StreamReader.PulledIsPrefix | src/tiger_host_jni.c:364-412 | in every interleaving of pulls with the single stores of slices within the lookbehind the samples handed out are the clipped beginning of the buffer, and all of it once a pull finds the end; between slices the buffer is what the slices come to |
| StreamReader.HandedOutIsFinal | src/tiger_host_jni.c:364-412 | what was handed out at any time is the beginning of the audio at any later time |
| StreamReader.ContiguousWithinReach | src/tiger_host_audio.c:544-585 | contiguous runs never write more than one frame behind the end, so a lookbehind of one is enough |
| StreamReader.LookbehindIsNeeded | src/tiger_host_serve.c:92 | with no lookbehind a pull hands out the kick that the next epoch replaces |
| StreamReader.Clip | src/tiger_host_jni.c:96-101 | a clamped sample is within 16 bits, symmetrically |
| StreamReader.ClipIsTruncated | src/tiger_host_jni.c:96-101 | a sample becomes its scaled value with the fraction cut off, the sign kept, and the ends of the range outside it |
| StreamReader.PullTakesAll | src/tiger_host_jni.c:364-412 | an undisturbed pull hands out all there is but the lookbehind, or all once the utterance is over, up to its room |
| PacerRing.Ring.Put | src/tiger_host_audio.c:432-457 | the ring of 512 slots appends to the queue it holds, or reports that it is full |
| PacerRing.Ring.Take | src/tiger_host_audio.c:656-668 | the ring hands out the oldest job and keeps the rest in order |
| Pacer.CompletedOnceInOrder | src/tiger_host_audio.c:648-709 | in every interleaving accepted slices are judged and completed in order, each at most once, none is lost, and each judged one is either collected or counted stale |
| Pacer.Conservation | src/tiger_host_audio.c:432-457 | offered slices are completed, queued, in hand, waiting for room or counted as dropped |
| Pacer.EverythingCanComplete | src/tiger_host_audio.c:648-709 | from every reachable state the pacer's own turns complete all that was accepted |
| Pacer.DroppedOnlyAfterWaiting | src/tiger_host_audio.c:432-457 | a slice enters the first time it finds room, and is dropped only after 501 times without |
| Pacer.UndisturbedIsCollected | src/tiger_host_audio.c:648-709 | a slice that enters while nothing new begins and nothing is cancelled is collected for the utterance and restart it was stamped with |
| PacerJudging.JudgedByItsStory | src/tiger_host_audio.c:689-696 | in every run a judged slice is collected if and only if, when it was tested, its utterance was the current one and cancelling was off, and then with its own stamps into the buffer of the moment; otherwise it is stale |
| Pacer.IdleIsSound | src/tiger_host_audio.c:460-467 | when the two reads say idle, every slice accepted before the first has been judged and its completion has returned, whatever ran between them |
| Pacer.FlagFirstIsUnsound | src/tiger_host_audio.c:460-467 | reading the flag before the length could call a slice in flight idle |
| Pacer.OnlyTheWantedOutliveTheClearing | src/tiger_host_jni.c:105-111 | of the slices accepted but not judged when the buffer is cleared, exactly those that have passed the test, or are still to be tested and of the current utterance, go into the next utterance's buffer in some continuation |
| Pacer.OnlyTheWantedBleedOver | src/tiger_host_audio.c:689-696 | the same at any moment until the next utterance is the current one, later arrivals included; every other slice is counted stale once it is judged |
| Pacer.QueuedSlicesBleedOver | src/tiger_host_jni.c:105-111 | a run in which two slices that had not been tested when the buffer was cleared are both collected into the next utterance's buffer |
| Pacer.OnlyThePassedBleedsOver | src/tiger_host_audio.c:689-696 | once the next utterance is the current one, of the slices accepted before and not judged exactly the one that has passed the test can still be collected; every other is counted stale |
| Pacer.NothingBleedsOver | src/tiger_host_jni.c:105-111 | if the buffer is cleared only while the pacer is idle, and nothing is accepted until the new utterance is the current one, every slice is collected into the buffer of the utterance it was stamped for |
| Pacer.HasteBleedsOver | src/tiger_host_audio.c:693-694 | without that wait a run collects a slice into the next utterance's buffer |
| AacStream.DecodedExtends | src/tiger_host_aac.c:225-226 | later access units never change the samples of earlier ones |
| AacStream.HeardIsTold | src/tiger_host_aac.c:800-859 | what is heard depends only on the units fed between the ends of streams, not on how replies batch them |
| AacStream.HeardContinues | src/tiger_host_aac.c:762-1011 | if the units of one exchange go on where those of another stop, so does the audio |
| AacStream.SplitReplyTells | src/tiger_host_aac.c:827-859 | splitting a reply in two feeds the same units, as long as nothing before the split overruns |
| AacStream.LaidUnitsAreFed | src/tiger_host_aac.c:827-859 | units laid end to end from any place in memory are fed as they are and in order, but for those the decoder refuses |
| AacStream.BadOffsetFeedsNothing | src/tiger_host_aac.c:827-859 | a description with a negative offset or no bytes changes nothing |
| AacStream.OverrunEndsReply | src/tiger_host_aac.c:827-859 | the first description that runs past the reply's bytes ends it |
| AacConverter.Converter.FeedReply | src/tiger_host_aac.c:827-859 | exactly the accepted units before the first overrun are fed, in 32-bit offset arithmetic, and nothing the decoder lets out is lost |
| AacConverter.Converter.TakeReply | src/tiger_host_aac.c:818-901 | a reply with packets keeps the accounting: what was handed over and what waits is the trimmed stream so far |
| AacConverter.Converter.CloseStream | src/tiger_host_aac.c:959-986 | after the close what was handed over and waits is the closed streams, the last clamped to its own units, for a decoder of any latency |
| AacConverter.Converter.Refill | src/tiger_host_aac.c:763-995 | at most 64 rounds; coming back empty-handed earlier means the stream is closed |
| AacConverter.Converter.Fill | src/tiger_host_aac.c:736-1025 | the buffer holds what was handed over, then silence up to the request, then what it held; a short fill means nothing waits |
| AacConverter.Converter.Reset | src/tiger_host_aac.c:661-675 | the stream and what waits are forgotten |
| AacConverter.ClampedTail | src/tiger_host_aac.c:970-984 | the clamp on the tail leaves exactly what the decoder let out of the units' own audio, and no re-fed copy escapes |
| AacConverter.HandedIsHeard | src/tiger_host_aac.c:762-1011 | for decoders that hold at most two frames what was handed over is always a prefix of what the engine's data says, and all of it once closed and drained |
| AacConverter.DecoderIndependence | src/tiger_host_aac.c:762-1011 | converters over decoders of any latency up to two frames, with any splitting, request sizes and batching, hand over audio of which one is the beginning of the other wherever each stands, and the same audio once both are drained and told the same |
| AacConverter.SameEngineSameAudio | src/tiger_host_aac.c:762-1011 | in particular over one engine, however often each converter has asked it |
| AacConverter.TwoCopiesSuffice | src/tiger_host_aac.c:962-984 | whatever a decoder lets out within its latency, the clamped stream is the whole of it, iff the latency is at most two frames or the stream is all delay |
| AacConverter.ThreeHeldFramesLose | src/tiger_host_aac.c:962-984 | a decoder that holds three frames may lose all 960 samples of a stream of three units |
| NumberWords.SpokenIsFaithful | src/tiger_host_numbers.c:85-116 | exactly the numbers below a thousand trillion are said, and a reader of the words gets the number back |
| NumberWords.SpokenIsInjective | src/tiger_host_numbers.c:85-116 | different numbers are said differently |
| NumberWords.ToWords | src/tiger_host_numbers.c:85-116 | the recursive printer appends the words, or nothing when it refuses |
| NumberToken.TokenIsPattern | src/tiger_host_numbers.c:160-180 | the token scan accepts exactly the strings of the pattern: sign, digit, run, groups |
| NumberToken.TokenValid | src/tiger_host_numbers.c:165-180 | the index loop decides that |
| NumberRewrite.GroupIsGrouped | src/tiger_host_numbers.c:142-151 | grouping gives one to three digits and then commas with exactly three |
| NumberRewrite.GroupKeepsDigits | src/tiger_host_numbers.c:142-151 | deleting the commas gives the digits back |
| NumberRewrite.AddGrouped | src/tiger_host_numbers.c:142-151 | the grouping loop appends that |
| NumberScan.FindToken | src/tiger_host_numbers.c:364-399 | the greedy scan with giving back finds the longest candidate of all, or none when there is none |
| NumberScan.SplitParts | src/tiger_host_numbers.c:205-217 | the parts between dots, refused when more than eight or one is empty |
| NumberScan.AddVersion | src/tiger_host_numbers.c:222-235 | every part in words, or nothing: what was said is taken back |
| NumberScan.AddRewritten | src/tiger_host_numbers.c:185-278 | one token's rewrite is appended, or nothing |
| NumberScan.ExpandText | src/tiger_host_numbers.c:296-407 | the whole loop computes the piecewise rewrite, and with the style switched off the text itself |
| NumberPattern.PieceIsLongestMatch | src/tiger_host_numbers.c:280-295 | outside commands a token is taken at a position iff the pattern with both lookarounds matches there, and then the longest match |
| NumberPattern.OnlyTokensChange | src/tiger_host_numbers.c:308-405 | the pieces make up the text and the result, and a piece changes only if it is a token, to its rewrite |
| NumberShapes.RewriteShape | src/tiger_host_numbers.c:185-278 | a rewrite is plain words or the same digits grouped behind the same sign |
| NumberReading.RewriteReadsBack | src/tiger_host_numbers.c:185-278 | a token is rewritten if and only if its parts can be said, or need fixing; the words read back, part by part and with the minus, as the token's own numbers, a fraction digit by digit; and grouped digits are the token's digits with its sign |
| NumberReading.ExpandedPieceByPiece | src/tiger_host_numbers.c:296-407 | the text is cut from left to right into commands, copied; longest matches of the pattern, rewritten as above exactly when they can be; and single characters, copied |
| NumberTwice.SameLongest | src/tiger_host_numbers.c:364-399 | a scan depends only on the body characters and the one after them |
| NumberTwice.StableAfterClose | src/tiger_host_numbers.c:312-325 | what follows the first closing brackets of an unchanged text is unchanged |
| NumberTwice.ExpandTwice | src/tiger_host_jni.c:284-286 | rewriting a second time changes nothing, for every text and every style, commands included |
| SettingsLaws.ReadLinesHoldable | sapi/settings.cpp:62-111 | every setting the reader returns has a bare key, a short one-line string or a number in range |
| SettingsLaws.LinesAppend | sapi/settings.cpp:66-71 | reading two texts joined by a line end is reading each |
| SettingsLaws.ParseAppend | sapi/settings.cpp:62-71 | the same for whole files, as long as the second does not start with a byte order mark |
| SettingsLaws.RoundTrip | sapi/settings.cpp:62-135 | a table comes back from its file if and only if it is well formed |
| SettingsLaws.RewriteIsStable | sapi/settings.cpp:62-135 | reading, writing and reading again gives what the first reading gave, for every file |
| SettingsLines.LineIff | sapi/settings.cpp:67-110 | a line sets a key to a value if and only if it is the bare key and the value around an equals sign, spaces anywhere between: a quoted text with its backslashes, cut at 63 characters, or true, false or a signed number within 31 bits, then spaces and a comment |
| SettingsLines.OtherLinesSayNothing | sapi/settings.cpp:67-110 | every other line sets nothing |
| SettingsLines.FileIsItsLines | sapi/settings.cpp:62-71 | a file is its lines in order, with or without a byte order mark |
| SettingsFile.ParseText | sapi/settings.cpp:62-111 | the position-driven loop reads the file line by line |
| SettingsFile.UnquoteText | sapi/settings.cpp:79-89 | the quoted string, backslashes taken off, or nothing when it is not closed |
| SettingsFile.IntegerText | sapi/settings.cpp:96-107 | a signed number within range, or nothing |
| SettingsFile.SerializeText | sapi/settings.cpp:113-135 | the header and a line for every setting |
| SettingsFile.FindKey | sapi/settings.cpp:274-278 | the last line that names the setting up to letter case, or -1 |
| SettingsFile.FromFiles | sapi/settings.cpp:283-300 | the first file whose last word on the setting has the wanted type decides; none means no file has one |
| DyldLeb.UnsignedRoundTrip | src/tiger_host_dyldinfo.c:99-110 | decoding an encoded number gives it back modulo the word, whatever follows |
| DyldLeb.SignedRoundTrip | src/tiger_host_dyldinfo.c:112-123 | the same for signed numbers, exactly for those that fit |
| DyldLeb.ReadUnsigned | src/tiger_host_dyldinfo.c:99-110 | the shifting loop computes the value modulo the word, over encodings of any length |
| DyldLeb.ReadSigned | src/tiger_host_dyldinfo.c:112-123 | the same with the sign extended only inside the word |
| DyldWalk.Emit | src/tiger_host_dyldinfo.c:186-207 | the counted loop makes its fixups one at a time, or fails where the segment does not exist |
| DyldWalk.WalkStream | src/tiger_host_dyldinfo.c:152-299 | the walk hands over exactly the fixups its opcodes mean, in order, up to the end or the first error, and says which |
| DyldLaws.CountedAddresses | src/tiger_host_dyldinfo.c:186-207 | a counted opcode makes evenly spaced fixups under wrapping offsets, or fails on its first |
| DyldLaws.WalkProgram | src/tiger_host_dyldinfo.c:152-299 | walking an encoded program is running its opcodes, for every program and stream |
| DyldLaws.StopsAtTheError | src/tiger_host_dyldinfo.c:152-299 | before an opcode that is unknown or cut short everything is handed over, and one fixup more if that opcode makes it before reading on |
| DyldLaws.LazyIsEachProgram | src/tiger_host_dyldinfo.c:242-254 | walking a lazy stream is walking each of its programs from the reset state |
| DyldLaws.FixupsRoundTrip | src/tiger_host_dyldinfo.c:152-299 | any list of fixups comes back from its encoding, in order |
| DyldOpcodes.OneForm | src/tiger_host_dyldinfo.c:152-299 | for each of the byte forms of both streams, numbers encoded at any length: the fixups it makes, evenly spaced from where the state stands, and the walk of the rest from the state after it, or the stop where the segment is missing |
| DyldOpcodes.DecodedIffForm | src/tiger_host_dyldinfo.c:152-299 | the walk goes on exactly where one of the forms stands |
| DyldOpcodes.NoForm | src/tiger_host_dyldinfo.c:152-299 | elsewhere it stops, and only the form that fixes before it reads on has made its fixup |

## Left out

- Rounding: the Fourier transform is proved over exact reals; casts to float, the clipping error of one sample and bit-for-bit audio are not modelled.
- Allocation failures, environment variables, logging and statistics, apart from the pacer's drops and the counters the protocols use.
- RegexMatcher.Search: the subject is a string without NUL bytes, and the repetition count is a number rather than an unsigned, which the step budget keeps far below its range.
- RegexProgram.TreeSurvivesGrowth: a bracket's 256-bit map is a set of bytes and the arena a sequence, so the doubling of their storage is not modelled.
- RegexTable.Table.RegComp: the lock every entry point takes is not modelled; the methods are one caller at a time. That a full table drops its first slot is stated as the code does it.
- Zrip.FftZrip: places in memory are computed exactly, where the source multiplies slot and stride in 32 bits, so a negative stride relies on pointers of that width; sizes are below the width of a shift; real and imaginary parts do not overlap; the scratch buffers of the slow path are the setup's kind, allocated.
- The pairing calls around the transform (`ctoz`, `ztoc`), convolution and the other vector routines.
- SourceSteps.ExecKeeps: suspending a source and resuming one that was cancelled happen outside the pool lock and are not steps; neither are general asynchronous blocks. Time is any choice of steps: a wait may end by timeout or by re-arming whenever the state allows it.
- SourceTheorems.WaiterIsNeverStuck: it says that a step is enabled, not that a scheduler takes it; callbacks are assumed to return. The laws of `SourceProgress` likewise give a continuation and do not promise that it is taken.
- SourceTimers.WaitingThreadGoesOn: a timer set before its source is resumed counts as a wakeup of the thread to come, where the source has no event to signal yet; that thread may turn round its loop once more for it.
- Timeline.Collector.Collect: sample times are reals and positions unbounded numbers, so a time beyond 32 bits of frames is not wrapped; a restart count is never the reserved value that means none. The samples a slice's buffer holds are read when it is collected.
- StreamReader.PulledIsPrefix: the stop flag and the ten-second limit only end a pull early and are not steps. A slice's clock, and a frame of silence with the end behind it, move in one step. An utterance found complete stays so: no slice is taken up after it.
- Pacer.Conservation: pacing delays and the wake-up event are time, which is not modelled; the bound on waiting is the number of turns.
- Pacer.OnlyThePassedBleedsOver: with respect to a new utterance, collecting a slice is one step after its test, and clearing the buffer is one step.
- AacConverter.Converter.Fill: counters are unbounded rather than 32 bits, sound is mono as the accounting assumes, and the decoder behind it (Media Foundation, NDK, FAAD2, Glint) is any decoder that refuses a unit by its content alone; the simulated older decoder and the whole-unit path are not modelled.
- NumberWords.ToWords: a number is unbounded; its callers pass at most nineteen digits.
- SettingsFile.ParseText: what counts as a space, a letter or an equal letter is the platform's, given as a parameter with the few facts the format needs; reading and swapping files, the cache and the registry are not part of this model.
- DyldWalk.WalkStream: an error ends the program, and the walk's result then says so. What the consumers do with a fixup (adding the slide, looking a symbol up) is not part of this model.
- The emulator, crash recovery, block copying, CoreFoundation, printf emulation, SQLite, COM, packaging and user interfaces.
