# The Brother QL label pipeline, verified

A Dafny model of the printing core of raku-sika-hub: how a rendered label becomes a raster
stream, how the CUPS backend follows that stream and the printer to a verdict, how the hub
waits for it, and how label text is broken into lines. `dafny verify dfyconfig.toml` checks
all of it.

**Streams.** `command_stream` gives the raster language of the QL-800 series an abstract
syntax and a lexer, and shows that it is uniquely decodable. `raster` packs images into
streams bit by bit; `job_parser` walks streams; `two_color` rewrites them for a red/black
roll. All three are loops over bytes proved against the commands they stand for, so that
their laws can be stated about what prints: an encoded image reads back dot for dot, a
rewritten job prints the same black dots, a stream's job is the sum of its parts. `page_laws`
says of an encoded job what each command and each dot is, in numbers. `reset`
says exactly when invalidate-and-initialise brings a printer back to reading commands.

**Frames.** `frames` takes status frames out of a stream cut into reads of any length, and
agrees with one scan of the whole; `status` and `frame_bytes` say what the bytes and bits of
a frame mean to a run, down to whether the job is sent.

**The send protocol.** `send_protocol` is the protocol as a machine over a log: what was
read, written, waited for and told, with the time of each. `sender` is the code: a class
whose methods select, write and loop, on a port that answers in every way the world might
(frames, time-outs, disconnects, cancels, failed writes, in any order and at any time); each
method is proved to follow the machine. So a law about `Replay(task, log)` for every log is a
law about every run of `Send`. `send_laws`, `send_verdicts` and `send_times` prove what is
written, what the verdict means and how long it takes; `send_records` and `send_answers`
what reached the printer, which jobs are refused, and what was answered; `delivery` joins
them with the stream laws, and with the encoder from image to wire; `hub_wait` joins the run
with the hub's wait, and `late_verdicts` has the runs that come too late for it.

**The hub.** `queue_wait` polls the queue until a job has left it; `job_ledger` and
`diagnosis` tell how long jobs have been waiting and when they are stuck.

**Text.** `line_breaking` and `wrap_laws` break Japanese text, `fit_text` shrinks text into
frames and tables, `bilingual` and `bilingual_laws` lay out "English/Japanese" text, and
`label_text_laws` says of the wrapping of all of them that no character is lost. The text
of a bilingual cell is wrapped and then cut to the lines of the cell, and `FitLines` cuts
at its smallest size: of both it is said exactly when all of the lines are kept, with a
bilingual text of which one is lost. Widths are sums of glyph
advances; sizes are in quarter points.

Bytes are integers from 0 to 255, with the bit operations defined on them in `bytes`. Where
the source would wrap or truncate (the byte of a length, `255-l` on unsigned numbers, division
of durations, rounding to whole dots), the model says so.

The code and its comments differ in these places, and the model follows the code:

* Unconfirmed is documented as the printer having answered nothing at all, before or after
  (`internal/printer/qlbackend/send.go:22-24`). A printer that answers the first status request
  as busy and then nothing ends a job as unconfirmed too: `BusyThenSilent` is that run, for
  any job, and `SilentFromTheStartIff` says that the comment holds exactly if busy printers
  are not asked again; in production they are, five times.
* Bilingual text is documented as broken at spaces, after "/", between any two CJK characters
  and, as a last resort, within a word
  (`internal/printer/label_en_traceable.go:77-82`, `internal/printer/label_en_traceable.go:117-120`).
  `CutsIff` says where it is: "/" is a break point only between different kinds of characters,
  and by `NoCutWithin` there is none between two CJK characters, nor within a word.
* The reset is documented as leaving whatever the printer was parsing
  (`internal/printer/qlbackend/send.go:89-92`). `ResyncsIff` gives the exact condition, which
  a stop inside an ESC or ESC i opcode, or early in a long compressed line, does not meet;
  `ResetFails` has one of each.
* A failure after sending is documented as clearing what the printer has buffered
  (`internal/printer/qlbackend/send.go:157-160`). `HeldIsDroppedIff` gives the exact condition:
  all of the reset arrives, and the printer stood where at most 400 zeros complete a command,
  outside an opcode. The code does not look whether the reset was taken (`LeftBehind`), and a
  reset that is taken may be swallowed by a compressed line (`HeldThroughReset`).
* The wait is documented as returning the last queue that was read successfully
  (`internal/printer/queue_wait.go:10-11`). After a failed last reading it does not:
  `ReturnsLastReadIff`, `LastReadingFails`.
* Thirty labels of 62 x 100 mm are documented as under 1.5 MB
  (`internal/printer/qlbackend/main.go:31-32`); `ThirtyLabels` gives 3.3 MB, still far below
  the limit.

## Model

| member | source | states |
|---|---|---|
| Bytes.BitAfterSet | internal/printer/qlraster/qlraster.go:210 | Setting a bit of a byte sets that bit and leaves every other as it was. |
| Bytes.SameByte | internal/printer/qlraster/qlraster.go:201-213 | A byte is determined by its eight bits, so a row is determined by its dots. |
| Bytes.ByteBits | internal/printer/qlbackend/status.go:126-138 | Bit k of a byte is its k-th halving, odd or even. |
| CommandStream.LexSound | internal/printer/qlbackend/job.go:23-39 | Walking loses nothing: the commands read and what is left are the stream, and nothing can be read off what is left. |
| CommandStream.LexComplete | internal/printer/qlbackend/job.go:23-39 | The command language is uniquely decodable: commands written in front of any bytes are read back as those commands, whatever their payload. |
| CommandStream.LexAppend | internal/printer/qlbackend/main.go:115-122 | A stream read to its end does not change how another one after it is read. |
| CommandStream.LexThrough | internal/printer/qlbackend/send.go:88-95 | Whatever follows a stream is read together with exactly the bytes it left over. |
| CommandStream.LexPrefix | internal/printer/qlbackend/job.go:32-37 | A prefix of a stream reads as a prefix of its commands, and then ends or is cut inside the next one. |
| CommandStream.CutMeansInsideCommand | internal/printer/qlbackend/job.go:32-37 | The bounds checks fail at a place exactly when some command starts with all that is left there. |
| CommandStream.WalksAllIff | internal/printer/qlbackend/job.go:38-124 | A walk that knows some commands takes a stream to the last byte exactly when it is made of those. |
| JobParser.WalkEscape | internal/printer/qlbackend/job.go:80-120 | The ESC case moves over exactly one command of the stream, or fails with the offset and error of what stands there. |
| JobParser.WalkLine | internal/printer/qlbackend/job.go:52-79 | The cases of the three raster line commands, likewise. |
| JobParser.Walk | internal/printer/qlbackend/job.go:39-123 | One turn of the walk is one command of the stream added to the job, or its error. |
| JobParser.ParseJob | internal/printer/qlbackend/job.go:29-129 | The byte walk computes the job that the stream's commands make up, or the error and its offset. |
| JobLaws.AcceptedIffJob | internal/printer/qlbackend/job.go:23-28 | The accepted streams are exactly the renderings of sequences of known commands that print something. |
| JobLaws.EndsInsideIff | internal/printer/qlbackend/job.go:32-37 | A stream is refused as ending inside a command at an offset exactly when it is known commands up to there and some command goes on from all the rest. |
| JobLaws.SummaryCounts | internal/printer/qlbackend/job.go:13-21 | The job holds the number of print commands, two colours exactly if some command asks for them, and the first roll named in fields that bits 1 and 2 of the flags mark valid. |
| JobLaws.ParseRendered | internal/printer/qlbackend/job.go:29-129 | Known commands are accepted, with their summary, unless none prints. |
| JobLaws.AcceptedMeans | internal/printer/qlbackend/job.go:23-28 | An accepted stream is, byte for byte, its known commands, and prints at least one label. |
| JobLaws.ParseAppend | internal/printer/qlbackend/main.go:115-122 | ParseJob is a homomorphism: pages add up, the first known roll counts, two colours are or-ed. |
| JobLaws.PrepareJob | internal/printer/qlbackend/main.go:97-123 | The stream sent is the data as often as copies ask, only with a file argument; its job, with the pages multiplied, is the job the parser finds in the replicated stream; too much data and other formats are refused. |
| JobLaws.PayloadIsIgnored | internal/printer/qlbackend/job.go:23-25 | Whatever bytes the raster lines hold, commands among them included, the verdict is the same. |
| JobLaws.ProperPrefixFallsShort | internal/printer/qlbackend/job.go:27-28 | No proper prefix of a stream that ends with its print command passes for the whole: it is refused or has fewer pages. |
| TwoColor.ConvertLine | internal/printer/qlbackend/job.go:144-156 | A black line becomes the same black line and an empty red one, or the error at its offset. |
| TwoColor.ConvertEscape | internal/printer/qlbackend/job.go:159-192 | A command is copied, with the two-colour bit of ESC i K patched in the output, or its error at its offset. |
| TwoColor.ConvertOne | internal/printer/qlbackend/job.go:143-196 | One turn of the rewrite is the rewriting of one command. |
| TwoColor.ToTwoColor | internal/printer/qlbackend/job.go:140-199 | The byte rewrite computes the rendering of the recoloured commands, or the error and its offset. |
| TwoColorLaws.RewrittenIff | internal/printer/qlbackend/job.go:134-139 | A job is rewritten exactly when it holds nothing but uncompressed black lines and settings. |
| TwoColorLaws.DrawRecolored | internal/printer/qlbackend/job.go:134-139 | Label by label, the rewritten commands draw the same black lines and as many empty red ones. |
| TwoColorLaws.SummarizeRecolored | internal/printer/qlbackend/job.go:134-139 | Pages and roll are kept, and the result is a two-colour job exactly if it has a line or an ESC i K. |
| TwoColorLaws.FrameRecolored | internal/printer/qlbackend/job.go:136-137 | Nothing else changes: the commands around the lines are the same, in order, with the two-colour bit of ESC i K set. |
| TwoColorLaws.NoBlackOnlyLine | internal/printer/qlbackend/job.go:135-137 | No black-only line is left. |
| TwoColorLaws.LengthRecolored | internal/printer/qlbackend/job.go:152-155 | The output is longer by three bytes and the length of the line, for every line. |
| TwoColorLaws.RewriteKeepsMeaning | internal/printer/qlbackend/job.go:134-199 | Of every accepted job that is rewritten the output is accepted, with as many pages, the same roll, the same black dots on every label, nothing in red, and the length accounted for. |
| Reset.ResyncsIff | internal/printer/qlbackend/send.go:88-95 | For every byte stream: with the reset after it all is read as commands, ESC @ the last, if and only if the stream does not stop in an opcode, at an unknown one, or where a compressed line lacks more than 400 bytes. |
| Reset.UncompressedResyncs | internal/printer/qlbackend/send.go:88-95 | For every prefix of a stream without compressed lines, only a cut inside an ESC or ESC i opcode defeats the reset. |
| Reset.ResetFails | internal/printer/qlbackend/send.go:89-92 | After a lone ESC, and after the start of a line of 65535 bytes, the reset does not bring command reading back. |
| Reset.NextJobIsReadWhole | internal/printer/qlbackend/send.go:447-454 | After a reset that resynchronises, the next job is read as the commands it is written as. |
| Reset.ResetDropsTheLabel | internal/printer/qlbackend/send.go:157-160 | After it the printer holds no part of a label, and no label more has been printed. |
| Reset.PartOfReset | internal/printer/qlbackend/send.go:88-95 | After any bytes at all, and whatever front of the reset arrives: no label is printed; all of the reset, where the stop is recoverable, drops the label and ends the reading; in any other case every line held stays held. |
| Reset.HeldIsDroppedIff | internal/printer/qlbackend/send.go:157-160 | After any bytes at all, a label that is held is dropped if and only if all of the reset arrives and the printer stands between commands, or where at most 400 zeros complete one, outside an opcode. |
| Reset.AsksChangeNothing | internal/printer/qlbackend/send.go:295-302 | After any bytes at all, status requests or parts of them print no label and drop no line held, and between commands they change nothing drawn. |
| Raster.Luma | internal/printer/qlraster/qlraster.go:227-235 | The luma is a level from 0 to 255, so that 255-l does not wrap. |
| Raster.InkIff | internal/printer/qlraster/qlraster.go:106-109 | A pixel is ink exactly when its luma, rounded to the nearest level, is at most 128. |
| Raster.PackedRowDots | internal/printer/qlraster/qlraster.go:204-211 | A packed row has a dot exactly where an inked pixel falls on the head, mirrored left to right. |
| Raster.SameRow | internal/printer/qlraster/qlraster.go:201-213 | Rows with the same dots are the same bytes. |
| Raster.PackRow | internal/printer/qlraster/qlraster.go:203-211 | Drawing into the cleared row buffer, bit by bit, leaves the packed row of the image there. |
| Raster.WriteSettings | internal/printer/qlraster/qlraster.go:170-199 | The bytes put before the rows are the page's settings commands. |
| Raster.WriteRows | internal/printer/qlraster/qlraster.go:201-214 | The bytes put are one raster line for every row of the image, in order. |
| Raster.WritePage | internal/printer/qlraster/qlraster.go:146-222 | A page that fits is appended as its commands; otherwise the fault is returned that stands in the way. |
| Raster.WritePages | internal/printer/qlraster/qlraster.go:138-142 | The page loop appends the pages' commands in order, or stops at the first page that cannot be encoded. |
| Raster.EncodePages | internal/printer/qlraster/qlraster.go:130-144 | The stream renders the job's commands; no pages is an error, and so is the first page that does not fit, with its number and fault. |
| RasterLaws.RoundTrip | internal/printer/qlraster/qlraster.go:130-222 | Reading an encoded stream back gives, for every image, all its rows, a dot at the mirrored place of a printable pixel exactly if it is inked, and no dot elsewhere. |
| PageLaws.PixelsArePrinted | internal/printer/qlraster/qlraster.go:202-237 | Of every pixel of the printable columns of an encoded job: dot offsetRight + dotsPrintable - 1 - x of its row prints exactly if it is gray up to 128, or its weighted red, green and blue round to that. |
| PageLaws.PixelOn62 | internal/printer/qlraster/qlraster.go:65-74 | On the 62 mm roll the 696 columns from the 19th on of an image of 732 print, column x of them on dot 707 - x. |
| PageLaws.PageOkIff | internal/printer/qlraster/qlraster.go:151-162 | An image can be encoded exactly if it is as wide as the tape or its printable part and has 150 to 11811 rows. |
| PageLaws.JobOpens | internal/printer/qlraster/qlraster.go:130-144 | An encoded job opens with 400 times 00, ESC @ and raster mode, once, and then has its pages and nothing else. |
| PageLaws.PageDeclares | internal/printer/qlraster/qlraster.go:168-221 | Page k of an encoded job, read back: ESC i z with the flags, the width, the rows and 0 or 1 for the page; the cut settings; one ESC i d with the feed margin, low byte first; a line of 90 bytes for each row; and the print command, with feed after the last page only. |
| PageLaws.PageOn62 | internal/printer/qlraster/qlraster.go:65-74 | On the 62 mm roll the width declared is 62, and the margin goes out as 23 00. |
| RasterLaws.EncodedDraws | internal/printer/qlraster/qlraster.go:125-130 | The labels printed are the images, one each, in order, and none is left half drawn. |
| RasterLaws.DeclaredRowsAreSent | internal/printer/qlraster/qlraster.go:170-184 | The row count a page declares, little-endian, is the number of rows it sends. |
| RasterLaws.EncodedParses | internal/printer/qlbackend/job.go:29-129 | The parser accepts what the encoder writes: a page per image, the roll exactly if it is to be checked, one colour. |
| RasterLaws.EncodedPrefixFallsShort | internal/printer/qlraster/qlraster.go:216-220 | No proper prefix of an encoded job passes for the whole job. |
| RasterLaws.EncodedLength | internal/printer/qlbackend/main.go:31-33 | An encoded job is 406 bytes and what its pages take (23, 8 more if cut, 93 a row); thirty copies never reach the backend's limit. |
| RasterLaws.ThirtyLabels | internal/printer/qlbackend/main.go:31-33 | Thirty labels of 100 mm, documented as under 1.5 MB, are 3.3 MB. |
| RasterLaws.EncodedRewrites | internal/printer/qlbackend/job.go:134-139 | An encoded job can always be rewritten, is then a two-colour job, and prints the same labels in black. |
| PrinterStatus.AddFlags | internal/printer/qlbackend/status.go:124-140 | One of the two loops, carrying the list and what has been said from the first table to the second. |
| PrinterStatus.ListProblems | internal/printer/qlbackend/status.go:120-142 | The problems are those of the flags set in both error bytes, in table order, each advice once. |
| PrinterStatus.FirstOfEachIsComplete | internal/printer/qlbackend/status.go:123-130 | No advice that a flag calls for is dropped, and none is made up. |
| PrinterStatus.FirstOfEachIsDistinct | internal/printer/qlbackend/status.go:123-130 | No advice is given twice. |
| PrinterStatus.RaisedIff | internal/printer/qlbackend/status.go:131-140 | A byte raises a problem exactly when a flag of its table is set. |
| PrinterStatus.ProblemsIff | internal/printer/qlbackend/status.go:88-93 | There are problems exactly when a reported bit is set; printer in use is none. |
| PrinterStatus.ProblemsByBits | internal/printer/qlbackend/status.go:103-142 | Each problem by its bit: which bit of which error byte gives which advice and which reason; not feeding is said once, as the first byte has it. |
| PrinterStatus.CleanIff | internal/printer/qlbackend/status.go:87-142 | There are no problems exactly if none of bits 0, 1, 2 and 7 of the first byte is set, and none but bit 5 of the second. |
| PrinterStatus.CleanButRollIff | internal/printer/qlbackend/send.go:127-135 | There are none but about the roll exactly if the same holds and bit 0 of the second byte is left out of account. |
| PrinterStatus.FlagsByBits | internal/printer/qlbackend/status.go:152-164 | Busy is bit 4 of the first error byte, a red/black roll the high bit of the text colour, a reply type 00 or 02. |
| PrinterStatus.MediaMismatchIff | internal/printer/qlbackend/status.go:181-203 | The roll is a wrong one exactly if the job names its roll, the loaded width is not 0, and the widths differ or the kinds are not both continuous and not both die-cut. |
| Frames.FindMark | internal/printer/qlbackend/device.go:103 | The first place where 0x80 0x20 stands, or -1. |
| Frames.ScanAppend | internal/printer/qlbackend/device.go:82-84 | Scanning what was kept together with what comes next finds what one scan of everything finds. |
| Frames.TakeFrames | internal/printer/qlbackend/device.go:102-122 | The inner loop takes the frames a scan of the buffer finds, and keeps what the scan leaves. |
| Frames.ReadFrames | internal/printer/qlbackend/device.go:90-128 | However the stream is cut into reads, empty ones included, the frames are those of one scan of it; under 32 bytes are kept; only a real error ends the loop. |
| Frames.RecoversFromNoise | internal/printer/qlbackend/device.go:82-84 | Frames between junk without an adjacent 0x80 0x20 are all recovered, in order. |
| Frames.DeliveredFields | internal/printer/qlbackend/status.go:55-72 | Of frames between such junk, each status delivered has its fields from bytes 8, 9, 10, 11, 17, 18, 19, 22 and 25 of its frame. |
| FrameBytes.FrameWhileWaiting | internal/printer/qlbackend/send.go:186-222 | What a frame does to a run with labels outstanding, by its bytes: 01 is a label, 05 moves the timer for 03 and 04, 02 and error bits stop the job, 04 ends it, and any other frame does nothing. |
| FrameBytes.FrameIsCounted | internal/printer/qlbackend/send.go:186-222 | What the laws count as completions and as cooling notifications are these frames. |
| FrameBytes.FrameWhileAsking | internal/printer/qlbackend/send.go:383-430 | What a frame does before the job: only 00 and 02 are replies; a busy one, bit 4 of byte 8, is asked again; any other refuses the job exactly for an error bit that counts or for a roll of another width or kind. |
| FrameBytes.FrameWhileListening | internal/printer/qlbackend/send.go:320-351 | After an inquiry 01 is a late label, 00 and 02 answer it, and nothing else counts. |
| FrameBytes.FrameWhileSettling | internal/printer/qlbackend/send.go:250-272 | The printer is receiving again exactly with 06 in byte 18 and 00 in byte 19. |
| Frames.EveryStreamIsWoven | internal/printer/qlbackend/device.go:82-84 | Every stream is such junk and frames, and the frames found are those. |
| Sending.Port.Select | internal/printer/qlbackend/send.go:185-249 | Of the events that are due any may be chosen; time does not go back, and a timer fires when due or later. |
| Sending.Port.Write | internal/printer/qlbackend/send.go:439-445 | A write is taken or not, and is in the log either way. |
| Sending.Sender.DrainFor | internal/printer/qlbackend/send.go:361-381 | Reads on until the printer is quiet, the time is up, or the device is gone; follows the machine. |
| Sending.Sender.AwaitReply | internal/printer/qlbackend/send.go:404-422 | Waits for a reply or "error occurred" under one timer, past all other frames; follows the machine. |
| Sending.Sender.CheckFirst | internal/printer/qlbackend/send.go:383-402 | Reset and status request, repeated while the printer is busy and retries are left; ends where the machine does. |
| Sending.Sender.WriteJob | internal/printer/qlbackend/send.go:424-437 | The chunks go out in order until one is not taken or the job is canceled before one. |
| Sending.Sender.ProbePrinter | internal/printer/qlbackend/send.go:320-351 | Asks the printer and counts the completions that come before its answer; follows the machine. |
| Sending.Sender.FailMidJob | internal/printer/qlbackend/send.go:289-302 | Reset, drain, inquiry, then the failure, with one more problem if the printer stays quiet. |
| Sending.Sender.Cancel | internal/printer/qlbackend/send.go:447-455 | A canceled job ends with one reset. |
| Sending.Sender.Settle | internal/printer/qlbackend/send.go:252-281 | Reads the last notifications for a time, then reports the job as printed and clears the reasons. |
| Sending.Sender.OnOverdue | internal/printer/qlbackend/send.go:223-246 | What a timer that runs out leads to: unconfirmed, an inquiry, late completions, or failure. |
| Sending.Sender.OnFrame | internal/printer/qlbackend/send.go:186-222 | A frame that ends the job ends it as the machine says. |
| Sending.Sender.TakeFrame | internal/printer/qlbackend/send.go:186-222 | A frame completes a label, re-arms the timer, ends the job or means nothing, as the machine says. |
| Sending.Sender.AwaitTurn | internal/printer/qlbackend/send.go:184-250 | One turn of the wait: one select and what follows from it; a re-armed timer forgets its old deadline. |
| Sending.Sender.WaitForLabels | internal/printer/qlbackend/send.go:181-250 | The wait goes on until every label is reported, or the job has ended some other way. |
| Sending.Sender.CheckReply | internal/printer/qlbackend/send.go:127-148 | The reply before sending decides: refused with which problems, or what is sent. |
| Sending.Sender.ChooseLoad | internal/printer/qlbackend/send.go:141-148 | What is sent: the data, or the data in two colours to a red/black roll where it can be rewritten. |
| Sending.Sender.Send | internal/printer/qlbackend/send.go:103-281 | What passed between the backend and the world is a run of the machine. It has finished with the result returned, or goes on for as many events as the world grants. |
| SendLaws.TraceOfRun | internal/printer/qlbackend/send.go:103-281 | At every point of every run the writes so far have the protocol's shape. |
| SendLaws.PiecesArePrefix | internal/printer/qlbackend/send.go:424-437 | The pieces written are the bytes of the stream from the first on, in order, without gap or overlap. |
| SendLaws.LoadOfRun | internal/printer/qlbackend/send.go:141-148 | Nothing is sent but the data, or the data in two colours where that can be made. |
| SendLaws.WriteGrammar | internal/printer/qlbackend/send.go:103-281 | The writes of every ended run: reset and request; at most BusyRetries requests; nothing or a prefix of one permitted stream; at most one inquiry and one reset, the reset exactly if the job was canceled or failed after sending began, never if it printed or is unconfirmed. That a refused job has no byte sent is RefusedIff. |
| SendVerdicts.TallyOfRun | internal/printer/qlbackend/send.go:181-250 | The counters of a run never exceed the completion frames, nor the frames, read since the job was out. |
| SendVerdicts.MarkOfRun | internal/printer/qlbackend/send.go:173-184 | What counts as the moment the job was out is the entry between sending and waiting, and every run that waits, or ends as printed or unconfirmed, has had it. |
| SendVerdicts.VerdictIsSound | internal/printer/qlbackend/send.go:149-281 | Printed exactly when all labels of a job that has any were reported since the job was out, by as many frames at least; Unconfirmed only with no frame at all since then and the last request before it unanswered. |
| SendVerdicts.ObjectionsIff | internal/printer/qlbackend/send.go:127-140 | Something is held against a job exactly for a reported problem, other than about a roll the job does not name, or for the wrong roll; and the same in the bits of the error bytes and the numbers of the two rolls. |
| SendVerdicts.ReasonsNamed | internal/printer/qlbackend/send.go:460-466 | The reasons of a failure are exactly those of its problems, each once. |
| PrinterStatus.ProblemsClearable | internal/printer/qlbackend/status.go:103-118 | The two tables of error bits name no reason that is not among those cleared. |
| PrinterStatus.ReasonsAreThese | internal/printer/qlbackend/send.go:42-44 | The reasons cleared after a printed job are exactly the reasons that some status reports. |
| SendVerdicts.ToldOfRun | internal/printer/qlbackend/send.go:278-281 | CUPS is told of a failed job its reasons, of a printed one the all-clear, and of others nothing. |
| SendVerdicts.ReasonsAreKnown | internal/printer/qlbackend/send.go:42-44 | In every run, every reason in the result, a string from a table or a literal, is one of the list that a later success clears. |
| SendVerdicts.JobReasons | internal/printer/qlbackend/send.go:457-470 | A printed job takes the listed reasons off those set, a failed one adds its own, others change none. |
| SendVerdicts.ReasonsAreOfRecentFailures | internal/printer/qlbackend/send.go:42-44 | Over any sequence of jobs, those among them that failed in the backend before anything was sent (internal/printer/qlbackend/main.go:97-128), the reasons set stay within the list, and are exactly those of the failures since the last printed job: after a printed job none remains. |
| SendRecords.TakenOfRun | internal/printer/qlbackend/send.go:424-445 | As long as a run goes on towards a verdict every write was taken; when it has stopped, all but the last. |
| SendRecords.WireIsWrites | internal/printer/qlbackend/send.go:439-445 | What has reached the printer is all that was written if all was taken, and a front of it if only the last write was refused, whatever part of that arrived. |
| SendRecords.ResetOfRun | internal/printer/qlbackend/send.go:295-302 | A run that reset the printer did so in its course, and wrote nothing after that but an inquiry. |
| SendRecords.RefusedIff | internal/printer/qlbackend/send.go:127-140 | Of every ended run with a deciding reply: it writes the opening and the requests and nothing else, no byte of the job and no reset, if and only if the reply has an error bit set that counts for the job, or the job names its roll and a roll of known width is loaded whose width differs, or whose kind; the job has then failed for exactly those reasons. |
| SendRecords.RightRollIsTaken | internal/printer/qlbackend/send.go:137-139 | A clean reply with the width and the kind of roll that the job names never refuses it. |
| SendRecords.LoadIff | internal/printer/qlbackend/send.go:140-148 | Of every ended run that was not refused: what is sent is the job in two colours exactly if the high bit of the text colour is set, the job is in one colour and all its commands can be converted; else it is the data as it is. |
| SendAnswers.AnswersAreReplies | internal/printer/qlbackend/send.go:404-418 | The replies counted over the log are those the run took for answers. |
| SendAnswers.BusyThenSilent | internal/printer/qlbackend/send.go:22-24 | For every job with a label and every configuration with a retry, a run that ends unconfirmed although the printer answered once. |
| SendAnswers.SilentFromTheStartIff | internal/printer/qlbackend/send.go:22-24 | For a job with a label to print: the printer of every unconfirmed run has answered nothing at all if and only if busy printers are not asked again. |
| SendTimes.TimesOfRun | internal/printer/qlbackend/send.go:175-250 | At every point of every prompt run its times are within what was counted. |
| SendTimes.WaitIsBounded | internal/printer/qlbackend/send.go:175-250 | Every turn of the wait is over within (pages + f) per-label times and c cooling times, for f ends and c starts of cooling. |
| SendTimes.CoolingOfRun | internal/printer/qlbackend/send.go:205-215 | While labels are outstanding, the counters are those of the cooling notifications in the log since the job was out. |
| SendTimes.WaitIsBoundedByFrames | internal/printer/qlbackend/send.go:175-250 | The same bound, from the entry with which the job was out, with the cooling notifications counted over the log. |
| SendTimes.RunIsBounded | internal/printer/qlbackend/send.go:103-281 | No ended run took longer than its status requests, writes, labels and cooling allow. |
| SendTimes.ProductionRunIsBounded | internal/printer/qlbackend/send.go:76-85 | The same in the times of production, in milliseconds, with no more than five repeated requests. |
| SendTimes.CapBindsFromFive | internal/printer/raw.go:136-162 | The hub waits 44 s and five more for every further copy; the cap of 60 s binds from five copies on; without the backend it waits 12 s. |
| SendTimes.VerdictIsInTime | internal/printer/raw.go:140-162 | Without busy replies or cooling, with the writes and labels at the pace the hub counts on, the verdict, printed or failed, counted from the start of Send, is in at least a second sooner than the hub stops waiting, counted from submission, if the job has up to four labels or up to three came out. |
| LateVerdicts.LateVerdict | internal/printer/raw.go:136-162 | Of five labels or more, with any number from four out: such a run whose verdict comes after the hub has stopped waiting. |
| LateVerdicts.InTimeIff | internal/printer/raw.go:136-162 | So for any job and number of its labels, the verdict on all such runs with that many out comes in time if and only if the job has up to four or that number is up to three. |
| HubWait.HubHearsInTime | internal/printer/raw.go:140-162 | If what comes before and after Send takes that second at most, the hub's wait, from submission, finds such a job gone, printed or failed. |
| SendTimes.MutedRun | internal/printer/raw.go:140-162 | There are such runs: a printer that takes one label and says nothing is given up on after 22.15 s. |
| Delivery.PermittedPrintsTheJob | internal/printer/qlbackend/send.go:141-148 | Any stream that may be sent for an accepted job is accepted and prints the same labels. |
| Delivery.SentJobIsTheJob | internal/printer/qlbackend/send.go:157-173 | When a run ends as printed or unconfirmed every write was taken, and the printer has received the opening, the requests, the whole of a stream with the labels of the job, and an inquiry at most; all of it is read, and prints those labels. |
| Delivery.ImagesReachThePrinter | internal/printer/qlraster/qlraster.go:125-144 | When the run of an encoded job ends so, what has reached the printer prints a label for every image, with a black dot exactly at the mirrored place of every inked pixel. |
| Delivery.OpeningIsRead | internal/printer/qlbackend/send.go:383-402 | The writes before the job are read to the end, and draw nothing. |
| Delivery.StoppedJobIsCleared | internal/printer/qlbackend/send.go:157-165 | Every run of an accepted job that is canceled, or fails after sending began, comes to a reset, with nothing but an inquiry written after it. From there to the end of the run no label is out but the first of the stream, whatever part of refused writes has arrived. All of the reset brings command reading back, with no part of a label held, if and only if the printer stood where that is recoverable, and a label that is held is dropped in that case only; a reset that was taken has arrived in full. In a job without compressed lines the printer stands there unless it stands in an opcode. |
| Delivery.ResetMayBeRefused | internal/printer/qlbackend/send.go:447-451 | Every run about to reset after a cancel may end so with the reset refused. |
| Delivery.LeftBehind | internal/printer/qlbackend/send.go:157-165 | Such a run, after which the printer holds a line of a label. |
| Delivery.HeldThroughReset | internal/printer/qlbackend/send.go:157-165 | A canceled run of an accepted job with every write taken, the reset included, and stopped outside an opcode, after which the printer holds a line of a label all the same. |
| PrintQueue.FindJob | internal/printer/brother.go:884-891 | Finds the first job of an id, exactly if there is one. |
| QueueWait.WaitForQueueJob | internal/printer/queue_wait.go:13-34 | Every wait reads, and sleeps while the job is listed or reading fails and time remains; what is returned is the last reading. |
| QueueWait.NeverSleepsPastDeadline | internal/printer/queue_wait.go:23-33 | No sleep is asked for that would end after the deadline. |
| QueueWait.ReadsAreSpaced | internal/printer/queue_wait.go:22-33 | Between a reading and the next lie 250 ms, or 2 s if it failed, unless the deadline comes first: just that is slept. |
| QueueWait.FirstGoneEnds | internal/printer/queue_wait.go:15-26 | A reading ends the wait exactly if it succeeds without the job or the time is up: a failed one never does before the deadline. |
| QueueWait.ReturnsLastReadIff | internal/printer/queue_wait.go:10-11 | What is returned is the last queue read successfully if and only if the last reading did not fail. A caller gets a failed reading instead of such a queue exactly if the last reading fails after one that did not; that is at the deadline, and the queue lists the job. |
| QueueWait.LastReadingFails | internal/printer/queue_wait.go:10-11 | A wait that has read the queue and does not return it. |
| QueueWait.IntervalsGoBy | internal/printer/queue_wait.go:27-32 | Every reading but the last is followed by a full interval, or the wait is at its end. |
| QueueWait.ReadsAreFew | internal/printer/queue_wait.go:5-8 | The readings are at most one more than the intervals begun, both in the time taken and in the time allowed: the wait ends, however the clock runs. |
| QueueWait.StillListed | internal/printer/queue_wait.go:27-32 | A wait that has not noticed anything is less than 250 ms past the time the job left. |
| QueueWait.NoticedInTime | internal/printer/queue_wait.go:10-12 | If reading is instant and does not fail, a job that leaves by the deadline is found gone, less than 250 ms (and any lateness of a sleep) after it left. |
| JobLedger.Hub.AnnotateJobAges | internal/printer/brother.go:295-325 | Every job gets its age, the snapshot the greatest of them; the ledger becomes that of the history with this look. |
| JobLedger.Hub.AgeJobs | internal/printer/brother.go:305-318 | The loop notes ids not noted yet, and computes the ages and their maximum. |
| JobLedger.SecondsAre | internal/printer/brother.go:313 | An age is the whole seconds in so many nanoseconds, rounded toward zero. |
| JobLedger.Hub.ForgetGone | internal/printer/brother.go:319-323 | Exactly the ids that are not live are dropped. |
| JobLedger.LedgerIsHistory | internal/printer/brother.go:92-96 | Over any history the ledger holds exactly the jobs of the last look, each at the first look of its present unbroken stay. |
| JobLedger.StayBegan | internal/printer/brother.go:92-96 | Every job listed has a stay that began. |
| Diagnosing.AgeIsStay | internal/printer/brother.go:69-74 | A job's age is the whole seconds of its present stay. |
| Diagnosing.OldIffStuck | internal/printer/brother.go:58-61 | The greatest age reaches 90 s exactly if some job has been there at every look for 90 s. |
| Diagnosing.StalledIff | internal/printer/diagnosis.go:84-106 | Behind a printer that can be reached, jobs are called stalled exactly if the queue says so or a job is stuck; only then is clearing the queue advised. |
| Diagnosing.DiagnosisIff | internal/printer/diagnosis.go:56-113 | Each diagnosis exactly: missing without a name, unreachable with a name and no way to the printer, ok with no job listed, stalled as above, a backlog with jobs of which none is stuck; printing is blocked by the first two and by stalled jobs. |
| Diagnosing.StuckUntilItLeaves | internal/printer/diagnosis.go:28-31 | A stuck job stays so at every later look that lists it. |
| Diagnosing.StalledUntilItLeaves | internal/printer/diagnosis.go:84-106 | A job present for 90 s behind a ready backend is diagnosed as stalled, at every look until it leaves. |
| LineBreaking.Tokenize | internal/printer/label_processed.go:317-330 | The tokens are the text cut wherever a line may be broken. |
| LineBreaking.MayBreakIff | internal/printer/label_processed.go:301-330 | Between which characters a line may be broken, by their code points: not after eight opening brackets, not before 45 closing ones, marks and small kana, and not within a run of ASCII. |
| LineBreaking.FitsIff | internal/printer/label_processed.go:331-338 | A text fits exactly if its advances, added up, are no more than 64 for each dot of the width. |
| LineBreaking.TokensSegment | internal/printer/label_processed.go:299-307 | They join to the text, and are cut where neither character is misplaced and no run of letters or digits is cut, and nowhere else. |
| LineBreaking.WrapTextWithFace | internal/printer/label.go:1246-1266 | The scan computes the text chopped into lines, each as long as fits. |
| LineBreaking.ChopIsFaithful | internal/printer/label.go:1246-1266 | The lines are the text, none is empty, and each fits or is one character. |
| LineBreaking.FoldLine | internal/printer/label_processed.go:341-349 | The splitting loop ends, and cuts a line as one chopping of it does. |
| LineBreaking.WrapJapanese | internal/printer/label_processed.go:308-348 | The loop computes the greedy filling of the tokens. |
| WrapLaws.WrappedIsFaithful | internal/printer/label_processed.go:304-308 | For every text and width only spaces are dropped, and every line fits or is one character. |
| WrapLaws.LinesAdvance | internal/printer/label_processed.go:331-347 | Every line of every text is one character, or its advances are no more than 64 for each dot of the width. |
| WrapLaws.WrappedIsLayout | internal/printer/label_processed.go:298-307 | Space-free text whose tokens fit is broken only where it may be: no forbidden character starts or ends a line, no run is cut, every line fits. |
| WrapLaws.LinesAreBrokenRight | internal/printer/label_processed.go:298-303 | No line of such a text but the first starts with one of the 45 characters, none but the last ends with one of the eight brackets, and no run of ASCII is cut. |
| WrapLaws.WrappedIsShortest | internal/printer/label_processed.go:308-348 | Of all ways to break it so, none has fewer lines: greedy is optimal. |
| FitText.WrapParagraphs | internal/printer/label_processed.go:287-290 | The paragraphs are wrapped one after the other. |
| FitText.FitWrapped | internal/printer/label_processed.go:282-298 | The size is the largest in quarter points at which the wrapped text fits, or 4 pt or less where none does; the lines are all of the text at that size. |
| FitText.LineHeightIs | internal/printer/label.go:779-783 | The height of a line is 1.1 times the size at 300 dpi, in whole dots, rounded down. |
| FitText.FitUnwrapped | internal/printer/label_processed.go:263-280 | The size is the largest down to 6.5 pt at which every paragraph fits on a line, 0 exactly if there is none. |
| FitText.FittingIsOneLine | internal/printer/label_processed.go:308-348 | Text that fits is not wrapped. |
| FitText.WrappedIsNoSmaller | internal/printer/label_processed.go:239-249 | What fits unwrapped at a size is never set smaller when wrapping is allowed. |
| FitText.FitInFrame | internal/printer/label_processed.go:225-249 | A caption stays unwrapped at the largest size if it can, and is else wrapped at the largest size; other text is wrapped at the largest size, or unwrapped within 15 percent of that in a frame at most two lines high; it fits unless 4 pt is too large. |
| FitText.ParagraphsAre | internal/printer/label_processed.go:229-235 | A paragraph is a part of the trimmed text without the spaces, tabs and returns at its end. |
| FitText.TrimSpaceIs | internal/printer/label.go:787 | Trimming takes white space off the two ends, by code point, and leaves none there. |
| FitText.WrapAllIsFaithful | internal/printer/label_processed.go:282-283 | At whatever size, all of the text is there. |
| FitText.WrapText | internal/printer/label.go:786-822 | The lines are the trimmed text's parts in pieces of the estimated number of characters. |
| FitText.MaxCharsIs | internal/printer/label.go:795-802 | As many characters go on a line as fit at 0.55 em each, and one at the least. |
| FitText.ShortTextIsOneLine | internal/printer/label.go:804-822 | A text without line breaks that has no more characters than fit is one line. |
| FitText.WrapPart | internal/printer/label.go:806-820 | One part in pieces, the last shorter; an empty part is an empty line. |
| FitText.PiecesKeep | internal/printer/label.go:811-818 | The pieces are the part, none longer than allowed. |
| FitText.ClampLines | internal/printer/label.go:824-840 | Too many lines are cut to maxLines: all but the last as they were, the last with as much as leaves room for the mark. |
| FitText.MaxCharsCutIs | internal/printer/label.go:842-855 | The same number for a line that is cut, and one without a width or a size. |
| FitText.FitLines | internal/printer/label.go:857-879 | The size is the largest on the half-point grid that needs no more than maxLines, else the minimum; the lines are all of them exactly if no more than maxLines at that size, and else clamped. |
| FitText.FitAllLines | internal/printer/label.go:881-891 | The lines are exactly those of the whole text at that size. |
| FitText.TextLinesKeepAll | internal/printer/label.go:881-884 | They concatenate to the trimmed text without its line breaks, and none has more characters than the width allows. |
| FitText.SplitKeeps | internal/printer/label.go:804 | Splitting at line breaks drops only the line breaks. |
| FitText.SplitIff | internal/printer/label.go:804 | The parts of a text are the only ones that hold no line break and give the text when joined by line breaks. |
| Bilingual.TokenizeBilingual | internal/printer/label_en_traceable.go:180-233 | The buffers and closures compute the tokens that one character at a time extends. |
| Bilingual.KindIff | internal/printer/label_en_traceable.go:101-107 | Space, slash, wide and word characters by code point: wide is all outside ASCII. |
| Bilingual.EstimateIs | internal/printer/label_en_traceable.go:97-115 | The estimated width of a text is 0.55 em for each character and 0.40 more for each outside ASCII. |
| Bilingual.BitsParted | internal/printer/label_en_traceable.go:169-176 | The tokens concatenate to the text, a space is one by itself, and a slash leads one only at the start or after a space. |
| Bilingual.BitsIff | internal/printer/label_en_traceable.go:169-176 | There is only one cutting into tokens of one kind that could not be longer, and it is the one made. |
| Bilingual.CutsOfBits | internal/printer/label_en_traceable.go:169-176 | A text is cut exactly where the next character does not go on with the token so far. |
| Bilingual.CutsIff | internal/printer/label_en_traceable.go:117-120 | At any place of any text there is a break exactly at a space, before or after, or in front of a character other than a slash that is of another kind than the last before the slashes. |
| Bilingual.SlashBreaksIff | internal/printer/label_en_traceable.go:117-120 | After any slash of any text there is a break exactly if a space follows, or a character other than a slash and of another kind than the last one before the slashes. |
| Bilingual.NoCutWithin | internal/printer/label_en_traceable.go:77-82 | There is none between two wide characters, nor within a word. |
| Bilingual.SlashInThree | internal/printer/label_en_traceable.go:117-120 | So in "a/b" there is none, and in "a/日" there is one. |
| Bilingual.WrapParagraph | internal/printer/label_en_traceable.go:130-162 | The packing loop computes the lines that each take all the tokens they can. |
| Bilingual.WrapBilingual | internal/printer/label_en_traceable.go:124-167 | The lines of all paragraphs, one at least; a frame without width gives the text as it is. |
| Bilingual.FitLinesBilingual | internal/printer/label_en_traceable.go:83-95 | The lines of the trimmed text, clamped; they are all of its lines exactly if no more than maxLines, or none are asked for. |
| BilingualLaws.RowsKeep | internal/printer/label_en_traceable.go:117-119 | Only spaces are dropped. |
| BilingualLaws.RowsFit | internal/printer/label_en_traceable.go:118-121 | Every line fits or is one token. |
| BilingualLaws.SlashNeverLeads | internal/printer/label_en_traceable.go:171-173 | No line starts with a slash, unless the paragraph does or has one after a space. |
| BilingualLaws.LaidIsFaithful | internal/printer/label_en_traceable.go:117-124 | For every text, size and width: but for spaces and line breaks the lines are the text, and each fits or is a token. |
| BilingualLaws.LaidLinesFit | internal/printer/label_en_traceable.go:117-124 | In numbers: every line is a token, or is estimated at no more than the width. |
| BilingualLaws.RowsAreFewest | internal/printer/label_en_traceable.go:117-119 | However the tokens can be set on lines that fit, it takes at least as many lines. |
| BilingualLaws.RowsAreASetting | internal/printer/label_en_traceable.go:117-119 | If every token fits, the lines given are such a setting. |
| LabelTextLaws.FrameTextIsWhole | internal/printer/label_processed.go:282-283 | Unwrapped, or wrapped at any size, every character that leaves ink is there, in order. |
| LabelTextLaws.TableTextIsWhole | internal/printer/label.go:881-884 | So it is in a table at any size and width. |
| LabelTextLaws.BilingualTextIsWhole | internal/printer/label_en_traceable.go:124-167 | So it is in bilingual text, as it is wrapped at any size and width. |
| LabelTextLaws.BilingualCellIsWhole | internal/printer/label_en_traceable.go:83-95 | So it is in a bilingual cell whose lines are no more than allowed. |
| LabelTextLaws.ThirdLineIsCut | internal/printer/label_en_traceable.go:83-95 | In a cell of two lines a third one is lost, at whatever size and width. |

## Left out

- Device, file and process input and output: opening the printer and its retries, result files, the system journal, and the `lp` and `lpstat` calls with the parsers of their output. What they return is a parameter.
- `confirmWithPrinter`, `verifySubmittedJob` and the other mappings of an outcome to an answer for the tablet: one branch an outcome.
- The wording of messages. Two messages are told apart where the code does so (each advice of a status is given once), by a name for the advice; error texts keep their kind and offset.
- That a run of `Send` ends: a printer may announce cooling without end, so runs are finite logs: the port grants any number of events, and `Send` has nothing to say only when it has used them all. The bounds on time are in the number of such announcements.
- The number of frames the channel of `readFrames` holds, its pauses, and when the reader runs: frames arrive at the protocol at any time or never.
- Goroutine scheduling and the mutexes around the printer and the ledger: each modelled method runs by itself.
- Wrap-around of page and completion counts: they are unbounded here, and a job is limited to 64 MiB.
- The model Sender.Send gets a port that has logged nothing; reuse of one device for two jobs is two ports.
- Images as the code reads them through an interface: an image here is rows of colours, already converted to 8-bit red, green and blue. A roll whose printable dots do not lie on the head makes the code fail outside its checks, and is a precondition here.
- Kerning, hinting and other ways in which a text is not as wide as the sum of its glyphs, and the rounding of floating point sizes: half and quarter points and the estimates of width are exact here.
- Kinsoku for text with spaces: trimming at a break can put a forbidden character at the start of a line, so the layout laws are about text without spaces.
- Invalid UTF-8 in texts: text is a sequence of Unicode scalar values.
- `fitLinesWordAware`, which fits words as `fitLines` fits characters, and clamps as it does.
- SendTimes.VerdictIsInTime: counts from the start of `Send`. The hub's wait runs from submission, before CUPS starts the backend and the device is opened; HubWait.HubHearsInTime allows a second for that and for the exit, and for no more.
- Where text, QR codes and frames are drawn on the label, fonts and image formats.
- HTTP and WebSocket handlers, settings, logging, the scale and the scanner.
- Diagnosing.AgeIsStay: takes the seconds of a duration as exact; the code goes through floating point.
- QueueWait.NoticedInTime: takes reading the queue as instant, as the source's own clock injection does; with slow ones FirstGoneEnds still says that the first reading without the job ends the wait.
