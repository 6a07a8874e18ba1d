# Vakya: a verified model of its HTTP/1 engine

Vakya drives HTTP/1 client and server connections over transports that the application supplies.
This project models the parts of the engine where a mistake costs a byte, a wakeup or a connection,
and proves what they promise for every input, every run and every interleaving.

**Framing.** `ChunkGrammar` says what a received body means when it is read in one piece. The
incremental decoder (`Decoder`) is proved to keep that meaning at every call and for every input that
may still arrive, so `DecodeRuns` gets independence from fragmentation and `ChunkMessages` and `ChunkExtensions` get the
exact grammar of accepted chunked bodies. `Encoder`, `RoundTrip` and `EndToEnd` prove that what one
side encodes is what the other side reads, down to the byte where the message ends. `LengthFields` and
`Framing` give the exact meaning of Content-Length and Transfer-Encoding, say exactly which heads can be
planned and which are valid, and prove that the planner and the validators always choose the same framing. `HeadScan` proves the resumable search for the end
of a head equal to one scan of the whole input.

**Coordination.** `Rendezvous`, `Admission`, `Completion`, `Informational` and `Upgrade` model the
shared cells as classes whose methods are proved equal to functions on values; the run modules then take
every sequence of polls, drops and calls that ownership allows, and prove conservation, exclusion,
at-most-once and exactly-once results, that no arm declared unreachable is entered, that no wakeup
is lost, and which answer each call gives in every reachable state. Wakers (`Tasks`) are numbers with a flag that says whether they have fired since the last poll. Rust's
borrow rules appear as the conditions under which an event is enabled.

**Drivers.** `RecvBuffer`, `Receive`, `ReceiveRuns`, `Incoming`, `Exchange`, `ClientLoop`, `ClientRuns`
and `Send` model the loops: reading heads and bodies through one buffer by either read strategy, delivering
frames, settling exchanges, reusing the connection, publishing receipts, and writing through short
completions. A transport is adversarial but honest: it may complete short, be interrupted, fail or end,
but it neither invents nor reorders bytes; its read side keeps what it has delivered and its write
side what it has accepted. What the surroundings do comes in as a script, and a loop
whose script runs out has simply not ended yet. The receive loop is one transition function: the
method `ReceiveBody` is proved to run it with the answers of its script, and `ReceiveRuns` puts the same function next to the
rendezvous it produces into and takes every interleaving with the application.

Where `src/body/incoming.rs` says that wire bytes of a drain are bounded by the payload limit plus an
allowance, the bound proved is the saturating 64-bit sum the code computes.

## Model
| member | source | states |
|---|---|---|
| `Syntax.TrimOws` | src/proto/h1/syntax.rs:1-9 | The loop returns the trimmed slice that `Syntax.Trim` denotes. |
| `Syntax.TrimIsUnique` | src/proto/h1/syntax.rs:1-9 | Any way of writing the input as blanks, text without blanks at its ends, blanks gives the trimmed text. |
| `Syntax.QuotedStringLen` | src/proto/h1/syntax.rs:19-36 | The scan with its escape flag finds the end of the quoted string, and fails when there is none. |
| `Radix.CheckedFold` | src/proto/h1/decode.rs:412-425 | The checked fold succeeds exactly when the value is below 2^64, and then returns that value; `HexTextsOf` says which texts have which value. |
| `Radix.DigitIsPlace` | src/proto/h1/decode.rs:493-500 | A byte is a hex digit exactly when it is, up to case, one of the sixteen, and its value is its place among them. |
| `Radix.CaseIsIgnored` | src/proto/h1/decode.rs:412-425 | Texts equal up to case have the same value. |
| `Radix.HexTextsOf` | src/proto/h1/decode.rs:412-425 | A text of hex digits has the value n exactly when it is the minimal hexadecimal of n in any case, after any zeros. |
| `Radix.Hex` | src/proto/h1/encode.rs:622-636 | A positive length prints as hexadecimal digits without a leading zero. |
| `Radix.HexReadsBack` | src/proto/h1/encode.rs:622-636 | Printed hexadecimal is read back as the same number. |
| `Radix.HexFits` | src/proto/h1/encode.rs:622-636 | Every 64-bit length prints in at most sixteen digits. |
| `Radix.DecimalReadsBack` | src/proto/h1/encode.rs:302-315 | A printed Content-Length is read back as the same number. |
| `Decoding.ValidateExtensions` | src/proto/h1/decode.rs:427-457 | The slice-consuming loop accepts exactly what `ExtensionsOk` does, which `ExtensionGrammar` characterizes. |
| `ChunkExtensions.ExtensionGrammar` | src/proto/h1/decode.rs:427-457 | Accepted extensions are exactly those written as semicolon, name and perhaps a token or quoted value, with optional space anywhere between. |
| `ChunkExtensions.QuotedGrammar` | src/proto/h1/syntax.rs:19-36 | The scan takes a whole text as a quoted string exactly when it is quotes around plain and escaped bytes. |
| `Decoding.ParseLine` | src/proto/h1/decode.rs:412-425 | A chunk line is accepted exactly when it is well formed, with its value as the size. |
| `RoundTrip.BareLineReads` | src/proto/h1/decode.rs:412-425 | A line without extensions and within the limits reads as n exactly when it is a text of n, in any case and after any zeros. |
| `RoundTrip.LineReads` | src/proto/h1/decode.rs:395-457 | Exactly which chunk lines read as n: a text of n, perhaps space, then extensions the grammar writes, all within the line and extension limits. |
| `Decoding.BodyDecoder.IsComplete` | src/proto/h1/decode.rs:160-169 | Complete means that every continuation is entirely unread input; not complete means that an empty rest is not a whole body, unless the body runs to end of file. |
| `Decoding.BodyDecoder.Decode` | src/proto/h1/decode.rs:171-208 | Each call keeps the meaning of the input for every later input unless end of file decides, failures stick, input is asked for only when nothing can be processed, payload ranges are real and non-empty, and premature end is reported only at end of file. |
| `Decoding.BodyDecoder.DecodeChunked` | src/proto/h1/decode.rs:210-279 | The same for the chunk state machine with its cursor. |
| `Decoding.BodyDecoder.ScanChunkLine` | src/proto/h1/decode.rs:281-313 | The resumed scan finds the first line feed with its carriage return, or where to resume, or the fault no continuation repairs. |
| `Decoding.BodyDecoder.ChargeExtensions` | src/proto/h1/decode.rs:395-409 | Extension bytes are charged when they stay within the limit, otherwise nothing changes. |
| `Decoding.BodyDecoder.DecodeTrailers` | src/proto/h1/decode.rs:315-364 | The trailer block is delimited, parsed and checked as in the one-piece meaning. |
| `Decoding.BodyDecoder.TrailerEnd` | src/proto/h1/decode.rs:366-388 | The resumed scan finds the first empty line within the limit, or the limit error. |
| `DecodeRuns.RunsReachTheMeaning` | src/proto/h1/decode.rs:171-388 | Every run that settles, however input and calls are interleaved, ends with the verdict of the whole wire. |
| `DecodeRuns.FragmentationIndependence` | src/proto/h1/decode.rs:171-388 | Two runs over one wire agree on acceptance, payload, trailers, unread suffix and charged extensions. |
| `DecodeRuns.EofMakesProgress` | src/proto/h1/decode.rs:171-208 | After end of file each call settles the run or uses up input. |
| `DecodeRuns.DecodeReads` | src/proto/h1/decode.rs:171-279 | Driving the decoder over any reads and end of file returns the meaning of the concatenated reads. |
| `ChunkMessages.WritesAreRead` | src/proto/h1/decode.rs:210-364 | Everything the chunked grammar can write within the limits is read back: data in order, then the trailer block. |
| `ChunkMessages.ReadsWereWritten` | src/proto/h1/decode.rs:210-364 | Every accepted wire takes apart into admitted chunks, a last-chunk line and a trailer block. |
| `ChunkMessages.TrailersRead` | src/proto/h1/decode.rs:315-388 | Trailers are accepted exactly when the first empty line ends a block within the limit that parses completely and names no forbidden field. |
| `ChunkMessages.ExtensionBudget` | src/proto/h1/decode.rs:395-409 | The extension total of an accepted body is the sum over its chunk lines and stays within the limit. |
| `Encoding.ChunkPrefix` | src/proto/h1/encode.rs:622-636 | Filling the buffer from the last digit gives minimal hexadecimal and CRLF, and fits the buffer. |
| `Encoding.BoundedWriter.Push` | src/proto/h1/encode.rs:418-432 | A push succeeds exactly when it fits, and otherwise leaves the bytes alone. |
| `Encoding.BoundedWriter.PushTitleCase` | src/proto/h1/encode.rs:434-453 | The loop appends the name with the first letter and each letter after a dash in upper case. |
| `Encoding.BoundedWriter.WriteHeaders` | src/proto/h1/encode.rs:358-399 | All field lines in order, whatever their names, or failure exactly when they do not fit. |
| `Encoding.BodyEncoder.Data` | src/proto/h1/encode.rs:525-566 | Framing and new state for a data frame, including every refusal. |
| `Encoding.BodyEncoder.Trailers` | src/proto/h1/encode.rs:568-592 | The closing chunk with trailer lines, or the refusal and its sticky state. |
| `Encoding.BodyEncoder.Finish` | src/proto/h1/encode.rs:594-614 | The end of a body, refused while promised bytes are missing. |
| `RoundTrip.FramesCharge` | src/proto/h1/encode.rs:525-566 | Accepted frames never exceed the upper bound and are charged in full against both bounds. |
| `RoundTrip.FramesAccepted` | src/proto/h1/encode.rs:525-566 | Frames are accepted exactly while each has a 64-bit length and together they stay within the upper bound; the lower bound is met exactly when they reach it. |
| `RoundTrip.EncodableBodies` | src/proto/h1/encode.rs:498-614 | For every framing, exactly which bodies are accepted from their promises and frames: a fixed body of exactly its length without trailers, a chunked one within its bounds with trailers only if promised, allowed and small enough, one until close within its bounds without trailers. |
| `RoundTrip.LengthsAreEnforced` | src/proto/h1/encode.rs:525-614 | A payload shorter or longer than promised is refused as a length mismatch. |
| `RoundTrip.FixedRoundTrip` | src/proto/h1/encode.rs:498-614 | A fixed body is exactly its declared length and is read back with nothing of what follows taken. |
| `RoundTrip.CloseRoundTrip` | src/proto/h1/encode.rs:498-614 | A body that ends with the connection is read back whole. |
| `RoundTrip.ChunkedRoundTrip` | src/proto/h1/encode.rs:498-636 | A chunked body, empty frames included, is read back with its trailers and ends exactly where it was ended. |
| `RoundTrip.AnyFrameFitsAChunkLine` | src/proto/h1/encode.rs:622-636 | No frame the encoder accepts needs a longer chunk line than the prefix buffer holds. |
| `RoundTrip.EncodedBodiesArrive` | src/proto/h1/decode.rs:171-388 | Any settled run over an encoded body accepts it, with the sent payload and trailers, and keeps back exactly what follows. |
| `EndToEnd.EncodedMeaning` | src/proto/h1/encode.rs:498-636 | In every framing mode, an encoded body followed by other bytes means its own frames and no more. |
| `EndToEnd.SentIsReceived` | src/proto/h1/body_io.rs:64-179 | A receive loop that completed on an encoded body handed over the sent payload and trailers and left what follows. |
| `EndToEnd.ReceivedIsPrefixOfSent` | src/proto/h1/body_io.rs:64-179 | Whatever part of an encoded body has arrived, the payload handed over is a prefix of the payload sent, and trailers handed over are those sent after all of it. |
| `EndToEnd.RefusedOnlyIfCutShort` | src/proto/h1/body_io.rs:87-90 | An encoded body is refused only as cut short: end of file came before all of it had arrived. |
| `EndToEnd.Transfer` | src/proto/h1/body_io.rs:64-337 | Sending what a producer gave and receiving it at the other end, followed by other bytes: what is offered is a prefix of what was sent, a completed body is the sent body and leaves what follows, a refusal means it was cut short, and with a willing application, reads that go well and all bytes arrived, it completes. |
| `LengthFields.SplitMembers` | src/proto/h1/head/validate.rs:400-430 | The loop with quote and escape flags computes the list members, or the point of failure. |
| `LengthFields.SplitMeaning` | src/proto/h1/head/validate.rs:400-430 | Splitting succeeds exactly on comma-joined non-empty members with closed quotes, and finds those members. |
| `LengthFields.ParseContentLength` | src/proto/h1/head/validate.rs:196-224 | The loops over lines and members compute `ContentLengthOf`. |
| `LengthFields.ContentLengthMeaning` | src/proto/h1/head/validate.rs:196-224 | Absent exactly without field lines; a value exactly when every member of every line is digits of that value below 2^64. |
| `LengthFields.ParseTransferEncoding` | src/proto/h1/head/validate.rs:226-263 | The loops with their counters and flags compute `TransferEncodingOf`. |
| `LengthFields.TransferEncodingMeaning` | src/proto/h1/head/validate.rs:226-263 | Chunked exactly when there is one member in all and it is parameterless "chunked"; absent exactly without field lines. |
| `LengthFields.ValidateTransferParameters` | src/proto/h1/head/validate.rs:276-307 | The slice-consuming loop accepts exactly the parameter grammar. |
| `Framing.OutgoingHead.DeclareLength` | src/proto/h1/encode.rs:302-315 | The header edit of `SetExactLength`, with every refusal leaving the headers alone. |
| `Framing.OutgoingHead.DeclareChunked` | src/proto/h1/encode.rs:317-325 | The header edit of `SetChunked`. |
| `Framing.OutgoingHead.PlanRequestFraming` | src/proto/h1/encode.rs:217-233 | The in-place planner equals the plan on values. |
| `Framing.OutgoingHead.PlanRepresentationFraming` | src/proto/h1/encode.rs:280-300 | The same for a representation. |
| `Framing.OutgoingHead.PlanResponseFraming` | src/proto/h1/encode.rs:235-278 | The same for a response. |
| `Framing.DeclarationsSucceed` | src/proto/h1/encode.rs:302-325 | A length or chunked framing can be declared exactly when the framing fields already there say the same or are absent. |
| `Framing.RequestPlanned` | src/proto/h1/encode.rs:217-233 | Exactly which requests can be planned, and with which framing. |
| `Framing.RepresentationPlanned` | src/proto/h1/encode.rs:280-300 | The same for a representation. |
| `Framing.ResponsePlanned` | src/proto/h1/encode.rs:235-278 | The same for a response, by status, request method, version, metadata and fields. |
| `Framing.ExactLengthIsFixed` | src/proto/h1/encode.rs:302-315 | After a declared length both parsers read exactly that length, and no other field changed. |
| `Framing.ChunkedIsChunked` | src/proto/h1/encode.rs:317-325 | After declaring chunked both parsers read exactly chunked, and no other field changed. |
| `Framing.RequestFramingAgrees` | src/proto/h1/encode.rs:118-139 | For every head and metadata, a planned and validated request has the planned body mode: the mismatch guard never fires. |
| `Framing.ResponseFramingAgrees` | src/proto/h1/encode.rs:174-194 | The same for responses; a body that runs until close also forbids reuse. |
| `Framing.PlannedResponsesHaveSoundFraming` | src/proto/h1/head/validate.rs:71-126 | A planned response head cannot fail validation because of its framing fields. |
| `Framing.StrictImpliesReceived` | src/proto/h1/head/validate.rs:12-68 | Strict validation of a request implies recipient validation with the same result. |
| `Framing.ValidRequestMeaning` | src/proto/h1/head/validate.rs:23-67 | A valid request's persistence, expectation, upgrade, framing and single Host in terms of the fields received; no other field changes. |
| `Framing.ValidResponseMeaning` | src/proto/h1/head/validate.rs:71-126 | When a valid response persists, switches or tunnels, when it has no body, and which fields each framing needs and excludes. |
| `Framing.LengthRuleMeaning` | src/proto/h1/head/validate.rs:31-58 | Fixed exactly when every Content-Length member denotes that length and Transfer-Encoding is absent; chunked exactly when it is one bare chunked in HTTP/1.1 and Content-Length is absent; the default exactly when both are absent; otherwise refused. |
| `Framing.ResponseVerdict` | src/proto/h1/head/validate.rs:71-126 | Exactly which responses are valid, and with which body, persistence and upgrade, by status, request method, version and fields. |
| `Framing.BothLengthsAreAmbiguous` | src/proto/h1/head/validate.rs:96-101 | A response that has a body and carries both framing fields in good order is refused as ambiguous. |
| `Framing.RequestVerdict` | src/proto/h1/head/validate.rs:23-195 | Exactly which requests are valid, and as what, by method, target, version and fields: target form, Host, framing, connection options, expectation and upgrade. |
| `HeadScan.HeadParser.Complete` | src/proto/h1/head/scan.rs:54-83 | The resumed byte loop finds what one scan of the whole input finds. |
| `HeadScan.HeadParser.HeadLen` | src/proto/h1/head/scan.rs:108-119 | The answer equals that of a parser without memory, and the kept scan stays valid for any growth. |
| `HeadScan.HeadParser.ParseShared` | src/proto/h1/head/scan.rs:157-179 | Whatever comes of a block, the next scan starts afresh; a block over the limit is refused. |
| `HeadScan.AnswersAreFinal` | src/proto/h1/head/scan.rs:108-119 | More input never changes a found head or a limit error. |
| `HeadScan.AnswerMeaning` | src/proto/h1/head/scan.rs:54-119 | A head exactly at the first terminator within the limit; the limit error exactly when there is none and the input is longer. |
| `HeadScan.ScanPieces` | src/proto/h1/head/scan.rs:54-119 | Any pieces, asked after each, give the answer of one scan. |
| `Rendezvous.Channel.PollDemand` | src/body/pipe.rs:180-198 | New cell, wakers and answer of a demand poll; `DemandAnswers` says when each answer is given. |
| `Rendezvous.Channel.PollOffer` | src/body/pipe.rs:226-274 | New cell, wakers and answer of an offer poll, in both of its stages. |
| `Rendezvous.Channel.DropOffer` | src/body/pipe.rs:276-304 | A dropped offer withdraws its item and reopens the slot. |
| `Rendezvous.Channel.PollTake` | src/body/pipe.rs:325-372 | New cell, wakers and answer of a take poll. |
| `Rendezvous.Channel.Finish` | src/body/pipe.rs:102-132 | The producer's end, by close, failure or drop. |
| `Rendezvous.Channel.DropConsumer` | src/body/pipe.rs:151-173 | Abandonment keeps an unclaimed item for its offer. |
| `RendezvousRuns.Conservation` | src/body/pipe.rs:226-304 | In every run the items offered are exactly those taken, returned, discarded and the one under way. |
| `RendezvousRuns.OrderIsKept` | src/body/pipe.rs:325-372 | Items taken are a subsequence of the items offered. |
| `RendezvousRuns.UnreachableArms` | src/body/pipe.rs:102-372 | No unreachable arm is entered in any run. |
| `RendezvousRuns.OfferResolution` | src/body/pipe.rs:226-274 | In every run an offer is refused exactly when the consumer is gone, and returns its own item; it succeeds exactly when that item was taken, and waits otherwise. |
| `RendezvousRuns.DemandAnswers` | src/body/pipe.rs:176-402 | In every run a demand is met exactly when the consumer has asked since the last item and is not gone, is abandoned exactly when the consumer is gone, and waits otherwise; a wait for abandonment ends exactly when the consumer went before it saw the end. |
| `RendezvousRuns.TakeAnswers` | src/body/pipe.rs:325-372 | In every run a take gets the offered item that is in the cell, or how the producer ended and a clean end ever after, and waits otherwise. |
| `RendezvousRuns.FatesStay` | src/body/pipe.rs:226-372 | A settled item stays settled, and only offering adds offers. |
| `RendezvousRuns.FirstEndTellsHow` | src/body/pipe.rs:102-132 | The first terminal result is a clean end exactly for close, the error exactly for that failure, disconnection exactly for drop. |
| `RendezvousRuns.EndComesLast` | src/body/pipe.rs:325-372 | When the consumer sees the end, every item has been settled. |
| `RendezvousRuns.WakeupsAreNotLost` | src/body/pipe.rs:176-402 | A pending future has been woken, or is registered and what it waits for has not happened. |
| `RecvBuffer.Buffer.Consume` | src/io/recv.rs:99-119 | A parsed prefix leaves, in either storage form; too large a count changes nothing; the new buffer is that of `Act`, as for every operation here. |
| `RecvBuffer.Buffer.TakeSharedPrefix` | src/io/recv.rs:121-148 | The prefix is handed out and the rest stays. |
| `RecvBuffer.Buffer.TakePayload` | src/io/recv.rs:150-188 | The payload range and its framing leave together; the multiple-lease error cannot occur. |
| `RecvBuffer.Buffer.FromManaged` | src/body/incoming.rs:325-351 | A leased view claims the permit, or is refused when it is held or out of range. |
| `RecvBuffer.Buffer.ReleaseLease` | src/body/incoming.rs:292-298 | Dropping the last view frees the permit. |
| `RecvBuffer.Buffer.TakeAll` | src/io/recv.rs:190-201 | All retained bytes leave as read-ahead. |
| `RecvBuffer.Buffer.Read` | src/io/recv.rs:203-260 | A portable read appends what the transport gave, within the retained limit; it succeeds exactly when it is not cancelled, there is room, and the transport neither fails nor misreports, and each error has its own cause. |
| `RecvBuffer.Buffer.ReadManaged` | src/io/recv.rs:262-299 | A lease is taken only when nothing is retained and no view holds one, otherwise the read is portable; exactly when it succeeds. |
| `RecvBuffer.ReadOnce` | src/io/recv.rs:203-299 | One read by either strategy adds exactly the next bytes the reader delivers; none means end of file, which an uncancelled read into free space reports only where the input ends or the transport gives nothing. |
| `RecvBuffer.NewBuffer` | src/io/recv.rs:69-86 | A buffer exists exactly for ordered non-zero limits, and starts empty. |
| `RecvBuffer.OperationSplits` | src/io/recv.rs:99-299 | Each operation splits what is retained and gained into what leaves and what stays, in order. |
| `RecvBuffer.EveryHistory` | src/io/recv.rs:99-341 | From a new buffer, over every history of the operations above, each byte left once and in order or is retained, the limit holds, and managed storage excludes a held lease. |
| `Receiving.DrainPolicy.DrainBudget` | src/body/incoming.rs:41-47 | The wire budget is the saturating sum of limit and allowance. |
| `Receiving.DrainPolicy.ChargeDrain` | src/body/incoming.rs:26-38 | A charge succeeds exactly when both budgets cover it, payload is checked first, and a rejected charge changes nothing. |
| `Receiving.DrainStaysWithin` | src/body/incoming.rs:26-47 | Over every run of the loop, since the latest request for a drain the wire bytes consumed are within limit plus allowance, saturating, the payload newly decoded is within the limit, and each byte was charged once. |
| `Receiving.ChargedOnce` | src/proto/h1/body_io.rs:92-113 | Every step other than a new request charges exactly what it consumes and decodes. |
| `Receiving.RejectedChargeChangesNothing` | src/proto/h1/body_io.rs:104-113 | A rejected charge fails the loop and changes nothing else. |
| `Receiving.LoopKeeps` | src/proto/h1/body_io.rs:76-178 | Every step of the loop keeps that the frames offered begin what the wire means for every continuation, that the buffer is the unconsumed rest, and what a return means. |
| `Receiving.ReceiveBody` | src/proto/h1/body_io.rs:64-179 | The method runs that loop with the drains asked for and the answers given in its script, and takes its bytes from the reader. Frames offered begin what the wire means, whatever arrives later; completion means the whole body and the exact rest; a decoding failure means that end of file cut the body short or that no continuation is a body; it has not ended only if its script or the reader has; and a whole body that arrived is completed for a willing application. |
| `Receiving.EndsAreForced` | src/proto/h1/body_io.rs:76-178 | Over every run the loop ends as abandoned, cancelled, with a read error or with a closed handoff exactly when an answer to one of its waits said so. |
| `Receiving.WholeBodiesComplete` | src/proto/h1/body_io.rs:76-178 | With an application that takes everything and reads that go well, a loop that returns on an arrived whole body completes it. |
| `IncomingBody.Incoming.ObserveFrame` | src/body/incoming.rs:156-184 | A frame is checked against the promise and narrows it. |
| `IncomingBody.Incoming.NextFrame` | src/body/incoming.rs:191-213 | What the application gets for each answer of the rendezvous. |
| `IncomingBody.Drain` | src/body/incoming.rs:91-116 | The frames discarded are those answered; a drain ends well exactly at the answered clean end within its payload limit, and gives up at the first frame beyond it or with the failure answered. |
| `IncomingBody.FittingFramesPass` | src/body/incoming.rs:156-184 | Exactly the frames that fit the framing pass, and the promise left is exact. |
| `ReceiveRuns.CleanEndIsComplete` | src/proto/h1/body_io.rs:76-178 | Over every run of loop, decoder, rendezvous and application, the frames taken begin what the wire means and are passed on; the first terminal result is a clean end exactly when the loop completed, and then exactly the whole body was delivered in order, and for a declared length that many bytes. |
| `ReceiveRuns.RefusalsAreJustified` | src/proto/h1/body_io.rs:87-90 | In every run a body reported as malformed was cut short by end of file or could not be completed by any input, and its payload up to the fault was taken. |
| `ReceiveRuns.EveryWaitLeads` | src/proto/h1/body_io.rs:82-178 | In every run a demand goes on exactly when the application asked, an offer exactly when its frame was taken, a read exactly when it succeeded, and each ends the body as abandoned exactly when the application let go of it. |
| `ReceiveRuns.EndsHaveCauses` | src/proto/h1/body_io.rs:76-178 | In every run the loop ends as abandoned only if the application let go, as cancelled only if a wait was cancelled, with a read error only if a read failed so, over budget only if a drain was asked for, and never with a closed handoff. |
| `ReceiveRuns.DrainBounds` | src/body/incoming.rs:26-47 | The same drain bound over every run of loop, decoder, rendezvous and application, with requests at any point. |
| `ReceiveRuns.StepKeeps` | src/proto/h1/body_io.rs:76-178 | Every event of the loop is one that ownership of the producer allows, and keeps the producer in step with the loop. |
| `Exchange.ExchangePolicy.Receive` | src/proto/h1/exchange.rs:74-108 | New policy and action for a peer head, with every refusal. |
| `Exchange.ExchangePolicy.Sent` | src/proto/h1/exchange.rs:112-143 | New policy for the server's own head. |
| `Exchange.SentMeaning` | src/proto/h1/exchange.rs:112-166 | The server's head is accepted exactly when any upgrade in it answers the request's offer, only once, and then decides between handoff, reuse and close. |
| `Exchange.PartsMeaning` | src/proto/h1.rs:36-57 | The protocols compared are the pieces between commas without surrounding space. |
| `Exchange.HeadSequences` | src/proto/h1/exchange.rs:74-108 | An exchange accepts exactly at most `max` interim heads and then at most one final or agreed upgrade head. |
| `Exchange.ReuseMeaning` | src/proto/h1/exchange.rs:152-166 | Reuse exactly when one final head followed at most `max` interim heads and neither side asks to close. |
| `Exchange.ReceiveHeads` | src/proto/h1/client.rs:486-569 | Whatever pieces the reader delivers, the heads, the policy and the bytes left are those of one reading of what arrived; the outcome is exactly what that reading, the answers to the reads and the heads the application takes give: cancelled exactly when a read was or an interim head that was reached was not taken; the parser is left fresh; a protocol fault stays a fault for every continuation. |
| `Exchange.FoundHeads` | src/proto/h1/client.rs:500-569 | What was consumed is the blocks of the accepted heads back to back. |
| `Exchange.UpgradeHasNoBody` | src/proto/h1/client.rs:545-548 | Heads that end in an agreed upgrade have no body: what follows belongs to the new protocol. |
| `Exchange.SettlementMeaning` | src/proto/h1/client.rs:429-479 | Reuse or handoff exactly when both directions completed without abort and the policy allows it; a close for message policy, upload abort or body abandonment exactly when that is why; an originating failure is never hidden by a cancellation; unread input is kept. |
| `ClientLoop.ReceiveResponse` | src/proto/h1/client.rs:486-613 | Heads and body together read one response off the wire and leave the exact rest. It is cancelled exactly when a head that was reached was not taken or a wait or read was cancelled; a response that is all there, taken and met by no failing read is received whole. |
| `ClientLoop.ReceiveRest` | src/proto/h1/client.rs:588-613 | The body of a response whose final head was taken: cancelled exactly when one of its waits or reads was, and complete when it is all there and wanted. |
| `ClientLoop.SendRequest` | src/proto/h1/client.rs:269-315 | Success means that the head and the whole encoding of the body this request's producer gave were written; on every return each frame was recycled; and an upload with a calm transport, permission, working flushes and an encodable body does not fail. |
| `ClientLoop.RunExchange` | src/proto/h1/client.rs:364-426 | Reuse or handoff means that request was written whole, with its own body, and not aborted; reuse with nothing unread took exactly one response; a handoff leaves exactly what follows the upgrade head. The result is the settlement of both directions, and after a whole request and a whole response without abort it is the handoff, reuse or close that the heads call for. |
| `ClientLoop.RunLoop` | src/proto/h1/client.rs:115-196 | Every exchange starts with an empty buffer and a fresh parser; the bytes delivered are the responses and the bytes written begin with the requests of the reused exchanges back to back; a handoff passes on exactly the bytes after the upgrade head; the loop ends early only by what the last exchange settled as. |
| `ClientLoop.OneResponseHeads` | src/proto/h1/client.rs:115-196 | A reused exchange had at most `max` interim heads, one final head, and no request to close on either side. |
| `Admission.Shared.TryTake` | src/client/admission.rs:148-162 | New state and answer of a try. |
| `Admission.Shared.PollWait` | src/client/admission.rs:170-216 | New state and answer of a reservation poll. |
| `Admission.Shared.DropWait` | src/client/admission.rs:306-317 | A dropped wait gives up its place. |
| `Admission.Shared.SendJob` | src/client/admission.rs:335-370 | The job is queued and the driver woken, or the job comes back. |
| `Admission.Shared.ReleaseOwner` | src/client/admission.rs:520-540 | The waiter is woken and keeps its priority. |
| `Admission.Shared.NextJob` | src/client/admission.rs:474-494 | The queued job, the end of admission, or a registered wait. |
| `Admission.Shared.DropReceiver` | src/client/admission.rs:508-518 | Admission closes, the queued job is dropped and the waiter woken. |
| `Admission.Exclusion` | src/client/admission.rs:40-77 | In every run at most one of permit, queued job and active exchange exists, and no unreachable arm or assertion fires. |
| `Admission.NoOvertaking` | src/client/admission.rs:148-216 | While a waiter is registered no other event hands out a permit. |
| `Admission.WaiterIsServed` | src/client/admission.rs:520-540 | A registered waiter is woken by release and by close, and then gets its permit unless admission ended. |
| `Admission.DriverIsWoken` | src/client/admission.rs:474-518 | A waiting driver is woken once a job is queued or nobody is left to queue one. |
| `Admission.JobsAreTakenOnce` | src/client/admission.rs:335-370 | Accepted jobs are the jobs taken, in order and once, and then the queued one; only a job still queued when the driver goes is never taken. |
| `Admission.RefusalReturnsTheJob` | src/client/admission.rs:335-343 | A refused send returns the very job and accepts nothing. |
| `Admission.TriesAreAnswered` | src/client/admission.rs:148-162 | In every run a try gets a permit exactly when admission is open, nobody owns it and nobody is registered for it. |
| `Admission.WaitsAreAnswered` | src/client/admission.rs:170-216 | In every run a wait gets its permit exactly when admission is open, nobody owns it and nobody else is registered; it waits exactly while it is owned. |
| `Admission.JobsAreAnswered` | src/client/admission.rs:335-494 | In every run a permit's job is accepted exactly while admission is open, and an idle driver gets the accepted job, the end, or waits, each exactly when due. |
| `Completion.CompletionState.Take` | src/client/completion.rs:83-95 | A receipt can be taken once. |
| `Completion.CompletionState.PollReceipt` | src/client/completion.rs:97-119 | A poll moves the result out or registers its waker. |
| `Completion.CompletionState.DropReceipt` | src/client/completion.rs:121-128 | A dropped receipt forgets its result. |
| `Completion.CompletionState.PublishResult` | src/client/completion.rs:143-155 | The result is stored unless nobody will look, and the waiting receipt is woken. |
| `ClientRuns.OneResultPerRequest` | src/proto/h1/client.rs:38-196 | In every run each accepted request gets exactly one result, when its guard goes: reuse only once admission is open again, another outcome or error only as the outer result, loss of the driver only when it is dropped; its receipt observes it at most once. |
| `ClientRuns.ReceiptsAreWoken` | src/client/completion.rs:97-166 | A receipt that waits is woken when its result is there, and its poll returns that result; before that it waits; and it can be taken exactly once. |
| `ClientRuns.SettlementsArePublished` | src/proto/h1/client.rs:152-196 | In every run what is published for a request is how its exchange settled, and for reuse whether anyone is there to send another. |
| `ClientRuns.ObservedMeansExchanged` | src/proto/h1/client.rs:115-196 | In every run a receipt that observes reuse means that its own request was written whole and exactly one response to it was read; one that observes an upgrade means the request was written and the heads up to the upgrade were read. |
| `ClientRuns.SettleKeeps` | src/proto/h1/client.rs:152-195 | The loop body after an exchange keeps every invariant, for every settled result. |
| `Informational.Control.QueueHead` | src/server/context.rs:69-92 | A head is queued exactly with a status of its own, while open and free. |
| `Informational.Control.PollSend` | src/server/context.rs:93-108 | The acknowledgement is consumed, or the wait is registered. |
| `Informational.Control.DropSend` | src/server/context.rs:156-166 | A write under way is marked abandoned, anything else is withdrawn. |
| `Informational.Control.ChooseFinal` | src/server/context.rs:207-220 | A queued head is refused, a write under way is kept, everyone is woken. |
| `Informational.Control.BeginPermission` | src/server/context.rs:222-226 | A Continue is requested at most once. |
| `Informational.Control.PollPermission` | src/server/context.rs:227-240 | Demand is released by a written Continue or by final selection. |
| `Informational.Control.PollNext` | src/server/context.rs:247-266 | The next command while open, the automatic one first. |
| `Informational.Control.Complete` | src/server/context.rs:268-278 | The live send is acknowledged; an abandoned write frees the slot. |
| `Informational.WrittenAtMostOnce` | src/proto/h1/server.rs:497-581 | In every run at most one automatic 100 is begun, no head is begun twice, and at most the configured number is written. |
| `Informational.SuccessMeansWritten` | src/server/context.rs:69-108 | A send returns success only for its own head, written and flushed, and returns once. |
| `Informational.NothingAfterFinal` | src/server/context.rs:207-287 | No informational write begins after final selection, and the acknowledgement's unreachable arm is never entered. |
| `Informational.WakeupsAreNotLost` | src/server/context.rs:200-287 | Pending sends, permissions and the writer's wait are woken when there is something for them. |
| `Informational.QueueingIsAnswered` | src/server/context.rs:69-92 | In every run a head is queued exactly when its status is its own, the final response is not selected and no abandoned write is in the way. |
| `Informational.SendsAreAnswered` | src/server/context.rs:93-108 | In every run a live send succeeds exactly when its head was written and flushed, waits while it is being written, and fails only with the reason that fits. |
| `Informational.WaitsAreAnswered` | src/server/context.rs:227-266 | In every run demand is released exactly by a written Continue or final selection, and the writer stops, continues, writes the queued head or waits exactly when due. |
| `Upgrade.UpgradeState.Claim` | src/upgrade.rs:190-207 | The first claim is granted, later ones are refused. |
| `Upgrade.UpgradeState.Deliver` | src/upgrade.rs:218-252 | The transport goes to a live claim of its type or comes back. |
| `Upgrade.UpgradeState.DropPending` | src/upgrade.rs:260-280 | A live claim is told that no upgrade happened. |
| `Upgrade.UpgradeState.Poll` | src/upgrade.rs:67-111 | A claim's poll moves the result out or registers its waker. |
| `Upgrade.UpgradeState.DropFuture` | src/upgrade.rs:113-128 | A dropped claim releases whatever was stored for it. |
| `Upgrade.OneOwner` | src/upgrade.rs:67-280 | In every run the halves and their read-ahead are in exactly one place. |
| `Upgrade.OneClaim` | src/upgrade.rs:182-208 | A claim is granted exactly when there was none and nothing is settled; it is answered at most once and never with a failed downcast. |
| `Upgrade.LiveClaimsResolve` | src/upgrade.rs:210-280 | Once the driver has settled a live claim has been woken, and its poll answers with what was stored. |
| `Upgrade.HandOverReaches` | src/upgrade.rs:218-280 | In every run a live claim of the right type receives the transport with its read-ahead, one of another type is told so, and otherwise the transport goes to the connection's outcome as it was. |
| `Upgrade.PrefixedReader.ReadPrefixed` | src/upgrade.rs:443-462 | A read serves read-ahead first, as much as fits, and then the transport. |
| `Upgrade.PrefixedReader.ReadVectoredPrefixed` | src/upgrade.rs:464-490 | The same over several buffers, each filled before the next. |
| `Upgrade.ReadMany` | src/upgrade.rs:443-490 | Any sequence of scalar and vectored reads yields read-ahead followed by transport bytes, none lost and none repeated. |
| `Transmission.CheckedProgress` | src/io/send.rs:111-123 | Zero and excessive counts are errors, an interruption is neither progress nor error. |
| `Transmission.WriteScalar` | src/io/send.rs:49-74 | The bytes accepted are a prefix of the buffer, success means all of it, and the answer is exactly that of the transport's turns. |
| `Transmission.WriteVectors` | src/io/send.rs:76-109 | The same for several components, resuming inside one; a total of 2^64 or more is refused unsent. |
| `Transmission.WriteFramed` | src/io/send.rs:130-146 | The same for prefix, payload and suffix; the payload comes back. |
| `Transmission.WritesComplete` | src/io/send.rs:49-123 | A write completes exactly when enough is taken before a turn is cancelled, takes nothing, over-reports or fails. |
| `Transmission.CalmNeverFails` | src/io/send.rs:49-123 | A transport that only completes short or is interrupted fails no write. |
| `Transmission.SendBody` | src/proto/h1/body_io.rs:244-337 | The frames and trailers are those the producer gave in the turns used. Success comes only at the producer's end and means the wire got exactly their encoding, with exact saturating counts; on every returning path each data frame was recycled once and in order, and the wire got a prefix of what was to be sent; failures of the producer or of a due flush are reported as such, what is refused cannot be encoded, and a calm transport fails nothing but a frame too long for one submission. |
| `Transmission.SendableSucceeds` | src/proto/h1/body_io.rs:244-337 | A body whose frames come in order and can be encoded, over a calm transport with working flushes, is sent. |

## Left out
- `httparse` and the header, URI and authority parsers of the `http` crate: foreign code, taken as arbitrary deterministic functions of the delimited text; a trailer block is assumed to parse back only where a round trip needs it.
- Serializing a request line, a status line and the Date field: one pass of the bounded writer that would only add easy members.
- The loops over Connection, Expect and Upgrade members and the match of offered protocols are stated on values, over the members that the modelled list loop finds; early return inside those loops is not captured.
- `HeaderMap` is an ordered sequence of fields; hashing, capacity and the iteration order between different names are not modelled.
- Integers are unbounded except where the code checks 64-bit limits; `usize` is taken to be 64 bits, and the allocation failure of the bounded writer is not modelled.
- Zero-copy identity of buffers, pool capacity and reference counts of shared slices are not expressible on byte sequences; a leased view is counted, not shared.
- `ClientLoop.RunExchange`: which direction asks the other to stop is not modelled; the two directions share no bytes and run one after the other.
- Timers, deadlines, fairness budgets and the runtime's cancellation tokens appear only as choices of the surroundings.
- The server's three-way race, its request loop and response settlement in src/proto/h1/server.rs, apart from the informational writer.
- Waking through the connection control on graceful shutdown (src/connection.rs) is not part of the wakeup theorems; stopping itself is.
- TLS, tracing, builders, boxed erasure, body combinators, file and reader bodies, header case preservation and the shutdown lattice: each settles within one function.
