# Ogg container: writer, reader and validator, proved against each other

This project models an Ogg container (RFC 3533) from three independent sides - the code that writes
pages, the code that takes packets back out of them, and the validator that judges a file - and proves
that the three agree. All of it is Dafny; `dafny verify dfyconfig.toml` checks the whole project.

## How it is laid out

Bottom up, each layer using only the lemmas of the layers under it:

* **Bytes and pages.** `Bytes` (fixed-width fields), `Crc` (the slice-by-4 table loop against bit-serial
  polynomial division), `Pages` (page images, parsing, the in-place EOS patch), `Segments` (lacing and
  packets as segments).
* **What a file should be.** `Grammar` states sections 4 to 6 of RFC 3533 declaratively: links of BOS
  pages then data pages, serials never shared, every stream a run of pages with its own numbering,
  continuation and granule rules. `RunIsPhysical` connects it to a page-by-page form.
* **The validator.** `Validation` is the validator as functions, `Validators` as the class the code has,
  `Decision` proves that a clean verdict is exactly the grammar, and `Damage` that altering a few bytes of
  one page yields exactly one issue. `Report` states the whole report on any bytes, rule by rule over the pages
  that came before, and `LostPages` what it says of pages lost or sent twice.
* **One stream.** `Paging` is the page being filled and what holds of the pages cut so far, shared by the
  single-stream writer (`Framing`, `FramingObjects`) and the muxer.
* **Damage-tolerant reassembly.** `Reassembly` is one stream's state machine; `Loss` gives exactness under
  lost pages, `Splice` lays any pages out as one run of segments and shows that exactly the whole packets
  among them are delivered, `PreRegistered` says when that fails for a stream registered ahead of its pages,
  `DamageMarks` reads the damage counters off any pages, and `Views` relates validator, strict assembler and
  tolerant reader. `Demux` puts streams, links and duplicate serials together, `Demuxers` is the same as a class
  with its loops.
* **The muxer.** `Muxing` is the muxer on pages, `Muxers` the class on bytes that refines it. `MuxWire`,
  `MuxFill`, `MuxSteps`, `MuxSchedule`, `MuxClose`, `MuxLinks`, `MuxHeaders` and `MuxRuns` build the
  invariants, none of which depends on granules; `MuxTheorems`, `MuxHistory`, `MuxClock` and `RoundTrip` state
  the results over whole runs, and `MuxStamps` adds what granules decide: a clean file, and refused packets.
  `PageMarks` and `MuxGranules` say which granule every page carries, from the calls alone; `MuxBirth` takes the
  header section apart, and `MuxMoments` states release times over frame numbers, rates and ticks.
* **Keyframes.** `KeyNotes` is the note each page carries while it is filled, `MuxKeys` follows it through
  muxer runs, and `Keypoints` offers noted pages to the index at their byte offsets.
* **Satellites.** `Theora` and `TheoraHeader` (granule packing and the header that announces it),
  `SeekIndices` (the dense index and its floor), `SkeletonIndex` and `AutoIndex` (the Skeleton 4.0
  keyframe index, collected while writing and rewritten in place).

Methods with loops and fields are proved equal to the specification functions; the theorems are about the
functions. To keep the solver's work small, invariants and checks are often passed as function values
(`Stable(inv)`, `Walk(check, ...)`), so one proof serves several properties. A CRC register is the sequence
of its 32 bits; release times are `real`.

## The main results

* The validator is clean on exactly the byte strings that are a physical bitstream of the grammar
  (`Decision.ValidatorDecidesGrammar`). On any bytes at all its report is, piece by piece, what the rules say of a
  page after those before it (`Report.ReportIs`); inner pages lost from a clean file, or one sent twice, cost
  exactly the sequence issues at the breaks (`LostPages.LossIsNamed`, `LostPages.RepeatIsNamed`).
* Every muxer run - any packets, stamped, unstamped or refused, over any usable streams and links, any page
  boundaries and targets - reads back with every stream's headers and packets (`RoundTrip.EveryRunRoundTrips`)
  and no damage (`RoundTrip.EveryRunReadsClean`), has EOS on exactly the last page of each stream
  (`RoundTrip.EveryPageInTurn`) and never shares a serial (`RoundTrip.EverySerialIsUnique`).
* From the calls alone: each page of such a file carries what the last timed packet to end on it brought
  (`MuxGranules.EveryPageCarriesItsMark`), leaves at the latest presentation time its stream has reached
  (`MuxMoments.EveryPageLeavesInTime`), and follows no page of a later one (`MuxMoments.ReleaseOrder`).
* Such a file is clean if and only if on each stream the granules left on the pages where packets end are
  there and never fall (`MuxStamps.CleanMeans`). That is so if every packet is stamped, in order on its stream,
  and the file then has the declared links and streams (`MuxStamps.EveryRunIsClean`). A refused
  `begin_new_link` is no step of a run (`MuxTheorems.RefusedLinksAreNoSteps`).
* Every keypoint the muxer collects leads, at its offset in the finished file, to a page of its stream, and its
  time is that of the first keyframe to end there (`Keypoints.CollectedAreKeyframes`); a candidate is collected if
  and only if there is room and it is clear of the last one collected (`AutoIndex.CollectedGreedily`).
* Dropping pages loses exactly the packets they carried, stream by stream of an interleaved file, and the file's
  damage counters are the sums of its streams' gaps and orphaned continuations (`Loss.LossExactness`,
  `Demux.FileLossExactness`, `Demux.FileDamage`). On any pages whatsoever those counters are the pages out of
  sequence, those wrong about the packet under way and the repeated BOS pages (`DamageMarks.MarksAreCounted`,
  `Demux.MarksAddUp`).
* A stream registered by its own BOS page never delivers anything but whole packets of its own pages,
  whatever pages come in (`Splice.NoSplice`, `Demux.DeliveredAreGenuine`), and if it opens with that page it
  delivers every one of them (`PreRegistered.OpenedIsExact`). A stream registered ahead of its pages does so
  if and only if its first BOS page is not spliced over (`PreRegistered.RegisteredIsExact`,
  `Demux.RegisteredAreGenuine`).
* Altering up to four consecutive body bytes of an inner page yields one issue and nothing else
  (`Damage.DamageIsLocalised`).

## What the code does that its documentation does not say

* A refused Theora granule is an error return from `write_packet`, but the packet's segments are already on
  the page being filled and go out with it, unstamped. `MuxStamps.ErrorMeans` says for every call when an
  error leaves the muxer changed, and `RoundTrip.RefusedIsReadBack` gives a run - a Theora stream whose
  identification header announces six bits of offset, frame 64 after the keyframe at 0 - whose refused packet
  the reader receives (src/mux.rs:1292-1332).
* A keypoint is documented as the page its keyframe starts on (src/mux.rs:684-688), but the note is taken after
  the packet is laid out, when a packet of 255 * 255 bytes or more has left the page it starts on. The note is
  on the right page if and only if the keyframe is shorter (`MuxKeys.NoteMeans`); `MuxKeys.LongKeyMisplaced` is
  a run with one that is not.
* `TheoraGranule::pack` with shift 0, frames counted from one and keyframe 2^63 - 1 overflows: with wrapping
  arithmetic it returns -2^63. This is the only pair that packs but does not unpack (`Theora.CountOverflow`,
  `Theora.OverflowAt`).
* The Theora seek axis is not monotone in raw granules, only along a stream's own granules
  (`Theora.AxisNotMonotone`). On any table at all the floor has the greatest key for every target if and only
  if each key that falls comes back further down, and divides the table for every target if and only if keys
  never fall (`SeekIndices.FloorIsRight`); with entries 3 and 4 over a shift of two the floor of frame 3 is
  the page of frame 1 (`SeekIndices.FloorGoesWrong`). Pages of one stream, its header pages included, are
  proved to be of the good kind (`SeekIndices.FloorIsGreatestFrame`).
* `offer_keypoint` subtracts timestamps in 64 bits: a pair far enough apart by both gaps is refused exactly
  when the difference does not fit (`AutoIndex.SpacedButRefused`, `AutoIndex.RefusedAt`).
* A stream registered by the seek-index scan before any of its pages is processed (src/demux.rs:940-977) may
  splice, with neither damage counter moving, when pages of it precede its BOS page: page 9, a BOS page that
  claims to continue, completes the packet of page 5 (`PreRegistered.PreRegisteredSplice`), and so does page 10
  after a BOS page 9 without segments (`PreRegistered.EmptyBosSplice`). It happens if and only if the first BOS
  page finds a packet unfinished, has no segment or claims to continue one, and the pages from it on complete
  that packet (`PreRegistered.RegisteredIsExact`, `PreRegistered.ArrivalDecides`).
* The reader refuses a BOS page without a segment and then skips the whole stream, though the validator has
  nothing against it (`Demux.EmptyBosIsLost`, `Demux.EmptyBosIsPhysical`); link numbers agree all the same
  (`Demux.LinksAgree`).
* `framing_errors` is not always zero under pure page loss: it counts the orphaned continuation pages met
  with no hole in front of them (`Loss.LossExactness` says exactly how many).
* A page without segments that claims to continue an open packet is seen differently by the validator and
  by the assembler; `Views.CleanIsAssembled` shows these pages are the only difference, and
  `Views.CleanInMidPacket` gives a clean stream on which they differ.

## Model

| member | source | states |
|---|---|---|
| Crc.SliceTables.ContinueChecksum | src/crc.rs:98-124 | the four-table loop and its scalar tail leave the register that bit-serial division by the generator polynomial leaves, from any state, for any bytes |
| Crc.SliceTables.constructor | src/crc.rs:32-76 | the four tables, each built from the one before, hold the remainders of one byte followed by 0 to 3 zero bytes |
| Crc.SliceTables.AdvanceFourZeroBytes | src/crc.rs:139-148 | advances the register as dividing in four zero bytes does |
| Crc.SliceTables.ComputePageChecksum | src/crc.rs:162-173 | the three-part computation equals the checksum of the page with bytes 22..26 zeroed; none for fewer than 26 bytes |
| Crc.CrcConcat | src/crc.rs:88-124 | processing a message in any split leaves the same register |
| Crc.SliceAdvance | src/crc.rs:98-118 | one four-table step equals dividing in four bytes |
| Crc.CrcInjective | src/crc.rs:98-124 | for fixed bytes, different start states give different registers |
| Crc.BurstIsDetected | src/crc.rs:98-173 | equal-length pages that differ, only within four consecutive bytes and not in the checksum field, have different checksums |
| Crc.OneLeavesPolynomial | src/crc.rs:28-52 | the byte 1 alone leaves 0x04C11DB7: the polynomial, and the most significant bit first |
| Bytes.LittleEndian | src/page.rs:118-137 | numeric header fields are written least significant byte first |
| Pages.HeaderFields | src/page.rs:118-137 | where each field of the 27-byte header lies |
| Pages.ParseOfToBytes | src/page.rs:105-201 | parsing the bytes of a page, whatever follows them, returns the page and its length |
| Pages.ToBytesOfParse | src/page.rs:105-201 | serializing a parsed page reproduces exactly the bytes consumed |
| Pages.SerializedIsParsed | src/page.rs:105-130 | serializing succeeds on exactly the pages that some bytes parse to |
| Pages.TruncatedNeedsMore | src/page.rs:143-201 | a page cut short at any byte parses to the demand for more, and to no other error |
| Pages.ToBytesChecksum | src/page.rs:118-137 | the checksum stored in a serialized page is the one computed over it |
| Pages.EosPatch | src/framing.rs:339-351 | both in-place patches (flag, then checksum with or without zeroing the field first) give the bytes of the same page with only EOS added |
| Segments.LaceMeaning | src/page.rs:215-230 | lacing values sum to the packet's length and only the last is below 255 |
| Segments.FeedAllPackets | src/page.rs:53-82 | reassembling the segments of any packets, empty ones and multiples of 255 included, gives exactly those packets |
| Segments.CompletesMeaning | src/validate.rs:368-371 | a page completes a packet if and only if some lacing value is below 255 |
| Grammar.RunIsPhysical | src/validate.rs:643-860 | taking pages one at a time, with every stream ended, equals the declarative grammar of links and streams, both ways |
| Grammar.PrefixIsOpenStream | src/validate.rs:776-930 | taking the pages of one serial one at a time equals the rules on numbering, BOS, continuation and granules taken over the whole run |
| Grammar.ConformsMeans | src/validate.rs:643-860 | granules separate from the rest: a run conforms if and only if it is in order - links, BOS, numbering, continuation - and each stream of it obeys the granule rules too |
| Grammar.ConformsRises | src/validate.rs:776-930 | where pages on which no packet ends carry no granule, pages in order conform if and only if on every stream granules are there wherever packets end, and never fall |
| Decision.StepDecides | src/validate.rs:643-860 | from a state that tracks the pages so far, checking a page reports nothing if and only if the grammar accepts it next, and the state goes on tracking |
| Decision.FinishMeaning | src/validate.rs:865-930 | the end-of-page checks are silent exactly when the granule and EOS rules hold |
| Decision.ValidatorDecidesGrammar | src/validate.rs:476-641 | the verdict is clean if and only if the input is the bytes of pages that form a physical bitstream |
| Decision.CleanTotals | src/validate.rs:476-641 | on such input the report counts the pages, the links and the streams of the grammar |
| Validation.CleanMeaning | src/validate.rs:254-299 | clean means: not empty, no issue on the walk, no stream left without EOS |
| Validators.Validator.Validate | src/validate.rs:476-641 | the loop over the bytes reports exactly the issues and totals of the specification, keeping at most the cap and counting the rest |
| Validators.Validator.PageAtOffset | src/validate.rs:397-450 | classifies what lies at an offset: no capture pattern, cut short, damaged, or a page |
| Validators.Validator.FindNextValidPage | src/validate.rs:454-470 | the first offset from a point on at which a whole page with a good checksum starts |
| Validators.Validator.Push | src/validate.rs:291-299 | issues past the cap are counted, not kept |
| Validators.Validator.CleanIsSilent | src/validate.rs:258-262 | `is_clean` holds if and only if no issue was ever reported |
| Validators.Validator.CountAndCheck | src/validate.rs:643-860 | one accepted page updates models, totals and report as the specification does, which `Report.PageFollows` characterises |
| Report.PageFollows | src/validate.rs:643-930 | from models that recall what has come, each page gets exactly the issues the rules give it - over the pages of its bitstream's present life, the links and what was lost - and is recalled |
| Report.LostFollows | src/validate.rs:547-590 | a damaged page or one of another version leaves its claimed stream broken until its next page, and nothing else |
| Report.ReportIs | src/validate.rs:476-641 | any input falls into pages and stretches of damage up to the next valid page; the report is what the rules say of each piece in turn, a note on empty input and one on each bitstream not ended, by rising serial; pages, streams, links and junk bytes are counted |
| LostPages.LossIsNamed | src/validate.rs:807-860 | drop any pages of a clean file that are neither BOS nor EOS: the report is one SequenceGap at each page that follows a break in its own stream (a regression from 2^31 - 1 pages on), and nothing else |
| LostPages.RepeatIsNamed | src/validate.rs:807-860 | send such a page twice before the next of its stream: the report is one SequenceRegression, at the copy |
| Validators.WalkIsVisits | src/validate.rs:490-600 | the walk over the input is its first turn, then the walk from where that turn ends |
| Damage.DamageIsLocalised | src/validate.rs:539-567 | in a clean file, altering up to four consecutive body bytes of a page neither BOS nor EOS gives exactly one issue, a checksum mismatch at that page, if no valid page starts inside it |
| Damage.BurstIsMismatch | src/page.rs:143-201 | the parser answers such a burst with a checksum mismatch, and with no other error |
| Damage.DamageSimulates | src/validate.rs:791-805 | from the damaged page on, the tainted model re-baselines: no sequence, continuity or granule issue follows that the undamaged file did not have |
| Damage.ReadDamaged | src/validate.rs:397-450 | such a page reads as damaged, with its serial and length intact |
| Paging.CutFramed | src/framing.rs:353-385 | cutting a page keeps the segments, the stamps and the continued flag in step with the pages cut |
| Paging.CutIsPrefix | src/framing.rs:353-385 | pages cut from ordered stamps are a stream prefix of the grammar, numbered from 0 |
| Paging.CutIsUnbroken | src/framing.rs:353-385 | whatever the stamps, pages cut are numbered in turn from 0, each marked continued exactly when the one before ends mid-packet |
| Framing.ParseAllBytes | src/framing.rs:58-67 | parsing the concatenation of pages returns those pages |
| Framing.ParsedBytes | src/framing.rs:58-67 | whatever parses is the concatenation of the pages it parses to |
| Framing.AssembleMeaning | src/framing.rs:136-170 | the strict assembler accepts exactly runs of one serial whose continued flags match, and then returns the packets of their segments |
| Framing.AssembleFails | src/framing.rs:136-155 | it stops at the first page that does not belong: of another serial, or else with a continued flag that is wrong |
| Framing.CallsHold | src/framing.rs:290-335 | after any calls, pages and open page hold exactly the segments and stamps of the packets pushed |
| Framing.WriterRoundTrip | src/framing.rs:290-382 | for any schedule of pushes, flushes and page targets, reading the finished bytes returns the pushed packets |
| Framing.WriterConforms | src/framing.rs:290-382 | with a packet and stamps in order, the finished bytes are clean: one stream, one link, as many pages as emitted |
| Framing.PageStamps | src/framing.rs:353-385 | each page carries the stamp of the last packet completed on it, or -1 if none is |
| Framing.FinishIsFlush | src/framing.rs:339-351 | finishing adds EOS to the last page of what a flush leaves, and nothing else |
| Framing.OnlyFullPages | src/framing.rs:290-325 | without flushes and target, every page cut is full |
| Framing.TargetKept | src/framing.rs:290-325 | with a target set, a completed packet never leaves that much on the open page |
| Framing.PushCutsDue | src/framing.rs:290-325 | a packet cuts no page early: each page cut is full, or has reached the target at the end of a packet |
| FramingObjects.PacketAssembler.PushPage | src/framing.rs:136-170 | the segment loop of the assembler computes the specified state and packets, or the error |
| FramingObjects.ReadPackets | src/framing.rs:72-80 | reads a buffer to its packets, or fails, as specified |
| FramingObjects.ParseAllPages | src/framing.rs:58-67 | the parse loop returns the specified pages or error |
| FramingObjects.PageWriter.PushPacket | src/framing.rs:290-325 | the nested loops leave the fields and the bytes that the specified writer state has |
| FramingObjects.PageWriter.Finish | src/framing.rs:339-351 | the bytes returned are those of the specified pages, the last patched in place |
| Reassembly.TakeFrame | src/demux.rs:3345-3390 | packets already completed on a page do not influence the rest of it |
| Splice.LayoutMeaning | src/page.rs:53-82 | any pages laid out are all their segments in order, each page beginning where those before it end |
| Loss.LossExactness | src/demux.rs:3281-3404 | drop any pages but the first: exactly the packets whose every page arrived are delivered, in order and byte for byte; holes are the gaps a received page follows; framing errors are the orphaned continuations |
| Splice.NoSplice | src/demux.rs:3281-3404 | for any pages of one serial, each completed packet lies on consecutive segments that start a packet, over pages with consecutive numbers, each later one marked continued; spans are in order |
| Splice.AfreshIsExact | src/demux.rs:3281-3404 | for any pages, a registered stream whose BOS pages start afresh delivers, in order, the packets of exactly those spans of segments that are whole |
| PreRegistered.HeldOrLost | src/demux.rs:3349-3376 | missing the head of a packet changes at most the one packet it belongs to |
| PreRegistered.BosStartsAfresh | src/demux.rs:3166-3196 | a first BOS page of a registered stream is read as if no partial packet were held, exactly unless one is and the page claims to continue it or has no segment |
| PreRegistered.PreRegisteredRun | src/demux.rs:3166-3196 | a stream registered ahead reads any run that begins with a non-empty BOS page as one registered by it |
| PreRegistered.OpenedIsExact | src/demux.rs:3281-3404 | on any pages that begin with such a page, exactly the whole packets are delivered, in order: nothing spliced, nothing withheld |
| PreRegistered.RegisteredIsExact | src/demux.rs:940-977 | on any pages, a stream registered ahead delivers genuine packets only, no segment used twice, if and only if its first BOS page does not come inside a packet that the pages from it on complete; it then delivers every whole packet |
| PreRegistered.ArrivalDecides | src/demux.rs:3166-3196 | some pages after the first BOS page bring about a splice if and only if those before it end inside a packet and it has no segment or claims to continue |
| PreRegistered.PreRegisteredSplice | src/demux.rs:3166-3196 | pages 5 and 9 joined into one packet over a BOS page that claims to continue, with no damage counted |
| PreRegistered.EmptyBosSplice | src/demux.rs:3166-3196 | pages 5 and 10 joined over a BOS page 9 without segments, with no damage counted |
| DamageMarks.HeldIsUnderWay | src/demux.rs:3336-3395 | on any pages, a partial packet is held exactly when its beginning and everything since are there, or it was carried over the first BOS page |
| DamageMarks.MarksAreCounted | src/demux.rs:3281-3335 | on any pages of a stream registered ahead, holes are the pages not numbered after the one before, framing errors the pages in sequence whose continued flag differs from whether a packet is under way, duplicates the BOS pages after the first |
| DamageMarks.OwnMarksAreCounted | src/demux.rs:3137-3335 | the same for a stream registered by its own BOS page, from that page on; what comes before counts for nothing, and a packet is under way exactly when the pages end inside one |
| Views.CleanIsAssembled | src/framing.rs:136-170 | a clean stream is accepted by the strict assembler and ends outside a packet if and only if no segment-less page continues a packet |
| Views.CleanInMidPacket | src/framing.rs:136-170 | a clean stream of two pages that leaves the assembler in mid-packet |
| Views.AssembledIsTolerated | src/demux.rs:3281-3404 | on accepted pages numbered in sequence from any number on, wrapping included, the tolerant reader completes page by page what the strict assembler completes, with no damage counted |
| Views.ThreeViews | src/validate.rs:827-860 | on a clean stream of any length, without such pages and opening with a non-empty one, all three views agree |
| Demux.OwnStep | src/demux.rs:3137-3404 | processing a page changes its own serial's state and the counters as the one-stream machine says |
| Demux.OthersUnchanged | src/demux.rs:3137-3404 | a page never changes another serial's state or delivered packets |
| Demux.RunMirrors | src/demux.rs:3137-3404 | over any run, each serial's state and packets are those of its own pages processed alone |
| Demux.DeliveredAreGenuine | src/demux.rs:3281-3404 | for any interleaved pages, duplicate BOS included, every delivered packet is genuine in the sense of the no-splice result |
| Demux.RegisteredAreGenuine | src/demux.rs:940-977 | from a state with a stream registered ahead, and any interleaved pages: its packets are genuine if its first BOS page is not spliced over, and headers and packets together only then, unless its serial is reused |
| Demux.FileLossExactness | src/demux.rs:3137-3404 | drop any pages of an interleaved file: a stream that kept its first page gives up exactly the packets some page of which is gone |
| Demux.DamageAddsUp | src/demux.rs:3281-3335 | whatever pages come in, the file's hole, framing and duplicate counters are the sums of what each serial's pages show alone |
| Demux.FileDamage | src/demux.rs:3281-3335 | drop pages of a file, no stream's first: holes are the sum of the streams' gaps that a received page follows, framing errors the sum of their orphaned continuations, duplicates none |
| Demux.MarksAddUp | src/demux.rs:3281-3335 | whatever pages come in, the three counters of the file are the sums of the marks its streams' own pages show |
| Demux.PageDelivers | src/demux.rs:3395-3470 | a page delivers the last of the packets that end on it, all of its own stream, and marks exactly the last of them as the boundary |
| Demux.RestartIsFresh | src/demux.rs:2294-2351 | a stream whose BOS page comes again fares from there as one first registered by that page |
| Demux.EmptyBosIsLost | src/demux.rs:2388-2400 | a stream whose BOS page has no segment is refused, never registered, and delivers nothing |
| Demux.EmptyBosIsPhysical | src/demux.rs:2388-2400 | a one-page file of this kind is a physical bitstream of the grammar, and the reader registers nothing |
| Demux.QuietRun | src/demux.rs:3281-3335 | if no stream alone shows damage, the run shows none |
| Demux.LinksAgree | src/demux.rs:3166-3230 | on pages in order, granules aside, the reader is in the validator's link at every page, files every stream it can register under it and takes no serial for a repeated one |
| Demux.LinksOnAnyPages | src/demux.rs:3166-3200 | on any pages whatsoever a link begins with each BOS page that comes right after a data page, and a stream is filed under the link of its latest BOS page |
| Demux.ExpectedBosStays | src/demux.rs:3166-3200 | the BOS page of a stream registered ahead begins no link and moves no stream |
| Demuxers.PacketSegments | src/page.rs:53-82 | the offsets loop locates exactly the packet fragments of the page |
| Demuxers.FragmentsAreSegments | src/demux.rs:3345-3376 | taking a page fragment by fragment equals taking it segment by segment |
| Demuxers.Collect | src/demux.rs:3345-3390 | the reassembly loop leaves the specified partial packet and returns the specified packets |
| Demuxers.Demuxer.RestartSerial | src/demux.rs:2294-2351 | a duplicate BOS clears the stream's partial packet, numbering and headers, re-files it and counts the violation |
| Demuxers.Demuxer.ProcessPage | src/demux.rs:3137-3404 | one page updates streams, counters, links and output as specified, or is refused; `Demux.MarksAddUp` and `Demux.LinksOnAnyPages` say what that comes to |
| Theora.PackMeaning | src/theora.rs:323-356 | packing succeeds exactly on pairs that fit their fields, with the shifted sum |
| Theora.UnpackOfPack | src/theora.rs:283-356 | frame and keyframe numbers are recovered from a packed granule |
| Theora.PackOfUnpack | src/theora.rs:283-356 | packing the recovered numbers gives the granule back |
| Theora.RefusalMeans | src/theora.rs:323-356 | packing fails on exactly the pairs that do not fit their fields, the overflowing pair of a shift of 0 aside; what it returns is a 64-bit value |
| Theora.OverflowAt | src/theora.rs:323-356 | shift 0, counting from one, frame 2^63 - 1: packs to -2^63, which reads as no frame |
| Theora.CountOverflow | src/theora.rs:323-356 | packing round-trips if and only if the keyframe count does not overflow; the overflow gives -2^63 |
| Theora.StampsIncrease | src/mux.rs:1322-1332 | along increasing frames with the running keyframe the granules strictly increase |
| Theora.KeyRecoversFrame | src/demux.rs:287-346 | the seek axis maps a packed granule to its frame number |
| Theora.KeyRecoversSample | src/demux.rs:285-309 | without frames the axis is the sample number past the skipped ones, which are all sample 0 |
| Theora.AxisNotMonotone | src/demux.rs:332-346 | two granules in order whose axis values are not |
| SeekIndices.SeekIndex.IndexRecord | src/demux.rs:762-771 | the serial's sorted list gains exactly the entry, once, unless the granule is negative |
| SeekIndices.SeekIndex.IndexFloorBy | src/demux.rs:790-808 | the walk from the right returns the last entry whose key is not above the target |
| SeekIndices.SortedUnique | src/demux.rs:762-771 | the recorded entries determine the table, whatever order they came in |
| SeekIndices.FloorIsRight | src/demux.rs:773-808 | for any axis and table: the floor has the greatest key for every target if and only if every key that falls is regained further down; it divides the table for every target if and only if keys never fall |
| SeekIndices.FloorGoesWrong | src/demux.rs:773-808 | the floor of frame 3 is a page of frame 1 though a page of frame 3 is in the table |
| SeekIndices.FloorIsGreatestFrame | src/demux.rs:790-808 | on one stream's Theora pages, header pages stamped 0 included, the floor has the greatest key not above the target and divides the table; its key is its frame's number, or minus the counting bias for a header page |
| SeekIndices.FloorIsLatestSample | src/demux.rs:285-309 | on that axis the floor and the pages before it are exactly those up to the target sample, from any table |
| SeekIndices.HeaderPagesFirst | src/demux.rs:287-346 | a header page lies before every frame on the axis when the stream counts from one, and otherwise ties with frame 0 only |
| TheoraHeader.ParseOfToBytes | src/theora.rs:103-219 | a header reads back from its bytes if and only if it is acceptable and its fields fit |
| TheoraHeader.Layout | src/theora.rs:103-219 | where each field of the 42 bytes lies |
| TheoraHeader.ToBytesOfParse | src/theora.rs:103-219 | writing a parsed header reproduces its 42 bytes but for three reserved bits |
| MuxWire.PopAccepted | src/mux.rs:917-961 | the page at the front of any queue may go on the wire next under the grammar |
| MuxWire.PopSound | src/mux.rs:985-1053 | putting it there keeps every stream's pages whole and in order between wire and queue |
| MuxWire.DrainEmpties | src/mux.rs:1030-1053 | draining leaves no page queued |
| MuxSchedule.BestIsLeast | src/mux.rs:985-1022 | the page chosen is no later than any other that may be released |
| MuxSchedule.BestIsFirst | src/mux.rs:979-1022 | at equal times the stream declared first goes: all streams before the chosen one are later |
| MuxSchedule.ReleaseScheduled | src/mux.rs:985-1022 | releasing keeps the order: nothing on the wire is later than anything still to come |
| MuxSchedule.ReleaseIsMaximal | src/mux.rs:985-1022 | nothing is held back without need: a page with another behind it stays queued only while some started stream has not reached its time |
| MuxSchedule.DrainOrdered | src/mux.rs:1030-1053 | so does draining at the end of a link |
| MuxSteps.SpanFills | src/mux.rs:727-758 | spreading a packet over any number of pages neither loses nor adds a segment |
| MuxSteps.WriteSeals | src/mux.rs:1255-1384 | any packet written to a known stream, stamped or not, even if refused, goes into that stream whole and no other stream changes; the call fails exactly on a refusal |
| MuxSteps.PageEndsWhenDue | src/mux.rs:1367-1381 | after a packet the page is cut if and only if the caller asks for a boundary or the body has reached the target |
| MuxSteps.PlaceCutsOnlyWhenFull | src/mux.rs:1262-1290 | laying a packet out cuts one page if it does not fit beside what is there, and one for each 255 full segments that more follow; none if it fits |
| MuxClose.FinishGood | src/mux.rs:1410-1460 | ending a link leaves every stream whole on the wire, its last page marked |
| MuxLinks.SerialsFresh | src/mux.rs:333-390 | the bump loop ends with serials distinct from each other and from all used before |
| MuxLinks.SerialIsFirstFree | src/mux.rs:333-397 | each stream gets the first serial from its own index on that no earlier link and no stream before it has |
| MuxLinks.IndexIsKept | src/mux.rs:392-397 | a stream keeps its index as its serial if and only if that is free |
| MuxLinks.HeaderOrderMeaning | src/mux.rs:410-414 | headers are emitted for each stream once, Theora streams first |
| MuxLinks.HeaderOrderIsStable | src/mux.rs:399-414 | among themselves Theora streams, and the others, keep the caller's order |
| MuxHeaders.SectionWritten | src/mux.rs:1164-1250 | the header section puts one BOS page a stream on the wire, then all other header pages, and opens one link |
| MuxRuns.WriteRuns | src/mux.rs:1255-1384 | any packet keeps the run on course and adds exactly itself to its stream |
| MuxRuns.FinishRuns | src/mux.rs:1410-1460 | the end of a link leaves all of it on the wire, ended, data last |
| MuxRuns.LinkRuns | src/mux.rs:1491-1577 | a new link is a run again, its earlier streams laid aside untouched |
| MuxHistory.WireGrows | src/mux.rs:1058-1076 | at every moment the wire is what the link's header section left followed by exactly the pages released since |
| MuxClock.EveryTimeIsRight | src/mux.rs:639-652 | at every moment of a link, every queued and released page carries the newest time any granule of its stream has reached with it, on the stream's own clock; `MuxMoments` says what that clock tells |
| PageMarks.CountsOn | src/mux.rs:1318-1337 | what the muxer makes of a packet is what the packet brings: its own time, or for Theora the granule of its frame and keyframe, counted over all frames given so far |
| MuxGranules.RunGranuled | src/mux.rs:1292-1337 | at every moment each page of the current link, and each being filled, carries the last granule brought by a packet ending on it, headers bringing 0, or -1 |
| MuxGranules.EveryPageCarriesItsMark | src/mux.rs:1292-1450 | the same of every page of every link of a finished file; an empty page put in to end a stream repeats its last granule |
| MuxMoments.FrameTells | src/mux.rs:639-652 | the granule packed for frame i tells the time (i + 1) * FRD / FRN, whatever its keyframe; none where the count does not fit |
| MuxMoments.MomentTells | src/mux.rs:639-652 | a page's granule tells the end of the last frame, or the time in ticks, of a packet ending on it |
| MuxMoments.EveryPageLeavesInTime | src/mux.rs:628-652 | at every moment and at the end of a link, each page released left at the latest presentation time of the packets on its stream's pages up to it, over frames, rate and ticks alone |
| MuxMoments.ReleaseOrder | src/mux.rs:985-1053 | of two pages released, the stream of the later one has reached at least the presentation time that of the earlier one had |
| MuxMoments.FramesWaitForTicks | src/mux.rs:985-1053 | a page of frame f ahead of a page of an audio stream: that stream has by then a packet at or after the end of the frame |
| MuxMoments.PacketsWaitForFrames | src/mux.rs:985-1053 | a packet ahead of a page of frames: by then that stream shows a frame that ends no earlier |
| MuxStamps.EveryRunIsClean | src/mux.rs:1164-1460 | any run whose packets are stamped in order gives bytes the validator finds clean, with `link_index + 1` links and one counted stream per declared one |
| MuxStamps.CleanMeans | src/mux.rs:1255-1460 | whatever the stamps, the finished bytes are clean if and only if on each stream the granules left on the pages where packets end are there and never fall |
| MuxTheorems.StreamsOnWire | src/mux.rs:1410-1460 | whatever the stamps, every declared stream of every link lies whole on the wire under its serial, with its headers then its packets |
| MuxTheorems.RefusedLinksAreNoSteps | src/mux.rs:1491-1530 | a run with refused `begin_new_link` calls is the run without them, so what holds of well-used runs holds of it |
| MuxStamps.LinkBeginsWhen | src/mux.rs:1491-1530 | a new link is refused exactly when it names no stream or the current one has accepted no content packet |
| MuxStamps.StampIsTheora | src/mux.rs:1318-1332 | the muxer's frame and keyframe counters stamp each packet as the granule rules ask, and refuse exactly what does not pack |
| MuxStamps.ErrorMeans | src/mux.rs:1255-1332 | an erring write changes the muxer if and only if the header is written, the stream known and past its headers, and its granule fields cannot take the frame and keyframe; the packet is then on its stream's pages, and nothing else has changed |
| MuxStamps.RefusingIsBuilt | src/mux.rs:356-372 | the stream of that run: three header packets, the first a parsable identification header, and the packer it announces |
| MuxStamps.RefusingRun | src/mux.rs:1292-1332 | a run of one Theora stream, with six offset bits by its header, that is refused frame 64 after keyframe 0 |
| RoundTrip.EveryRunRoundTrips | src/demux.rs:3137-3404 | reading any finished file returns each stream's headers and then its packets unchanged, whatever their stamps |
| RoundTrip.RefusedIsReadBack | src/mux.rs:1292-1332 | the reader of that run's file receives the packet that was refused |
| RoundTrip.EveryRunReadsClean | src/demux.rs:3281-3335 | reading any finished file meets no hole, no framing error and no duplicate serial, and counts the muxer's links |
| RoundTrip.EverySerialIsUnique | src/mux.rs:333-390 | serials over all links are pairwise distinct |
| RoundTrip.EveryRunIsOrdered | src/mux.rs:985-1053 | at every moment, and once a link is finished, the wire is what the link's header section left followed by the data pages released since, in non-decreasing release time |
| RoundTrip.EveryPageInTurn | src/mux.rs:917-1053 | at every moment wire and queue together are the stream's pages in the order cut; in the end EOS is on exactly the last |
| MuxKeys.RunTracks | src/mux.rs:1335-1346 | at every moment each page cut, and the one being filled, is noted with the first keyframe time among the packets ending on it, and content packets begin on the page they end on exactly if shorter than 255 * 255 bytes |
| MuxKeys.NoteMeans | src/mux.rs:684-689 | in a finished run a noted page has the time of the first keyframe to end on it; that keyframe begins there if and only if it is shorter than 255 * 255 bytes |
| MuxKeys.KeyIsNoted | src/mux.rs:1335-1346 | the page on which a keyframe is the first to end is noted with its time |
| MuxKeys.LongKeyMisplaced | src/mux.rs:1339-1346 | a run whose one keyframe of 255 * 255 bytes is noted on a page it does not begin on |
| Keypoints.CandidatesMean | src/mux.rs:1058-1076 | the pages offered are exactly the stream's noted ones, each at the length of the file before it |
| Keypoints.CandidatesFit | src/mux.rs:1058-1076 | offsets offered fit 64 bits if the length of the file does |
| Keypoints.CollectedAreKeyframes | src/mux.rs:1058-1076 | each keypoint collected over a run is the offset at which a page of its stream is read back from the finished file, with the time of the first keyframe to end on it, which begins there if and only if it fits a page |
| Muxers.OggMuxer.WriteHeader | src/mux.rs:1164-1250 | the bytes and fields are those of the specified header section, or the call is refused |
| Muxers.OggMuxer.WritePacket | src/mux.rs:1255-1384 | the bytes and fields are those of the specified packet, or the error is returned; the granules this leaves are those of `MuxGranules.EveryPageCarriesItsMark` |
| Muxers.OggMuxer.AppendPacketSpanning | src/mux.rs:727-758 | the chunk loop leaves the fields and queues of the specified spread |
| Muxers.OggMuxer.FlushPage | src/mux.rs:917-961 | cuts the open page if it holds anything, queues it with its time and releases what is settled |
| Muxers.OggMuxer.ReleaseReadyPages | src/mux.rs:985-1022 | the watermark loop writes the pages the specification releases |
| Muxers.OggMuxer.DrainAllQueued | src/mux.rs:1030-1053 | writes all queued pages in the specified order |
| Muxers.OggMuxer.FinalizeCurrentLink | src/mux.rs:1410-1460 | flushes, patches or adds the last page of each stream in place, and drains |
| Muxers.OggMuxer.BuildLinkWriters | src/mux.rs:333-390 | assigns the specified serials |
| Muxers.OggMuxer.BeginNewLink | src/mux.rs:1491-1577 | ends the link and writes the next header section, or is refused |
| Muxers.OggMuxer.WriteTrailer | src/mux.rs:1386-1397 | the output is the bytes of the specified finished wire |
| Muxers.FileIsClean | src/mux.rs:1386-1460 | a muxer whose specified run is stamped in order has written a clean file |
| SkeletonIndex.VbiRoundTrip | src/skeleton.rs:2544-2575 | every 64-bit integer takes at most ten bytes and reads back, whatever follows |
| SkeletonIndex.VbiDigits | src/skeleton.rs:2544-2555 | byte k holds group k of seven bits, the lowest first, and exactly the last byte is marked |
| SkeletonIndex.ReadVbiLoop | src/skeleton.rs:2562-2575 | the byte loop returns the value of the groups up to the first marked byte, modulo 2^64, or nothing |
| SkeletonIndex.WriteVbi | src/skeleton.rs:2544-2555 | the loop appends the groups of the integer |
| SkeletonIndex.IndexRoundTrip | src/skeleton.rs:2243-2335 | an index packet, with any padding, parses back to the index if and only if offsets never fall; it takes at most 42 + 20 bytes a keypoint |
| SkeletonIndex.ParsedIsStable | src/skeleton.rs:2243-2335 | whatever parses can be written again and parses to the same index |
| SkeletonIndex.ParseIndex | src/skeleton.rs:2243-2302 | the parse loop returns the specified index or fails |
| SkeletonIndex.WriteIndex | src/skeleton.rs:2306-2335 | the writing loop produces the specified packet |
| AutoIndex.AutoIndexState.OfferKeypoint | src/mux.rs:521-549 | accepts or drops a candidate as specified, which `AutoIndex.CollectedGreedily` characterises |
| AutoIndex.OffersKeep | src/mux.rs:521-549 | over any run of offers: never above the limit, strictly rising offsets, both gaps kept in exact arithmetic, nothing collected is lost |
| AutoIndex.CollectedWereOffered | src/mux.rs:521-549 | what is collected is a subsequence of what was offered |
| AutoIndex.CollectedGreedily | src/mux.rs:521-549 | over any run of offers: the first is collected, and an offer is collected if and only if there is room and it is apart from the last one collected before it by both gaps and by less than 2^63 units of time |
| AutoIndex.SpacedButRefused | src/mux.rs:534-542 | a candidate apart by both gaps is refused exactly when its time difference does not fit 64 bits |
| AutoIndex.RefusedAt | src/mux.rs:534-542 | without any gap to keep, time 0 is refused after the earliest time there is |
| AutoIndex.LimitIsExact | src/mux.rs:106-109 | the reservation fits one page if and only if the limit of 3249 keypoints is kept |
| AutoIndex.ReservationHolds | src/mux.rs:871-912 | the finished packet never outgrows the reservation and, padded, parses to exactly the collected keypoints |
| AutoIndex.BackfillIsLocal | src/mux.rs:871-912 | rewriting any pages in place at their recorded offsets leaves the file's other pages as they were |
| AutoIndex.IndexPageRewritten | src/mux.rs:835-912 | over any run of offers, the rewritten index page keeps its length, changes no other byte and reads back as what was collected |

## Left out

- MuxStamps.EveryRunIsClean: besides packets stamped in order, a run must declare distinct stream indices, with as many header packets as the codec asks for and an identification packet that fits one page (otherwise src/mux.rs:1190-1196 skips the BOS page), and begin a new link only when `begin_new_link` accepts it.
- RoundTrip.EveryRunRoundTrips: streams and links as for the clean file, any stamps; the reader's header count is a parameter that must agree with the declared one.
- MuxGranules.EveryPageCarriesItsMark: the packers of Theora streams have counted no frame yet, as src/mux.rs:356-372 builds them.
- MuxMoments.EveryPageLeavesInTime: the same; times of tick streams before zero count as zero.
- LostPages.LossIsNamed: fewer than 2^32 - 1 pages of a stream are lost in a row, since a gap of 2^32 does not show.
- AutoIndex.CollectedGreedily: the denominator of timestamps is positive.
- Loss.LossExactness: the stream's first page is not dropped, pages are numbered from 0 and at most 2^32, since a gap of 2^32 pages does not show.
- Demux.FileLossExactness: the same of the stream it speaks of.
- Demux.FileDamage: the same of every stream of the file.
- Demux.LinksAgree: no Skeleton stream is present, and at most 2^32 links, where the reader's counter saturates.
- Damage.DamageIsLocalised: leaves the header and lacing table intact, and excludes by hypothesis a whole valid page starting inside the damaged one.
- Muxers.OggMuxer.BeginNewLink: with all 2^32 serials in use the search for a free one would not end; the model refuses the call there.
- Keypoints.CollectedAreKeyframes: a file of one link, since `begin_new_link` refuses with an index; header section and Skeleton pages are any bytes before the data pages. `Muxers.OggMuxer` does not carry the notes; they are functions of the run beside it.
- Muxers.OggMuxer.WritePacket: writing a packet after the trailer is not part of a run.
- The reader's presentation times, durations, granules seen, metadata, the damage ledger and the Skeleton stream's own pages.
- Seeking by bisection, keyframe and preroll seeks, and the chunked resynchronisation of the reader: they scan raw bytes, and no exact floor or naive equivalent holds for them.
- The Skeleton bitstream inside muxer runs (fishead, fisbones, their backfill): the index page is modelled on its own, for any pages around it.
- Codec identification, parameter guessing and extradata unpacking: header packets and header counts are inputs.
- Issue texts and severities, and the refusal of codecs without a mapping.
- Rounding of `f64` release times: times are `real`.
- File input and output, short reads and seeks: the output is a byte sequence.
- Xiph lacing of header packets and the FLAC header split: round trips that would only add easy members.
