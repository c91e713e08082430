# APRS station firmware: a verified model

This project models the parts of an ESP32 APRS station whose correctness is hardest to see
by reading them, and proves what they promise: the transmit duty-cycle limiter, the
transmitter-exclusive LOOP TEST, the Internet-to-radio gateway, the AX.25/HDLC encoder of
the audio test tool, the position and timestamp codecs, and the configuration store.
`dafny verify dfyconfig.toml` checks all of it with Dafny 4.11.

Code that changes things step by step is modelled as classes and loops over the same state
and proved against specification functions; code made of expressions is modelled as
functions; tasks that interleave are modelled as a step relation with an inductive
invariant. What cannot be seen from the code - clocks, the modem's answers, the last-heard
table, the Mic-E and NMEA decoders, out-of-range C casts, failing allocations - enters as a
parameter the theorems quantify over.

## The parts

| files | what they model |
|---|---|
| `DutyCycle.dfy` | the 40-bucket airtime ring as a refinement of a log of transmissions, the send gate in front of it, and the ceiling over whole runs of racing tasks |
| `LoopTest.dfy` | producers, the draining modem, the three diagnostics and the LOOP TEST, one instruction at a time |
| `Crc.dfy`, `Hdlc.dfy`, `Ax25Frame.dfy` | CRC-16/X.25, bit stuffing, NRZI and the sample clock, addresses and frames, each with a receiver written for the proof (sections 3.6, 3.7 and 3.12 of AX.25 v2.2) |
| `CivilDate.dfy`, `Timestamp.dfy` | civil-date arithmetic and timestamps that carry no year |
| `Minutes.dfy`, `Base91.dfy`, `Classifier.dfy`, `Reports.dfy` | uncompressed positions with ambiguity, the `!DAO!` refinement, compressed positions, the late-`!` scan, classification and decoding, and every way from a position to the report and the kind a receiver makes of it |
| `FollowUpRing.dfy`, `RateLimiter.dfy`, `ThirdParty.dfy`, `GatewayRules.dfy`, `GatewayReading.dfy`, `Gateway.dfy`, `GatewaySafety.dfy`, `GatewayDelivery.dfy`, `GatewayRuns.dfy` | the INET->RF gateway: its two rings, the third-party wrapper, every gate of the chain, what the tests read in a line, what it never sends, what it does send, and what holds of every run |
| `ConfigMutex.dfy`, `JsonText.dfy`, `JsonWriter.dfy`, `ConfigFields.dfy`, `ConfigReaders.dfy`, `ConfigStore.dfy`, `ConfigLaws.dfy`, `PathClamp.dfy` | one-time mutex creation, the comma-flag JSON writer, section files read, written, loaded and repaired, and the path-preset clamp |
| `Common.dfy`, `Text.dfy` | options, digits, C division, C strings |

## Where the code does not do what one would expect

Each of these is stated with the exact condition under which the code meets the property,
and a concrete input, a reached state or a named configuration for which it does not.

- The duty-cycle percentage multiplies by 100 in 32 bits: `DutyWindow.PctExactIff`. With at
  most 3241 frames in the window the ceiling holds (`DutyGate.CeilingHoldsForFewFrames`);
  with 3242 of the longest it does not (`DutyGate.WrapBreaksCeiling`). That many in ten
  minutes is more than the air can carry, and at most 11 wait in the ring: it takes a ring
  that is dropped again and again, by a transmitter time-out or a rebuilt modem.
- The airtime estimate is meant to stay on the conservative side, but with short callsigns a
  frame is longer than its text by more than the eight bytes allowed for:
  `Ax25Frame.OverheadCoversIff`, `Ax25Frame.EstimateCoversAir`,
  `Ax25Frame.ShortCallsUnderbooked`.
- The per-source spacing compares ticks as signed 32-bit differences, so a source silent
  for 2^31 ticks is refused: `RateLimiter.RefusedIff`, `RateLimiter.StaleSourceRefused`.
- The comment beside the spacing claim says that a frame the transmitter refuses does not
  spend the source's slot; it does, unless it was exempt from the spacing:
  `GatewayRuns.RefusedFrameSpendsSlotIff`, `GatewayRuns.RefusedFrameDelaysNext`,
  `GatewayRuns.RefusedStatusDelaysNext`.
- A day-only timestamp naming a day the previous month lacks can land up to three days
  ahead: `Timestamp.DayOnlyWindow`, `Timestamp.DayOnlyOvershoots`.
- South or west of zero, a field of all zeros loses its hemisphere, and the `!DAO!`
  refinement then points the wrong way: `Minutes.DaoRoundTripIff`, `Minutes.EquatorFlips`.
- The comment beside the late-`!` scan says that what it classifies is decodable; a blank
  followed by a digit is not: `Classifier.AcceptedDecodesIff`,
  `Classifier.ClassifiedButUndecodable`.
- That scan takes blanks for what position ambiguity leaves, but only behind the point: with
  three or four digits blanked a late position is not seen: `Reports.SentAcceptedIff`.
- The comment beside the generic-query drop says that no filter setting can defeat it; a
  query inside an unwrapped third-party packet passes: `GatewaySafety.QueryReachesAirIff`,
  `GatewaySafety.QueryLineReachesAir`.
- The hop count of the path clamp is a byte: `PathClamp.ClampWithinBudgetIff`,
  `PathClamp.WrapKeepsAll`. The suffix builder still never puts more than eight vias on the
  air: `PathClamp.SuffixWithinLimit`.
- The monitor interlock looks at the range gate's switch and not at its radius, and a radius
  of 0 means no limit: `ConfigLaws.LimitedIff`, `ConfigLaws.ZeroRadiusLoads`.
- With a ':' in the gateway's own call or path, both free text, no frame it wraps carries its
  packet: a receiver finds none, or one that was never sent (`ThirdParty.WrapRoundTripIff`),
  and a next gateway may send the frame on (`GatewaySafety.SentOnIff`,
  `GatewaySafety.ColonPathSentOn`).
- The callsign field only cuts to six characters (components/webconfig/include/web_common.h:388-392),
  so it may hold an SSID. The echo test compares the whole of it with the base of a line's
  source, so a gateway with the unwrap on then sends its own frames again
  (`GatewaySafety.OwnFrameKnownIff`, `GatewaySafety.OwnFrameUnchanged`,
  `GatewaySafety.OwnFrameSentAgain`).
- An address with an SSID above 15 or a trailing blank does not survive the audio tool's
  encoder: `Ax25Frame.FrameRoundTripIff`, `Ax25Frame.SsidOnAir`, `Ax25Frame.Ssid16BecomesZero`.

## Model

| member | source | states |
|---|---|---|
| `DutyWindow.WindowTracksClock` | main/aprs_service.c:467-500 | after sliding, what the window counts includes every transmission younger than 585 s and none 600 s old or older |
| `DutyWindow.PctExactIff` | main/aprs_service.c:505-514 | the 32-bit percentage is the true one exactly when the product has not wrapped down below 100 percent |
| `DutyWindow.PctWraps` | main/aprs_service.c:505-514 | 42 949 673 ms in the window read as 0 percent |
| `DutyCycle.Accumulator.constructor` | main/aprs_service.c:162-170 | an empty ring stands for the empty log |
| `DutyCycle.Accumulator.Slide` | main/aprs_service.c:474-490 | moving on by any number of buckets, bucket by bucket or with the stale-window shortcut, keeps every bucket equal to the log's airtime in its slot of time |
| `DutyCycle.Accumulator.Advance` | main/aprs_service.c:467-490 | the current bucket's start moves to the clock's bucket and the log is untouched |
| `DutyCycle.Accumulator.UsedMs` | main/aprs_service.c:495-500 | the sum of the 40 buckets is the airtime logged in the window, modulo 2^32 |
| `DutyCycle.Accumulator.Pct` | main/aprs_service.c:505-514 | the reading is the percentage of the log's airtime after sliding |
| `DutyCycle.Accumulator.AddMs` | main/aprs_service.c:520-526 | booking appends one entry to the log, at the clock or, if the clock is behind, at the bucket's start |
| `Transmit.EstimateBounded` | main/aprs_service.c:555-561 | with TXDelay and TXTail in their bounds no accepted frame is booked at more than 13.25 s |
| `Transmit.WaitForRoom` | main/aprs_service.c:656-683 | the queue depth is read once, and again up to a deadline by the beacon task alone, until a reading leaves room |
| `Transmit.RoomGrows` | main/aprs_service.c:656-683 | one more poll sees one more reading, and the first reading alone decides without polling |
| `Transmit.SendTnc2` | main/aprs_service.c:582-730 | airtime is booked exactly when the frame goes out, and it goes out exactly when length, modem, owner, ceiling and one of the depth readings allow it; the ceiling holds back exactly the non-critical offers made while the limiter is on and the window has used it up, and a booking is marked exempt exactly when the offer was critical or the limiter off; every refusal has its own cause |
| `DutyGate.StepKeepsInv` | main/aprs_service.c:615-629 | each check, booking, give-up and critical frame keeps the bound with the frames still pending counted in |
| `DutyGate.RunKeepsInv` | main/aprs_service.c:615-717 | every interleaving keeps it |
| `DutyGate.CeilingHolds` | main/aprs_service.c:502-717 | under a ceiling that may change, non-critical airtime in the window never exceeds the highest one by more than one frame per sending task, as long as every check reads the true percentage |
| `DutyGate.CeilingHoldsForFewFrames` | main/aprs_service.c:502-717 | which it does, whatever the lengths, with at most 3241 frames in the window |
| `DutyGate.WrapBreaksCeiling` | main/aprs_service.c:505-514 | a run of 3243 frames of 13.25 s, spread over 584 s, after which one task is a second frame over a ceiling of 2 percent |
| `DutyGate.OfferIsRun` | main/aprs_service.c:582-730 | what the transmit helper does to ring and log is, whatever its outcome, a run of the gate's steps within their bounds, so that the ceiling over runs speaks of it |
| `LoopTest.StepKeepsInv` | main/aprs_service.c:2399-2528 | every instruction of every task keeps the ownership, gate, ring and claim invariants |
| `LoopTest.RunKeepsInv` | main/aprs_service.c:2399-2528 | every interleaving keeps them |
| `LoopTest.TransmitterIsExclusive` | main/aprs_service.c:330-344 | while PTT is inhibited or the modem is in full duplex, one LOOP TEST task owns the transmitter and every frame in the ring or on the modulator is its own |
| `LoopTest.TestFrameNeverKeyed` | main/aprs_service.c:2475-2528 | the PTT line is active exactly while a frame other than the test's is on the modulator |
| `LoopTest.ClaimIsExclusiveAndReleased` | main/aprs_service.c:2717-2727 | at most one diagnostic runs, the claim is held exactly while one does, and with none running owner, inhibit, duplex and receive hook are all given back |
| `LoopTest.RealTrafficIsNotSwallowed` | main/aprs_service.c:2445-2528 | entering the test drops no queued frame, leaving it drops nothing but test frames |
| `LoopTest.OwnFrameGranted` | main/aprs_service.c:693-705 | the running test gets its own frame through the gate, and nobody else's gets through |
| `LoopTest.RefusedByOwner` | main/aprs_service.c:696-705 | at the gate a task is refused exactly while another task owns the transmitter |
| `LoopTest.QueuedLast` | main/aprs_service.c:706-707 | what passes the gate is queued last, as a test frame exactly when the test sent it |
| `LoopTest.FirstInFirstOut` | components/esp32idf_radioamateur_modem/src/ax25.c:1304-1315 | over any run in which the modem drops nothing, what was in the ring and what came into it is what went out, in that order, and what is left |
| `LoopTest.TestSends` | main/aprs_service.c:2399-2514 | the test can be run by any task: in full duplex, with PTT inhibited, its frame and no other is in the ring |
| `LoopTest.TestCompletes` | main/aprs_service.c:2399-2528 | and through to its end, which leaves everything as it was before |
| `Crc.FoldByte` | audio_test/gen_test_wav.py:7-10 | the inner loop folds one byte, low bit first |
| `Crc.Crc16X25` | audio_test/gen_test_wav.py:5-11 | the nested loop computes the register over the message, inverted |
| `Crc.RegisterIsBitwise` | audio_test/gen_test_wav.py:5-11 | the byte-wise register equals feeding the transmitted bits one at a time |
| `Crc.BurstChangesRegister` | audio_test/gen_test_wav.py:5-11 | any error burst within sixteen consecutive bits changes the register, whatever surrounds it |
| `Crc.BurstDetected` | audio_test/gen_test_wav.py:5-11 | two equal-length messages that differ only within sixteen consecutive bits have different CRCs |
| `Crc.ResidueIff` | audio_test/gen_test_wav.py:31-32 | message plus check sequence reaches the fixed residue if and only if the sequence is the message's CRC |
| `Crc.ResidueWord` | audio_test/gen_test_wav.py:5-11 | that residue is 0xF0B8 |
| `Hdlc.Encode` | audio_test/gen_test_wav.py:35-52 | the appending loop produces flags, stuffed body, flags |
| `Hdlc.SixOnesOnlyInFlags` | audio_test/gen_test_wav.py:35-52 | six 1s in a row start exactly at the second bit of a flag, also across the boundaries |
| `Hdlc.StuffingBound` | audio_test/gen_test_wav.py:40-50 | stuffing adds at most one bit in five |
| `Hdlc.EstimateCoversStuffing` | main/aprs_service.c:172-176 | the 20 percent allowance of the airtime estimate covers any frame body |
| `Hdlc.EstimateCoversFrame` | main/aprs_service.c:555-561 | the estimate covers TXDelay, the stuffed frame between its flags and TXTail for every frame at most six bytes longer than its text |
| `Hdlc.FramingRoundTrip` | audio_test/gen_test_wav.py:35-52 | with a flag at either end a bit-serial receiver gets exactly the frame's bits |
| `Hdlc.PackBits` | audio_test/gen_test_wav.py:42-44 | packing low bit first undoes the bit order |
| `Hdlc.NrziRoundTrip` | audio_test/gen_test_wav.py:60-62 | undoing the toggle gives the bits back |
| `Hdlc.Afsk` | audio_test/gen_test_wav.py:54-68 | every bit sounds its tone for the samples the accumulator gives it |
| `Hdlc.FirstSamplesDecode` | audio_test/gen_test_wav.py:54-68 | with at least one sample a bit, the first sample of each bit suffices to decode |
| `Ax25Frame.EncodeAddresses` | audio_test/gen_test_wav.py:13-30 | succeeds exactly when every byte fits, with the last address marked |
| `Ax25Frame.BuildFrame` | audio_test/gen_test_wav.py:24-33 | succeeds exactly when every address can be encoded, and then gives addresses, control, protocol, information and check sequence |
| `Ax25Frame.AddressRoundTrip` | audio_test/gen_test_wav.py:13-22 | callsign, SSID, repeated and last mark come back from the seven bytes |
| `Ax25Frame.AddressesRoundTrip` | audio_test/gen_test_wav.py:24-29 | a whole address field comes back, whatever follows it |
| `Ax25Frame.FrameRoundTrip` | audio_test/gen_test_wav.py:24-33 | a checked frame decodes to its fields |
| `Ax25Frame.FrameRoundTripIff` | audio_test/gen_test_wav.py:13-33 | it does so if and only if every address has at most six characters, no trailing blank and an SSID up to 15 |
| `Ax25Frame.SsidOnAir` | audio_test/gen_test_wav.py:13-22 | of an SSID the air carries the remainder by 16, and 64 and above mark the address as repeated |
| `Ax25Frame.Ssid16BecomesZero` | audio_test/gen_test_wav.py:13-22 | N0CALL-16 is received as N0CALL-0 |
| `Ax25Frame.AddressOnAir` | audio_test/gen_test_wav.py:13-22 | the seven bytes are the padded callsign shifted left and the SSID between last and repeated mark, bit by bit |
| `Ax25Frame.OnAirRoundTrip` | audio_test/gen_test_wav.py:24-52 | fields to transmitted bits and back, through framing, packing and the check sequence |
| `Ax25Frame.OverheadCoversIff` | main/aprs_service.c:165-170 | the eight bytes added to the text make up for the frame's own exactly when the addresses take nearly six characters each in the text |
| `Ax25Frame.EstimateCoversAir` | main/aprs_service.c:543-561 | where they do, the estimate covers the frame's time on the air at every baud rate |
| `Ax25Frame.ShortCallsUnderbooked` | main/aprs_service.c:543-561 | a frame from A to B takes longer than is booked for it |
| `CivilDate.ClosedFormIsNaiveCount` | main/aprs_filter.c:1083-1091 | the era arithmetic equals counting days month by month from 1970, for every year and month |
| `CivilDate.UtcFromFields` | main/aprs_filter.c:1098-1110 | the folding loops terminate, keep 12 * year + month, and the result is the counted date |
| `CivilDate.NextDayAddsOne` | main/aprs_filter.c:1083-1091 | the day number grows by one a day across months, leap days and years |
| `CivilDate.CountedDay` | main/aprs_filter.c:1083-1091 | counting n days on from 1 January 1970 gives day number n |
| `CivilDate.DayNumberInjective` | main/aprs_filter.c:1083-1091 | no two dates share a day number |
| `Timestamp.HmsWindow` | main/aprs_filter.c:1119-1187 | the time-of-day form is the stated time of the clock's own day if that is at most 12 h ahead, else of the day before, so it lands in (now - 24 h, now + 12 h] |
| `Timestamp.MonthDayWindow` | main/aprs_filter.c:1119-1219 | the month/day form is the stated instant of the clock's own year if that is at most 12 h ahead, else of the year before, and never goes back more than 366 days |
| `Timestamp.DayOnlyPeriod` | main/aprs_filter.c:1119-1146 | the day-only form is the stated day and time of the clock's own month if that is at most 12 h ahead, else of the month before |
| `Timestamp.DayOnlyWindow` | main/aprs_filter.c:1119-1173 | the day-only form stays between 31 days back and 3 days ahead, and exceeds 12 h ahead exactly when the previous month lacks the day and the days it lacks, carried into this month, reach that far |
| `Timestamp.DayOnlyOvershoots` | main/aprs_filter.c:1163-1173 | on 1 March 2021 the stamp 312359z reads as 3 March 23:59 |
| `Timestamp.StampWindow` | main/aprs_filter.c:1152-1193 | every accepted seven-byte stamp in UTC resolves within (-31 days, +3 days), and to 0 while the clock is unset |
| `Timestamp.MdhmWindow` | main/aprs_filter.c:1198-1219 | every accepted eight-digit stamp resolves to the last 366 days or the next 12 hours |
| `Timestamp.StampReads` | main/aprs_filter.c:1152-1193 | for every six digits and mark, which stamps are accepted and which instant each names; local time is never converted |
| `Timestamp.MdhmReads` | main/aprs_filter.c:1198-1219 | the same for the eight digits |
| `Minutes.SplitRounds` | main/include/aprs_minutes.h:107-132 | the split is the coordinate rounded to the nearest thousandth of a minute, carry included |
| `Minutes.SplitBounded` | main/include/aprs_minutes.h:107-132 | rounding never carries past the limit of the coordinate |
| `Minutes.BlankMinuteDigits` | main/aprs_coord.c:65-71 | exactly the listed minute digits are blanked in place |
| `Minutes.FormatAmbiguous` | main/aprs_coord.c:73-106 | both fields of any coordinates, cut to their fixed width, with the ambiguity clamped to 4 |
| `Minutes.ParseAmbiguousMinutes` | main/aprs_filter.c:749-791 | the loops accept exactly the fields whose blanks trail, and give the centre of the box |
| `Minutes.CentreOfBlanked` | main/aprs_filter.c:771-791 | decoding a blanked field gives the exact centre of the box around the transmitted hundredths |
| `Minutes.CentreError` | main/aprs_filter.c:740-791 | the centre is within half the box, exact at level 0, and the boxes nest |
| `Minutes.DecodedLayout` | main/aprs_filter.c:799-843 | whatever decodes has digits for its degrees, minutes with at most a tail of blanks, and hemisphere letters |
| `Minutes.AmbiguityRoundTrip` | main/aprs_coord.c:73-106 | for every coordinate and level the receiver gets the centre on the right side of zero, or refuses exactly at a blanked pole or antimeridian |
| `Minutes.ParseDao` | main/aprs_dao.c:91-123 | the scan finds the first well-formed token |
| `Minutes.DaoInFinds` | main/aprs_dao.c:91-123 | a token with no valid one before it is the one that is read |
| `Minutes.TokenValue` | main/aprs_dao.c:62-89 | a capital datum adds thousandths of a minute, a small one 91sts of a hundredth, latitude first |
| `Minutes.TokenIff` | main/aprs_dao.c:91-123 | which five bytes are a token: digits or blanks under a capital datum, base-91 bytes or blanks under a small one |
| `Minutes.NoMarkInExtension` | main/aprs_filter.c:1001-1075 | no data extension holds a '!', so skipping it never skips into a token |
| `Minutes.PhgLength` | main/aprs_filter.c:1001-1075 | a power/height/gain group takes seven characters, nine with a beacon rate, or is none |
| `Minutes.CourseLength` | main/aprs_filter.c:1001-1075 | a course and speed takes seven, fifteen with a bearing |
| `Minutes.DaoRoundTripIff` | main/aprs_filter.c:1249-1301 | whatever data extension and text stand around the token, field and token together give the measurement back to the thousandth of a minute if and only if neither axis is a zero field south or west of zero |
| `Minutes.LostHemisphereFlips` | main/aprs_filter.c:1254-1255 | there the result is the measurement with its sign turned |
| `Minutes.EquatorFlips` | main/aprs_dao.c:36-51 | five thousandths of a minute south of the equator is such a place |
| `Base91.Encode4` | main/aprs_coord.c:157-171 | the nested loop writes the clamped value's four digits |
| `Base91.Decode4` | main/aprs_filter.c:720-729 | the loop reads a value exactly when all four bytes are digits |
| `Base91.DecodeEncode` | main/aprs_coord.c:157-171 | decoding undoes encoding on 0 to 91^4 - 1 |
| `Base91.EncodeDecode` | main/aprs_filter.c:711-729 | encoding undoes decoding on every four digits |
| `Base91.InRangeUnclamped` | main/aprs_coord.c:193-238 | no coordinate in range reaches the clamp |
| `Base91.OverlaySurvives` | main/aprs_coord.c:183-191 | the transmitted table byte is never a digit and every valid table is recovered |
| `Base91.FormatCompressed` | main/aprs_coord.c:193-238 | the 13-byte field, cut to the caller's buffer |
| `Base91.CompressedRoundTrip` | main/aprs_filter.c:848-860 | every coordinate comes back within half a quantisation step, in the layout its first byte announces |
| `Base91.WorkedExample` | main/aprs_filter.c:848-860 | the specification's worked example, 49 30 N and 72 45 W, reads as it should |
| `Classifier.LatePositionOffset` | main/aprs_filter.c:200-211 | the scan loop |
| `Classifier.LateFromFirst` | main/aprs_filter.c:146-211 | it finds the first '!' in characters 2 to 40 that a complete field follows, and nothing else |
| `Classifier.ItemMarkFirst` | main/aprs_filter.c:325-334 | an item's name ends at the first '!' or '_' at index 4 to 10, and without one there the field is no item |
| `Classifier.DecodedIsClassified` | main/aprs_filter.c:1301-1418 | whatever decodes is classified, as a kind that has a position unless the position came from a late '!' |
| `Classifier.KindOfDti` | main/aprs_filter.c:218-413 | third-party and test data have no kind, and query and message are decided by the first byte |
| `Classifier.AcceptedDecodesIff` | main/aprs_filter.c:799-843 | an accepted uncompressed field decodes if and only if no fraction is blank-then-digit and the coordinate is within 90 and 180 degrees, and then to what its digits and hemispheres name, latitude first |
| `Classifier.AcceptedBounds` | main/aprs_filter.c:146-183 | an accepted field is at most the hundred minutes its digits can spell beyond a pole or the antimeridian |
| `Classifier.AcceptedCompressedDecodes` | main/aprs_filter.c:848-860 | an accepted compressed field always decodes |
| `Classifier.ClassifiedButUndecodable` | main/aprs_filter.c:1406-1415 | a frame classified as a position that does not decode |
| `Reports.ReportedPosition` | main/aprs_filter.c:1301-1418 | plain, timestamped, as an object, as an item or behind a late '!', the field and the timestamp are read from their own start |
| `Reports.PositionReported` | main/aprs_filter.c:840-841 | for every coordinate, level and carrier the report gives the centre of the box in degrees, latitude first, or no position at a blanked pole or antimeridian |
| `Reports.MeasurementReportedIff` | main/aprs_filter.c:1249-1299 | with the `!DAO!` token it gives the measurement itself if and only if neither axis loses its hemisphere |
| `Reports.CompressedReported` | main/aprs_filter.c:848-860 | a compressed position is reported within half a quantisation step, latitude first |
| `Reports.PositionKind` | main/aprs_filter.c:50-82 | a sent position counts as weather or buoy by its symbol, else as position, object or item by its carrier |
| `Reports.CompressedKind` | main/aprs_filter.c:50-82 | and so does a compressed one |
| `Reports.SentAcceptedIff` | main/aprs_filter.c:146-186 | the late-'!' scan accepts a sent field exactly with a valid symbol and at most two digits blanked |
| `Reports.CompressedAcceptedIff` | main/aprs_filter.c:186-196 | and a compressed one exactly with a valid code and no, a blank or a printable course/speed token |
| `Reports.KindByIdentifier` | main/aprs_filter.c:218-413 | which first bytes make a message, telemetry, status, query or other packet, in both directions |
| `Reports.MicEKind` | main/aprs_filter.c:335-351 | Mic-E keeps its symbol code before its table |
| `FollowUpRing.Ring.RememberCall` | main/aprs_service.c:1188-1207 | the slots stay a bounded first-in first-out list of distinct callsigns |
| `FollowUpRing.Ring.FindCall` | main/aprs_service.c:1210-1219 | finds the station's place, or -1 exactly when it is not listed |
| `FollowUpRing.Ring.TakeCall` | main/aprs_service.c:1224-1232 | grants exactly the listed stations and removes the one granted |
| `FollowUpRing.Ring.Pending` | main/aprs_service.c:1239-1241 | predicts the next claim |
| `FollowUpRing.TakeRemovesOne` | main/aprs_service.c:1224-1232 | a claim removes that station and no other |
| `Text.SameCallIff` | main/aprs_service.c:1192-1194 | callsigns compare character by character, whatever the case of a letter |
| `FollowUpRing.RingHoldsLatest` | main/aprs_service.c:1182-1207 | after any notes of different stations the ring holds the latest of them in the order they came |
| `FollowUpRing.GrantedAtMostMessages` | main/aprs_service.c:1182-1241 | over any run, claims granted to a station plus the one it is owed never exceed the messages noted for it |
| `RateLimiter.Limiter.Allow` | main/aprs_service.c:1268-1300 | the scanning loop's decision; off or without a callsign it allows and changes nothing |
| `RateLimiter.RefusedIff` | main/aprs_service.c:1286-1291 | a source with a slot is refused if and only if the slot's age modulo 2^32 is inside the interval or at least 2^31 |
| `RateLimiter.StaleSourceRefused` | main/aprs_service.c:1286-1291 | the only source a fresh ring has gated is refused 2^31 ticks later |
| `RateLimiter.StepKeepsWellFormed` | main/aprs_service.c:1268-1300 | one request keeps slots distinct ignoring case, free slots at the end and stamps those of the last gating, at any tick and under any interval |
| `RateLimiter.RingWellFormed` | main/aprs_service.c:1257-1300 | that holds after every run of requests |
| `RateLimiter.StepKeepsInv` | main/aprs_service.c:1268-1300 | while no slot is 2^31 ticks old, a source that has lost its slot has since been followed by as many others as the ring has slots |
| `RateLimiter.SpacingHolds` | main/aprs_service.c:1257-1300 | under intervals that may change, a source asking again inside its interval gets through only after as many other sources as the ring has slots; after its interval it always does |
| `RateLimiter.YoungClockRuns` | main/aprs_service.c:1257-1300 | in the first 2^31 ticks every run on a forward clock meets what the spacing assumes |
| `RateLimiter.GrantMarksRing` | main/aprs_service.c:1286-1300 | a request is granted if and only if it changes the ring |
| `ThirdParty.IsLegalCall` | main/aprs_service.c:1488-1514 | accepts exactly one to nine upper-case letters or digits with an optional SSID 0 to 15 |
| `GatewayReading.LegalBuilt` | main/aprs_service.c:1488-1514 | one to nine capitals and digits are legal by themselves and with an SSID exactly up to 15 |
| `ThirdParty.BuildThirdPartyFrame` | main/aprs_service.c:1516-1591 | returns the whole frame and its length exactly when the line can be wrapped and fits, never a cut one |
| `ThirdParty.WrapRoundTripIff` | main/aprs_service.c:1576-1591 | for every line that can be wrapped, the frame carries source, destination and information field byte for byte if and only if neither own call nor path holds a ':' |
| `ThirdParty.UnwrapOpens` | main/aprs_service.c:1576-1583 | whether a receiver finds a packet at all depends on own call and path alone |
| `ThirdParty.HeadersOnAir` | main/aprs_service.c:1576-1591 | the frame goes from the gateway to APE32I along the configured path, and its packet is marked as relayed from the Internet by the gateway |
| `GatewayReading.OwnCallReads` | main/aprs_service.c:1571-1576 | the gateway's address is its call, with the SSID written out unless it is 0 |
| `GatewayRules.HeaderForbidsRf` | main/aprs_service.c:1382-1393 | the search forbids exactly the lines with one of the five tokens inside the header |
| `GatewayReading.TokenForbids` | main/aprs_service.c:1382-1393 | a header with any of the five tokens anywhere in it forbids the line |
| `GatewayReading.InfoForbidsNothing` | main/aprs_service.c:1382-1393 | and the information field has no say in it |
| `GatewayRules.MessageAddressee` | main/aprs_service.c:1307-1319 | the nine-character addressee without its padding, or nothing when the field is not a message |
| `GatewayReading.AddresseeBack` | main/aprs_service.c:1307-1319 | the addressee is what was padded to nine characters |
| `GatewayRules.AddresseeIsBroadcast` | main/aprs_service.c:1332-1346 | exactly bulletins, announcements and the three weather service families |
| `GatewayReading.BroadcastIff` | main/aprs_service.c:1332-1346 | bulletins and announcements by their fourth character, weather families by their first three, and nobody else |
| `GatewayRules.LineIsBroadcastMessage` | main/aprs_service.c:1353-1361 | exactly the messages to such an addressee |
| `GatewayRules.IsOwnReport` | main/aprs_service.c:1086-1151 | exactly the lines whose source, SSID ignored, is one of the station's own non-blank calls |
| `GatewayRules.BudlistContains` | main/aprs_filter.c:1706-1748 | exactly the calls whose base, up to nine characters, is a non-blank entry, ignoring case |
| `GatewayRules.BudlistIgnoresSsid` | main/aprs_filter.c:1726-1755 | every SSID of a station gets the same answer |
| `Gateway.Handler.Handle` | main/aprs_service.c:1640-2046 | one line, through every gate in order, moves the rings and hands over a frame as the step function says |
| `GatewaySafety.HandedIsLegitimate` | main/aprs_service.c:1640-2023 | every frame handed to the transmitter comes from a foreign line without a forbidding token, carries that line or a whitelisted station's packet from inside it that is neither broadcast nor third-party, passes the filter unless owed, and reads back byte for byte exactly when own call and path hold no ':' |
| `GatewaySafety.OnlyDeliverableMessages` | main/aprs_service.c:1399-1447 | under the message gate a message goes out only to an addressee heard near enough and not on the Internet, Winlink replies excepted, and never for a sender heard on RF |
| `GatewaySafety.OnlyPlacedTraffic` | main/aprs_service.c:1936-1945 | with position required, or on BrandMeister traffic, it is a message, an owed follow-up, or says where it is |
| `GatewaySafety.QueryReachesAirIff` | main/aprs_service.c:1672-2012 | a generic query is handed over if and only if an unbarred line in range wraps one of a whitelisted station, the unwrap and the query bit are on, and position, heard-only, spacing and frame length let it pass |
| `GatewaySafety.QueryLineReachesAir` | main/aprs_service.c:1848-1880 | one line and one configuration for which it does |
| `GatewaySafety.ThirdPartyRefused` | main/aprs_filter.c:376-397 | third-party traffic goes nowhere while the unwrap is off |
| `GatewaySafety.FedBackFrameRefused` | main/aprs_service.c:1549-1591 | a frame in which a receiver finds a packet, fed back to any gateway with the unwrap off, is never sent again and changes no ring |
| `GatewaySafety.SentOnIff` | main/aprs_service.c:1640-2023 | a gateway with the unwrap off that sends a given line exists if and only if the line is no query, broadcast or forbidden one, has a kind, can be wrapped, and fits |
| `GatewaySafety.ColonPathSentOn` | main/aprs_service.c:1576-1583 | a status report, a path preset holding a ':' and a next gateway with the unwrap off that sends the frame on |
| `GatewaySafety.OwnFrameKnownIff` | main/aprs_service.c:1086-1151 | a gateway recognises its own frames if and only if its call is not blank and holds neither '-' nor '>', or what precedes the first of these is another call of the station |
| `GatewaySafety.OwnFrameRefused` | main/aprs_service.c:1122-1151 | fed back to its own gateway a frame that is recognised is never sent again under any setting |
| `GatewaySafety.OwnFrameUnchanged` | main/aprs_service.c:1549-1591 | when the gateway does send its own frame again, it is byte for byte the same frame |
| `GatewaySafety.OwnFrameSentAgain` | main/aprs_service.c:1122-1151 | a gateway named ME-1 that relays a status report and then its own frame |
| `GatewayDelivery.HandedExactly` | main/aprs_service.c:1640-2023 | a packet is handed over if and only if every gate, spelled out one by one, lets it pass |
| `GatewayDelivery.RangeHolds` | main/aprs_service.c:1789-1812 | with the range gate on nothing from beyond the radius goes out, a follow-up excepted |
| `GatewayDelivery.BudlistHolds` | main/aprs_service.c:1889-1934 | no station on a blacklist goes out, and with a whitelist no other |
| `GatewayDelivery.WinlinkReplyHanded` | main/aprs_service.c:1399-1447 | a message to a station that is also on the Internet goes out if and only if it is an exempt Winlink reply |
| `GatewayDelivery.OwedReportHanded` | main/aprs_service.c:1755-1812 | an owed station's position goes out whatever filter, range, position, heard-on-RF and spacing gates say |
| `GatewayDelivery.MessageEarnsFollowUp` | main/aprs_service.c:2034-2046 | so a message that was sent lets its addressee's next position through |
| `GatewayRuns.StepRing` | main/aprs_service.c:1979-1991 | the spacing slot is claimed by exactly the lines that reach the limiter, whether or not the transmitter then takes the frame |
| `GatewayRuns.ClaimAlwaysSpent` | main/aprs_service.c:1755-1768 | a position of an owed station spends its claim whatever becomes of the line |
| `GatewayRuns.StepBalance` | main/aprs_service.c:1764-1768 | one line spends no follow-up that a message has not earned |
| `GatewayRuns.FollowUpsEarned` | main/aprs_service.c:1764-2044 | over any run, follow-ups sent for a station plus the one owed never exceed the messages sent to it plus what it was owed at the start |
| `GatewayRuns.FollowUpsAtMostMessages` | main/aprs_service.c:1764-2044 | from an empty ring, follow-ups never outnumber messages |
| `GatewayRuns.RingFollowsRequests` | main/aprs_service.c:1987-1991 | the spacing ring is the limiter's ring after the run's claims; exempt traffic leaves no trace in it |
| `GatewayRuns.RingStaysWellFormed` | main/aprs_service.c:1268-1991 | whatever the gateway is fed, free slots stay at the end and no source has two |
| `GatewayRuns.SpacingOnAir` | main/aprs_service.c:1268-1991 | a source's next frame inside the interval is on the air only after as many other sources as the ring has slots, whatever intervals were set in between |
| `GatewayRuns.RefusedFrameSpendsSlotIff` | main/aprs_service.c:1979-1991 | a frame the transmitter refuses leaves the ring as it was if and only if the limiter was not asked |
| `GatewayRuns.RefusedFrameDelaysNext` | main/aprs_service.c:1979-1991 | otherwise the source's next line inside the interval is refused, although nothing of it was on the air |
| `GatewayRuns.RefusedStatusDelaysNext` | main/aprs_service.c:1979-1991 | so it is for two status reports at a gateway just started, with a transmitter that refuses |
| `ConfigMutex.StepKeepsInv` | main/app_config.c:87-111 | every instruction of every task keeps the invariant on handles, owners and candidates |
| `ConfigMutex.OneMutexForAll` | main/app_config.c:87-111 | in every interleaving all callers get the one published mutex, it is never freed, and a caller gets none only if its own allocation failed |
| `ConfigMutex.NoMutexLeaks` | main/app_config.c:87-111 | when all calls are back every other mutex has been freed exactly once |
| `JsonText.DocBack` | main/include/json_escape.h:190-228 | a strict parser gets every written document back member by member |
| `JsonText.BodyBack` | main/include/json_escape.h:190-228 | an escaped text ends at its own closing quote and holds no raw control character |
| `JsonWriter.Writer.WriteEscaped` | main/include/json_escape.h:190-228 | the loop writes the quoted escape of the text |
| `JsonWriter.Writer.Key` | main/app_config.c:630-636 | the comma is written exactly when a member precedes |
| `JsonWriter.Writer.Add` | main/app_config.c:640-651 | one scalar member is appended to the object |
| `JsonWriter.Writer.ArrBegin` | main/app_config.c:655-659 | an empty array is opened behind its key |
| `JsonWriter.Writer.ArrAdd` | main/app_config.c:663-680 | one item is appended to the open array |
| `JsonWriter.Writer.ArrEnd` | main/app_config.c:660-662 | the open array becomes a member |
| `JsonWriter.Writer.End` | main/app_config.c:731-743 | the text is the document of exactly the members written, and parses as them |
| `ConfigFields.KeysDiffer` | main/app_config.c:788-1019 | no two settings share a key |
| `ConfigReaders.TruncatesTowardZero` | main/app_config.c:1155-1199 | a number with a fraction is cast to the integer next to it towards zero |
| `ConfigReaders.BoundThenCast` | main/app_config.c:694-704 | bounding a number and then casting it is the same as casting it and then bounding |
| `ConfigReaders.ApplyLands` | main/app_config.c:1155-1199 | whatever the number and whatever the C cast makes of it, the field ends in range; a number in range is kept |
| `ConfigReaders.OutOfRangeLands` | main/app_config.c:1155-1199 | a number out of range goes to the bound it is beyond, to the rule's fallback, to the next odd number, or round the circle |
| `ConfigReaders.NearestLands` | main/app_config.c:1155-1199 | no allowed number is nearer than the one a bounding rule takes |
| `ConfigReaders.CopyStripped` | main/app_config.c:168-170 | the copied string has no line breaks and fits its buffer |
| `ConfigReaders.StripJoins` | main/app_config.c:168-170 | stripping drops the line breaks and keeps everything else in order |
| `ConfigReaders.StoredIsPrefix` | main/app_config.c:168-170 | what is stored is as much of that as the buffer holds |
| `ConfigReaders.Folded` | main/app_config.c:1140-1150 | a symbol ends valid, a valid text is taken as it is, and an empty text keeps the code it had |
| `ConfigReaders.ReadNormalises` | main/app_config.c:1320-1772 | any document leaves a field in range - number, text, symbol or list -, a value in range is taken as it is, and one of the wrong type leaves the field alone |
| `ConfigStore.Store.WriteSection` | main/app_config.c:788-1020 | the text parses as the section's document |
| `ConfigStore.Store.Save` | main/app_config.c:1939-1998 | without the save mutex nothing is written; with it every selected section is attempted, others are untouched, and success means all were written |
| `ConfigStore.Store.LoadSection` | main/app_config.c:2022-2041 | reads the section's fields one by one, or leaves them alone and says whether memory ran out |
| `ConfigLaws.LoadedSpeeds` | main/app_config.c:1764-1767 | a high-speed threshold below the low one is loaded as the low one, when the tracker file was read |
| `ConfigStore.Store.Load` | main/app_config.c:2043-2093 | defaults, then every section in order; with memory short anywhere no file is written, otherwise exactly the unusable ones are, if the save mutex can be had |
| `ConfigLaws.FactoryIsGood` | main/app_config.c:194-531 | the factory defaults are in range, with the monitor off and the speed thresholds ordered |
| `ConfigLaws.LoadedField` | main/app_config.c:2043-2093 | a loaded field depends on its own file and its default only |
| `ConfigLaws.LoadedMonitor` | main/app_config.c:1599-1611 | the monitor flag is withdrawn exactly when the gating just loaded leaves INET->RF ungated |
| `ConfigLaws.LoadNormalises` | main/app_config.c:1320-2093 | whatever the files hold, a load leaves every field in range, the thresholds ordered and the interlock true |
| `ConfigLaws.LoadOfSaved` | main/app_config.c:788-2093 | saving everything and loading it gives the same configuration from any defaults |
| `ConfigLaws.LoadIsStable` | main/app_config.c:2043-2093 | a completed load leaves files that load to the same configuration with nothing left to create |
| `ConfigLaws.LimitedIff` | main/app_config.c:1599-1611 | a load leaves the monitor without a range limit on INET->RF if and only if files and defaults turn monitor, gating and range gate on and give the radius as 0 |
| `ConfigLaws.ZeroRadiusLoads` | main/app_config.c:1599-1611 | two files that load, over the factory defaults, to such a configuration |
| `PathClamp.HopCount` | main/app_config.c:2117-2125 | the true hop count modulo 256 |
| `PathClamp.MaskClamp` | main/app_config.c:2127-2159 | the greedy loop keeps the selection, or its kept slots |
| `PathClamp.KeepIsPrefix` | main/app_config.c:2138-2158 | what is kept is the longest low-bit-first part of the selection that fits |
| `PathClamp.ClampWithinBudgetIff` | main/app_config.c:2127-2159 | the result is within eight hops if and only if the true count is not 256 to 264 |
| `PathClamp.WrapKeepsAll` | main/app_config.c:2127-2129 | four presets of 64 hops are all kept |
| `PathClamp.BuildSuffix` | main/include/aprs_path.h:99-132 | the path text, cut to the buffer, and whether all of it made it |
| `PathClamp.SuffixWithinLimit` | main/include/aprs_path.h:109-129 | never more than eight vias, wrapped count or not |
| `PathClamp.ClampKeepsPath` | main/app_config.c:2127-2159 | saving through the clamp never changes the path that goes on the air |

## Left out

- Mic-E and NMEA decoding, the data-extension, altitude and compressed course/speed fields, and the symbol lookup tables: the first two enter as arbitrary results; of a data extension only its length is modelled, the others only decorate a report.
- Rounding of C floats in the position code: coordinates are reals and exact counts of minutes.
- Digipeating, APRS-IS sockets, message retry, Winlink, Telegram, query and weather services, the last-heard table: arbitrary answers to the gateway's questions.
- The drop counters and log lines of the gateway, and the calls it makes before its own gates (last-heard, message, query).
- The modem's signal processing, ADC/DAC and PTT hardware, the level and loop-test diagnostics text.
- The remaining configuration sections, and those fields of the five modelled ones that are stored as they come, limited only by their C type or buffer (switches, filter masks, intervals, coordinates, comments and the like).
- Fractions that C prints with an exponent (below 0.0001), nested values under a setting's key, and the rounding of a distance to a C float. File rename. The save mutex enters as whether it can be had; how it is created is `ConfigMutex`.
- Cosine samples and the WAV container of the audio tool.
- Ax25Frame.BuildFrame: takes callsign, SSID and repeated mark already separated; Python's splitting and integer parsing of the call text are not modelled.
- DutyCycle.Accumulator.Advance: for clock readings after boot whose number of elapsed buckets fits 32 bits.
- DutyGate.CeilingHolds: for checks that read the true percentage, which DutyGate.WrapBreaksCeiling shows is needed and DutyGate.CeilingHoldsForFewFrames gives for up to 3241 frames.
- LoopTest.TransmitterIsExclusive: assumes that the modem's reconfiguration waits until the transmitter is idle. The settings page is not applied inside a LOOP TEST, since both are served by the one HTTP task.
- RateLimiter.SpacingHolds: for a clock that runs forward and slots used within the last 2^31 ticks, which RateLimiter.StaleSourceRefused shows is needed and RateLimiter.YoungClockRuns gives for the first 2^31 ticks.
- GatewayRuns.SpacingOnAir: under the same two conditions.
- GatewaySafety.FedBackFrameRefused: for frames in which a receiver finds a packet; GatewaySafety.SentOnIff says which of the others are sent on.
- GatewaySafety.OwnFrameRefused: for a gateway that knows itself, which GatewaySafety.OwnFrameKnownIff and GatewaySafety.OwnFrameSentAgain show is needed.
- GatewaySafety.OwnFrameUnchanged: for an own call and path without ':', since otherwise the frame does not carry the packet.
- Minutes.DaoRoundTripIff: when no valid token precedes the built one.
- ConfigFields.KeysDiffer: for the keys of the modelled fields.
- ConfigStore.Store.WriteSection: the document lists the modelled fields of the section.
- ConfigReaders.ReadNormalises: for numbers, texts, switches, nulls and arrays of them, not for objects inside a section.
- ConfigLaws.LoadNormalises: for the modelled fields of the five sections.
- ConfigLaws.LoadOfSaved: for the modelled fields of the five sections.
- Reports.PositionReported: for a comment without a valid `!DAO!` token; Reports.MeasurementReportedIff is for the one the station builds.
- LoopTest.FirstInFirstOut: for runs in which the modem neither times out nor rebuilds its receive chain, which drop the ring.
