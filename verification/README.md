# ParadoxEvoMQTT, modelled and verified in Dafny

The bridge reads lines from a Paradox PRT3 module over a serial port, keeps a record of
every area and zone of the alarm panel, and mirrors them to MQTT; commands travel the other
way.  This project models the four stateful parts of the program and proves what holds of
them in every run and under every schedule of its threads.

Verify everything with `dafny verify dfyconfig.toml`.

## How it is built

- `CText` is C's view of text: strings up to their first NUL, `strtol` with white space,
  sign, saturation and the conversion to `int`, and the `%d` and `%0wd` conversions.
- `Framing` states the serial framing rules and their laws; `SerialPort` is the thread's
  buffers and the two branches of its loop.
- `Records`, `PanelSpec` say what a line of the panel means, one record at a time.
  `PanelRecords` and `PanelManager` are the manager itself: records updated in place by one
  setter a field, tables of nullable records, queues.  Every handler is proved to do what
  `PanelSpec` says, whatever the sharing of records and label buffers.
- `FrameLaws` says what each line makes of the tables, byte by byte and field by field, in
  literal values and without `PanelSpec`'s operations; the laws of the same kind for the other
  parts are `Framing.LineRead`, `Dialogue.AreaControlled`, `BridgeLaws.MainTopicSays`,
  `Json.AreaJsonSpelled`, `Topics.TopicsSpelled` and `Configuration.PrintedExample`.
- `Runs`, `Changes`, `AreaLaws`, `ZoneLaws`, `PanelLaws` are the laws of whole runs of the
  manager; `Sequences` is what they need of sequences; `Wire` prints the panel's lines and reads them back.  `LabelSpill` is about the
  one store that leaves its field.
- `Topics`, `Json`, `Mirror` are the MQTT side: topics and JSON as the bytes that are
  published, and the calls made on the client; `Requests` the texts written to the panel.
- `Bridge` joins the parts by FIFO queues into one transition system, `BridgeLaws` and
  `Dialogue` say what holds in every state it can reach.
- `Configuration` goes from the launcher's file to the manager's tables.

`PanelSpec.Decode` names, for each frame, the one zone and the one area it touches and the
operations it does on each, without looking at any record.  That the C handlers factor this
way is the content of `PanelManager` and `Runs.AreaProjects`; from it come isolation,
commutation, and the lifting of every single-record law to whole runs.

A frame the C code cannot process without reading past its end, trimming a label past its
beginning or following a null entry is not `Safe`.  (Every accepted label makes the C code
store one terminator past the label's field; that store has a byte of its own here, and is
not what `Safe` is about.)  The manager's handlers require `Safe` and nothing more.  On unsafe frames the
specification gives a total answer (an absent record is not touched), so the laws of runs
need no such condition, but for those frames they say nothing about the program.

## What does not hold, and exactly when

- How a stream is cut into reads does matter when something follows a NUL or an
  overflowing byte: `ChunkingExactly` has the exact condition over all reads the buffer
  allows, `ReadMayBeCut` over the ways to cut one read.
- The JSON of a record is published up to its first field that was never set, since `%c`
  prints a NUL for it.  What can be read off an area's topic is exactly the fields before
  that one (`AreaMirror`), and it tells the record exactly when a status response for the
  area has been accepted (`AreaJsonTells`; `ZoneJsonTells` for zones).  Area 8 and zone 96
  are never accepted, so area 8's JSON never reaches its alarm and zone 96's never its
  supervision (`LastOnesNeverWhole`); an alarm before the first response is in no JSON at
  all (`AlarmNotInJson`).
- The derived area state is not covered by the dirty flag.  An alarm first seen in a zone's
  response is reported with the old state; the next event puts the state right and, if no
  field changes with it, tells nobody: `UnseenAlarm` gives such a run for every accepted
  area and zone, `CoherenceOverRuns`, `ShownLags` and `MainTopicLags` the exact conditions;
  without such a response nothing lags (`MainTopicCurrent`).
- Responses are compared with the table sizes by `<`, so those of area 8 and zone 96 are
  ignored while events accept area 8: an alarm of area 8 never ends
  (`AreaEightStaysInAlarm`).
- Topics stay distinct up to a base topic of 238 bytes and no further (`DistinctExactly`);
  a control topic is parsed back for one-digit areas only (`ControlTopicParses`); a user
  code of more than six bytes is cut (`CodeFits`).
- An area with an empty zone list takes whatever is printed after it for its zones and the
  daemon refuses to start; only as the last of several areas, with no user code and no
  status period after it, is it configured as given.  `ConfiguredExactly` says for every
  file when the daemon starts with exactly the file's areas and zones.
- A zone response in alarm puts its area in alarm only if the area's alarm field says OK
  (or alarm already): `ZoneAlarmRaises`.  Before an area's first accepted status response
  the field is empty and such responses change nothing (`ZoneAlarmIgnored`); for area 8
  they never do (`AreaEightIgnoresZones`).
- With the usual layout of an area's record, a label kept while the area's status is set
  clears the status and tells nobody.  `StatusLost` gives two processable frames for every
  accepted area after which the record has no status while its JSON goes on showing one;
  `FramesHarmlessExactly` says for which runs of frames the label's terminator changes
  nothing, `SpillUnseen` what it does otherwise.
- A base topic of 249 bytes or more cuts the control topics down to the bare prefix, which
  the callback cannot take apart (`NeverThePrefix`).

## Model

The setters and the handlers made of them have contracts of their own; the rows name the
members that state a result.

| member | source | states |
|---|---|---|
| CText.PaddedRoundTrip | src/para_mgr.c:851-861 | the `strtol` reader gives back every number the zero-padded printer wrote, for every width |
| CText.SignedReadBack | src/main.c:216 | `strtol` into an `int` reads back any printed integer, up to saturation and wrap-around, which it states |
| CText.SignedCancel | src/mqtt_mgr.c:18-39 | a printed integer is delimited by whatever non-digit follows it, so it can be read off a topic |
| Framing.SplitSound | src/para_serial.c:134-148 | cutting at CR yields CR-free pieces that, with their CRs put back, are the stream |
| Framing.LineRead | src/para_serial.c:134-160 | a line of at most 30 bytes that a CR ends is sent as it is; a longer one ends the read and leaves nothing |
| Framing.PartRead | src/para_serial.c:149-160 | bytes that no CR ends stay pending while they are at most 30 |
| Framing.NulEndsRead | src/para_serial.c:161-163 | what follows a NUL in a read is ignored |
| Framing.AnyChunking | src/para_serial.c:126-166 | the buffer rules applied to any sequence of reads give the cut at the CRs, while no line exceeds 30 bytes and no NUL occurs |
| Framing.ChunkingIndependence | src/para_serial.c:126-166 | two ways of splitting the same stream into reads cannot be told apart |
| Framing.ChunkingExactly | src/para_serial.c:126-166 | all ways of splitting a stream into reads of 1 to 512 bytes agree exactly when only NULs follow its first NUL or overflowing byte |
| Framing.FrameShape | src/para_serial.c:141-163 | whatever is read, every frame has at most 30 bytes and no CR or NUL |
| Framing.ReadMayBeCut | src/para_serial.c:149-163 | a read may be replaced by any reads of the same bytes exactly when only NULs follow its first NUL or overflowing byte |
| Framing.OverflowForgets | src/para_serial.c:134-160 | a read in which any line overflows sends the lines completed before that and leaves the framer as a fresh one for everything after it |
| Framing.Resynchronises | src/para_serial.c:134-151 | whatever was pending, after its first frame the framer agrees with a fresh one on every frame and on what is pending |
| Framing.WriterFramerRoundTrip | src/para_serial.c:179-188 | requests written with their CRs are framed back unchanged in any chunking |
| SerialPort.Port.ReadBranch | src/para_serial.c:126-171 | the in-place loop adds exactly the frames of `FeedChunk`, keeps the position at most 30 and every byte past it zero |
| SerialPort.Port.WriteBranch | src/para_serial.c:172-200 | a non-empty message is written with one CR after it as far as the device takes it, an empty one not at all |
| PanelRecords.SetLabel | src/para_mgr.c:863-872 | the copy-and-trim loop ends, never before the field, and leaves the trimmed label followed by zeros |
| PanelRecords.LabelNormalised | src/para_mgr.c:863-872 | the label kept is the first 17 bytes without trailing spaces; keeping it again changes nothing |
| PanelManager.Manager.SendAreaReport | src/para_mgr.c:806-828 | a changed record is pushed once and its flags cleared in the table |
| PanelManager.Manager.SendZoneReport | src/para_mgr.c:830-849 | likewise for zones |
| PanelManager.Manager.UpdateZoneRecord | src/para_mgr.c:795-804 | the zone's record and its area's alarm after the response, before either is sent |
| PanelManager.Manager.ProcessEvent | src/para_mgr.c:425-445 | tables and both report queues are what the event means, for every event the code can process |
| PanelManager.Manager.ProcessResponse | src/para_mgr.c:646-730 | the same for every response, accepted or ignored |
| PanelManager.Manager.HandleFrames | src/para_mgr.c:219-238 | the poll loop over any run of frames is the run of the specification |
| FrameLaws.EventOnArea | src/para_mgr.c:476-634 | what each group and number of event makes of each field of an area, in literal bytes, and that every other event leaves it as it is |
| FrameLaws.EventOnZone | src/para_mgr.c:447-551 | likewise for a zone |
| FrameLaws.DisarmAnswered | src/para_mgr.c:659-669 | a disarm acknowledgement sets its area's status to disarmed if it says ok and the area is below 8, and changes nothing otherwise |
| FrameLaws.StatusTaken | src/para_mgr.c:783-793 | a status response puts its bytes 5 to 11 into the fields of its area, below 8, and changes nothing otherwise |
| FrameLaws.ZoneStatusTaken | src/para_mgr.c:795-802 | a zone response puts its bytes 5 to 9 into the fields of its zone, below 96, and changes nothing otherwise |
| FrameLaws.ZoneStatusOnArea | src/para_mgr.c:1051-1060 | of areas, a zone response changes only the zone's own, and of that only an alarm field that said OK |
| FrameLaws.AreaNamed | src/para_mgr.c:650-658 | a label response leaves the first 17 bytes of its text without trailing spaces as the name of its area, below 8, and nothing else changed |
| FrameLaws.ZoneNamed | src/para_mgr.c:712-720 | likewise for a zone below 96 |
| FrameLaws.OtherLines | src/para_mgr.c:646-730 | lines of no other kind change or report anything |
| PanelManager.Manager.ProcessCommand | src/para_mgr.c:732-781 | pushes exactly the requests the command calls for |
| PanelManager.Manager.AreaStatusThread | src/para_mgr.c:321-332 | one status request per configured area, ascending |
| PanelManager.Manager.InitialRequestThread | src/para_mgr.c:291-319 | label and status requests for every configured area, then every configured zone |
| Runs.HandleProjects | src/para_mgr.c:425-730 | one frame changes each record by the operations it names for that record; records it does not name and the configuration stay |
| Runs.AreaProjects | src/para_mgr.c:425-730 | a whole run, seen from one area, is that area's own run: same record, same reports |
| Runs.ZoneProjects | src/para_mgr.c:425-730 | likewise for a zone |
| Runs.RunKeepsConfig | src/para_mgr.c:92-133 | no run adds, drops or renumbers a record or moves a zone to another area |
| Runs.SameOperationsSameOutcome | src/para_mgr.c:425-730 | runs that give every record the same operations end in the same tables with the same reports per record |
| Runs.IndependentFramesCommute | src/para_mgr.c:425-730 | two neighbouring frames with no record in common can be swapped anywhere in a run |
| Changes.Shape | src/para_mgr.c:806-828 | no value sent equals the one before it, and the last one sent is current |
| AreaLaws.ReportsAreChanges | src/para_mgr.c:806-828 | the dirty flag sends the field trace at the send points with its repetitions removed |
| AreaLaws.FirstReportOnce | src/para_mgr.c:825-827 | the first report, and no other, carries the first-report flag |
| AreaLaws.HistoryFromStart | src/para_mgr.c:874-941 | both of these from the zeroed record, with no two neighbouring reports equal |
| AreaLaws.CoherenceStep | src/para_mgr.c:943-973 | one operation makes a coherent area incoherent exactly when it raises an alarm from a zone, and any derivation mends it |
| AreaLaws.CoherenceOverRuns | src/para_mgr.c:1051-1060 | a run ends incoherent exactly when such an alarm came with no derivation after it |
| AreaLaws.AlarmLatched | src/para_mgr.c:943-973 | alarm and triggered survive every operation but an RA response, and every report shows them |
| AreaLaws.EventsKeep | src/para_mgr.c:447-634 | no operation but a status response sets `ready` or the strobe |
| AreaLaws.ShownLags | src/para_mgr.c:806-812 | over a run the state last reported is behind the area's exactly when the state was put right with no field changing then or since |
| AreaLaws.NothingRaised | src/para_mgr.c:1051-1060 | without an alarm raised by a zone response, an area stays coherent and what is shown is its state |
| ZoneLaws.ReportsAreChanges | src/para_mgr.c:830-849 | zone reports are the changes of the zone's fields, each sent once |
| ZoneLaws.ReportsMatch | src/para_mgr.c:1035-1049 | every zone report is off exactly for closed with alarm and fire OK; an unreported zone is untouched or matches |
| ZoneLaws.HistoryFromStart | src/para_mgr.c:975-1049 | both of these from the zeroed record |
| PanelLaws.AreaReportsAreChanges | src/para_mgr.c:806-828 | the reporting laws for every area in every run of the manager |
| PanelLaws.ZoneReportsAreChanges | src/para_mgr.c:830-849 | the reporting laws for every zone in every run |
| PanelLaws.OnlyZoneResponsesRaise | src/para_mgr.c:693-706 | the departing operation comes from an accepted RZ response in alarm for a zone of the area, and only from one |
| PanelLaws.AreaCoherence | src/para_mgr.c:943-973 | the exact condition for coherence at the end of any run; without such a response it always holds |
| PanelLaws.ZoneAlarmRaises | src/para_mgr.c:1051-1060 | a zone response in alarm leaves its area in alarm exactly when the area's alarm field said OK or alarm |
| PanelLaws.ZoneAlarmIgnored | src/para_mgr.c:1055-1058 | after any run without an accepted status response for the area it changes nothing of the area's record |
| PanelLaws.AreaEightIgnoresZones | src/para_mgr.c:681-706 | for area 8 it never does, after any run at all |
| PanelLaws.AlarmLatch | src/para_mgr.c:447-634 | no run without an accepted status response for the area ends its alarm or shows it otherwise |
| PanelLaws.AreaEightStaysInAlarm | src/para_mgr.c:681 | area 8's responses are never accepted, so no run at all ends its alarm |
| PanelLaws.RecordsAreAccepted | src/para_mgr.c:676-690 | a frame overwrites an area's record exactly when it is an accepted status response for it |
| PanelLaws.ResponsesFill | src/para_mgr.c:783-793 | over safe frames, `ready` is unset until a response is accepted, from then on all fields but the strobe are set, and the strobe is that of the last response |
| PanelLaws.ZoneResponsesFill | src/para_mgr.c:795-804 | likewise for a zone, with `supervision` and the battery |
| PanelLaws.StatusMoves | src/para_mgr.c:476-508 | the moves of the status automaton with the frames that make them: exit delay only from disarmed, arming only from disarmed or exit delay, each status entered and stay-armed left only by its own kinds of frame |
| PanelLaws.ExitDelayBegins | src/para_mgr.c:615-620 | in any run that ends in exit delay, the frame at which the status becomes exit delay is a leaving event and came while disarmed |
| PanelLaws.StayArmedEnds | src/para_mgr.c:589-593 | in any run that leaves stay-armed, the frame at which it does is a disarm event, an armed status or a disarm acknowledgement |
| Wire.NumberReadBack | src/para_mgr.c:851-861 | a zero-padded field anywhere in a frame is read back, for every width the number fits |
| Wire.EventReadBack | src/para_mgr.c:427-429 | an event names the group, number and area it was printed from |
| Wire.StatusReadBack | src/para_mgr.c:783-793 | an accepted status response writes exactly the fields it was printed from |
| Wire.ZoneReadBack | src/para_mgr.c:795-804 | an accepted zone response writes its fields and reaches the configured area |
| Wire.UnseenAlarm | src/para_mgr.c:1051-1060 | a concrete run of processable frames after which an area is triggered while its last report says disarmed |
| Wire.AlarmNotInJson | src/mqtt_mgr.c:317-328 | a concrete processable event, for every area and zone, that triggers the area and is reported with a JSON of which no field can be read |
| LabelSpill.HarmlessExactly | src/para_mgr.c:863-865 | with the usual layout of the record a run goes as modelled all along exactly when no label is kept while the status is set |
| LabelSpill.FramesHarmlessExactly | src/para_mgr.c:650-658 | over frames: the area goes as modelled all along a run exactly when no label is accepted for it while its status is set |
| LabelSpill.SpillUnseen | src/para_mgr.c:650-658 | otherwise the status is gone, and nothing is reported until an operation changes a field |
| LabelSpill.StatusLost | src/para_mgr.c:650-658 | a concrete pair of processable frames, for every accepted area, after which the record has lost its status, nothing was reported, and the JSON shows the old fields |
| LabelSpill.SpillMoves | src/para_mgr.c:476-508 | with the usual layout a frame's moves of the status are those of `StatusMoves` and the clearing by a label |
| LabelSpill.SpilledTextReads | src/mqtt_mgr.c:317-328 | with the usual layout the same fields can be read off the JSON, whose text differs exactly for a label of 17 bytes with a status set |
| Topics.TopicsInjective | src/mqtt_mgr.c:16-39 | topics that fit are distinct over all kinds and all integer areas and zones |
| Topics.DistinctExactly | src/mqtt_mgr.c:55-59 | the topics of areas 1-8 and zones 1-96 are distinct exactly for base topics of at most 238 bytes, truncation included |
| Topics.TopicsSpelled | src/mqtt_mgr.c:16-39 | every topic in full, text by text |
| Topics.ControlTopicParses | src/mqtt_mgr.c:213-225 | a `/set` topic is parsed back to its own area exactly for one-digit areas, and to nothing otherwise |
| Topics.NeverThePrefix | src/mqtt_mgr.c:213-225 | no topic subscribed to is the bare area prefix, which the callback could not take apart, exactly for base topics below 249 bytes |
| Json.AreaTextShape | src/mqtt_mgr.c:23-33 | an area's JSON fits its buffer, is published up to the first NUL field, and its values read from the end are exactly the fields before that |
| Json.ZoneTextShape | src/mqtt_mgr.c:40-50 | likewise for a zone |
| Json.AreaJsonSpelled | src/mqtt_mgr.c:23-33 | an area's whole JSON in full: each field under its own key |
| Json.ZoneJsonSpelled | src/mqtt_mgr.c:40-50 | likewise for a zone |
| Json.AreaBytesTell | src/mqtt_mgr.c:317-327 | what can be read leaves one choice of an area's fields exactly when all but the last field have been set |
| Json.ZoneBytesTell | src/mqtt_mgr.c:351-361 | likewise for a zone, all but the battery |
| Mirror.Publisher.AreaReport | src/mqtt_mgr.c:284-331 | the subscription on a first report, then the state, then the JSON as cut at its first NUL, in this order |
| Mirror.Publisher.ZoneReport | src/mqtt_mgr.c:333-366 | switch, alarm and JSON as cut at its first NUL, in this order |
| Mirror.CallsSpelled | src/mqtt_mgr.c:293-363 | the topics and words of a report's calls in full and in their order |
| Mirror.Publisher.AreaControl | src/mqtt_mgr.c:206-263 | pushes exactly the command a topic and payload ask for |
| Mirror.LastAfterArea | src/mqtt_mgr.c:313-328 | an area report changes the last message of its two topics and of no other topic in use |
| Mirror.LastAfterZone | src/mqtt_mgr.c:342-363 | a zone report changes the last message of its three topics and of no other |
| Bridge.PanelSideAlways | src/para_mgr.c:219-253 | under every schedule the frames handled and queued are those of the bytes read, and tables and reports are those of the frames handled |
| Bridge.MqttSideAlways | src/mqtt_mgr.c:158-180 | under every schedule each topic shows the text of the last report published for its record |
| Bridge.RequestSideAlways | src/para_mgr.c:334-351 | under every schedule each request pushed belongs to a command obeyed or to a thread's plan, in order, and is written once |
| BridgeLaws.AreaMirror | src/mqtt_mgr.c:316-328 | in every reachable state, what can be read off an area's JSON topic, brought up to date with its reports in flight, is what the manager holds up to the first field never set |
| BridgeLaws.ZoneMirror | src/mqtt_mgr.c:350-363 | likewise for zones |
| BridgeLaws.AreaJsonTells | src/mqtt_mgr.c:317-328 | in every state reachable over safe frames, an area's JSON leaves one choice of fields exactly when a status response for it was accepted, and is whole exactly when the last one had its twelve bytes |
| BridgeLaws.ZoneJsonTells | src/mqtt_mgr.c:351-363 | likewise for a zone and a response of ten bytes |
| BridgeLaws.LastOnesNeverWhole | src/para_mgr.c:681-696 | under every schedule at most three fields can be read off area 8's JSON, and off zone 96's: never the alarm of the one, never the supervision of the other |
| BridgeLaws.ZoneTopicsAgree | src/mqtt_mgr.c:342-363 | in every reachable state a zone's switch topic is off exactly when its JSON text reads closed with alarm and fire OK |
| BridgeLaws.SubscribedOnce | src/mqtt_mgr.c:293-309 | no control topic is subscribed twice, and an area is subscribed exactly when anything of it is on display |
| BridgeLaws.SubscribedFirst | src/mqtt_mgr.c:293-314 | under every schedule, before every message of an area stands the subscription to its control topic |
| BridgeLaws.EndToEnd | src/para_serial.c:126-166 | with every frame handled, tables and reports are the manager's run over the stream cut at its CRs |
| BridgeLaws.SchedulesAgree | src/para_mgr.c:219-253 | any two schedules and chunkings of one stream give the same tables and the same reports in the same order |
| BridgeLaws.PanelIgnoresTheRest | src/para_mgr.c:219-253 | leaving out all commands, timeouts, writes and publications changes nothing of tables or reports |
| BridgeLaws.CommandsIgnoreTheRest | src/para_mgr.c:732-781 | leaving out everything else changes nothing of the requests commands cause, which depend on the commands and the configuration only |
| BridgeLaws.MainTopicShown | src/mqtt_mgr.c:311-314 | with nothing in flight the main topic shows the state of the last report |
| BridgeLaws.MainTopicLags | src/mqtt_mgr.c:311-314 | and differs from the manager's state exactly when that was put right with no field changing then or since |
| BridgeLaws.MainTopicCurrent | src/mqtt_mgr.c:311-314 | without a zone response in alarm for the area it shows the manager's state whenever no report is in flight |
| BridgeLaws.MainTopicSays | src/mqtt_mgr.c:63-74 | the words on the main topic from the record's fields: triggered in alarm, otherwise the word for the status |
| BridgeLaws.MainTopicSaysExactly | src/mqtt_mgr.c:311-314 | and each word exactly then, while responses have only brought known statuses |
| BridgeLaws.ZoneTopicsSay | src/mqtt_mgr.c:342-349 | the words on a zone's switch and alarm topics from the record's fields |
| BridgeLaws.NothingAskedIsLost | src/para_mgr.c:239-253 | under every schedule the commands asked by messages reach the manager in order, and each timeout starts a request thread |
| Dialogue.StartupReadBack | src/para_mgr.c:303-315 | the startup requests, written and framed in any chunking, are five bytes each and parse as AL,RA per area then ZL,RZ per zone, ascending |
| Dialogue.StartupOnTheLine | src/para_mgr.c:291-319 | in any schedule where only the startup thread has spoken and finished, the line carries exactly that |
| Dialogue.ControlAsksItsArea | src/mqtt_mgr.c:218-242 | a message on a subscribed control topic asks for that area, and only the three payloads ask anything |
| Dialogue.RequestsNameTheirArea | src/para_mgr.c:741-775 | a command for a configured area sends one request naming it, or none for a disarm without a code |
| Dialogue.AreaCommandsRead | src/para_mgr.c:741-768 | the requests of the three area commands byte by byte: quick arming S or A, arming A or disarming with the code's first six bytes, nothing for other areas |
| Dialogue.UtilityCommandReads | src/para_mgr.c:776-778 | a utility key command sends exactly its key's request for keys 1 to 251, and nothing otherwise |
| Dialogue.AreaControlled | src/mqtt_mgr.c:218-242 | from a payload on a control topic to the bytes the panel is sent |
| Dialogue.UtilityKeyPressed | src/mqtt_mgr.c:244-258 | from a number on the utility key topic, however padded, to the one request for that key |
| Dialogue.OtherAreaBytes | src/mqtt_mgr.c:222-223 | a control topic with any byte but 1 to 8 for its area sends nothing |
| Dialogue.OtherTopics | src/mqtt_mgr.c:213-258 | a topic of neither kind asks nothing |
| Dialogue.StatusAsked | src/para_mgr.c:321-332 | the periodic requests are five bytes each and parse as RA for each configured area, ascending |
| Dialogue.CodeFits | src/para_mgr.c:389-405 | the panel gets the whole user code exactly when it has at most six bytes |
| Configuration.PrintArguments | start_daemon.py:54-76 | prints the words of every entry in order, then code and period, or gives up at a missing key |
| Configuration.RegisterZones | src/main.c:186-202 | registers the listed zones under the area, stopping at the first out of range |
| Configuration.ParseOptions | src/main.c:127-252 | the option loop and the checks after it, with their error codes, as a function of the options |
| Configuration.AnyOptions | src/main.c:165-205 | whatever options are found, in whatever form they were given, every configured zone's area is configured and all records are fresh |
| Configuration.BadAreaRefused | src/main.c:168-172 | after any good entries an area that reads out of range gives -2 |
| Configuration.ZonesNeedArea | src/main.c:180-184 | a zone list without an area of its own gives -3 |
| Configuration.BadZoneRefused | src/main.c:191-195 | a zone list with a zone that reads out of range gives -4 |
| Configuration.NoAreaRefused | src/main.c:243-247 | no area gives -5 |
| Configuration.NoZoneRefused | src/main.c:249-253 | no zone gives -6 |
| Configuration.DefaultsKept | src/main.c:71-72 | without options for them there is no user code and a period of 60 seconds |
| Configuration.PrintedExample | start_daemon.py:54-76 | the words themselves for a file with an area, two zones, a code and a period |
| Configuration.ZonesReadBack | start_daemon.py:63 | a printed zone list is parsed back to exactly its zones |
| Configuration.ConfigurationRoundTrip | start_daemon.py:54-76 | printed areas in range that all list zones in range are configured exactly, each zone under the last area listing it, with the code and period given |
| Configuration.EmptyZoneListRefused | start_daemon.py:63 | the first empty zone list of a file, with anything at all printed after it, makes the daemon refuse its arguments |
| Configuration.EmptyZoneListLast | start_daemon.py:63 | at the very end it is configured without zones, if other areas come before it |
| Configuration.ConfiguredExactly | src/main.c:165-252 | for every file the launcher prints arguments for: exactly when the daemon starts with the file's areas and zones |

## Left out

- SetLabel: the source's terminator is stored one byte past a 17-byte field (src/include/paratypes.h:58, on common layouts the area's status byte; in a zone's record, :74, it is padding); the manager's records give it a byte of its own. `LabelSpill` has what the common layout changes.
- StatusMoves: of the model's layout, in which no label clears the status; `SpillMoves` is the law with the usual one.
- StayArmedEnds: likewise; with the usual layout a label ends stay-armed too.
- AreaTextShape: of the model's layout, in which a label always has its terminator; `SpilledTextReads` is the law with the usual one.
- PrintArguments: the printed text is modelled as the words the shell makes of it; YAML loading, quoting and the options before the areas are not modelled.
- ParseOptions: `getopt` is modelled for the words the launcher prints from the areas on; the options before them and the device and server checks are not modelled.
- AreaControl: payloads are whole strings; the callback is not called with a topic that is exactly the area prefix, where the source would read past its end; `NeverThePrefix` says when no subscription leads to that.
- WriteBranch: takes the number of bytes the device accepts as a parameter; `Bridge` lets the device take each request whole.
- Bridge: the poll loops' preference of one queue over another is not modelled; every order of events is allowed, so what is proved holds for the preferred orders too.
- AreaReport: the calls are kept without quality of service and retain flag, which are the same for every message.
- ZMQ, Paho, pthreads, termios, signals, `fork`, sleeps, reconnection, the daemon's own topic and the utility key subscription: foreign calls without logic of the bridge; queues deliver in order and lose nothing, and a read is any chunk.
- Allocation failure, logging, usage text and version output.
- The unused bypass setter and the event groups that are only logged (no operation).
