# A model of a bipedal robot stack, with proofs

The robot stack is a set of modules between sensors, motors and a learned policy. This project
models the stateful logic of those modules in Dafny and proves what it is for. Floats are exact
reals; each section under a mutex is one step, except where the interleaving is the point.

| files | what they model |
|---|---|
| `ImuFrames`, `ImuGreedy`, `ImuTicks`, `ImuDriver` | the resynchronising frame parser of the IMU driver and its three-frame tick assembly: functions, their laws over all runs, and the object updated in place |
| `ImuDevice` | the frames the IMU builds, and what the driver makes of them |
| `Seqlock`, `ImuPipeline` | the single-writer, many-reader seqlock, word by word, and the whole way from bytes to a reader |
| `FilterAlgebra`, `LowPassFilter` | the second-order low-pass filter and its stability |
| `QuaternionAlgebra`, `ImuFrameFix` | the IMU frame change by quaternions |
| `LineGeometry`, `CircleGeometry`, `Framebuffer` | the OLED rasteriser on packed bytes |
| `Panel` | the display memory those bytes are sent to |
| `RobstrideCodec`, `Transmission`, `CanSlots`, `CanRounds`, `CanProtocol`, `CanBus` | the motor protocol, the signed transmissions, the packed slot buffers and the two-thread slot protocol |
| `MotorReader` | the motor at the other end of the bus: what it takes every frame to mean, and what it reports |
| `JoyVelLimiter` | the joystick rate limiter as a box-constrained quadratic program |
| `SimShutdown` | the simulator's three-thread shutdown handshake |
| `PolicyHistory`, `FlightRecorder` | the policy's observation history and the flight-recorder ring |
| `StateMachine`, `PdController`, `ControlLoop`, `ControlModule` | triggers, ramps and the command merge of the control module |
| `Arith`, `Common` | division facts; an optional value and a few functions on reals |

Objects the source updates in place are classes whose methods are proved against functions; laws
over runs are lemmas about those functions. Protocols are deterministic step functions under an
arbitrary schedule: an action that is not enabled does nothing, so a statement about every schedule
is a statement about every interleaving.

## What the proofs say about the code

- `getObs` may return a torn observation: the `continue` of its do-while reaches the loop test with
  the `v1` of the previous try. A return under an even version is exactly a committed observation
  (`Seqlock.EvenReturnsAreCommitted`). A return under an odd one may still be, by luck of the
  interleaving: whatever the contents, a return is a committed observation exactly when all its
  words were copied from one observation that was committed (`Seqlock.CommittedIffOneSource`).
  `Seqlock.OddReturnReachable` gives odd returns cut at every word; a retry on odd versions removes
  them.
- `ImuFrameFix::Init` lets body signs differ from +1 and -1 by a billionth; the frame change keeps
  the meaning exactly only when they do not (`ImuFrameFixClass.MeaningExactIff`). It also assigns
  the signs before it rejects a mirror, so a rejected call on an object in use leaves vectors and
  quaternions in disagreement, for some vector at every unit quaternion; the contract of `Init`
  says exactly when (`ImuFrameFixClass.PairMeansIff`).
- A trigger the current state does not allow still uses up the one-second interval
  (`ControlLoop.AcceptedIff`).
- `SetMode` with a mode outside the table writes no frame, so `SendOnce` sends the motor's last
  periodic frame once more and then empties its slot (`CanSlots.SendsOwnFrameIff`).
  `SaveConfig` sends a frame whose identifier is 0.
- `has_quat` is written and never read: a tick needs only an accel and a gyro frame since the last
  one, and a quaternion frame to complete it.
- The checksum is not the one the header names, because the loop shifts by 1 where it should shift
  by 8 (`src/module/imu_module/dm_imu_l1/src/bsp_crc.cpp:61`). The parser's laws hold for any
  checksum, so it stays an arbitrary function.
- `drawCircle` updates its decision value with the already stepped coordinates; the annulus proved
  for it is the one that loop has, not the textbook one.

## Model

| member | source | states |
|---|---|---|
| `ImuFrames.ChunkingIrrelevant` | src/module/imu_module/dm_imu_l1/src/imu_driver.cpp:307-350 | for any byte stream and any way of cutting it into reads, parsing after each read gives the same accepted frames, pending state, counters and leftover bytes as one parse of the whole stream |
| `ImuFrames.FeedTwice` | src/module/imu_module/dm_imu_l1/src/imu_driver.cpp:307-308 | two reads in a row are one read of both |
| `ImuFrames.ParseExtends` | src/module/imu_module/dm_imu_l1/src/imu_driver.cpp:327-341 | bytes that arrive later change nothing already decided: parsing may stop at the residue and go on from there |
| `ImuFrames.ParseShifts` | src/module/imu_module/dm_imu_l1/src/imu_driver.cpp:343-344 | parsing does not depend on what was erased in front |
| `ImuFrames.ResidueBound` | src/module/imu_module/dm_imu_l1/src/imu_driver.cpp:333-349 | what a read leaves behind is at most 22 bytes, so the 4096-byte clear never happens |
| `ImuGreedy.AcceptedIsLeftmost` | src/module/imu_module/dm_imu_l1/src/imu_driver.cpp:327-341 | the accepted spans are good, disjoint, in order, and leftmost: no good frame starts in a gap before the stop |
| `ImuGreedy.LeftmostUnique` | src/module/imu_module/dm_imu_l1/src/imu_driver.cpp:327-341 | only one list of spans and one stop are leftmost, so the greedy answer is the only one |
| `ImuGreedy.ParseAccepts` | src/module/imu_module/dm_imu_l1/src/imu_driver.cpp:327-341 | the driver logs exactly the contents of those spans, in order, and stops there |
| `ImuGreedy.BytesConserved` | src/module/imu_module/dm_imu_l1/src/imu_driver.cpp:328-340 | received bytes = bytes of accepted frames + single-byte skips + residue; checksum errors never exceed drops, nor drops the skips |
| `ImuTicks.EveryRunConsistent` | src/module/imu_module/dm_imu_l1/src/imu_driver.cpp:158-192 | in every run the state agrees with its frame log: each commit holds the latest accel and gyro payload, both accepted after the previous commit; seq counts 1, 2, 3, ... and equals the tick total; the version is twice it; since a callback was set after n0 ticks it has fired floor(ticks / every_n) - floor(n0 / every_n) times, on exactly the observations whose number is a multiple of every_n |
| `ImuTicks.StartConsistent` | src/module/imu_module/dm_imu_l1/src/imu_driver.cpp:138-142 | a fresh driver, with or without a callback set (period 0 taken as 1), is consistent |
| `ImuTicks.SettingKeeps` | src/module/imu_module/dm_imu_l1/src/imu_driver.cpp:138-142 | a callback may be set at any time; what is counted starts again there |
| `ImuTicks.ParseKeeps` | src/module/imu_module/dm_imu_l1/src/imu_driver.cpp:321-341 | every parse keeps that agreement |
| `ImuTicks.CommitsAreUnit` | src/module/imu_module/dm_imu_l1/src/imu_driver.cpp:393-400 | every published quaternion has norm 1, given a correct reciprocal square root |
| `ImuDriverClass.ImuDriver.constructor` | src/module/imu_module/dm_imu_l1/src/imu_driver.cpp:158-192 | a new driver is the idle one |
| `ImuDriverClass.ImuDriver.SetCallback` | src/module/imu_module/dm_imu_l1/src/imu_driver.cpp:138-142 | only the callback, its period and where its count starts change, and the driver stays consistent, whenever it is set |
| `ImuDriverClass.ImuDriver.DoCommitTick` | src/module/imu_module/dm_imu_l1/src/imu_driver.cpp:158-192 | the in-place commit does exactly what the specification of a tick says to every field |
| `ImuDriverClass.ImuDriver.TryFrame` | src/module/imu_module/dm_imu_l1/src/imu_driver.cpp:352-413 | does what the specification of one frame says, of which `ImuDevice` says what it understands: a frame of the device is absorbed, a bad checksum alone counts as an error |
| `ImuDriverClass.ImuDriver.DropOverflow` | src/module/imu_module/dm_imu_l1/src/imu_driver.cpp:346-349 | clears the buffer and the pending flags exactly above 4096 bytes |
| `ImuDriverClass.ImuDriver.ProcessBuffer` | src/module/imu_module/dm_imu_l1/src/imu_driver.cpp:321-350 | the loop ends with the state and the residue of the parse function |
| `ImuDriverClass.ImuDriver.Receive` | src/module/imu_module/dm_imu_l1/src/imu_driver.cpp:305-308 | every read keeps the driver consistent and leaves less than one long frame |
| `ImuDevice.BuiltPasses` | src/module/imu_module/dm_imu_l1/src/imu_driver.cpp:352-365 | every frame the device builds, checksum low byte first, has the length the driver cuts and passes |
| `ImuDevice.PassesIff` | src/module/imu_module/dm_imu_l1/src/imu_driver.cpp:352-365 | of the frames the driver cuts it accepts exactly those the device can build |
| `ImuDevice.DamagedCounted` | src/module/imu_module/dm_imu_l1/src/imu_driver.cpp:359-366 | a frame with any other checksum is refused and counted once as a checksum error |
| `ImuDevice.BuiltWords` | src/module/imu_module/dm_imu_l1/src/imu_driver.cpp:368-370 | the three or four little-endian words come out of a built frame in the order they went in |
| `ImuDevice.AbsorbUnderstands` | src/module/imu_module/dm_imu_l1/src/imu_driver.cpp:372-407 | a built frame changes exactly what its report says: acceleration, rate, nothing, or the unit attitude and with it a tick of the pending values |
| `ImuDevice.StreamAbsorbed` | src/module/imu_module/dm_imu_l1/src/imu_driver.cpp:321-350 | a stream of built frames is absorbed frame by frame: none dropped, no byte skipped, none left |
| `ImuDevice.TickPublished` | src/module/imu_module/dm_imu_l1/src/imu_driver.cpp:158-192 | however it is cut into reads, an acceleration, a rate and an attitude from the device are published as one observation with exactly those values |
| `Seqlock.RunKeeps` | src/module/imu_module/dm_imu_l1/src/imu_driver.cpp:179-219 | the invariant of writer, memory and readers holds in every state of every interleaving, words stored and copied in any order |
| `Seqlock.ReturnedWordsHaveSources` | src/module/imu_module/dm_imu_l1/src/imu_driver.cpp:211-219 | in every interleaving of one writer and any readers, one memory word at a time, every word of every return, torn or not, first or later, is the word of the observation recorded as its source, between the versions the copy began and returned at |
| `Seqlock.EvenReturnsAreCommitted` | src/module/imu_module/dm_imu_l1/src/imu_driver.cpp:194-220 | a return under an even version is exactly the observation committed at that version, all words copied from that one |
| `Seqlock.CommittedIffOneSource` | src/module/imu_module/dm_imu_l1/src/imu_driver.cpp:211-219 | for a fixed interleaving, a return is a committed observation whatever the observations are if and only if all its words were copied from one observation, and that one was committed |
| `Seqlock.ControlRun` | src/module/imu_module/dm_imu_l1/src/imu_driver.cpp:179-219 | who does what when, and where words come from, does not depend on the contents of the observations |
| `Seqlock.SequenceNeverGoesBack` | src/module/imu_module/dm_imu_l1/src/imu_driver.cpp:211-219 | no word of an earlier return of a reader is newer than any word of a later one, even across torn returns |
| `Seqlock.SequenceNumbersNeverGoBack` | src/module/imu_module/dm_imu_l1/src/imu_driver.cpp:172 | so the sequence numbers one reader sees never decrease |
| `Seqlock.OddReturnReachable` | src/module/imu_module/dm_imu_l1/src/imu_driver.cpp:214-218 | for every c a run that leaves through the stale v1 under an odd v0 with c words of one observation and the rest of the next, uncommitted one |
| `Seqlock.OddReturnCommittedIff` | src/module/imu_module/dm_imu_l1/src/imu_driver.cpp:214-218 | of those odd returns exactly the one with c = 16 is a committed observation whatever the contents; the others are torn or not yet committed |
| `Seqlock.RetryOnOddIsSafe` | src/module/imu_module/dm_imu_l1/src/imu_driver.cpp:211-219 | with a retry on odd v0 every return, in every interleaving, is exactly one committed observation |
| `Seqlock.CommitCompletes` | src/module/imu_module/dm_imu_l1/src/imu_driver.cpp:179-181 | a commit whose words are stored in any order ends with the version two higher and exactly the next observation in memory |
| `Seqlock.UndisturbedCallReturns` | src/module/imu_module/dm_imu_l1/src/imu_driver.cpp:211-219 | a call made while the writer rests returns after one try, whatever the order of the words, with the observation of the present version |
| `Seqlock.RestingWriterReadersReturn` | src/module/imu_module/dm_imu_l1/src/imu_driver.cpp:211-219 | so in every run: whenever the writer rests, a reader that calls and is given its steps returns that observation |
| `Seqlock.TryReturnsIff` | src/module/imu_module/dm_imu_l1/src/imu_driver.cpp:211-218 | a try returns if and only if its second load sees the even version it began at, whatever the other threads do before the test |
| `ImuPipeline.DriverTicks` | src/module/imu_module/dm_imu_l1/src/imu_driver.cpp:158-192 | whatever bytes came in whatever chunks, what the driver publishes at place n is the n-th tick of its accepted frames, under the number n |
| `ImuPipeline.ReaderSeesTicks` | src/module/imu_module/dm_imu_l1/src/imu_driver.cpp:194-220 | every word a read returns is that word of the tick recorded as its source; an even return is a whole tick |
| `ImuPipeline.EndToEnd` | src/module/imu_module/dm_imu_l1/src/imu_driver.cpp:158-220 | from bytes to readers: an even return is the tick of its number, and the numbers one reader sees never decrease |
| `FilterAlgebra.DenPositive` | src/module/control_module/src/utilities.cc:28 | the common denominator is positive for every cut-off and period |
| `FilterAlgebra.CoefficientsSumToOne` | src/module/control_module/src/utilities.cc:30-34 | the five coefficients sum to 1 |
| `FilterAlgebra.OutputIff` | src/module/control_module/src/utilities.cc:27-47 | for any stored samples and any input the output is the one number y with 10000 (y - 2 y1 + y2) + 7071 p (y - y2) + 2500 p^2 (y + 2 y1 + y2) = 2500 p^2 (x + 2 x1 + x2), p = wc ts: the bilinear transform of a second-order low-pass |
| `FilterAlgebra.InitIsFixed` | src/module/control_module/src/utilities.cc:75-80 | after init(v), inputs v output v for ever |
| `FilterAlgebra.EnergyNeverGrows` | src/module/control_module/src/utilities.cc:41-47 | with q = (wc ts)^2 the energy q (e1 + e2)^2 + 4 (e1 - e2)^2 of the deviation never grows while the input is held |
| `FilterAlgebra.EnergyLoss` | src/module/control_module/src/utilities.cc:41-47 | the energy lost in one sample, as an exact sum of squares |
| `FilterAlgebra.Settles` | src/module/control_module/src/utilities.cc:41-47 | stability with a rate: every two held samples remove at least a fixed positive fraction of the energy of the deviation |
| `FilterAlgebra.Converges` | src/module/control_module/src/utilities.cc:41-47 | from any state, for every eps > 0 there is a sample from which on every output is within eps of the held input |
| `FilterAlgebra.AlternateIsSilent` | src/module/control_module/src/utilities.cc:41-47 | an input that alternates between v and -v contributes nothing: the outputs are those of an input of 0 |
| `FilterAlgebra.AlternatingVanishes` | src/module/control_module/src/utilities.cc:41-47 | so the output of an alternating input, however large, converges to 0 from any state |
| `LowPassFilterClass.LowPassFilter.Update` | src/module/control_module/src/utilities.cc:27-35 | sets the coefficients of the current wc and ts, those `FilterAlgebra.OutputIff` is about |
| `LowPassFilterClass.LowPassFilter.SetTs` | src/module/control_module/src/utilities.cc:55-58 | keeps coefficients and period in step |
| `LowPassFilterClass.LowPassFilter.SetWc` | src/module/control_module/src/utilities.cc:61-64 | keeps coefficients and cut-off in step |
| `LowPassFilterClass.LowPassFilter.Input` | src/module/control_module/src/utilities.cc:41-47 | one sample: the output obeys the bilinear difference equation of the current wc and ts, and both delay lines move on |
| `LowPassFilterClass.LowPassFilter.Clear` | src/module/control_module/src/utilities.cc:67-72 | all stored samples become 0 |
| `LowPassFilterClass.LowPassFilter.Init` | src/module/control_module/src/utilities.cc:75-80 | all stored samples become v |
| `QuaternionAlgebra.MulAssoc` | src/module/imu_module/include/imu_module/imu_frame.h:32-37 | the product is associative |
| `QuaternionAlgebra.ConjMul` | src/module/imu_module/include/imu_module/imu_frame.h:32-38 | conjugation reverses products |
| `QuaternionAlgebra.NormMul` | src/module/imu_module/include/imu_module/imu_frame.h:32-37 | norms multiply |
| `QuaternionAlgebra.SandwichMul` | src/module/imu_module/include/imu_module/imu_frame.h:32-38 | rotating by a product is rotating twice |
| `ImuFrameFixClass.RotateIsTurn` | src/module/imu_module/include/imu_module/imu_frame.h:32-38 | rotating by q is (w^2 - u.u) v + 2 (u.v) u + 2 w (u x v): the right-handed turn about its axis u |
| `ImuFrameFixClass.CorrectedRelates` | src/module/imu_module/include/imu_module/imu_frame.h:68 | the corrected unit quaternion takes body axes to world axes: with quat_inverse, v is turned into exactly the w that the input turns back into v |
| `ImuFrameFixClass.BodyQuatUndoesSigns` | src/module/imu_module/include/imu_module/imu_frame.h:47-50 | the body quaternion undoes the accepted body signs, up to their magnitudes |
| `ImuFrameFixClass.WorldQuatIsWorld` | src/module/imu_module/include/imu_module/imu_frame.h:53-54 | the world quaternion turns north-east-down into east-north-up, or does nothing |
| `ImuFrameFixClass.FrameChangeMeaning` | src/module/imu_module/include/imu_module/imu_frame.h:58-69 | for all accepted signs, either world convention and any quaternion: rotating the fixed vector by the fixed quaternion is the world change of the original rotated vector, each axis scaled by its sign's magnitude |
| `ImuFrameFixClass.MeaningExactIff` | src/module/imu_module/include/imu_module/imu_frame.h:41-43 | for a unit quaternion the meaning is kept exactly for every vector if and only if the signs are exactly +1 or -1 |
| `ImuFrameFixClass.FixedKeepsNorm` | src/module/imu_module/include/imu_module/imu_frame.h:67-70 | the product has the norm of the input |
| `ImuFrameFixClass.FixedScales` | src/module/imu_module/include/imu_module/imu_frame.h:67-71 | normalising after the correction is correcting the normalised input |
| `ImuFrameFixClass.ImuFrameFix.Init` | src/module/imu_module/include/imu_module/imu_frame.h:40-56 | accepted exactly for signs within 1e-9 of +1 or -1 with nonnegative product; a rejected mirror has already replaced the signs, and an object in use goes on meaning the world change, for all unit quaternions and all vectors, exactly when the call was not such a rejection |
| `ImuFrameFixClass.PairMeansIff` | src/module/imu_module/include/imu_module/imu_frame.h:40-56 | with the body quaternion of other signs, fixed vector and fixed quaternion mean the world change for every vector, at any one unit quaternion, if and only if the signs agree axis by axis |
| `ImuFrameFixClass.ImuFrameFix.ApplyVec` | src/module/imu_module/include/imu_module/imu_frame.h:58-63 | multiplies by the signs when enabled |
| `ImuFrameFixClass.ImuFrameFix.ApplyQuat` | src/module/imu_module/include/imu_module/imu_frame.h:65-73 | the normalised product when enabled, the input otherwise |
| `ImuFrameFixClass.ImuFrameFix.PairKeepsMeaning` | src/module/imu_module/include/imu_module/imu_frame.h:58-73 | the two outputs of an enabled object together mean the world change of the two inputs: the normalised input turns the body vector into the changed result, or with quat_inverse the changed result into the body vector |
| `ImuFrameFixClass.ImuFrameFix.OutputNorm` | src/module/imu_module/include/imu_module/imu_frame.h:70-71 | the root taken is the norm of the input; the output is unit unless that is almost zero; a unit input passes the normalisation unchanged |
| `Framebuffer.OneBitOnePixel` | src/module/oled_module/oled/src/oled_driver.cpp:182-185 | setting or clearing one bit of one byte changes one pixel of the 128 x 64 grid and no other |
| `Framebuffer.OledDriver.GetPixel` | src/module/oled_module/oled/src/oled_driver.cpp:188-191 | reads back the pixel; off the screen it is dark |
| `Framebuffer.OledDriver.SetPixel` | src/module/oled_module/oled/src/oled_driver.cpp:180-186 | paints that pixel if it is on the screen, nothing else |
| `Framebuffer.OledDriver.Display` | src/module/oled_module/oled/src/oled_driver.cpp:171-175 | after the two window commands and the 1024 bytes the panel shows exactly the grid, whatever it showed before and wherever its window was |
| `Panel.WrittenHolds` | src/module/oled_module/oled/src/oled_driver.cpp:171-175 | bytes written to the whole window land column by column and page by page |
| `Framebuffer.OledDriver.DrawHLine` | src/module/oled_module/oled/src/oled_driver.cpp:196-198 | paints exactly the clipped row of w pixels |
| `Framebuffer.OledDriver.FillRect` | src/module/oled_module/oled/src/oled_driver.cpp:225-228 | paints exactly the clipped rectangle |
| `Framebuffer.OledDriver.FillCircle` | src/module/oled_module/oled/src/oled_driver.cpp:245-249 | paints exactly the clipped disc |
| `Framebuffer.OledDriver.DrawLine` | src/module/oled_module/oled/src/oled_driver.cpp:204-216 | ends for all endpoints and paints exactly the first max(dx, dy) + 1 points of the closed-form line |
| `LineGeometry.LineNearIdeal` | src/module/oled_module/oled/src/oled_driver.cpp:206-214 | every point is within half a pixel of the ideal segment, and no point is visited twice |
| `LineGeometry.LineEnds` | src/module/oled_module/oled/src/oled_driver.cpp:209-215 | the line begins and ends at the two endpoints |
| `LineGeometry.LineConnected` | src/module/oled_module/oled/src/oled_driver.cpp:213-214 | from one point to the next the line moves one pixel along the longer axis towards its end, and along the other one pixel towards its end or none |
| `LineGeometry.LineStep` | src/module/oled_module/oled/src/oled_driver.cpp:212-214 | one turn of the loop with the rounded err moves from one closed-form point to the next |
| `CircleGeometry.DecisionStep` | src/module/oled_module/oled/src/oled_driver.cpp:231-241 | d = 2x^2 + 2y^2 - 2r^2 + 8x - 6y + 4r + 3 at the start and after either update |
| `CircleGeometry.CircleInAnnulus` | src/module/oled_module/oled/src/oled_driver.cpp:238-242 | for every r >= 0 each octant point satisfies r^2 - 3r <= x^2 + y^2 <= r^2 + r |
| `CircleGeometry.OctantConnected` | src/module/oled_module/oled/src/oled_driver.cpp:238-242 | the octant has one point per column, each at most one row below the one before, down to the diagonal or the point beside it: no gaps |
| `Framebuffer.CircleSymmetric` | src/module/oled_module/oled/src/oled_driver.cpp:232-237 | a circle is unchanged by reflection in either axis and in the diagonal |
| `Framebuffer.CircleHoldsOctant` | src/module/oled_module/oled/src/oled_driver.cpp:238-239 | it holds every octant point, the first at distance r above the centre |
| `Framebuffer.OledDriver.DrawCircle` | src/module/oled_module/oled/src/oled_driver.cpp:230-243 | ends for all integers and paints exactly the eight reflections of the octant points, clipped, with that d at every loop head |
| `Framebuffer.PaintedCircleInAnnulus` | src/module/oled_module/oled/src/oled_driver.cpp:232-237 | every pixel a circle paints lies in that annulus around its centre |
| `RobstrideCodec.DecodeEncode` | src/module/joint_driver_module/robstride_controller/robstride_api/src/robstride.cpp:84-96 | decoding after encoding gives the clamped value rounded down by less than range/65535, and exactly the ends of the range |
| `RobstrideCodec.EncodeDecode` | src/module/joint_driver_module/robstride_controller/robstride_api/src/robstride.cpp:84-96 | encoding after decoding is the identity on 0..65535 |
| `RobstrideCodec.EncodeMonotone` | src/module/joint_driver_module/robstride_controller/robstride_api/src/robstride.cpp:84-92 | encoding is monotone |
| `RobstrideCodec.CanIdFields` | src/module/joint_driver_module/robstride_controller/robstride_api/src/robstride.cpp:112-115 | every field joined into an identifier is read back, and the identifier is never 0 |
| `RobstrideCodec.FeedbackParsed` | src/module/joint_driver_module/robstride_controller/robstride_api/src/robstride.cpp:304-350 | a feedback frame is dispatched to its motor and its position and velocity are decoded |
| `RobstrideCodec.ParseReadsFrame` | src/module/joint_driver_module/robstride_controller/robstride_api/src/robstride.cpp:304-351 | the decoder reads out of a feedback frame exactly the status, error bits and four values the motor put into it |
| `RobstrideCodec.EchoRoundTrip` | src/module/joint_driver_module/robstride_controller/robstride_api/src/robstride.cpp:244-276 | a commanded position and velocity echoed by the motor come back clamped and rounded down by less than a quantum |
| `MotorReader.OneShotHeard` | src/module/joint_driver_module/robstride_controller/robstride_api/src/robstride.cpp:149-236 | a motor that reads frames by the numbers of the protocol does on every one-shot frame exactly what the command asks, and no other motor does anything; a mode outside the table sends what lay in the slot |
| `MotorReader.PeriodicHeard` | src/module/joint_driver_module/robstride_controller/robstride_api/src/robstride.cpp:244-300 | it obeys every periodic frame: all five values of a motion command, clamped and rounded down by less than a quantum, or the reference of the right kind with exactly the bytes given; no other motor does anything |
| `MotorReader.RoundObeyed` | src/module/joint_driver_module/robstride_controller/robstride_api/src/can_bus.cpp:157-174 | in every run of the bus, a frame a round sends is obeyed by its motor as the latest periodic command set for it, and ignored by the others |
| `MotorReader.JointCommandHeard` | src/module/joint_driver_module/include/joint_driver_module/transmission.h:86-93 | a joint command through a transmission of +1 or -1 reaches the motor: position, velocity and effort within one quantum of the clamped value as seen from the joint, gains rounded down by less than one |
| `MotorReader.ReportUnderstood` | src/module/joint_driver_module/robstride_controller/robstride_api/src/robstride.cpp:304-351 | every report a motor builds goes to that motor, and each value, the running mode and the fault bits are what its codes stand for |
| `MotorReader.JointReads` | src/module/joint_driver_module/include/joint_driver_module/transmission.h:80-84 | a joint reads its motor's report turned by the direction, and keeps its gains |
| `TransmissionClass.TurnsBackIff` | src/module/joint_driver_module/include/joint_driver_module/transmission.h:80-93 | turning to the actuator and back is the identity if and only if the direction is +1 or -1 |
| `TransmissionClass.JointRoundTrip` | src/module/joint_driver_module/include/joint_driver_module/transmission.h:80-93 | a joint position and velocity through a transmission of +1 or -1, the codec, an echo and the decoder return within one quantum of the clamped value |
| `TransmissionClass.SimpleTransmission.TransformActuatorToJoint` | src/module/joint_driver_module/include/joint_driver_module/transmission.h:80-84 | effort, velocity and position of the state, turned; gains untouched |
| `TransmissionClass.SimpleTransmission.TransformJointToActuator` | src/module/joint_driver_module/include/joint_driver_module/transmission.h:86-93 | effort, velocity and position of the command turned, gains copied |
| `TransmissionClass.TransimissionManager.RegisterTransmission` | src/module/joint_driver_module/include/joint_driver_module/transmission.h:108 | appends |
| `TransmissionClass.TransimissionManager.TransformJointToActuator` | src/module/joint_driver_module/include/joint_driver_module/transmission.h:115-119 | the commands of all data spaces afterwards are those of working the transmissions off in order, each reading what those before it left |
| `TransmissionClass.TransimissionManager.TransformActuatorToJoint` | src/module/joint_driver_module/include/joint_driver_module/transmission.h:110-114 | likewise for the states |
| `TransmissionClass.LastCommandWins` | src/module/joint_driver_module/include/joint_driver_module/transmission.h:115-119 | where no space is both a joint and an actuator, every actuator ends with the command of the last transmission that drives it |
| `TransmissionClass.LastStateWins` | src/module/joint_driver_module/include/joint_driver_module/transmission.h:110-114 | likewise every joint ends with the state of the last transmission that reports for it |
| `CanSlots.PutSlots` | src/module/joint_driver_module/robstride_controller/robstride_api/src/robstride.cpp:36-39 | slots do not overlap: writing one changes it and no other |
| `CanSlots.PutFrameMaps` | src/module/joint_driver_module/robstride_controller/robstride_api/src/robstride.cpp:112-121 | writing a frame into its 12 bytes is updating the map from motors to optional frames |
| `CanSlots.PutZerosMaps` | src/module/joint_driver_module/robstride_controller/robstride_api/src/robstride.cpp:41-44 | zeroing 12 bytes is emptying that slot of the map |
| `CanBusClass.RobstrideMotor.SetDataField` | src/module/joint_driver_module/robstride_controller/robstride_api/src/robstride.cpp:36-45 | points the motor at its slots and empties both |
| `CanBusClass.RobstrideMotor.OneShotCommand` | src/module/joint_driver_module/robstride_controller/robstride_api/src/robstride.cpp:149-236 | does to the slot what the command says (`MotorReader.OneShotHeard` gives the meaning for the motor); an invalid mode writes nothing and is not remembered |
| `CanBusClass.RobstrideMotor.PeriodicCommand` | src/module/joint_driver_module/robstride_controller/robstride_api/src/robstride.cpp:244-300 | each periodic setter writes its whole frame, the one `MotorReader.PeriodicHeard` is about |
| `CanBusClass.RobstrideMotor.Parse` | src/module/joint_driver_module/robstride_controller/robstride_api/src/robstride.cpp:304-351 | a frame that is not extended type 2 changes nothing; a motor's frame is read out in every field |
| `CanBusClass.CanBus.RegisterActuator` | src/module/joint_driver_module/robstride_controller/robstride_api/src/can_bus.cpp:81-140 | accepted exactly for a motor with identifier 1..4 when neither identifier nor name is taken; its slot is then empty; otherwise nothing changes |
| `CanBusClass.CanBus.SetPeriodic` | src/module/joint_driver_module/robstride_controller/robstride_api/src/can_bus.cpp:357-391 | is the protocol's setting step: the slot of the named motor replaced, nothing sent; an unknown name changes nothing |
| `CanBusClass.CanBus.TakeOneShot` | src/module/joint_driver_module/robstride_controller/robstride_api/src/can_bus.cpp:182-198 | the locked part is the protocol's taking step: frame read out, slot emptied |
| `CanBusClass.CanBus.FirePending` | src/module/joint_driver_module/robstride_controller/robstride_api/src/can_bus.cpp:200 | the transmission after it is the protocol's firing step |
| `CanBusClass.CanBus.SendOnce` | src/module/joint_driver_module/robstride_controller/robstride_api/src/can_bus.cpp:179-201 | both together: exactly one frame on the wire and the slot empty |
| `CanBusClass.CanBus.Command` | src/module/joint_driver_module/robstride_controller/robstride_api/src/can_bus.cpp:219-302 | the named one-shot commands look the motor up and send once; an unknown name does nothing |
| `CanBusClass.CanBus.TransmitAll` | src/module/joint_driver_module/robstride_controller/robstride_api/src/can_bus.cpp:153-175 | is the protocol's whole round in some order of the motors |
| `CanBusClass.CanBus.OnReceive` | src/module/joint_driver_module/robstride_controller/robstride_api/src/can_bus.cpp:125-134 | a received frame goes whole into the slot its identifier names, and nowhere else |
| `CanRounds.SentOncePerSlot` | src/module/joint_driver_module/robstride_controller/robstride_api/src/can_bus.cpp:157-174 | whatever the iteration order, each frame goes out once per slot that holds it |
| `CanSlots.SendsOwnFrameIff` | src/module/joint_driver_module/robstride_controller/robstride_api/src/robstride.cpp:229-230 | what a one-shot command sends depends on the slot exactly for a mode outside the table: then the last periodic frame goes out again |
| `CanProtocol.WholeRoundSends` | src/module/joint_driver_module/robstride_controller/robstride_api/src/can_bus.cpp:153-175 | an undisturbed round sends exactly the frames of the filled slots, in the order of the motors, and leaves everything else as it was |
| `CanProtocol.WholeRoundIsRun` | src/module/joint_driver_module/robstride_controller/robstride_api/src/can_bus.cpp:153-175 | the rounds of the bus object are runs of the protocol, so what holds in every run holds of them |
| `CanProtocol.StartGrows` | src/module/joint_driver_module/robstride_controller/robstride_api/src/can_bus.cpp:105-112 | a motor registered before anything is sent makes the starting state of one motor more |
| `CanProtocol.SentOnceIsRun` | src/module/joint_driver_module/robstride_controller/robstride_api/src/can_bus.cpp:179-201 | and so are its one-shot commands |
| `CanProtocol.EveryRun` | src/module/joint_driver_module/robstride_controller/robstride_api/src/can_bus.cpp:153-201 | in every interleaving of setters, one-shot commands (locked part and later transmission) and rounds: each slot is the latest periodic command since the latest one-shot; each one-shot frame is on the wire or waiting, exactly once, and right; a round has sent exactly the filled slots it has passed |
| `CanProtocol.SentIsLatest` | src/module/joint_driver_module/robstride_controller/robstride_api/src/can_bus.cpp:157-174 | every frame a round sends is its motor's latest periodic command after the latest one-shot; every other frame is a one-shot command's own |
| `CanProtocol.RoundComplete` | src/module/joint_driver_module/robstride_controller/robstride_api/src/can_bus.cpp:156-175 | a finished round has sent the frame of every filled slot once |
| `JoyVelLimiterClass.MinimiserIsClamp` | src/module/joy_stick_module/src/joy_vel_limiter.cc:42-49 | any minimiser of the box program is, axis by axis, (target - state)/dt clamped to the limits |
| `JoyVelLimiterClass.ClampIsMinimiser` | src/module/joy_stick_module/src/joy_vel_limiter.cc:42-49 | and that clamp is a minimiser whenever the box is not empty |
| `JoyVelLimiterClass.VelocityMoves` | src/module/joy_stick_module/src/joy_vel_limiter.cc:50 | the clamped velocity moves the state by the distance to the target clamped to the limits times dt, which change places for a negative dt |
| `JoyVelLimiterClass.NeverOvershoots` | src/module/joy_stick_module/src/joy_vel_limiter.cc:42-52 | no update passes the target or moves further than the limits allow |
| `JoyVelLimiterClass.MoveManyIs` | src/module/joy_stick_module/src/joy_vel_limiter.cc:42-52 | closed form after n updates to a constant target |
| `JoyVelLimiterClass.ReachedIff` | src/module/joy_stick_module/src/joy_vel_limiter.cc:42-52 | the target is reached exactly when n limited steps cover the distance, and then held |
| `JoyVelLimiterClass.TargetReached` | src/module/joy_stick_module/src/joy_vel_limiter.cc:42-52 | with limits on both sides of 0 every axis reaches a constant target after a number of updates computed beforehand, and stays |
| `JoyVelLimiterClass.JoyVelLimiter.constructor` | src/module/joy_stick_module/src/joy_vel_limiter.cc:5-20 | limits -v and v on every axis, state 0 |
| `JoyVelLimiterClass.JoyVelLimiter.Make` | src/module/joy_stick_module/src/joy_vel_limiter.cc:22-38 | fails exactly when a bound vector has the wrong size |
| `JoyVelLimiterClass.JoyVelLimiter.Reset` | src/module/joy_stick_module/src/joy_vel_limiter.cc:40 | state 0 |
| `JoyVelLimiterClass.JoyVelLimiter.Update` | src/module/joy_stick_module/src/joy_vel_limiter.cc:42-52 | whatever minimiser the solver returns, the new state is the clamped move, for either sign of dt, and the old state for dt = 0 |
| `SimShutdown.EveryRunSafe` | src/module/sim_module/src/sim_module.cc:97-145 | in every interleaving of the render loop, the shutdown and any number of callbacks, no step of any thread touches freed memory |
| `SimShutdown.FreedOnlyAfterOver` | src/module/sim_module/src/sim_module.cc:101-123 | memory is freed only after the render loop stored 2 and left, with no callback at work; a shutdown that gives up has polled 400 times and frees nothing |
| `SimShutdown.ExitNeverGoesBack` | src/module/sim_module/src/sim_module.cc:104-108 | the handshake value never decreases, and what is freed stays freed |
| `SimShutdown.RenderKeeps` | src/module/sim_module/src/simulate.cc:2665-2730 | each step of the render loop, its locked section, its unlocked drawing and its final store keeps the invariant |
| `SimShutdown.ExitComesNearer` | src/module/sim_module/src/simulate.cc:2665-2729 | once the exit is asked for, each unblocked render step brings the final store nearer, and a holder of the lock can always move on to release it |
| `SimShutdown.AskedBecomesOver` | src/module/sim_module/src/simulate.cc:2665-2729 | once the exit is asked for, the render loop has stored 2 after at most eight steps not held up by the lock, however the other threads' steps lie between |
| `SimShutdown.OverIsClosed` | src/module/sim_module/src/sim_module.cc:102-123 | once 2 is stored, a shutdown that has not given up never does, and after at most nine steps not held up by the lock it has freed everything |
| `SimShutdown.CloserWaitsForHolder` | src/module/sim_module/src/sim_module.cc:116-117 | a shutdown held up by the lock waits only for a thread that can move on to release it |
| `SimShutdown.FrameDrawn` | src/module/sim_module/src/simulate.cc:2665-2713 | with no exit asked for and the lock free, one turn of the loop draws a frame and leaves everything as it was |
| `SimShutdown.CallbackWritesIff` | src/module/sim_module/src/sim_module.cc:137-145 | a callback that gets the lock writes its command exactly when the simulation runs and its data is there; either way it lets the lock go |
| `PolicyHistory.ShiftInPlace` | src/module/control_module/src/rl_controller.cc:314-316 | the overlapping copy, element by element from the front, is the shift |
| `PolicyHistory.ShiftedWindow` | src/module/control_module/src/rl_controller.cc:314-316 | shifting the flat window and writing the new frame gives the window after that frame |
| `PolicyHistory.FlattenAt` | src/module/control_module/src/rl_controller.cc:305-320 | component c of the j-th frame of the window stands at j * size + c |
| `PolicyHistory.RlController.constructor` | src/module/control_module/src/rl_controller.cc:67-81 | a new controller is in its first frame, with zero actions |
| `PolicyHistory.RlController.RestartController` | src/module/control_module/src/rl_controller.cc:117-123 | the record of frames starts again and the actions are zero |
| `PolicyHistory.RlController.AppendToHistory` | src/module/control_module/src/rl_controller.cc:299-320 | after any number of frames since a restart the history and the encoder input are the last num_hist of them, oldest first, padded with the first |
| `PolicyHistory.RlController.ComputeObservation` | src/module/control_module/src/rl_controller.cc:286-326 | the unclipped frame, with last actions zeroed if first, joins the history; every value the policy gets is in the clipping range, unchanged inside it and at the nearer end outside |
| `PolicyHistory.RlController.ComputeActions` | src/module/control_module/src/rl_controller.cc:362-371 | every action ends in the clipping range, unchanged if the policy put it there, at the nearer end if not |
| `PolicyHistory.RlController.Cycle` | src/module/control_module/src/rl_controller.cc:125-141 | over any run of the control loop the policy runs in cycles 0, d, 2d, ...; each frame shows the clipped actions of the previous run, the first one zeros |
| `PolicyHistory.PolicyRunsNext` | src/module/control_module/src/rl_controller.cc:128 | the number of policy runs grows exactly in the cycles divisible by the decimation |
| `FlightRecorder.PushKeepsRing` | src/module/control_module/include/control_module/debug_recorder.h:41-48 | a push leaves every one of the newest rows in the slot of its number modulo the capacity |
| `FlightRecorder.DumpSlot` | src/module/control_module/include/control_module/debug_recorder.h:57-67 | the k-th dumped row is read from the slot of the k-th newest row, whether or not the ring has come round, including n = capacity and its multiples |
| `FlightRecorder.RingTrace.constructor` | src/module/control_module/include/control_module/debug_recorder.h:81-89 | a new recorder is off and empty |
| `FlightRecorder.RingTrace.Init` | src/module/control_module/include/control_module/debug_recorder.h:26-35 | on exactly with a column and a capacity; then empty and unfrozen; otherwise the old rows stay |
| `FlightRecorder.RingTrace.Push` | src/module/control_module/include/control_module/debug_recorder.h:41-48 | records the row; off or frozen it changes nothing |
| `FlightRecorder.RingTrace.Dump` | src/module/control_module/include/control_module/debug_recorder.h:52-76 | writes exactly the last min(n, capacity) rows in push order, and freezes the recorder even when the file does not open |
| `StateMachineClass.TargetIff` | src/module/control_module/include/control_module/state_machine.h:42-54 | an event is taken exactly when some configured state with that trigger may follow the current one |
| `StateMachineClass.TargetFirst` | src/module/control_module/include/control_module/state_machine.h:42-54 | of several such states it is the first of the configuration |
| `StateMachineClass.ActiveUnique` | src/module/control_module/include/control_module/state_machine.h:11-23 | with one state per name the current state has one list of controllers |
| `StateMachineClass.StateMachine.Init` | src/module/control_module/include/control_module/state_machine.h:30-40 | the first configured state is current, with its own controllers |
| `StateMachineClass.StateMachine.OnEvent` | src/module/control_module/include/control_module/state_machine.h:42-54 | the first candidate that allows it is taken; otherwise nothing changes |
| `PdControllerClass.RampIs` | src/module/control_module/src/pd_controller.cc:40-55 | k updates after a restart the ramp is at min(1, k/2000); a keeping controller has not moved |
| `PdControllerClass.RampShape` | src/module/control_module/src/pd_controller.cc:66-72 | the command starts at the joint angle, moves monotonically and arrives for good after 2000 updates |
| `PdControllerClass.PDController.RestartController` | src/module/control_module/src/pd_controller.cc:40-46 | the ramp starts again at the latest angles |
| `PdControllerClass.PDController.Update` | src/module/control_module/src/pd_controller.cc:48-55 | one step up the ramp, unless keeping |
| `PdControllerClass.PDController.SetJointStateData` | src/module/control_module/src/controller_base.cc:17-25 | every joint picked out of the message by its index |
| `PdControllerClass.PDController.GetJointCmdData` | src/module/control_module/src/pd_controller.cc:57-81 | one entry per joint at the ramp position, with its gains; `ControlLoop.Bumpless` says what that publishes |
| `ControlLoop.Throttler` | src/module/control_module/src/utilities.cc:4-12 | passes exactly when the interval has gone by, and then moves the mark |
| `ControlLoop.AcceptedSpaced` | src/module/control_module/src/control_module.cc:34-45 | in every run accepted transitions are at least 1000 ms apart, whatever the clock readings |
| `ControlLoop.AcceptedIff` | src/module/control_module/src/control_module.cc:36 | after any run an event is accepted exactly when the state allows it and no event that passed the throttle, accepted or not, lies less than 1000 ms back |
| `ControlLoop.Run` | src/module/control_module/include/control_module/state_machine.h:42-54 | in every run the active controllers are those of the current state |
| `ControlLoop.RemoveOffsets` | src/module/control_module/src/control_module.cc:193-196 | takes off the offset of every joint, once, and leaves the rest |
| `ControlLoop.MergeIs` | src/module/control_module/src/control_module.cc:257-270 | the last entry for a place wins, with its offset |
| `ControlLoop.MergeKeeps` | src/module/control_module/src/control_module.cc:257-270 | a place no entry is for keeps what it had |
| `ControlLoop.MergeInto` | src/module/control_module/src/control_module.cc:261-269 | the in-place loop over one command is that merge; an unknown joint falls to place 0 |
| `ControlLoop.DecidedCommand` | src/module/control_module/src/control_module.cc:256-270 | in one cycle the last controller covering a place, a PD or a learned one, is updated once and its entry, with offset, is published there |
| `ControlLoop.Bumpless` | src/module/control_module/src/control_module.cc:256-270 | after any run and any accepted event, while no further one is accepted, the n-th published command of a joint whose last controller is a PD one has the joint's stiffness and damping, no velocity or effort, and the position m + min(1, n/2000) (target + offset - m), m its raw angle in the last message; a keeping controller stays at m |
| `ControlModuleClass.ControlModule.OnTrigger` | src/module/control_module/src/control_module.cc:35-45 | the callback on the objects is the trigger step: throttle, state machine, restarts |
| `ControlModuleClass.ControlModule.OnJointState` | src/module/control_module/src/control_module.cc:192-200 | the callback on the objects is the joint state step |
| `ControlModuleClass.ControlModule.MainTurn` | src/module/control_module/src/control_module.cc:256-270 | one turn of the main loop on the objects is the cycle step |

## Left out

- Serial, SocketCAN, I2C, SDL, YAML and ROS channels, thread scheduling: foreign calls; what they
  deliver are parameters (bytes, frames, messages, clock readings, times).
- ONNX inference and MuJoCo physics: policy outputs are arbitrary, and a use of the simulator's
  model is only a touch of its memory.
- qpOASES: assumed to return a minimiser within the bounds. Its limit of ten working-set changes,
  and its answer for an empty box, are not modelled.
- IEEE rounding, the hardware memory model and the wrap-around of the 32- and 64-bit counters:
  reals are exact, memory is sequentially consistent, counters are unbounded. The IEEE reading of
  four bytes and the reciprocal square root are parameters.
- ImuFrameFixClass.ImuFrameFix.ApplyQuat: the square root it takes is a parameter required to be
  the nonnegative root; likewise the square root of one half in the constructor.
- Euler-angle accessors, gait sine and cosine and the building of sensed values: trigonometric code;
  the sensed and gait parts of a policy frame are parameters of the right size.
- PolicyHistory.RlController.Cycle: the low-pass filters on the policy's joint targets and the
  trace rows are not part of it; the filter itself is in `LowPassFilter`.
- FlightRecorder.RingTrace.Dump: number formatting is not modelled, and a push that is under way in
  another thread while the dump freezes the ring is not either.
- ControlModuleClass.ControlModule.OnJointState: the place of each joint in a message is fixed, as
  it is once the first message has been taken; that first message, missing joints (an exception)
  and the debug trace are not modelled.
- ControlModuleClass.ControlModule.OnTrigger: events are atomic; two triggers on different threads
  racing on the unguarded time stamp are not modelled.
- CanProtocol.EveryRun: the order of one-shot frames against periodic ones on the wire is left
  open, as the source sends a one-shot frame after releasing the lock.
- CanBusClass.RobstrideMotor.PeriodicCommand: the four bytes of a float parameter are given; MIT
  limit overrides are never read by the encoder and are left out.
- The wait for feedback after enabling and disabling, and error strings: readers of the decoded
  feedback without further state.
- CanBusClass.CanBus.RegisterActuator: motors are registered between rounds, as the device refuses
  it while its control loop runs.
- SimShutdown.EveryRunSafe: starts when `Start` has finished with a loaded model; loading, and a
  second call of `Shutdown`, are not modelled.
- Framebuffer.OledDriver.Display: the panel is taken to be on, in horizontal addressing mode and
  reachable; the initialisation sequence and the mirroring it asks for are not modelled.
- `drawVLine`, `drawRect` and text of the OLED driver: they add only more of the same calls.
