# Factory-program user application, modelled in Dafny

This project models the application layer of the board's factory-test
firmware (`components/user_app/user_app.cpp`). The file starts five
FreeRTOS tasks and registers an LVGL filesystem driver over POSIX. The
model covers:

- **The LVGL filesystem driver** (`FsDriver`). It covers the open-mode
  mapping, how the allocation and `open` results become a handle, the
  seek-origin mapping, and how each callback turns its POSIX result into
  `LV_FS_RES_OK` or `LV_FS_RES_UNKNOWN`.
- **`display_image_from_sdcard`** (`ImageDisplay`). The file-level
  `img_container` is modelled as a class `Display` holding a nullable
  `Container`. The container is created on the first call that finds its
  file. Every later call that finds its file empties it and reuses it; a
  call whose file is missing returns before touching it.
- **`example_button_task`** (`ButtonTask`). Each wake of the event-group wait
  is dispatched on its bits:
  - single click: show `/sdcard/1.jpg`;
  - double click: toggle the backlight between 255 and 0;
  - long press: the SD-card self-test;
  - timeout: clear the label.

  `Step`/`Run` specify the dispatcher. `ButtonLoop` runs the loop over a
  finite sequence of wakes and is proved equal to `Run`.
- **`example_scan_wifi_ble_task`** (`ScanTask`, `Radio`). The task hands the
  antenna from Wi-Fi to BLE, counts scan reports in a `uint8_t`, writes the
  summary label and releases BLE. `Radio` is an explicit ownership state
  machine, and the task's call sequence is proved to be a legal run of it.
- **`user_color_task`** (`ColorTask`). This is a fixed script, interpreted
  over the widgets' flags and scroll position.
- **`example_user_task`** (`UserTask`). This is the telemetry loop with its
  `uint32_t` pass counter and marks. `UserTaskLoop` is proved equal to a
  schedule stated on the unbounded pass number.

Every call the model keeps into FreeRTOS, LVGL, ESP-IDF, the SD card, the
sensors and the radios becomes an `Effect` in a trace. The event-group
waits and `vTaskDelete` have no `Effect`: a wait's result is an input, and
a task's end is the end of its trace. What such a call returns is an input
to the model:
- the event bits of a wait;
- whether `stat` found a file;
- what the SD card read back;
- the scan-queue receive outcomes;
- the sensor samples;
- the results of `open`, `read` and `lseek`.

`Machine` models the C integer types explicitly:
- `uint32_t` arithmetic wraps modulo 2^32;
- `uint8_t` increments wrap at 256;
- `%ld` of a `uint32_t` shows the value reinterpreted as a signed 32-bit
  number.

`Decimal` models `%d` rendering, parsing it back, and `snprintf`
truncation to `size - 1` characters.

Two places where the code is modelled as written:
- **The scan summary.** When the Wi-Fi bit is not set, the code writes
  `wifi : P`, and the model follows the code.
- **The third test in `fs_open_cb`.** It parses as
  `(mode == LV_FS_MODE_WR) | LV_FS_MODE_RD`, which is always true, so any
  mode other than WR or RD gets `O_RDWR | O_CREAT`. The model keeps this
  reading. `FsDriver.OpenFlagsPrecedence` proves that it agrees with the
  parenthesised reading on the three modes LVGL uses, and differs on every
  other mode.

## Model

| member | source | states |
|---|---|---|
| FsDriver.OpenFlagsFor | 09_FactoryProgram/components/user_app/user_app.cpp:28-33 | WR gives write-only, create and truncate; RD gives read-only with no create; any other mode gives read-write with create (the always-true third test) |
| FsDriver.OpenFlagsPrecedence | 09_FactoryProgram/components/user_app/user_app.cpp:33 | the chain as written equals the parenthesised one on modes WR, RD and WR\|RD, and differs on every other mode, where the parenthesised chain leaves flags 0 |
| FsDriver.OpenHandle | 09_FactoryProgram/components/user_app/user_app.cpp:35-43 | a handle is returned iff the allocation succeeded and `open` returned a non-negative descriptor, and it holds that descriptor |
| FsDriver.WhenceRoundTrip | 09_FactoryProgram/components/user_app/user_app.cpp:66-70 | the origin mapping is a bijection between LVGL's SET/CUR/END and POSIX's; any other origin is rejected |
| FsDriver.SeekResult | 09_FactoryProgram/components/user_app/user_app.cpp:63-74 | OK iff the origin is one of the three and `lseek` did not fail |
| FsDriver.ReadResult | 09_FactoryProgram/components/user_app/user_app.cpp:54-61 | OK iff `read` did not fail; the byte count is stored exactly then, as a `uint32_t` |
| FsDriver.TellAsWrittenHidesFailure | 09_FactoryProgram/components/user_app/user_app.cpp:76-82 | as written, a failed `lseek` (-1) is reported as OK at position 0xFFFFFFFF |
| FsDriver.Tell | 09_FactoryProgram/components/user_app/user_app.cpp:76-82 | corrected: OK iff `lseek` did not fail; the position is its result as a `uint32_t` |
| FsDriver.TellCorrectionOnlyOnFailure | 09_FactoryProgram/components/user_app/user_app.cpp:79-80 | the correction changes the reply only when `lseek` fails |
| ImageDisplay.LvglPath | 09_FactoryProgram/components/user_app/user_app.cpp:132-133 | the source is `S:` followed by the path, cut to 63 characters: exact for paths of at most 61 characters, the first 63 characters of `S:` + path for longer ones |
| ImageDisplay.ShowEffectsOutcome | 09_FactoryProgram/components/user_app/user_app.cpp:104-143 | a missing file is only logged; a present file is shown from its `S:` path; the container is created iff the file exists and there is no container yet |
| ImageDisplay.Display.Show | 09_FactoryProgram/components/user_app/user_app.cpp:104-143 | a missing file changes nothing; otherwise the container (fresh if it was NULL, the same object otherwise) holds exactly the new image and is visible |
| ImageDisplay.Container.Clean | 09_FactoryProgram/components/user_app/user_app.cpp:124 | the children are deleted and nothing else changes |
| ButtonTask.ClassifySeesOnlyWaitedBits | 09_FactoryProgram/components/user_app/user_app.cpp:209-215 | the wait mask is 0x23 (bits 0, 1 and 5), and the dispatch depends only on those bits |
| ButtonTask.OneHandlerPerWake | 09_FactoryProgram/components/user_app/user_app.cpp:215-256 | bit 0 wins and shows `/sdcard/1.jpg`; otherwise bit 1 only sets the duty; otherwise bit 5 bumps the counter, writes, reads back and reports pass iff the read-back equals the message; otherwise the label is cleared; no branch touches another's state |
| ButtonTask.DoubleClickToggles | 09_FactoryProgram/components/user_app/user_app.cpp:223-235 | a double-click flips the level 255 to 0 and 0 to 255 and sets the matching PWM mode |
| ButtonTask.BacklightFollowsDoubleClicks | 09_FactoryProgram/components/user_app/user_app.cpp:221-236 | over any sequence of wakes, the level is the start level after an even number of double-clicks and the other extreme after an odd number |
| ButtonTask.SelfTestCountsLongPresses | 09_FactoryProgram/components/user_app/user_app.cpp:237-239 | `sdcard_test` is the number of long presses modulo 2^32 |
| ButtonTask.RunStateIsRun | 09_FactoryProgram/components/user_app/user_app.cpp:213-257 | the state `Run` reaches over the wakes is the state obtained by applying the state transition alone |
| ButtonTask.SelfTestMessageRoundTrip | 09_FactoryProgram/components/user_app/user_app.cpp:240 | the message is the fixed prefix then the counter as a signed 32-bit decimal, never truncated, and it parses back to that value |
| ButtonTask.SelfTestMessageInjective | 09_FactoryProgram/components/user_app/user_app.cpp:240 | distinct counter values give distinct messages, so within one boot a file left by an earlier long-press cannot pass the check (the counter restarts at 0 on every boot, so a file from an earlier boot can) |
| ButtonTask.ContainerCreatedAtMostOnce | 09_FactoryProgram/components/user_app/user_app.cpp:116-125 | over any wakes, the container is created at most once, never if it already existed and never unless it exists at the end; once it exists it stays, and it exists once any single-click has found the file |
| ButtonTask.Dispatch | 09_FactoryProgram/components/user_app/user_app.cpp:216-256 | one pass of the loop body against the shared display gives exactly `Step`'s level, counter, container existence and calls; an existing container is kept and a new one is fresh; a wake other than a single-click that finds the file leaves the container's images and hidden flag untouched, and one that finds it leaves exactly `S:/sdcard/1.jpg` shown and visible |
| ButtonTask.ButtonLoop | 09_FactoryProgram/components/user_app/user_app.cpp:201-258 | running the loop over the wakes produces `Run`'s trace, level and counter, and leaves the display's container as `Run` predicts; the container is the old object or a fresh one; if no single-click found the file the container is the same object with the same contents, and otherwise it holds exactly `S:/sdcard/1.jpg` and is visible |
| ScanTask.LeadingReceives | 09_FactoryProgram/components/user_app/user_app.cpp:183-188 | the loop consumes exactly the leading successful receives, and the next receive is a timeout |
| ScanTask.ScanWifiBleTask | 09_FactoryProgram/components/user_app/user_app.cpp:172-200 | the count is the number of successful receives modulo 256, and the trace is the hand-over, the drain, the summary label and the BLE release |
| ScanTask.ScanSummaryNotTruncated | 09_FactoryProgram/components/user_app/user_app.cpp:189-196 | the summary is at most 28 characters, so the size of 45 never truncates it |
| ScanTask.ScanSummaryRoundTrip | 09_FactoryProgram/components/user_app/user_app.cpp:189-196 | the label parses back to the BLE count and to the AP number when the Wi-Fi bit was set, or to `P` when it was not |
| ScanTask.ScanRadioOwnership | 09_FactoryProgram/components/user_app/user_app.cpp:178-198 | the task's calls are a legal run of the radio-ownership machine from Wi-Fi up to no radio up: BLE only comes up after Wi-Fi is released, and it is released at the end |
| Radio.RunAppend | 09_FactoryProgram/components/user_app/user_app.cpp:179-198 | running two traces in turn is running their concatenation |
| ColorTask.PhaseShowsOnly | 09_FactoryProgram/components/user_app/user_app.cpp:280-283 | each phase leaves exactly its own image shown, whatever was shown before, and does not touch the carousel |
| ColorTask.OneImageAtEachDwell | 09_FactoryProgram/components/user_app/user_app.cpp:276-295 | at each of the three dwells exactly one image shows (1, then 2, then 3) and the carousel is locked; at the end it is scrollable and has moved 320 px left |
| UserTask.Pad2RoundTrip | 09_FactoryProgram/components/user_app/user_app.cpp:316 | a `%02d` field parses back to the number it shows |
| UserTask.RtcTextFits | 09_FactoryProgram/components/user_app/user_app.cpp:316 | for a four-digit year and two-digit fields, the clock text is at most 26 characters and is not truncated |
| UserTask.FiringRule | 09_FactoryProgram/components/user_app/user_app.cpp:312-329 | with `uint32_t` counter and mark, `stimes - mark > p - 1` holds exactly on passes that are positive multiples of p |
| UserTask.ImuAlternates | 09_FactoryProgram/components/user_app/user_app.cpp:323-326 | over any samples, the IMU label alternates acc, gyro, acc, … starting with acc, once per firing |
| UserTask.BatteryLabelOnlyNonZero | 09_FactoryProgram/components/user_app/user_app.cpp:332-337 | every battery label written shows a non-zero reading |
| UserTask.LastDueStep | 09_FactoryProgram/components/user_app/user_app.cpp:312-331 | a feed's mark moves to the current pass exactly when it fires, and stays put otherwise |
| UserTask.ImuFlagStep | 09_FactoryProgram/components/user_app/user_app.cpp:323-326 | `imu_flag` flips on each IMU firing and is unchanged otherwise; it is 0 exactly before the odd-numbered firings |
| UserTask.RunPass | 09_FactoryProgram/components/user_app/user_app.cpp:312-338 | one pass of the loop body polls exactly the due feeds and moves their marks, keeping the marks and the IMU flag as the schedule predicts |
| UserTask.UserTaskLoop | 09_FactoryProgram/components/user_app/user_app.cpp:298-342 | the loop run for n passes emits exactly the schedule of passes 0 … n-1 |
| Decimal.IntToStringRoundTrip | 09_FactoryProgram/components/user_app/user_app.cpp:191 | `%d` rendering parses back to the integer |
| Decimal.Snprintf | 09_FactoryProgram/components/user_app/user_app.cpp:191 | the output is the text when it fits in `size - 1` characters, and exactly its first `size - 1` characters otherwise |
| Machine.AsSigned32 | 09_FactoryProgram/components/user_app/user_app.cpp:240 | `%ld` of a `uint32_t` shows a signed 32-bit value congruent to it modulo 2^32 |
| FsDriver.ParenthesisedOpenFlags | 09_FactoryProgram/components/user_app/user_app.cpp:31-33 | reference reading of the open-mode chain with the third test as `mode == (WR \| RD)`, against which `OpenFlagsPrecedence` compares the code |
| FsDriver.PosixWhence | 09_FactoryProgram/components/user_app/user_app.cpp:67-70 | the seek-origin mapping: SET, CUR and END map to their POSIX origins, any other origin to none |
| FsDriver.TellAsWritten | 09_FactoryProgram/components/user_app/user_app.cpp:76-82 | `fs_tell_cb` as written: the result of `lseek` is stored as a `uint32_t` and tested `< 0` on that unsigned value |
| ImageDisplay.ShowEffects | 09_FactoryProgram/components/user_app/user_app.cpp:104-143 | the calls of one `display_image_from_sdcard`: the not-found log, or create-or-clean, image create, `S:` source, un-hide and bring to front |
| ButtonTask.Classify | 09_FactoryProgram/components/user_app/user_app.cpp:216-254 | the handler a wake picks: the first of bits 0, 1 and 5 that is set, else the label clear |
| ButtonTask.ShowsImage | 09_FactoryProgram/components/user_app/user_app.cpp:217-220 | a wake that reaches the drawing code: bit 0 is the first set bit and `stat` finds `/sdcard/1.jpg` |
| ButtonTask.SelfTestMessage | 09_FactoryProgram/components/user_app/user_app.cpp:240 | the self-test text: the prefix then `%ld` of the counter, formatted into 50 bytes |
| ButtonTask.Next | 09_FactoryProgram/components/user_app/user_app.cpp:216-256 | the level, counter and container existence after one loop pass |
| ButtonTask.Output | 09_FactoryProgram/components/user_app/user_app.cpp:216-256 | the calls one loop pass makes: the image display, the duty setting, the write/read/verdict of the self-test, or the label clear |
| ButtonTask.Step | 09_FactoryProgram/components/user_app/user_app.cpp:216-256 | one loop pass: `Next` and `Output` together |
| ButtonTask.Run | 09_FactoryProgram/components/user_app/user_app.cpp:213-257 | the loop over a finite sequence of wakes: the final state and the concatenated calls |
| ScanTask.Drain | 09_FactoryProgram/components/user_app/user_app.cpp:183-188 | the receive loop's calls: each success then a 20 ms delay, and the final timed-out receive |
| ScanTask.ScanSummary | 09_FactoryProgram/components/user_app/user_app.cpp:189-196 | the summary text, `ble : %d wifi : %d` or `ble : %d wifi : P`, formatted with size 45 |
| ScanTask.ScanTrace | 09_FactoryProgram/components/user_app/user_app.cpp:178-198 | the task's whole call sequence for a given wait result and receive outcomes |
| Radio.Next | 09_FactoryProgram/components/user_app/user_app.cpp:179-197 | the ownership transition of each radio call the task makes; a call in the wrong state has none |
| Radio.Run | 09_FactoryProgram/components/user_app/user_app.cpp:179-197 | a whole call sequence run through the ownership machine, failing at the first misuse |
| ColorTask.ScriptShape | 09_FactoryProgram/components/user_app/user_app.cpp:276-295 | the script is the carousel lock, the three phases in the source's order (1 over 2 and 3, 2 over 1 and 3, 3 over 2 and 1), then unlock and the 320 px scroll |
| ColorTask.Apply | 09_FactoryProgram/components/user_app/user_app.cpp:279-293 | one call's effect on the widgets: add-flag sets a flag, clear-flag clears it, a scroll of the carousel moves it; nothing else changes |
| UserTask.Pad2 | 09_FactoryProgram/components/user_app/user_app.cpp:316 | `%02d`: 0 to 9 get a leading zero, every other value is shown as `%d`; for 0 to 99 the field is exactly two digits |
| UserTask.RtcText | 09_FactoryProgram/components/user_app/user_app.cpp:316 | the clock label text, formatted with size 45 |
| UserTask.PassEffects | 09_FactoryProgram/components/user_app/user_app.cpp:312-339 | the calls of pass k: clock and IMU on positive multiples of 5, battery on positive multiples of 10 (its label only for a non-zero reading), then the 200 ms delay |
| UserTask.Schedule | 09_FactoryProgram/components/user_app/user_app.cpp:310-341 | the calls of passes 0 to n-1, in order |

## Left out

- FreeRTOS itself is not modelled: task creation, priorities, cores, scheduling and the concurrency between the five tasks. Each task is modelled on its own.
- Delays and wait timeouts appear only as `Delay` effects and as timeout outcomes; nothing is timed.
- The endless loops of the button task and the telemetry task run over a finite sequence of inputs, one loop pass per element.
- In the scan task, running past the supplied receive outcomes counts as a timeout.
- LVGL object construction, sizing, alignment and styling are not modelled (the `lv_obj_set_*` calls in `display_image_from_sdcard`). Only the container's existence, its children and its hidden flag are kept.
- `lv_fs_posix_init` is not modelled: the registration of the driver under the letter `S`.
- `fs_close_cb` is not modelled: it always returns OK.
- The POSIX calls, the SD-card driver and the sensors are inputs, not models.
- The self-test's read-back is given as the string up to its terminating NUL.
- Floating-point formatting (`%.2f`) is not modelled. IMU and battery readings are carried as `real` inside `AccText`, `GyroText` and `VbatText`; the SD-card size is not represented, since `example_sdcard_task` is not modelled.
- Strings are sequences of characters and `snprintf` truncation counts characters, not bytes; ASCII text is assumed, as in every path and message the core formats (a non-ASCII path could be cut inside a UTF-8 sequence in C).
- Log output other than the image-not-found error is not modelled.
- `example_sdcard_task`, `User_LCD_Before_Init` and `User_LCD_After_Init` are not part of this model.
- `READ_BIT` and `SET_BIT` are defined outside this file; they are taken as the usual bit-index macros, `(x >> n) & 1` and `x |= 1 << n` (`Machine.ReadBit`, `Machine.SetBit`).
- The numeric values of LVGL's `lv_fs_mode_t` and `lv_fs_whence_t` are LVGL's own, taken as 1/2 and 0/1/2.
- `ScanTask.ScanWifiBleTask`: `user_esp_bsp.apNum` is an input modelled as a 32-bit signed integer.
- `UserTask.UserTaskLoop`: the battery reading is taken as fresh on every firing. The source keeps `adc_value` across passes; a driver that left it unchanged would re-show the old value.

## Findings

| source | as written | input that shows it | evidently intended | confidence | as-written member | corrected member |
|---|---|---|---|---|---|---|
| 09_FactoryProgram/components/user_app/user_app.cpp:79-80 | `fs_tell_cb` stores `lseek`'s result in the `uint32_t` behind `pos_p`, then tests it `< 0`, which is never true | `lseek` returns -1 | report `LV_FS_RES_UNKNOWN` when `lseek` fails | not executed; high | FsDriver.TellAsWrittenHidesFailure | FsDriver.Tell |
