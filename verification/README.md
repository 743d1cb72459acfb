# Watchy-Screen core, modelled in Dafny

Watchy-Screen is firmware for the Watchy e-paper watch, an ESP32 with an RTC
chip and four buttons. The watch spends most of its life in deep sleep. A
wake from the RTC alarm, a button or the internal timer runs `Watchy::init`.
`init` calls the registered on-wake callbacks, turns the wake cause into
events for the current `Screen`, and drains the background tasks and the
event queue. Then it arms the button wake-up and goes back to sleep.

This project models that core:

- the wake/sleep coordinator and the Wi-Fi reference count;
- the button event queue and its dispatch;
- the RTC driver for the DS3231 and the PCF8563;
- the time-element checks;
- the separator field splitter;
- the Olson-to-POSIX time-zone lookup;
- the time, location and weather fetches;
- the word-wrapping text layout;
- the carousel and set-time screens;
- the BLE over-the-air update callbacks;
- the sketch's `setup` and `loop`.

Code that updates retained or global state becomes a class. Each class method
is specified against pure functions of the old state. Those functions carry
the properties the firmware relies on, proved as lemmas.

Side effects the model cannot see are recorded in a `log` (or `calls`/`cmds`)
sequence, in the order they are made. This covers display refreshes, events
sent, radio on/off, task starts and chip commands. Outcomes of hardware and
network calls are method parameters:

- `connectOk`, `beginOk`, `httpCode`;
- the reply fields;
- `now()` readings;
- the RTC temperature;
- `mktime` and `localtime_r` results;
- the registry after each background `handle()`.

Modules, one per file:

| module | file | models |
|---|---|---|
| `Fields` | fields.dfy | `getValue` (src/Watchy.cpp; its copy `WatchyRTC::_getValue`) |
| `TimeElements` | time_elements.dfy | `validTime`, `fixTime` |
| `Watchy` | watchy.dfy | buttons, Wi-Fi count, `init`, `deepSleep`, screens |
| `Events` | events.dfy | the button queue and the event handler task |
| `TzTable` | tz_table.dfy | the `posix` and `zones` tables |
| `GetLocation` | get_location.dfy | FNV-1a hash, zone search, `getLocation` |
| `GetWeather` | get_weather.dfy | `getWeather` |
| `SyncTime` | sync_time.dfy | `syncTime`, `timeSyncCallback` |
| `TimeLib` | time_lib.dfy | `makeTime` and `breakTime` of the TimeLib library, as `WatchyRTC` calls them |
| `Rtc` | watchy_rtc.dfy | `WatchyRTC` |
| `TextWrap` | text_wrap.dfy | `drawWordWrappedText` |
| `SetTime` | set_time_screen.dfy | `SetTimeScreen` |
| `Carousel` | carousel_screen.dfy | `CarouselScreen` |
| `Ble` | ble.dfy | `BLE` OTA callbacks |
| `Main` | main.dfy | the sketch `setup`/`loop` |

## Model

| member | source | states |
|---|---|---|
| Fields.GetValue | src/Watchy.cpp:30-44 | the loop returns exactly `FieldAt(data, separator, index)`: the `index`-th field of the split, the whole string when the index is negative (the loop never runs and `substring(0, -1)` swaps its bounds), and the empty string when there are fewer fields |
| Fields.FieldsOfJoin | src/Watchy.cpp:30-44 | splitting fields joined by a separator they do not contain gives the fields back, so each one is found at its index, and every index past the last gives an empty string |
| Fields.EmptyHasNoFields | src/Watchy.cpp:30-44 | every field of the empty string is empty |
| Fields.TrailingSeparatorStays | src/Watchy.cpp:37-43 | a trailing separator is kept in the last field: `"a,b,"` splits as `["a", "b,"]` |
| Fields.FieldsSplit | src/Watchy.cpp:32-43 | for data not ending in the separator, the fields are the plain split at every separator |
| Fields.SplitJoin | src/Watchy.cpp:32-43 | plain split inverts join for separator-free fields |
| TimeElements.ValidTimeIsUpperBounds | src/Watchy.cpp:114-134 | `ValidTime` holds iff each checked field is under its limit: second and minute under 60, hour under 24, month at most 12, day at most 31, weekday at most 7; there is no lower bound |
| TimeElements.ZeroDateIsValid | src/Watchy.cpp:114-134 | the all-zero record, with day and month 0, passes the checks, and day 32 is refused |
| TimeElements.Repair | src/Watchy.cpp:136-156 | the repaired time is valid and keeps the year |
| TimeElements.RepairKeepsInRange | src/Watchy.cpp:138-153 | each in-range element is left unchanged by the repair |
| TimeElements.RepairIdempotent | src/Watchy.cpp:136-156 | repairing a valid time changes nothing, and repairing twice equals repairing once |
| TimeElements.FixTime | src/Watchy.cpp:136-156 | `fixTime` returns the repaired, valid time and the outcome of the RTC write |
| Watchy.OneEventIffOneButton | src/Watchy.cpp:46-76 | a button wake sends an event iff exactly one button bit is set, the event is that button's, and bits outside the button mask are ignored |
| Watchy.Acquire | src/Watchy.cpp:334-346 | `getWiFi` fails exactly when the count is 0 and the connection fails, and then keeps the count; the count stays an `unsigned int` |
| Watchy.Release | src/Watchy.cpp:348-357 | the new count is an `unsigned int`, and the radio goes off exactly when the count was 1 |
| Watchy.AcquireThenRelease | src/Watchy.cpp:334-357 | a held radio is reused without connecting, a failed get leaves the count alone, and release after a successful get restores the count, switching the radio off exactly when it goes back to 0 |
| Watchy.ReplayCounts | src/Watchy.cpp:334-357 | after any sequence of successful gets and releases the count is start + gets - releases, modulo 2^32 (`unsigned int`) |
| Watchy.HeldPairs | src/Watchy.cpp:334-357 | wrapping a balanced action sequence in get/release keeps gets and releases paired, the release appearing exactly when the get succeeded |
| Watchy.TraceCounts | src/Watchy.cpp:334-357 | one get records one successful get or none; one release records one release |
| Watchy.WakeEvents | src/Watchy.cpp:185-222 | what `WakeDispatch` sends: timer and RTC-alarm wakes send exactly one `UPDATE_SCREEN`, the alarm wake clearing both alarms first; a button wake sends what `handleButtonPress` sends; any other cause sends nothing and shows the watch face with a full refresh |
| Watchy.CallbacksBeforeEvents | src/Watchy.cpp:181-222 | every on-wake callback runs before any wake event is sent |
| Watchy.OnWakesInOrder | src/Watchy.cpp:181-183 | the callbacks are called in registration order, each with the wake cause |
| Watchy.ButtonWakeArmed | src/Watchy.cpp:230-240 | deep sleep always arms the button wake (EXT1 on the four buttons) right before sleeping |
| Watchy.System.constructor | src/Watchy.cpp:13-24 | boot state: no screen, no callbacks, no tasks, radio count 0 |
| Watchy.System.AddOnWakeCallback | src/Watchy.cpp:85 | appends the callback and changes nothing else |
| Watchy.System.Send | src/Watchy.cpp:48-71 | `Event::send`, as `handleButtonPress` calls it: records the event sent and changes nothing else |
| Watchy.System.ShowScreen | src/Watchy.cpp:273-281 | records one display of the given screen with the given refresh and changes nothing else |
| Watchy.System.SetUpdateIntervalMs | src/Screens/SetTimeScreen.cpp:63 | `setUpdateInterval`, as the set-time screen calls it: records the new wake-timer period and changes nothing else |
| Watchy.System.GetWiFi | src/Watchy.cpp:334-346 | result and new count are `Acquire(old count, connectOk)`; the trace connects only at count 0 |
| Watchy.System.ReleaseWiFi | src/Watchy.cpp:348-357 | new count is `Release(old count)`; the radio goes off only when the count reaches 0 |
| Watchy.System.ShowWatchFace | src/Watchy.cpp:273-281 | redraws the current screen and changes nothing else |
| Watchy.System.SetScreen | src/Watchy.cpp:286-292 | a null screen changes nothing; otherwise the screen is replaced and shown with a partial refresh |
| Watchy.System.HandleButtonPress | src/Watchy.cpp:46-76 | appends exactly `ButtonActions(wakeBits)`, which `OneEventIffOneButton` characterises |
| Watchy.System.DeepSleep | src/Watchy.cpp:230-240 | appends the sleep sequence and changes no state |
| Watchy.System.RunOnWakeCallbacks | src/Watchy.cpp:181-183 | appends one call per registered callback, in order |
| Watchy.System.DispatchWake | src/Watchy.cpp:185-222 | appends `WakeDispatch(cause, wakeBits, screen)`, characterised by `WakeEvents` |
| Watchy.System.Drain | src/Watchy.cpp:223-226 | handles until the task registry is empty: every registry before the last handle was non-empty, and the result is done iff the last one is empty |
| Watchy.System.Init | src/Watchy.cpp:172-228 | the full wake: init task added, time read, callbacks, dispatch, init task removed, drain, then deep sleep iff the drain emptied the registry, which is then empty |
| Events.RoutingInvertsIsr | src/Events.cpp:60-88 | each button's interrupt id is dispatched to that button's handler, and only those ids dispatch to any handler |
| Events.Dispatch | src/Events.cpp:82-88 | exactly the ids strictly between `WATCHY_EVENT` and `WATCHY_EVENT_MAX` reach a screen method |
| Events.IsrEvent | src/Events.cpp:60-72 | each button's interrupt sends an id between the sentinels, which the dispatch routes to that button's method |
| Events.PressesDispatchInOrder | src/Events.cpp:60-88 | a sequence of button interrupts is dispatched as the same buttons' handlers, in order |
| Events.EventQueue.constructor | src/Events.cpp:58 | no queue, no interrupts attached |
| Events.EventQueue.SendEvent | src/Events.cpp:92-94 | enqueues the id at the back when the 10-slot queue has room, and drops it otherwise |
| Events.EventQueue.ButtonIsr | src/Events.cpp:60-72 | enqueues that button's id under the same rule |
| Events.EventQueue.StartEventHandler | src/Events.cpp:96-122 | creates an empty 10-slot queue, sends `WATCHY_EVENT_MAX` into it and attaches the button interrupts |
| Events.EventQueue.HandlerTask | src/Events.cpp:74-90 | consumes from the front of the queue and calls the handler of each id taken, in order: `DispatchAll(taken)` |
| TzTable.ZonesWellFormed | src/GetLocation.cpp:30-735 | the `zones` table has 595 entries sorted strictly by hash, each hash a 21-bit key, and each index into the 101 `posix` strings |
| GetLocation.NulIndex | src/GetLocation.cpp:745-752 | the position of the first NUL byte: in range, a NUL, and no NUL before it |
| GetLocation.FnvHash | src/GetLocation.cpp:739-752 | the loop computes the FNV-1a 32-bit hash of the bytes before the NUL |
| GetLocation.FnvReference | src/GetLocation.cpp:739-752 | the hash with the source's offset basis and prime gives the published FNV-1a 32-bit values: the basis for "", 0xe40c292c for "a", 0xbf9cf968 for "foobar" |
| GetLocation.Key | src/GetLocation.cpp:762 | the hash of the name masked to 21 bits, so below 2^21 like every key of the table |
| GetLocation.LinearLookupFinds | src/GetLocation.cpp:760-777 | in an ascending table, the lookup gives the posix string of the entry whose hash is the key, and `"UTC0"` when no entry has it |
| GetLocation.Search | src/GetLocation.cpp:761-776 | the bisection returns the same result as the linear lookup |
| GetLocation.TimezoneIsKnown | src/GetLocation.cpp:754-777 | every Olson name maps to one of the table's POSIX strings or `"UTC0"`, and the matching entry's string when its key is present |
| GetLocation.MelbourneIsDefault | src/GetLocation.cpp:18-24 | the key of "Australia/Melbourne" is in the table and maps to the default time zone |
| GetLocation.CityTerminatedIffShort | src/GetLocation.cpp:812 | `strncpy` into the 30-byte city leaves a terminator iff the name is shorter than 30, and then the prefix is the name plus NUL |
| GetLocation.StrNCopy | src/GetLocation.cpp:812 | `strncpy`: the buffer has exactly `n` characters, the first ones copied from the source and the rest NULs |
| GetLocation.RateLimitWindow | src/GetLocation.cpp:780-784 | `TooSoon` refuses requests for exactly `LOCATION_UPDATE_INTERVAL` units after the last fetch, and once a request is let through every later one is too |
| GetLocation.LocationTracePaired | src/GetLocation.cpp:779-837 | every path of `getLocation` pairs its radio gets and releases |
| GetLocation.NestedLocationKeepsRadio | src/GetLocation.cpp:787-836 | called with the radio held, `getLocation` neither reconnects nor switches the radio off |
| GetLocation.LocationService.constructor | src/GetLocation.cpp:18-24 | the retained location starts as Melbourne with the default time zone, never fetched |
| GetLocation.LocationService.GetPosixTZforOlson | src/GetLocation.cpp:760-777 | returns the lookup of the hashed name in the table |
| GetLocation.LocationService.GetLocation | src/GetLocation.cpp:779-837 | rate limit, radio, request and error outcome, with the trace and the stamp each path leaves; the radio count is restored |
| GetLocation.LocationService.Fetch | src/GetLocation.cpp:793-834 | the request's error, trace and stamp |
| GetWeather.RtcCelsius | src/GetWeather.cpp:27 | whole degrees from a byte of quarter degrees, rounded down |
| GetWeather.WeatherTraceBalanced | src/GetWeather.cpp:23-71 | every path of `getWeather`, nested `getLocation` included, pairs its radio gets and releases |
| GetWeather.WeatherKeepsRadio | src/GetWeather.cpp:23-71 | the nested `getLocation` does not reconnect or drop the radio that `getWeather` holds |
| GetWeather.WeatherService.constructor | src/GetWeather.cpp:11-13 | 22 degrees, condition 800, never fetched |
| GetWeather.WeatherService.GetWeather | src/GetWeather.cpp:15-73 | the error is decided by rate limit, then radio, then the request; the cached weather is replaced only on success, gets the RTC temperature on radio failure, and is otherwise unchanged; the stamp moves only on success; the radio count is restored |
| GetWeather.WeatherService.UseRtcTemperature | src/GetWeather.cpp:26-33 | sets the temperature from the RTC and keeps everything else |
| GetWeather.WeatherService.Request | src/GetWeather.cpp:44-70 | the nested location update, then `OK` on HTTP 200 after a successful begin, else `REQUEST_FAILED` |
| SyncTime.SyncTracePaired | src/SyncTime.cpp:34-56 | every path of `syncTime` pairs its radio gets and releases |
| SyncTime.Clocks.constructor | src/SyncTime.cpp:12-15 | never synced, SNTP reset |
| SyncTime.Clocks.TimeSyncCallback | src/SyncTime.cpp:23-32 | all three clocks get the server time, the stamp is set, and the waiter is woken |
| SyncTime.Clocks.SyncTime | src/SyncTime.cpp:34-56 | the error and radio trace of each path; the three clocks and the stamp take the server time exactly when a reply arrives over a held radio from a reset SNTP client, and are otherwise unchanged; the busy check's status read turns a COMPLETED status back to RESET; the time zone is configured once the radio is held |
| SyncTime.StatusAfterGet | src/SyncTime.cpp:36-38 | reading the status through `sntp_get_sync_status()` never leaves COMPLETED behind and leaves every other status as it was |
| SyncTime.CompletedBlocksOnce | src/SyncTime.cpp:28-41 | after the callback marks the sync COMPLETED, the next `syncTime` reports NOT_READY without touching the radio, and the one after it gets and releases the radio as a fresh sync does |
| TimeLib.MakeTime | src/WatchyRTC.cpp:68-72 | the seconds since 1970, wrapped into a `uint32_t` |
| TimeLib.BreakTime | src/WatchyRTC.cpp:48-51 | every `uint32_t` breaks into a time of day on the clock, a weekday 1..7, and a day of a real month |
| TimeLib.FindYear | src/WatchyRTC.cpp:48-51 | the year loop stops at the year whose days contain the day count |
| TimeLib.FindMonth | src/WatchyRTC.cpp:48-51 | the month loop stops at the month that contains the day of the year, with the day within it |
| TimeLib.DateOf | src/WatchyRTC.cpp:48-51 | the two loops give a date on the calendar whose day count since 1970 is the one given |
| TimeLib.DateOfUnique | src/WatchyRTC.cpp:48-51 | that date is the only one with that day count |
| TimeLib.BreakTimeOfDate | src/WatchyRTC.cpp:48-51 | `breakTime` inverts the calendar: the seconds of a date and time of day break into exactly those fields |
| TimeLib.MakeBreakTime | src/WatchyRTC.cpp:48-72 | every `uint32_t` survives `breakTime` then `makeTime` |
| TimeLib.BreakMakeTime | src/WatchyRTC.cpp:48-72 | a real date of the years 1970 to 2105 survives `makeTime` then `breakTime`, with the weekday recomputed from its day count |
| TimeLib.DayPastMonthEnd | src/WatchyRTC.cpp:48-72 | a day past the end of its month, by no more than the next month's length, comes back as the matching day of the next month |
| Rtc.DayOfWeekIsCalendar | src/WatchyRTC.cpp:183-188 | `DayOfWeek`, Sakamoto's formula, gives the proleptic Gregorian weekday (days since 1 Jan of year 1, mod 7, with 0 = Sunday), always in 0..6 |
| Rtc.FirstOf2000IsSaturday | src/WatchyRTC.cpp:183-188 | 1 January 2000 is day 6, a Saturday |
| Rtc.DsYearRoundTrip | src/WatchyRTC.cpp:48-72 | `DsRead` and `DsWrite`, the DS3231 year shifts between the 1970 and 2000 epochs, invert each other on every byte, in both orders |
| Rtc.DsWrite | src/WatchyRTC.cpp:68-70 | the year handed to `makeTime` is one `DsRead` moves back to the year given |
| Rtc.DsStore | src/WatchyRTC.cpp:68-72 | what the DS3231 holds after `set`: `breakTime` of `makeTime`'s seconds, always a day of a real month |
| Rtc.DsRoundTrip | src/WatchyRTC.cpp:48-72 | a real date of the years 2000 to 2105 written to the DS3231 reads back unchanged, except that its weekday is the calendar's (1 for Sunday) |
| Rtc.DsStoreDate | src/WatchyRTC.cpp:48-72 | every field but the weekday of a real date survives the DS3231 write and read |
| Rtc.DsStoreWeekday | src/WatchyRTC.cpp:68-72 | the weekday the DS3231 holds after `set` is the calendar's, whatever weekday was given |
| Rtc.DsDayPastMonthEnd | src/WatchyRTC.cpp:48-72 | a day past the end of its month written to the DS3231 reads back as a day of the next month (31 February as 3 March, or 2 March in a leap year) |
| Rtc.WeekdayIsCalendar | src/WatchyRTC.cpp:48-51 | the weekday `breakTime` derives from the day count since 1970 is the calendar's for the same date: the day ordinal modulo 7, plus 1 |
| Rtc.DayNumberSince1970 | src/WatchyRTC.cpp:68-72 | the calendar's day ordinal is 719162 plus the day count `makeTime` adds up |
| Rtc.PcfRead | src/WatchyRTC.cpp:53-64 | a month register of 0 reads as January 2021, so the month read is never 0; the weekday is shifted to TimeLib's 1-based numbering |
| Rtc.PcfRoundTrip | src/WatchyRTC.cpp:53-79 | a time written to the PCF8563 reads back unchanged, except that its weekday is the calendar's, if and only if second and minute are below 80, hour and day below 40 and year below 160 |
| Rtc.PcfWrite | src/WatchyRTC.cpp:73-76 | the PCF8563 registers: the century bit clear, a month register that is never the power-on 0, and a weekday register that decodes to the calendar's 0..6 |
| Rtc.MaskedBcd | src/WatchyRTC.cpp:53-76 | a field survives BCD encoding, its register's mask and BCD decoding exactly when its tens fit the masked bits |
| Rtc.MonthBcd | src/WatchyRTC.cpp:53-55 | a month of 1..12 written in BCD never reads as the power-on month 0 and leaves the century bit clear |
| Rtc.PcfMaskExample | src/WatchyRTC.cpp:60-64 | minute 99 reads back as 19 and day 45 as 5 |
| Rtc.ToIntOfDecimal | src/WatchyRTC.cpp:149-179 | `toInt` reads back every number written in decimal, up to the first non-digit |
| Rtc.ToIntOfNegative | src/WatchyRTC.cpp:149-179 | `toInt` skips leading blanks and negates the number after a minus sign |
| Rtc.SameRefreshReprogramsNothing | src/WatchyRTC.cpp:92-139 | setting the current refresh mode again only re-enables the EXT0 wake when ticking |
| Rtc.WakeSourceFollowsMode | src/WatchyRTC.cpp:92-139 | EXT0 wake is enabled iff the new mode ticks, and disabled iff the old one ticked and the new one does not |
| Rtc.WatchyRtc.constructor | src/WatchyRTC.cpp:9-12 | refresh mode none, nothing armed |
| Rtc.WatchyRtc.SetRefresh | src/WatchyRTC.cpp:92-139 | the mode becomes `r`, the alarms or timer and the EXT0 wake follow it (`Valid`), and the command sequence is `RefreshCmds` |
| Rtc.WatchyRtc.SetWakeSource | src/WatchyRTC.cpp:94-100 | the EXT0 wake follows the new mode |
| Rtc.WatchyRtc.ProgramDs | src/WatchyRTC.cpp:104-124 | the DS3231 alarm 1 is armed iff the mode is per-second, alarm 2 iff per-minute |
| Rtc.WatchyRtc.ProgramPcf | src/WatchyRTC.cpp:125-137 | the PCF8563 timer runs at 1 Hz, 1/60 Hz or not at all, as the mode says |
| Rtc.WatchyRtc.Config | src/WatchyRTC.cpp:31-38 | a non-empty date string sets the active chip from the parsed fields (on the DS3231, `breakTime` of their `makeTime`), and the refresh mode becomes per-minute |
| Rtc.WatchyRtc.Read | src/WatchyRTC.cpp:48-66 | reads the active chip through `DsRead` or `PcfRead`; after `Set`, `DsRoundTrip`, `DsDayPastMonthEnd`, `PcfRoundTrip` and `PcfMaskExample` give what is read |
| Rtc.WatchyRtc.Set | src/WatchyRTC.cpp:68-80 | the DS3231 then holds `DsStore(tm)`; the PCF8563 holds `PcfWrite(tm)` and its alarm flag is cleared; nothing else changes |
| Rtc.WatchyRtc.Temperature | src/WatchyRTC.cpp:141-147 | the DS3231 reading modulo 256, and 255 on the PCF8563 |
| TextWrap.CharWidth | src/GFXTextUtil.cpp:15-24 | the glyph's x advance inside the font's range, 0 outside it, and always a byte |
| TextWrap.CharDescent | src/GFXTextUtil.cpp:33-42 | the glyph's y offset plus height inside the range, 0 outside it, and always within -128..382 |
| TextWrap.SkipBlanks | src/GFXTextUtil.cpp:98 | stops at the first non-blank or newline, never past the NUL |
| TextWrap.SpaceBreakAsWritten | src/GFXTextUtil.cpp:92-103 | the break as written: the blanks and one newline after the space are consumed, the new line starts after them one `yAdvance` lower with the space's width as `xPos`, and the next read is one past the new line start |
| TextWrap.SpaceBreak | src/GFXTextUtil.cpp:92-103 | the corrected break at an overflowing space: it ends the walk exactly when the consumed blanks (and one newline) reach the terminator, and otherwise is the source's break, a well-formed state strictly further on |
| TextWrap.Step | src/GFXTextUtil.cpp:71-142 | one turn of the loop; a continuing turn strictly advances and stays in the text, and a turn only overruns at a space |
| TextWrap.Overflow | src/GFXTextUtil.cpp:90-126 | the three line breaks of an overflowing character never return: each continues strictly further on, except the break at a space, which may overrun |
| TextWrap.RunBaselines | src/GFXTextUtil.cpp:69-125 | the lines of the walk, up to a `return` or an overrun, are set on consecutive baselines, one `yAdvance` apart |
| TextWrap.LinesOnBaselines | src/GFXTextUtil.cpp:69-125 | from the start, every line starts at the box's left edge, and line `k` is on baseline `y + (k+1)·yAdvance` |
| TextWrap.LeftEdge | src/GFXTextUtil.cpp:75-117 | every cursor is set at the box's left edge |
| TextWrap.RunPositions | src/GFXTextUtil.cpp:71-142 | the characters printed, up to a `return` or an overrun, are at strictly increasing positions before the NUL |
| TextWrap.PrintsSubsequence | src/GFXTextUtil.cpp:56-143 | the printed text is a subsequence of the input, in order, with nothing past the NUL |
| TextWrap.StopsBelowBox | src/GFXTextUtil.cpp:129 | a fitting character whose descent passes the box bottom ends the drawing with nothing more printed |
| TextWrap.SpaceBreakPastTerminator | src/GFXTextUtil.cpp:98-103 | when only blanks follow an overflowing space, the break as written reads next one past the NUL, and the corrected break ends the walk |
| TextWrap.StepOverrun | src/GFXTextUtil.cpp:92-103 | a turn overruns only when the text ends in a blank |
| TextWrap.OverrunsOnlyAfterBlank | src/GFXTextUtil.cpp:69-142 | the whole walk overruns only when the text's last character is a blank |
| TextWrap.SpaceBreakExample | src/GFXTextUtil.cpp:92-103 | `"aaa Wa"` in a box 3 pixels wide with a 3-pixel `W`: the space breaks the full first line, the `W` is printed without being measured and the `a` is measured from the space's width, so the layout is `aaa`, then `Wa` on the next line, as the source does |
| TextWrap.OverreadExample | src/GFXTextUtil.cpp:90-103 | `"ab "` in a box 2 pixels wide with 1-pixel glyphs: as written the next read is at index 4, one past the terminator; the model prints `ab` and reports the overrun |
| TextWrap.Gfx.PrintRange | src/GFXTextUtil.cpp:82 | prints the characters `from` to `to`, in order |
| TextWrap.Gfx.DrawWordWrappedText | src/GFXTextUtil.cpp:56-143 | a null text draws nothing; otherwise the font is set, wrapping disabled, the calls are exactly the rendering of the layout `Run`, and the result says whether the walk stopped where the source reads past the NUL (`Overruns`) |
| TextWrap.Gfx.Advance | src/GFXTextUtil.cpp:71-142 | the loop's remaining turns render exactly the rest of `Run`, and report its overrun |
| TextWrap.Gfx.Turn | src/GFXTextUtil.cpp:72-141 | one turn renders what `Step` outputs and either moves to its next state, returns, or overruns |
| TextWrap.Gfx.Break | src/GFXTextUtil.cpp:90-126 | renders the line that `Overflow` breaks off and moves to its next state, or reports its overrun |
| TextWrap.Gfx.BreakAtSpace | src/GFXTextUtil.cpp:92-103 | prints the line up to the space, then moves to `SpaceBreak`'s state, or reports the overrun where it ends the walk |
| TextWrap.Gfx.EmitLine | src/GFXTextUtil.cpp:94-96 | sets the cursor and prints the line |
| TextWrap.Gfx.SkipSpaces | src/GFXTextUtil.cpp:98 | the skip loop stops where `SkipBlanks` says |
| SetTime.Decremented | src/Screens/SetTimeScreen.cpp:28-32 | `decrMin` stays in range, steps down by one, and wraps from the minimum to the maximum |
| SetTime.Incremented | src/Screens/SetTimeScreen.cpp:34-38 | `incrMax` stays in range, steps up by one, and wraps from the maximum to the minimum |
| SetTime.CountersInverse | src/Screens/SetTimeScreen.cpp:28-38 | up then down, or down then up, restores an in-range value |
| SetTime.CountersAreModular | src/Screens/SetTimeScreen.cpp:28-38 | the counters are +1 and -1 modulo the field's range size |
| SetTime.IncrementedTimesWraps | src/Screens/SetTimeScreen.cpp:34-38 | k increments add k, wrapping once past the maximum |
| SetTime.FullRound | src/Screens/SetTimeScreen.cpp:34-44 | pressing down once per value of a field's range comes back to the start |
| SetTime.PressChangesField | src/Screens/SetTimeScreen.cpp:28-44 | every field has at least two values, so each press changes it |
| SetTime.IndexStaysInRange | src/Screens/SetTimeScreen.cpp:123-144 | any sequence of back and menu presses keeps the cursor on one of the five fields |
| SetTime.LeavingResets | src/Screens/SetTimeScreen.cpp:123-144 | leaving the screen (back on the first field, menu on the last) resets the cursor to the hour |
| SetTime.BackUndoesMenu | src/Screens/SetTimeScreen.cpp:123-144 | menu then back returns to the same field |
| SetTime.SetTimeScreen.constructor | src/Screens/SetTimeScreen.cpp:16-20 | zeroed members, cursor on the hour |
| SetTime.SetTimeScreen.Show | src/Screens/SetTimeScreen.cpp:49-65 | reloads every member from local time, toggles the blink and asks for a 1-second update |
| SetTime.SetTimeScreen.Reload | src/Screens/SetTimeScreen.cpp:51-61 | the members become local time's hour, minute, year, month and day |
| SetTime.SetTimeScreen.SetField | src/Screens/SetTimeScreen.cpp:40-44 | writes one field through the member pointer, leaving the others |
| SetTime.SetTimeScreen.Up | src/Screens/SetTimeScreen.cpp:113-116 | `decrMin` on the field under the cursor, nothing else |
| SetTime.SetTimeScreen.Down | src/Screens/SetTimeScreen.cpp:118-121 | `incrMax` on the field under the cursor, nothing else |
| SetTime.SetTimeScreen.Back | src/Screens/SetTimeScreen.cpp:123-130 | moves the cursor back; from the first field it returns to the parent screen |
| SetTime.SetTimeScreen.Menu | src/Screens/SetTimeScreen.cpp:132-144 | moves the cursor on; from the last field it sets the clocks from `mktime(tm)` and returns to the parent |
| Carousel.UpIndex | src/Screens/CarouselScreen.cpp:38-45 | the previous item, wrapping from the first to the last |
| Carousel.DownIndex | src/Screens/CarouselScreen.cpp:47-54 | the next item, wrapping from the last to the first |
| Carousel.UpDownInverse | src/Screens/CarouselScreen.cpp:38-54 | up and down undo each other |
| Carousel.RingIsModular | src/Screens/CarouselScreen.cpp:38-54 | down is +1 and up is -1 modulo the number of items |
| Carousel.AdoptedParents | src/Screens/CarouselScreen.cpp:9-18 | every splash and child named by an item gets the carousel as parent; all other screens keep theirs |
| Carousel.Screens.SetParent | src/Screens/CarouselScreen.cpp:12-15 | sets one screen's parent |
| Carousel.CarouselScreen.constructor | src/Screens/CarouselScreen.cpp:9-18 | keeps the items and the retained index, and the parents become `Adopted` |
| Carousel.CarouselScreen.Show | src/Screens/CarouselScreen.cpp:20-23 | shows the selected item's splash |
| Carousel.CarouselScreen.Menu | src/Screens/CarouselScreen.cpp:25-30 | switches to the selected item's child when it has one, else nothing |
| Carousel.CarouselScreen.Back | src/Screens/CarouselScreen.cpp:32-36 | selects and shows the first item |
| Carousel.CarouselScreen.Up | src/Screens/CarouselScreen.cpp:38-45 | selects `UpIndex` and shows its splash |
| Carousel.CarouselScreen.Down | src/Screens/CarouselScreen.cpp:47-54 | selects `DownIndex` and shows its splash |
| Ble.WriteStatus | src/BLE.cpp:42-75 | after a write the flag is up and the byte count grows by the packet length; the status is ready after a bootable last packet, updating after a first write, else unchanged |
| Ble.WriteCallsShape | src/BLE.cpp:42-75 | each write is answered with the 5-byte notify; the update begins iff the flag was down and ends iff the packet is the last |
| Ble.UploadCounts | src/BLE.cpp:53-56 | over a session, `bytesReceived` counts every byte written |
| Ble.FlagNeverReset | src/BLE.cpp:45-50 | the update flag is up after a session iff it was up or some packet was written |
| Ble.ReadyIffFinished | src/BLE.cpp:57-67 | a session ends ready iff one of its packets ended the update with a bootable image |
| Ble.StaysReady | src/BLE.cpp:57-67 | once ready, later writes keep it ready |
| Ble.BleOta.constructor | src/BLE.h:30-34 | status -1, no bytes, flag down |
| Ble.BleOta.OnConnect | src/BLE.cpp:25-27 | status becomes connected, nothing else changes |
| Ble.BleOta.OnDisconnect | src/BLE.cpp:29-31 | status becomes disconnected, nothing else changes |
| Ble.BleOta.OnWrite | src/BLE.cpp:42-75 | the state becomes `AfterWrite` and the calls `WriteCalls` |
| Main.SketchCarousel | src/Screens/main.cpp:76-84 | the sketch's carousel has 1..127 items, each with a splash; menu goes nowhere from the time screen and somewhere from every other item |
| Main.BootTasksIff | src/Screens/main.cpp:110-116 | `setup` starts the time sync iff the clocks were never synced, the location fetch iff it was never fetched, and nothing else |
| Main.Begin | src/Screens/main.cpp:111 | records the task start, nothing else |
| Main.Setup | src/Screens/main.cpp:97-121 | the boot tasks, then a default carousel screen when none is retained, then `init` |
| Main.Sketch.constructor | src/Screens/main.cpp:125 | the loop counter starts at 0 |
| Main.Sketch.Loop | src/Screens/main.cpp:123-131 | counts the call and handles every pending event |

## Left out

- Chip probing in `WatchyRTC::init` is left out; the chip type is a constructor parameter. `setAlarm`, `clearAlarm` as such, and the `ESP_RTC` build variant are also left out.
- `_rtcConfig`'s register writes, the BMA423 set-up and the display set-up in `init` are left out; they are hardware I/O.
- `mktime` and `localtime_r` are parameters, not models. `makeTime` and `breakTime` come from the TimeLib library, which is not among the cited sources; `TimeLib` models them as that library defines them. The DS3231's BCD registers and two-digit year, and the clock advancing between `set` and `read`, are not modelled: the chip holds a broken-down time.
- The PCF8563 is driven through the Rtc_Pcf8563 library, which is not among the cited sources. `Rtc` models its `decToBcd`, its `bcdToDec` and the masks its getters apply (0x7f for seconds and minutes, 0x3f for hours and days, 0x07 for the weekday, 0x1f for the month) as that library defines them. The chip's own behaviour beyond storing the written registers (its clock advancing, its voltage-low flag) is not modelled.
- `Watchy_Event::Event::send` and `Watchy_Event::setUpdateInterval` are not part of this model; they are recorded actions.
- `String::toInt` is modelled without `long` overflow: digit runs longer than a `long` are out of scope.
- Floating point is left out: latitude and longitude, the imperial conversion of `TEMP_UNIT`, and the JSON number casts. The reply temperature and condition are integer parameters.
- SNTP, HTTP and JSON are left out; their outcomes are parameters. The 15-second SNTP wait is one outcome: a reply or none. The SNTP client's sync status is a field; the ESP-IDF getter `sntp_get_sync_status()`, which is not among the cited sources, is modelled as that library defines it: a read that finds COMPLETED returns it and resets the status to RESET (`SyncTime.StatusAfterGet`).
- `SyncTime.Clocks.TimeSyncCallback` calls `RTC.set(tv->tv_sec)` (src/SyncTime.cpp:25), but src/WatchyRTC.h:30 declares only `set(tmElements_t)`, so that call has no matching declaration among the cited sources. The chip's time is kept as an opaque store, `rtcTime`, and is not linked to `Rtc.WatchyRtc`'s chip registers.
- Display drawing is left out: the bodies of every `show` other than the carousel's, fonts, and refresh timing. A refresh is a logged action.
- `BLE::begin` is left out, along with the `esp_ota_*` internals beyond the order of calls and the boot-partition result, and the Blufi, OTA and Wi-Fi set-up screens.
- Serial output and `log_*` are left out; they have no effect on state.
- `BackgroundTask`, `Event` and the task registry are abstract. `handle()` is seen only through the registry it leaves, a parameter sequence. `Watchy.System.Drain` stops when that sequence runs out, so it is bounded like a fuel argument and does not claim the drain terminates.
- FreeRTOS concurrency is left out: interrupt preemption, the recursive I²C mutex and queue timing. `Events.EventQueue.HandlerTask` treats a receive on an empty queue as a turn that calls nothing, where the task really blocks (`portMAX_DELAY`).
- The ESP event-loop registration in `start_event_handler` is left out.
- The `LOCATION_UPDATE` handler that copies a new location into `currentLocation` is left out; it is not part of the shown sources' behaviour.
- `Main.Sketch.Loop`: the static `count` is unbounded; its `int` overflow after 2^31 calls is not modelled.
- `TextWrap.Run` ends the walk (`Overrun`) where the source, after an overflowing space followed only by blanks, reads past the NUL; what the source does with the memory after the string is undefined and not modelled.
- `TextWrap`: `xPos`, `yPos` and the cursor coordinates are `int16_t` in the source. Their wrap-around on texts taller than 32767 pixels is not modelled.
- `Fields.GetValue` requires the string to be shorter than 2^31, since the source indexes it with a signed `int`.
- `Rtc.WatchyRtc.Set` requires a month of 1..12 on the PCF8563, because `_getDayOfWeek` indexes its 12-entry table with `m-1`, and a month of at most 13 on the DS3231, because `makeTime`'s month loop reads `monthDays[i-1]` for every month before the given one. `Rtc.WatchyRtc.Config` requires the same of a non-empty date string.
- `Rtc.WatchyRtc.Read` after `Set` on the DS3231 is characterised for real dates up to 2105 (`Rtc.DsRoundTrip`) and for days past the end of their month (`Rtc.DsDayPastMonthEnd`); what `breakTime` makes of other out-of-range fields, such as hour 30 or day 0, is computed by the model but not stated as a lemma.
- `Carousel.CarouselScreen.Show`, `Up`, `Down` and `Back` require every item to have a splash (`Splashes`), which the sketch's carousel meets (`Main.SketchCarousel`). A null splash would be dereferenced.
- `SetTime.SetTimeScreen.Show` sets `month` from `tm_mon`, which counts from 0, while its field's range is 1..12. This is kept as written.
- `SetTime.SetTimeScreen.Menu` commits the global `tm` filled by the last `show`, not the edited members. This is kept as written.
- `GetLocation.LocationService.GetLocation` keeps the source's comparison of the `LOCATION_UPDATE_INTERVAL` value with a difference of `now()` seconds, whatever unit the constant is meant in.
- `Ble.BleOta.OnWrite`: the source tests `_p_ble != NULL` only after dereferencing it. The model assumes a valid object.
- Retained (`RTC_DATA_ATTR`) statics, such as the carousel index, `setIndex` and `blink`, are fields set by the constructors. Deep-sleep retention is not modelled as such.
- `Ble` keeps the status values and the 512-byte packet size as constants. The characteristic and service UUIDs are left out.

## Findings

| source | as written | input that shows it | evidently intended | confidence | as-written member | corrected member |
|---|---|---|---|---|---|---|
| src/GFXTextUtil.cpp:98-103 | after a space that overflows the line, trailing blanks are skipped up to the terminator, then `continue` advances `t` once more, past the NUL, and the loop reads beyond the string | `"ab "` with 1-pixel glyphs in a box 2 pixels wide: the space overflows, the skip stops at the NUL (index 3), and the next read is index 4 (TextWrap.OverreadExample; TextWrap.SpaceBreakPastTerminator for every such text) | when the skipped blanks reach the terminator, end the walk there instead of reading at `t2 + 1`, past it; when they do not, the break is kept as written, with the next read at `t2 + 1` and `xPos` the space's width | high; not executed | TextWrap.SpaceBreakAsWritten | TextWrap.SpaceBreak |
