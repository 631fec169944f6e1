# Face animation and boot logo of the two LCD display classes

This project models the face-animation and boot-logo controller of two
ESP32 display classes and proves properties of the model in Dafny:

- `LcdDisplay`, the ST7789 build (`main/display/lcd_display.h`, `.cc`),
  in module `St7789`;
- `LcdGc9107Display`, the GC9107 build (`main/display/lcd_gc9107_display.h`,
  `.cc`), in module `Gc9107`.

Both controllers work the same way. When the display is added, a periodic
logo timer steps a logo image through the boot-logo frames. After the last
frame, the logo object and its timer are deleted and `SetupUI` creates the
face image object and a periodic face timer. From then on, each face tick
moves `current_face_index_` forward, or wraps it to 0 when it reaches
`current_face_count_ - 1`. It then calls `ShowFace(current_face_state_)`.
`ShowFace` picks a frame table by emotion code. The chosen `SetX(index)`
stores the table's length as the new count and binds `images[index]` to
the face image. The application calls `SetFace(name)`, which looks the name
up in a 21-entry table and stores its position as the emotion code.

Files:

- `emotions.dfy`, module `Emotions`: the emotion codes NEUTRAL = 0 …
  CONFUSED = 20, the name table, and name resolution as a linear search.
- `assets.dfy`, module `Assets`: image resources as tokens (`Asset(HappyFace, 3)`
  stands for `happy3`), nullable image objects with the source last bound
  to them, timer handles, and `Lookup`. `Lookup` is `images[index]`; an
  index outside the table yields `OutOfRange(table, index)`.
- `st7789.dfy` and `gc9107.dfy`, one per build. Each holds:
  - the frame tables and the `ShowFace` switch (`FaceTable`);
  - the fields as a value `State`, with one `After*` function per operation;
  - the invariant `Inv`: a run is in one of three phases (`Unstarted`,
    `Booting`, `Ready`), and the frame the next tick draws lies inside
    its table;
  - the event machine `Step`/`Run`, where the application calls `SetFace`
    and the timers fire;
  - lemmas about all of the above;
  - a class with the source's fields, whose methods update them in place and
    are proved to follow the `After*` functions and keep `Inv`.

`lv_img_set_src` is modelled as setting the image object's source. The lock
guards are left out and every operation runs to completion (sequential
model). A timer that is null or deleted delivers no events.

In the ST7789 build the neutral table is the longest (8 frames). So the
index an unknown name leaves behind always fits the neutral table, and no
run ever overruns a table (`St7789.NeverOutOfRange`).

In the GC9107 build the neutral table has 14 frames, but the happy, sad and
loving tables have 16 and the angry table has 15. An unknown name keeps the
index, so the next tick can read past the end of the neutral table (see
Findings). The model keeps the source's `SetFace` as
`Gc9107.AfterSetFaceAsWritten` and exhibits the overrun from construction
onwards. Everywhere else, including the class method `SetFace`, it uses the
corrected `Gc9107.AfterSetFace`, which resets the index for every name. It
proves that the corrected build never overruns a table.

## Model

| member | source | states |
|---|---|---|
| Emotions.IndexOf | main/display/lcd_display.cc:601-605 | `std::find`: a found position holds the name and no earlier entry does; nothing is found exactly when the name is absent |
| Emotions.Resolve | main/display/lcd_display.cc:601-614 | the emotion code of a name: a found code is the name's position in the 21-entry table, and nothing is found exactly when the name is not in the table |
| Emotions.ResolvePosition | main/display/lcd_display.cc:577-609 | every table entry resolves to its own position (the names are distinct) |
| Emotions.CodesMatchNames | main/display/lcd_display.cc:577-599 | the name table lists the 21 names in enum order: entry NEUTRAL = 0 is "neutral", … entry CONFUSED = 20 is "confused", and nothing follows; with `ResolvePosition`, each name resolves to its own enum code |
| Emotions.CodesMatchFirstNames | main/display/lcd_display.cc:578-584 | entries NEUTRAL … CRYING are "neutral" … "crying" |
| Emotions.CodesMatchMiddleNames | main/display/lcd_display.cc:585-591 | entries LOVING … COOL are "loving" … "cool" |
| Emotions.CodesMatchLastNames | main/display/lcd_display.cc:592-598 | entries RELAXED … CONFUSED are "relaxed" … "confused", the last entry |
| Assets.Numbered | main/display/lcd_display.cc:447-450 | a table `f1 … fn` has n entries with entry i being resource i + 1 |
| Assets.Listed | main/display/lcd_gc9107_display.cc:362-366 | a listed table has one entry per listed resource number, in order |
| Assets.Lookup | main/display/lcd_display.cc:454 | `images[index]` is an image exactly when the index lies in the table, and is then that entry |
| St7789.FaceTable | main/display/lcd_display.cc:538-571 | every code selects a table of 4, 6, 7 or 8 frames, none longer than the neutral one |
| St7789.ShowFaceSelects | main/display/lcd_display.cc:542-571 | HAPPY/LAUGHING/FUNNY/KISSY draw happy (6), SAD sad (8), ANGRY angry (7), SLEEPY/EMBARRAS embarrassed (4), LOVING loving (6), every other code neutral (8) |
| St7789.Initial | main/display/lcd_display.h:71-79 | emotion NEUTRAL, logo index, face index and face count 0, both images and both timers null, and the invariant holds |
| St7789.AfterConstruction | main/display/lcd_display.cc:70-104 | a display that could not be added returns with nothing created; otherwise the logo shows bootlogo1 at index 0 and the logo timer runs with period 120000 us |
| St7789.NullObjectsIgnoreDraws | main/display/lcd_display.cc:209-214 | `SetX`, `ShowFace` and `SetLogoImg` change nothing while their image object is null |
| St7789.AfterShowLogo | main/display/lcd_display.cc:226-237 | the logo image object shows bootlogo1; nothing else changes |
| St7789.AfterSetLogoImg | main/display/lcd_display.cc:209-224 | a null logo object changes nothing; otherwise the logo shows bootlogo(index + 1) exactly when the index lies in the table; nothing else changes |
| St7789.AfterSetupUI | main/display/lcd_display.cc:384-436 | the face image object is created with no source, the face timer runs periodically, `SetupUI` has run once more; nothing else changes |
| St7789.AfterLogoTick | main/display/lcd_display.cc:85-97 | below the last logo index the index advances by one and the timer keeps running; at the last index the logo object is deleted, the logo timer deleted, `SetupUI` runs; the face fields are untouched |
| St7789.AfterDraw | main/display/lcd_display.cc:441-535 | `SetX(index)`: a null face object changes nothing; otherwise the count becomes the table length and the face shows `images[index]` exactly when the index lies in the table; only count and face image change |
| St7789.AfterShowFace | main/display/lcd_display.cc:538-572 | a null face object changes nothing; otherwise the count becomes the length of the table the code selects, one of {4, 6, 7, 8}; only count and face image change |
| St7789.AfterFaceTick | main/display/lcd_display.cc:419-429 | the index becomes 0 or index + 1 and stays non-negative; a non-null face gets the count of the current emotion's table; the emotion and everything outside index, count and face image are kept |
| St7789.NextIndex | main/display/lcd_display.cc:422-427 | the next index is 0 or index + 1; it is 0 exactly at or past the last frame (or from -1); a non-negative index stays non-negative, and an index inside a table stays inside it |
| St7789.Step | main/display/lcd_display.cc:81-104 | one event (a `SetFace` call or a firing of an existing timer): the logo index never decreases, `SetupUI` runs never decrease, and a deleted logo timer stays deleted |
| St7789.Run | main/display/lcd_display.cc:81-104 | over any sequence of events the logo index and the `SetupUI` count never decrease, and the end of the boot phase is never undone |
| St7789.LogoTicksRun | main/display/lcd_display.cc:85-97 | `n` logo ticks are the run of `n` logo-timer events |
| St7789.LogoTicksFirst | main/display/lcd_display.cc:85-97 | the first of `n` logo ticks splits off the front |
| St7789.AfterSetFace | main/display/lcd_display.cc:574-614 | a known name stores its position and restarts the index; an unknown one stores NEUTRAL and keeps the index; the count never changes |
| St7789.SetFaceKnownName | main/display/lcd_display.cc:607-611 | a known name changes exactly the emotion (to its position) and the index (to 0) |
| St7789.SetFaceUnknownName | main/display/lcd_display.cc:612-614 | an unknown name changes exactly the emotion, to NEUTRAL |
| St7789.SetFaceKeepsInv | main/display/lcd_display.cc:574-614 | `SetFace` keeps the invariant for every name |
| St7789.RestartKeepsInv | main/display/lcd_display.cc:607-611 | storing any emotion code with index 0 keeps the invariant, since every table has at least 4 frames |
| St7789.NeutralKeepsInv | main/display/lcd_display.cc:612-614 | switching to NEUTRAL while keeping the index keeps the invariant, since the neutral table is the longest |
| St7789.FaceTickKeepsInv | main/display/lcd_display.cc:422-428 | a face tick keeps the invariant and draws frame `index` of the current emotion's table, with the count set to that table's length |
| St7789.ReadyFaceTick | main/display/lcd_display.cc:418-436 | once the face timer runs, each expiry is one face tick |
| St7789.LogoTickKeepsInv | main/display/lcd_display.cc:82-97 | below index 20 a logo tick shows the next logo frame; at 20 it deletes the logo and its timer and sets up the face image with no source |
| St7789.StepKeepsInv | main/display/lcd_display.cc:82-97 | every event keeps the invariant |
| St7789.RunKeepsInv | main/display/lcd_display.cc:418-436 | every sequence of events keeps the invariant |
| St7789.NeverOutOfRange | main/display/lcd_display.cc:422-454 | after construction and any events, no image shows an out-of-range entry and the next tick's `images[index]` is in bounds |
| St7789.FaceTicksRun | main/display/lcd_display.cc:418-436 | `n` face ticks are the run of `n` face-timer events |
| St7789.FaceTicksFirst | main/display/lcd_display.cc:418-436 | the first of `n` face ticks splits off the front |
| St7789.ModStep | main/display/lcd_display.cc:422-427 | for every table size N > 0, wrapping at the last frame is addition modulo N |
| St7789.CycleStep | main/display/lcd_display.cc:422-428 | with the table drawn, one tick moves the index from `a mod N` to `(a + 1) mod N` and shows that frame |
| St7789.IndexInTable | main/display/lcd_display.cc:422-428 | once a table has been drawn, the index lies inside it |
| St7789.TicksCycle | main/display/lcd_display.cc:422-428 | for a fixed emotion, `k` ticks move the index to `(index + k) mod N` and show that frame |
| St7789.FirstTickAfterKnown | main/display/lcd_display.cc:422-428 | the first tick after a known name shows frame 1 of its table, or frame 0 when the count was still 0 |
| St7789.KnownFaceCycles | main/display/lcd_display.cc:422-428 | from that first tick, frame `k mod N` (or `(k - 1) mod N`) shows after `k` ticks |
| St7789.KnownFaceAnimates | main/display/lcd_display.cc:607-611 | after a known name, `k` ticks show frame `k mod N` of its table, or `(k - 1) mod N` if the name came before the first tick |
| St7789.LogoPlays | main/display/lcd_display.cc:85-88 | the logo shows bootlogo1 … bootlogo21 in order, one per tick, at indices 0 … 20 |
| St7789.LogoFinishes | main/display/lcd_display.cc:89-96 | any number of ticks past the last frame leaves the logo deleted, `SetupUI` run exactly once, and the face image with no source |
| St7789.FirstFaceTick | main/display/lcd_display.cc:422-427 | the first face tick finds count 0, wraps and draws neutral1 with the count set to 8 |
| St7789.LcdDisplay.constructor | main/display/lcd_display.cc:18-105 | the fields follow `AfterConstruction` and the invariant holds |
| St7789.LcdDisplay.ShowLogo | main/display/lcd_display.cc:226-237 | the logo image is created showing bootlogo1 |
| St7789.LcdDisplay.SetLogoImg | main/display/lcd_display.cc:209-224 | shows logo frame `index`, or changes nothing when the logo is null |
| St7789.LcdDisplay.SetupUI | main/display/lcd_display.cc:384-436 | creates the face image with no source and starts the face timer at 300000 us |
| St7789.LcdDisplay.LogoTick | main/display/lcd_display.cc:82-97 | the fields follow `AfterLogoTick` and the invariant holds |
| St7789.LcdDisplay.Draw | main/display/lcd_display.cc:441-535 | `SetNeutral` … `SetEmbarrass`: stores the table length as the count and shows entry `index`, or nothing when the face image is null |
| St7789.LcdDisplay.ShowFace | main/display/lcd_display.cc:538-572 | draws frame `index` of the table the code selects |
| St7789.LcdDisplay.FaceTick | main/display/lcd_display.cc:419-429 | the fields follow `AfterFaceTick` and the invariant holds |
| St7789.LcdDisplay.SetFace | main/display/lcd_display.cc:574-616 | the fields follow `AfterSetFace` and the invariant holds |
| Gc9107.FaceTable | main/display/lcd_gc9107_display.cc:425-460 | CRYING alone selects no table; every table has 14, 15 or 16 frames, none shorter than the neutral one |
| Gc9107.ShowFaceSelects | main/display/lcd_gc9107_display.cc:429-459 | NEUTRAL draws neutral (14), HAPPY/LAUGHING/FUNNY happy (16), SAD sad (16), ANGRY angry (15), EMBARRAS embarrassed (14), LOVING loving (16), CRYING nothing, every other code default (14) |
| Gc9107.Initial | main/display/lcd_gc9107_display.h:71-80 | `logo_show_status` false, emotion NEUTRAL, logo index, face index and face count 0, images and timers null, and the invariant holds |
| Gc9107.AfterConstruction | main/display/lcd_gc9107_display.cc:71-105 | a display that could not be added returns with nothing created; otherwise the logo shows bootlogo1 at index 0 and the logo timer runs with period 130000 us; the status is false |
| Gc9107.NullObjectsIgnoreDraws | main/display/lcd_gc9107_display.cc:306-308 | `SetX`, `ShowFace` and `SetLogoImg` change nothing while their image object is null |
| Gc9107.AfterShowLogo | main/display/lcd_gc9107_display.cc:163-176 | the logo image object shows bootlogo1; nothing else changes |
| Gc9107.AfterSetLogoImg | main/display/lcd_gc9107_display.cc:147-161 | a null logo object changes nothing; otherwise the logo shows bootlogo(index + 1) exactly when the index lies in the table; nothing else changes |
| Gc9107.AfterSetupUI | main/display/lcd_gc9107_display.cc:244-299 | the face image object is created showing neutral1, the face timer runs periodically, `SetupUI` has run once more; nothing else changes |
| Gc9107.AfterLogoTick | main/display/lcd_gc9107_display.cc:85-98 | below the last logo index the index advances by one and the timer keeps running; at the last index the logo object is deleted, the logo timer deleted, `SetupUI` runs and the logo status is set; the face fields are untouched |
| Gc9107.AfterDraw | main/display/lcd_gc9107_display.cc:303-423 | `SetX(index)`: a null face object changes nothing; otherwise the count becomes the table length and the face shows `images[index]` exactly when the index lies in the table; only count and face image change |
| Gc9107.AfterShowFace | main/display/lcd_gc9107_display.cc:425-460 | a null face object or CRYING changes nothing; otherwise the count becomes the length of the table the code selects, one of {14, 15, 16}; only count and face image change |
| Gc9107.AfterFaceTick | main/display/lcd_gc9107_display.cc:281-292 | either the index advances by one with the emotion kept, or the index becomes 0 with the emotion NEUTRAL; the index stays non-negative; nothing outside index, emotion, count and face image changes |
| Gc9107.Step | main/display/lcd_gc9107_display.cc:81-105 | one event (a `SetFace` call or a firing of an existing timer) with the corrected `SetFace`: the logo index never decreases, `SetupUI` runs never decrease, and a deleted logo timer stays deleted |
| Gc9107.Run | main/display/lcd_gc9107_display.cc:81-105 | over any sequence of events the logo index and the `SetupUI` count never decrease, and the end of the boot phase is never undone |
| Gc9107.LogoTicksRun | main/display/lcd_gc9107_display.cc:85-98 | `n` logo ticks are the run of `n` logo-timer events |
| Gc9107.LogoTicksFirst | main/display/lcd_gc9107_display.cc:85-98 | the first of `n` logo ticks splits off the front |
| Gc9107.AfterSetFaceAsWritten | main/display/lcd_gc9107_display.cc:462-502 | the source's `SetFace`: a known name stores its position and restarts the index; an unknown one stores NEUTRAL and keeps the index |
| Gc9107.AfterSetFace | main/display/lcd_gc9107_display.cc:462-502 | corrected `SetFace`: the same, except that an unknown name also restarts the index |
| Gc9107.SetFaceKnownName | main/display/lcd_gc9107_display.cc:495-499 | for a known name the corrected and the source `SetFace` agree, changing only emotion and index |
| Gc9107.SetFaceKeepsInv | main/display/lcd_gc9107_display.cc:462-502 | the corrected `SetFace` keeps the invariant for every name |
| Gc9107.FaceTickKeepsInv | main/display/lcd_gc9107_display.cc:284-291 | a face tick keeps the invariant and, unless the emotion is CRYING, draws frame `index` of the new emotion's table with the count set to its length |
| Gc9107.AdvanceKeepsInv | main/display/lcd_gc9107_display.cc:284-286 | a tick before the last frame keeps the invariant, keeps the emotion and draws frame `index + 1` of its table |
| Gc9107.WrapKeepsInv | main/display/lcd_gc9107_display.cc:287-291 | a tick at the last frame keeps the invariant, selects NEUTRAL at index 0 and draws neutral1 |
| Gc9107.ReadyFaceTick | main/display/lcd_gc9107_display.cc:281-299 | once the face timer runs, each expiry is one face tick |
| Gc9107.LogoTickKeepsInv | main/display/lcd_gc9107_display.cc:82-98 | below index 21 a logo tick shows the next logo frame; at 21 it deletes the logo and its timer, sets the status and shows neutral1 |
| Gc9107.StepKeepsInv | main/display/lcd_gc9107_display.cc:82-98 | with the corrected `SetFace`, every event keeps the invariant |
| Gc9107.RunKeepsInv | main/display/lcd_gc9107_display.cc:281-299 | with the corrected `SetFace`, every sequence of events keeps the invariant |
| Gc9107.NeverOutOfRange | main/display/lcd_gc9107_display.cc:284-317 | with the corrected `SetFace`, after construction and any events, no image shows an out-of-range entry and the next tick's `images[index]` is in bounds |
| Gc9107.LogoStatusMeansReady | main/display/lcd_gc9107_display.cc:504-508 | `GetLogoStatus` is true exactly when the logo has finished and the face animation runs |
| Gc9107.StepKeepsLogoStatus | main/display/lcd_gc9107_display.cc:95 | no event clears the logo status (with the corrected `SetFace`, which touches only emotion and index as the source's does) |
| Gc9107.LogoStatusIsSticky | main/display/lcd_gc9107_display.cc:95 | with the corrected `SetFace`, once set, the logo status stays set over every sequence of events |
| Gc9107.FaceTicksRun | main/display/lcd_gc9107_display.cc:281-299 | `n` face ticks are the run of `n` face-timer events |
| Gc9107.FaceTicksFirst | main/display/lcd_gc9107_display.cc:281-299 | the first of `n` face ticks splits off the front |
| Gc9107.FaceTicksLast | main/display/lcd_gc9107_display.cc:281-299 | the last of `n` face ticks is one tick after the first `n - 1` |
| Gc9107.LogoPlays | main/display/lcd_gc9107_display.cc:85-88 | the logo shows bootlogo1 … bootlogo22 in order at indices 0 … 21, with the status false |
| Gc9107.LogoFinishes | main/display/lcd_gc9107_display.cc:89-96 | any number of ticks past the last frame leaves the logo deleted, the status set, `SetupUI` run exactly once, and neutral1 shown with count 0 |
| Gc9107.FirstRequestDropped | main/display/lcd_gc9107_display.cc:284-290 | a name set before the first face tick is dropped: that tick wraps, selects NEUTRAL and draws neutral1 |
| Gc9107.TicksAdvance | main/display/lcd_gc9107_display.cc:284-286 | before the end of its table, each tick shows the next frame of the emotion, so `k` ticks from frame `j` show frame `j + k` |
| Gc9107.AdvanceStep | main/display/lcd_gc9107_display.cc:284-286 | one tick before the end of the table shows the next frame and keeps the emotion and the count |
| Gc9107.WrapToNeutral | main/display/lcd_gc9107_display.cc:287-291 | the tick after the last frame selects NEUTRAL and draws neutral1 |
| Gc9107.FirstTickAfterKnown | main/display/lcd_gc9107_display.cc:284-286 | the first tick after a known name other than "crying", once something is drawn, shows frame 1 of its table |
| Gc9107.FirstTick | main/display/lcd_gc9107_display.cc:284-286 | from index 0 of a running animation, a tick shows frame 1 of the emotion's table |
| Gc9107.PassEnds | main/display/lcd_gc9107_display.cc:284-291 | from frame 1 of an N-frame table, N - 1 ticks end on neutral frame 0 |
| Gc9107.EmotionPlaysOnce | main/display/lcd_gc9107_display.cc:284-291 | a known emotion other than CRYING plays its table once, frame `k` after `k` ticks, and then falls back to neutral1 |
| Gc9107.PlaysFromStart | main/display/lcd_gc9107_display.cc:284-291 | the same from index 0 of any running emotion other than CRYING |
| Gc9107.CryingFreezes | main/display/lcd_gc9107_display.cc:447-449 | under CRYING the picture and count stay while the index counts up |
| Gc9107.UnknownNameOverruns | main/display/lcd_gc9107_display.cc:501 | with the source's `SetFace`, an unknown name at frame 13 or later (before the last) of a 15- or 16-frame table makes the next tick read neutral entry 14 or 15 of 14 |
| Gc9107.BootThenFirstTick | main/display/lcd_gc9107_display.cc:287-291 | after the logo and the first face tick, neutral plays with count 14 |
| Gc9107.ExcitedIsUnknown | main/display/lcd_gc9107_display.cc:465-487 | "excited" is not in the name table |
| Gc9107.OverrunIsReachable | main/display/lcd_gc9107_display.cc:284-317 | the source run logo, first tick, "happy", 13 ticks, "excited", tick reads neutral entry 14; the corrected `SetFace` shows neutral2 |
| Gc9107.OverrunAfterHappy | main/display/lcd_gc9107_display.cc:284-317 | from any running animation, "happy", 13 ticks, "excited", tick reads neutral entry 14 with the source's `SetFace` and shows neutral2 with the corrected one |
| Gc9107.HappyReachesFrame13 | main/display/lcd_gc9107_display.cc:284-286 | from any running animation, 13 ticks after "happy" the index is 13 of a 16-frame table |
| Gc9107.UnknownNameRestarts | main/display/lcd_gc9107_display.cc:501 | with the correction, an unknown name makes the next tick draw neutral2 |
| Gc9107.LcdGc9107Display.constructor | main/display/lcd_gc9107_display.cc:19-106 | the fields follow `AfterConstruction` and the invariant holds |
| Gc9107.LcdGc9107Display.ShowLogo | main/display/lcd_gc9107_display.cc:163-176 | the logo image is created showing bootlogo1 |
| Gc9107.LcdGc9107Display.SetLogoImg | main/display/lcd_gc9107_display.cc:147-161 | shows logo frame `index`, or changes nothing when the logo is null |
| Gc9107.LcdGc9107Display.SetupUI | main/display/lcd_gc9107_display.cc:244-299 | creates the face image showing neutral1 and starts the face timer at 220000 us |
| Gc9107.LcdGc9107Display.LogoTick | main/display/lcd_gc9107_display.cc:82-98 | the fields follow `AfterLogoTick` and the invariant holds |
| Gc9107.LcdGc9107Display.Draw | main/display/lcd_gc9107_display.cc:303-423 | `SetNeutral` … `SetDefault`: stores the table length as the count and shows entry `index`, or nothing when the face image is null |
| Gc9107.LcdGc9107Display.ShowFace | main/display/lcd_gc9107_display.cc:425-460 | draws frame `index` of the table the code selects, nothing for CRYING |
| Gc9107.LcdGc9107Display.FaceTick | main/display/lcd_gc9107_display.cc:281-292 | the fields follow `AfterFaceTick` and the invariant holds |
| Gc9107.LcdGc9107Display.SetFace | main/display/lcd_gc9107_display.cc:462-502 | the fields follow the corrected `AfterSetFace` and the invariant holds |
| Gc9107.LcdGc9107Display.GetLogoStatus | main/display/lcd_gc9107_display.cc:504-508 | the result is true exactly when the logo has finished and the face animation runs |

## Left out

- Panel and display bring-up (`esp_lcd_*`, `lvgl_port_*`, the white-fill loops, the configuration structs) is hardware I/O. Only whether `lvgl_port_add_disp` returned a display is kept, as the constructor's `displayAdded`.
- `SetupUI` keeps only the face image object, its initial source and the face timer. The containers, labels, low-battery popup, volume arc and codec volume read are GUI and driver calls with no state of the controller.
- `Lock`, `Unlock` and `DisplayLockGuard` serialise against another task. The model is sequential: each callback and each `SetFace` runs to completion.
- The timer service is modelled in `Step`: only a periodic timer fires, and a null or deleted one delivers nothing. Periods are recorded, not elapsed time.
- `esp_timer_stop`/`esp_timer_delete` are modelled as the handle becoming `Deleted`, and `lv_obj_del` as the object becoming null.
- The destructors, the RGB, MIPI, QSPI and MCU8080 subclasses, and the `#if 0` blocks (`SetEmotion`, `SetIcon`, the old `SetupUI` body) are left out.
- The board file and `resources.h` are left out. Image resources are tokens of family and number.
- `lcd_display.h` declares `SetDefault(int)`, but `lcd_display.cc` defines no body for it and nothing calls it, so the ST7789 model has no default table.
- `face_img_` of the GC9107 class is declared in `display.h`, which is not part of this model. It is taken to start null, like the ST7789 field.
- St7789.LcdDisplay.SetFace, Gc9107.LcdGc9107Display.SetFace: the `const char*` argument is a Dafny string, so a null pointer is not modelled.
- Gc9107.LcdGc9107Display.SetFace: implements the corrected behaviour (see Findings). The source's behaviour is `Gc9107.AfterSetFaceAsWritten`.
- Log output (`ESP_LOGI`, `ESP_LOGE`) and `ESP_ERROR_CHECK` aborts are not modelled.

## Findings

| source | as written | input that shows it | evidently intended | confidence | as-written member | corrected member |
|---|---|---|---|---|---|---|
| main/display/lcd_gc9107_display.cc:501 | an unknown name sets `current_face_state_ = 0` and keeps `current_face_index_`, and the next tick indexes the 14-entry neutral table with that index + 1 | after the logo and the first face tick, `SetFace("happy")`, 13 face ticks (index 13, count 16), `SetFace("excited")`, one face tick: `SetNeutral(14)` reads `images[14]` of 14; frame 13 of the 15-frame angry table overruns the same way | an unknown name restarts the index as a known one does, so every tick stays inside its table | not executed | Gc9107.AfterSetFaceAsWritten, Gc9107.UnknownNameOverruns, Gc9107.OverrunIsReachable | Gc9107.AfterSetFace, Gc9107.NeverOutOfRange, Gc9107.UnknownNameRestarts |
