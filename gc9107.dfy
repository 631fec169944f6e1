/** The face-animation and boot-logo controller of the GC9107 build, class
    `LcdGc9107Display`.

    It differs from the ST7789 build in its tables (14 to 16 frames, several
    played forwards and then backwards), in its longer boot logo, in a
    status flag that reports the end of the logo, in also having a
    default-face table, in leaving the picture alone for CRYING, and above
    all in its face tick: when the index wraps, the emotion falls back to
    NEUTRAL, so an emotion plays once and the neutral face then loops.

    As written, `SetFace` on an unknown name keeps the frame index of the
    table that was playing, and the neutral table is shorter than the
    happy, sad, angry and loving ones, so the next tick can read past the
    end of the neutral table (`UnknownNameOverruns`). The rest of the model
    uses the corrected `SetFace`, which restarts the index on every call,
    and proves that no sequence of events then overruns a table
    (`NeverOutOfRange`). */
module Gc9107 {
  import opened Emotions
  import opened Assets

  const LOGO_TIMEOUT_US: nat := 130 * 1000
  const FACE_TIMEOUT_US: nat := 220 * 1000

  /** The logo timer advances the logo while `current_logo_index_` is below this. */
  const LAST_LOGO_INDEX := 21

  const BootImages := Numbered(BootLogo, 22)
  const NeutralImages := Numbered(NeutralFace, 14)
  const HappyImages := Numbered(HappyFace, 16)
  const SadImages := Numbered(SadFace, 16)
  const AngryImages := Listed(AngryFace, [1, 2, 3, 4, 5, 6, 7, 8, 7, 6, 5, 4, 3, 2, 1])
  const LovingImages := Listed(LovingFace, [1, 2, 3, 4, 5, 6, 7, 8, 9, 7, 6, 5, 4, 3, 2, 1])
  const EmbarrassedImages := Listed(EmbarrassedFace, [1, 2, 3, 4, 5, 6, 5, 4, 4, 5, 4, 3, 2, 1])
  const DefaultImages := Listed(DefaultFace, [1, 2, 3, 4, 5, 6, 7, 8, 7, 5, 4, 3, 2, 1])

  /** The static `images[]` table of each family. */
  function Images(f: Family): seq<Asset>
  {
    match f
    case NeutralFace => NeutralImages
    case HappyFace => HappyImages
    case SadFace => SadImages
    case AngryFace => AngryImages
    case LovingFace => LovingImages
    case EmbarrassedFace => EmbarrassedImages
    case DefaultFace => DefaultImages
    case BootLogo => BootImages
  }

  /** The switch of `ShowFace`: the table an emotion code is drawn from, or
      None for CRYING, whose case draws nothing. Every face table has 14 to
      16 frames; the neutral one is among the shortest. */
  function FaceTable(code: int): (r: Option<Family>)
    ensures r.None? <==> code == CRYING
    ensures r.Some? ==> r.value != BootLogo && |Images(r.value)| in {14, 15, 16}
    ensures r.Some? ==> |Images(NeutralFace)| <= |Images(r.value)|
  {
    if code == NEUTRAL then Some(NeutralFace)
    else if code == HAPPY || code == LAUGHING || code == FUNNY then Some(HappyFace)
    else if code == SAD then Some(SadFace)
    else if code == ANGRY then Some(AngryFace)
    else if code == CRYING then None
    else if code == EMBARRAS then Some(EmbarrassedFace)
    else if code == LOVING then Some(LovingFace)
    else Some(DefaultFace)
  }

  /** The switch of `ShowFace` emotion by emotion, with the table sizes. */
  lemma ShowFaceSelects(code: int)
    ensures FaceTable(code) == Some(NeutralFace) <==> code == NEUTRAL
    ensures FaceTable(code) == Some(HappyFace) <==> code in {HAPPY, LAUGHING, FUNNY}
    ensures FaceTable(code) == Some(SadFace) <==> code == SAD
    ensures FaceTable(code) == Some(AngryFace) <==> code == ANGRY
    ensures FaceTable(code) == None <==> code == CRYING
    ensures FaceTable(code) == Some(EmbarrassedFace) <==> code == EMBARRAS
    ensures FaceTable(code) == Some(LovingFace) <==> code == LOVING
    ensures FaceTable(code) == Some(DefaultFace) <==>
      code !in {NEUTRAL, HAPPY, LAUGHING, FUNNY, SAD, ANGRY, CRYING, EMBARRAS, LOVING}
    ensures |NeutralImages| == 14 && |HappyImages| == 16 && |SadImages| == 16
    ensures |AngryImages| == 15 && |LovingImages| == 16 && |EmbarrassedImages| == 14
    ensures |DefaultImages| == 14
  {
  }

  /** The controller's fields. `setupRuns` counts the runs of `SetupUI`. */
  datatype State = State(
    logoShown: bool,
    logoImg: ImgObj,
    faceImg: ImgObj,
    logoIndex: int,
    faceIndex: int,
    faceCount: int,
    faceState: int,
    logoTimer: Timer,
    faceTimer: Timer,
    setupRuns: nat)

  /** The frame the next face tick draws lies inside the table it draws
      from. A tick either moves to `faceIndex + 1` of the current emotion
      or wraps to neutral frame 0, which always exists. */
  predicate TickInBounds(s: State)
  {
    || s.faceImg.NullObj?
    || !(s.faceIndex < s.faceCount - 1)
    || FaceTable(s.faceState).None?
    || s.faceIndex + 1 < |Images(FaceTable(s.faceState).value)|
  }

  /** Until the face image exists nothing has been drawn; afterwards it
      shows a face frame and the count is that of some face table. */
  predicate FaceInv(s: State)
  {
    && 0 <= s.faceState < |Names|
    && 0 <= s.faceIndex
    && s.faceCount in {0, 14, 15, 16}
    && (s.faceIndex == 0 || s.faceIndex < s.faceCount)
    && (s.faceImg.NullObj? ==> s.faceIndex == 0 && s.faceCount == 0)
    && (s.faceImg.Obj? ==> s.faceImg.src.Image? && s.faceImg.src.asset.family != BootLogo)
    && TickInBounds(s)
  }

  /** Before the display was added: nothing created. */
  predicate Unstarted(s: State)
  {
    && !s.logoShown && s.logoImg.NullObj? && s.logoTimer.NullTimer? && s.logoIndex == 0
    && s.faceImg.NullObj? && s.faceTimer.NullTimer? && s.setupRuns == 0
  }

  /** The boot logo plays: it shows frame `logoIndex` and the logo timer runs. */
  predicate Booting(s: State)
  {
    && !s.logoShown
    && s.logoTimer == Periodic(LOGO_TIMEOUT_US)
    && 0 <= s.logoIndex <= LAST_LOGO_INDEX
    && s.logoImg == Obj(Image(BootImages[s.logoIndex]))
    && s.faceImg.NullObj? && s.faceTimer.NullTimer? && s.setupRuns == 0
  }

  /** The logo is gone, its end is reported and the face animation runs;
      `SetupUI` ran once. */
  predicate Ready(s: State)
  {
    && s.logoShown
    && s.logoTimer == Deleted && s.logoIndex == LAST_LOGO_INDEX && s.logoImg.NullObj?
    && s.faceImg.Obj? && s.faceTimer == Periodic(FACE_TIMEOUT_US) && s.setupRuns == 1
  }

  predicate Inv(s: State)
  {
    FaceInv(s) && (Unstarted(s) || Booting(s) || Ready(s))
  }

  /** The field initialisers of the class. */
  function Initial(): (s: State)
    ensures Inv(s) && Unstarted(s)
    ensures s.faceState == NEUTRAL && s.faceIndex == 0 && s.faceCount == 0 && s.logoIndex == 0
  {
    State(false, NullObj, NullObj, 0, 0, 0, 0, NullTimer, NullTimer, 0)
  }

  /** `ShowLogo`: create the logo image object showing the first logo frame. */
  function AfterShowLogo(s: State): (t: State)
    ensures t.logoImg == Obj(Image(Asset(BootLogo, 1)))
    ensures t == s.(logoImg := t.logoImg)
  {
    s.(logoImg := Obj(Image(BootImages[0])))
  }

  /** The state part of the SPI display's constructor. When the display
      could be added it shows the logo and starts the periodic logo timer;
      otherwise it returns early with nothing created. */
  function AfterConstruction(displayAdded: bool): (s: State)
    ensures Inv(s)
    ensures displayAdded <==> Booting(s)
    ensures displayAdded ==> s.logoIndex == 0 && s.logoImg == Obj(Image(Asset(BootLogo, 1)))
    ensures !s.logoShown
  {
    if displayAdded then AfterShowLogo(Initial()).(logoTimer := Periodic(LOGO_TIMEOUT_US))
    else Initial()
  }

  /** `SetLogoImg(index)`: show logo frame `index`; nothing when the logo
      object is null. */
  function AfterSetLogoImg(s: State, index: int): (t: State)
    ensures s.logoImg.NullObj? ==> t == s
    ensures s.logoImg.Obj? ==>
      && t.logoImg.Obj?
      && (t.logoImg.src.Image? <==> 0 <= index < |BootImages|)
      && (t.logoImg.src.Image? ==> t.logoImg.src.asset == Asset(BootLogo, index + 1))
    ensures t == s.(logoImg := t.logoImg)
  {
    if s.logoImg.NullObj? then s else s.(logoImg := Obj(Lookup(BootImages, BootLogo, index)))
  }

  /** The state part of `SetupUI`: a new face image object showing neutral
      frame 0, and the periodic face timer. */
  function AfterSetupUI(s: State): (t: State)
    ensures t.faceImg == Obj(Image(Asset(NeutralFace, 1))) && t.faceTimer == Periodic(FACE_TIMEOUT_US)
    ensures t.setupRuns == s.setupRuns + 1
    ensures t == s.(faceImg := t.faceImg, faceTimer := t.faceTimer, setupRuns := t.setupRuns)
  {
    s.(faceImg := Obj(Image(NeutralImages[0])), faceTimer := Periodic(FACE_TIMEOUT_US),
       setupRuns := s.setupRuns + 1)
  }

  /** The logo timer's callback: advance and show the next logo frame, or on
      the last one delete the logo object, stop and delete the timer, report
      the logo as finished and set up the main UI. */
  function AfterLogoTick(s: State): (t: State)
    ensures t.faceState == s.faceState && t.faceIndex == s.faceIndex && t.faceCount == s.faceCount
    ensures s.logoIndex < LAST_LOGO_INDEX ==>
      && t.logoIndex == s.logoIndex + 1 && t.setupRuns == s.setupRuns
      && t.logoTimer == s.logoTimer && t.logoShown == s.logoShown
    ensures s.logoIndex >= LAST_LOGO_INDEX ==>
      && t.logoIndex == s.logoIndex && t.logoImg.NullObj? && t.logoTimer == Deleted && t.logoShown
      && t.setupRuns == s.setupRuns + 1 && t.faceTimer == Periodic(FACE_TIMEOUT_US)
  {
    if s.logoIndex < LAST_LOGO_INDEX then
      AfterSetLogoImg(s.(logoIndex := s.logoIndex + 1), s.logoIndex + 1)
    else
      AfterSetupUI(s.(logoImg := NullObj, logoTimer := Deleted, logoShown := true))
  }

  /** A `SetX(index)`: for a non-null face object, store the table's length
      as the frame count and show `images[index]`. */
  function AfterDraw(s: State, f: Family, index: int): (t: State)
    ensures s.faceImg.NullObj? ==> t == s
    ensures s.faceImg.Obj? ==>
      && t.faceCount == |Images(f)| && t.faceImg.Obj?
      && (t.faceImg.src.Image? <==> 0 <= index < |Images(f)|)
      && (t.faceImg.src.Image? ==> t.faceImg.src.asset == Images(f)[index])
    ensures t == s.(faceCount := t.faceCount, faceImg := t.faceImg)
  {
    if s.faceImg.NullObj? then s
    else s.(faceCount := |Images(f)|, faceImg := Obj(Lookup(Images(f), f, index)))
  }

  /** `ShowFace(code)`: draw frame `faceIndex` of the table the code
      selects; CRYING draws nothing. */
  function AfterShowFace(s: State, code: int): (t: State)
    ensures s.faceImg.NullObj? || code == CRYING ==> t == s
    ensures s.faceImg.Obj? && code != CRYING ==>
      t.faceCount in {14, 15, 16} && t.faceCount == |Images(FaceTable(code).value)|
    ensures t == s.(faceCount := t.faceCount, faceImg := t.faceImg)
  {
    if s.faceImg.NullObj? then s
    else
      match FaceTable(code)
      case None => s
      case Some(f) => AfterDraw(s, f, s.faceIndex)
  }

  /** Drawing into a null image object changes nothing. */
  lemma NullObjectsIgnoreDraws(s: State, f: Family, index: int, code: int)
    ensures s.faceImg.NullObj? ==> AfterDraw(s, f, index) == s && AfterShowFace(s, code) == s
    ensures s.logoImg.NullObj? ==> AfterSetLogoImg(s, index) == s
  {
  }

  /** The face timer's callback: move to the next index and redraw the
      current emotion, or once the index has reached the last frame of the
      table drawn before, fall back to NEUTRAL at index 0. */
  function AfterFaceTick(s: State): (t: State)
    ensures || (t.faceIndex == s.faceIndex + 1 && t.faceState == s.faceState)
            || (t.faceIndex == 0 && t.faceState == NEUTRAL)
    ensures s.faceIndex >= 0 ==> t.faceIndex >= 0
    ensures t == s.(faceIndex := t.faceIndex, faceState := t.faceState,
                    faceCount := t.faceCount, faceImg := t.faceImg)
  {
    if s.faceIndex < s.faceCount - 1 then
      AfterShowFace(s.(faceIndex := s.faceIndex + 1), s.faceState)
    else
      AfterShowFace(s.(faceIndex := 0, faceState := NEUTRAL), NEUTRAL)
  }

  /** `SetFace(name)` as the source writes it: a known name stores its code
      and restarts the index; an unknown one stores NEUTRAL and keeps the
      index of whatever table was playing. */
  function AfterSetFaceAsWritten(s: State, name: string): (t: State)
    ensures name in Names ==> 0 <= t.faceState < |Names| && Names[t.faceState] == name && t.faceIndex == 0
    ensures name !in Names ==> t.faceState == NEUTRAL && t.faceIndex == s.faceIndex
    ensures t == s.(faceState := t.faceState, faceIndex := t.faceIndex)
  {
    match Resolve(name)
    case Some(code) => s.(faceState := code, faceIndex := 0)
    case None => s.(faceState := NEUTRAL)
  }

  /** `SetFace(name)` corrected: an unknown name also restarts the index,
      so that the next tick draws frame 1 or 0 of the neutral table. */
  function AfterSetFace(s: State, name: string): (t: State)
    ensures name in Names ==> 0 <= t.faceState < |Names| && Names[t.faceState] == name
    ensures name !in Names ==> t.faceState == NEUTRAL
    ensures t == s.(faceState := t.faceState, faceIndex := 0)
  {
    match Resolve(name)
    case Some(code) => s.(faceState := code, faceIndex := 0)
    case None => s.(faceState := NEUTRAL, faceIndex := 0)
  }

  /** What the corrected `SetFace` stores, in terms of the resolved code. */
  lemma SetFaceStores(s: State, name: string)
    ensures AfterSetFace(s, name) ==
      s.(faceState := if Resolve(name).Some? then Resolve(name).value else NEUTRAL, faceIndex := 0)
  {
  }

  /** The correction changes nothing for a known name. */
  lemma SetFaceKnownName(s: State, i: nat)
    requires i < |Names|
    ensures AfterSetFace(s, Names[i]) == AfterSetFaceAsWritten(s, Names[i])
    ensures AfterSetFace(s, Names[i]) == s.(faceState := i, faceIndex := 0)
  {
    ResolvePosition(i);
  }

  /** `SetFace` keeps the invariant whatever the name. */
  lemma SetFaceKeepsInv(s: State, name: string)
    requires Inv(s)
    ensures Inv(AfterSetFace(s, name))
  {
    var t := AfterSetFace(s, name);
    assert TickInBounds(t) by {
      if t.faceImg.Obj? && FaceTable(t.faceState).Some? {
        assert |Images(FaceTable(t.faceState).value)| >= 14;
      }
    }
  }

  /** A face tick keeps the invariant. Unless the emotion is CRYING, it
      draws, into a non-null face object, frame `faceIndex` of the table of
      the new emotion, with the count set to that table's length. */
  lemma FaceTickKeepsInv(s: State)
    requires Inv(s)
    ensures var t := AfterFaceTick(s); Inv(t) && (s.faceImg.Obj? ==> ShowsOwnFrame(t))
  {
    if s.faceIndex < s.faceCount - 1 {
      AdvanceKeepsInv(s);
    } else {
      WrapKeepsInv(s);
    }
  }

  /** The face frame a state shows is frame `faceIndex` of its emotion's
      table, with the count set to that table's length. */
  predicate ShowsOwnFrame(t: State)
  {
    FaceTable(t.faceState).Some? ==>
      var table := Images(FaceTable(t.faceState).value);
      && 0 <= t.faceIndex < t.faceCount == |table|
      && t.faceImg == Obj(Image(table[t.faceIndex]))
  }

  /** A tick before the last frame draws the next frame of the same emotion. */
  lemma AdvanceKeepsInv(s: State)
    requires Inv(s) && s.faceIndex < s.faceCount - 1
    ensures var t := AfterFaceTick(s); Inv(t) && (s.faceImg.Obj? ==> ShowsOwnFrame(t))
    ensures AfterFaceTick(s).faceIndex == s.faceIndex + 1 && AfterFaceTick(s).faceState == s.faceState
  {
    var t := AfterFaceTick(s);
    if s.faceImg.Obj? && FaceTable(s.faceState).Some? {
      var f := FaceTable(s.faceState).value;
      assert t.faceImg.src == Image(Images(f)[t.faceIndex]);
      assert Images(f)[t.faceIndex].family == f;
    }
  }

  /** A tick at the last frame draws frame 0 of the neutral table. */
  lemma WrapKeepsInv(s: State)
    requires Inv(s) && !(s.faceIndex < s.faceCount - 1)
    ensures var t := AfterFaceTick(s); Inv(t) && (s.faceImg.Obj? ==> ShowsOwnFrame(t))
    ensures AfterFaceTick(s).faceState == NEUTRAL && AfterFaceTick(s).faceIndex == 0
    ensures s.faceImg.Obj? ==> AfterFaceTick(s).faceImg == Obj(Image(Asset(NeutralFace, 1)))
  {
    var t := AfterFaceTick(s);
    if s.faceImg.Obj? {
      assert t.faceImg.src == Image(NeutralImages[0]);
    }
  }

  /** Once the face animation runs, a face-timer expiry is a face tick and
      the controller stays in its running phase. */
  lemma ReadyFaceTick(s: State)
    requires Inv(s) && Ready(s)
    ensures FaceTimerStep(s) == AfterFaceTick(s)
    ensures Ready(AfterFaceTick(s))
  {
  }

  /** A logo tick while the logo plays shows the next logo frame, or after
      the last one tears the logo down, reports the logo as finished and
      sets up the face animation showing neutral frame 0. */
  lemma LogoTickKeepsInv(s: State)
    requires Inv(s) && Booting(s)
    ensures var t := AfterLogoTick(s);
      && Inv(t)
      && (s.logoIndex < LAST_LOGO_INDEX ==> Booting(t) && t.logoIndex == s.logoIndex + 1)
      && (s.logoIndex == LAST_LOGO_INDEX ==> Ready(t) && t.faceImg == Obj(Image(Asset(NeutralFace, 1))))
  {
  }

  /** What can happen to the controller: `SetFace` calls from the
      application, and the two timers firing. A timer that does not exist
      or was deleted delivers nothing. */
  datatype Event = FaceRequest(name: string) | LogoTimerFired | FaceTimerFired

  /** The logo timer firing: its callback runs while the timer exists. */
  function LogoTimerStep(s: State): State
  {
    if s.logoTimer.Periodic? then AfterLogoTick(s) else s
  }

  /** The face timer firing: its callback runs while the timer exists. */
  function FaceTimerStep(s: State): State
  {
    if s.faceTimer.Periodic? then AfterFaceTick(s) else s
  }

  /** One event. The boot logo only moves forwards, and once its timer is
      deleted the logo never comes back. */
  function Step(s: State, e: Event): (t: State)
    ensures s.logoIndex <= t.logoIndex
    ensures s.logoTimer == Deleted ==> t.logoTimer == Deleted && t.logoIndex == s.logoIndex
    ensures s.setupRuns <= t.setupRuns
  {
    match e
    case FaceRequest(name) => AfterSetFace(s, name)
    case LogoTimerFired => LogoTimerStep(s)
    case FaceTimerFired => FaceTimerStep(s)
  }

  lemma StepKeepsInv(s: State, e: Event)
    requires Inv(s)
    ensures Inv(Step(s, e))
  {
    match e
    case FaceRequest(name) => SetFaceKeepsInv(s, name);
    case LogoTimerFired => if s.logoTimer.Periodic? { LogoTickKeepsInv(s); }
    case FaceTimerFired => if s.faceTimer.Periodic? { FaceTickKeepsInv(s); }
  }

  /** The state after a sequence of events: the logo index never goes
      back, and the transition out of the boot phase is never undone. */
  function Run(s: State, events: seq<Event>): (t: State)
    ensures s.logoIndex <= t.logoIndex && s.setupRuns <= t.setupRuns
    ensures s.logoTimer == Deleted ==> t.logoTimer == Deleted && t.logoIndex == s.logoIndex
    decreases |events|
  {
    if events == [] then s else Run(Step(s, events[0]), events[1..])
  }

  /** Every sequence of events keeps the invariant. */
  lemma {:induction false} RunKeepsInv(s: State, events: seq<Event>)
    requires Inv(s)
    ensures Inv(Run(s, events))
    decreases |events|
  {
    if events != [] {
      StepKeepsInv(s, events[0]);
      RunKeepsInv(Step(s, events[0]), events[1..]);
    }
  }

  /** With the corrected `SetFace`, whatever the application and the
      timers do after construction, neither image object ever shows an
      out-of-range entry and the next tick's `images[index]` lies inside
      its table. */
  lemma NeverOutOfRange(displayAdded: bool, events: seq<Event>)
    ensures var t := Run(AfterConstruction(displayAdded), events);
      && (t.faceImg.Obj? ==> !t.faceImg.src.OutOfRange?)
      && (t.logoImg.Obj? ==> !t.logoImg.src.OutOfRange?)
      && TickInBounds(t)
  {
    RunKeepsInv(AfterConstruction(displayAdded), events);
  }

  /** `GetLogoStatus` reports true exactly once the logo has finished and
      the face animation runs. */
  lemma LogoStatusMeansReady(s: State)
    requires Inv(s)
    ensures s.logoShown <==> Ready(s)
  {
  }

  /** Nothing clears the logo status once it is set. */
  lemma StepKeepsLogoStatus(s: State, e: Event)
    requires s.logoShown
    ensures Step(s, e).logoShown
  {
  }

  /** The logo status starts false and, once true, stays true over every
      sequence of events. */
  lemma {:induction false} LogoStatusIsSticky(s: State, events: seq<Event>)
    requires s.logoShown
    ensures Run(s, events).logoShown
    decreases |events|
  {
    if events != [] {
      StepKeepsLogoStatus(s, events[0]);
      LogoStatusIsSticky(Step(s, events[0]), events[1..]);
    }
  }

  /** The state after `n` face-timer expiries and no other event. */
  function FaceTicks(s: State, n: nat): State
  {
    if n == 0 then s else FaceTimerStep(FaceTicks(s, n - 1))
  }

  /** The state after `n` logo-timer expiries and no other event. */
  function LogoTicks(s: State, n: nat): State
  {
    if n == 0 then s else LogoTimerStep(LogoTicks(s, n - 1))
  }

  /** `n` face ticks are the run of `n` `FaceTimerFired` events. */
  lemma {:induction false} FaceTicksRun(s: State, n: nat)
    ensures FaceTicks(s, n) == Run(s, seq(n, _ => FaceTimerFired))
    decreases n
  {
    if n > 0 {
      var events := seq(n, _ => FaceTimerFired);
      assert events[0] == FaceTimerFired && events[1..] == seq(n - 1, _ => FaceTimerFired);
      FaceTicksRun(FaceTimerStep(s), n - 1);
      FaceTicksFirst(s, n);
    }
  }

  /** `n` logo ticks are the run of `n` `LogoTimerFired` events. */
  lemma {:induction false} LogoTicksRun(s: State, n: nat)
    ensures LogoTicks(s, n) == Run(s, seq(n, _ => LogoTimerFired))
    decreases n
  {
    if n > 0 {
      var events := seq(n, _ => LogoTimerFired);
      assert events[0] == LogoTimerFired && events[1..] == seq(n - 1, _ => LogoTimerFired);
      LogoTicksRun(LogoTimerStep(s), n - 1);
      LogoTicksFirst(s, n);
    }
  }

  /** The first of `n` logo ticks can be split off the front. */
  lemma {:induction false} LogoTicksFirst(s: State, n: nat)
    requires n > 0
    ensures LogoTicks(s, n) == LogoTicks(LogoTimerStep(s), n - 1)
  {
    if n > 1 {
      LogoTicksFirst(s, n - 1);
    }
  }

  /** The first of `n` face ticks can be split off the front. */
  lemma {:induction false} FaceTicksFirst(s: State, n: nat)
    requires n > 0
    ensures FaceTicks(s, n) == FaceTicks(FaceTimerStep(s), n - 1)
  {
    if n > 1 {
      FaceTicksFirst(s, n - 1);
    }
  }

  /** The boot logo shows frames 0, 1, ..., 21 in order, one per logo tick. */
  lemma {:induction false} LogoPlays(k: nat)
    requires k <= LAST_LOGO_INDEX
    ensures var t := LogoTicks(AfterConstruction(true), k);
      && Inv(t) && Booting(t) && t.faceState == NEUTRAL
      && t.logoIndex == k && t.logoImg == Obj(Image(Asset(BootLogo, k + 1)))
  {
    if k > 0 {
      LogoPlays(k - 1);
      LogoTickKeepsInv(LogoTicks(AfterConstruction(true), k - 1));
    }
  }

  /** The tick after the last logo frame deletes the logo and its timer,
      sets the status flag and runs `SetupUI`, which shows neutral frame 0;
      however many more times the timer would have fired, `SetupUI` has run
      exactly once. */
  lemma {:induction false} LogoFinishes(k: nat)
    requires k > LAST_LOGO_INDEX
    ensures var t := LogoTicks(AfterConstruction(true), k);
      && Inv(t) && Ready(t) && t.logoShown && t.setupRuns == 1 && t.logoImg == NullObj
      && t.faceImg == Obj(Image(Asset(NeutralFace, 1)))
      && t.faceIndex == 0 && t.faceCount == 0 && t.faceState == NEUTRAL
  {
    if k == LAST_LOGO_INDEX + 1 {
      LogoPlays(LAST_LOGO_INDEX);
      LogoTickKeepsInv(LogoTicks(AfterConstruction(true), LAST_LOGO_INDEX));
    } else {
      LogoFinishes(k - 1);
    }
  }

  /** Before the first face tick the count is still 0, so that tick takes
      the wrap branch: whatever `SetFace` asked for is dropped and neutral
      frame 0 is drawn. */
  lemma FirstRequestDropped(s: State, name: string)
    requires Inv(s) && Ready(s) && s.faceCount == 0
    ensures var t := FaceTimerStep(AfterSetFace(s, name));
      && Inv(t) && Ready(t)
      && t.faceState == NEUTRAL && t.faceIndex == 0 && t.faceCount == |NeutralImages|
      && t.faceImg == Obj(Image(Asset(NeutralFace, 1)))
  {
    SetFaceKeepsInv(s, name);
    var s1 := AfterSetFace(s, name);
    FaceTickKeepsInv(s1);
    ReadyFaceTick(s1);
  }

  /** While the index has not reached the end of the table, successive
      ticks step through the table one frame at a time. */
  lemma {:induction false} TicksAdvance(s: State, f: Family, k: nat)
    requires Inv(s) && Ready(s)
    requires FaceTable(s.faceState) == Some(f) && s.faceCount == |Images(f)|
    requires 0 <= s.faceIndex && s.faceIndex + k < s.faceCount
    requires s.faceImg == Obj(Image(Images(f)[s.faceIndex]))
    ensures var t := FaceTicks(s, k);
      && Inv(t) && Ready(t) && t.faceState == s.faceState && t.faceCount == s.faceCount
      && t.faceIndex == s.faceIndex + k && t.faceImg == Obj(Image(Images(f)[t.faceIndex]))
  {
    if k > 0 {
      TicksAdvance(s, f, k - 1);
      AdvanceStep(FaceTicks(s, k - 1), f);
    }
  }

  /** One tick before the end of the table shows the next frame. */
  lemma AdvanceStep(p: State, f: Family)
    requires Inv(p) && Ready(p)
    requires FaceTable(p.faceState) == Some(f) && p.faceCount == |Images(f)|
    requires p.faceIndex + 1 < p.faceCount
    ensures var t := FaceTimerStep(p);
      && Inv(t) && Ready(t) && t.faceState == p.faceState && t.faceCount == p.faceCount
      && t.faceIndex == p.faceIndex + 1 && t.faceImg == Obj(Image(Images(f)[t.faceIndex]))
  {
    FaceTickKeepsInv(p);
    ReadyFaceTick(p);
  }

  /** The tick after the last frame falls back to neutral frame 0. */
  lemma WrapToNeutral(s: State)
    requires Inv(s) && Ready(s) && s.faceIndex == s.faceCount - 1
    ensures var t := FaceTimerStep(s);
      && Inv(t) && Ready(t) && t.faceState == NEUTRAL && t.faceIndex == 0
      && t.faceCount == |NeutralImages| && t.faceImg == Obj(Image(Asset(NeutralFace, 1)))
  {
    FaceTickKeepsInv(s);
    ReadyFaceTick(s);
  }

  /** After `SetFace` of a known name other than "crying", the first tick
      draws frame 1 of the emotion's table. */
  lemma FirstTickAfterKnown(s: State, i: nat, f: Family)
    requires Inv(s) && Ready(s) && s.faceCount != 0
    requires i < |Names| && FaceTable(i) == Some(f)
    ensures var t := FaceTimerStep(AfterSetFace(s, Names[i]));
      && Inv(t) && Ready(t) && t.faceState == i && t.faceIndex == 1
      && t.faceCount == |Images(f)| && t.faceImg == Obj(Image(Images(f)[1]))
  {
    SetFaceKnownName(s, i);
    SetFaceKeepsInv(s, Names[i]);
    FirstTick(s.(faceState := i, faceIndex := 0), f);
  }

  /** From index 0 of a running animation, a tick draws frame 1. */
  lemma FirstTick(s1: State, f: Family)
    requires Inv(s1) && Ready(s1) && s1.faceIndex == 0 && s1.faceCount != 0
    requires FaceTable(s1.faceState) == Some(f)
    ensures var t := FaceTimerStep(s1);
      && Inv(t) && Ready(t) && t.faceState == s1.faceState && t.faceIndex == 1
      && t.faceCount == |Images(f)| && t.faceImg == Obj(Image(Images(f)[1]))
  {
    FaceTickKeepsInv(s1);
    ReadyFaceTick(s1);
  }

  /** The tail of `EmotionPlaysOnce`, on the state after the first tick:
      the tick after frame N - 1 falls back to neutral frame 0. */
  lemma PassEnds(t1: State, f: Family)
    requires Inv(t1) && Ready(t1) && t1.faceIndex == 1
    requires FaceTable(t1.faceState) == Some(f) && t1.faceCount == |Images(f)|
    requires t1.faceImg == Obj(Image(Images(f)[1]))
    ensures var t := FaceTicks(t1, |Images(f)| - 1);
      t.faceState == NEUTRAL && t.faceIndex == 0 && t.faceImg == Obj(Image(Asset(NeutralFace, 1)))
  {
    var n := |Images(f)|;
    TicksAdvance(t1, f, n - 2);
    FaceTicksLast(t1, n - 1);
    WrapToNeutral(FaceTicks(t1, n - 2));
  }

  /** The last of `n` face ticks is one tick after the first `n - 1`. */
  lemma FaceTicksLast(s: State, n: nat)
    requires n > 0
    ensures FaceTicks(s, n) == FaceTimerStep(FaceTicks(s, n - 1))
  {
  }

  /** Once the animation runs, a known emotion other than CRYING plays its
      table once, frame `k` after `k` ticks, and the tick after its last
      frame falls back to neutral frame 0. */
  lemma EmotionPlaysOnce(s: State, i: nat, f: Family, k: nat)
    requires Inv(s) && Ready(s) && s.faceCount != 0
    requires i < |Names| && FaceTable(i) == Some(f)
    requires 1 <= k <= |Images(f)|
    ensures var t := FaceTicks(AfterSetFace(s, Names[i]), k);
      && (k < |Images(f)| ==>
            && Inv(t) && Ready(t) && t.faceCount == |Images(f)|
            && t.faceState == i && t.faceIndex == k && t.faceImg == Obj(Image(Images(f)[k])))
      && (k == |Images(f)| ==>
            t.faceState == NEUTRAL && t.faceIndex == 0 && t.faceImg == Obj(Image(Asset(NeutralFace, 1))))
  {
    SetFaceKnownName(s, i);
    SetFaceKeepsInv(s, Names[i]);
    PlaysFromStart(s.(faceState := i, faceIndex := 0), f, k);
  }

  /** The same from index 0 of a running animation. */
  lemma PlaysFromStart(s1: State, f: Family, k: nat)
    requires Inv(s1) && Ready(s1) && s1.faceIndex == 0 && s1.faceCount != 0
    requires FaceTable(s1.faceState) == Some(f)
    requires 1 <= k <= |Images(f)|
    ensures var t := FaceTicks(s1, k);
      && (k < |Images(f)| ==>
            && Inv(t) && Ready(t) && t.faceCount == |Images(f)|
            && t.faceState == s1.faceState && t.faceIndex == k && t.faceImg == Obj(Image(Images(f)[k])))
      && (k == |Images(f)| ==>
            t.faceState == NEUTRAL && t.faceIndex == 0 && t.faceImg == Obj(Image(Asset(NeutralFace, 1))))
  {
    FirstTick(s1, f);
    FaceTicksFirst(s1, k);
    if k < |Images(f)| {
      TicksAdvance(FaceTimerStep(s1), f, k - 1);
    } else {
      PassEnds(FaceTimerStep(s1), f);
    }
  }

  /** CRYING draws nothing: the picture stays as it was while the index
      counts through the count of the table drawn before. */
  lemma {:induction false} CryingFreezes(s: State, k: nat)
    requires Inv(s) && Ready(s) && s.faceState == CRYING
    requires s.faceIndex + k < s.faceCount
    ensures var t := FaceTicks(s, k);
      && Inv(t) && Ready(t) && t.faceState == CRYING && t.faceCount == s.faceCount
      && t.faceIndex == s.faceIndex + k && t.faceImg == s.faceImg
  {
    if k > 0 {
      CryingFreezes(s, k - 1);
      var p := FaceTicks(s, k - 1);
      FaceTickKeepsInv(p);
      ReadyFaceTick(p);
    }
  }

  /** The source's `SetFace` followed by one tick, from a running animation
      of a 15- or 16-frame table that has reached frame 13 or later but not
      its last frame: an unknown name keeps the index, the tick moves it to
      14 or beyond, and the neutral table, which has 14 frames, is read
      past its end. */
  lemma UnknownNameOverruns(s: State, name: string)
    requires Inv(s) && Ready(s) && name !in Names
    requires s.faceCount in {15, 16} && 13 <= s.faceIndex < s.faceCount - 1
    ensures var t := FaceTimerStep(AfterSetFaceAsWritten(s, name));
      t.faceImg == Obj(OutOfRange(NeutralFace, s.faceIndex + 1))
  {
    var s1 := AfterSetFaceAsWritten(s, name);
    assert s1.faceState == NEUTRAL && s1.faceIndex < s1.faceCount - 1;
    assert |Images(NeutralFace)| == 14;
  }

  /** After the logo and the first face tick the animation runs on the
      neutral table. */
  lemma BootThenFirstTick()
    ensures var r := FaceTimerStep(LogoTicks(AfterConstruction(true), 22));
      && Inv(r) && Ready(r) && r.faceCount == 14 && r.faceState == NEUTRAL
  {
    LogoFinishes(22);
    var r := LogoTicks(AfterConstruction(true), 22);
    FaceTickKeepsInv(r);
    ReadyFaceTick(r);
  }

  /** "excited" is not one of the names `SetFace` knows. */
  lemma ExcitedIsUnknown()
    ensures "excited" !in Names
  {
    forall i | 0 <= i < |Names|
      ensures Names[i] != "excited"
    {
      assert |Names[i]| != 7 || Names[i][0] != 'e';
    }
  }

  /** A source run that reaches the overrun: the logo plays to its end, the
      first face tick draws neutral frame 0, "happy" is asked for and plays
      13 frames, and then a name outside the table arrives. The corrected
      `SetFace` draws neutral frame 1 instead. */
  lemma OverrunIsReachable()
    ensures var s := FaceTicks(AfterSetFace(FaceTimerStep(LogoTicks(AfterConstruction(true), 22)), "happy"), 13);
      && FaceTimerStep(AfterSetFaceAsWritten(s, "excited")).faceImg == Obj(OutOfRange(NeutralFace, 14))
      && FaceTimerStep(AfterSetFace(s, "excited")).faceImg == Obj(Image(Asset(NeutralFace, 2)))
  {
    BootThenFirstTick();
    OverrunAfterHappy(FaceTimerStep(LogoTicks(AfterConstruction(true), 22)));
    assert Names[HAPPY] == "happy";
  }

  /** The same from any running animation. */
  lemma OverrunAfterHappy(r: State)
    requires Inv(r) && Ready(r) && r.faceCount != 0
    ensures var s := FaceTicks(AfterSetFace(r, Names[HAPPY]), 13);
      && FaceTimerStep(AfterSetFaceAsWritten(s, "excited")).faceImg == Obj(OutOfRange(NeutralFace, 14))
      && FaceTimerStep(AfterSetFace(s, "excited")).faceImg == Obj(Image(Asset(NeutralFace, 2)))
  {
    HappyReachesFrame13(r);
    var s := FaceTicks(AfterSetFace(r, Names[HAPPY]), 13);
    ExcitedIsUnknown();
    UnknownNameOverruns(s, "excited");
    UnknownNameRestarts(s, "excited");
  }

  /** The first half of that run: from a running animation, "happy" has
      reached frame 13 of its 16 after 13 ticks. */
  lemma HappyReachesFrame13(r: State)
    requires Inv(r) && Ready(r) && r.faceCount != 0
    ensures var s := FaceTicks(AfterSetFace(r, Names[HAPPY]), 13);
      && Inv(s) && Ready(s) && s.faceCount == 16 && s.faceIndex == 13
  {
    SetFaceKnownName(r, HAPPY);
    var s1 := r.(faceState := HAPPY, faceIndex := 0);
    FirstTickAfterKnown(r, HAPPY, HappyFace);
    FaceTicksFirst(s1, 13);
    TicksAdvance(FaceTimerStep(s1), HappyFace, 12);
  }

  /** With the correction, an unknown name during a running animation
      makes the next tick draw neutral frame 1, whatever played before. */
  lemma UnknownNameRestarts(s: State, name: string)
    requires Inv(s) && Ready(s) && name !in Names && s.faceCount != 0
    ensures FaceTimerStep(AfterSetFace(s, name)).faceImg == Obj(Image(Asset(NeutralFace, 2)))
  {
    var s1 := AfterSetFace(s, name);
    SetFaceKeepsInv(s, name);
    ReadyFaceTick(s1);
    FaceTickKeepsInv(s1);
  }

  /** The display object of the GC9107 build. */
  class LcdGc9107Display {
    var logoShown: bool
    var logoImg: ImgObj
    var faceImg: ImgObj
    var logoIndex: int
    var faceIndex: int
    var faceCount: int
    var faceState: int
    var logoTimer: Timer
    var faceTimer: Timer
    ghost var setupRuns: nat

    ghost function Model(): State
      reads this
    {
      State(logoShown, logoImg, faceImg, logoIndex, faceIndex, faceCount, faceState,
            logoTimer, faceTimer, setupRuns)
    }

    ghost predicate Valid()
      reads this
    {
      Inv(Model())
    }

    /** The SPI display's constructor; `displayAdded` is whether
        `lvgl_port_add_disp` returned a display. */
    constructor (displayAdded: bool)
      ensures Valid() && Model() == AfterConstruction(displayAdded)
    {
      logoShown := false;
      logoImg, faceImg := NullObj, NullObj;
      logoIndex, faceIndex, faceCount, faceState := 0, 0, 0, 0;
      logoTimer, faceTimer := NullTimer, NullTimer;
      setupRuns := 0;
      new;
      if displayAdded {
        ShowLogo();
        logoTimer := Periodic(LOGO_TIMEOUT_US);
      }
    }

    method ShowLogo()
      modifies this
      ensures Model() == AfterShowLogo(old(Model()))
    {
      logoImg := Obj(Image(BootImages[0]));
    }

    method SetLogoImg(index: int)
      requires logoImg.NullObj? || 0 <= index < |BootImages|
      modifies this
      ensures Model() == AfterSetLogoImg(old(Model()), index)
    {
      if logoImg.NullObj? {
        return;
      }
      logoImg := Obj(Image(BootImages[index]));
    }

    method SetupUI()
      modifies this
      ensures Model() == AfterSetupUI(old(Model()))
    {
      faceImg := Obj(Image(NeutralImages[0]));
      faceTimer := Periodic(FACE_TIMEOUT_US);
      setupRuns := setupRuns + 1;
    }

    /** The logo timer's callback; the timer only calls it while it runs. */
    method LogoTick()
      requires Valid() && logoTimer.Periodic?
      modifies this
      ensures Valid() && Model() == AfterLogoTick(old(Model()))
    {
      if logoIndex < LAST_LOGO_INDEX {
        logoIndex := logoIndex + 1;
        SetLogoImg(logoIndex);
      } else {
        if !logoImg.NullObj? {
          logoImg := NullObj;
        }
        logoTimer := Deleted;
        logoShown := true;
        SetupUI();
      }
      LogoTickKeepsInv(old(Model()));
    }

    /** Draw frame `index` of table `f`: the body shared by `SetNeutral`,
        `SetHappy`, ..., `SetDefault`. */
    method Draw(f: Family, index: int)
      requires faceImg.NullObj? || 0 <= index < |Images(f)|
      modifies this
      ensures Model() == AfterDraw(old(Model()), f, index)
    {
      if faceImg.NullObj? {
        return;
      }
      faceCount := |Images(f)|;
      faceImg := Obj(Image(Images(f)[index]));
    }

    method ShowFace(code: int)
      requires faceImg.NullObj? || FaceTable(code).None?
        || 0 <= faceIndex < |Images(FaceTable(code).value)|
      modifies this
      ensures Model() == AfterShowFace(old(Model()), code)
    {
      if faceImg.NullObj? {
        return;
      }
      if code == NEUTRAL {
        Draw(NeutralFace, faceIndex);
      } else if code == HAPPY || code == LAUGHING || code == FUNNY {
        Draw(HappyFace, faceIndex);
      } else if code == SAD {
        Draw(SadFace, faceIndex);
      } else if code == ANGRY {
        Draw(AngryFace, faceIndex);
      } else if code == CRYING {
      } else if code == EMBARRAS {
        Draw(EmbarrassedFace, faceIndex);
      } else if code == LOVING {
        Draw(LovingFace, faceIndex);
      } else {
        Draw(DefaultFace, faceIndex);
      }
    }

    /** The face timer's callback. */
    method FaceTick()
      requires Valid()
      modifies this
      ensures Valid() && Model() == AfterFaceTick(old(Model()))
    {
      if faceIndex < faceCount - 1 {
        faceIndex := faceIndex + 1;
        ShowFace(faceState);
      } else {
        faceIndex := 0;
        faceState := NEUTRAL;
        ShowFace(faceState);
      }
      FaceTickKeepsInv(old(Model()));
    }

    /** `SetFace` with the correction: the index restarts for every name. */
    method SetFace(name: string)
      requires Valid()
      modifies this
      ensures Valid() && Model() == AfterSetFace(old(Model()), name)
    {
      SetFaceKeepsInv(Model(), name);
      SetFaceStores(Model(), name);
      var code := Resolve(name);
      if code.Some? {
        faceState := code.value;
        faceIndex := 0;
        return;
      }
      faceState := NEUTRAL;
      faceIndex := 0;
    }

    method GetLogoStatus() returns (shown: bool)
      requires Valid()
      ensures shown <==> Ready(Model())
    {
      LogoStatusMeansReady(Model());
      shown := logoShown;
    }
  }
}
