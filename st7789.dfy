/** The face-animation and boot-logo controller of the ST7789 build, class
    `LcdDisplay`.

    The controller's state is the fields of the class: the two image
    objects, the logo and face counters, the emotion code and the two timer
    handles. `State` is that state as a value, the `After*` functions say
    what each operation does to it, and `Inv` is the invariant every
    operation keeps: the frame every tick draws lies inside the table it is
    drawn from. The class `LcdDisplay` at the end updates the same fields in
    place and is proved to follow the functions. */
module St7789 {
  import opened Emotions
  import opened Assets

  const LOGO_TIMEOUT_US: nat := 120 * 1000
  const FACE_TIMEOUT_US: nat := 300 * 1000

  /** The logo timer advances the logo while `current_logo_index_` is below this. */
  const LAST_LOGO_INDEX := 20

  const BootImages := Numbered(BootLogo, 21)
  const NeutralImages := Numbered(NeutralFace, 8)
  const HappyImages := Numbered(HappyFace, 6)
  const SadImages := Numbered(SadFace, 8)
  const AngryImages := Numbered(AngryFace, 7)
  const LovingImages := Numbered(LovingFace, 6)
  const EmbarrassedImages := Numbered(EmbarrassedFace, 4)

  /** The static `images[]` table of each family (this build has no
      default-face table). */
  function Images(f: Family): seq<Asset>
  {
    match f
    case NeutralFace => NeutralImages
    case HappyFace => HappyImages
    case SadFace => SadImages
    case AngryFace => AngryImages
    case LovingFace => LovingImages
    case EmbarrassedFace => EmbarrassedImages
    case DefaultFace => []
    case BootLogo => BootImages
  }

  /** The switch of `ShowFace`: the table an emotion code is drawn from.
      Every table has 4 to 8 frames and none is longer than the neutral one,
      which is what keeps an unknown name safe in this build. */
  function FaceTable(code: int): (f: Family)
    ensures |Images(f)| in {4, 6, 7, 8}
    ensures |Images(f)| <= |Images(NeutralFace)|
  {
    if code == HAPPY || code == LAUGHING || code == FUNNY || code == KISSY then HappyFace
    else if code == SAD then SadFace
    else if code == ANGRY then AngryFace
    else if code == SLEEPY || code == EMBARRAS then EmbarrassedFace
    else if code == LOVING then LovingFace
    else NeutralFace
  }

  /** The switch of `ShowFace` emotion by emotion, with the table sizes. */
  lemma ShowFaceSelects(code: int)
    ensures FaceTable(code) == HappyFace <==> code in {HAPPY, LAUGHING, FUNNY, KISSY}
    ensures FaceTable(code) == SadFace <==> code == SAD
    ensures FaceTable(code) == AngryFace <==> code == ANGRY
    ensures FaceTable(code) == EmbarrassedFace <==> code in {SLEEPY, EMBARRAS}
    ensures FaceTable(code) == LovingFace <==> code == LOVING
    ensures FaceTable(code) == NeutralFace <==>
      code !in {HAPPY, LAUGHING, FUNNY, KISSY, SAD, ANGRY, SLEEPY, EMBARRAS, LOVING}
    ensures |NeutralImages| == 8 && |HappyImages| == 6 && |SadImages| == 8
    ensures |AngryImages| == 7 && |LovingImages| == 6 && |EmbarrassedImages| == 4
  {
  }

  /** The controller's fields. `setupRuns` counts the runs of `SetupUI`. */
  datatype State = State(
    logoImg: ImgObj,
    faceImg: ImgObj,
    logoIndex: int,
    faceIndex: int,
    faceCount: int,
    faceState: int,
    logoTimer: Timer,
    faceTimer: Timer,
    setupRuns: nat)

  /** The index the face tick moves to: the next one, or 0 once the index
      has reached the last frame of the table drawn before. */
  function NextIndex(index: int, count: int): (r: int)
    ensures r == 0 || r == index + 1
    ensures index >= 0 ==> r >= 0
    ensures 0 <= index < count ==> 0 <= r < count
    ensures r == 0 <==> index >= count - 1 || index == -1
  {
    if index < count - 1 then index + 1 else 0
  }

  /** The frame the next face tick draws lies inside the table it draws from. */
  predicate TickInBounds(s: State)
  {
    s.faceImg.NullObj?
    || 0 <= NextIndex(s.faceIndex, s.faceCount) < |Images(FaceTable(s.faceState))|
  }

  /** Until the face image exists nothing has been drawn; afterwards the
      count is the length of the table the shown frame came from. */
  predicate FaceInv(s: State)
  {
    && 0 <= s.faceState < |Names|
    && 0 <= s.faceIndex
    && s.faceCount in {0, 4, 6, 7, 8}
    && (s.faceIndex == 0 || s.faceIndex < s.faceCount)
    && (s.faceImg.NullObj? ==> s.faceIndex == 0 && s.faceCount == 0)
    && (s.faceImg.Obj? ==>
          match s.faceImg.src
          case NoImage => s.faceCount == 0
          case Image(a) => a.family != BootLogo && s.faceCount == |Images(a.family)|
          case OutOfRange(_, _) => false)
    && TickInBounds(s)
  }

  /** Before the display was added: nothing created. */
  predicate Unstarted(s: State)
  {
    s.logoImg.NullObj? && s.logoTimer.NullTimer? && s.logoIndex == 0
    && s.faceImg.NullObj? && s.faceTimer.NullTimer? && s.setupRuns == 0
  }

  /** The boot logo plays: it shows frame `logoIndex` and the logo timer runs. */
  predicate Booting(s: State)
  {
    && s.logoTimer == Periodic(LOGO_TIMEOUT_US)
    && 0 <= s.logoIndex <= LAST_LOGO_INDEX
    && s.logoImg == Obj(Image(BootImages[s.logoIndex]))
    && s.faceImg.NullObj? && s.faceTimer.NullTimer? && s.setupRuns == 0
  }

  /** The logo is gone and the face animation runs; `SetupUI` ran once. */
  predicate Ready(s: State)
  {
    && s.logoTimer == Deleted && s.logoIndex == LAST_LOGO_INDEX && s.logoImg.NullObj?
    && s.faceImg.Obj? && s.faceTimer == Periodic(FACE_TIMEOUT_US) && s.setupRuns == 1
  }

  predicate Inv(s: State)
  {
    FaceInv(s) && (Unstarted(s) || Booting(s) || Ready(s))
  }

  /** The field initialisers of the class. */
  function Initial(): (s: State)
    ensures Inv(s) && Unstarted(s)
    ensures s.faceState == NEUTRAL && s.faceIndex == 0 && s.faceCount == 0 && s.logoIndex == 0
  {
    State(NullObj, NullObj, 0, 0, 0, 0, NullTimer, NullTimer, 0)
  }

  /** `ShowLogo`: create the logo image object showing the first logo frame. */
  function AfterShowLogo(s: State): (t: State)
    ensures t.logoImg == Obj(Image(Asset(BootLogo, 1)))
    ensures t == s.(logoImg := t.logoImg)
  {
    s.(logoImg := Obj(Image(BootImages[0])))
  }

  /** The state part of the SPI display's constructor. When the display
      could be added it shows the logo and starts the periodic logo timer;
      otherwise it returns early with nothing created. */
  function AfterConstruction(displayAdded: bool): (s: State)
    ensures Inv(s)
    ensures displayAdded <==> Booting(s)
    ensures !displayAdded ==> Unstarted(s)
    ensures displayAdded ==> s.logoIndex == 0 && s.logoImg == Obj(Image(Asset(BootLogo, 1)))
  {
    if displayAdded then AfterShowLogo(Initial()).(logoTimer := Periodic(LOGO_TIMEOUT_US))
    else Initial()
  }

  /** `SetLogoImg(index)`: show logo frame `index`; nothing when the logo
      object is null. */
  function AfterSetLogoImg(s: State, index: int): (t: State)
    ensures s.logoImg.NullObj? ==> t == s
    ensures s.logoImg.Obj? ==>
      && t.logoImg.Obj?
      && (t.logoImg.src.Image? <==> 0 <= index < |BootImages|)
      && (t.logoImg.src.Image? ==> t.logoImg.src.asset == Asset(BootLogo, index + 1))
    ensures t == s.(logoImg := t.logoImg)
  {
    if s.logoImg.NullObj? then s else s.(logoImg := Obj(Lookup(BootImages, BootLogo, index)))
  }

  /** The state part of `SetupUI`: a new face image object with no source,
      and the periodic face timer. */
  function AfterSetupUI(s: State): (t: State)
    ensures t.faceImg == Obj(NoImage) && t.faceTimer == Periodic(FACE_TIMEOUT_US)
    ensures t.setupRuns == s.setupRuns + 1
    ensures t == s.(faceImg := t.faceImg, faceTimer := t.faceTimer, setupRuns := t.setupRuns)
  {
    s.(faceImg := Obj(NoImage), faceTimer := Periodic(FACE_TIMEOUT_US), setupRuns := s.setupRuns + 1)
  }

  /** The logo timer's callback: advance and show the next logo frame, or on
      the last one delete the logo object, stop and delete the timer and set
      up the main UI. */
  function AfterLogoTick(s: State): (t: State)
    ensures t.faceState == s.faceState && t.faceIndex == s.faceIndex && t.faceCount == s.faceCount
    ensures s.logoIndex < LAST_LOGO_INDEX ==>
      t.logoIndex == s.logoIndex + 1 && t.setupRuns == s.setupRuns && t.logoTimer == s.logoTimer
    ensures s.logoIndex >= LAST_LOGO_INDEX ==>
      && t.logoIndex == s.logoIndex && t.logoImg.NullObj? && t.logoTimer == Deleted
      && t.setupRuns == s.setupRuns + 1 && t.faceTimer == Periodic(FACE_TIMEOUT_US)
  {
    if s.logoIndex < LAST_LOGO_INDEX then
      AfterSetLogoImg(s.(logoIndex := s.logoIndex + 1), s.logoIndex + 1)
    else
      AfterSetupUI(s.(logoImg := NullObj, logoTimer := Deleted))
  }

  /** A `SetX(index)`: for a non-null face object, store the table's length
      as the frame count and show `images[index]`. */
  function AfterDraw(s: State, f: Family, index: int): (t: State)
    ensures s.faceImg.NullObj? ==> t == s
    ensures s.faceImg.Obj? ==>
      && t.faceCount == |Images(f)| && t.faceImg.Obj?
      && (t.faceImg.src.Image? <==> 0 <= index < |Images(f)|)
      && (t.faceImg.src.Image? ==> t.faceImg.src.asset == Images(f)[index])
    ensures t == s.(faceCount := t.faceCount, faceImg := t.faceImg)
  {
    if s.faceImg.NullObj? then s
    else s.(faceCount := |Images(f)|, faceImg := Obj(Lookup(Images(f), f, index)))
  }

  /** `ShowFace(code)`: draw frame `faceIndex` of the table the code selects. */
  function AfterShowFace(s: State, code: int): (t: State)
    ensures s.faceImg.NullObj? ==> t == s
    ensures s.faceImg.Obj? ==> t.faceCount in {4, 6, 7, 8} && t.faceCount == |Images(FaceTable(code))|
    ensures t == s.(faceCount := t.faceCount, faceImg := t.faceImg)
  {
    if s.faceImg.NullObj? then s else AfterDraw(s, FaceTable(code), s.faceIndex)
  }

  /** Drawing into a null image object changes nothing. */
  lemma NullObjectsIgnoreDraws(s: State, f: Family, index: int, code: int)
    ensures s.faceImg.NullObj? ==> AfterDraw(s, f, index) == s && AfterShowFace(s, code) == s
    ensures s.logoImg.NullObj? ==> AfterSetLogoImg(s, index) == s
  {
  }

  /** The face timer's callback: move to the next index, or wrap to 0, and
      redraw the current emotion. */
  function AfterFaceTick(s: State): (t: State)
    ensures t.faceIndex == 0 || t.faceIndex == s.faceIndex + 1
    ensures s.faceIndex >= 0 ==> t.faceIndex >= 0
    ensures s.faceImg.Obj? ==> t.faceCount == |Images(FaceTable(s.faceState))|
    ensures t == s.(faceIndex := t.faceIndex, faceCount := t.faceCount, faceImg := t.faceImg)
  {
    AfterShowFace(s.(faceIndex := NextIndex(s.faceIndex, s.faceCount)), s.faceState)
  }

  /** `SetFace(name)`: a known name stores its code and restarts the index;
      an unknown one stores NEUTRAL and keeps the index. */
  function AfterSetFace(s: State, name: string): (t: State)
    ensures name in Names ==> 0 <= t.faceState < |Names| && Names[t.faceState] == name && t.faceIndex == 0
    ensures name !in Names ==> t.faceState == NEUTRAL && t.faceIndex == s.faceIndex
    ensures t == s.(faceState := t.faceState, faceIndex := t.faceIndex)
  {
    match Resolve(name)
    case Some(code) => s.(faceState := code, faceIndex := 0)
    case None => s.(faceState := NEUTRAL)
  }

  /** A known name sets the emotion to its table position and restarts the
      animation; the frame count and everything else stay. */
  lemma SetFaceKnownName(s: State, i: nat)
    requires i < |Names|
    ensures AfterSetFace(s, Names[i]) == s.(faceState := i, faceIndex := 0)
  {
    ResolvePosition(i);
  }

  /** An unknown name selects NEUTRAL and leaves index and count alone. */
  lemma SetFaceUnknownName(s: State, name: string)
    requires name !in Names
    ensures AfterSetFace(s, name) == s.(faceState := NEUTRAL)
  {
  }

  /** `SetFace` keeps the invariant whatever the name: a known name restarts
      at index 0, and an unknown one selects the neutral table, which is at
      least as long as the table the pending index belongs to. */
  lemma SetFaceKeepsInv(s: State, name: string)
    requires Inv(s)
    ensures Inv(AfterSetFace(s, name))
  {
    var t := AfterSetFace(s, name);
    if name in Names {
      RestartKeepsInv(s, t.faceState);
    } else {
      NeutralKeepsInv(s);
    }
  }

  lemma RestartKeepsInv(s: State, code: int)
    requires Inv(s) && 0 <= code < |Names|
    ensures Inv(s.(faceState := code, faceIndex := 0))
  {
    var t := s.(faceState := code, faceIndex := 0);
    assert NextIndex(0, t.faceCount) <= 1 < |Images(FaceTable(code))|;
  }

  lemma NeutralKeepsInv(s: State)
    requires Inv(s)
    ensures Inv(s.(faceState := NEUTRAL))
  {
    assert |Images(FaceTable(s.faceState))| <= |Images(FaceTable(NEUTRAL))|;
  }

  /** A face tick keeps the invariant and draws, into a non-null face
      object, frame `faceIndex` of the current emotion's table, with the
      count set to that table's length. */
  lemma FaceTickKeepsInv(s: State)
    requires Inv(s)
    ensures var t := AfterFaceTick(s);
      && Inv(t) && t.faceState == s.faceState
      && (s.faceImg.Obj? ==>
            && t.faceIndex < t.faceCount == |Images(FaceTable(s.faceState))|
            && t.faceImg == Obj(Image(Images(FaceTable(s.faceState))[t.faceIndex])))
  {
    var t := AfterFaceTick(s);
    if s.faceImg.Obj? {
      var f := FaceTable(s.faceState);
      assert t.faceImg.src == Image(Images(f)[t.faceIndex]);
      assert Images(f)[t.faceIndex].family == f;
    }
  }

  /** Once the face animation runs, a face-timer expiry is a face tick and
      the controller stays in its running phase. */
  lemma ReadyFaceTick(s: State)
    requires Inv(s) && Ready(s)
    ensures FaceTimerStep(s) == AfterFaceTick(s)
    ensures Ready(AfterFaceTick(s))
  {
  }

  /** A logo tick while the logo plays shows the next logo frame, or after
      the last one tears the logo down and sets up the face animation. */
  lemma LogoTickKeepsInv(s: State)
    requires Inv(s) && Booting(s)
    ensures var t := AfterLogoTick(s);
      && Inv(t)
      && (s.logoIndex < LAST_LOGO_INDEX ==> Booting(t) && t.logoIndex == s.logoIndex + 1)
      && (s.logoIndex == LAST_LOGO_INDEX ==> Ready(t) && t.faceImg == Obj(NoImage))
  {
  }

  /** What can happen to the controller: `SetFace` calls from the
      application, and the two timers firing. A timer that does not exist
      or was deleted delivers nothing. */
  datatype Event = FaceRequest(name: string) | LogoTimerFired | FaceTimerFired

  /** The logo timer firing: its callback runs while the timer exists. */
  function LogoTimerStep(s: State): State
  {
    if s.logoTimer.Periodic? then AfterLogoTick(s) else s
  }

  /** The face timer firing: its callback runs while the timer exists. */
  function FaceTimerStep(s: State): State
  {
    if s.faceTimer.Periodic? then AfterFaceTick(s) else s
  }

  /** One event. The boot logo only moves forwards, and once its timer is
      deleted the logo never comes back. */
  function Step(s: State, e: Event): (t: State)
    ensures s.logoIndex <= t.logoIndex
    ensures s.logoTimer == Deleted ==> t.logoTimer == Deleted && t.logoIndex == s.logoIndex
    ensures s.setupRuns <= t.setupRuns
  {
    match e
    case FaceRequest(name) => AfterSetFace(s, name)
    case LogoTimerFired => LogoTimerStep(s)
    case FaceTimerFired => FaceTimerStep(s)
  }

  lemma StepKeepsInv(s: State, e: Event)
    requires Inv(s)
    ensures Inv(Step(s, e))
  {
    match e
    case FaceRequest(name) => SetFaceKeepsInv(s, name);
    case LogoTimerFired => if s.logoTimer.Periodic? { LogoTickKeepsInv(s); }
    case FaceTimerFired => if s.faceTimer.Periodic? { FaceTickKeepsInv(s); }
  }

  /** The state after a sequence of events: the logo index never goes
      back, and the transition out of the boot phase is never undone. */
  function Run(s: State, events: seq<Event>): (t: State)
    ensures s.logoIndex <= t.logoIndex && s.setupRuns <= t.setupRuns
    ensures s.logoTimer == Deleted ==> t.logoTimer == Deleted && t.logoIndex == s.logoIndex
    decreases |events|
  {
    if events == [] then s else Run(Step(s, events[0]), events[1..])
  }

  /** Every sequence of events keeps the invariant. */
  lemma {:induction false} RunKeepsInv(s: State, events: seq<Event>)
    requires Inv(s)
    ensures Inv(Run(s, events))
    decreases |events|
  {
    if events != [] {
      StepKeepsInv(s, events[0]);
      RunKeepsInv(Step(s, events[0]), events[1..]);
    }
  }

  /** Whatever the application and the timers do after construction, the
      face image never shows an out-of-range entry and the next tick's
      `images[index]` lies inside its table. */
  lemma NeverOutOfRange(displayAdded: bool, events: seq<Event>)
    ensures var t := Run(AfterConstruction(displayAdded), events);
      && (t.faceImg.Obj? ==> !t.faceImg.src.OutOfRange?)
      && (t.logoImg.Obj? ==> !t.logoImg.src.OutOfRange?)
      && TickInBounds(t)
  {
    RunKeepsInv(AfterConstruction(displayAdded), events);
  }

  /** The state after `n` face-timer expiries and no other event. */
  function FaceTicks(s: State, n: nat): State
  {
    if n == 0 then s else FaceTimerStep(FaceTicks(s, n - 1))
  }

  /** The state after `n` logo-timer expiries and no other event. */
  function LogoTicks(s: State, n: nat): State
  {
    if n == 0 then s else LogoTimerStep(LogoTicks(s, n - 1))
  }

  /** `n` face ticks are the run of `n` `FaceTimerFired` events. */
  lemma {:induction false} FaceTicksRun(s: State, n: nat)
    ensures FaceTicks(s, n) == Run(s, seq(n, _ => FaceTimerFired))
    decreases n
  {
    if n > 0 {
      var events := seq(n, _ => FaceTimerFired);
      assert events[0] == FaceTimerFired && events[1..] == seq(n - 1, _ => FaceTimerFired);
      FaceTicksRun(FaceTimerStep(s), n - 1);
      FaceTicksFirst(s, n);
    }
  }

  /** `n` logo ticks are the run of `n` `LogoTimerFired` events. */
  lemma {:induction false} LogoTicksRun(s: State, n: nat)
    ensures LogoTicks(s, n) == Run(s, seq(n, _ => LogoTimerFired))
    decreases n
  {
    if n > 0 {
      var events := seq(n, _ => LogoTimerFired);
      assert events[0] == LogoTimerFired && events[1..] == seq(n - 1, _ => LogoTimerFired);
      LogoTicksRun(LogoTimerStep(s), n - 1);
      LogoTicksFirst(s, n);
    }
  }

  /** The first of `n` logo ticks can be split off the front. */
  lemma {:induction false} LogoTicksFirst(s: State, n: nat)
    requires n > 0
    ensures LogoTicks(s, n) == LogoTicks(LogoTimerStep(s), n - 1)
  {
    if n > 1 {
      LogoTicksFirst(s, n - 1);
    }
  }

  /** The first of `n` face ticks can be split off the front. */
  lemma {:induction false} FaceTicksFirst(s: State, n: nat)
    requires n > 0
    ensures FaceTicks(s, n) == FaceTicks(FaceTimerStep(s), n - 1)
  {
    if n > 1 {
      FaceTicksFirst(s, n - 1);
    }
  }

  /** Wrapping at the end of an `n`-frame table is addition modulo `n`. */
  lemma ModStep(a: nat, n: nat)
    requires n > 0
    ensures (a + 1) % n == if a % n < n - 1 then a % n + 1 else 0
  {
    var q, r := a / n, a % n;
    assert a == q * n + r && 0 <= r < n;
    if r + 1 < n {
      ModUnique(a + 1, n, q, r + 1);
    } else {
      ModUnique(a + 1, n, q + 1, 0);
    }
  }

  /** The remainder is the one `r` with `a == q * n + r` and `0 <= r < n`. */
  lemma ModUnique(a: int, n: int, q: int, r: int)
    requires 0 < n && 0 <= r < n && a == q * n + r
    ensures a % n == r
  {
    var q', r' := a / n, a % n;
    assert a == q' * n + r' && 0 <= r' < n;
    assert (q - q') * n == r' - r;
    if q > q' {
      MulAtLeast(q - q', n);
    } else if q < q' {
      assert (q' - q) * n == r - r';
      MulAtLeast(q' - q, n);
    }
  }

  lemma MulAtLeast(d: int, n: int)
    requires d >= 1 && n > 0
    ensures d * n >= n
  {
    assert d * n == (d - 1) * n + n;
    if d > 1 {
      MulAtLeast(d - 1, n);
    }
  }

  /** One face tick on a running animation whose index is `a mod N`
      moves it to `(a + 1) mod N` and shows that frame. */
  lemma CycleStep(p: State, a: nat)
    requires Inv(p) && Ready(p)
    requires p.faceCount == |Images(FaceTable(p.faceState))|
    requires p.faceIndex == a % p.faceCount
    ensures var t := FaceTimerStep(p);
      && Inv(t) && Ready(t) && t.faceState == p.faceState && t.faceCount == p.faceCount
      && t.faceIndex == (a + 1) % p.faceCount
      && t.faceImg == Obj(Image(Images(FaceTable(p.faceState))[t.faceIndex]))
  {
    FaceTickKeepsInv(p);
    ReadyFaceTick(p);
    ModStep(a, p.faceCount);
  }

  /** Once a table has been drawn, the index lies inside it, so it is its
      own remainder modulo the table's length. */
  lemma IndexInTable(s: State)
    requires Inv(s) && Ready(s)
    requires s.faceCount == |Images(FaceTable(s.faceState))|
    ensures 0 <= s.faceIndex < s.faceCount && s.faceIndex == s.faceIndex % s.faceCount
  {
    assert 4 <= s.faceCount;
  }

  /** With the emotion fixed and its table already drawn, successive face
      ticks cycle through the table: after `k` ticks the index is
      `(index + k) mod N` and that frame is shown. */
  lemma {:induction false} TicksCycle(s: State, k: nat)
    requires Inv(s) && Ready(s)
    requires s.faceCount == |Images(FaceTable(s.faceState))|
    ensures var t := FaceTicks(s, k);
      && Inv(t) && Ready(t) && t.faceState == s.faceState && t.faceCount == s.faceCount
      && t.faceIndex == (s.faceIndex + k) % s.faceCount
      && (k > 0 ==> t.faceImg == Obj(Image(Images(FaceTable(s.faceState))[t.faceIndex])))
  {
    if k > 0 {
      TicksCycle(s, k - 1);
      CycleStep(FaceTicks(s, k - 1), s.faceIndex + k - 1);
    } else {
      IndexInTable(s);
    }
  }

  /** The first tick after a known name draws frame 1 of the new table,
      except before the first tick ever, when the count is still 0 and the
      tick wraps to frame 0. */
  lemma FirstTickAfterKnown(s: State, i: nat)
    requires Inv(s) && Ready(s)
    requires i < |Names|
    ensures var t := FaceTimerStep(AfterSetFace(s, Names[i]));
      && Inv(t) && Ready(t) && t.faceState == i
      && t.faceIndex == (if s.faceCount == 0 then 0 else 1)
      && t.faceCount == |Images(FaceTable(i))|
      && t.faceImg == Obj(Image(Images(FaceTable(i))[t.faceIndex]))
  {
    SetFaceKnownName(s, i);
    var s1 := AfterSetFace(s, Names[i]);
    SetFaceKeepsInv(s, Names[i]);
    FaceTickKeepsInv(s1);
    ReadyFaceTick(s1);
  }

  /** The tail of `KnownFaceAnimates`, on the state `SetFace` leaves. */
  lemma KnownFaceCycles(s1: State, count: int, k: nat)
    requires k >= 1
    requires var t1 := FaceTimerStep(s1);
      && Inv(t1) && Ready(t1) && t1.faceState == s1.faceState
      && t1.faceIndex == (if count == 0 then 0 else 1)
      && t1.faceCount == |Images(FaceTable(s1.faceState))|
      && t1.faceImg == Obj(Image(Images(FaceTable(s1.faceState))[t1.faceIndex]))
    ensures var t := FaceTicks(s1, k);
      var table := Images(FaceTable(s1.faceState));
      var frame := (if count == 0 then k - 1 else k) % |table|;
      && t.faceState == s1.faceState
      && t.faceIndex == frame
      && t.faceImg == Obj(Image(table[frame]))
  {
    var t1 := FaceTimerStep(s1);
    FaceTicksFirst(s1, k);
    if k == 1 {
      assert FaceTicks(t1, 0) == t1;
    } else {
      TicksCycle(t1, k - 1);
      assert t1.faceIndex + (k - 1) == (if count == 0 then k - 1 else k);
    }
  }

  /** After a known name its table plays from the start and then cycles:
      `k` ticks later frame `k mod N` is shown (`(k - 1) mod N` when the
      name arrived before the first tick ever). */
  lemma {:induction false} KnownFaceAnimates(s: State, i: nat, k: nat)
    requires Inv(s) && Ready(s)
    requires i < |Names| && k >= 1
    ensures var t := FaceTicks(AfterSetFace(s, Names[i]), k);
      var table := Images(FaceTable(i));
      var frame := (if s.faceCount == 0 then k - 1 else k) % |table|;
      && t.faceState == i
      && t.faceIndex == frame
      && t.faceImg == Obj(Image(table[frame]))
  {
    SetFaceKnownName(s, i);
    var s1 := s.(faceState := i, faceIndex := 0);
    FirstTickAfterKnown(s, i);
    KnownFaceCycles(s1, s.faceCount, k);
  }

  /** The boot logo shows frames 0, 1, ..., 20 in order, one per logo tick. */
  lemma {:induction false} LogoPlays(k: nat)
    requires k <= LAST_LOGO_INDEX
    ensures var t := LogoTicks(AfterConstruction(true), k);
      && Inv(t) && Booting(t) && t.faceState == NEUTRAL
      && t.logoIndex == k && t.logoImg == Obj(Image(Asset(BootLogo, k + 1)))
  {
    if k > 0 {
      LogoPlays(k - 1);
      LogoTickKeepsInv(LogoTicks(AfterConstruction(true), k - 1));
    }
  }

  /** The tick after the last logo frame deletes the logo, deletes its timer
      and runs `SetupUI`; however many more times the timer would have
      fired, `SetupUI` has run exactly once. */
  lemma {:induction false} LogoFinishes(k: nat)
    requires k > LAST_LOGO_INDEX
    ensures var t := LogoTicks(AfterConstruction(true), k);
      Inv(t) && Ready(t) && t.setupRuns == 1 && t.logoImg == NullObj && t.faceImg == Obj(NoImage)
      && t.faceCount == 0 && t.faceState == NEUTRAL
  {
    if k == LAST_LOGO_INDEX + 1 {
      LogoPlays(LAST_LOGO_INDEX);
      LogoTickKeepsInv(LogoTicks(AfterConstruction(true), LAST_LOGO_INDEX));
    } else {
      LogoFinishes(k - 1);
    }
  }

  /** The first face tick after `SetupUI` finds the count 0, takes the wrap
      branch and draws neutral frame 0. */
  lemma FirstFaceTick(k: nat)
    requires k > LAST_LOGO_INDEX
    ensures var t := FaceTimerStep(LogoTicks(AfterConstruction(true), k));
      t.faceIndex == 0 && t.faceCount == |NeutralImages| && t.faceImg == Obj(Image(Asset(NeutralFace, 1)))
  {
    LogoFinishes(k);
  }

  /** The display object of the ST7789 build. */
  class LcdDisplay {
    var logoImg: ImgObj
    var faceImg: ImgObj
    var logoIndex: int
    var faceIndex: int
    var faceCount: int
    var faceState: int
    var logoTimer: Timer
    var faceTimer: Timer
    ghost var setupRuns: nat

    ghost function Model(): State
      reads this
    {
      State(logoImg, faceImg, logoIndex, faceIndex, faceCount, faceState,
            logoTimer, faceTimer, setupRuns)
    }

    ghost predicate Valid()
      reads this
    {
      Inv(Model())
    }

    /** The SPI display's constructor; `displayAdded` is whether
        `lvgl_port_add_disp` returned a display. */
    constructor (displayAdded: bool)
      ensures Valid() && Model() == AfterConstruction(displayAdded)
    {
      logoImg, faceImg := NullObj, NullObj;
      logoIndex, faceIndex, faceCount, faceState := 0, 0, 0, 0;
      logoTimer, faceTimer := NullTimer, NullTimer;
      setupRuns := 0;
      new;
      if displayAdded {
        ShowLogo();
        logoTimer := Periodic(LOGO_TIMEOUT_US);
      }
    }

    method ShowLogo()
      modifies this
      ensures Model() == AfterShowLogo(old(Model()))
    {
      logoImg := Obj(Image(BootImages[0]));
    }

    method SetLogoImg(index: int)
      requires logoImg.NullObj? || 0 <= index < |BootImages|
      modifies this
      ensures Model() == AfterSetLogoImg(old(Model()), index)
      ensures old(logoImg).NullObj? ==> Model() == old(Model())
    {
      if logoImg.NullObj? {
        return;
      }
      logoImg := Obj(Image(BootImages[index]));
    }

    method SetupUI()
      modifies this
      ensures Model() == AfterSetupUI(old(Model()))
    {
      faceImg := Obj(NoImage);
      faceTimer := Periodic(FACE_TIMEOUT_US);
      setupRuns := setupRuns + 1;
    }

    /** The logo timer's callback; the timer only calls it while it runs. */
    method LogoTick()
      requires Valid() && logoTimer.Periodic?
      modifies this
      ensures Valid() && Model() == AfterLogoTick(old(Model()))
    {
      if logoIndex < LAST_LOGO_INDEX {
        logoIndex := logoIndex + 1;
        SetLogoImg(logoIndex);
      } else {
        if !logoImg.NullObj? {
          logoImg := NullObj;
        }
        logoTimer := Deleted;
        SetupUI();
      }
      LogoTickKeepsInv(old(Model()));
    }

    /** Draw frame `index` of table `f`: the body shared by `SetNeutral`,
        `SetHappy`, `SetSad`, `SetAngry`, `SetLoving` and `SetEmbarrass`. */
    method Draw(f: Family, index: int)
      requires faceImg.NullObj? || 0 <= index < |Images(f)|
      modifies this
      ensures Model() == AfterDraw(old(Model()), f, index)
    {
      if faceImg.NullObj? {
        return;
      }
      faceCount := |Images(f)|;
      faceImg := Obj(Image(Images(f)[index]));
    }

    method ShowFace(code: int)
      requires faceImg.NullObj? || 0 <= faceIndex < |Images(FaceTable(code))|
      modifies this
      ensures Model() == AfterShowFace(old(Model()), code)
      ensures old(faceImg).NullObj? ==> Model() == old(Model())
    {
      if faceImg.NullObj? {
        return;
      }
      if code == NEUTRAL {
        Draw(NeutralFace, faceIndex);
      } else if code == HAPPY || code == LAUGHING || code == FUNNY || code == KISSY {
        Draw(HappyFace, faceIndex);
      } else if code == SAD {
        Draw(SadFace, faceIndex);
      } else if code == ANGRY {
        Draw(AngryFace, faceIndex);
      } else if code == SLEEPY || code == EMBARRAS {
        Draw(EmbarrassedFace, faceIndex);
      } else if code == LOVING {
        Draw(LovingFace, faceIndex);
      } else {
        Draw(NeutralFace, faceIndex);
      }
    }

    /** The face timer's callback. */
    method FaceTick()
      requires Valid()
      modifies this
      ensures Valid() && Model() == AfterFaceTick(old(Model()))
    {
      if faceIndex < faceCount - 1 {
        faceIndex := faceIndex + 1;
      } else {
        faceIndex := 0;
      }
      ShowFace(faceState);
      FaceTickKeepsInv(old(Model()));
    }

    method SetFace(name: string)
      requires Valid()
      modifies this
      ensures Valid() && Model() == AfterSetFace(old(Model()), name)
    {
      SetFaceKeepsInv(Model(), name);
      var code := Resolve(name);
      if code.Some? {
        faceState := code.value;
        faceIndex := 0;
        return;
      } else {
        faceState := NEUTRAL;
      }
    }
  }
}
