/**
 * `example_button_task`: an endless loop that waits up to 2.5 s on the key
 * event group for bit 0 (single-click), bit 1 (double-click) or bit 5
 * (long-press), clearing them on exit, and runs at most one handler per
 * wake in that priority order. Its locals `bl_test` (backlight level) and
 * `sdcard_test` (self-test counter) persist across wakes.
 */
module ButtonTask {
  import opened Wrappers
  import opened Machine
  import opened Decimal
  import opened Effects
  import ImageDisplay

  const IMAGE_PATH: string := "/sdcard/1.jpg"
  const TEST_PATH: string := "/sdcard/Test.txt"
  const TEST_PREFIX: string := "China is the greatest country : "
  const PASS_TEXT: string := "sd Test Pass"
  const FAIL_TEXT: string := "sd Test Fail"

  /** `even_set_bit`: the bits the task waits for. */
  const WAIT_MASK: EventBits := SetBit(SetBit(SetBit(0, 0), 1), 5)

  datatype Gesture = SingleClick | DoubleClick | LongPress | NoGesture

  /** The handler a wake selects: the first of bits 0, 1 and 5 that is set. */
  function Classify(bits: EventBits): Gesture
  {
    if ReadBit(bits, 0) then SingleClick
    else if ReadBit(bits, 1) then DoubleClick
    else if ReadBit(bits, 5) then LongPress
    else NoGesture
  }

  /** The wait mask is 0x23, and bits outside it never influence the choice of handler. */
  lemma ClassifySeesOnlyWaitedBits(bits: EventBits)
    ensures WAIT_MASK == 0x23
    ensures Classify(bits) == Classify(bits & WAIT_MASK)
  {
  }

  /**
   * What one wake supplies: the bits `xEventGroupWaitBits` returned (none of
   * 0, 1, 5 on the timeout), whether `stat` finds the image, and the string
   * `sdcard_file_read` leaves in the read buffer (up to its first NUL).
   */
  datatype Wake = Wake(bits: EventBits, imageExists: bool, readBack: string)

  /** The loop's persistent state, with whether `img_container` exists. */
  datatype DispatcherState = DispatcherState(blTest: uint8, sdcardTest: uint32, hasContainer: bool)

  /** The text written to the test file: `"China is the greatest country : %ld"` in a 50-byte buffer. */
  function SelfTestMessage(n: uint32): string
  {
    Snprintf(50, TEST_PREFIX + IntToString(AsSigned32(n)))
  }

  /** The message always fits its buffer, and its counter reads back as `%ld` printed it. */
  lemma SelfTestMessageRoundTrip(n: uint32)
    ensures SelfTestMessage(n) == TEST_PREFIX + IntToString(AsSigned32(n))
    ensures TEST_PREFIX <= SelfTestMessage(n)
    ensures ParseInt(SelfTestMessage(n)[|TEST_PREFIX|..]) == Some(AsSigned32(n))
  {
    Int32StringLength(AsSigned32(n));
    var msg := TEST_PREFIX + IntToString(AsSigned32(n));
    assert msg[|TEST_PREFIX|..] == IntToString(AsSigned32(n));
    IntToStringRoundTrip(AsSigned32(n));
  }

  /** Distinct counter values write distinct messages. */
  lemma SelfTestMessageInjective(m: uint32, n: uint32)
    requires m != n
    ensures SelfTestMessage(m) != SelfTestMessage(n)
  {
    SelfTestMessageRoundTrip(m);
    SelfTestMessageRoundTrip(n);
  }

  /** The persistent state after one iteration of the loop body. */
  function Next(s: DispatcherState, w: Wake): DispatcherState
  {
    match Classify(w.bits)
    case SingleClick => s.(hasContainer := s.hasContainer || w.imageExists)
    case DoubleClick =>
      if s.blTest == 255 then s.(blTest := 0)
      else if s.blTest == 0 then s.(blTest := 255)
      else s
    case LongPress => s.(sdcardTest := Wrap32(s.sdcardTest + 1))
    case NoGesture => s
  }

  /** The calls one iteration of the loop body makes. */
  function Output(s: DispatcherState, w: Wake): seq<Effect>
  {
    match Classify(w.bits)
    case SingleClick => ImageDisplay.ShowEffects(s.hasContainer, w.imageExists, IMAGE_PATH)
    case DoubleClick =>
      if s.blTest == 255 then [SetDuty(PwmMode0)]
      else if s.blTest == 0 then [SetDuty(PwmMode255)]
      else []
    case LongPress =>
      var msg := SelfTestMessage(Wrap32(s.sdcardTest + 1));
      [FileWrite(TEST_PATH, msg), FileRead(TEST_PATH),
       SetLabel(ScreenLabel6, Str(if msg == w.readBack then PASS_TEXT else FAIL_TEXT))]
    case NoGesture => [SetLabel(ScreenLabel6, Str(""))]
  }

  /** One iteration of the loop body: the new state and the calls made. */
  function Step(s: DispatcherState, w: Wake): (DispatcherState, seq<Effect>)
  {
    (Next(s, w), Output(s, w))
  }

  /** The state the task starts in: `bl_test = 255`, `sdcard_test = 0`. */
  function Initial(hasContainer: bool): DispatcherState
  {
    DispatcherState(255, 0, hasContainer)
  }

  /** The loop run over a finite sequence of wakes: final state and the whole trace. */
  function Run(s: DispatcherState, wakes: seq<Wake>): (DispatcherState, seq<Effect>)
    decreases |wakes|
  {
    if wakes == [] then (s, [])
    else
      var before := Run(s, wakes[..|wakes| - 1]);
      var after := Step(before.0, wakes[|wakes| - 1]);
      (after.0, before.1 + after.1)
  }

  /** The state after a sequence of wakes, without the calls. */
  function RunState(s: DispatcherState, wakes: seq<Wake>): DispatcherState
    decreases |wakes|
  {
    if wakes == [] then s else Next(RunState(s, wakes[..|wakes| - 1]), wakes[|wakes| - 1])
  }

  lemma {:induction false} RunStateIsRun(s: DispatcherState, wakes: seq<Wake>)
    ensures Run(s, wakes).0 == RunState(s, wakes)
    decreases |wakes|
  {
    if wakes != [] {
      RunStateIsRun(s, wakes[..|wakes| - 1]);
    }
  }

  /**
   * Each wake runs exactly one handler, chosen by priority: bit 0 shows the
   * image, else bit 1 toggles the backlight, else bit 5 runs the self-test,
   * else (including the timeout) `screen_label_6` is cleared. No handler
   * touches another handler's state.
   */
  lemma OneHandlerPerWake(s: DispatcherState, w: Wake)
    ensures ReadBit(w.bits, 0) ==>
              Step(s, w).1 == ImageDisplay.ShowEffects(s.hasContainer, w.imageExists, IMAGE_PATH) &&
              Step(s, w).0.blTest == s.blTest && Step(s, w).0.sdcardTest == s.sdcardTest
    ensures !ReadBit(w.bits, 0) && ReadBit(w.bits, 1) ==>
              Step(s, w).0.sdcardTest == s.sdcardTest && Step(s, w).0.hasContainer == s.hasContainer &&
              forall e :: e in Step(s, w).1 ==> e.SetDuty?
    ensures !ReadBit(w.bits, 0) && !ReadBit(w.bits, 1) && ReadBit(w.bits, 5) ==>
              Step(s, w).0 == s.(sdcardTest := Wrap32(s.sdcardTest + 1)) &&
              Step(s, w).1 == [FileWrite(TEST_PATH, SelfTestMessage(Step(s, w).0.sdcardTest)), FileRead(TEST_PATH),
                               SetLabel(ScreenLabel6, Str(if w.readBack == SelfTestMessage(Step(s, w).0.sdcardTest)
                                                          then PASS_TEXT else FAIL_TEXT))]
    ensures !ReadBit(w.bits, 0) && !ReadBit(w.bits, 1) && !ReadBit(w.bits, 5) ==>
              Step(s, w) == (s, [SetLabel(ScreenLabel6, Str(""))])
  {
  }

  /** A double-click flips the level between the two extremes and sets the matching duty. */
  lemma DoubleClickToggles(s: DispatcherState, w: Wake)
    requires Classify(w.bits) == DoubleClick
    requires s.blTest == 0 || s.blTest == 255
    ensures Step(s, w).0.blTest == 255 - s.blTest
    ensures Step(s, w).1 == [SetDuty(if s.blTest == 255 then PwmMode0 else PwmMode255)]
  {
  }

  function CountGesture(wakes: seq<Wake>, g: Gesture): nat
    decreases |wakes|
  {
    if wakes == [] then 0
    else CountGesture(wakes[..|wakes| - 1], g) + (if Classify(wakes[|wakes| - 1].bits) == g then 1 else 0)
  }

  /**
   * Over any sequence of wakes, the level stays in {0, 255}; it has flipped
   * once per double-click and never otherwise.
   */
  lemma {:induction false} BacklightFollowsDoubleClicks(s: DispatcherState, wakes: seq<Wake>)
    requires s.blTest == 0 || s.blTest == 255
    ensures RunState(s, wakes).blTest ==
              if CountGesture(wakes, DoubleClick) % 2 == 0 then s.blTest else 255 - s.blTest
    decreases |wakes|
  {
    if wakes != [] {
      BacklightFollowsDoubleClicks(s, wakes[..|wakes| - 1]);
    }
  }

  /** `sdcard_test` counts the long-press wakes, modulo 2^32. */
  lemma {:induction false} SelfTestCountsLongPresses(s: DispatcherState, wakes: seq<Wake>)
    ensures RunState(s, wakes).sdcardTest == Wrap32(s.sdcardTest + CountGesture(wakes, LongPress))
    decreases |wakes|
  {
    if wakes != [] {
      var init, w := wakes[..|wakes| - 1], wakes[|wakes| - 1];
      var n := CountGesture(init, LongPress);
      assert RunState(s, init).sdcardTest == Wrap32(s.sdcardTest + n) by { SelfTestCountsLongPresses(s, init); }
      if Classify(w.bits) == LongPress {
        Wrap32Inc(s.sdcardTest + n);
      }
    } else {
      Wrap32Fits(s.sdcardTest);
    }
  }

  function Creations(trace: seq<Effect>): nat
    decreases |trace|
  {
    if trace == [] then 0
    else Creations(trace[..|trace| - 1]) + (if trace[|trace| - 1] == ContainerCreate then 1 else 0)
  }

  lemma {:induction false} CreationsAppend(a: seq<Effect>, b: seq<Effect>)
    ensures Creations(a + b) == Creations(a) + Creations(b)
    decreases |b|
  {
    if b == [] {
      assert a + b == a;
    } else {
      assert (a + b)[..|a + b| - 1] == a + b[..|b| - 1];
      CreationsAppend(a, b[..|b| - 1]);
    }
  }

  /**
   * However many single-clicks arrive, the image container is created at
   * most once (never, if it already existed), and it exists once any
   * single-click has found the file.
   */
  lemma {:induction false} ContainerCreatedAtMostOnce(s: DispatcherState, wakes: seq<Wake>)
    ensures Creations(Run(s, wakes).1) <= if s.hasContainer then 0 else 1
    ensures !Run(s, wakes).0.hasContainer ==> Creations(Run(s, wakes).1) == 0
    ensures s.hasContainer ==> Run(s, wakes).0.hasContainer
    ensures (exists j :: 0 <= j < |wakes| && ShowsImage(wakes[j])) ==> Run(s, wakes).0.hasContainer
    decreases |wakes|
  {
    if wakes != [] {
      var init := wakes[..|wakes| - 1];
      var before := Run(s, init);
      var after := Step(before.0, wakes[|wakes| - 1]);
      ContainerCreatedAtMostOnce(s, init);
      CreationsAppend(before.1, after.1);
      StepCreations(before.0, wakes[|wakes| - 1]);
      if j :| 0 <= j < |wakes| - 1 && ShowsImage(wakes[j]) {
        assert ShowsImage(init[j]);
      }
    }
  }

  /** One wake creates the container exactly when it brings it into existence. */
  lemma StepCreations(s: DispatcherState, w: Wake)
    ensures s.hasContainer ==> Step(s, w).0.hasContainer
    ensures Creations(Step(s, w).1) == if !s.hasContainer && Step(s, w).0.hasContainer then 1 else 0
  {
    var e := Step(s, w).1;
    if Classify(w.bits) == SingleClick && w.imageExists {
      assert e == ImageDisplay.ShowEffects(s.hasContainer, true, IMAGE_PATH);
      assert e == e[..1] + e[1..];
      CreationsAppend(e[..1], e[1..]);
      NoCreations(e[1..]);
      assert Creations(e[..1]) == (if s.hasContainer then 0 else 1) by {
        assert e[..1][..0] == [];
      }
    } else {
      assert forall i :: 0 <= i < |e| ==> e[i] != ContainerCreate;
      NoCreations(e);
    }
  }

  lemma {:induction false} NoCreations(t: seq<Effect>)
    requires forall i :: 0 <= i < |t| ==> t[i] != ContainerCreate
    ensures Creations(t) == 0
    decreases |t|
  {
    if t != [] {
      NoCreations(t[..|t| - 1]);
    }
  }

  /** `Run` over one more wake is one more `Step`. */
  lemma RunSnoc(s: DispatcherState, wakes: seq<Wake>, i: nat)
    requires i < |wakes|
    ensures Run(s, wakes[..i + 1]) ==
              (Step(Run(s, wakes[..i]).0, wakes[i]).0, Run(s, wakes[..i]).1 + Step(Run(s, wakes[..i]).0, wakes[i]).1)
  {
    assert wakes[..i + 1][..i] == wakes[..i];
  }

  /** A wake that draws the image: a single-click for which `stat` finds the file. */
  predicate ShowsImage(w: Wake)
  {
    Classify(w.bits) == SingleClick && w.imageExists
  }

  /**
   * One iteration of the loop body against the shared image display: the
   * level, the counter, whether the container exists and the calls made are
   * exactly what `Step` predicts. Only a single-click that finds the file
   * touches the container, and it leaves exactly that image shown.
   */
  method Dispatch(w: Wake, display: ImageDisplay.Display, blTest: uint8, sdcardTest: uint32)
    returns (blTest': uint8, sdcardTest': uint32, effects: seq<Effect>)
    modifies display, display.container
    ensures Step(DispatcherState(blTest, sdcardTest, old(display.container) != null), w) ==
              (DispatcherState(blTest', sdcardTest', display.container != null), effects)
    ensures old(display.container) != null ==> display.container == old(display.container)
    ensures display.container == old(display.container) || fresh(display.container)
    ensures !ShowsImage(w) && display.container != null ==> unchanged(display.container)
    ensures ShowsImage(w) ==>
              display.container != null && display.container.images == [ImageDisplay.LvglPath(IMAGE_PATH)] &&
              !display.container.hidden
  {
    blTest', sdcardTest' := blTest, sdcardTest;
    if ReadBit(w.bits, 0) {
      effects := display.Show(IMAGE_PATH, w.imageExists);
    } else if ReadBit(w.bits, 1) {
      if blTest == 255 {
        blTest' := 0;
        effects := [SetDuty(PwmMode0)];
      } else if blTest == 0 {
        blTest' := 255;
        effects := [SetDuty(PwmMode255)];
      } else {
        effects := [];
      }
    } else if ReadBit(w.bits, 5) {
      sdcardTest' := Wrap32(sdcardTest + 1);
      var sendBuf := SelfTestMessage(sdcardTest');
      var verdict := if sendBuf == w.readBack then PASS_TEXT else FAIL_TEXT;
      effects := [FileWrite(TEST_PATH, sendBuf), FileRead(TEST_PATH), SetLabel(ScreenLabel6, Str(verdict))];
    } else {
      effects := [SetLabel(ScreenLabel6, Str(""))];
    }
  }

  /**
   * The task's loop, run for `|wakes|` iterations against the shared image
   * display, starting from `bl_test = 255` and `sdcard_test = 0`.
   */
  method ButtonLoop(wakes: seq<Wake>, display: ImageDisplay.Display)
    returns (trace: seq<Effect>, blTest: uint8, sdcardTest: uint32)
    modifies display, display.container
    ensures var r := Run(Initial(old(display.container) != null), wakes);
            trace == r.1 && blTest == r.0.blTest && sdcardTest == r.0.sdcardTest &&
            (display.container != null) == r.0.hasContainer
    ensures old(display.container) != null ==> display.container == old(display.container)
    ensures display.container == old(display.container) || fresh(display.container)
    ensures (forall j :: 0 <= j < |wakes| ==> !ShowsImage(wakes[j])) ==>
              display.container == old(display.container) &&
              (old(display.container) != null ==> unchanged(old(display.container)))
    ensures (exists j :: 0 <= j < |wakes| && ShowsImage(wakes[j])) ==>
              display.container != null && display.container.images == [ImageDisplay.LvglPath(IMAGE_PATH)] &&
              !display.container.hidden
  {
    ghost var s0 := Initial(display.container != null);
    blTest, sdcardTest, trace := 255, 0, [];
    ghost var shown := false;
    var i := 0;
    while i < |wakes|
      invariant 0 <= i <= |wakes|
      invariant old(display.container) != null ==> display.container == old(display.container)
      invariant display.container == old(display.container) || fresh(display.container)
      invariant Run(s0, wakes[..i]) == (DispatcherState(blTest, sdcardTest, display.container != null), trace)
      invariant shown <==> exists j :: 0 <= j < i && ShowsImage(wakes[j])
      invariant !shown && display.container != null ==> display.container == old(display.container) && unchanged(display.container)
      invariant shown ==>
                  display.container != null && display.container.images == [ImageDisplay.LvglPath(IMAGE_PATH)] &&
                  !display.container.hidden
    {
      RunSnoc(s0, wakes, i);
      var effects;
      blTest, sdcardTest, effects := Dispatch(wakes[i], display, blTest, sdcardTest);
      trace := trace + effects;
      shown := shown || ShowsImage(wakes[i]);
      i := i + 1;
    }
    assert wakes[..i] == wakes;
  }
}
