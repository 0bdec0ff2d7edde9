/** The observer of one remote desktop session. It pastes screen updates
    into its canvases, waits for the screen to settle after each escalation
    key sequence, classifies the settled screen against the one before, and
    then either types the commands or moves on to the next escalation
    method. Time is in microseconds; the reactor's queue of delayed calls is
    a field, and the key events delivered to the protocol client are
    appended to a log. */
module Rdpwn {
  import opened KeyEvents
  import opened Raster
  import opened Classifier

  /** An escalation method: a fixed key sequence meant to raise a
      privileged prompt on the remote login screen. */
  datatype Escalation = UtilManShortcut | StickyKeysShortcut

  /** The escalation methods in reverse order of use: the last is tried
      first. */
  const InitialMethods: seq<Escalation> := [UtilManShortcut, StickyKeysShortcut]

  function EscalationEvents(m: Escalation): seq<KeyEvent> {
    match m
    case UtilManShortcut => UtilManEvents()
    case StickyKeysShortcut => StickyKeysEvents()
  }

  /** Delay before the first quiescence check after an update (0.1 s). */
  const FirstCheckDelay := 100_000
  /** Delay between quiescence checks while updates arrive (0.25 s). */
  const PollDelay := 250_000
  /** Silence after which the screen counts as settled (0.5 s). */
  const QuietPeriod := 500_000
  /** Grace period between settling and classifying (1 s). */
  const GraceDelay := 1_000_000
  /** Delay before the session is closed (0.5 s). */
  const CloseDelay := 500_000

  datatype Callback = CheckUpdateCallback | CheckPromptCallback | CloseCallback

  /** A delayed call waiting in the reactor: what to call, and when. */
  datatype Call = Call(at: int, callback: Callback)

  function Reverse<T>(s: seq<T>): seq<T>
    decreases |s|
  {
    if s == [] then [] else [s[|s| - 1]] + Reverse(s[..|s| - 1])
  }

  lemma {:induction false} ReverseLength<T>(s: seq<T>)
    ensures |Reverse(s)| == |s|
    decreases |s|
  {
    if s != [] {
      ReverseLength(s[..|s| - 1]);
    }
  }

  lemma {:induction false} ReverseAppend<T>(a: seq<T>, b: seq<T>)
    ensures Reverse(a + b) == Reverse(b) + Reverse(a)
    decreases |b|
  {
    if b == [] {
      assert a + b == a;
    } else {
      var c := a + b;
      var binit := b[..|b| - 1];
      assert c[..|c| - 1] == a + binit;
      assert c[|c| - 1] == b[|b| - 1];
      calc {
        Reverse(c);
        [b[|b| - 1]] + Reverse(a + binit);
        { ReverseAppend(a, binit); }
        [b[|b| - 1]] + (Reverse(binit) + Reverse(a));
        ([b[|b| - 1]] + Reverse(binit)) + Reverse(a);
        Reverse(b) + Reverse(a);
      }
    }
  }

  lemma PopStep<T>(list: seq<T>, methods: seq<T>, tried: seq<T>)
    requires methods != [] && methods + Reverse(tried) == list
    ensures methods[..|methods| - 1] + Reverse(tried + [methods[|methods| - 1]]) == list
  {
    var t := tried + [methods[|methods| - 1]];
    assert t[..|t| - 1] == tried;
    assert Reverse(t) == [methods[|methods| - 1]] + Reverse(tried);
    assert methods == methods[..|methods| - 1] + [methods[|methods| - 1]];
  }

  lemma {:induction false} ReverseInvolution<T>(s: seq<T>)
    ensures Reverse(Reverse(s)) == s
    decreases |s|
  {
    if s != [] {
      var init := s[..|s| - 1];
      ReverseInvolution(init);
      ReverseAppend([s[|s| - 1]], Reverse(init));
      assert Reverse([s[|s| - 1]]) == [s[|s| - 1]] by {
        assert [s[|s| - 1]][..0] == [];
      }
      assert s == init + [s[|s| - 1]];
    }
  }

  /** While methods are popped from the end of `list` and recorded in
      `tried`, they are tried in reverse list order: `tried` is a prefix of
      the reversed list, and what remains is the rest of it. */
  lemma PoppedInReverseOrder<T>(list: seq<T>, methods: seq<T>, tried: seq<T>)
    requires methods + Reverse(tried) == list
    ensures Reverse(list) == tried + Reverse(methods)
    ensures tried == Reverse(list)[..|tried|]
  {
    ReverseAppend(methods, Reverse(tried));
    ReverseInvolution(tried);
  }

  /** Sticky Keys is tried first and the Utility Manager shortcut second,
      and no method is ever tried twice. */
  lemma EscalationOrder(methods: seq<Escalation>, tried: seq<Escalation>)
    requires methods + Reverse(tried) == InitialMethods
    ensures |methods| + |tried| == 2
    ensures tried == [StickyKeysShortcut, UtilManShortcut][..|tried|]
    ensures forall i, j :: 0 <= i < j < |tried| ==> tried[i] != tried[j]
  {
    var r := [StickyKeysShortcut, UtilManShortcut];
    PoppedInReverseOrder(InitialMethods, methods, tried);
    ReverseOfInitialMethods();
    ReverseLength(methods);
    assert r == tried + Reverse(methods);
    forall i, j | 0 <= i < j < |tried| ensures tried[i] != tried[j] {
      assert tried[i] == r[i] && tried[j] == r[j];
    }
  }

  lemma ReverseOfInitialMethods()
    ensures Reverse(InitialMethods) == [StickyKeysShortcut, UtilManShortcut]
  {
    assert InitialMethods[..1] == [UtilManShortcut];
    assert [UtilManShortcut][..0] == [];
  }

  /** Key events of the steps in `tried`, each step closed: its method's
      key sequence followed by an Escape tap. */
  function Steps(tried: seq<Escalation>): seq<KeyEvent>
    decreases |tried|
  {
    if tried == [] then []
    else Steps(tried[..|tried| - 1]) + EscalationEvents(tried[|tried| - 1]) + DownUp(EscapeScancode)
  }

  /** Key events sent for the methods in `tried`; while the last step is
      still open (awaiting or past classification) its Escape tap has not
      been sent. */
  function Transcript(tried: seq<Escalation>, open: bool): seq<KeyEvent> {
    if open && tried != [] then Steps(tried[..|tried| - 1]) + EscalationEvents(tried[|tried| - 1])
    else Steps(tried)
  }

  /** Sending a method's keys opens a new step. */
  lemma TranscriptOpen(tried: seq<Escalation>, m: Escalation)
    ensures Transcript(tried + [m], true) == Transcript(tried, false) + EscalationEvents(m)
  {
    var t := tried + [m];
    assert t[..|t| - 1] == tried;
  }

  /** Tapping Escape closes the open step. */
  lemma TranscriptClose(tried: seq<Escalation>)
    requires tried != []
    ensures Transcript(tried, false) == Transcript(tried, true) + DownUp(EscapeScancode)
  {
  }

  /** Everything the observer sends in a run: the transcript of the
      escalation steps, then the commands once a prompt is detected. */
  function SentLog(tried: seq<Escalation>, open: bool, detected: bool, commands: seq<string>): seq<KeyEvent> {
    if detected then Transcript(tried, open) + CommandEvents(commands) else Transcript(tried, open)
  }

  /** The bookkeeping of the escalation: the methods left and the methods
      tried (newest first) make up the original list, and the log holds
      exactly the steps tried so far (the last one still open while `open`)
      followed, once a prompt is detected, by the commands. */
  ghost predicate Recorded(methods: seq<Escalation>, tried: seq<Escalation>, sent: seq<KeyEvent>,
                           open: bool, detected: bool, commands: seq<string>)
  {
    && methods + Reverse(tried) == InitialMethods
    && (open ==> tried != [])
    && sent == SentLog(tried, open, detected, commands)
  }

  /** Popping the last method and sending its keys opens a step. */
  lemma RecordedOpen(methods: seq<Escalation>, tried: seq<Escalation>, sent: seq<KeyEvent>, commands: seq<string>)
    requires Recorded(methods, tried, sent, false, false, commands) && methods != []
    ensures var m := methods[|methods| - 1];
            Recorded(methods[..|methods| - 1], tried + [m], sent + EscalationEvents(m), true, false, commands)
  {
    PopStep(InitialMethods, methods, tried);
    TranscriptOpen(tried, methods[|methods| - 1]);
  }

  /** Tapping Escape closes the open step. */
  lemma RecordedClose(methods: seq<Escalation>, tried: seq<Escalation>, sent: seq<KeyEvent>, commands: seq<string>)
    requires Recorded(methods, tried, sent, true, false, commands)
    ensures Recorded(methods, tried, sent + DownUp(EscapeScancode), false, false, commands)
  {
    TranscriptClose(tried);
  }

  /** Typing the commands records the detection. */
  lemma RecordedDetect(methods: seq<Escalation>, tried: seq<Escalation>, sent: seq<KeyEvent>,
                       open: bool, commands: seq<string>)
    requires Recorded(methods, tried, sent, open, false, commands)
    ensures Recorded(methods, tried, sent + CommandEvents(commands), open, true, commands)
  {
  }

  /** The screen size the observer is created with. */
  const ScreenWidth := 1024
  const ScreenHeight := 800

  /** On the 1024 x 800 screen every pixel count is at most MaxPixels, so
      the ratio of two screens' counts is either exactly 10 or at least
      1 / MaxPixels away from it: the double division cannot flip the
      verdict. */
  lemma ScreenVerdictMargin(initial: seq<seq<Pixel>>, final: seq<seq<Pixel>>)
    requires IsGrid(initial, ScreenWidth, ScreenHeight) && IsGrid(final, ScreenWidth, ScreenHeight)
    requires Ratio(Count(initial, Black), Count(final, Black), Count(initial, White), Count(final, White)).Some?
    ensures var q := Ratio(Count(initial, Black), Count(final, Black), Count(initial, White), Count(final, White)).value;
            q == Threshold as real || q - Threshold as real >= 1.0 / MaxPixels as real
            || Threshold as real - q >= 1.0 / MaxPixels as real
  {
    CountIsMultiplicity(initial, ScreenWidth, ScreenHeight, Black);
    CountIsMultiplicity(final, ScreenWidth, ScreenHeight, Black);
    CountIsMultiplicity(initial, ScreenWidth, ScreenHeight, White);
    CountIsMultiplicity(final, ScreenWidth, ScreenHeight, White);
    VerdictMargin(Count(initial, Black), Count(final, Black), Count(initial, White), Count(final, White));
  }

  /** Classifying two canvases that are still equal, as `final` is right
      after it is frozen, never reports a prompt: the ratio is 0, or the
      division faults when the screen has no white pixel. */
  lemma UnchangedScreenNoPrompt(g: seq<seq<Pixel>>)
    ensures var black, white := Count(g, Black), Count(g, White);
            PromptDetected(black, black, white, white) == if white == 0 then None else Some(false)
  {
    UnchangedWhiteFallback(Count(g, Black), Count(g, Black), Count(g, White));
  }

  /** Where the observer is in its cycle. */
  datatype Phase =
    | Idle      // waiting for the first update of a step
    | Polling   // a quiescence check is armed
    | Settling  // the screen settled; classification is armed
    | Closing   // the session close is armed
    | Halted    // classification faulted; nothing is armed

  class Observer {
    const canvasWidth: nat
    const canvasHeight: nat
    const commands: seq<string>

    /** The screen before the current escalation step. */
    var initial: array2<Pixel>
    /** The screen after it; null between steps. */
    var final: array2?<Pixel>
    /** Escalation methods not yet tried; the last is tried next. */
    var methods: seq<Escalation>
    /** Updates go to `final` rather than `initial`. */
    var doFinal: bool
    /** Deadline of the quiescence check last armed; None when none has
        been armed in the current step. */
    var inittimer: Option<int>
    /** Time of the latest update in the current step. */
    var lastUpdate: Option<int>
    /** Key events delivered to the protocol client, in order. */
    var sent: seq<KeyEvent>
    /** Delayed calls waiting in the reactor, in scheduling order. */
    var pending: seq<Call>

    /** Methods tried so far, in the order they were tried. */
    ghost var tried: seq<Escalation>
    /** A prompt has been detected and the commands sent. */
    ghost var detected: bool

    ghost predicate Valid()
      reads this
    {
      && initial.Length0 == canvasWidth && initial.Length1 == canvasHeight
      && (doFinal <==> final != null)
      && (final != null ==> final != initial && final.Length0 == canvasWidth && final.Length1 == canvasHeight)
      && (forall i :: 0 <= i < |commands| ==> IsAscii(commands[i]))
      && Recorded(methods, tried, sent, doFinal, detected, commands)
      && |pending| <= 1
      && (inittimer.None? ==> !doFinal && pending == [] && methods != [])
      && (!doFinal && inittimer.Some? ==>
            pending != [] && pending[0].callback == CheckUpdateCallback && lastUpdate.Some? && methods != [])
      && (doFinal && pending != [] ==> pending[0].callback != CheckUpdateCallback)
      && (pending != [] && pending[0].callback == CheckPromptCallback ==> !detected)
      && (pending != [] && pending[0].callback == CloseCallback ==> detected || methods == [])
      && (detected ==> pending != [] && pending[0].callback == CloseCallback)
    }

    ghost function Phase(): Phase
      reads this
    {
      if inittimer.None? then Idle
      else if !doFinal then Polling
      else if pending == [] then Halted
      else if pending[0].callback == CheckPromptCallback then Settling
      else Closing
    }

    /** The reactor fires `callback` now: it is the call at the head of the
        queue and its deadline has passed. */
    ghost predicate Fires(callback: Callback, now: int)
      reads this
    {
      pending != [] && pending[0].callback == callback && pending[0].at <= now
    }

    /** The classifier's verdict on the two canvases. */
    ghost function Verdict(): Option<bool>
      reads this, initial, final
      requires final != null
    {
      PromptDetected(Count(Grid(initial), Black), Count(Grid(final), Black),
                     Count(Grid(initial), White), Count(Grid(final), White))
    }

    constructor (width: nat, height: nat, commands: seq<string>)
      requires forall i :: 0 <= i < |commands| ==> IsAscii(commands[i])
      ensures Valid() && Phase() == Idle
      ensures canvasWidth == width && canvasHeight == height && this.commands == commands
      ensures fresh(initial) && Grid(initial) == Blank(width, height) && final == null
      ensures methods == InitialMethods && !doFinal && inittimer.None? && lastUpdate.None?
      ensures sent == [] && pending == [] && tried == [] && !detected
    {
      canvasWidth, canvasHeight, this.commands := width, height, commands;
      initial := new Pixel[width, height]((x, y) => Black);
      final := null;
      methods := InitialMethods;
      doFinal := false;
      inittimer, lastUpdate := None, None;
      sent, pending := [], [];
      tried, detected := [], false;
      new;
      forall x | 0 <= x < width ensures Grid(initial)[x] == Blank(width, height)[x] { }
    }

    /** `_scDownUp`: press and release one scancode. */
    method ScDownUp(code: int)
      modifies this`sent
      ensures sent == old(sent) + DownUp(code)
    {
      sent := sent + [Scancode(code, true, false)];
      sent := sent + [Scancode(code, false, false)];
    }

    /** `stickyKeys`: tap Shift nine times. */
    method StickyKeys()
      modifies this`sent
      ensures sent == old(sent) + StickyKeysEvents()
    {
      for i := 0 to StickyKeysTaps
        invariant sent == old(sent) + Taps(LeftShiftScancode, i)
      {
        ScDownUp(LeftShiftScancode);
        TapsStep(LeftShiftScancode, i);
      }
    }

    /** `utilMan`: the Windows+U chord. */
    method UtilMan()
      modifies this`sent
      ensures sent == old(sent) + UtilManEvents()
    {
      sent := sent + [Scancode(WindowsScancode, true, true)];
      sent := sent + [Scancode(UScancode, true, false)];
      sent := sent + [Scancode(WindowsScancode, false, true)];
      sent := sent + [Scancode(UScancode, false, false)];
    }

    /** Call the escalation method `m`, as the popped bound method is
        called. */
    method Invoke(m: Escalation)
      modifies this`sent
      ensures sent == old(sent) + EscalationEvents(m)
    {
      match m {
        case UtilManShortcut => UtilMan();
        case StickyKeysShortcut => StickyKeys();
      }
    }

    /** `sendString`: type each character by code point. */
    method SendString(s: string)
      requires IsAscii(s)
      modifies this`sent
      ensures sent == old(sent) + StringEvents(s)
    {
      for i := 0 to |s|
        invariant sent == old(sent) + StringEvents(s[..i])
      {
        sent := sent + [Unicode(s[i] as int, true)];
        sent := sent + [Unicode(s[i] as int, false)];
        StringEventsAppend(s[..i], [s[i]]);
        assert s[..i + 1] == s[..i] + [s[i]];
      }
      assert s[..|s|] == s;
    }

    /** `sendCommand`: type each command followed by "\r\n". */
    method SendCommand(commands: seq<string>)
      requires forall i :: 0 <= i < |commands| ==> IsAscii(commands[i])
      modifies this`sent
      ensures sent == old(sent) + CommandEvents(commands)
    {
      for i := 0 to |commands|
        invariant sent == old(sent) + CommandEvents(commands[..i])
      {
        SendString(Line(commands[i]));
        assert commands[..i + 1][..i] == commands[..i];
      }
      assert commands[..|commands|] == commands;
    }

    /** `countColor`: the number of pixels of `image` exactly equal to
        `color`, scanning column by column. */
    method CountColor(image: array2<Pixel>, color: Pixel) returns (ret: nat)
      ensures ret == Count(Grid(image), color)
      ensures ret <= image.Length0 * image.Length1
    {
      ghost var g := Grid(image);
      ret := 0;
      for i := 0 to image.Length0
        invariant ret == Count(g[..i], color)
      {
        for j := 0 to image.Length1
          invariant ret == Count(g[..i], color) + CountColumn(g[i][..j], color)
        {
          if image[i, j] == color {
            ret := ret + 1;
          }
          assert g[i][..j + 1][..j] == g[i][..j];
        }
        assert g[..i + 1][..i] == g[..i];
        assert g[i][..image.Length1] == g[i];
      }
      assert g[..image.Length0] == g;
      CountIsMultiplicity(g, image.Length0, image.Length1, color);
    }

    /** `onUpdate`: a decoded tile arrives at time `now`. Records the time,
        arms the quiescence check unless one was armed in this step, and
        pastes the tile into `final` once the step's keys are sent, into
        `initial` before. */
    method OnUpdate(now: int, destLeft: nat, destTop: nat, width: nat, height: nat, tile: seq<seq<Pixel>>)
      requires Valid()
      requires IsGrid(tile, width, height)
      modifies this, initial, final
      ensures Valid()
      ensures lastUpdate == Some(now)
      ensures old(inittimer).None? ==>
        inittimer == Some(now + FirstCheckDelay) && pending == [Call(now + FirstCheckDelay, CheckUpdateCallback)]
      ensures old(inittimer).Some? ==> inittimer == old(inittimer) && pending == old(pending)
      ensures old(Phase()) == Idle ==> Phase() == Polling
      ensures old(Phase()) != Idle ==> Phase() == old(Phase())
      ensures initial == old(initial) && final == old(final) && doFinal == old(doFinal)
      ensures methods == old(methods) && sent == old(sent) && tried == old(tried) && detected == old(detected)
      ensures doFinal ==> final != null && Grid(final) == PasteGrid(old(Grid(final)), tile, destLeft, destTop)
      ensures doFinal ==> Grid(initial) == old(Grid(initial))
      ensures !doFinal ==> Grid(initial) == PasteGrid(old(Grid(initial)), tile, destLeft, destTop)
    {
      lastUpdate := Some(now);
      if inittimer.None? {
        inittimer := Some(now + FirstCheckDelay);
        pending := pending + [Call(now + FirstCheckDelay, CheckUpdateCallback)];
      }
      if doFinal {
        Paste(final, tile, destLeft, destTop);
      } else {
        Paste(initial, tile, destLeft, destTop);
      }
    }

    /** `checkUpdate`, fired by the reactor: settle the step when more than
        0.5 s passed since the last update, otherwise poll again. Settling
        freezes `final` as a fresh copy of `initial`. */
    method CheckUpdate(now: int)
      requires Valid() && Fires(CheckUpdateCallback, now)
      modifies this
      ensures Valid()
      ensures old(now - lastUpdate.value > QuietPeriod) ==> Settled(now)
      ensures old(now - lastUpdate.value > QuietPeriod) ==>
        final != null && fresh(final) && Grid(final) == Grid(initial)
      ensures old(now - lastUpdate.value <= QuietPeriod) ==> Polled(now)
    {
      if now - lastUpdate.value > QuietPeriod {
        var frozen := Copy(initial);
        Settle(now, frozen);
      } else {
        Poll(now);
      }
    }

    /** The screen settled: the last method was popped and its keys sent,
        `final` receives the updates, and classification is armed 1 s
        later. */
    twostate predicate Settled(now: int)
      reads this
      requires old(methods) != []
    {
      && methods == old(methods[..|methods| - 1])
      && tried == old(tried) + [old(methods[|methods| - 1])]
      && sent == old(sent) + EscalationEvents(old(methods[|methods| - 1]))
      && doFinal && final != null
      && pending == [Call(now + GraceDelay, CheckPromptCallback)]
      && inittimer == old(inittimer) && lastUpdate == old(lastUpdate)
      && initial == old(initial) && detected == old(detected)
      && Phase() == Settling
    }

    /** Updates still arrive: the check is armed again 0.25 s later and
        nothing else changes. */
    twostate predicate Polled(now: int)
      reads this
    {
      && pending == [Call(now + PollDelay, CheckUpdateCallback)] && inittimer == Some(now + PollDelay)
      && methods == old(methods) && tried == old(tried) && sent == old(sent)
      && doFinal == old(doFinal) && final == old(final) && lastUpdate == old(lastUpdate)
      && initial == old(initial) && detected == old(detected)
      && Phase() == Polling
    }

    /** The settling branch of `checkUpdate`, given the copy of `initial`
        that becomes `final`. */
    method Settle(now: int, frozen: array2<Pixel>)
      requires Valid() && Fires(CheckUpdateCallback, now) && now - lastUpdate.value > QuietPeriod
      requires frozen != initial && frozen.Length0 == canvasWidth && frozen.Length1 == canvasHeight
      modifies this
      ensures Valid()
      ensures Settled(now) && final == frozen
    {
      assert !doFinal && !detected;
      OpenStep();
      final, doFinal := frozen, true;
      pending := [Call(now + GraceDelay, CheckPromptCallback)];
    }

    /** Pop the last method and call it: the step it opens is recorded
        with its keys in the log. */
    method OpenStep()
      requires Recorded(methods, tried, sent, false, false, commands) && methods != []
      modifies this`methods, this`tried, this`sent
      ensures Recorded(methods, tried, sent, true, false, commands)
      ensures methods == old(methods[..|methods| - 1])
      ensures tried == old(tried) + [old(methods[|methods| - 1])]
      ensures sent == old(sent) + EscalationEvents(old(methods[|methods| - 1]))
    {
      var m := methods[|methods| - 1];
      RecordedOpen(methods, tried, sent, commands);
      Invoke(m);
      methods, tried := methods[..|methods| - 1], tried + [m];
    }

    /** The polling branch of `checkUpdate`. */
    method Poll(now: int)
      requires Valid() && Fires(CheckUpdateCallback, now) && now - lastUpdate.value <= QuietPeriod
      modifies this
      ensures Valid()
      ensures Polled(now)
    {
      pending := pending[1..];
      inittimer := Some(now + PollDelay);
      pending := pending + [Call(now + PollDelay, CheckUpdateCallback)];
    }

    /** `checkPrompt`, fired by the reactor. Counts black and white pixels
        in both canvases and classifies the step by their ratio. When the
        ratio faults (no white pixels at all before or after) the call
        aborts with nothing else changed; otherwise the sequencer acts on
        the verdict. */
    method CheckPrompt(now: int)
      requires Valid() && Fires(CheckPromptCallback, now)
      modifies this
      ensures Valid()
      ensures old(Verdict()).None? ==>
        && pending == [] && Phase() == Halted
        && initial == old(initial) && final == old(final) && doFinal == old(doFinal)
        && inittimer == old(inittimer) && lastUpdate == old(lastUpdate)
        && methods == old(methods) && sent == old(sent) && tried == old(tried) && detected == old(detected)
      ensures old(Verdict()).Some? ==> Escalated(old(Verdict()).value, now)
    {
      var ratio := Classify();
      pending := pending[1..];
      if ratio.None? {
        // the division faults; the reactor drops the call's exception
        return;
      }
      Escalate(now, ratio.value > Threshold as real);
    }

    /** The ratio `checkPrompt` computes from the black and white pixel
        counts of both canvases; the canvases are only read. */
    method Classify() returns (ratio: Option<real>)
      requires final != null
      ensures ratio.None? <==> Verdict().None?
      ensures ratio.Some? ==> Verdict() == Some(ratio.value > Threshold as real)
    {
      var binitial := CountColor(initial, Black);
      var bfinal := CountColor(final, Black);
      var winitial := CountColor(initial, White);
      var wfinal := CountColor(final, White);
      ratio := Ratio(binitial, bfinal, winitial, wfinal);
    }

    /** What the sequencer does once a step is classified, relative to the
        state before: on a prompt it types the commands and arms the close;
        with no prompt and no method left it arms the close and sends
        nothing; otherwise the settled screen becomes `initial`, the step's
        state is cleared and Escape is tapped, ready for the next method. */
    twostate predicate Escalated(prompt: bool, now: int)
      reads this, initial
    {
      && tried == old(tried)
      && (prompt ==>
            && detected && sent == old(sent) + CommandEvents(commands)
            && pending == [Call(now + CloseDelay, CloseCallback)] && Phase() == Closing
            && initial == old(initial) && final == old(final) && doFinal == old(doFinal)
            && inittimer == old(inittimer) && lastUpdate == old(lastUpdate) && methods == old(methods))
      && (!prompt && old(methods) == [] ==>
            && !detected && sent == old(sent)
            && pending == [Call(now + CloseDelay, CloseCallback)] && Phase() == Closing
            && initial == old(initial) && final == old(final) && doFinal == old(doFinal)
            && inittimer == old(inittimer) && lastUpdate == old(lastUpdate) && methods == old(methods))
      && (!prompt && old(methods) != [] ==> NextStepStarted())
    }

    /** The state after the next step has been started, relative to the
        state before. */
    twostate predicate NextStepStarted()
      reads this, initial
    {
      && fresh(initial) && old(final) != null && Grid(initial) == old(Grid(final))
      && final == null && !doFinal && inittimer.None? && lastUpdate.None?
      && pending == [] && Phase() == Idle
      && sent == old(sent) + DownUp(EscapeScancode)
      && methods == old(methods) && tried == old(tried) && !detected
    }

    /** The escalation sequencer, acting on the verdict `prompt` once the
        reactor has taken the classification call off its queue. */
    method Escalate(now: int, prompt: bool)
      requires Valid() && doFinal && pending == []
      modifies this
      ensures Valid()
      ensures Escalated(prompt, now)
    {
      if prompt {
        RecordedDetect(methods, tried, sent, doFinal, commands);
        SendCommand(commands);
        detected := true;
      }
      if methods == [] || prompt {
        pending := pending + [Call(now + CloseDelay, CloseCallback)];
        return;
      }
      NextMethod();
    }

    /** Start the next step with no prompt found: the settled screen
        becomes `initial`, the step's timer and time are cleared, updates
        go to `initial` again, and Escape is tapped to dismiss what the
        previous method opened. */
    method NextMethod()
      requires Valid() && doFinal && pending == [] && methods != []
      modifies this
      ensures Valid()
      ensures NextStepStarted()
    {
      inittimer := None;
      lastUpdate := None;
      doFinal := false;
      initial := Copy(final);
      final := null;
      RecordedClose(methods, tried, sent, commands);
      ScDownUp(EscapeScancode);
    }
  }
}
