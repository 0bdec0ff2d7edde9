/** Key events that the observer hands to the protocol client, the fixed
    event sequences its serialisers produce, and what those sequences do to
    the set of keys held down on the remote side. */
module KeyEvents {

  /** One synthetic key event: by keyboard scancode (with the "extended key"
      flag) or by Unicode code point. */
  datatype KeyEvent =
    | Scancode(code: int, down: bool, extended: bool)
    | Unicode(code: int, down: bool)

  /** A physical or synthetic key, as the remote side tracks it. */
  datatype Key = ScanKey(code: int, extended: bool) | CharKey(code: int)

  const EscapeScancode := 0x01
  const LeftShiftScancode := 0x2a
  const WindowsScancode := 0x5c
  const UScancode := 0x16
  /** Number of Shift taps sent to raise the Sticky Keys prompt. */
  const StickyKeysTaps := 9

  function KeyOf(e: KeyEvent): Key {
    match e
    case Scancode(code, _, extended) => ScanKey(code, extended)
    case Unicode(code, _) => CharKey(code)
  }

  function IsDown(e: KeyEvent): bool {
    match e
    case Scancode(_, down, _) => down
    case Unicode(_, down) => down
  }

  /** The keys held down after replaying `events` from the held set `held`. */
  function HeldAfter(held: set<Key>, events: seq<KeyEvent>): set<Key>
    decreases |events|
  {
    if events == [] then held
    else
      var k := KeyOf(events[0]);
      HeldAfter(if IsDown(events[0]) then held + {k} else held - {k}, events[1..])
  }

  /** Replaying a concatenation is replaying its parts one after the other. */
  lemma {:induction false} HeldAfterAppend(held: set<Key>, a: seq<KeyEvent>, b: seq<KeyEvent>)
    ensures HeldAfter(held, a + b) == HeldAfter(HeldAfter(held, a), b)
    decreases |a|
  {
    if a != [] {
      assert (a + b)[0] == a[0];
      assert (a + b)[1..] == a[1..] + b;
      var k := KeyOf(a[0]);
      HeldAfterAppend(if IsDown(a[0]) then held + {k} else held - {k}, a[1..], b);
    } else {
      assert a + b == b;
    }
  }

  /** A scancode pressed and released, without the extended flag (`_scDownUp`). */
  function DownUp(code: int): seq<KeyEvent> {
    [Scancode(code, true, false), Scancode(code, false, false)]
  }

  /** `n` plain taps of one scancode: press, release, press, release, ... */
  function Taps(code: int, n: nat): seq<KeyEvent> {
    seq(2 * n, k requires 0 <= k < 2 * n => Scancode(code, k % 2 == 0, false))
  }

  /** One more tap appends one press/release pair. */
  lemma TapsStep(code: int, n: nat)
    ensures Taps(code, n + 1) == Taps(code, n) + DownUp(code)
  {
    var a, b := Taps(code, n + 1), Taps(code, n) + DownUp(code);
    assert |a| == |b|;
    forall k | 0 <= k < |a| ensures a[k] == b[k] {
      if k >= 2 * n {
        assert k == 2 * n || k == 2 * n + 1;
      }
    }
  }

  /** `stickyKeys`: nine taps of the left Shift key. */
  function StickyKeysEvents(): seq<KeyEvent> {
    Taps(LeftShiftScancode, StickyKeysTaps)
  }

  /** `utilMan`: Windows (extended) down, U down, Windows up, U up. */
  function UtilManEvents(): seq<KeyEvent> {
    [Scancode(WindowsScancode, true, true), Scancode(UScancode, true, false),
     Scancode(WindowsScancode, false, true), Scancode(UScancode, false, false)]
  }

  /** `sendString`: every character pressed then released, by code point. */
  function StringEvents(s: string): seq<KeyEvent>
    decreases |s|
  {
    if s == [] then []
    else [Unicode(s[0] as int, true), Unicode(s[0] as int, false)] + StringEvents(s[1..])
  }

  /** A command as it is typed: followed by carriage return and line feed. */
  function Line(command: string): string {
    command + "\r\n"
  }

  /** `sendCommand`: every command typed as a line, in order. */
  function CommandEvents(commands: seq<string>): seq<KeyEvent>
    decreases |commands|
  {
    if commands == [] then []
    else CommandEvents(commands[..|commands| - 1]) + StringEvents(Line(commands[|commands| - 1]))
  }

  /** The text that `commands` become on the wire, line after line. */
  function Lines(commands: seq<string>): string
    decreases |commands|
  {
    if commands == [] then "" else Lines(commands[..|commands| - 1]) + Line(commands[|commands| - 1])
  }

  /** Number of characters typed for `commands`, terminators included. */
  function TypedLength(commands: seq<string>): nat
    decreases |commands|
  {
    if commands == [] then 0 else TypedLength(commands[..|commands| - 1]) + |commands[|commands| - 1]| + 2
  }

  /** The code points typed by `events`: one per Unicode key-down. */
  function TypedCodes(events: seq<KeyEvent>): seq<int>
    decreases |events|
  {
    if events == [] then []
    else (if events[0].Unicode? && events[0].down then [events[0].code] else []) + TypedCodes(events[1..])
  }

  function Codes(s: string): seq<int> {
    seq(|s|, i requires 0 <= i < |s| => s[i] as int)
  }

  predicate IsAscii(s: string) {
    forall i :: 0 <= i < |s| ==> s[i] < 128 as char
  }

  /** Taps leave the tapped key released. */
  lemma {:induction false} TapsReleaseAll(code: int, n: nat)
    ensures HeldAfter({}, Taps(code, n)) == {}
  {
    if n > 0 {
      TapsReleaseAll(code, n - 1);
      TapsStep(code, n - 1);
      HeldAfterAppend({}, Taps(code, n - 1), DownUp(code));
      var k := ScanKey(code, false);
      assert DownUp(code)[1..] == [Scancode(code, false, false)];
      assert [Scancode(code, false, false)][1..] == [];
      assert KeyOf(DownUp(code)[0]) == k && IsDown(DownUp(code)[0]);
      assert {} + {k} == {k};
      assert HeldAfter({}, DownUp(code)) == HeldAfter({k}, [Scancode(code, false, false)]);
      assert HeldAfter({k}, [Scancode(code, false, false)]) == HeldAfter({k} - {k}, []);
    } else {
      assert Taps(code, n) == [];
    }
  }

  /** `stickyKeys` sends 18 events: nine plain press/release pairs of
      scancode 0x2a, and leaves Shift released. */
  lemma StickyKeysShape()
    ensures |StickyKeysEvents()| == 18
    ensures forall k :: 0 <= k < 18 ==> StickyKeysEvents()[k] == Scancode(0x2a, k % 2 == 0, false)
    ensures HeldAfter({}, StickyKeysEvents()) == {}
  {
    TapsReleaseAll(LeftShiftScancode, StickyKeysTaps);
  }

  /** `utilMan` holds the Windows key while U goes down (the Windows+U
      chord) and leaves both keys released. */
  lemma UtilManChord()
    ensures HeldAfter({}, UtilManEvents()[..2]) == {ScanKey(0x5c, true), ScanKey(0x16, false)}
    ensures HeldAfter({}, UtilManEvents()) == {}
  {
    var e := UtilManEvents();
    assert e[..2][1..] == [e[1]];
    assert e[1..] == [e[1], e[2], e[3]];
    assert e[2..] == [e[2], e[3]];
    assert e[3..] == [e[3]];
  }

  lemma {:induction false} StringEventsAppend(a: string, b: string)
    ensures StringEvents(a + b) == StringEvents(a) + StringEvents(b)
    decreases |a|
  {
    if a != [] {
      assert (a + b)[0] == a[0];
      assert (a + b)[1..] == a[1..] + b;
      StringEventsAppend(a[1..], b);
    } else {
      assert a + b == b;
    }
  }

  /** `sendString` sends two events per character: key-down then key-up of
      that character's code point, in order; replaying them types exactly
      the string and leaves no key held. */
  lemma {:induction false} StringEventsShape(s: string)
    ensures |StringEvents(s)| == 2 * |s|
    ensures forall i :: 0 <= i < |s| ==>
      StringEvents(s)[2 * i] == Unicode(s[i] as int, true) && StringEvents(s)[2 * i + 1] == Unicode(s[i] as int, false)
    ensures TypedCodes(StringEvents(s)) == Codes(s)
    ensures HeldAfter({}, StringEvents(s)) == {}
    decreases |s|
  {
    if s != [] {
      StringEventsShape(s[1..]);
      var e := StringEvents(s);
      var rest := StringEvents(s[1..]);
      assert e[2..] == rest;
      forall i | 1 <= i < |s|
        ensures e[2 * i] == Unicode(s[i] as int, true) && e[2 * i + 1] == Unicode(s[i] as int, false)
      {
        assert e[2 * i] == rest[2 * (i - 1)];
        assert e[2 * i + 1] == rest[2 * (i - 1) + 1];
        assert s[1..][i - 1] == s[i];
      }
      assert e[1..][1..] == rest;
      assert TypedCodes(e[1..]) == TypedCodes(rest);
      assert Codes(s) == [s[0] as int] + Codes(s[1..]);
    }
  }

  lemma {:induction false} TypedCodesAppend(a: seq<KeyEvent>, b: seq<KeyEvent>)
    ensures TypedCodes(a + b) == TypedCodes(a) + TypedCodes(b)
    decreases |a|
  {
    if a != [] {
      assert (a + b)[0] == a[0];
      assert (a + b)[1..] == a[1..] + b;
      TypedCodesAppend(a[1..], b);
    } else {
      assert a + b == b;
    }
  }

  /** `sendCommand` sends 2 * sum(len(command) + 2) events, types exactly
      the commands each followed by "\r\n", in order, and leaves no key held. */
  lemma {:induction false} CommandEventsShape(commands: seq<string>)
    ensures |CommandEvents(commands)| == 2 * TypedLength(commands)
    ensures TypedCodes(CommandEvents(commands)) == Codes(Lines(commands))
    ensures HeldAfter({}, CommandEvents(commands)) == {}
    decreases |commands|
  {
    if commands != [] {
      var init := commands[..|commands| - 1];
      var line := Line(commands[|commands| - 1]);
      CommandEventsShape(init);
      StringEventsShape(line);
      TypedCodesAppend(CommandEvents(init), StringEvents(line));
      HeldAfterAppend({}, CommandEvents(init), StringEvents(line));
      assert Codes(Lines(init) + line) == Codes(Lines(init)) + Codes(line);
    }
  }
}
