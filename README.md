# rdpwn observer, modelled in Dafny

rdpwn connects to a remote desktop login screen and looks for a privileged
prompt. It sends one escalation key sequence at a time: nine Shift taps
(Sticky Keys), then Windows+U (Utility Manager). After each sequence it
compares the settled screen with the screen from before. When the screen
shows a prompt, it types the user's commands and closes the session.

This project models the observer class `MyObserver`:

- the two canvases it pastes screen updates into;
- the quiescence check that decides when the screen has settled;
- the pixel-count classifier;
- the escalation sequencer;
- the key-event serialisers.

Modules:

- `KeyEvents` — the key events the observer hands to the protocol client
  (scancode or Unicode, press or release). It holds the fixed sequences each
  serialiser produces, and which keys those sequences leave held down.
- `Raster` — a canvas as a two-dimensional pixel buffer (`array2<Pixel>`).
  Its value is a grid of columns. Paste works in place and clips to the
  buffer. Copy gives a fresh buffer. Pixels of one exact colour can be counted.
- `TileDecode` — the bytes per pixel chosen from the colour depth, and the
  zeroed buffer handed to the RLE codec.
- `Classifier` — the ratio of the change in black pixels to the change in
  white pixels, the `ratio > 10` verdict, and the division fault.
  - The ratio is taken over exact reals.
  - An integer cross-multiplication gives the same verdict.
  - On a 1024 x 800 screen, a double division cannot flip the verdict.
- `Rdpwn` — the `Observer` class. Its fields are the canvases, the list of
  methods still to try, the `do_final` flag, the check timer, the time of
  the last update, the log of key events sent, and the reactor's queue of
  delayed calls.
  - Time is an integer number of microseconds, passed in as `now`.
  - A reactor callback is a method that may run only when its call is at
    the head of the queue and due.
  - The class invariant `Valid` ties the state together:
    - the methods left plus the methods tried (newest first) always make
      up the original list;
    - the event log is exactly the transcript of the steps tried so far,
      followed by the typed commands once a prompt is found;
    - at most one call is ever pending, and which call it is follows from
      the phase (idle, polling, settling, closing, or halted after a fault).

## Model

| member | source | states |
|---|---|---|
| KeyEvents.StickyKeysShape | rdpwn.py:49-52 | `stickyKeys` sends 18 events: nine press/release pairs of scancode 0x2a without the extended flag. Shift ends released. |
| KeyEvents.TapsStep | rdpwn.py:51-52 | Each loop iteration appends exactly one `_scDownUp` pair to the taps sent so far. |
| KeyEvents.TapsReleaseAll | rdpwn.py:44-52 | Any number of taps of one key leaves that key released. |
| KeyEvents.UtilManChord | rdpwn.py:54-59 | After the first two events, the Windows key (extended) and U are both held, which forms the chord. After all four, nothing is held. |
| KeyEvents.StringEventsShape | rdpwn.py:61-64 | `sendString` sends 2·len events. Each character is a Unicode press then a release of its code point. The key-downs type exactly the string's code points, and nothing stays held. |
| KeyEvents.StringEventsAppend | rdpwn.py:62-64 | Typing two strings in a row sends the events of the first followed by those of the second. |
| KeyEvents.CommandEventsShape | rdpwn.py:72-74 | `sendCommand` sends 2·Σ(len(cmd)+2) events. The key-downs type every command followed by "\r\n", in order, and nothing stays held. |
| KeyEvents.HeldAfterAppend | rdpwn.py:44-64 | Replaying two event sequences one after the other gives the same held keys as replaying their concatenation. |
| Raster.Paste | rdpwn.py:157-160 | In place, the buffer becomes the old grid with the tile pasted at (left, top), clipped to the buffer. Every other pixel keeps its value. |
| Raster.Copy | rdpwn.py:79 | A fresh buffer with the same dimensions and the same pixels as the source. |
| Raster.PasteAllLastWriteWins | rdpwn.py:157-160 | After a stream of pastes, each pixel shows the last tile that covered it. A pixel no tile covered keeps its original value. |
| Raster.PasteIdempotent | rdpwn.py:157-160 | Pasting the same tile at the same place a second time changes nothing. |
| Raster.CountIsMultiplicity | rdpwn.py:85-91 | The colour count is the multiplicity of the colour among all width·height pixels, so it is at most width·height. |
| Raster.DistinctColoursBound | rdpwn.py:95-98 | The black and white counts of one canvas add up to at most width·height. |
| TileDecode.TileByteSize | rdpwn.py:139-145 | The size is 2 exactly when the depth is below 24, 3 exactly when it is 24–31, and 4 exactly when it is 32 or more. |
| TileDecode.DecompressBuffer | rdpwn.py:146 | The buffer is zeroed and holds width·height·size bytes, which is between 2 and 4 bytes per pixel. |
| Classifier.Ratio | rdpwn.py:100-103 | The division faults (None) if and only if both white counts are zero. |
| Classifier.RatioIsQuotient | rdpwn.py:100-103 | The ratio times the divisor equals the change in black pixels. The divisor is the change in white, or the final white count when that change is zero. |
| Classifier.PromptDetectedExact | rdpwn.py:100-107 | The verdict `ratio > 10` equals an integer-only decision: cross-multiply by the divisor, with the comparison reversed for a negative divisor. The fault case agrees too. |
| Classifier.VerdictMargin | rdpwn.py:100-107 | With counts of at most 1024·800, a ratio other than 10 is at least 1/819200 away from 10, far beyond double rounding. |
| Classifier.SampleMeasurements | rdpwn.py:104-105 | The two recorded measurements are classified as no prompt and as prompt, respectively. |
| Classifier.UnchangedWhiteFallback | rdpwn.py:100-101 | With equal white counts, the ratio divides by the final white count: it faults when that count is 0 and otherwise detects exactly when the black change exceeds 10 times white. |
| Rdpwn.EscalationOrder | rdpwn.py:35 | Given the class invariant on the method list, Sticky Keys is tried first and Utility Manager second. At most two methods are ever tried, and none twice. |
| Rdpwn.PoppedInReverseOrder | rdpwn.py:78 | Popping from the end tries the methods in reverse list order: the tried ones form a prefix of the reversed list. |
| Rdpwn.PopStep | rdpwn.py:78 | One pop keeps the methods left plus the methods tried (newest first) equal to the original list. |
| Rdpwn.TranscriptOpen | rdpwn.py:78 | Sending a method's keys extends the transcript by exactly that method's events. |
| Rdpwn.TranscriptClose | rdpwn.py:124 | Tapping Escape closes the open step. |
| Rdpwn.RecordedOpen | rdpwn.py:78 | Popping the last method and sending its keys keeps the methods left plus the methods tried equal to the original list. The log then holds the new step, open. |
| Rdpwn.RecordedClose | rdpwn.py:124 | Sending Escape after a step turns the open step into a closed one in the log. |
| Rdpwn.RecordedDetect | rdpwn.py:107-110 | Typing the commands after a prompt leaves the log as the steps followed by every command line. |
| Rdpwn.ScreenVerdictMargin | rdpwn.py:93-107 | For two 1024 x 800 canvases, the classifier's ratio is exactly 10 or at least 1/819200 away from it. |
| Rdpwn.UnchangedScreenNoPrompt | rdpwn.py:100-101 | Two equal canvases, as right after `final` is frozen, never show a prompt. The division faults when the screen has no white pixel. |
| Rdpwn.Observer.constructor | rdpwn.py:31-42 | The initial state: an all-black canvas of the given size, no `final`, both methods left, `do_final` false, no timer, nothing sent and nothing pending. |
| Rdpwn.Observer.ScDownUp | rdpwn.py:44-47 | Appends the scancode's press and then its release to the log. |
| Rdpwn.Observer.StickyKeys | rdpwn.py:49-52 | Appends exactly the 18 Sticky Keys events to the log. |
| Rdpwn.Observer.UtilMan | rdpwn.py:54-59 | Appends exactly the four Windows+U events to the log. |
| Rdpwn.Observer.Invoke | rdpwn.py:78 | Calling a popped method appends exactly that method's events. |
| Rdpwn.Observer.SendString | rdpwn.py:61-64 | Appends exactly `StringEvents(s)` to the log. |
| Rdpwn.Observer.SendCommand | rdpwn.py:72-74 | Appends exactly the events of every command line, in order. |
| Rdpwn.Observer.CountColor | rdpwn.py:85-91 | Returns the number of pixels exactly equal to the colour, which is at most width·height. The canvas is only read. |
| Rdpwn.Observer.OnUpdate | rdpwn.py:153-160 | Keeps `Valid`. It records the time and arms the check 0.1 s later only when no timer is armed. It pastes into `final` when `do_final` holds and into `initial` otherwise, and leaves the other canvas unchanged. The phase goes from idle to polling and is otherwise kept. |
| Rdpwn.Observer.CheckUpdate | rdpwn.py:76-83 | Keeps `Valid`. After strictly more than 0.5 s of silence the step settles (`Settled`: last method popped, its keys sent, classification armed 1 s later), and `final` is a fresh canvas with exactly `initial`'s pixels. Otherwise the check is re-armed 0.25 s later and nothing else changes. |
| Rdpwn.Observer.Settle | rdpwn.py:77-81 | Keeps `Valid`. Pops exactly the last method and appends its events. The given copy of `initial` becomes `final` and `do_final` is set. The classification is armed 1 s later, and the timer and last-update time are unchanged. |
| Rdpwn.Observer.OpenStep | rdpwn.py:78 | Pops exactly the last method and appends exactly its events. The bookkeeping now records the step as open. |
| Rdpwn.Observer.Poll | rdpwn.py:82-83 | Only re-arms the check 0.25 s later, which becomes the new timer. Nothing else changes. |
| Rdpwn.Observer.Classify | rdpwn.py:95-103 | The four counts give a ratio that is None exactly when the verdict faults, and otherwise `ratio > 10` is the verdict. |
| Rdpwn.Observer.CheckPrompt | rdpwn.py:93-124 | Keeps `Valid`. On a division fault the call is consumed and nothing else changes. Otherwise the sequencer acts on the verdict. |
| Rdpwn.Observer.Escalate | rdpwn.py:107-124 | On a prompt, it types the commands and arms the close 0.5 s later. With no prompt and no method left, it arms the close and sends nothing. Otherwise it starts the next step. |
| Rdpwn.Observer.NextMethod | rdpwn.py:118-124 | `initial` becomes a fresh copy of `final` and `final` is dropped. The timer and the last update are cleared, as is `do_final`. Exactly Escape press then release is sent. |

## Left out

- Tile decoding: the RLE codec (rdpwn.py:147) and PIL's RGB565 unpacking
  (rdpwn.py:151) are foreign code. `OnUpdate` takes the tile already decoded
  as a width x height pixel grid. `TileDecode` states only the byte size and
  the buffer the codec is given.
- `destRight`, `destBottom`, `bitsPerPixel`, `isCompress` and `data` do not
  appear in `OnUpdate`. The first two are unused by the source, and the
  other three only feed the decoding above.
- `onClose` saving the canvases, `onReady` and `onSessionReady` (which
  only log or pass), and all logging: file I/O and diagnostics.
- The reactor itself: real clocks, the firing of delayed calls and
  `controller.close`. Time is the `now` parameter. The close call is left in
  the pending queue and its firing is not modelled.
- The factory, `controller.setScreen`/`setSecurityLevel`, and argument
  parsing (rdpwn.py:13-28, 182-194): connection setup and the command line.
  The screen size 1024 x 800 is the constant `ScreenWidth` x `ScreenHeight`.
  The constructor takes any size.
- `endtimer` and `prompttimer`: no code reads them. `inittimer` is kept as
  the deadline of the last armed check. As in the source, it stays set after
  that check fires, until the next step starts.
- Rdpwn.Observer.constructor: requires every command to be ASCII. Each
  character goes through a Python 2 UTF-8 conversion of a single byte, which
  raises on non-ASCII bytes. That path is not modelled.
- Floating point: the ratio is an exact real. `Classifier.VerdictMargin`
  shows that the verdict a double division gives is the same.
- Rdpwn.Observer.CheckPrompt: the division fault is modelled as the call
  being consumed with no other change. The fallback at rdpwn.py:100-101
  divides by the final white count, which can be 0: `checkPrompt` then
  raises, and the reactor only logs an exception raised inside a delayed
  call. The session then stays open with nothing pending.
