/**
The engine driver's event-stream loop: bytes arrive in arbitrary network
chunks, frames end at a blank line, and tokens are passed on until the engine
says it is done. What a frame's text parses to is a parameter.
*/
module SseFraming {
  import opened Wrappers
  import opened Bytes

  const Lf: Byte := 10
  const Cr: Byte := 13

  type Buffer = seq<Byte>

  // ---------------------------------------------------------------------
  // Frame ends
  // ---------------------------------------------------------------------

  /** A line end at `i` followed by an empty line that ends before `e`. */
  predicate BlankLine(buf: Buffer, i: nat, e: nat) {
    && i + 1 < |buf| && buf[i] == Lf
    && ((buf[i + 1] == Lf && e == i + 2) || (buf[i + 1] == Cr && i + 2 < |buf| && buf[i + 2] == Lf && e == i + 3))
  }

  /** The end of the first complete frame. */
  ghost predicate FirstEnd(buf: Buffer, r: Option<nat>) {
    if r.Some? then
      exists i :: 0 <= i < |buf| && BlankLine(buf, i, r.value) && forall j, e :: 0 <= j < i ==> !BlankLine(buf, j, e)
    else forall i, e :: 0 <= i < |buf| ==> !BlankLine(buf, i, e)
  }

  function EndFrom(buf: Buffer, i: nat): (r: Option<nat>)
    requires i <= |buf|
    ensures r.Some? ==> i < r.value <= |buf|
    decreases |buf| - i
  {
    if i + 1 >= |buf| then None
    else if BlankLine(buf, i, i + 2) then Some(i + 2)
    else if BlankLine(buf, i, i + 3) then Some(i + 3)
    else EndFrom(buf, i + 1)
  }

  function FrameEnd(buf: Buffer): (r: Option<nat>)
    ensures r.Some? ==> 0 < r.value <= |buf|
  {
    EndFrom(buf, 0)
  }

  lemma {:induction false} EndFromIsFirst(buf: Buffer, i: nat)
    requires i <= |buf| && forall j, e :: 0 <= j < i ==> !BlankLine(buf, j, e)
    ensures FirstEnd(buf, EndFrom(buf, i))
    decreases |buf| - i
  {
    if i < |buf| && !BlankLine(buf, i, i + 2) && !BlankLine(buf, i, i + 3) {
      EndFromIsFirst(buf, i + 1);
    }
  }

  method FindFrameEnd(buf: Buffer) returns (r: Option<nat>)
    ensures r == FrameEnd(buf) && FirstEnd(buf, r)
  {
    EndFromIsFirst(buf, 0);
    var i := 0;
    while i + 1 < |buf|
      invariant 0 <= i <= |buf| && EndFrom(buf, i) == FrameEnd(buf)
    {
      if buf[i] == Lf {
        if buf[i + 1] == Lf {
          return Some(i + 2);
        }
        if buf[i + 1] == Cr && i + 2 < |buf| && buf[i + 2] == Lf {
          return Some(i + 3);
        }
      }
      i := i + 1;
    }
    return None;
  }

  /** Bytes that arrive later never move a frame end already found. */
  lemma {:induction false} EndIsStable(buf: Buffer, more: Buffer, i: nat)
    requires i <= |buf| && EndFrom(buf, i).Some?
    ensures EndFrom(buf + more, i) == EndFrom(buf, i)
    decreases |buf| - i
  {
    var all := buf + more;
    if !(BlankLine(buf, i, i + 2) || BlankLine(buf, i, i + 3)) {
      EndIsStable(buf, more, i + 1);
    }
  }

  // ---------------------------------------------------------------------
  // Frames of a byte string
  // ---------------------------------------------------------------------

  function Frames(buf: Buffer): (r: seq<Buffer>)
    decreases |buf|
  {
    var end := FrameEnd(buf);
    if end.None? then [] else [buf[..end.value]] + Frames(buf[end.value..])
  }

  function Leftover(buf: Buffer): (r: Buffer)
    decreases |buf|
  {
    var end := FrameEnd(buf);
    if end.None? then buf else Leftover(buf[end.value..])
  }

  function Joined(frames: seq<Buffer>): Buffer {
    if frames == [] then [] else Joined(frames[..|frames| - 1]) + frames[|frames| - 1]
  }

  /** Nothing is lost or made up: the frames and the leftover are the bytes. */
  lemma {:induction false} FramesCover(buf: Buffer)
    ensures Joined(Frames(buf)) + Leftover(buf) == buf
    decreases |buf|
  {
    hide FrameEnd;
    var end := FrameEnd(buf);
    if end.Some? {
      var first, rest := buf[..end.value], buf[end.value..];
      FramesCover(rest);
      JoinedCons(first, Frames(rest));
      assert buf == first + rest;
    }
  }

  lemma {:induction false} JoinedCons(first: Buffer, frames: seq<Buffer>)
    ensures Joined([first] + frames) == first + Joined(frames)
  {
    JoinedAppend([first], frames);
    assert [first][..0] == [];
  }

  lemma {:induction false} JoinedAppend(a: seq<Buffer>, b: seq<Buffer>)
    ensures Joined(a + b) == Joined(a) + Joined(b)
    decreases |b|
  {
    if b == [] {
      assert a + b == a;
    } else {
      var n, ab := |b| - 1, a + b;
      JoinedAppend(a, b[..n]);
      assert ab[..|ab| - 1] == a + b[..n] && ab[|ab| - 1] == b[n];
      Assoc(Joined(a), Joined(b[..n]), b[n]);
    }
  }

  lemma {:induction false} Assoc(x: Buffer, y: Buffer, z: Buffer)
    ensures (x + y) + z == x + (y + z)
  {
  }

  /** Cutting the bytes anywhere does not change the frames: what the first
      part leaves is completed by the second. */
  lemma {:induction false} FramesOfCut(a: Buffer, b: Buffer)
    ensures Frames(a + b) == Frames(a) + Frames(Leftover(a) + b)
    ensures Leftover(a + b) == Leftover(Leftover(a) + b)
    decreases |a|
  {
    var end := FrameEnd(a);
    if end.Some? {
      EndIsStable(a, b, 0);
      assert (a + b)[..end.value] == a[..end.value];
      assert (a + b)[end.value..] == a[end.value..] + b;
      FramesOfCut(a[end.value..], b);
    }
  }

  // ---------------------------------------------------------------------
  // What is sent
  // ---------------------------------------------------------------------

  type Usage = (nat, nat)

  /** The mean log probability of a choice, 0 without any, and their JSON text,
      empty unless the request asked for it. */
  datatype Logprobs = Logprobs(mean: real, json: string)

  const NoLogprobs := Logprobs(0.0, "")

  datatype Choice = Choice(text: string, finish: string, tools: string, logprobs: Logprobs)

  /** What a frame means: nothing, the end mark, junk, or engine output. */
  datatype Event = NoData | Done | Unparsable | Output(usage: Option<Usage>, choices: seq<Choice>)

  type Parser = Buffer -> Event

  datatype Token = Token(text: string, finish: string, tools: string, logprobs: Logprobs, usage: Usage)

  /** `room` is how many tokens the client takes before it goes away; without
      one it stays. */
  datatype Run = Run(saw: bool, usage: Usage, sent: seq<Token>, over: bool)

  const Start := Run(false, (0, 0), [], false)

  predicate Takes(room: Option<nat>, sent: seq<Token>) { room.None? || |sent| < room.value }

  function Terminal(run: Run): Token { Token("", if run.saw then "" else "stop", "", NoLogprobs, run.usage) }

  /** The terminal token goes out if the client is there, and the run is over. */
  function Finished(run: Run, room: Option<nat>): Run {
    if Takes(room, run.sent) then run.(sent := run.sent + [Terminal(run)], over := true) else run.(over := true)
  }

  function SendChoice(run: Run, c: Choice, room: Option<nat>): Run {
    if run.over || (c.text == "" && c.finish == "" && c.tools == "") then run
    else
      var saw := run.saw || c.finish != "";
      var token := Token(c.text, c.finish, c.tools, c.logprobs, (0, 0));
      if Takes(room, run.sent) then run.(saw := saw, sent := run.sent + [token])
      else run.(saw := saw, over := true)
  }

  function SendChoices(run: Run, cs: seq<Choice>, room: Option<nat>): Run {
    if cs == [] then run else SendChoice(SendChoices(run, cs[..|cs| - 1], room), cs[|cs| - 1], room)
  }

  function OnEvent(run: Run, ev: Event, room: Option<nat>): Run {
    if run.over then run
    else
      match ev
      case NoData => run
      case Unparsable => run
      case Done => Finished(run, room)
      case Output(usage, choices) =>
        SendChoices(if usage.Some? then run.(usage := usage.value) else run, choices, room)
  }

  function Process(run: Run, frames: seq<Buffer>, parse: Parser, room: Option<nat>): Run {
    if frames == [] then run
    else OnEvent(Process(run, frames[..|frames| - 1], parse, room), parse(frames[|frames| - 1]), room)
  }

  lemma {:induction false} ProcessAppend(run: Run, a: seq<Buffer>, b: seq<Buffer>, parse: Parser, room: Option<nat>)
    ensures Process(run, a + b, parse, room) == Process(Process(run, a, parse, room), b, parse, room)
    decreases |b|
  {
    if b == [] {
      assert a + b == a;
    } else {
      ProcessAppend(run, a, b[..|b| - 1], parse, room);
      assert (a + b)[..|a + b| - 1] == a + b[..|b| - 1];
    }
  }

  lemma {:induction false} OverIsOver(run: Run, frames: seq<Buffer>, parse: Parser, room: Option<nat>)
    requires run.over
    ensures Process(run, frames, parse, room) == run
    decreases |frames|
  {
    if frames != [] {
      OverIsOver(run, frames[..|frames| - 1], parse, room);
    }
  }

  // ---------------------------------------------------------------------
  // The driver
  // ---------------------------------------------------------------------

  /** A network read: some bytes, or a transport error. */
  datatype Item = Data(bytes: Buffer) | Broken

  datatype Outcome = Complete | StreamError | CutShort

  /** The bytes before the first transport error. */
  function Received(items: seq<Item>): Buffer {
    if items == [] || items[0].Broken? then [] else items[0].bytes + Received(items[1..])
  }

  predicate Breaks(items: seq<Item>) { items != [] && (items[0].Broken? || Breaks(items[1..])) }

  /** The answer as a function of the bytes received, wherever they were cut. */
  function Answer(bytes: Buffer, broken: bool, parse: Parser, room: Option<nat>): (Outcome, Run) {
    var run := Process(Start, Frames(bytes), parse, room);
    if run.over then (Complete, run)
    else if broken then (StreamError, run)
    else if !run.saw then (CutShort, run)
    else (Complete, Finished(run, room))
  }

  /** Handle one frame; the choice loop stops when the client is gone. */
  method HandleFrame(run: Run, ev: Event, room: Option<nat>) returns (r: Run)
    requires !run.over
    ensures r == OnEvent(run, ev, room)
  {
    r := run;
    match ev
    case NoData =>
    case Unparsable =>
    case Done =>
      r := Finished(r, room);
    case Output(usage, choices) =>
      if usage.Some? {
        r := r.(usage := usage.value);
      }
      ghost var r0 := r;
      var i := 0;
      while i < |choices| && !r.over
        invariant 0 <= i <= |choices| && r == SendChoices(r0, choices[..i], room)
      {
        assert choices[..i + 1][..i] == choices[..i];
        r := SendChoice(r, choices[i], room);
        i := i + 1;
      }
      ChoicesAfterOver(r0, choices, i, room);
  }

  lemma {:induction false} ChoicesAfterOver(run: Run, cs: seq<Choice>, i: nat, room: Option<nat>)
    requires i <= |cs| && (i == |cs| || SendChoices(run, cs[..i], room).over)
    ensures SendChoices(run, cs, room) == SendChoices(run, cs[..i], room)
    decreases |cs| - i
  {
    assert cs[..|cs|] == cs;
    if i < |cs| {
      assert cs[..i + 1][..i] == cs[..i];
      ChoicesAfterOver(run, cs, i + 1, room);
    }
  }

  /** Drain every complete frame of the buffer. */
  method Drain(buf: Buffer, run: Run, parse: Parser, room: Option<nat>)
    returns (rest: Buffer, r: Run, drained: seq<Buffer>)
    requires !run.over
    ensures Joined(drained) + rest == buf
    ensures r == Process(run, Frames(buf), parse, room)
    ensures !r.over ==> rest == Leftover(buf) && drained == Frames(buf)
    ensures drained <= Frames(buf)
  {
    hide Frames, Leftover, Process, OnEvent, FirstEnd;
    rest, r, drained := buf, run, [];
    DrainStarts(buf, run, parse, room);
    while true
      invariant Draining(buf, run, parse, room, drained, rest, r) && !r.over
      decreases |rest|
    {
      var end := FindFrameEnd(rest);
      DrainStep(buf, run, parse, room, drained, rest, r);
      if end.None? {
        return;
      }
      var frame := rest[..end.value];
      rest := rest[end.value..];
      drained := drained + [frame];
      r := HandleFrame(r, parse(frame), room);
      if r.over {
        DrainOver(buf, run, parse, room, drained, rest, r);
        return;
      }
    }
  }

  /** `drained` are the first frames of `buf`, `rest` is what follows them, and
      `r` is the run after them. */
  ghost predicate Draining(buf: Buffer, run: Run, parse: Parser, room: Option<nat>, drained: seq<Buffer>, rest: Buffer,
                           r: Run) {
    && Joined(drained) + rest == buf && Frames(buf) == drained + Frames(rest) && Leftover(buf) == Leftover(rest)
    && r == Process(run, drained, parse, room)
  }

  lemma {:induction false} DrainStarts(buf: Buffer, run: Run, parse: Parser, room: Option<nat>)
    ensures Draining(buf, run, parse, room, [], buf, run)
  {
    hide Frames, Leftover;
  }

  lemma {:induction false} DrainStep(buf: Buffer, run: Run, parse: Parser, room: Option<nat>, drained: seq<Buffer>,
                                     rest: Buffer, r: Run)
    requires Draining(buf, run, parse, room, drained, rest, r)
    ensures var end := FrameEnd(rest);
            if end.None? then rest == Leftover(buf) && drained == Frames(buf)
            else
              var frame := rest[..end.value];
              Draining(buf, run, parse, room, drained + [frame], rest[end.value..], OnEvent(r, parse(frame), room))
  {
    hide FrameEnd, OnEvent;
    var end := FrameEnd(rest);
    if end.Some? {
      var frame, tail := rest[..end.value], rest[end.value..];
      assert rest == frame + tail;
      assert (drained + [frame])[..|drained|] == drained;
      assert Joined(drained + [frame]) + tail == Joined(drained) + (frame + tail);
      assert drained + ([frame] + Frames(tail)) == (drained + [frame]) + Frames(tail);
    }
  }

  lemma {:induction false} DrainOver(buf: Buffer, run: Run, parse: Parser, room: Option<nat>, drained: seq<Buffer>,
                                     rest: Buffer, r: Run)
    requires Draining(buf, run, parse, room, drained, rest, r) && r.over
    ensures r == Process(run, Frames(buf), parse, room) && drained <= Frames(buf)
  {
    ProcessAppend(run, drained, Frames(rest), parse, room);
    OverIsOver(r, Frames(rest), parse, room);
  }

  /**
  The streaming loop. Whatever the network cuts, the outcome and the tokens
  sent are those of the bytes as a whole; the frames drained are the first
  frames of those bytes, and with the leftover they are the bytes consumed.
  */
  method Generate(items: seq<Item>, parse: Parser, room: Option<nat>)
    returns (outcome: Outcome, run: Run, drained: seq<Buffer>, buf: Buffer, read: nat)
    ensures (outcome, run) == Answer(Received(items), Breaks(items), parse, room)
    ensures read <= |items| && Joined(drained) + buf == Received(items[..read])
    ensures drained <= Frames(Received(items))
  {
    hide Frames, Leftover, Process, Received, Breaks, Joined;
    buf, run, drained, read := [], Start, [], 0;
    ReadingStarts(items, parse, room);
    while read < |items|
      invariant read <= |items| && Reading(items, read, parse, room, drained, buf, run)
      decreases |items| - read
    {
      if items[read].Broken? {
        ReadingBroken(items, read, parse, room, drained, buf, run);
        return StreamError, run, drained, buf, read;
      }
      var left, r, more := Drain(buf + items[read].bytes, run, parse, room);
      ReadingNext(items, read, parse, room, drained, buf, run, more, left);
      buf, run, drained, read := left, r, drained + more, read + 1;
      if run.over {
        return Complete, run, drained, buf, read;
      }
    }
    ReadingEnds(items, parse, room, drained, buf, run);
    if !run.saw {
      return CutShort, run, drained, buf, read;
    }
    run := Finished(run, room);
    outcome := Complete;
  }

  /** After `n` items: the frames so far are drained, the rest is buffered, and
      the run goes on. */
  ghost predicate Reading(items: seq<Item>, n: nat, parse: Parser, room: Option<nat>, drained: seq<Buffer>, buf: Buffer,
                          run: Run)
    requires n <= |items|
  {
    && Readable(items, n) && !run.over
    && buf == Leftover(Received(items[..n])) && drained == Frames(Received(items[..n]))
    && run == Process(Start, drained, parse, room)
  }

  lemma {:induction false} ReadingStarts(items: seq<Item>, parse: Parser, room: Option<nat>)
    ensures Reading(items, 0, parse, room, [], [], Start)
  {
    var none: Buffer := [];
    assert Received(items[..0]) == none;
    assert FrameEnd(none) == None;
  }

  lemma {:induction false} ReadingBroken(items: seq<Item>, n: nat, parse: Parser, room: Option<nat>,
                                         drained: seq<Buffer>, buf: Buffer, run: Run)
    requires n < |items| && items[n].Broken? && Reading(items, n, parse, room, drained, buf, run)
    ensures (StreamError, run) == Answer(Received(items), Breaks(items), parse, room)
    ensures Joined(drained) + buf == Received(items[..n]) && drained <= Frames(Received(items))
  {
    hide Frames, Leftover, Process;
    ReceivedCut(items, n);
    FramesCover(Received(items[..n]));
    assert Received(items[n..]) == [];
    assert Received(items) == Received(items[..n]);
  }

  lemma {:induction false} ReadingEnds(items: seq<Item>, parse: Parser, room: Option<nat>, drained: seq<Buffer>,
                                       buf: Buffer, run: Run)
    requires Reading(items, |items|, parse, room, drained, buf, run)
    ensures Answer(Received(items), Breaks(items), parse, room) ==
              if run.saw then (Complete, Finished(run, room)) else (CutShort, run)
    ensures Joined(drained) + buf == Received(items[..|items|]) && drained <= Frames(Received(items))
  {
    hide Frames, Leftover, Process, Received;
    assert items[..|items|] == items;
    assert items[|items|..] == [];
    ReceivedCut(items, |items|);
    FramesCover(Received(items));
  }

  lemma {:induction false} ReadingNext(items: seq<Item>, n: nat, parse: Parser, room: Option<nat>, drained: seq<Buffer>,
                                       buf: Buffer, run: Run,
                                       more: seq<Buffer>, left: Buffer)
    requires n < |items| && items[n].Data? && Reading(items, n, parse, room, drained, buf, run)
    requires Joined(more) + left == buf + items[n].bytes && more <= Frames(buf + items[n].bytes)
    ensures var r := Process(run, Frames(buf + items[n].bytes), parse, room);
            && Joined(drained + more) + left == Received(items[..n + 1])
            && (r.over ==> drained + more <= Frames(Received(items)))
            && (r.over ==> (Complete, r) == Answer(Received(items), Breaks(items), parse, room))
            && (!r.over && left == Leftover(buf + items[n].bytes) && more == Frames(buf + items[n].bytes) ==>
                  Reading(items, n + 1, parse, room, drained + more, left, r))
  {
    hide Frames, Leftover, Process, Received, Breaks, Joined;
    var so, chunk := Received(items[..n]), items[n].bytes;
    ReceivedCut(items, n + 1);
    assert Received(items[..n + 1]) == so + chunk;
    FramesOfCut(so, chunk);
    FramesCover(so);
    JoinedAppend(drained, more);
    ProcessAppend(Start, drained, Frames(buf + chunk), parse, room);
    assert Joined(drained + more) + left == Joined(drained) + (Joined(more) + left);
    assert (Joined(drained) + buf) + chunk == Joined(drained) + (buf + chunk);
    if Process(run, Frames(buf + chunk), parse, room).over {
      assert drained + more <= drained + Frames(buf + chunk);
      StopsHere(items, n + 1, parse, room, drained + more);
    }
  }

  /** The first `n` items carry bytes. */
  ghost predicate Readable(items: seq<Item>, n: nat)
    requires n <= |items|
  {
    forall i :: 0 <= i < n ==> items[i].Data?
  }

  lemma {:induction false} ReceivedCut(items: seq<Item>, n: nat)
    requires n <= |items| && Readable(items, n)
    ensures Received(items) == Received(items[..n]) + Received(items[n..])
    ensures Breaks(items) <==> Breaks(items[n..])
    ensures n > 0 ==> Received(items[..n]) == Received(items[..n - 1]) + items[n - 1].bytes
    decreases n
  {
    if n == 0 {
      assert items[0..] == items;
    } else {
      ReceivedCut(items, n - 1);
      assert items[n - 1..][1..] == items[n..];
      ReceivedSnoc(items[..n - 1], items[n - 1].bytes);
      assert items[..n] == items[..n - 1] + [items[n - 1]];
    }
  }

  lemma {:induction false} ReceivedSnoc(items: seq<Item>, bytes: Buffer)
    requires forall i :: 0 <= i < |items| ==> items[i].Data?
    ensures Received(items + [Data(bytes)]) == Received(items) + bytes
  {
    if items == [] {
      assert [Data(bytes)][1..] == [];
    } else {
      assert (items + [Data(bytes)])[1..] == items[1..] + [Data(bytes)];
      ReceivedSnoc(items[1..], bytes);
    }
  }

  /** Once the run is over, bytes never read cannot change the answer. */
  lemma {:induction false} StopsHere(items: seq<Item>, n: nat, parse: Parser, room: Option<nat>, drained: seq<Buffer>)
    requires n <= |items| && Readable(items, n) && drained <= Frames(Received(items[..n]))
    requires Process(Start, Frames(Received(items[..n])), parse, room).over
    ensures drained <= Frames(Received(items))
    ensures Answer(Received(items), Breaks(items), parse, room)
         == (Complete, Process(Start, Frames(Received(items[..n])), parse, room))
  {
    ReceivedCut(items, n);
    var a, b := Received(items[..n]), Received(items[n..]);
    FramesOfCut(a, b);
    ProcessAppend(Start, Frames(a), Frames(Leftover(a) + b), parse, room);
    OverIsOver(Process(Start, Frames(a), parse, room), Frames(Leftover(a) + b), parse, room);
  }

  // ---------------------------------------------------------------------
  // Finish reasons
  // ---------------------------------------------------------------------

  ghost predicate HasFinish(sent: seq<Token>) { exists t :: t in sent && t.finish != "" }

  /** While the run goes on it knows whether the engine sent a finish reason;
      once over, for a client that stays, the last token is the driver's and
      carries one exactly when the engine sent none. */
  ghost predicate Tracked(run: Run) {
    if run.over then
      run.sent != [] && var engine := run.sent[..|run.sent| - 1];
      (run.sent[|run.sent| - 1].finish != "" <==> !HasFinish(engine))
    else run.saw <==> HasFinish(run.sent)
  }

  lemma {:induction false} SentOne(sent: seq<Token>, t: Token)
    ensures HasFinish(sent + [t]) <==> HasFinish(sent) || t.finish != ""
  {
    if HasFinish(sent) {
      var u :| u in sent && u.finish != "";
      assert u in sent + [t];
    }
    assert t in sent + [t];
  }

  lemma {:induction false} ChoicesTracked(run: Run, cs: seq<Choice>)
    requires !run.over && Tracked(run)
    ensures var r := SendChoices(run, cs, None);
            !r.over && Tracked(r) && r.usage == run.usage
  {
    hide HasFinish;
    if cs != [] {
      var n := |cs| - 1;
      ChoicesTracked(run, cs[..n]);
      SentOne(SendChoices(run, cs[..n], None).sent,
              Token(cs[n].text, cs[n].finish, cs[n].tools, cs[n].logprobs, (0, 0)));
    }
  }

  lemma {:induction false} FinishedTracked(run: Run)
    requires !run.over && Tracked(run)
    ensures Tracked(Finished(run, None)) && HasFinish(Finished(run, None).sent)
  {
    var r := Finished(run, None);
    assert r.sent[..|r.sent| - 1] == run.sent;
    SentOne(run.sent, Terminal(run));
  }

  lemma {:induction false} ProcessTracked(frames: seq<Buffer>, parse: Parser)
    ensures var r := Process(Start, frames, parse, None);
            Tracked(r) && (r.over ==> HasFinish(r.sent))
  {
    hide HasFinish;
    if frames == [] {
      assert !HasFinish([]) by { NothingSent(); }
    } else {
      var n := |frames| - 1;
      ProcessTracked(frames[..n], parse);
      var run, ev := Process(Start, frames[..n], parse, None), parse(frames[n]);
      if !run.over {
        match ev
        case Done => FinishedTracked(run);
        case Output(usage, choices) =>
          ChoicesTracked(if usage.Some? then run.(usage := usage.value) else run, choices);
        case _ =>
      }
    }
  }

  lemma {:induction false} NothingSent()
    ensures !HasFinish([])
  {
  }

  /** Every answer that completes for a client that stays carries a finish
      reason, and the driver's own last token adds one exactly when the engine
      sent none. */
  lemma {:induction false} FinishIsSent(bytes: Buffer, broken: bool, parse: Parser)
    ensures var (outcome, run) := Answer(bytes, broken, parse, None);
            outcome == Complete ==> run.over && Tracked(run) && HasFinish(run.sent)
  {
    ProcessTracked(Frames(bytes), parse);
    var run := Process(Start, Frames(bytes), parse, None);
    if !run.over {
      FinishedTracked(run);
    }
  }

  // ---------------------------------------------------------------------
  // What every token carries
  // ---------------------------------------------------------------------

  function EventsOf(frames: seq<Buffer>, parse: Parser): (r: seq<Event>)
    ensures |r| == |frames|
  {
    seq(|frames|, i requires 0 <= i < |frames| => parse(frames[i]))
  }

  /** The events before the first end mark. */
  function BeforeEnd(events: seq<Event>): seq<Event> {
    if events == [] || events[0].Done? then [] else [events[0]] + BeforeEnd(events[1..])
  }

  /** Something to pass on: text, a finish reason or tool calls. */
  predicate Spoken(c: Choice) { c.text != "" || c.finish != "" || c.tools != "" }

  /** The choices to pass on, in order. */
  function SpokenOf(cs: seq<Choice>): seq<Choice> {
    if cs == [] then []
    else SpokenOf(cs[..|cs| - 1]) + if Spoken(cs[|cs| - 1]) then [cs[|cs| - 1]] else []
  }

  function AllSpoken(events: seq<Event>): seq<Choice> {
    if events == [] then []
    else
      var e := events[|events| - 1];
      AllSpoken(events[..|events| - 1]) + if e.Output? then SpokenOf(e.choices) else []
  }

  /** The usage of the last frame that reported one. */
  function LastUsage(events: seq<Event>): Usage {
    if events == [] then (0, 0)
    else
      var e := events[|events| - 1];
      if e.Output? && e.usage.Some? then e.usage.value else LastUsage(events[..|events| - 1])
  }

  predicate Carries(t: Token, c: Choice) {
    t.text == c.text && t.finish == c.finish && t.tools == c.tools && t.logprobs == c.logprobs && t.usage == (0, 0)
  }

  /** One token per choice, in order, each carrying all of its choice. */
  ghost predicate Told(sent: seq<Token>, cs: seq<Choice>) {
    |sent| == |cs| && forall i :: 0 <= i < |cs| ==> Carries(sent[i], cs[i])
  }

  ghost predicate AnyFinish(cs: seq<Choice>) { exists c :: c in cs && c.finish != "" }

  /** The driver's own last token: a finish reason if the engine gave none, and
      the usage. */
  ghost predicate Closes(t: Token, events: seq<Event>) {
    && t.text == "" && t.tools == "" && t.logprobs.mean == 0.0 && t.logprobs.json == ""
    && t.finish == (if AnyFinish(AllSpoken(events)) then "" else "stop") && t.usage == LastUsage(events)
  }

  lemma {:induction false} FinishMore(cs: seq<Choice>, c: Choice)
    ensures AnyFinish(cs + [c]) <==> AnyFinish(cs) || c.finish != ""
  {
    if AnyFinish(cs) {
      var x :| x in cs && x.finish != "";
      assert x in cs + [c];
    }
    assert c in cs + [c];
  }

  /** The choices of one frame, to a client that stays. */
  lemma {:induction false} ChoicesTold(run: Run, cs: seq<Choice>, before: seq<Choice>)
    requires !run.over && Told(run.sent, before) && (run.saw <==> AnyFinish(before))
    ensures var r := SendChoices(run, cs, None);
            && !r.over && r.usage == run.usage && Told(r.sent, before + SpokenOf(cs))
            && (r.saw <==> AnyFinish(before + SpokenOf(cs)))
  {
    hide AnyFinish;
    if cs == [] {
      assert before + SpokenOf(cs) == before;
    } else {
      var n := |cs| - 1;
      var so := before + SpokenOf(cs[..n]);
      ChoicesTold(run, cs[..n], before);
      if Spoken(cs[n]) {
        assert before + SpokenOf(cs) == so + [cs[n]];
        FinishMore(so, cs[n]);
      } else {
        assert before + SpokenOf(cs) == so;
      }
    }
  }

  /** The run after some events, for a client that stays. */
  ghost predicate Tells(run: Run, events: seq<Event>) {
    var before := BeforeEnd(events);
    && (run.over <==> exists e :: e in events && e.Done?)
    && (!run.over ==> before == events && Told(run.sent, AllSpoken(before)) && run.usage == LastUsage(before)
                      && (run.saw <==> AnyFinish(AllSpoken(before))))
    && (run.over ==> run.sent != [] && Told(run.sent[..|run.sent| - 1], AllSpoken(before))
                     && Closes(run.sent[|run.sent| - 1], before))
  }

  lemma {:induction false} EndOfMore(events: seq<Event>, e: Event)
    ensures (exists x :: x in events && x.Done?) ==> BeforeEnd(events + [e]) == BeforeEnd(events)
    ensures !(exists x :: x in events && x.Done?) ==>
      BeforeEnd(events) == events && BeforeEnd(events + [e]) == if e.Done? then events else events + [e]
  {
    if events == [] {
      assert events + [e] == [e] && [e][1..] == [];
    } else {
      assert (events + [e])[1..] == events[1..] + [e];
      assert events == [events[0]] + events[1..];
      EndOfMore(events[1..], e);
    }
  }

  lemma {:induction false} EventTold(run: Run, events: seq<Event>, e: Event)
    requires Tells(run, events)
    ensures Tells(OnEvent(run, e, None), events + [e])
  {
    hide Told, AnyFinish, SpokenOf, LastUsage, AllSpoken, BeforeEnd;
    EndOfMore(events, e);
    DoneMore(events, e);
    var r := OnEvent(run, e, None);
    if !run.over {
      MoreSpoken(events, e);
      match e
      case Output(usage, choices) =>
        ChoicesTold(if usage.Some? then run.(usage := usage.value) else run, choices, AllSpoken(events));
      case Done =>
        assert r.sent[..|r.sent| - 1] == run.sent;
      case _ =>
        assert AllSpoken(events) + [] == AllSpoken(events);
    }
  }

  lemma {:induction false} DoneMore(events: seq<Event>, e: Event)
    ensures (exists x :: x in events + [e] && x.Done?) <==> e.Done? || exists x :: x in events && x.Done?
  {
    if x :| x in events && x.Done? {
      assert x in events + [e];
    }
    assert e in events + [e];
  }

  lemma {:induction false} MoreSpoken(events: seq<Event>, e: Event)
    ensures AllSpoken(events + [e]) == AllSpoken(events) + if e.Output? then SpokenOf(e.choices) else []
    ensures LastUsage(events + [e]) == if e.Output? && e.usage.Some? then e.usage.value else LastUsage(events)
  {
    assert (events + [e])[..|events|] == events;
  }

  lemma {:induction false} FramesTold(frames: seq<Buffer>, parse: Parser)
    ensures Tells(Process(Start, frames, parse, None), EventsOf(frames, parse))
  {
    hide Tells, OnEvent;
    if frames == [] {
      NothingTold();
      assert EventsOf(frames, parse) == [];
    } else {
      var n := |frames| - 1;
      FramesTold(frames[..n], parse);
      EventTold(Process(Start, frames[..n], parse, None), EventsOf(frames[..n], parse), parse(frames[n]));
      assert EventsOf(frames, parse) == EventsOf(frames[..n], parse) + [parse(frames[n])];
    }
  }

  lemma {:induction false} NothingTold()
    ensures Tells(Start, [])
  {
  }

  /** How the stream ends, from what was said in it. */
  function Ending(ended: bool, broken: bool, finished: bool): Outcome {
    if ended then Complete else if broken then StreamError else if finished then Complete else CutShort
  }

  /**
  Everything a client that stays is sent. One token per choice with something
  to say, in the order of the frames before the end mark, each carrying all of
  that choice; then, if the answer completes, the driver's own token with the
  last usage reported.
  */
  lemma {:induction false} WhatIsSent(bytes: Buffer, broken: bool, parse: Parser)
    ensures var events := EventsOf(Frames(bytes), parse);
            var before := BeforeEnd(events);
            var (outcome, run) := Answer(bytes, broken, parse, None);
            && outcome == Ending(exists e :: e in events && e.Done?, broken, AnyFinish(AllSpoken(before)))
            && (outcome != Complete ==> Told(run.sent, AllSpoken(before)))
            && (outcome == Complete ==>
                  && run.sent != [] && Told(run.sent[..|run.sent| - 1], AllSpoken(before))
                  && Closes(run.sent[|run.sent| - 1], before))
  {
    hide Frames, Process, Told, AnyFinish, AllSpoken, BeforeEnd, LastUsage;
    FramesTold(Frames(bytes), parse);
    var run := Process(Start, Frames(bytes), parse, None);
    var r := Finished(run, None);
    assert r.sent[..|r.sent| - 1] == run.sent;
  }

  // ---------------------------------------------------------------------
  // A client that goes away
  // ---------------------------------------------------------------------

  function FirstOf(sent: seq<Token>, n: nat): seq<Token> { if |sent| <= n then sent else sent[..n] }

  /** The tokens of the engine among those sent to a client that stays. */
  function EngineTokens(run: Run): nat { if run.over && run.sent != [] then |run.sent| - 1 else |run.sent| }

  /** The run for a client with room for `n` tokens against that for one that
      stays: the same until a token of the engine finds no room. */
  ghost predicate Cropped(a: Run, b: Run, n: nat) {
    && b.sent == FirstOf(a.sent, n) && (a.over ==> a.sent != [])
    && (if EngineTokens(a) <= n then b.over == a.over && b.saw == a.saw && b.usage == a.usage else b.over)
  }

  lemma {:induction false} ChoicesCropped(a: Run, b: Run, cs: seq<Choice>, n: nat)
    requires Cropped(a, b, n) && !a.over && !b.over
    ensures !SendChoices(a, cs, None).over && Cropped(SendChoices(a, cs, None), SendChoices(b, cs, Some(n)), n)
  {
    if cs != [] {
      ChoicesCropped(a, b, cs[..|cs| - 1], n);
    }
  }

  lemma {:induction false} StillSending(a: Run, cs: seq<Choice>)
    requires !a.over
    ensures !SendChoices(a, cs, None).over && |SendChoices(a, cs, None).sent| >= |a.sent|
    ensures a.sent <= SendChoices(a, cs, None).sent
  {
    if cs != [] {
      StillSending(a, cs[..|cs| - 1]);
    }
  }

  lemma {:induction false} EventCropped(a: Run, b: Run, e: Event, n: nat)
    requires Cropped(a, b, n)
    ensures Cropped(OnEvent(a, e, None), OnEvent(b, e, Some(n)), n)
  {
    hide SendChoices;
    if !a.over {
      match e
      case Output(usage, choices) =>
        var a0 := if usage.Some? then a.(usage := usage.value) else a;
        var b0 := if usage.Some? then b.(usage := usage.value) else b;
        StillSending(a0, choices);
        if !b.over {
          ChoicesCropped(a0, b0, choices, n);
        }
      case _ =>
    }
  }

  lemma {:induction false} FramesCropped(frames: seq<Buffer>, parse: Parser, n: nat)
    ensures Cropped(Process(Start, frames, parse, None), Process(Start, frames, parse, Some(n)), n)
  {
    hide Cropped, OnEvent;
    if frames == [] {
      NothingCropped(n);
    } else {
      var k := |frames| - 1;
      FramesCropped(frames[..k], parse, n);
      EventCropped(Process(Start, frames[..k], parse, None), Process(Start, frames[..k], parse, Some(n)),
                   parse(frames[k]), n);
    }
  }

  lemma {:induction false} NothingCropped(n: nat)
    ensures Cropped(Start, Start, n)
  {
  }

  /** A client with room for `n` tokens gets the first `n` of what one that
      stays would get, and the driver ends well as soon as a token of the engine
      finds no room. */
  lemma {:induction false} WhatIsSentInRoom(bytes: Buffer, broken: bool, parse: Parser, n: nat)
    ensures var (stays, all) := Answer(bytes, broken, parse, None);
            var (outcome, run) := Answer(bytes, broken, parse, Some(n));
            && run.sent == FirstOf(all.sent, n)
            && outcome ==
               if |AllSpoken(BeforeEnd(EventsOf(Frames(bytes), parse)))| > n then Complete else stays
  {
    hide Frames, Process, Told, AnyFinish, AllSpoken, BeforeEnd, LastUsage, Closes;
    FramesTold(Frames(bytes), parse);
    FramesCropped(Frames(bytes), parse, n);
    var a, b := Process(Start, Frames(bytes), parse, None), Process(Start, Frames(bytes), parse, Some(n));
    TellsCount(a, EventsOf(Frames(bytes), parse));
  }

  lemma {:induction false} TellsCount(run: Run, events: seq<Event>)
    requires Tells(run, events)
    ensures EngineTokens(run) == |AllSpoken(BeforeEnd(events))|
  {
  }
}
