/** The cuesheet parser of src/cueutil.c as a state machine over lines: which sample regions of which
    file become tracks. */
module CueSpec {
  datatype Option<T> = None | Some(value: T)

  /** What loading the audio file of a FILE line yields. */
  datatype File = File(start: int, numsamples: int, samplerate: int) {
    /** The last sample of the file. */
    function Last(): int {
      start + numsamples - 1
    }
  }

  /** A line by its field; `End` is the final round at the end of the buffer. `CueFile` is a FILE line
      that names another cuesheet; times are in seconds. */
  datatype Line = FileLine | CueFile | TrackLine(audio: bool) | Index01(time: real) | Pregap(time: real) | Other | End

  /** A track: `index` is where its INDEX 01 puts it, `start` comes PREGAP later. */
  datatype Region = Region(index: int, start: int, end: int, subtrack: bool)

  /** The tracks cut out of one file. */
  datatype Group = Group(file: File, regions: seq<Region>)

  /** `Crashed` is where the code follows a null pointer. */
  datatype Status = Going | Done | Failed | Crashed

  /** The parser between two lines. `closed` are the tracks of earlier files, `open` those of the
      current one, `loads` the outcomes of the file loads still to come. */
  datatype Cue = Cue(status: Status, currsample: int, haveTrack: bool, audio: bool, pregap: real,
                     origin: Option<File>, firstTrack: bool, filefield: bool, loads: seq<Option<File>>,
                     closed: seq<Group>, open: seq<Region>)

  /** Seconds to samples, rounding toward zero. */
  function Samples(time: real, samplerate: int): int {
    var x := time * samplerate as real;
    if x >= 0.0 then x.Floor else -(-x).Floor
  }

  /** Within one sample, toward zero. */
  lemma SamplesNear(time: real, samplerate: int, n: int)
    ensures Samples(time, samplerate) == n <==>
      var x := time * samplerate as real;
      if x >= 0.0 then n as real <= x < n as real + 1.0 else n as real - 1.0 < x <= n as real
  {
    var x := time * samplerate as real;
    var y := if x >= 0.0 then x else -x;
    var m := if x >= 0.0 then n else -n;
    assert y.Floor == m <==> m as real <= y < m as real + 1.0;
  }

  function SetEnd(open: seq<Region>, end: int): (r: seq<Region>)
    requires open != []
    ensures |r| == |open|
  {
    open[|open| - 1 := open[|open| - 1].(end := end)]
  }

  /** plt_process_cue_track. A sheet that gets here without a file makes the code follow a null pointer. */
  function Process(c: Cue, last: bool): Cue {
    if c.origin.None? then c.(status := Crashed)
    else
      var f := c.origin.value;
      var start := c.currsample + Samples(c.pregap, f.samplerate);
      if c.open != [] && c.currsample >= f.numsamples then c.(status := Failed)
      else if last && start - f.start >= f.numsamples then c.(status := Failed)
      else
        var before := if c.open == [] then [] else SetEnd(c.open, c.currsample - 1);
        var region := Region(c.currsample, start, if last then f.Last() else -1, !c.firstTrack);
        c.(open := before + [region], firstTrack := false)
  }

  /** The last track of the current file extends to the end of the file. */
  function Close(c: Cue): Cue {
    if c.open == [] || c.origin.None? then c
    else c.(closed := c.closed + [Group(c.origin.value, SetEnd(c.open, c.origin.value.Last()))], open := [])
  }

  /** _load_nextfile; when it fails the loop ends with the tracks there are. */
  function Load(c: Cue): Cue {
    if c.loads == [] then c.(status := Done, origin := None)
    else if c.loads[0].None? then c.(status := Done, origin := None, loads := c.loads[1..])
    else c.(origin := c.loads[0], firstTrack := true, loads := c.loads[1..])
  }

  predicate IsTrack(l: Line) {
    l.TrackLine? || l.End?
  }

  /** The line after FILE decides to which file the current track belongs. */
  function Switch(c: Cue, l: Line): Cue {
    var c1 := if IsTrack(l) && c.audio then Process(c, l.End?) else c;
    if c1.status != Going then c1
    else
      Enter(Load(Close(c1)), IsTrack(l))
  }

  /** Starts on the file just loaded; a track line that follows FILE opens a new track in it. */
  function Enter(c: Cue, track: bool): Cue {
    if c.status != Going || c.origin.None? then c
    else c.(haveTrack := c.haveTrack && !track, currsample := c.origin.value.start)
  }

  function Handle(c: Cue, l: Line): Cue {
    match l
    case Index01(time) =>
      if c.origin.None? then c.(status := Failed)
      else
        var val := c.origin.value.start + Samples(time, c.origin.value.samplerate);
        if val > c.currsample then c.(currsample := val) else c
    case FileLine => if !c.haveTrack then Load(c) else c.(filefield := true)
    case TrackLine(audio) =>
      var c1 := if c.origin.Some? && c.haveTrack && c.audio then Process(c, false) else c;
      if c1.status != Going then c1 else c1.(pregap := 0.0, audio := audio, haveTrack := true)
    case End =>
      var c1 := if c.origin.Some? && c.haveTrack && c.audio then Process(c, true) else c;
      if c1.status != Going then c1 else Close(c1).(status := Done)
    case CueFile => c.(status := Failed)
    case Pregap(time) => c.(pregap := time)
    case Other => c
  }

  function Step(c: Cue, l: Line): Cue {
    if c.filefield && !l.CueFile? then
      var c1 := Switch(c.(filefield := false), l);
      if c1.status != Going then c1 else Handle(c1, l)
    else Handle(c, l)
  }

  function Run(c: Cue, lines: seq<Line>): Cue
    decreases |lines|
  {
    if lines == [] || c.status != Going then c else Run(Step(c, lines[0]), lines[1..])
  }

  function Init(loads: seq<Option<File>>): Cue {
    Cue(Going, 0, false, false, 0.0, None, false, false, loads, [], [])
  }

  function Count(lines: seq<Line>, p: Line -> bool): (n: nat)
    ensures n <= |lines|
  {
    if lines == [] then 0 else (if p(lines[0]) then 1 else 0) + Count(lines[1..], p)
  }

  const FILES: Line -> bool := (l: Line) => l.FileLine? || l.CueFile?
  const TRACKS: Line -> bool := (l: Line) => l.TrackLine?

  /** plt_load_cuesheet_from_buffer */
  function Parse(lines: seq<Line>, loads: seq<Option<File>>, embedded: bool): Cue {
    if Count(lines, FILES) == 0 || Count(lines, TRACKS) == 0 || (Count(lines, FILES) > 1 && embedded)
    then Init(loads).(status := Failed)
    else Run(Init(loads), lines + [End])
  }

  // ----- tiling ----------------------------------------------------------------------------

  /** Each region ends one sample before the index of the next, indexes never decrease and stay
      inside the file, and all but the first are subtracks. */
  ghost predicate Chain(r: seq<Region>, f: File) {
    && r != []
    && (forall i, j :: 0 <= i && j == i + 1 && j < |r| ==>
          r[i].end + 1 == r[j].index && r[i].index <= r[j].index < f.numsamples)
    && (forall i :: 0 <= i < |r| ==> (r[i].subtrack <==> i > 0))
  }

  ghost predicate Tiled(g: Group) {
    Chain(g.regions, g.file) && g.regions[|g.regions| - 1].end == g.file.Last()
  }

  ghost predicate AllTiled(groups: seq<Group>) {
    forall i :: 0 <= i < |groups| ==> Tiled(groups[i])
  }

  /** What every line keeps. */
  ghost predicate Inv(c: Cue) {
    && AllTiled(c.closed)
    && (c.open != [] ==> c.origin.Some? && c.haveTrack)
    && (c.open != [] ==> Chain(c.open, c.origin.value) && c.open[|c.open| - 1].index <= c.currsample)
    && (c.status == Going && c.origin.Some? ==> (c.firstTrack <==> c.open == []))
    && (c.filefield ==> c.haveTrack)
    && (c.status == Done ==> c.open == [])
  }

  lemma ProcessKeeps(c: Cue, last: bool)
    requires Inv(c) && c.status == Going && c.haveTrack && Process(c, last).status == Going
    ensures Inv(Process(c, last)) && Process(c, last).open != []
  {
    var d, r := Process(c, last), c.open;
    forall i | 0 <= i < |d.open|
      ensures d.open[i] ==
        if i < |r| - 1 then r[i] else if i == |r| - 1 then r[i].(end := c.currsample - 1) else d.open[i]
    {
    }
  }

  lemma CloseKeeps(c: Cue)
    requires Inv(c)
    ensures var d := Close(c); AllTiled(d.closed) && d.open == []
  {
    if c.open != [] {
      var r := SetEnd(c.open, c.origin.value.Last());
      assert forall i :: 0 <= i < |r| ==> r[i].index == c.open[i].index && r[i].subtrack == c.open[i].subtrack;
      assert forall i :: 0 <= i < |r| - 1 ==> r[i] == c.open[i];
      assert Chain(r, c.origin.value);
    }
  }

  lemma StepKeeps(c: Cue, l: Line)
    requires Inv(c) && c.status == Going && Step(c, l).status != Failed
    ensures Inv(Step(c, l))
  {
    var d := c;
    if c.filefield && !l.CueFile? {
      SwitchKeeps(c.(filefield := false), l);
      d := Switch(c.(filefield := false), l);
    }
    if d.status == Going {
      HandleKeeps(d, l);
    }
  }

  lemma SwitchKeeps(c: Cue, l: Line)
    requires Inv(c) && c.status == Going && !c.filefield && c.haveTrack && Switch(c, l).status != Failed
    ensures var d := Switch(c, l); Inv(d) && !d.filefield && (d.status == Going ==> d.open == [])
  {
    hide Inv, Process, Close, Load, Enter;
    var c1 := if IsTrack(l) && c.audio then Process(c, l.End?) else c;
    if c1.status == Going {
      if IsTrack(l) && c.audio {
        ProcessKeeps(c, l.End?);
        ProcessRest(c, l.End?);
      }
      CloseKeeps(c1);
      LoadKeeps(c1, IsTrack(l));
    } else {
      ProcessRest(c, l.End?);
      CrashKeeps(c);
    }
  }

  lemma ProcessRest(c: Cue, last: bool)
    ensures var d := Process(c, last);
      && d.filefield == c.filefield && d.haveTrack == c.haveTrack
      && (d.status == c.status || d.status == Failed || d == c.(status := Crashed))
  {
    hide Samples, SetEnd;
  }

  lemma CrashKeeps(c: Cue)
    requires Inv(c)
    ensures Inv(c.(status := Crashed))
  {
    hide Chain, AllTiled;
  }

  /** Once the file before is closed, the next one starts empty. */
  lemma LoadKeeps(c: Cue, track: bool)
    requires c.status == Going && !c.filefield && AllTiled(Close(c).closed) && Close(c).open == []
    ensures var d := Enter(Load(Close(c)), track); Inv(d) && !d.filefield && d.open == []
  {
    hide Chain, AllTiled, SetEnd;
  }

  lemma HandleKeeps(c: Cue, l: Line)
    requires Inv(c) && c.status == Going && !c.filefield && Handle(c, l).status != Failed
    ensures Inv(Handle(c, l))
  {
    hide Chain, AllTiled;
    if IsTrack(l) {
      var c1 := if c.origin.Some? && c.haveTrack && c.audio then Process(c, l.End?) else c;
      if c.origin.Some? && c.haveTrack && c.audio {
        ProcessKeeps(c, l.End?);
      }
      CloseKeeps(c1);
    }
  }

  lemma {:induction false} RunKeeps(c: Cue, lines: seq<Line>)
    requires Inv(c) && Run(c, lines).status != Failed
    ensures Inv(Run(c, lines))
    decreases |lines|
  {
    hide Inv, Step;
    if lines != [] && c.status == Going {
      if Step(c, lines[0]).status != Failed {
        StepKeeps(c, lines[0]);
        RunKeeps(Step(c, lines[0]), lines[1..]);
      }
    }
  }

  lemma {:induction false} RunEnds(c: Cue, lines: seq<Line>)
    requires c.status == Going
    ensures Run(c, lines + [End]).status != Going
    decreases |lines|
  {
    if lines == [] {
      assert lines + [End] == [End] && [End][1..] == [];
      assert Run(Step(c, End), []) == Step(c, End);
    } else {
      assert (lines + [End])[1..] == lines[1..] + [End];
      if Step(c, lines[0]).status == Going {
        RunEnds(Step(c, lines[0]), lines[1..]);
      }
    }
  }

  /** Every successful parse cuts each file into regions that follow one another without a gap
      before the next INDEX 01 and end with the file. */
  lemma ParseTiles(lines: seq<Line>, loads: seq<Option<File>>, embedded: bool)
    ensures var c := Parse(lines, loads, embedded);
      c.status == Failed || c.status == Crashed || (c.status == Done && c.open == [] && AllTiled(c.closed))
  {
    var c := Parse(lines, loads, embedded);
    if c.status != Failed {
      RunEnds(Init(loads), lines);
      RunKeeps(Init(loads), lines + [End]);
    }
  }

  // ----- what tiling means -----------------------------------------------------------------

  predicate Covers(r: Region, s: int) {
    r.start <= s <= r.end
  }

  lemma {:induction false} IndexesRise(r: seq<Region>, f: File, i: nat, j: nat)
    requires Chain(r, f) && i <= j < |r|
    ensures r[i].index <= r[j].index && (i < j ==> r[i].end < r[j].index < f.numsamples)
    decreases j - i
  {
    if i < j {
      IndexesRise(r, f, i, j - 1);
      assert r[j - 1].end + 1 == r[j].index;
    }
  }

  /** Without PREGAP every sample from the first track on to the end of the file is in exactly one
      region, and no other sample is in any. */
  lemma TilesCover(g: Group, s: int)
    requires Tiled(g) && g.file.start >= 0
    requires forall i :: 0 <= i < |g.regions| ==> g.regions[i].start == g.regions[i].index
    ensures g.regions[0].start <= s <= g.file.Last() <==> exists i :: 0 <= i < |g.regions| && Covers(g.regions[i], s)
    ensures forall i, j :: 0 <= i < j < |g.regions| ==> !(Covers(g.regions[i], s) && Covers(g.regions[j], s))
  {
    var r, f := g.regions, g.file;
    forall i, j | 0 <= i < j < |r|
      ensures r[i].end < r[j].index
    {
      IndexesRise(r, f, i, j);
    }
    forall i | 0 <= i < |r|
      ensures r[0].index <= r[i].index && r[i].end <= f.Last()
    {
      IndexesRise(r, f, 0, i);
      IndexesRise(r, f, i, |r| - 1);
    }
    if r[0].start <= s <= f.Last() {
      var i := Holder(r, f, s, |r| - 1);
      assert Covers(r[i], s);
    }
  }

  lemma {:induction false} Holder(r: seq<Region>, f: File, s: int, n: nat) returns (i: nat)
    requires Chain(r, f) && n < |r| && r[0].index <= s <= r[n].end
    ensures i <= n && r[i].index <= s <= r[i].end
    decreases n
  {
    if r[n].index <= s {
      i := n;
    } else {
      i := Holder(r, f, s, n - 1);
    }
  }

  /** A track ends no earlier than just before its start. */
  predicate LengthOk(r: Region) {
    r.start <= r.end + 1
  }

  /** In any successful parse without PREGAP only a lone track of a file can have a wrong length. */
  lemma OnlyLoneTracks(g: Group)
    requires Tiled(g) && g.file.start >= 0 && AtIndex(g.regions) && |g.regions| > 1
    ensures forall i :: 0 <= i < |g.regions| ==> LengthOk(g.regions[i])
  {
    var r := g.regions;
    forall i | 0 <= i < |r| ensures LengthOk(r[i]) {
      if i + 1 < |r| {
        assert r[i].end + 1 == r[i + 1].index;
      } else {
        IndexesRise(r, g.file, 0, i);
      }
    }
  }

  /** No PREGAP so far: every region starts at its index; and all files start at a sample. */
  ghost predicate Plain(c: Cue) {
    && c.pregap == 0.0
    && (forall i :: 0 <= i < |c.loads| ==> c.loads[i].Some? ==> c.loads[i].value.start >= 0)
    && (c.origin.Some? ==> c.origin.value.start >= 0)
    && AtIndex(c.open)
    && (forall i :: 0 <= i < |c.closed| ==> c.closed[i].file.start >= 0 && AtIndex(c.closed[i].regions))
  }

  ghost predicate AtIndex(r: seq<Region>) {
    forall i :: 0 <= i < |r| ==> r[i].start == r[i].index
  }

  lemma ProcessPlain(c: Cue, last: bool)
    requires Plain(c)
    ensures Plain(Process(c, last))
  {
    assert c.origin.Some? ==> c.pregap * c.origin.value.samplerate as real == 0.0;
  }

  lemma ClosePlain(c: Cue)
    requires Plain(c)
    ensures Plain(Close(c))
  {
  }

  lemma StepPlain(c: Cue, l: Line)
    requires Plain(c) && !l.Pregap?
    ensures Plain(Step(c, l))
  {
    var d := c.(filefield := false);
    if c.filefield && !l.CueFile? {
      SwitchPlain(d, l);
      HandlePlain(Switch(d, l), l);
    }
    HandlePlain(c, l);
  }

  lemma LoadPlain(c: Cue)
    requires Plain(c)
    ensures Plain(Load(c))
  {
    hide AtIndex;
  }

  lemma SamePlain(c: Cue, d: Cue)
    requires Plain(c) && (d.pregap == c.pregap || d.pregap == 0.0) && d.loads == c.loads && d.origin == c.origin
    requires d.open == c.open && d.closed == c.closed
    ensures Plain(d)
  {
  }

  lemma SwitchPlain(c: Cue, l: Line)
    requires Plain(c)
    ensures Plain(Switch(c, l))
  {
    hide Plain, Process, Close, Load, Enter;
    var c1 := if IsTrack(l) && c.audio then Process(c, l.End?) else c;
    ProcessPlain(c, l.End?);
    ClosePlain(c1);
    LoadPlain(Close(c1));
    EnterPlain(Load(Close(c1)), IsTrack(l));
  }

  lemma EnterPlain(c: Cue, track: bool)
    requires Plain(c)
    ensures Plain(Enter(c, track))
  {
    hide AtIndex;
  }

  lemma HandlePlain(c: Cue, l: Line)
    requires Plain(c) && !l.Pregap?
    ensures Plain(Handle(c, l))
  {
    hide Plain, Process, Close, Load;
    var c1 := if c.origin.Some? && c.haveTrack && c.audio then Process(c, l.End?) else c;
    ProcessPlain(c, l.End?);
    ClosePlain(c1);
    LoadPlain(c);
    if l.End? {
      SamePlain(Close(c1), Close(c1).(status := Done));
    } else if l.TrackLine? {
      SamePlain(c1, c1.(pregap := 0.0, audio := l.audio, haveTrack := true));
    } else if !l.FileLine? {
      SamePlain(c, Handle(c, l));
    } else {
      SamePlain(c, c.(filefield := true));
    }
  }

  lemma {:induction false} RunPlain(c: Cue, lines: seq<Line>)
    requires Plain(c) && forall i :: 0 <= i < |lines| ==> !lines[i].Pregap?
    ensures Plain(Run(c, lines))
    decreases |lines|
  {
    hide Plain, Step;
    if lines != [] && c.status == Going {
      StepPlain(c, lines[0]);
      RunPlain(Step(c, lines[0]), lines[1..]);
    }
  }

  /** A successful parse of a sheet without PREGAP cuts each file into regions that cover every
      sample from its first track to its end once, and nothing else. */
  lemma ParseCovers(lines: seq<Line>, loads: seq<Option<File>>, embedded: bool, g: nat, s: int)
    requires Parse(lines, loads, embedded).status == Done && g < |Parse(lines, loads, embedded).closed|
    requires forall i :: 0 <= i < |lines| ==> !lines[i].Pregap?
    requires forall i :: 0 <= i < |loads| ==> loads[i].Some? ==> loads[i].value.start >= 0
    ensures var group := Parse(lines, loads, embedded).closed[g]; var r := group.regions;
      && r != []
      && (r[0].start <= s <= group.file.Last() <==> exists i :: 0 <= i < |r| && Covers(r[i], s))
      && (forall i, j :: 0 <= i < j < |r| ==> !(Covers(r[i], s) && Covers(r[j], s)))
  {
    ParseTiles(lines, loads, embedded);
    RunPlain(Init(loads), lines + [End]);
    TilesCover(Parse(lines, loads, embedded).closed[g], s);
  }

  lemma ZeroPregap(f: File)
    ensures Samples(0.0, f.samplerate) == 0
  {
    assert 0.0 * f.samplerate as real == 0.0;
  }

  lemma {:induction false} RunConcat(c: Cue, a: seq<Line>, b: seq<Line>)
    ensures Run(c, a + b) == Run(Run(c, a), b)
    decreases |a|
  {
    hide Step;
    if a == [] {
      assert a + b == b;
    } else if c.status == Going {
      assert (a + b)[1..] == a[1..] + b;
      RunConcat(Step(c, a[0]), a[1..], b);
    }
  }

  lemma ParseRuns(lines: seq<Line>, loads: seq<Option<File>>, embedded: bool)
    requires Count(lines, FILES) > 0 && Count(lines, TRACKS) > 0 && (embedded ==> Count(lines, FILES) == 1)
    ensures Parse(lines, loads, embedded) == Run(Init(loads), lines + [End])
  {
  }

  lemma {:induction false} CountConcat(a: seq<Line>, b: seq<Line>, p: Line -> bool)
    ensures Count(a + b, p) == Count(a, p) + Count(b, p)
  {
    if a == [] {
      assert a + b == b;
    } else {
      assert (a + b)[1..] == a[1..] + b;
      CountConcat(a[1..], b, p);
    }
  }

  // ----- the null pointer ------------------------------------------------------------------

  /** Up to the first FILE there is an audio TRACK without INDEX 01, and a TRACK or the end follows FILE. */
  predicate TrackFileTrack(lines: seq<Line>, haveTrack: bool, audio: bool) {
    lines != [] &&
    match lines[0]
    case FileLine => haveTrack && audio && (|lines| == 1 || IsTrack(lines[1]))
    case TrackLine(a) => TrackFileTrack(lines[1..], true, a)
    case Pregap(_) => TrackFileTrack(lines[1..], haveTrack, audio)
    case Other => TrackFileTrack(lines[1..], haveTrack, audio)
    case _ => false
  }

  lemma ProcessFile(c: Cue, last: bool)
    requires c.status == Going
    ensures c.origin.Some? ==> Process(c, last).status != Crashed && Process(c, last).origin.Some?
    ensures c.origin.None? ==> Process(c, last).status == Crashed
  {
    hide Samples, SetEnd;
  }

  lemma LoadedFile(c: Cue, track: bool)
    requires c.status == Going
    ensures var d := Enter(Load(Close(c)), track); d.status != Crashed && (d.status == Going ==> d.origin.Some?)
  {
    hide SetEnd;
  }

  lemma SwitchHasFile(c: Cue, l: Line)
    requires c.status == Going
    ensures var d := Switch(c, l); d.status == Going ==> d.origin.Some?
    ensures Switch(c, l).status == Crashed <==> c.origin.None? && IsTrack(l) && c.audio
  {
    ProcessFile(c, l.End?);
    LoadedFile(c, IsTrack(l));
    if IsTrack(l) && c.audio && Process(c, l.End?).status == Going {
      LoadedFile(Process(c, l.End?), IsTrack(l));
    }
    hide Process, Load, Close, Enter;
  }

  lemma HandleHasFile(c: Cue, l: Line)
    requires c.status == Going && c.origin.Some?
    ensures Handle(c, l).status != Crashed && (Handle(c, l).status == Going ==> Handle(c, l).origin.Some?)
  {
    ProcessFile(c, false);
    ProcessFile(c, true);
    hide Process, Samples, SetEnd;
  }

  lemma StepHasFile(c: Cue, l: Line)
    requires c.status == Going && c.origin.Some?
    ensures Step(c, l).status != Crashed && (Step(c, l).status == Going ==> Step(c, l).origin.Some?)
  {
    hide Switch, Handle;
    var d := c.(filefield := false);
    SwitchHasFile(d, l);
    HandleHasFile(c, l);
    if Switch(d, l).status == Going {
      HandleHasFile(Switch(d, l), l);
    }
  }

  /** Once a file is open there is always one. */
  lemma {:induction false} RunHasFile(c: Cue, lines: seq<Line>)
    requires c.status != Crashed && (c.status == Going ==> c.origin.Some?)
    ensures Run(c, lines).status != Crashed
    decreases |lines|
  {
    hide Step;
    if lines != [] && c.status == Going {
      StepHasFile(c, lines[0]);
      RunHasFile(Step(c, lines[0]), lines[1..]);
    }
  }

  lemma AfterFile(c: Cue, l: Line)
    requires c.status == Going && c.origin.None? && c.filefield && c.haveTrack
    ensures Step(c, l).status == Crashed <==> IsTrack(l) && c.audio
    ensures Step(c, l).status == Going ==> Step(c, l).origin.Some?
  {
    var d := c.(filefield := false);
    if l.CueFile? {
      assert Handle(c, l).status == Failed;
    } else {
      hide Switch, Handle;
      SwitchHasFile(d, l);
      if Switch(d, l).status == Going {
        HandleHasFile(Switch(d, l), l);
      }
    }
  }

  lemma BeforeFile(c: Cue, l: Line)
    requires c.status == Going && c.origin.None? && !c.filefield
    ensures Step(c, l).status != Crashed
    ensures var d := Step(c, l); d.status == Going && d.origin.None? ==>
      && (l.FileLine? ==> c.haveTrack && d.filefield && d.haveTrack && d.audio == c.audio)
      && (!l.FileLine? ==> !d.filefield)
      && match l {
           case TrackLine(a) => d.haveTrack && d.audio == a
           case _ => d.haveTrack == c.haveTrack && d.audio == c.audio
         }
    ensures var waits := (l.FileLine? && c.haveTrack) || l.TrackLine? || l.Pregap? || l.Other?; var d := Step(c, l);
      if waits then d.status == Going && d.origin.None? else d.status == Going ==> d.origin.Some?
  {
    hide Samples, SetEnd;
  }

  lemma {:induction false} RunCrashes(c: Cue, lines: seq<Line>)
    requires c.status == Going && c.origin.None? && !c.filefield && forall i :: 0 <= i < |lines| ==> !lines[i].End?
    ensures Run(c, lines + [End]).status == Crashed <==> TrackFileTrack(lines, c.haveTrack, c.audio)
    decreases |lines|
  {
    var l, rest := (lines + [End])[0], (lines + [End])[1..];
    BeforeFile(c, l);
    var d := Step(c, l);
    assert Run(c, lines + [End]) == Run(d, rest);
    hide Step, Run;
    if d.status != Going || d.origin.Some? {
      RunHasFile(d, rest);
    } else {
      assert rest == lines[1..] + [End];
      if l.FileLine? {
        AfterFile(d, rest[0]);
        RunOnce(d, rest);
        if Step(d, rest[0]).status != Crashed {
          RunHasFile(Step(d, rest[0]), rest[1..]);
        }
      } else {
        RunCrashes(d, lines[1..]);
      }
    }
  }

  lemma RunOnce(c: Cue, lines: seq<Line>)
    requires c.status == Going && lines != []
    ensures Run(c, lines) == Run(Step(c, lines[0]), lines[1..])
    ensures Step(c, lines[0]).status == Crashed ==> Run(c, lines).status == Crashed
  {
  }

  /** The parser follows a null pointer exactly for sheets of that kind. */
  lemma NullFile(lines: seq<Line>, loads: seq<Option<File>>, embedded: bool)
    requires forall i :: 0 <= i < |lines| ==> !lines[i].End?
    ensures Parse(lines, loads, embedded).status == Crashed <==>
      TrackFileTrack(lines, false, false) && !(embedded && Count(lines, FILES) > 1)
  {
    RunCrashes(Init(loads), lines);
    if TrackFileTrack(lines, false, false) {
      Counted(lines, false, false);
    }
    hide Run, TrackFileTrack, Count;
  }

  lemma {:induction false} Counted(lines: seq<Line>, haveTrack: bool, audio: bool)
    requires TrackFileTrack(lines, haveTrack, audio)
    ensures Count(lines, FILES) > 0 && (Count(lines, TRACKS) > 0 || haveTrack)
  {
    match lines[0] {
      case TrackLine(a) => Counted(lines[1..], true, a);
      case Pregap(_) => Counted(lines[1..], haveTrack, audio);
      case Other => Counted(lines[1..], haveTrack, audio);
      case _ =>
    }
  }

  /** The smallest such sheet with two TRACK lines. */
  lemma NullSheet(loads: seq<Option<File>>)
    ensures Parse([TrackLine(true), FileLine, TrackLine(true)], loads, false).status == Crashed
  {
    var lines := [TrackLine(true), FileLine, TrackLine(true)];
    assert lines[1..] == [FileLine, TrackLine(true)];
    NullFile(lines, loads, false);
    hide Parse;
  }
}
