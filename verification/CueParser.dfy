/** The cuesheet parser of src/cueutil.c with its record of fields, line by line. */
module CueParser {
  import opened CueSpec

  const MAX_CUE_TRACKS := 99

  class CueTrack {
    const startsample: int
    var endsample: int
    const subtrack: bool
    /** Where INDEX 01 put the track, before PREGAP. */
    ghost const index: int

    constructor (ghost index: int, startsample: int, endsample: int, subtrack: bool)
      ensures this.index == index && this.startsample == startsample
      ensures this.endsample == endsample && this.subtrack == subtrack
    {
      this.index, this.startsample, this.endsample, this.subtrack := index, startsample, endsample, subtrack;
    }

    ghost function Cut(): Region
      reads this
    {
      Region(index, startsample, endsample, subtrack)
    }
  }

  function Flatten(groups: seq<Group>): seq<Region> {
    if groups == [] then [] else Flatten(groups[..|groups| - 1]) + groups[|groups| - 1].regions
  }

  function Tally(n: nat, more: bool): nat {
    if more then n + 1 else n
  }

  class Parser {
    var currsample: int
    var prev: CueTrack?
    var haveTrack: bool
    /** Whether the value of the last TRACK field ends in " AUDIO". */
    var audio: bool
    /** The value of the last PREGAP field, 0.0 when there is none. */
    var pregap: real
    var origin: Option<File>
    var firstTrack: bool
    var filefield: bool
    var lastRound: bool
    /** What the coming calls of _load_nextfile find. */
    var loads: seq<Option<File>>
    const cuetracks: array<CueTrack?>
    var ntracks: nat
    /** The tracks of the files before, and those of the current one. */
    ghost var before: seq<Region>
    ghost var open: seq<Region>
    ghost var closed: seq<Group>
    ghost var repr: set<CueTrack>

    ghost predicate Valid()
      reads `prev, `ntracks, `before, `open, `closed, `repr, cuetracks, repr
    {
      && cuetracks.Length == MAX_CUE_TRACKS && ntracks == |before| + |open| <= MAX_CUE_TRACKS
      && (forall i :: 0 <= i < ntracks ==> cuetracks[i] in repr)
      && (forall i :: 0 <= i < |before| ==> cuetracks[i].Cut() == before[i])
      && (forall i :: |before| <= i < ntracks ==> cuetracks[i].Cut() == open[i - |before|])
      && (prev != null <==> open != [])
      && (prev != null ==> prev == cuetracks[ntracks - 1] && forall i :: 0 <= i < ntracks - 1 ==> cuetracks[i] != prev)
      && before == Flatten(closed)
    }

    /** The parser as a state of the machine. */
    ghost function Abs(): Cue
      reads this
    {
      Cue(Going, currsample, haveTrack, audio, pregap, origin, firstTrack, filefield, loads, closed, open)
    }

    constructor (loads: seq<Option<File>>)
      ensures Valid() && Abs() == Init(loads) && fresh(cuetracks) && repr == {} && ntracks == 0 && !lastRound
    {
      currsample, prev, haveTrack, audio, pregap := 0, null, false, false, 0.0;
      origin, firstTrack, filefield, lastRound := None, false, false, false;
      this.loads := loads;
      cuetracks := new CueTrack?[MAX_CUE_TRACKS](_ => null);
      ntracks, before, open, closed, repr := 0, [], [], [], {};
    }

    method SetPrevEnd(end: int)
      requires Valid() && prev != null
      modifies this`open, prev`endsample
      ensures Valid() && open == SetEnd(old(open), end) && prev.endsample == end
    {
      hide Flatten;
      prev.endsample := end;
      open := SetEnd(open, end);
    }

    lemma PrevIsLast()
      requires Valid()
      ensures (prev != null <==> open != []) && (prev != null ==> prev in repr)
    {
    }

    /** A new track at the end of the table. */
    method AddTrack(ghost index: int, start: int, end: int, subtrack: bool)
      requires Valid() && ntracks < MAX_CUE_TRACKS
      modifies this`prev, this`ntracks, this`open, this`repr, cuetracks
      ensures Valid() && open == old(open) + [Region(index, start, end, subtrack)] && ntracks == old(ntracks) + 1
      ensures prev != null && fresh(prev) && prev.startsample == start && repr == old(repr) + {prev}
    {
      hide Flatten;
      var it := new CueTrack(index, start, end, subtrack);
      cuetracks[ntracks] := it;
      ntracks := ntracks + 1;
      prev := it;
      open := open + [Region(index, start, end, subtrack)];
      repr := repr + {it};
    }

    /** The tracks of the current file are complete. */
    method ForgetPrev()
      requires Valid() && (prev != null ==> origin.Some?)
      modifies this`prev, this`before, this`open, this`closed
      ensures Valid() && prev == null && open == []
      ensures closed == if old(open) == [] then old(closed) else old(closed) + [Group(origin.value, old(open))]
    {
      if prev != null {
        FlattenGrow(closed, Group(origin.value, open));
        hide Flatten;
        closed := closed + [Group(origin.value, open)];
        before, open := before + open, [];
        prev := null;
      }
    }

    /** _set_last_item_region, for `prev`; the code looks at the result only on the last round. */
    method SetLastItemRegion() returns (ok: bool)
      requires Valid() && prev != null && origin.Some?
      modifies this`open, prev`endsample
      ensures Valid() && open == SetEnd(old(open), origin.value.Last())
      ensures ok <==> prev.startsample - origin.value.start < origin.value.numsamples
    {
      var f := origin.value;
      SetPrevEnd(f.start + f.numsamples - 1);
      return prev.endsample - f.start < f.numsamples && prev.startsample - f.start < f.numsamples;
    }

    /** plt_process_cue_track */
    method ProcessCueTrack() returns (ok: bool)
      requires Valid() && ntracks < MAX_CUE_TRACKS && origin.Some?
      modifies this`prev, this`ntracks, this`open, this`repr, this`firstTrack, cuetracks, repr
      ensures Valid() && ntracks <= old(ntracks) + 1 && fresh(repr - old(repr))
      ensures ok <==> Process(old(Abs()), lastRound).status == Going
      ensures ok ==> open == Process(old(Abs()), lastRound).open && !firstTrack && prev != null
    {
      hide Valid, Process, Samples, SetEnd;
      ghost var c := Abs();
      ProcessIs(c, lastRound);
      PrevIsLast();
      var f := origin.value;
      if prev != null {
        if currsample >= f.numsamples {
          return false;
        }
        SetPrevEnd(currsample - 1);
      }
      ghost var cut := open;
      AddTrack(currsample, currsample + Samples(pregap, f.samplerate), -1, !firstTrack);
      if lastRound {
        EndOfNew(cut, open[|open| - 1], f.Last());
        ok := SetLastItemRegion();
        if !ok {
          return;
        }
      }
      firstTrack := false;
      ok := true;
    }

    /** _load_nextfile */
    method LoadNextFile() returns (ok: bool)
      requires Valid()
      modifies this`origin, this`loads, this`firstTrack
      ensures Valid() && Abs().(status := if ok then Going else Done) == Load(old(Abs()))
      ensures ok ==> origin.Some?
    {
      hide Valid;
      origin := None;
      if loads != [] {
        origin, loads := loads[0], loads[1..];
      }
      if origin.None? {
        return false;
      }
      firstTrack := true;
      return true;
    }

    /** What ProcessCueTrack does to the whole state. */
    method CutTrack() returns (ok: bool)
      requires Valid() && ntracks < MAX_CUE_TRACKS && origin.Some?
      modifies this`prev, this`ntracks, this`open, this`repr, this`firstTrack, cuetracks, repr
      ensures Valid() && ntracks <= old(ntracks) + 1 && fresh(repr - old(repr))
      ensures Process(old(Abs()), lastRound).status == if ok then Going else Failed
      ensures ok ==> Abs() == Process(old(Abs()), lastRound) && origin.Some?
    {
      hide Valid, Process;
      ghost var c := Abs();
      ProcessIs(c, lastRound);
      ok := ProcessCueTrack();
      if ok {
        ProcessKeepsRest(c, lastRound);
      }
    }

    method CutIf(pending: bool) returns (ok: bool)
      requires Valid() && (pending ==> ntracks < MAX_CUE_TRACKS && origin.Some?) && (open != [] ==> origin.Some?)
      modifies this`prev, this`ntracks, this`open, this`repr, this`firstTrack, cuetracks, repr
      ensures Valid() && ntracks <= old(ntracks) + (if pending then 1 else 0) && fresh(repr - old(repr))
      ensures pending ==> Process(old(Abs()), lastRound).status == if ok then Going else Failed
      ensures ok ==> (open != [] ==> origin.Some?)
      ensures ok ==> Abs() == if pending then Process(old(Abs()), lastRound) else old(Abs())
      ensures !pending ==> ok && ntracks == old(ntracks)
    {
      hide Valid, Process, Abs;
      ok := true;
      if pending {
        ok := CutTrack();
      }
    }

    method CloseFile()
      requires Valid() && (open != [] ==> origin.Some?)
      modifies this`prev, this`before, this`open, this`closed, repr
      ensures Valid() && Abs() == Close(old(Abs()))
    {
      hide Valid;
      PrevIsLast();
      if prev != null {
        ghost var ok := SetLastItemRegion();
        ForgetPrev();
      }
    }

    /** The rest of the line after FILE: the file that was open is complete, the next one is loaded. */
    method NextFile(track: bool) returns (s: Status)
      requires Valid() && (open != [] ==> origin.Some?)
      modifies this`prev, this`before, this`open, this`closed, repr
      modifies this`firstTrack, this`origin, this`loads, this`haveTrack, this`currsample
      ensures Valid() && Abs().(status := s) == Enter(Load(Close(old(Abs()))), track)
      ensures s == Enter(Load(Close(old(Abs()))), track).status && (s == Going || s == Done)
      ensures (haveTrack ==> old(haveTrack)) && (s == Going && track ==> !haveTrack)
    {
      hide Valid, Close, Load, Abs;
      CloseFile();
      var loaded := LoadNextFile();
      Fields();
      if !loaded {
        return Done;
      }
      EnterFile(track);
      Fields();
      return Going;
    }

    /** The line after FILE. */
    method SwitchFile(line: Line) returns (s: Status)
      requires Valid() && ntracks < MAX_CUE_TRACKS && lastRound == line.End? && (open != [] ==> origin.Some?)
      requires Switch(Abs(), line).status != Crashed
      modifies this`prev, this`ntracks, this`before, this`open, this`closed, this`repr, this`firstTrack, cuetracks, repr
      modifies this`origin, this`loads, this`haveTrack, this`currsample
      ensures Valid() && ntracks <= old(ntracks) + 1 && fresh(repr - old(repr))
      ensures s == Switch(old(Abs()), line).status
      ensures s != Failed ==> Abs().(status := s) == Switch(old(Abs()), line)
      ensures (haveTrack ==> old(haveTrack)) && (s == Going && IsTrack(line) ==> !haveTrack)
      ensures !IsTrack(line) ==> ntracks == old(ntracks)
    {
      hide Valid, Process, Close, Load, Abs, Switch, Enter;
      Fields();
      SwitchHasFile(Abs(), line);
      SwitchSteps(Abs(), line);
      var ok := CutIf(IsTrack(line) && audio);
      if !ok {
        return Failed;
      }
      s := NextFile(IsTrack(line));
    }

    method EnterFile(track: bool)
      requires Valid() && origin.Some?
      modifies this`haveTrack, this`currsample
      ensures Valid() && Abs() == Enter(old(Abs()), track) && haveTrack == (old(haveTrack) && !track)
    {
      hide Valid;
      if track {
        haveTrack := false;
      }
      currsample := origin.value.start;
    }

    lemma Fields()
      ensures Abs().audio == audio && Abs().status == Going && Abs().origin == origin
      ensures Abs().haveTrack == haveTrack && Abs().filefield == filefield && Abs().open == open
    {
    }

    /** The line itself. */
    method HandleField(line: Line) returns (s: Status)
      requires Valid() && lastRound == line.End? && (open != [] ==> origin.Some? && haveTrack)
      requires haveTrack ==> ntracks < MAX_CUE_TRACKS
      modifies this`prev, this`ntracks, this`before, this`open, this`closed, this`repr, this`firstTrack, cuetracks, repr
      modifies this`origin, this`loads, this`haveTrack, this`currsample, this`filefield, this`audio, this`pregap
      ensures Valid() && ntracks <= old(ntracks) + 1 && fresh(repr - old(repr))
      ensures s == Handle(old(Abs()), line).status && (s != Failed ==> Abs().(status := s) == Handle(old(Abs()), line))
      ensures ntracks == old(ntracks) || (IsTrack(line) && old(haveTrack))
      ensures s == Going ==> !line.End? && (haveTrack != old(haveTrack) ==> line.TrackLine?)
    {
      hide Valid, Process, Close, Load, Samples;
      match line {
        case Index01(time) =>
          if origin.None? {
            return Failed;
          }
          var val := origin.value.start + Samples(time, origin.value.samplerate);
          if val > currsample {
            currsample := val;
          }
        case FileLine =>
          if !haveTrack {
            var loaded := LoadNextFile();
            return if loaded then Going else Done;
          }
          filefield := true;
        case TrackLine(isAudio) =>
          s := HandleTrack(isAudio);
          return;
        case End =>
          s := HandleEnd();
          return;
        case CueFile =>
          return Failed;
        case Pregap(time) =>
          pregap := time;
        case Other =>
      }
      return Going;
    }

    method HandleTrack(isAudio: bool) returns (s: Status)
      requires Valid() && !lastRound && (open != [] ==> origin.Some? && haveTrack)
      requires haveTrack ==> ntracks < MAX_CUE_TRACKS
      modifies this`prev, this`ntracks, this`open, this`repr, this`firstTrack, cuetracks, repr
      modifies this`haveTrack, this`audio, this`pregap
      ensures Valid() && ntracks <= old(ntracks) + 1 && fresh(repr - old(repr))
      ensures ntracks == old(ntracks) || old(haveTrack)
      ensures s == Handle(old(Abs()), TrackLine(isAudio)).status && (s == Going || s == Failed)
      ensures s != Failed ==> Abs() == Handle(old(Abs()), TrackLine(isAudio))
    {
      hide Valid, Process;
      var ok := CutIf(origin.Some? && haveTrack && audio);
      if !ok {
        return Failed;
      }
      pregap, audio, haveTrack := 0.0, isAudio, true;
      return Going;
    }

    method HandleEnd() returns (s: Status)
      requires Valid() && lastRound && (open != [] ==> origin.Some? && haveTrack)
      requires haveTrack ==> ntracks < MAX_CUE_TRACKS
      modifies this`prev, this`ntracks, this`before, this`open, this`closed, this`repr, this`firstTrack, cuetracks, repr
      ensures Valid() && ntracks <= old(ntracks) + 1 && fresh(repr - old(repr))
        && (ntracks == old(ntracks) || haveTrack)
      ensures s != Going && s == Handle(old(Abs()), End).status
        && (s != Failed ==> Abs().(status := s) == Handle(old(Abs()), End))
    {
      hide Valid, Process, Close;
      var ok := CutIf(origin.Some? && haveTrack && audio);
      if !ok {
        return Failed;
      }
      CloseFile();
      return Done;
    }

    /** The part of a round that the line before, a FILE, is to blame for. */
    method FileEnded(line: Line) returns (s: Status)
      requires Valid() && ntracks < MAX_CUE_TRACKS && lastRound == line.End? && (open != [] ==> origin.Some?)
      requires Switch(Abs().(filefield := false), line).status != Crashed
      modifies this`prev, this`ntracks, this`before, this`open, this`closed, this`repr, this`firstTrack, cuetracks, repr
      modifies this`origin, this`loads, this`haveTrack, this`currsample, this`filefield
      ensures Valid() && ntracks <= old(ntracks) + 1 && fresh(repr - old(repr))
      ensures var d := Switch(old(Abs()).(filefield := false), line);
        s == d.status && (s != Failed ==> Abs().(status := s) == d)
      ensures (haveTrack ==> old(haveTrack)) && (s == Going && IsTrack(line) ==> !haveTrack)
      ensures !IsTrack(line) ==> ntracks == old(ntracks)
    {
      hide Valid, Switch, Abs;
      LeaveFilefield();
      s := SwitchFile(line);
    }

    /** One round of the main loop. */
    method Round(line: Line) returns (s: Status)
      requires Valid() && Inv(Abs()) && lastRound == line.End? && Step(Abs(), line).status != Crashed
      requires Tally(ntracks, haveTrack) + Tally(0, line.TrackLine?) <= MAX_CUE_TRACKS
      modifies this, cuetracks, repr
      ensures Valid() && fresh(repr - old(repr)) && lastRound == old(lastRound)
      ensures s == Step(old(Abs()), line).status && (s != Failed ==> Abs().(status := s) == Step(old(Abs()), line))
      ensures s == Going ==> Inv(Abs())
      ensures s == Going ==> Tally(ntracks, haveTrack) <= old(Tally(ntracks, haveTrack)) + Tally(0, line.TrackLine?)
    {
      hide Valid, Switch, Handle, Inv, Abs, Step;
      ghost var c := Abs();
      Fields();
      StepSafe(c, line);
      if filefield && !line.CueFile? {
        s := FileEnded(line);
        if s != Going {
          return;
        }
      }
      Fields();
      s := HandleField(line);
      Fields();
    }

    /** The loop over the lines and one round more; the record is not used after it. */
    method MainLoop(lines: seq<Line>) returns (s: Status)
      requires Valid() && Inv(Abs()) && !lastRound && forall i :: 0 <= i < |lines| ==> !lines[i].End?
      requires Tally(ntracks, haveTrack) + Count(lines, TRACKS) <= MAX_CUE_TRACKS
      requires Run(Abs(), lines + [End]).status != Crashed
      modifies this, cuetracks, repr
      ensures Valid() && s == Run(old(Abs()), lines + [End]).status
      ensures s != Failed ==> Abs().(status := s) == Run(old(Abs()), lines + [End])
    {
      hide Valid, Inv, Abs, Step;
      ghost var final := Run(Abs(), lines + [End]);
      s := Going;
      var p := lines;
      while s == Going
        invariant Valid() && fresh(repr - old(repr)) && forall i :: 0 <= i < |p| ==> !p[i].End?
        invariant s == Going ==> !lastRound && Inv(Abs()) && Run(Abs(), p + [End]) == final
        invariant s == Going ==> Tally(ntracks, haveTrack) + Count(p, TRACKS) <= MAX_CUE_TRACKS
        invariant s != Going ==> final.status == s && (s == Done ==> Abs().(status := s) == final)
        decreases |p|, s == Going
      {
        Fields();
        NextLine(Abs(), p);
        if p == [] {
          SetLastRound();
          s := Round(End);
        } else {
          s := Round(p[0]);
          p := p[1..];
        }
        Fields();
      }
    }

    /** The tracks in the order in which the caller inserts them. */
    method Tracks() returns (r: seq<CueTrack>)
      requires Valid() && open == []
      ensures |r| == |Flatten(closed)| && forall i :: 0 <= i < |r| ==> r[i].Cut() == Flatten(closed)[i]
    {
      r := [];
      for i := 0 to ntracks
        invariant |r| == i && forall k :: 0 <= k < i ==> r[k] == cuetracks[k]
      {
        r := r + [cuetracks[i]];
      }
    }

    method SetLastRound()
      requires Valid()
      modifies this`lastRound
      ensures Valid() && Abs() == old(Abs()) && lastRound
    {
      hide Valid;
      lastRound := true;
    }

    method LeaveFilefield()
      requires Valid()
      modifies this`filefield
      ensures Valid() && Abs() == old(Abs()).(filefield := false)
    {
      hide Valid;
      filefield := false;
    }
  }

  lemma NextLine(c: Cue, p: seq<Line>)
    requires c.status == Going
    ensures p == [] ==> Run(c, p + [End]) == Step(c, End) && Step(c, End).status != Going
    ensures p != [] ==> Run(c, p + [End]) == Run(Step(c, p[0]), p[1..] + [End])
    ensures p != [] ==> Count(p, TRACKS) == Tally(0, p[0].TrackLine?) + Count(p[1..], TRACKS)
    ensures p != [] ==> (Step(c, p[0]).status != Going ==> Run(Step(c, p[0]), p[1..] + [End]) == Step(c, p[0]))
  {
    if p == [] {
      assert p + [End] == [End] && [End][1..] == [];
      assert Run(Step(c, End), []) == Step(c, End);
      RunEnds(c, []);
    } else {
      assert (p + [End])[1..] == p[1..] + [End];
    }
  }

  lemma SwitchSteps(c: Cue, l: Line)
    requires c.status == Going
    ensures var c1 := if IsTrack(l) && c.audio then Process(c, l.End?) else c;
      Switch(c, l) == if c1.status != Going then c1 else Enter(Load(Close(c1)), IsTrack(l))
  {
    hide Process, Load, Close;
  }

  /** What the record looks like when a line is handled. */
  lemma StepSafe(c: Cue, l: Line)
    requires Inv(c) && c.status == Going
    ensures c.filefield ==> c.haveTrack
    ensures c.open != [] ==> c.origin.Some? && c.haveTrack
    ensures c.filefield ==>
      var d := Switch(c.(filefield := false), l);
      d.status == Going ==> d.open == []
    ensures Step(c, l).status == Going ==> Inv(Step(c, l))
    ensures Step(c, l) ==
      if c.filefield && !l.CueFile? then
        var d := Switch(c.(filefield := false), l);
        if d.status != Going then d else Handle(d, l)
      else Handle(c, l)
  {
    hide Chain, AllTiled, Switch, Handle;
    if Step(c, l).status != Failed {
      StepKeeps(c, l);
    }
    if c.filefield {
      var d := c.(filefield := false);
      if Switch(d, l).status == Going {
        SwitchKeeps(d, l);
      }
    }
  }

  lemma ProcessIs(c: Cue, last: bool)
    requires c.status == Going && c.origin.Some?
    ensures
      var f := c.origin.value;
      var start := c.currsample + Samples(c.pregap, f.samplerate);
      var cut := if c.open == [] then [] else SetEnd(c.open, c.currsample - 1);
      && (Process(c, last).status == Going <==>
            !(c.open != [] && c.currsample >= f.numsamples) && !(last && start - f.start >= f.numsamples))
      && (Process(c, last).status == Going || Process(c, last).status == Failed)
      && (Process(c, last).status == Going ==>
            Process(c, last).open == cut + [Region(c.currsample, start, if last then f.Last() else -1, !c.firstTrack)])
  {
    hide Samples;
  }

  lemma ProcessKeepsRest(c: Cue, last: bool)
    requires c.status == Going && Process(c, last).status == Going
    ensures Process(c, last) == c.(open := Process(c, last).open, firstTrack := false)
  {
    hide Samples;
  }

  lemma EndOfNew(cut: seq<Region>, r: Region, end: int)
    ensures SetEnd(cut + [r], end) == cut + [r.(end := end)]
  {
  }

  lemma FlattenGrow(groups: seq<Group>, g: Group)
    ensures Flatten(groups + [g]) == Flatten(groups) + g.regions
  {
    assert (groups + [g])[..|groups|] == groups;
  }

  /** pl_cue_get_total_tracks_and_files */
  method TotalTracksAndFiles(lines: seq<Line>) returns (files: nat, tracks: nat)
    ensures files == Count(lines, FILES) && tracks == Count(lines, TRACKS)
  {
    files, tracks := 0, 0;
    var p := lines;
    while p != []
      invariant files + Count(p, FILES) == Count(lines, FILES)
      invariant tracks + Count(p, TRACKS) == Count(lines, TRACKS)
      decreases |p|
    {
      if p[0].FileLine? || p[0].CueFile? {
        files := files + 1;
      }
      if p[0].TrackLine? {
        tracks := tracks + 1;
      }
      p := p[1..];
    }
  }

  /** plt_load_cuesheet_from_buffer, up to the insertion of the tracks into the playlist. The table
      of tracks is never checked against its size, so the sheet must not have more TRACK lines. */
  method LoadCuesheet(lines: seq<Line>, loads: seq<Option<File>>, embedded: bool)
    returns (result: Option<seq<CueTrack>>)
    requires Count(lines, TRACKS) <= MAX_CUE_TRACKS && forall i :: 0 <= i < |lines| ==> !lines[i].End?
    requires Parse(lines, loads, embedded).status != Crashed
    ensures result.Some? <==> Parse(lines, loads, embedded).status == Done
    ensures result.Some? ==>
      var want := Flatten(Parse(lines, loads, embedded).closed);
      && |result.value| == |want|
      && forall i :: 0 <= i < |want| ==> result.value[i].Cut() == want[i]
  {
    var files, tracks := TotalTracksAndFiles(lines);
    if files == 0 || tracks == 0 || (files > 1 && embedded) {
      return None;
    }
    ParseRuns(lines, loads, embedded);
    ParseTiles(lines, loads, embedded);
    InitOk(loads);
    hide Parse, Run, Inv;
    var cue := new Parser(loads);
    var s := cue.MainLoop(lines);
    if s == Failed {
      return None;
    }
    var r := cue.Tracks();
    return Some(r);
  }

  lemma InitOk(loads: seq<Option<File>>)
    ensures Inv(Init(loads))
  {
  }
}
