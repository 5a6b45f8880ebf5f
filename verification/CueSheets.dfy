/** Cuesheets written for given files and tracks: what the parser of CueSpec makes of them, and for which of
    them every track gets a right length. */
module CueSheets {
  import opened CueSpec

  /** One TRACK: whether it is an audio track, its PREGAP, if any, and its INDEX 01, in seconds. */
  datatype Cut = Cut(audio: bool, time: real, pregap: Option<real>)

  /** One FILE and its tracks; `between` says whether FILE stands between the TRACK and the INDEX of the
      first track, or before both. */
  datatype Part = Part(file: File, cuts: seq<Cut>, between: bool)

  // ----- the lines -------------------------------------------------------------------------

  function CutLines(cut: Cut): seq<Line> {
    (if cut.pregap.Some? then [Pregap(cut.pregap.value)] else []) + [Index01(cut.time)]
  }

  function TrackLines(cuts: seq<Cut>): seq<Line> {
    if cuts == [] then [] else [TrackLine(cuts[0].audio)] + CutLines(cuts[0]) + TrackLines(cuts[1..])
  }

  function Opening(p: Part): seq<Line>
    requires p.cuts != []
  {
    var track := TrackLine(p.cuts[0].audio);
    if p.between then [track, FileLine] else [FileLine, track]
  }

  function PartLines(p: Part): seq<Line>
    requires p.cuts != []
  {
    Opening(p) + CutLines(p.cuts[0]) + TrackLines(p.cuts[1..])
  }

  predicate HaveCuts(parts: seq<Part>) {
    forall i :: 0 <= i < |parts| ==> parts[i].cuts != []
  }

  function SheetLines(parts: seq<Part>): seq<Line>
    requires HaveCuts(parts)
  {
    if parts == [] then [] else PartLines(parts[0]) + SheetLines(parts[1..])
  }

  function Loads(parts: seq<Part>): seq<Option<File>> {
    seq(|parts|, i requires 0 <= i < |parts| => Some(parts[i].file))
  }

  // ----- what they ask for -----------------------------------------------------------------

  /** The index of track n (counted from 1) in samples: never before that of the track before, nor before
      `base`. */
  function Place(f: File, cuts: seq<Cut>, base: int, n: nat): (p: int)
    requires n <= |cuts|
  {
    if n == 0 then base
    else
      var before, here := Place(f, cuts, base, n - 1), f.start + Samples(cuts[n - 1].time, f.samplerate);
      if here > before then here else before
  }

  /** The PREGAP of a track in samples. */
  function Gap(f: File, cut: Cut): int {
    if cut.pregap.Some? then Samples(cut.pregap.value, f.samplerate) else 0
  }

  /** Which of the first n tracks are audio tracks, counted from 0. */
  function AudioTracks(cuts: seq<Cut>, n: nat): (r: seq<nat>)
    requires n <= |cuts|
    ensures forall j :: 0 <= j < |r| ==> r[j] < n && cuts[r[j]].audio
  {
    if n == 0 then []
    else if cuts[n - 1].audio then AudioTracks(cuts, n - 1) + [n - 1]
    else AudioTracks(cuts, n - 1)
  }

  /** The region of the j-th of these audio tracks: up to the index of the next, or up to `end`. */
  function RegionOf(f: File, cuts: seq<Cut>, base: int, a: seq<nat>, j: nat, end: int): Region
    requires j < |a| && forall k :: 0 <= k < |a| ==> a[k] < |cuts|
  {
    var at := Place(f, cuts, base, a[j] + 1);
    Region(at, at + Gap(f, cuts[a[j]]), if j + 1 < |a| then Place(f, cuts, base, a[j + 1] + 1) - 1 else end, j > 0)
  }

  /** The audio tracks among the first n, the last of them up to `end`. */
  function Regions(f: File, cuts: seq<Cut>, base: int, n: nat, end: int): (r: seq<Region>)
    requires n <= |cuts|
    ensures |r| == |AudioTracks(cuts, n)|
  {
    var a := AudioTracks(cuts, n);
    seq(|a|, j requires 0 <= j < |a| => RegionOf(f, cuts, base, a, j, end))
  }

  /** Where the first track of a part can start: a sheet that begins with FILE starts counting at zero. */
  function Base(p: Part, first: bool): int {
    if first && !p.between then 0 else p.file.start
  }

  /** The tracks of one file, if it has any audio tracks. */
  function GroupOf(p: Part, base: int): seq<Group> {
    var r := Regions(p.file, p.cuts, base, |p.cuts|, p.file.Last());
    if r == [] then [] else [Group(p.file, r)]
  }

  function Wanted(p: Part, first: bool): seq<Group> {
    GroupOf(p, Base(p, first))
  }

  function AllWanted(parts: seq<Part>, first: bool): seq<Group> {
    if parts == [] then [] else Wanted(parts[0], first) + AllWanted(parts[1..], false)
  }

  /** An audio track that is not the first of its file begins inside the file. */
  predicate BeginsInside(p: Part, base: int, i: nat)
    requires i < |p.cuts|
  {
    p.cuts[i].audio && AudioTracks(p.cuts, i) != [] ==> Place(p.file, p.cuts, base, i + 1) < p.file.numsamples
  }

  predicate InsideFile(p: Part, first: bool) {
    forall i :: 0 <= i < |p.cuts| ==> BeginsInside(p, Base(p, first), i)
  }

  /** If the last track of the sheet is an audio track, it starts inside its file after its PREGAP. */
  predicate EndsInside(p: Part, base: int) {
    p.cuts != [] && p.cuts[|p.cuts| - 1].audio ==>
      Place(p.file, p.cuts, base, |p.cuts|) + Gap(p.file, p.cuts[|p.cuts| - 1]) - p.file.start < p.file.numsamples
  }

  /** The sheets the parser takes. */
  predicate Accepted(parts: seq<Part>, first: bool)
    requires parts != []
  {
    && InsideFile(parts[0], first)
    && if |parts| == 1 then EndsInside(parts[0], Base(parts[0], first)) else Accepted(parts[1..], false)
  }

  // ----- reading a part --------------------------------------------------------------------

  /** TRACK number n + 1 has been read, but none of its lines. */
  ghost predicate Started(c: Cue, p: Part, base: int, n: nat, closed: seq<Group>, loads: seq<Option<File>>) {
    && n < |p.cuts| && c.status == Going && c.haveTrack && c.audio == p.cuts[n].audio && c.pregap == 0.0 && !c.filefield
    && c.origin == Some(p.file) && c.loads == loads && c.closed == closed
    && c.currsample == Place(p.file, p.cuts, base, n) && c.open == Regions(p.file, p.cuts, base, n, -1)
    && (c.firstTrack <==> AudioTracks(p.cuts, n) == [])
  }

  /** All lines of track number n have been read; it is still to be cut. */
  ghost predicate Reading(c: Cue, p: Part, base: int, n: nat, closed: seq<Group>, loads: seq<Option<File>>) {
    && 0 < n <= |p.cuts| && c.status == Going && c.haveTrack && c.audio == p.cuts[n - 1].audio && !c.filefield
    && c.pregap == (if p.cuts[n - 1].pregap.Some? then p.cuts[n - 1].pregap.value else 0.0)
    && c.origin == Some(p.file) && c.loads == loads && c.closed == closed
    && c.currsample == Place(p.file, p.cuts, base, n) && c.open == Regions(p.file, p.cuts, base, n - 1, -1)
    && (c.firstTrack <==> AudioTracks(p.cuts, n - 1) == [])
  }

  lemma OneLine(c: Cue, l: Line)
    requires c.status == Going
    ensures Run(c, [l]) == Step(c, l)
  {
    hide Step;
    var none: seq<Line> := [];
    assert [l][1..] == none && Run(Step(c, l), none) == Step(c, l);
  }

  lemma TwoLines(c: Cue, x: Line, y: Line)
    requires c.status == Going
    ensures Run(c, [x, y]) == if Step(c, x).status == Going then Step(Step(c, x), y) else Step(c, x)
  {
    hide Step;
    assert [x, y][1..] == [y];
    if Step(c, x).status == Going {
      OneLine(Step(c, x), y);
    }
  }

  lemma CutIsRead(c: Cue, p: Part, base: int, n: nat, closed: seq<Group>, loads: seq<Option<File>>)
    requires Started(c, p, base, n, closed, loads)
    ensures Reading(Run(c, CutLines(p.cuts[n])), p, base, n + 1, closed, loads)
  {
    var cut := p.cuts[n];
    hide Samples, Regions;
    if cut.pregap.Some? {
      assert CutLines(cut) == [Pregap(cut.pregap.value), Index01(cut.time)];
      TwoLines(c, Pregap(cut.pregap.value), Index01(cut.time));
    } else {
      assert CutLines(cut) == [Index01(cut.time)];
      OneLine(c, Index01(cut.time));
    }
  }

  lemma RegionAt(f: File, cuts: seq<Cut>, base: int, n: nat, end: int, j: nat)
    requires n <= |cuts| && j < |AudioTracks(cuts, n)|
    ensures Regions(f, cuts, base, n, end)[j] == RegionOf(f, cuts, base, AudioTracks(cuts, n), j, end)
  {
    hide RegionOf, AudioTracks;
  }

  lemma RegionNext(f: File, cuts: seq<Cut>, base: int, n: nat, end: int, j: nat)
    requires 0 < n <= |cuts| && cuts[n - 1].audio && j < |AudioTracks(cuts, n - 1)|
    ensures j < |AudioTracks(cuts, n)|
    ensures var k, r := |AudioTracks(cuts, n - 1)|, Regions(f, cuts, base, n - 1, -1)[j];
      Regions(f, cuts, base, n, end)[j] == if j == k - 1 then r.(end := Place(f, cuts, base, n) - 1) else r
  {
    var a := AudioTracks(cuts, n - 1);
    assert AudioTracks(cuts, n) == a + [n - 1];
    hide Regions, Place, Gap, AudioTracks;
    RegionAt(f, cuts, base, n, end, j);
    RegionAt(f, cuts, base, n - 1, -1, j);
  }

  lemma NewRegion(f: File, cuts: seq<Cut>, base: int, n: nat, end: int)
    requires 0 < n <= |cuts| && cuts[n - 1].audio
    ensures var k, r, at := |AudioTracks(cuts, n - 1)|, Regions(f, cuts, base, n, end), Place(f, cuts, base, n);
      |r| == k + 1 && r[k] == Region(at, at + Gap(f, cuts[n - 1]), end, k > 0)
  {
    var a := AudioTracks(cuts, n - 1);
    assert AudioTracks(cuts, n) == a + [n - 1];
    hide Regions, Place, Gap, AudioTracks;
    RegionAt(f, cuts, base, n, end, |a|);
  }

  /** One more audio track is cut. */
  lemma RegionsGrow(f: File, cuts: seq<Cut>, base: int, n: nat, end: int)
    requires 0 < n <= |cuts| && cuts[n - 1].audio
    ensures var r, at := Regions(f, cuts, base, n - 1, -1), Place(f, cuts, base, n);
      Regions(f, cuts, base, n, end) ==
        (if r == [] then [] else SetEnd(r, at - 1)) + [Region(at, at + Gap(f, cuts[n - 1]), end, r != [])]
  {
    hide Regions, Place, Gap, SetEnd, AudioTracks;
    var r, at, all := Regions(f, cuts, base, n - 1, -1), Place(f, cuts, base, n), Regions(f, cuts, base, n, end);
    NewRegion(f, cuts, base, n, end);
    forall i | 0 <= i < |r| ensures all[i] == SetEnd(r, at - 1)[i] {
      RegionNext(f, cuts, base, n, end, i);
      EndAt(r, at - 1, i);
    }
  }

  /** A data track changes nothing. */
  lemma RegionsStay(f: File, cuts: seq<Cut>, base: int, n: nat, end: int)
    requires 0 < n <= |cuts| && !cuts[n - 1].audio
    ensures Regions(f, cuts, base, n, end) == Regions(f, cuts, base, n - 1, end)
    ensures AudioTracks(cuts, n) == AudioTracks(cuts, n - 1)
  {
    hide RegionOf;
  }

  lemma EndAt(r: seq<Region>, end: int, i: nat)
    requires i < |r|
    ensures SetEnd(r, end)[i] == if i == |r| - 1 then r[i].(end := end) else r[i]
  {
  }

  /** What a TRACK line or the end does with the track before. */
  function CutIf(c: Cue, last: bool): Cue {
    if c.audio then Process(c, last) else c
  }

  /** Cutting track n: the checks of the code, and the tracks so far. */
  lemma CutNext(c: Cue, p: Part, base: int, n: nat, closed: seq<Group>, loads: seq<Option<File>>, last: bool)
    requires Reading(c, p, base, n, closed, loads)
    ensures var f, at, d, audio := p.file, Place(p.file, p.cuts, base, n), CutIf(c, last), p.cuts[n - 1].audio;
      if !BeginsInside(p, base, n - 1)
        || (last && audio && at + Gap(f, p.cuts[n - 1]) - f.start >= f.numsamples)
      then d.status == Failed
      else
        && d == c.(open := d.open, firstTrack := d.firstTrack)
        && d.open == Regions(f, p.cuts, base, n, if last && audio then f.Last() else -1)
        && (d.firstTrack <==> AudioTracks(p.cuts, n) == [])
  {
    hide Samples, Regions, Place, SetEnd;
    if p.cuts[n - 1].audio {
      RegionsGrow(p.file, p.cuts, base, n, if last then p.file.Last() else -1);
      ZeroPregap(p.file);
      assert Gap(p.file, p.cuts[n - 1]) == Samples(c.pregap, p.file.samplerate);
      assert |c.open| == |AudioTracks(p.cuts, n - 1)|;
    } else {
      RegionsStay(p.file, p.cuts, base, n, -1);
    }
  }

  lemma {:induction false} PlacesRise(f: File, cuts: seq<Cut>, base: int, n: nat, m: nat)
    requires n <= m <= |cuts|
    ensures base <= Place(f, cuts, base, n) <= Place(f, cuts, base, m)
    decreases m
  {
    hide Samples;
    if m > 0 {
      PlacesRise(f, cuts, base, if n < m then n else n - 1, m - 1);
    }
  }

  lemma NextTrack(c: Cue, p: Part, base: int, n: nat, closed: seq<Group>, loads: seq<Option<File>>)
    requires Reading(c, p, base, n, closed, loads) && n < |p.cuts|
    ensures var d := Step(c, TrackLine(p.cuts[n].audio));
      if BeginsInside(p, base, n - 1) then Started(d, p, base, n, closed, loads) else d.status == Failed
  {
    CutNext(c, p, base, n, closed, loads, false);
    hide Process, Regions, Place, Gap, BeginsInside, AudioTracks;
  }

  lemma {:induction false} Stopped(c: Cue, lines: seq<Line>)
    requires c.status != Going
    ensures Run(c, lines) == c
  {
  }

  lemma TrackLinesAre(c: Cue, cuts: seq<Cut>)
    requires c.status == Going && cuts != []
    ensures Run(c, TrackLines(cuts)) == 
      Run(Run(Step(c, TrackLine(cuts[0].audio)), CutLines(cuts[0])), TrackLines(cuts[1..]))
  {
    var a, b, d := [TrackLine(cuts[0].audio)], CutLines(cuts[0]), TrackLines(cuts[1..]);
    hide Step, CutLines;
    RunConcat(c, a + b, d);
    RunConcat(c, a, b);
    OneLine(c, TrackLine(cuts[0].audio));
  }

  /** Tracks number n + 1 to m begin inside the file where they must. */
  predicate AllBegin(p: Part, base: int, n: nat, m: nat)
    requires m <= |p.cuts|
  {
    forall i :: n <= i < m ==> BeginsInside(p, base, i)
  }

  /** From track n on to the last of the file: the parse fails as soon as one is cut that begins past the end. */
  lemma {:induction false} NextTracks(c: Cue, p: Part, base: int, n: nat, closed: seq<Group>, loads: seq<Option<File>>)
    requires Reading(c, p, base, n, closed, loads)
    ensures var d, k := Run(c, TrackLines(p.cuts[n..])), |p.cuts|;
      if AllBegin(p, base, n - 1, k - 1) then Reading(d, p, base, k, closed, loads) else d.status == Failed
    decreases |p.cuts| - n
  {
    var k := |p.cuts|;
    if n == k {
      NoTracks(c, p.cuts[n..]);
    } else {
      ReadingGoes(c, p, base, n, closed, loads);
      NextTrack(c, p, base, n, closed, loads);
      TrackLinesAre(c, p.cuts[n..]);
      assert p.cuts[n..][0] == p.cuts[n] && p.cuts[n..][1..] == p.cuts[n + 1..];
      hide Reading, Started, Step, Place, BeginsInside;
      var d := Step(c, TrackLine(p.cuts[n].audio));
      if !BeginsInside(p, base, n - 1) {
        Stopped(d, CutLines(p.cuts[n]));
        Stopped(d, TrackLines(p.cuts[n + 1..]));
      } else {
        CutIsRead(d, p, base, n, closed, loads);
        NextTracks(Run(d, CutLines(p.cuts[n])), p, base, n + 1, closed, loads);
      }
    }
  }

  lemma NoTracks(c: Cue, cuts: seq<Cut>)
    requires cuts == []
    ensures Run(c, TrackLines(cuts)) == c
  {
  }

  lemma ReadingGoes(c: Cue, p: Part, base: int, n: nat, closed: seq<Group>, loads: seq<Option<File>>)
    requires Reading(c, p, base, n, closed, loads)
    ensures c.status == Going && 0 < n <= |p.cuts| && c.origin == Some(p.file)
  {
  }

  // ----- from one file to the next ---------------------------------------------------------

  /** After FILE a line that is no TRACK first opens the new file. */
  function Entered(c: Cue): Cue {
    Enter(Load(Close(c.(filefield := false))), false)
  }

  lemma EnterStep(c: Cue, l: Line)
    requires c.status == Going && c.filefield && Entered(c).status == Going && !IsTrack(l) && !l.CueFile?
    ensures Step(c, l) == Step(Entered(c), l)
  {
    assert !Entered(c).filefield;
    hide Load, Close, Enter, Samples;
  }

  lemma EnterFirst(c: Cue, cut: Cut)
    requires c.status == Going && c.filefield && Entered(c).status == Going
    ensures Run(c, CutLines(cut)) == Run(Entered(c), CutLines(cut))
  {
    CutLinesStart(cut);
    EnterStep(c, CutLines(cut)[0]);
    hide CutLines, Step, Entered, IsTrack;
  }

  /** The state when FILE follows TRACK: the new file is not yet open. */
  ghost predicate Switching(c: Cue, p: Part, closed: seq<Group>, loads: seq<Option<File>>) {
    && p.cuts != [] && c.status == Going && c.haveTrack && c.audio == p.cuts[0].audio && c.pregap == 0.0 && c.filefield
    && Close(c).closed == closed && c.loads == [Some(p.file)] + loads
  }

  lemma SwitchedIs(c: Cue, p: Part, closed: seq<Group>, loads: seq<Option<File>>)
    requires Switching(c, p, closed, loads) && (c.open != [] ==> c.origin.Some?)
    ensures Reading(Run(c, CutLines(p.cuts[0])), p, p.file.start, 1, closed, loads)
  {
    var d := Entered(c);
    assert ([Some(p.file)] + loads)[1..] == loads;
    assert Regions(p.file, p.cuts, p.file.start, 0, -1) == [];
    assert Started(d, p, p.file.start, 0, closed, loads);
    EnterFirst(c, p.cuts[0]);
    CutIsRead(d, p, p.file.start, 0, closed, loads);
  }

  lemma FirstPart(p: Part, loads: seq<Option<File>>)
    requires p.cuts != []
    ensures var c := Run(Init([Some(p.file)] + loads), Opening(p) + CutLines(p.cuts[0]));
      Reading(c, p, Base(p, true), 1, [], loads)
  {
    var c := Init([Some(p.file)] + loads);
    assert c.loads[1..] == loads;
    RunConcat(c, Opening(p), CutLines(p.cuts[0]));
    if p.between {
      TwoLines(c, TrackLine(p.cuts[0].audio), FileLine);
      SwitchedIs(Run(c, Opening(p)), p, [], loads);
    } else {
      TwoLines(c, FileLine, TrackLine(p.cuts[0].audio));
      assert Regions(p.file, p.cuts, 0, 0, -1) == [];
      CutIsRead(Run(c, Opening(p)), p, 0, 0, [], loads);
    }
  }

  lemma LastEnds(f: File, cuts: seq<Cut>, base: int, n: nat, end: int)
    requires n <= |cuts| && AudioTracks(cuts, n) != []
    ensures SetEnd(Regions(f, cuts, base, n, -1), end) == Regions(f, cuts, base, n, end)
    ensures SetEnd(Regions(f, cuts, base, n, end), end) == Regions(f, cuts, base, n, end)
  {
    hide Place, Gap;
  }

  /** The tracks of a part are complete once its last one is cut, the last region ending with the file. */
  lemma Completed(c: Cue, p: Part, base: int, end: int)
    requires c.origin == Some(p.file) && c.open == Regions(p.file, p.cuts, base, |p.cuts|, end)
    requires end == -1 || end == p.file.Last()
    ensures Close(c).closed == c.closed + GroupOf(p, base) && Close(c).open == []
    ensures Close(c) == c.(closed := Close(c).closed, open := [])
  {
    if AudioTracks(p.cuts, |p.cuts|) != [] {
      LastEnds(p.file, p.cuts, base, |p.cuts|, p.file.Last());
    }
    hide SetEnd;
  }

  /** The tracks of a part that has been read, and the checks on the last of them when another FILE
      follows. */
  lemma NextPart(c: Cue, q: Part, base: int, closed: seq<Group>, p: Part, loads: seq<Option<File>>)
    requires Reading(c, q, base, |q.cuts|, closed, [Some(p.file)] + loads) && p.cuts != []
    ensures var d := Run(c, Opening(p) + CutLines(p.cuts[0]));
      if BeginsInside(q, base, |q.cuts| - 1) then Reading(d, p, p.file.start, 1, closed + GroupOf(q, base), loads)
      else d.status == Failed
  {
    RunConcat(c, Opening(p), CutLines(p.cuts[0]));
    hide Reading, BeginsInside, Opening;
    if p.between {
      TrackThenFile(c, q, base, closed, p, loads);
    } else {
      FileThenTrack(c, q, base, closed, p, loads);
    }
  }

  lemma TrackThenFile(c: Cue, q: Part, base: int, closed: seq<Group>, p: Part, loads: seq<Option<File>>)
    requires Reading(c, q, base, |q.cuts|, closed, [Some(p.file)] + loads) && p.cuts != [] && p.between
    ensures var d := Run(Run(c, Opening(p)), CutLines(p.cuts[0]));
      if BeginsInside(q, base, |q.cuts| - 1) then Reading(d, p, p.file.start, 1, closed + GroupOf(q, base), loads)
      else d.status == Failed
  {
    var c1 := CutIf(c, false);
    CutNext(c, q, base, |q.cuts|, closed, [Some(p.file)] + loads, false);
    TwoLines(c, TrackLine(p.cuts[0].audio), FileLine);
    hide Place, Regions, Process, Run, Samples, BeginsInside, AudioTracks, GroupOf, Close;
    if !BeginsInside(q, base, |q.cuts| - 1) {
      Stopped(Run(c, Opening(p)), CutLines(p.cuts[0]));
    } else {
      var d := Step(Step(c, TrackLine(p.cuts[0].audio)), FileLine);
      Completed(d, q, base, -1);
      SwitchedIs(d, p, closed + GroupOf(q, base), loads);
    }
  }

  lemma FileThenTrack(c: Cue, q: Part, base: int, closed: seq<Group>, p: Part, loads: seq<Option<File>>)
    requires Reading(c, q, base, |q.cuts|, closed, [Some(p.file)] + loads) && p.cuts != [] && !p.between
    ensures var d := Run(Run(c, Opening(p)), CutLines(p.cuts[0]));
      if BeginsInside(q, base, |q.cuts| - 1) then Reading(d, p, p.file.start, 1, closed + GroupOf(q, base), loads)
      else d.status == Failed
  {
    var c0 := c.(filefield := true);
    CutNext(c, q, base, |q.cuts|, closed, [Some(p.file)] + loads, false);
    TwoLines(c, FileLine, TrackLine(p.cuts[0].audio));
    NoRegions(p);
    hide Place, Regions, Process, Run, Samples, BeginsInside, AudioTracks, GroupOf, Close;
    var d := Step(Step(c, FileLine), TrackLine(p.cuts[0].audio));
    if !BeginsInside(q, base, |q.cuts| - 1) {
      Stopped(d, CutLines(p.cuts[0]));
    } else {
      Completed(CutIf(c, false), q, base, -1);
      assert ([Some(p.file)] + loads)[1..] == loads;
      assert Started(d, p, p.file.start, 0, closed + GroupOf(q, base), loads);
      CutIsRead(d, p, p.file.start, 0, closed + GroupOf(q, base), loads);
    }
  }

  lemma NoRegions(p: Part)
    ensures Regions(p.file, p.cuts, p.file.start, 0, -1) == [] && Place(p.file, p.cuts, p.file.start, 0) == p.file.start
    ensures AudioTracks(p.cuts, 0) == []
  {
  }

  lemma Finish(c: Cue, p: Part, base: int, closed: seq<Group>)
    requires Reading(c, p, base, |p.cuts|, closed, [])
    ensures var d := Run(c, [End]);
      if BeginsInside(p, base, |p.cuts| - 1) && EndsInside(p, base) then
        d.status == Done && d.closed == closed + GroupOf(p, base)
      else d.status == Failed
  {
    CutNext(c, p, base, |p.cuts|, closed, [], true);
    hide Place, Regions, Process, Run, Samples, Gap, BeginsInside, AudioTracks, GroupOf, Close;
    OneLine(c, End);
    if BeginsInside(p, base, |p.cuts| - 1) && EndsInside(p, base) {
      Completed(CutIf(c, true), p, base, if p.cuts[|p.cuts| - 1].audio then p.file.Last() else -1);
    }
  }

  // ----- whole sheets ----------------------------------------------------------------------

  lemma AcceptedIs(p: Part, parts: seq<Part>, first: bool)
    ensures Accepted([p] + parts, first) <==>
      InsideFile(p, first) && if parts == [] then EndsInside(p, Base(p, first)) else Accepted(parts, false)
    ensures AllWanted([p] + parts, first) == Wanted(p, first) + AllWanted(parts, false)
  {
    assert ([p] + parts)[1..] == parts;
    hide InsideFile, EndsInside, Wanted;
  }

  lemma SheetSplits(p: Part, parts: seq<Part>)
    requires p.cuts != [] && HaveCuts(parts)
    ensures HaveCuts([p] + parts)
    ensures SheetLines([p] + parts) + [End] ==
      (Opening(p) + CutLines(p.cuts[0])) + (TrackLines(p.cuts[1..]) + (SheetLines(parts) + [End]))
    ensures Loads([p] + parts) == [Some(p.file)] + Loads(parts)
  {
    assert ([p] + parts)[1..] == parts;
    hide Opening, CutLines, TrackLines;
  }

  lemma InsideSplits(p: Part, first: bool)
    requires p.cuts != []
    ensures InsideFile(p, first) <==>
      AllBegin(p, Base(p, first), 0, |p.cuts| - 1) && BeginsInside(p, Base(p, first), |p.cuts| - 1)
  {
    hide BeginsInside;
  }

  lemma {:induction false} RestOfSheet(c: Cue, p: Part, first: bool, parts: seq<Part>, closed: seq<Group>)
    requires p.cuts != [] && HaveCuts(parts) && Reading(c, p, Base(p, first), 1, closed, Loads(parts))
    ensures var d := Run(c, TrackLines(p.cuts[1..]) + (SheetLines(parts) + [End]));
      if Accepted([p] + parts, first) then d.status == Done && d.closed == closed + AllWanted([p] + parts, first)
      else d.status == Failed
    decreases |parts|
  {
    var base, n := Base(p, first), |p.cuts|;
    RunConcat(c, TrackLines(p.cuts[1..]), SheetLines(parts) + [End]);
    NextTracks(c, p, base, 1, closed, Loads(parts));
    InsideSplits(p, first);
    AcceptedIs(p, parts, first);
    var d := Run(c, TrackLines(p.cuts[1..]));
    hide Run, Reading, TrackLines, Accepted, AllWanted, Base, GroupOf, InsideFile, AllBegin, BeginsInside, EndsInside;
    if d.status != Going {
      Stopped(d, SheetLines(parts) + [End]);
    } else {
      ReadingGoes(d, p, base, n, closed, Loads(parts));
      if parts == [] {
        NoParts(closed, Wanted(p, first));
        Finish(d, p, base, closed);
      } else {
        SheetSplits(parts[0], parts[1..]);
        assert parts == [parts[0]] + parts[1..];
        LaterParts(d, p, first, parts, closed, Loads(parts[1..]));
        if BeginsInside(p, base, n - 1) {
          var q, rest := parts[0], parts[1..];
          RestOfSheet(Run(d, Opening(q) + CutLines(q.cuts[0])), q, false, rest, closed + Wanted(p, first));
          Regroup(closed, Wanted(p, first), AllWanted(parts, false));
        }
      }
    }
  }

  lemma Regroup(closed: seq<Group>, g: seq<Group>, rest: seq<Group>)
    ensures closed + g + rest == closed + (g + rest)
  {
  }

  lemma NoParts(closed: seq<Group>, g: seq<Group>)
    ensures SheetLines([]) + [End] == [End] && Loads([]) == [] && closed + (g + AllWanted([], false)) == closed + g
  {
  }

  /** The next part is opened; what remains is the rest of its lines. */
  lemma LaterParts(c: Cue, p: Part, first: bool, parts: seq<Part>, closed: seq<Group>, loads: seq<Option<File>>)
    requires parts != [] && HaveCuts(parts) && p.cuts != []
    requires Reading(c, p, Base(p, first), |p.cuts|, closed, [Some(parts[0].file)] + loads)
    ensures var q, rest := parts[0], parts[1..]; var d := Run(c, Opening(q) + CutLines(q.cuts[0]));
      && parts == [q] + rest && HaveCuts(rest) && q.cuts != []
      && Run(c, SheetLines(parts) + [End]) == Run(d, TrackLines(q.cuts[1..]) + (SheetLines(rest) + [End]))
      && if BeginsInside(p, Base(p, first), |p.cuts| - 1) then
           Reading(d, q, Base(q, false), 1, closed + Wanted(p, first), loads)
         else Run(c, SheetLines(parts) + [End]).status == Failed
  {
    var q, rest := parts[0], parts[1..];
    assert parts == [q] + rest;
    SheetSplits(q, rest);
    NextPart(c, p, Base(p, first), closed, q, loads);
    var head, tail := Opening(q) + CutLines(q.cuts[0]), TrackLines(q.cuts[1..]) + (SheetLines(rest) + [End]);
    RunConcat(c, head, tail);
    hide Run, Reading, TrackLines, GroupOf, BeginsInside, Opening, CutLines, SheetLines, Loads;
    if !BeginsInside(p, Base(p, first), |p.cuts| - 1) {
      Stopped(Run(c, head), tail);
    }
  }

  // ----- a file that is missing ------------------------------------------------------------

  lemma LoadMissing(c: Cue, track: bool, more: seq<Option<File>>)
    requires c.loads == [None] + more
    ensures var d := Enter(Load(Close(c)), track); d.status == Done && d.closed == Close(c).closed
  {
    var none: Option<File>, d := None, Close(c);
    assert d.loads == c.loads && ([none] + more)[0] == none;
    hide Close;
  }

  /** The line after FILE, when its file is missing. */
  lemma SwitchMissing(c: Cue, lines: seq<Line>, more: seq<Option<File>>)
    requires c.status == Going && c.filefield && c.loads == [None] + more && lines != []
    requires !IsTrack(lines[0]) && !lines[0].CueFile?
    ensures var d := Run(c, lines); d.status == Done && d.closed == Close(c).closed
  {
    hide Load, Close, Enter, Samples;
    LoadMissing(c.(filefield := false), false, more);
    assert Close(c.(filefield := false)).closed == Close(c).closed by { ClosedSame(c); }
    Stopped(Step(c, lines[0]), lines[1..]);
  }

  lemma ClosedSame(c: Cue)
    ensures Close(c.(filefield := false)).closed == Close(c).closed
  {
  }

  lemma CutLinesStart(cut: Cut)
    ensures CutLines(cut) != [] && !IsTrack(CutLines(cut)[0]) && !CutLines(cut)[0].CueFile?
  {
  }

  /** What there is before a missing file is kept, and the parse ends. */
  lemma NextMissing(c: Cue, q: Part, base: int, closed: seq<Group>, m: Part, more: seq<Option<File>>)
    requires Reading(c, q, base, |q.cuts|, closed, [None] + more) && m.cuts != []
    ensures var d := Run(c, Opening(m) + CutLines(m.cuts[0]));
      if BeginsInside(q, base, |q.cuts| - 1) then d.status == Done && d.closed == closed + GroupOf(q, base)
      else d.status == Failed
  {
    RunConcat(c, Opening(m), CutLines(m.cuts[0]));
    hide Reading, BeginsInside, Opening;
    if m.between {
      TrackThenMissing(c, q, base, closed, m, more);
    } else {
      FileThenMissing(c, q, base, closed, m, more);
    }
  }

  lemma TrackThenMissing(c: Cue, q: Part, base: int, closed: seq<Group>, m: Part, more: seq<Option<File>>)
    requires Reading(c, q, base, |q.cuts|, closed, [None] + more) && m.cuts != [] && m.between
    ensures var d := Run(Run(c, Opening(m)), CutLines(m.cuts[0]));
      if BeginsInside(q, base, |q.cuts| - 1) then d.status == Done && d.closed == closed + GroupOf(q, base)
      else d.status == Failed
  {
    var c1 := CutIf(c, false);
    CutNext(c, q, base, |q.cuts|, closed, [None] + more, false);
    TwoLines(c, TrackLine(m.cuts[0].audio), FileLine);
    CutLinesStart(m.cuts[0]);
    hide Place, Regions, Process, Run, Samples, BeginsInside, AudioTracks, GroupOf, Close, CutLines;
    if !BeginsInside(q, base, |q.cuts| - 1) {
      Stopped(Run(c, Opening(m)), CutLines(m.cuts[0]));
    } else {
      var d := Step(Step(c, TrackLine(m.cuts[0].audio)), FileLine);
      Completed(d, q, base, -1);
      SwitchMissing(d, CutLines(m.cuts[0]), more);
    }
  }

  lemma FileThenMissing(c: Cue, q: Part, base: int, closed: seq<Group>, m: Part, more: seq<Option<File>>)
    requires Reading(c, q, base, |q.cuts|, closed, [None] + more) && m.cuts != [] && !m.between
    ensures var d := Run(Run(c, Opening(m)), CutLines(m.cuts[0]));
      if BeginsInside(q, base, |q.cuts| - 1) then d.status == Done && d.closed == closed + GroupOf(q, base)
      else d.status == Failed
  {
    var c0 := c.(filefield := true);
    CutNext(c, q, base, |q.cuts|, closed, [None] + more, false);
    TwoLines(c, FileLine, TrackLine(m.cuts[0].audio));
    hide Place, Regions, Process, Run, Samples, BeginsInside, AudioTracks, GroupOf, Close, Load, Enter;
    var d := Step(Step(c, FileLine), TrackLine(m.cuts[0].audio));
    if BeginsInside(q, base, |q.cuts| - 1) {
      Completed(CutIf(c, false), q, base, -1);
      LoadMissing(CutIf(c, false), true, more);
    }
    Stopped(d, CutLines(m.cuts[0]));
  }

  lemma FirstMissing(m: Part, more: seq<Option<File>>)
    requires m.cuts != []
    ensures var d := Run(Init([None] + more), Opening(m) + CutLines(m.cuts[0])); d.status == Done && d.closed == []
  {
    var c, track := Init([None] + more), TrackLine(m.cuts[0].audio);
    RunConcat(c, Opening(m), CutLines(m.cuts[0]));
    CutLinesStart(m.cuts[0]);
    hide CutLines;
    if m.between {
      TwoLines(c, track, FileLine);
      SwitchMissing(Run(c, Opening(m)), CutLines(m.cuts[0]), more);
    } else {
      TwoLines(c, FileLine, track);
      Stopped(Run(c, Opening(m)), CutLines(m.cuts[0]));
    }
  }

  /** In every file all audio tracks but the first begin inside it. */
  predicate AllInside(parts: seq<Part>, first: bool) {
    parts == [] || (InsideFile(parts[0], first) && AllInside(parts[1..], false))
  }

  lemma AllInsideIs(p: Part, parts: seq<Part>, first: bool)
    ensures AllInside([p] + parts, first) <==> InsideFile(p, first) && AllInside(parts, false)
    ensures AllWanted([p] + parts, first) == Wanted(p, first) + AllWanted(parts, false)
  {
    assert ([p] + parts)[1..] == parts;
    hide InsideFile, Wanted;
  }

  lemma {:induction false} RestMissing(c: Cue, p: Part, first: bool, parts: seq<Part>, m: Part, after: seq<Part>,
                                       closed: seq<Group>, more: seq<Option<File>>)
    requires p.cuts != [] && HaveCuts(parts + [m] + after)
    requires Reading(c, p, Base(p, first), 1, closed, Loads(parts) + ([None] + more))
    ensures var d := Run(c, TrackLines(p.cuts[1..]) + (SheetLines(parts + [m] + after) + [End]));
      if AllInside([p] + parts, first) then d.status == Done && d.closed == closed + AllWanted([p] + parts, first)
      else d.status == Failed
    decreases |parts|
  {
    var base, n, later, loads := Base(p, first), |p.cuts|, parts + [m] + after, Loads(parts) + ([None] + more);
    RunConcat(c, TrackLines(p.cuts[1..]), SheetLines(later) + [End]);
    NextTracks(c, p, base, 1, closed, loads);
    InsideSplits(p, first);
    AllInsideIs(p, parts, first);
    var d := Run(c, TrackLines(p.cuts[1..]));
    hide Run, Reading, TrackLines, AllInside, AllWanted, Base, GroupOf, InsideFile, AllBegin, BeginsInside, HaveCuts;
    hide SheetLines, Loads, Opening, CutLines;
    if d.status != Going {
      Stopped(d, SheetLines(later) + [End]);
    } else {
      ReadingGoes(d, p, base, n, closed, loads);
      if parts == [] {
        MissingNow(d, p, first, m, after, closed, more);
        assert later == [m] + after && loads == [None] + more;
        NoParts(closed, Wanted(p, first));
        NoneInside();
      } else {
        var q, rest := parts[0], parts[1..];
        PartsSplit(parts, m, after, more);
        LaterParts(d, p, first, later, closed, Loads(rest) + ([None] + more));
        if BeginsInside(p, base, n - 1) {
          var next := Run(d, Opening(q) + CutLines(q.cuts[0]));
          RestMissing(next, q, false, rest, m, after, closed + Wanted(p, first), more);
          Regroup(closed, Wanted(p, first), AllWanted(parts, false));
        }
      }
    }
  }

  lemma PartsSplit(parts: seq<Part>, m: Part, after: seq<Part>, more: seq<Option<File>>)
    requires parts != [] && HaveCuts(parts + [m] + after)
    ensures var q, rest, all := parts[0], parts[1..], parts + [m] + after;
      && all != [] && all[0] == q && all[1..] == rest + [m] + after && parts == [q] + rest
      && q.cuts != [] && HaveCuts(rest + [m] + after)
      && Loads(parts) + ([None] + more) == [Some(q.file)] + (Loads(rest) + ([None] + more))
  {
    var q, rest, all := parts[0], parts[1..], parts + [m] + after;
    FirstParts(parts, m, after);
    NonEmpty(parts);
    assert all[0] == q && all[1..] == rest + [m] + after && parts == [q] + rest;
    NonEmpty(all);
    hide HaveCuts, SheetLines, Loads;
    SheetSplits(q, rest);
  }

  lemma NoneInside()
    ensures AllInside([], false) && AllWanted([], false) == []
  {
  }

  lemma MissingNow(c: Cue, p: Part, first: bool, m: Part, after: seq<Part>, closed: seq<Group>,
                   more: seq<Option<File>>)
    requires p.cuts != [] && HaveCuts([m] + after)
    requires Reading(c, p, Base(p, first), |p.cuts|, closed, [None] + more)
    ensures var d := Run(c, SheetLines([m] + after) + [End]);
      if BeginsInside(p, Base(p, first), |p.cuts| - 1) then d.status == Done && d.closed == closed + Wanted(p, first)
      else d.status == Failed
  {
    MissingSplits(c, m, after);
    NextMissing(c, p, Base(p, first), closed, m, more);
    hide Run, Reading, TrackLines, GroupOf, BeginsInside, Opening, CutLines, SheetLines;
    Stopped(Run(c, Opening(m) + CutLines(m.cuts[0])), TrackLines(m.cuts[1..]) + (SheetLines(after) + [End]));
  }

  lemma MissingSplits(c: Cue, m: Part, after: seq<Part>)
    requires HaveCuts([m] + after)
    ensures m.cuts != [] && HaveCuts(after)
    ensures Run(c, SheetLines([m] + after) + [End]) ==
      Run(Run(c, Opening(m) + CutLines(m.cuts[0])), TrackLines(m.cuts[1..]) + (SheetLines(after) + [End]))
  {
    var all := [m] + after;
    assert all[0] == m && all[1..] == after;
    NonEmpty(all);
    hide Run, TrackLines, Opening, CutLines, SheetLines, HaveCuts;
    SheetSplits(m, after);
    RunConcat(c, Opening(m) + CutLines(m.cuts[0]), TrackLines(m.cuts[1..]) + (SheetLines(after) + [End]));
  }

  // ----- counting --------------------------------------------------------------------------

  lemma CountOne(l: Line, p: Line -> bool)
    ensures Count([l], p) == if p(l) then 1 else 0
  {
    var none: seq<Line> := [];
    assert [l][1..] == none && Count(none, p) == 0;
  }

  lemma CutCounts(cut: Cut)
    ensures Count(CutLines(cut), FILES) == 0 && Count(CutLines(cut), TRACKS) == 0
  {
    var x, y := if cut.pregap.Some? then [Pregap(cut.pregap.value)] else [], [Index01(cut.time)];
    CountConcat(x, y, FILES);
    CountConcat(x, y, TRACKS);
    CountOne(Index01(cut.time), FILES);
    CountOne(Index01(cut.time), TRACKS);
    if cut.pregap.Some? {
      CountOne(Pregap(cut.pregap.value), FILES);
      CountOne(Pregap(cut.pregap.value), TRACKS);
    }
  }

  lemma {:induction false} TrackCounts(cuts: seq<Cut>)
    ensures Count(TrackLines(cuts), FILES) == 0
  {
    if cuts != [] {
      TrackCounts(cuts[1..]);
      CutCounts(cuts[0]);
      CountOne(TrackLine(cuts[0].audio), FILES);
      hide CutLines, Count;
      CountConcat([TrackLine(cuts[0].audio)] + CutLines(cuts[0]), TrackLines(cuts[1..]), FILES);
      CountConcat([TrackLine(cuts[0].audio)], CutLines(cuts[0]), FILES);
    }
  }

  lemma OpeningCounts(p: Part)
    requires p.cuts != []
    ensures Count(Opening(p), FILES) == 1 && Count(Opening(p), TRACKS) == 1
  {
    var track := TrackLine(p.cuts[0].audio);
    forall q: Line -> bool
      ensures Count(Opening(p), q) == (if q(FileLine) then 1 else 0) + if q(track) then 1 else 0
    {
      CountOne(FileLine, q);
      CountOne(track, q);
      hide Count;
      CountConcat([FileLine], [track], q);
      CountConcat([track], [FileLine], q);
      assert [FileLine] + [track] == [FileLine, track];
      assert [track] + [FileLine] == [track, FileLine];
    }
    hide Count;
  }

  lemma {:induction false} SheetCounts(parts: seq<Part>)
    requires HaveCuts(parts)
    ensures Count(SheetLines(parts), FILES) == |parts| && Count(SheetLines(parts), TRACKS) >= |parts|
  {
    if parts != [] {
      var p, rest := parts[0], parts[1..];
      SheetCounts(rest);
      OpeningCounts(p);
      CutCounts(p.cuts[0]);
      TrackCounts(p.cuts[1..]);
      var a, b, d := Opening(p), CutLines(p.cuts[0]), TrackLines(p.cuts[1..]);
      assert SheetLines(parts) == (a + b + d) + SheetLines(rest);
      hide Count, SheetLines, Opening, TrackLines, CutLines;
      CountConcat(a + b + d, SheetLines(rest), FILES);
      CountConcat(a + b + d, SheetLines(rest), TRACKS);
      CountConcat(a + b, d, FILES);
      CountConcat(a + b, d, TRACKS);
      CountConcat(a, b, FILES);
      CountConcat(a, b, TRACKS);
    }
  }

  // ----- what comes out --------------------------------------------------------------------

  /** A sheet written for given files and tracks, audio and data as one likes, FILE before or between TRACK and INDEX
      as one likes for each file, is taken exactly when every file holds the INDEX of its audio tracks but the first,
      and the last file the start of the last track if that is an audio track; then it parses to exactly the audio
      tracks, each up to the INDEX of the next audio track or to the end of its file. */
  lemma SheetParses(parts: seq<Part>, embedded: bool)
    requires parts != [] && HaveCuts(parts) && (embedded ==> |parts| == 1)
    ensures var c := Parse(SheetLines(parts), Loads(parts), embedded);
      if Accepted(parts, true) then c.status == Done && c.closed == AllWanted(parts, true) else c.status == Failed
  {
    var p, rest := parts[0], parts[1..];
    assert parts == [p] + rest;
    hide *;
    NonEmpty(parts);
    SheetCounts(parts);
    ParseRuns(SheetLines(parts), Loads(parts), embedded);
    SheetSplits(p, rest);
    var c, head := Init(Loads(parts)), Opening(p) + CutLines(p.cuts[0]);
    RunConcat(c, head, TrackLines(p.cuts[1..]) + (SheetLines(rest) + [End]));
    FirstPart(p, Loads(rest));
    RestOfSheet(Run(c, head), p, true, rest, []);
    Nothing(AllWanted(parts, true));
  }

  /** When the file of a FILE line cannot be loaded, the tracks of the files before it come back, with no check on the
      last of them, and nothing behind it. */
  lemma MissingFile(parts: seq<Part>, m: Part, after: seq<Part>, more: seq<Option<File>>, embedded: bool)
    requires HaveCuts(parts + [m] + after) && (embedded ==> parts == [] && after == [])
    ensures var c := Parse(SheetLines(parts + [m] + after), Loads(parts) + ([None] + more), embedded);
      if AllInside(parts, true) then c.status == Done && c.closed == AllWanted(parts, true) else c.status == Failed
  {
    var all, loads := parts + [m] + after, Loads(parts) + ([None] + more);
    hide *;
    SheetCounts(all);
    ParseRuns(SheetLines(all), loads, embedded);
    var c := Init(loads);
    if parts == [] {
      assert all == [m] + after && parts == [];
      NothingLoads(parts, more);
      MissingSplits(c, m, after);
      FirstMissing(m, more);
      Stopped(Run(c, Opening(m) + CutLines(m.cuts[0])), TrackLines(m.cuts[1..]) + (SheetLines(after) + [End]));
    } else {
      var p, rest := parts[0], parts[1..];
      assert parts == [p] + rest && all == [p] + (rest + [m] + after) && all[1..] == rest + [m] + after;
      NonEmpty(all);
      FirstParts(parts, m, after);
      NonEmpty(parts);
      SheetSplits(p, rest);
      MissingSplits(c, p, rest + [m] + after);
      assert loads == [Some(p.file)] + (Loads(rest) + ([None] + more));
      FirstPart(p, Loads(rest) + ([None] + more));
      RestMissing(Run(c, Opening(p) + CutLines(p.cuts[0])), p, true, rest, m, after, [], more);
      Nothing(AllWanted(parts, true));
    }
  }

  lemma NothingLoads(parts: seq<Part>, more: seq<Option<File>>)
    requires parts == []
    ensures Loads(parts) + ([None] + more) == [None] + more && AllInside(parts, true) && AllWanted(parts, true) == []
  {
  }

  lemma FirstParts(parts: seq<Part>, m: Part, after: seq<Part>)
    requires HaveCuts(parts + [m] + after)
    ensures HaveCuts(parts)
  {
    assert forall i :: 0 <= i < |parts| ==> (parts + [m] + after)[i] == parts[i];
  }

  lemma NonEmpty(parts: seq<Part>)
    requires parts != [] && HaveCuts(parts)
    ensures parts[0].cuts != [] && HaveCuts(parts[1..])
  {
  }

  lemma Nothing(g: seq<Group>)
    ensures [] + g == g && g + [] == g
  {
  }

  // ----- right lengths ---------------------------------------------------------------------

  ghost predicate GroupOk(g: Group) {
    forall i :: 0 <= i < |g.regions| ==> LengthOk(g.regions[i])
  }

  ghost predicate AllOk(groups: seq<Group>) {
    forall i :: 0 <= i < |groups| ==> GroupOk(groups[i])
  }

  /** How far the PREGAP of the j-th audio track may reach: to the INDEX of the next, or to the end of the file. */
  function Distance(p: Part, base: int, j: nat): int
    requires j < |AudioTracks(p.cuts, |p.cuts|)|
  {
    var a := AudioTracks(p.cuts, |p.cuts|);
    var next := if j + 1 < |a| then Place(p.file, p.cuts, base, a[j + 1] + 1) else p.file.Last() + 1;
    next - Place(p.file, p.cuts, base, a[j] + 1)
  }

  /** Every PREGAP of the part, none counting as zero, is at most that long. */
  ghost predicate PartFits(p: Part, first: bool) {
    var a := AudioTracks(p.cuts, |p.cuts|);
    forall j :: 0 <= j < |a| ==> Gap(p.file, p.cuts[a[j]]) <= Distance(p, Base(p, first), j)
  }

  ghost predicate AllFit(parts: seq<Part>, first: bool) {
    parts == [] || (PartFits(parts[0], first) && AllFit(parts[1..], false))
  }

  lemma PartFitsIs(p: Part, first: bool)
    ensures AllOk(Wanted(p, first)) <==> PartFits(p, first)
  {
    var base, a := Base(p, first), AudioTracks(p.cuts, |p.cuts|);
    var r := Regions(p.file, p.cuts, base, |p.cuts|, p.file.Last());
    forall j | 0 <= j < |a|
      ensures LengthOk(r[j]) <==> Gap(p.file, p.cuts[a[j]]) <= Distance(p, base, j)
    {
      RegionAt(p.file, p.cuts, base, |p.cuts|, p.file.Last(), j);
      hide Regions, Place, Gap, AudioTracks;
    }
    hide Regions, Place, Gap, Distance, LengthOk, Base, AudioTracks;
    if r != [] {
      assert Wanted(p, first) == [Group(p.file, r)];
      assert AllOk(Wanted(p, first)) <==> GroupOk(Wanted(p, first)[0]);
    }
  }

  lemma {:induction false} AllFitIs(parts: seq<Part>, first: bool)
    ensures AllOk(AllWanted(parts, first)) <==> AllFit(parts, first)
    decreases |parts|
  {
    hide GroupOk, PartFits, Wanted;
    if parts != [] {
      PartFitsIs(parts[0], first);
      AllFitIs(parts[1..], false);
      BothOk(Wanted(parts[0], first), AllWanted(parts[1..], false));
    }
  }

  lemma BothOk(g: seq<Group>, rest: seq<Group>)
    ensures AllOk(g + rest) <==> AllOk(g) && AllOk(rest)
  {
    hide GroupOk;
    var all := g + rest;
    assert forall i :: 0 <= i < |g| ==> g[i] == all[i];
    assert forall i :: 0 <= i < |rest| ==> rest[i] == all[|g| + i];
  }

  /** A sheet is parsed into tracks that all have right lengths if and only if the parser takes it and no
      PREGAP reaches beyond the next INDEX of its file or the end of the file. */
  lemma LengthsRight(parts: seq<Part>, embedded: bool)
    requires parts != [] && HaveCuts(parts) && (embedded ==> |parts| == 1)
    ensures var c := Parse(SheetLines(parts), Loads(parts), embedded);
      c.status == Done && AllOk(c.closed) <==> Accepted(parts, true) && AllFit(parts, true)
  {
    hide *;
    SheetParses(parts, embedded);
    AllFitIs(parts, true);
  }

  predicate NoPregaps(p: Part) {
    forall i :: 0 <= i < |p.cuts| ==> p.cuts[i].pregap.None?
  }

  /** The only audio track of a file starts inside it, or at most at its end. */
  predicate LoneInside(p: Part, first: bool) {
    var a := AudioTracks(p.cuts, |p.cuts|);
    |a| == 1 ==> Place(p.file, p.cuts, Base(p, first), a[0] + 1) <= p.file.Last() + 1
  }

  /** So it is in every file. */
  predicate LoneTracksInside(parts: seq<Part>, first: bool) {
    parts == [] || (LoneInside(parts[0], first) && LoneTracksInside(parts[1..], false))
  }

  lemma {:induction false} AudioRises(cuts: seq<Cut>, n: nat, j: nat)
    requires n <= |cuts| && j < |AudioTracks(cuts, n)|
    ensures var a := AudioTracks(cuts, n); cuts[a[j]].audio && a[j] < n && (j + 1 < |a| ==> a[j] < a[j + 1])
    ensures j > 0 ==> AudioTracks(cuts, AudioTracks(cuts, n)[j]) != []
  {
    if n > 0 {
      var b := AudioTracks(cuts, n - 1);
      if j < |b| {
        AudioRises(cuts, n - 1, j);
      } else if j > 0 {
        AudioRises(cuts, n - 1, j - 1);
      }
    }
  }

  lemma RoomAfter(p: Part, base: int, j: nat)
    requires j < |AudioTracks(p.cuts, |p.cuts|)| && p.file.start >= 0
    requires forall i :: 0 <= i < |p.cuts| ==> BeginsInside(p, base, i)
    ensures |AudioTracks(p.cuts, |p.cuts|)| > 1 ==> 0 <= Distance(p, base, j)
  {
    var a := AudioTracks(p.cuts, |p.cuts|);
    hide AudioTracks, Place;
    AudioRises(p.cuts, |p.cuts|, j);
    if j + 1 < |a| {
      PlacesRise(p.file, p.cuts, base, a[j] + 1, a[j + 1] + 1);
    } else if j > 0 {
      assert BeginsInside(p, base, a[j]);
    }
  }

  lemma NoPregapFits(p: Part, first: bool)
    requires NoPregaps(p) && p.file.start >= 0 && InsideFile(p, first)
    ensures PartFits(p, first) <==> LoneInside(p, first)
  {
    hide Place, Base, AudioTracks, BeginsInside;
    var base, a := Base(p, first), AudioTracks(p.cuts, |p.cuts|);
    forall j | 0 <= j < |a|
      ensures Gap(p.file, p.cuts[a[j]]) == 0 && (|a| > 1 ==> 0 <= Distance(p, base, j))
    {
      RoomAfter(p, base, j);
    }
    if |a| == 1 {
      assert Distance(p, base, 0) == p.file.Last() + 1 - Place(p.file, p.cuts, base, a[0] + 1);
    }
    hide Gap, Distance;
  }

  lemma {:induction false} NoPregapsFit(parts: seq<Part>, first: bool)
    requires parts != [] && Accepted(parts, first)
    requires forall i :: 0 <= i < |parts| ==> NoPregaps(parts[i]) && parts[i].file.start >= 0
    ensures AllFit(parts, first) <==> LoneTracksInside(parts, first)
    decreases |parts|
  {
    hide PartFits, LoneInside, InsideFile, EndsInside, NoPregaps;
    NoPregapFits(parts[0], first);
    if |parts| > 1 {
      NoPregapsFit(parts[1..], false);
    } else {
      assert parts[1..] == [];
    }
  }

  /** Without PREGAP all lengths of a sheet that is taken are right if and only if no file has a single audio track
      whose INDEX lies past its end. */
  lemma LengthsRightNoPregap(parts: seq<Part>, embedded: bool)
    requires parts != [] && HaveCuts(parts) && (embedded ==> |parts| == 1)
    requires forall i :: 0 <= i < |parts| ==> NoPregaps(parts[i]) && parts[i].file.start >= 0
    ensures var c := Parse(SheetLines(parts), Loads(parts), embedded);
      c.status == Done && AllOk(c.closed) <==> Accepted(parts, true) && LoneTracksInside(parts, true)
  {
    LengthsRight(parts, embedded);
    hide Parse, SheetLines, Loads, AllOk, AllFit, LoneTracksInside, NoPregaps, HaveCuts;
    if Accepted(parts, true) {
      NoPregapsFit(parts, true);
    }
  }

  lemma WholeSeconds(n: int, time: real)
    requires time == n as real
    ensures Samples(time, 1) == n
  {
    assert time * 1 as real == time;
  }

  /** A part with one or two tracks. */
  lemma SmallParts(p: Part, base: int)
    requires 1 <= |p.cuts| <= 2 && p.cuts[|p.cuts| - 1].audio
    ensures AudioTracks(p.cuts, |p.cuts|) == if |p.cuts| == 1 then [0] else if p.cuts[0].audio then [0, 1] else [1]
    ensures AudioTracks(p.cuts, 0) == [] && (AudioTracks(p.cuts, 1) == [] <==> !p.cuts[0].audio)
    ensures Place(p.file, p.cuts, base, 0) == base
  {
  }

  /** A part with one audio track. */
  lemma OneTrack(p: Part, first: bool, n: int)
    requires |p.cuts| == 1 && p.cuts[0].audio && p.cuts[0].pregap.None? && p.file.start == 0
    requires Samples(p.cuts[0].time, p.file.samplerate) == n >= 0
    ensures InsideFile(p, first) && (EndsInside(p, Base(p, first)) <==> n < p.file.numsamples)
    ensures Wanted(p, first) == [Group(p.file, [Region(n, n, p.file.Last(), false)])]
  {
    hide Samples;
    SmallParts(p, 0);
    assert Base(p, first) == 0 && Place(p.file, p.cuts, 0, 1) == n;
    RegionAt(p.file, p.cuts, 0, 1, p.file.Last(), 0);
    hide AudioTracks, Place;
    var r := Regions(p.file, p.cuts, 0, 1, p.file.Last());
    assert |r| == 1 && r == [r[0]];
  }

  /** The smallest sheet without PREGAP that goes wrong: a track at second 20 of a file of ten seconds, closed
      by another FILE, ends before it starts. */
  lemma PastTheEnd()
    ensures var f := File(0, 10, 1);
      var c := Parse([FileLine, TrackLine(true), Index01(20.0), FileLine, TrackLine(true), Index01(0.0)],
                     [Some(f), Some(f)], false);
      c.status == Done && |c.closed| == 2 && c.closed[0] == Group(f, [Region(20, 20, 9, false)])
  {
    var f := File(0, 10, 1);
    var p, q := Part(f, [Cut(true, 20.0, None)], false), Part(f, [Cut(true, 0.0, None)], false);
    WholeSeconds(20, 20.0);
    WholeSeconds(0, 0.0);
    hide Samples, Parse, Accepted, AllWanted, SheetLines, Loads, Wanted, InsideFile, EndsInside;
    OneTrack(p, true, 20);
    OneTrack(q, false, 0);
    TwoParts(p, q);
    LinesOfTwo(p, q);
    SheetParses([p, q], false);
  }

  lemma TwoParts(p: Part, q: Part)
    ensures Accepted([p, q], true) <==>
      InsideFile(p, true) && InsideFile(q, false) && EndsInside(q, Base(q, false))
    ensures AllWanted([p, q], true) == Wanted(p, true) + Wanted(q, false)
  {
    hide *;
    var none: seq<Part> := [];
    AcceptedIs(p, [q], true);
    AcceptedIs(q, none, false);
    assert [p] + [q] == [p, q] && [q] + none == [q];
    NothingWanted(Wanted(q, false));
  }

  lemma NothingWanted(g: seq<Group>)
    ensures g + AllWanted([], false) == g
  {
  }

  lemma LinesOfTwo(p: Part, q: Part)
    requires |p.cuts| == 1 && |q.cuts| == 1 && NoPregaps(p) && NoPregaps(q) && !p.between && !q.between
    ensures SheetLines([p, q]) ==
      [FileLine, TrackLine(p.cuts[0].audio), Index01(p.cuts[0].time),
       FileLine, TrackLine(q.cuts[0].audio), Index01(q.cuts[0].time)]
    ensures Loads([p, q]) == [Some(p.file), Some(q.file)]
  {
    assert [p, q][1..] == [q] && [q][1..] == [];
    assert p.cuts[1..] == [] && q.cuts[1..] == [];
    assert SheetLines([q]) == PartLines(q) + SheetLines([]);
  }

  /** The smallest sheet of one file that goes wrong: a PREGAP of 100 seconds before a track of one second. */
  lemma PregapTooLong()
    ensures var f := File(0, 1000, 1);
      var lines := [FileLine, TrackLine(true), Pregap(100.0), Index01(5.0), TrackLine(true), Index01(6.0)];
      var c := Parse(lines, [Some(f)], false);
      c.status == Done && c.closed == [Group(f, [Region(5, 105, 5, false), Region(6, 6, 999, true)])]
  {
    var f := File(0, 1000, 1);
    var x, y := Cut(true, 5.0, Some(100.0)), Cut(true, 6.0, None);
    var p := Part(f, [x, y], false);
    WholeSeconds(5, 5.0);
    WholeSeconds(6, 6.0);
    WholeSeconds(100, 100.0);
    TwoTracks(p, 5, 6);
    assert Gap(f, x) == 100;
    assert [FileLine, TrackLine(true)] + [Pregap(100.0)] + [Index01(5.0), TrackLine(true), Index01(6.0)]
      == [FileLine, TrackLine(true), Pregap(100.0), Index01(5.0), TrackLine(true), Index01(6.0)];
    var r, s := Region(5, 105, 5, false), Region(6, 6, 999, true);
    assert [r] + [s] == [r, s];
    hide Parse, Samples, GroupOf;
  }

  /** A data track before the audio track: only the audio track comes out, as the first of its file. */
  lemma DataTrackLeftOut()
    ensures var f := File(0, 100, 1);
      var lines := [FileLine, TrackLine(false), Index01(0.0), TrackLine(true), Index01(10.0)];
      var c := Parse(lines, [Some(f)], false);
      c.status == Done && c.closed == [Group(f, [Region(10, 10, 99, false)])]
  {
    var f := File(0, 100, 1);
    var x, y := Cut(false, 0.0, None), Cut(true, 10.0, None);
    var p := Part(f, [x, y], false);
    WholeSeconds(0, 0.0);
    WholeSeconds(10, 10.0);
    TwoTracks(p, 0, 10);
    assert [FileLine, TrackLine(false)] + [] + [Index01(0.0), TrackLine(true), Index01(10.0)]
      == [FileLine, TrackLine(false), Index01(0.0), TrackLine(true), Index01(10.0)];
    assert [] + [Region(10, 10, 99, false)] == [Region(10, 10, 99, false)];
    hide Parse, Samples, GroupOf;
  }

  /** One file that starts at sample 0, with two tracks, the second an audio track without PREGAP. */
  predicate Two(p: Part, m: int, n: int) {
    && |p.cuts| == 2 && p.cuts[1].audio && p.cuts[1].pregap.None? && !p.between && p.file.start == 0
    && Samples(p.cuts[0].time, p.file.samplerate) == m && Samples(p.cuts[1].time, p.file.samplerate) == n
    && 0 <= m <= n < p.file.numsamples
  }

  function BothGroups(p: Part, m: int, n: int): seq<Group>
    requires Two(p, m, n)
  {
    var x := p.cuts[0];
    [Group(p.file, (if x.audio then [Region(m, m + Gap(p.file, x), n - 1, false)] else [])
                   + [Region(n, n, p.file.Last(), x.audio)])]
  }

  lemma PlacesOfTwo(p: Part, m: int, n: int)
    requires Two(p, m, n)
    ensures Place(p.file, p.cuts, 0, 0) == 0 && Place(p.file, p.cuts, 0, 1) == m && Place(p.file, p.cuts, 0, 2) == n
  {
    hide Samples;
    assert Place(p.file, p.cuts, 0, 0) == 0;
  }

  lemma GroupOfTwo(p: Part, m: int, n: int)
    requires Two(p, m, n)
    ensures GroupOf(p, 0) == BothGroups(p, m, n)
  {
    var f := p.file;
    PlacesOfTwo(p, m, n);
    SmallParts(p, 0);
    hide Samples, Place, AudioTracks;
    RegionAt(f, p.cuts, 0, 2, f.Last(), 0);
    if p.cuts[0].audio {
      RegionAt(f, p.cuts, 0, 2, f.Last(), 1);
    }
    hide Regions;
    var r := Regions(f, p.cuts, 0, 2, f.Last());
    assert if p.cuts[0].audio then |r| == 2 && r == [r[0]] + [r[1]] else |r| == 1 && r == [] + [r[0]];
  }

  lemma AcceptsTwo(p: Part, m: int, n: int)
    requires Two(p, m, n)
    ensures Accepted([p], true) && AllWanted([p], true) == GroupOf(p, 0)
  {
    var none: seq<Part> := [];
    PlacesOfTwo(p, m, n);
    SmallParts(p, 0);
    AcceptedIs(p, none, true);
    assert [p] + none == [p] && AllWanted(none, false) == [];
    hide Samples, Place, AudioTracks, Accepted, AllWanted, GroupOf;
    assert BeginsInside(p, 0, 0) && BeginsInside(p, 0, 1) && EndsInside(p, 0);
    assert Base(p, true) == 0 && Wanted(p, true) == GroupOf(p, 0);
    Nothing(GroupOf(p, 0));
  }

  lemma TwoTracks(p: Part, m: int, n: int)
    requires Two(p, m, n)
    ensures var x, y := p.cuts[0], p.cuts[1];
      var lines := [FileLine, TrackLine(x.audio)] + (if x.pregap.Some? then [Pregap(x.pregap.value)] else [])
        + [Index01(x.time), TrackLine(true), Index01(y.time)];
      var c := Parse(lines, [Some(p.file)], false);
      c.status == Done && c.closed == BothGroups(p, m, n)
  {
    SheetParses([p], false);
    LinesOfOne(p);
    AcceptsTwo(p, m, n);
    GroupOfTwo(p, m, n);
    hide Parse, Samples, Accepted, AllWanted, SheetLines, Loads, GroupOf, BothGroups;
  }

  lemma LinesOfOne(p: Part)
    requires |p.cuts| == 2 && p.cuts[1].pregap.None? && !p.between
    ensures var x, y := p.cuts[0], p.cuts[1];
      SheetLines([p]) == [FileLine, TrackLine(x.audio)] + (if x.pregap.Some? then [Pregap(x.pregap.value)] else [])
        + [Index01(x.time), TrackLine(y.audio), Index01(y.time)]
    ensures Loads([p]) == [Some(p.file)]
  {
    assert [p][1..] == [];
    assert p.cuts[1..] == [p.cuts[1]] && [p.cuts[1]][1..] == [];
    assert TrackLines([]) == [];
  }
}
