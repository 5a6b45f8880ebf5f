/** What a playlist file gives back is the same: fields, and the bytes of every saved key. */
module DbplSame {
  import opened PlayItems
  import opened ByteOrder
  import opened MetaSpec
  import opened Dbpl
  import opened DbplProofs

  // ----- keys and values survive ------------------------------------------------------------

  /** The list has the value of `e` under its key, and a plain key in the same spelling. */
  predicate Has(v: seq<Entry>, e: Entry) {
    var f := Find(v, e.key);
    f < |v| && v[f].value == e.value && (!IsProp(e.key) ==> v[f].key == e.key)
  }

  predicate Absent(v: seq<Entry>, key: seq<byte>) {
    Find(v, key) == |v|
  }

  lemma FindIs(v: seq<Entry>, key: seq<byte>, f: nat)
    requires f <= |v| && (f < |v| ==> SameKey(v[f].key, key)) && forall i :: 0 <= i < f ==> !SameKey(v[i].key, key)
    ensures Find(v, key) == f
  {
  }

  lemma InsertOther(v: seq<Entry>, p: nat, n: Entry, key: seq<byte>)
    requires p <= |v| && !SameKey(n.key, key)
    ensures var f := Find(v, key); Find(Insert(v, p, n), key) == if f < p then f else f + 1
  {
    hide Fold;
    var r, f := Insert(v, p, n), Find(v, key);
    assert forall i :: 0 <= i < |r| ==> r[i] == if i < p then v[i] else if i == p then n else v[i - 1];
    FindIs(r, key, if f < p then f else f + 1);
  }

  lemma UpdateOther(v: seq<Entry>, p: nat, value: seq<byte>, key: seq<byte>)
    requires p < |v|
    ensures Find(v[p := Entry(v[p].key, value)], key) == Find(v, key)
  {
    hide Fold;
    var r := v[p := Entry(v[p].key, value)];
    assert forall i :: 0 <= i < |r| ==> r[i].key == v[i].key;
    FindIs(r, key, Find(v, key));
  }

  /** What one saved pair does to the list when it comes back. */
  function Step(v: seq<Entry>, e: Entry): seq<Entry>
    requires IsValue(e.value) && (First(e.key) == COLON ==> IsText(e.value))
  {
    if First(e.key) == COLON then Replace(v, e.key, e.value) else AddFull(v, e.key, e.value)
  }

  predicate IsValue(value: seq<byte>) {
    Terminated(value) && value != [] && value[0] != 0
  }

  lemma AddKeeps(v: seq<Entry>, key: seq<byte>, value: seq<byte>, x: Entry)
    requires Terminated(value) && value != [] && !SameKey(key, x.key)
    ensures Has(v, x) ==> Has(AddFull(v, key, value), x)
    ensures Absent(v, x.key) ==> Absent(AddFull(v, key, value), x.key)
  {
    if value[0] != 0 && Find(v, key) == |v| {
      StoredKeySame(key);
      var n := Entry(StoredKey(key), Stored(value));
      hide Stored, StoredKey, Fold, Slot;
      InsertOther(v, Slot(v, key), n, x.key);
    }
  }

  lemma ReplaceKeeps(v: seq<Entry>, key: seq<byte>, value: seq<byte>, x: Entry)
    requires IsText(value) && !SameKey(key, x.key)
    ensures Has(v, x) ==> Has(Replace(v, key, value), x)
    ensures Absent(v, x.key) ==> Absent(Replace(v, key, value), x.key)
  {
    var f := Find(v, key);
    if f < |v| {
      UpdateOther(v, f, value, x.key);
    } else {
      AddKeeps(v, key, value, x);
    }
  }

  lemma StepKeeps(v: seq<Entry>, e: Entry, x: Entry)
    requires IsValue(e.value) && (First(e.key) == COLON ==> IsText(e.value)) && !SameKey(e.key, x.key)
    ensures Has(v, x) ==> Has(Step(v, e), x)
    ensures Absent(v, x.key) ==> Absent(Step(v, e), x.key)
  {
    if First(e.key) == COLON {
      ReplaceKeeps(v, e.key, e.value, x);
    } else {
      AddKeeps(v, e.key, e.value, x);
    }
  }

  lemma AddGives(v: seq<Entry>, e: Entry)
    requires IsValue(e.value) && Stored(e.value) == e.value && StoredKey(e.key) == e.key && Absent(v, e.key)
    ensures Has(AddFull(v, e.key, e.value), e)
  {
    var p := Slot(v, e.key);
    var r := Insert(v, p, e);
    hide Fold, Stored, StoredKey, Slot;
    assert forall i :: 0 <= i < p ==> r[i] == v[i];
    FindIs(r, e.key, p);
  }

  lemma ReplaceGives(v: seq<Entry>, e: Entry)
    requires IsValue(e.value) && IsText(e.value) && First(e.key) == COLON
    ensures Has(Replace(v, e.key, e.value), e)
  {
    var f := Find(v, e.key);
    if f < |v| {
      UpdateOther(v, f, e.value, e.key);
    } else {
      AddGives(v, e);
    }
  }

  function Steps(v: seq<Entry>, s: seq<Entry>): seq<Entry>
    requires forall i :: 0 <= i < |s| ==> IsValue(s[i].value) && (First(s[i].key) == COLON ==> IsText(s[i].value))
    decreases |s|
  {
    if s == [] then v else Steps(Step(v, s[0]), s[1..])
  }

  /** A saved pair that can come back as it is. */
  predicate EntryOk(e: Entry) {
    && 0 !in e.key && IsValue(e.value) && Stored(e.value) == e.value && StoredKey(e.key) == e.key
    && (First(e.key) == COLON ==> IsText(e.value))
    && (e.key == STARTSAMPLE || e.key == ENDSAMPLE ==> IsNumber(Inner(e.value)))
    && (e.key == URI ==> |Inner(e.value)| < 4096)
  }

  /** A number as it is printed. */
  predicate IsNumber(s: seq<byte>) {
    Decimal(Atoll(s)) == s && |s| < 20
  }

  ghost predicate Distinct(s: seq<Entry>) {
    forall i, j :: 0 <= i < j < |s| ==> !SameKey(s[i].key, s[j].key)
  }

  ghost predicate AllOk(s: seq<Entry>) {
    (forall i :: 0 <= i < |s| ==> EntryOk(s[i])) && Distinct(s)
  }

  lemma AllOkCons(v: seq<Entry>, s: seq<Entry>)
    requires AllOk(s) && s != []
    ensures var e, rest := s[0], s[1..];
      && EntryOk(e) && AllOk(rest) && IsValue(e.value) && (First(e.key) == COLON ==> IsText(e.value))
      && (forall j :: 0 <= j < |rest| ==> !SameKey(e.key, rest[j].key) && !SameKey(rest[j].key, e.key))
    ensures forall i :: 0 <= i < |s| ==> IsValue(s[i].value) && (First(s[i].key) == COLON ==> IsText(s[i].value))
    ensures Steps(v, s) == Steps(Step(v, s[0]), s[1..])
  {
    assert EntryOk(s[0]);
    assert forall j :: 0 <= j < |s[1..]| ==> s[1..][j] == s[j + 1];
    hide Fold, Step, Stored, StoredKey, IsNumber;
  }

  lemma OkValues(s: seq<Entry>)
    requires AllOk(s)
    ensures forall i :: 0 <= i < |s| ==> IsValue(s[i].value) && (First(s[i].key) == COLON ==> IsText(s[i].value))
  {
    assert forall i :: 0 <= i < |s| ==> EntryOk(s[i]);
  }

  lemma StepGives(v: seq<Entry>, e: Entry)
    requires EntryOk(e) && (First(e.key) != COLON ==> Absent(v, e.key))
    ensures Has(Step(v, e), e)
  {
    if First(e.key) == COLON {
      ReplaceGives(v, e);
    } else {
      AddGives(v, e);
    }
  }

  lemma {:induction false} StepsKeep(v: seq<Entry>, s: seq<Entry>, x: Entry)
    requires AllOk(s) && (forall i :: 0 <= i < |s| ==> !SameKey(s[i].key, x.key)) && Has(v, x)
    ensures forall i :: 0 <= i < |s| ==> IsValue(s[i].value) && (First(s[i].key) == COLON ==> IsText(s[i].value))
    ensures Has(Steps(v, s), x)
    decreases |s|
  {
    OkValues(s);
    if s != [] {
      AllOkCons(v, s);
      hide Has, EntryOk, Step, Fold, Steps, AllOk, IsValue, IsText, Stored, StoredKey;
      StepKeeps(v, s[0], x);
      StepsKeep(Step(v, s[0]), s[1..], x);
    }
  }

  /** Every saved pair is there in the end. */
  lemma {:induction false} StepsGive(v: seq<Entry>, s: seq<Entry>, i: nat)
    requires AllOk(s) && i < |s| && PlainAbsent(v, s)
    ensures forall i :: 0 <= i < |s| ==> IsValue(s[i].value) && (First(s[i].key) == COLON ==> IsText(s[i].value))
    ensures Has(Steps(v, s), s[i])
    decreases |s|
  {
    hide *;
    OkValues(s);
    AllOkCons(v, s);
    PlainFirst(v, s);
    var e, rest := s[0], s[1..];
    if i == 0 {
      StepGives(v, e);
      StepsKeep(Step(v, e), rest, e);
    } else {
      PlainStays(v, s);
      StepsGive(Step(v, e), rest, i - 1);
    }
  }

  ghost predicate PlainAbsent(v: seq<Entry>, s: seq<Entry>) {
    forall j :: 0 <= j < |s| && First(s[j].key) != COLON ==> Absent(v, s[j].key)
  }

  lemma PlainFirst(v: seq<Entry>, s: seq<Entry>)
    requires PlainAbsent(v, s) && s != []
    ensures First(s[0].key) != COLON ==> Absent(v, s[0].key)
  {
  }

  lemma PlainStays(v: seq<Entry>, s: seq<Entry>)
    requires AllOk(s) && s != [] && PlainAbsent(v, s)
    ensures IsValue(s[0].value) && (First(s[0].key) == COLON ==> IsText(s[0].value))
    ensures PlainAbsent(Step(v, s[0]), s[1..])
  {
    AllOkCons(v, s);
    var e, rest := s[0], s[1..];
    hide Absent, Has, Fold, Step, EntryOk, AllOk, Steps, IsValue, IsText, First;
    forall j | 0 <= j < |rest| && First(rest[j].key) != COLON
      ensures Absent(Step(v, e), rest[j].key)
    {
      assert rest[j] == s[j + 1];
      StepKeeps(v, e, rest[j]);
    }
  }

  // ----- what the loader does with a saved pair ---------------------------------------------

  lemma ValueParts(value: seq<byte>)
    requires Terminated(value) && value != []
    ensures Inner(value) + [0] == value
    ensures IsText(value) ==> CString(Inner(value) + [0]) == Inner(value) && CString(value) == Inner(value)
  {
    assert value == value[..|value| - 1] + [0];
  }

  lemma PrintedBack(s: seq<byte>)
    requires IsNumber(s)
    ensures Printed(Atoll(s)) == s
  {
  }

  lemma PutIs(v: seq<Entry>, key: seq<byte>, value: seq<byte>)
    requires IsText(value)
    ensures Put(v, key, Inner(value)) == Replace(v, key, value)
  {
    ValueParts(value);
  }

  /** The sample an entry sets. */
  function SampleOf(e: Entry): Sample {
    SetSample(Atoll(Inner(e.value)))
  }

  lemma ApplyIs(t: Track, e: Entry)
    requires EntryOk(e)
    ensures Apply(t, e.key, Inner(e.value)) ==
      t.(meta := Step(t.meta, e),
         start := if e.key == STARTSAMPLE then SampleOf(e) else t.start,
         end := if e.key == ENDSAMPLE then SampleOf(e) else t.end)
  {
    NoZero(e.key);
    ValueParts(e.value);
    KeysDiffer();
    if First(e.key) == COLON {
      PutIs(t.meta, e.key, e.value);
      if e.key == STARTSAMPLE || e.key == ENDSAMPLE {
        PrintedBack(Inner(e.value));
      }
      if e.key == URI {
        assert Path(Inner(e.value)) == Inner(e.value);
      }
      hide Put, Replace, Atoll, Printed, Path, CString, Stored, StoredKey;
    } else {
      hide AddFull, Stored, StoredKey, CString;
    }
  }

  lemma KeysDiffer()
    ensures STARTSAMPLE != ENDSAMPLE && First(STARTSAMPLE) == COLON && First(ENDSAMPLE) == COLON && First(URI) == COLON
  {
    assert STARTSAMPLE[1] == 83 && ENDSAMPLE[1] == 69;
  }

  lemma ApplyAllCons(t: Track, s: seq<Entry>)
    requires s != []
    ensures ApplyAll(t, s) == ApplyAll(Apply(t, s[0].key, Inner(s[0].value)), s[1..])
  {
    hide Apply, Inner;
  }

  /** The entry that sets the sample, if there is one. */
  function Setter(s: seq<Entry>, key: seq<byte>, now: Sample): Sample {
    if s == [] then now else Setter(s[1..], key, if s[0].key == key then SampleOf(s[0]) else now)
  }

  lemma {:induction false} ApplyAllIs(t: Track, s: seq<Entry>)
    requires AllOk(s)
    ensures forall i :: 0 <= i < |s| ==> IsValue(s[i].value) && (First(s[i].key) == COLON ==> IsText(s[i].value))
    ensures ApplyAll(t, s) ==
      t.(meta := Steps(t.meta, s), start := Setter(s, STARTSAMPLE, t.start), end := Setter(s, ENDSAMPLE, t.end))
    decreases |s|
  {
    OkValues(s);
    if s != [] {
      AllOkCons(t.meta, s);
      ApplyAllCons(t, s);
      hide EntryOk, Apply, Step, SampleOf, Fold, AllOk, IsValue, IsText, ApplyAll, Steps;
      ApplyIs(t, s[0]);
      ApplyAllIs(Apply(t, s[0].key, Inner(s[0].value)), s[1..]);
    }
  }

  /** Keys differ, so at most one entry sets the sample. */
  lemma {:induction false} SetterIs(s: seq<Entry>, key: seq<byte>, now: Sample)
    requires Distinct(s)
    ensures (forall i :: 0 <= i < |s| ==> s[i].key != key) ==> Setter(s, key, now) == now
    ensures forall i :: 0 <= i < |s| && s[i].key == key ==> Setter(s, key, now) == SampleOf(s[i])
    decreases |s|
  {
    if s != [] {
      var rest := s[1..];
      assert forall j :: 0 <= j < |rest| ==> rest[j] == s[j + 1] && rest[j].key != s[0].key;
      hide SampleOf, Fold;
      SetterIs(s[1..], key, if s[0].key == key then SampleOf(s[0]) else now);
    }
  }

  // ----- derived keys -----------------------------------------------------------------------

  /** The keys that the loader derives are all ':' keys, so no plain key is there yet. */
  ghost predicate OnlyColons(v: seq<Entry>) {
    forall i :: 0 <= i < |v| ==> First(v[i].key) == COLON
  }

  lemma AddColon(v: seq<Entry>, key: seq<byte>, value: seq<byte>)
    requires OnlyColons(v) && First(key) == COLON && Terminated(value) && value != []
    ensures OnlyColons(AddFull(v, key, value))
  {
    hide Stored, Find, Slot;
  }

  lemma ReplaceColon(v: seq<Entry>, key: seq<byte>, value: seq<byte>)
    requires OnlyColons(v) && First(key) == COLON
    ensures OnlyColons(ReplaceText(v, key, value))
  {
    if IsText(value) {
      AddColon(v, key, value);
    }
  }

  lemma DerivedKeys()
    ensures First(URI) == COLON && First(DECODER) == COLON && First(TRACKNUM) == COLON && First(FILETYPE) == COLON
    ensures First(DURATION) == COLON && First(TAGS) == COLON && First(HAS_CUESHEET) == COLON
    ensures forall i :: 0 <= i < 4 ==> First(RG_KEYS[i]) == COLON
  {
  }

  lemma {:induction false} GainsColon(env: Env, t: Track, v: seq<Entry>, n: nat)
    requires n <= 4 && OnlyColons(v)
    ensures OnlyColons(Gains(env, t, v, n))
    decreases 4 - n
  {
    if n < 4 {
      DerivedKeys();
      var text := env.gainText(n, env.gain(t.meta, n));
      hide ReplaceText, OnlyColons;
      if text.Some? {
        ReplaceColon(v, RG_KEYS[n], text.value);
      }
      GainsColon(env, t, if text.Some? then ReplaceText(v, RG_KEYS[n], text.value) else v, n + 1);
    }
  }

  lemma AddTextColon(v: seq<Entry>, key: seq<byte>, s: seq<byte>)
    requires OnlyColons(v) && First(key) == COLON
    ensures OnlyColons(AddText(v, key, s))
  {
    hide AddFull, OnlyColons, Terminated;
    var value := CString(s + [0]) + [0];
    if IsText(value) {
      AddColon(v, key, value);
    }
  }

  lemma DerivedColon(env: Env, t: Track)
    ensures OnlyColons(Derived(env, t))
  {
    DerivedKeys();
    assert OnlyColons([]);
    var v1 := AddText([], URI, Path(Text(t.meta, URI)));
    var v2 := if Text(t.meta, DECODER) != [] then AddText(v1, DECODER, Text(t.meta, DECODER)) else v1;
    var w1 := ReplaceText(DbplProofs.Names(env, t).0, DURATION, env.durationText(t.duration));
    var ft := Short(Text(t.meta, FILETYPE));
    var w2 := ReplaceText(Legacy(env, t, w1), TAGS, env.tagsText(t.flags));
    hide OnlyColons, AddText, ReplaceText, Text, Path, Gains, Printed, CString, First;
    AddTextColon([], URI, Path(Text(t.meta, URI)));
    AddTextColon(v1, DECODER, Text(t.meta, DECODER));
    ReplaceColon(v2, TRACKNUM, CString(Printed(env.trackNum(t.meta) as int) + [0]) + [0]);
    ReplaceColon(DbplProofs.Names(env, t).0, DURATION, env.durationText(t.duration));
    ReplaceColon(w1, FILETYPE, CString(ft + [0]) + [0]);
    GainsColon(env, t, if ft != [] then Put(w1, FILETYPE, ft) else w1, 0);
    ReplaceColon(Legacy(env, t, w1), TAGS, env.tagsText(t.flags));
    ReplaceColon(w2, HAS_CUESHEET, env.cuesheetText(t.flags));
  }

  lemma ColonsLackPlain(v: seq<Entry>, key: seq<byte>)
    requires OnlyColons(v) && First(key) != COLON
    ensures Absent(v, key)
  {
    hide Fold;
    if Find(v, key) < |v| {
      FoldKeepsKind(v[Find(v, key)].key, key);
    }
  }

  // ----- plain keys -------------------------------------------------------------------------

  /** The entries with plain keys, in order. */
  function Plain(v: seq<Entry>): seq<Entry> {
    if v == [] then []
    else if IsProp(v[0].key) then Plain(v[1..])
    else [v[0]] + Plain(v[1..])
  }

  lemma {:induction false} PlainConcat(a: seq<Entry>, b: seq<Entry>)
    ensures Plain(a + b) == Plain(a) + Plain(b)
  {
    hide IsProp;
    if a == [] {
      assert a + b == b && Plain(a) == [];
    } else {
      assert (a + b)[1..] == a[1..] + b;
      PlainConcat(a[1..], b);
    }
  }

  lemma {:induction false} NonePlain(v: seq<Entry>)
    requires forall i :: 0 <= i < |v| ==> IsProp(v[i].key)
    ensures Plain(v) == []
  {
    hide IsProp;
    if v != [] {
      NonePlain(v[1..]);
    }
  }

  lemma {:induction false} PlainSaved(v: seq<Entry>)
    ensures Plain(Taken(Saved(v))) == Plain(Taken(v))
  {
    hide ShortValue;
    if v != [] {
      PlainSaved(v[1..]);
      PlainConcat([v[0]], Taken(Saved(v[1..])));
      PlainConcat([v[0]], Taken(v[1..]));
      assert ([v[0]] + Saved(v[1..]))[1..] == Saved(v[1..]);
      assert IsSaved(v[0]) || IsProp(v[0].key);
      assert [v[0]][1..] == [];
    }
  }

  // ----- reserved keys ----------------------------------------------------------------------

  /** Keys that start with '_' or '!' are not for files. */
  predicate Reserved(key: seq<byte>) {
    key != [] && (key[0] == 95 || key[0] == 33)
  }

  ghost predicate NoneReserved(v: seq<Entry>) {
    forall i :: 0 <= i < |v| ==> !Reserved(v[i].key)
  }

  lemma AddUnreserved(v: seq<Entry>, key: seq<byte>, value: seq<byte>)
    requires NoneReserved(v) && !Reserved(key) && Terminated(value) && value != []
    ensures NoneReserved(AddFull(v, key, value))
  {
    hide Stored, Find, Slot;
    assert Reserved(StoredKey(key)) ==> Reserved(key);
    hide StoredKey;
  }

  lemma StepUnreserved(v: seq<Entry>, e: Entry)
    requires EntryOk(e) && NoneReserved(v) && !Reserved(e.key)
    ensures NoneReserved(Step(v, e))
  {
    AddUnreserved(v, e.key, e.value);
    hide AddFull, Reserved;
  }

  lemma {:induction false} StepsUnreserved(v: seq<Entry>, s: seq<Entry>)
    requires AllOk(s) && NoneReserved(v) && NoneReserved(s)
    ensures forall i :: 0 <= i < |s| ==> IsValue(s[i].value) && (First(s[i].key) == COLON ==> IsText(s[i].value))
    ensures NoneReserved(Steps(v, s))
    decreases |s|
  {
    OkValues(s);
    if s != [] {
      AllOkCons(v, s);
      hide EntryOk, Step, Fold, Steps, AllOk, IsValue, IsText, Stored, StoredKey, Reserved;
      StepUnreserved(v, s[0]);
      StepsUnreserved(Step(v, s[0]), s[1..]);
    }
  }

  lemma SavedUnreserved(v: seq<Entry>)
    ensures NoneReserved(Taken(Saved(v)))
    ensures forall i :: 0 <= i < |v| && !Reserved(v[i].key) && |v[i].value| <= 20000 ==> v[i] in Taken(Saved(v))
  {
    var s := Taken(Saved(v));
    assert forall i :: 0 <= i < |s| ==> s[i] in s;
    assert forall i :: 0 <= i < |v| ==> v[i] in v;
  }

  lemma ColonsUnreserved(v: seq<Entry>)
    requires OnlyColons(v)
    ensures NoneReserved(v)
  {
  }

  /** Plain keys, then properties, at least one. */
  ghost predicate Shaped(v: seq<Entry>) {
    v != [] && IsProp(v[|v| - 1].key) && forall i, j :: 0 <= i < j < |v| && IsProp(v[i].key) ==> IsProp(v[j].key)
  }

  lemma InsertPlain(v: seq<Entry>, e: Entry)
    requires Shaped(v)
    ensures Shaped(Insert(v, Slot(v, e.key), e)) && Plain(Insert(v, Slot(v, e.key), e)) == Plain(v) + Plain([e])
  {
    hide IsProp, Slot, Insert, Plain;
    var p := Slot(v, e.key);
    PropsBehind(v, e.key);
    InsertShaped(v, p, e);
    PlainAround(v, p, e);
  }

  lemma PropsBehind(v: seq<Entry>, key: seq<byte>)
    requires Shaped(v)
    ensures if IsProp(key) then Slot(v, key) == |v| else Slot(v, key) < |v| && IsProp(v[Slot(v, key)].key)
    ensures forall i :: Slot(v, key) <= i < |v| ==> IsProp(v[i].key)
    ensures !IsProp(key) ==> forall i :: 0 <= i < Slot(v, key) ==> !IsProp(v[i].key)
  {
    hide IsProp;
  }

  lemma InsertShaped(v: seq<Entry>, p: nat, e: Entry)
    requires Shaped(v) && p <= |v| && (if IsProp(e.key) then p == |v| else p < |v|)
    requires !IsProp(e.key) ==> forall i :: 0 <= i < p ==> !IsProp(v[i].key)
    ensures Shaped(Insert(v, p, e))
  {
    hide IsProp;
    var r := Insert(v, p, e);
    assert forall i :: 0 <= i < |r| ==> r[i] == if i < p then v[i] else if i == p then e else v[i - 1];
  }

  lemma PlainAround(v: seq<Entry>, p: nat, e: Entry)
    requires p <= |v| && forall i :: p <= i < |v| ==> IsProp(v[i].key)
    ensures Plain(Insert(v, p, e)) == Plain(v) + Plain([e])
  {
    hide IsProp, Plain;
    NonePlain(v[p..]);
    assert v[..p] + v[p..] == v;
    PlainConcat(v[..p], v[p..]);
    PlainConcat(v[..p] + [e], v[p..]);
    PlainConcat(v[..p], [e]);
    assert Plain(v[..p]) + [] == Plain(v[..p]);
    assert Plain(v[..p]) + Plain([e]) + [] == Plain(v[..p]) + Plain([e]);
  }

  lemma {:induction false} UpdatePlain(v: seq<Entry>, p: nat, e: Entry)
    requires p < |v| && e.key == v[p].key && IsProp(e.key)
    ensures Plain(v[p := e]) == Plain(v)
  {
    hide IsProp;
    var r := v[p := e];
    if p == 0 {
      assert r[1..] == v[1..];
    } else {
      assert r[1..] == v[1..][p - 1 := e];
      UpdatePlain(v[1..], p - 1, e);
    }
  }

  lemma StepPlain(v: seq<Entry>, e: Entry)
    requires Shaped(v) && EntryOk(e) && IsSaved(e) && (First(e.key) != COLON ==> Absent(v, e.key))
    ensures Shaped(Step(v, e)) && Plain(Step(v, e)) == Plain(v) + Plain([e])
  {
    hide Stored, StoredKey, Fold, Slot, Insert, Plain;
    var f := Find(v, e.key);
    if f < |v| {
      FoldKeepsKind(v[f].key, e.key);
      UpdatePlain(v, f, Entry(v[f].key, e.value));
      NonePlain([e]);
      assert Plain(v) + [] == Plain(v);
    } else {
      InsertPlain(v, e);
    }
  }

  /** The plain keys of the list follow those it had, in order. */
  lemma {:induction false} StepsPlain(v: seq<Entry>, s: seq<Entry>)
    requires AllOk(s) && PlainAbsent(v, s) && Shaped(v) && forall i :: 0 <= i < |s| ==> IsSaved(s[i])
    ensures forall i :: 0 <= i < |s| ==> IsValue(s[i].value) && (First(s[i].key) == COLON ==> IsText(s[i].value))
    ensures Plain(Steps(v, s)) == Plain(v) + Plain(s)
    decreases |s|
  {
    hide *;
    OkValues(s);
    PlainCons(v, s);
    if s != [] {
      AllOkCons(v, s);
      PlainFirst(v, s);
      StepPlain(v, s[0]);
      PlainStays(v, s);
      StepsPlain(Step(v, s[0]), s[1..]);
      Assoc(Plain(v), Plain([s[0]]), Plain(s[1..]));
    }
  }

  lemma PlainCons(v: seq<Entry>, s: seq<Entry>)
    requires AllOk(s)
    ensures forall i :: 0 <= i < |s| ==> IsValue(s[i].value) && (First(s[i].key) == COLON ==> IsText(s[i].value))
    ensures s == [] ==> Steps(v, s) == v && Plain(v) + Plain(s) == Plain(v)
    ensures s != [] ==> Plain(s) == Plain([s[0]]) + Plain(s[1..])
  {
    OkValues(s);
    if s != [] {
      assert s == [s[0]] + s[1..];
      PlainConcat([s[0]], s[1..]);
    }
  }

  lemma ReplaceGrows(v: seq<Entry>, key: seq<byte>, value: seq<byte>)
    ensures |ReplaceText(v, key, value)| >= |v|
    ensures IsText(value) && value[0] != 0 ==> ReplaceText(v, key, value) != []
  {
    hide Stored, StoredKey, Slot, Find;
  }

  lemma {:induction false} GainsGrow(env: Env, t: Track, v: seq<Entry>, n: nat)
    requires n <= 4
    ensures |Gains(env, t, v, n)| >= |v|
    decreases 4 - n
  {
    hide ReplaceText;
    if n < 4 {
      var text := env.gainText(n, env.gain(t.meta, n));
      if text.Some? {
        ReplaceGrows(v, RG_KEYS[n], text.value);
      }
      GainsGrow(env, t, if text.Some? then ReplaceText(v, RG_KEYS[n], text.value) else v, n + 1);
    }
  }

  /** The track number is always there. */
  lemma DerivedShaped(env: Env, t: Track)
    ensures Shaped(Derived(env, t)) && Plain(Derived(env, t)) == []
  {
    var names := DbplProofs.Names(env, t).0;
    var w1 := ReplaceText(names, DURATION, env.durationText(t.duration));
    var ft := Short(Text(t.meta, FILETYPE));
    var w2 := ReplaceText(Legacy(env, t, w1), TAGS, env.tagsText(t.flags));
    DerivedColon(env, t);
    NamesThere(env, t);
    hide ReplaceText, Text, Gains, Printed, CString, First, DbplProofs.Names;
    ReplaceGrows(names, DURATION, env.durationText(t.duration));
    ReplaceGrows(w1, FILETYPE, CString(ft + [0]) + [0]);
    GainsGrow(env, t, if ft != [] then Put(w1, FILETYPE, ft) else w1, 0);
    ReplaceGrows(Legacy(env, t, w1), TAGS, env.tagsText(t.flags));
    ReplaceGrows(w2, HAS_CUESHEET, env.cuesheetText(t.flags));
    NonePlain(Derived(env, t));
  }

  lemma NamesThere(env: Env, t: Track)
    ensures DbplProofs.Names(env, t).0 != []
  {
    var v1 := AddText([], URI, Path(Text(t.meta, URI)));
    var v2 := if Text(t.meta, DECODER) != [] then AddText(v1, DECODER, Text(t.meta, DECODER)) else v1;
    var s := Printed(env.trackNum(t.meta) as int);
    hide AddText, Text, Path, Printed, ReplaceText;
    NoZero(s);
    assert IsText(s + [0]) by {
      StrLenUnique(s + [0], |s|);
    }
    ReplaceGrows(v2, TRACKNUM, s + [0]);
  }

  // ----- tracks -----------------------------------------------------------------------------

  /** A sample and its key say the same: the wide field is set exactly when the key is there, with the
      number it holds, and the 32-bit word is that number cut to 32 bits, but at most 2^31 - 1. */
  ghost predicate SampleOk(s: Sample, v: seq<Entry>, key: seq<byte>) {
    && (s.wide.None? ==> forall i :: 0 <= i < |v| ==> v[i].key != key)
    && (s.wide.Some? ==>
          && s.word == (if s.wide.value < 0x7fff_ffff then s.wide.value % 0x1_0000_0000 else 0x7fff_ffff)
          && exists i :: 0 <= i < |v| && v[i].key == key && Atoll(Inner(v[i].value)) == s.wide.value)
  }

  /** A track that comes back whole, but for values of 20000 bytes or more. */
  ghost predicate Savable(t: Track) {
    var s := Taken(Saved(t.meta));
    TrackFits(t) && Loadable(t) && AllOk(s) && SampleOk(t.start, s, STARTSAMPLE) && SampleOk(t.end, s, ENDSAMPLE)
  }

  /** The fields; every key that is not reserved, if its value has fewer than 20000 bytes before the last zero; no
      reserved key; and exactly those plain keys, in order. */
  ghost predicate Same(t: Track, r: Track) {
    && r.flags == t.flags && r.duration == t.duration && r.start == t.start && r.end == t.end
    && (forall i :: 0 <= i < |t.meta| && !Reserved(t.meta[i].key) && |t.meta[i].value| <= 20000 ==>
          Has(r.meta, t.meta[i]))
    && NoneReserved(r.meta) && Plain(r.meta) == Plain(Taken(t.meta))
  }

  lemma SampleBack(s: Sample, v: seq<Entry>, key: seq<byte>)
    requires SampleOk(s, v, key) && Distinct(v)
    ensures Setter(v, key, Sample(s.word, None)) == s
  {
    hide Atoll, Distinct;
    SetterIs(v, key, Sample(s.word, None));
  }

  lemma TrackSame(env: Env, t: Track)
    requires Savable(t)
    ensures Same(t, Restored(env, t))
  {
    var saved, base := Taken(Saved(t.meta)), Derived(env, t);
    hide Derived, Steps, Setter, EntryOk, Has, ApplyAll, Absent, SampleOk, Distinct, TrackFits, Loadable, First, Taken,
         Reserved, NoneReserved;
    DerivedColon(env, t);
    ApplyAllIs(Track(base, Sample(t.start.word, None), Sample(t.end.word, None), t.duration, t.flags), saved);
    SampleBack(t.start, saved, STARTSAMPLE);
    SampleBack(t.end, saved, ENDSAMPLE);
    forall j | 0 <= j < |saved| && First(saved[j].key) != COLON
      ensures Absent(base, saved[j].key)
    {
      ColonsLackPlain(base, saved[j].key);
    }
    SavedUnreserved(t.meta);
    ColonsUnreserved(base);
    StepsUnreserved(base, saved);
    forall i | 0 <= i < |t.meta| && !Reserved(t.meta[i].key) && |t.meta[i].value| <= 20000
      ensures Has(Restored(env, t).meta, t.meta[i])
    {
      var j :| 0 <= j < |saved| && saved[j] == t.meta[i];
      StepsGive(base, saved, j);
    }
    PlainBack(env, t);
  }

  lemma PlainBack(env: Env, t: Track)
    requires Savable(t)
    ensures Plain(Restored(env, t).meta) == Plain(Taken(t.meta))
  {
    var saved, base := Taken(Saved(t.meta)), Derived(env, t);
    hide Derived, Steps, Setter, EntryOk, ApplyAll, Absent, SampleOk, TrackFits, Loadable, First, Plain, Shaped,
         Savable, Distinct, ShortValue;
    SavableIs(t);
    DerivedColon(env, t);
    DerivedShaped(env, t);
    ApplyAllIs(Track(base, Sample(t.start.word, None), Sample(t.end.word, None), t.duration, t.flags), saved);
    forall j | 0 <= j < |saved| && First(saved[j].key) != COLON
      ensures Absent(base, saved[j].key)
    {
      ColonsLackPlain(base, saved[j].key);
    }
    assert forall i :: 0 <= i < |saved| ==> saved[i] in saved;
    StepsPlain(base, saved);
    PlainSaved(t.meta);
    assert [] + Plain(saved) == Plain(saved);
  }

  lemma SavableIs(t: Track)
    requires Savable(t)
    ensures AllOk(Taken(Saved(t.meta)))
  {
  }

  /** Saving a playlist and loading the bytes into an empty one gives as many tracks, in the same order, with the
      same fields and the same value for every key, and the same playlist metadata; but values of 20000 bytes or
      more are left out of both. */
  lemma PlaylistRoundTrip(env: Env, tracks: seq<Track>, pairs: seq<Entry>)
    requires EnvOk(env) && |tracks| < U32 && PairsFit(pairs) && forall i :: 0 <= i < |tracks| ==> Savable(tracks[i])
    ensures var r := Load(env, Save(env, tracks, pairs));
      && r.ok && |r.tracks| == |tracks| && r.pairs == Taken(pairs)
      && (forall i :: 0 <= i < |tracks| ==> Same(tracks[i], r.tracks[i]))
  {
    forall i | 0 <= i < |tracks|
      ensures TrackFits(tracks[i]) && Loadable(tracks[i]) && Same(tracks[i], Restored(env, tracks[i]))
    {
      TrackSame(env, tracks[i]);
    }
    hide Same, Restored, Savable, TrackFits, Loadable, Load, Save, EnvOk, PairsFit, Taken;
    LoadSaved(env, tracks, pairs);
  }
}
