/** The store itself: the list, the changed flag and the two files, and the loops over them. */
module ConfStore {
  import opened PlayItems
  import opened MetaSpec
  import opened BufferedWriter
  import opened ConfSpec
  import opened ConfRuns
  import opened ConfFiles

  class Conf {
    var items: seq<Item>
    var changed: bool
    var disableSaving: bool
    /** The contents of the two files. */
    var config: seq<byte>
    var secrets: seq<byte>
    /** The list when the files were last written or loaded, and whether a key was deleted since. */
    ghost var written: seq<Item>
    ghost var lost: bool

    ghost predicate Valid()
      reads `items
    {
      Sorted(items)
    }

    ghost function Abs(): State
      reads this
    {
      State(items, changed, config, secrets, written, lost)
    }

    /** An empty store beside two files. */
    constructor (config: seq<byte>, secrets: seq<byte>)
      ensures Valid() && items == [] && !changed && !disableSaving && this.config == config && this.secrets == secrets
    {
      items, changed, disableSaving := [], false, false;
      this.config, this.secrets := config, secrets;
      written, lost := [], false;
    }

    /** conf_get_str_fast */
    method GetStrFast(key: seq<byte>) returns (value: Option<seq<byte>>)
      ensures value == Lookup(items, key)
    {
      var i := 0;
      while i < |items|
        invariant i <= |items| && forall k :: 0 <= k < i ==> !SameKey(key, items[k].key)
      {
        if SameKey(key, items[i].key) {
          LookupFirst(items, key, i);
          return Some(items[i].value);
        }
        i := i + 1;
      }
      LookupFirst(items, key, i);
      return None;
    }

    /** conf_set_str; deleting a key does not count as a change. */
    method SetStr(key: seq<byte>, value: Option<seq<byte>>)
      requires Valid()
      modifies `items, `changed
      ensures Valid() && items == Set(old(items), key, value)
      ensures Changed(old(items), key, value, items)
      ensures changed <==> old(changed) || (value.Some? && items != old(items))
    {
      SetKeepsOrder(items, key, value);
      SetChanges(items, key, value);
      PlaceSplits(items, key);
      ghost var p, old_ := Place(items, key), items;
      hide Fold, Place, Less, Sorted, Changed;
      var i := 0;
      while i < |items|
        invariant i <= p && items == old_ && changed == old(changed)
      {
        if SameKey(key, items[i].key) {
          FoundAt(items, key, i);
          if value.None? {
            items := items[..i] + items[i + 1..];
            return;
          }
          if items[i].value == value.value {
            assert items[i := Item(items[i].key, value.value)] == items;
            return;
          }
          items := items[i := Item(items[i].key, value.value)];
          changed := true;
          return;
        } else if Before(key, items[i].key) {
          break;
        }
        NotYet(items, key, i);
        i := i + 1;
      }
      StopsAt(items, key, i);
      if value.None? {
        return;
      }
      changed := true;
      items := items[..i] + [Item(key, value.value)] + items[i..];
    }

    /** conf_remove_items: drops one contiguous run. */
    method RemoveItems(prefix: seq<byte>)
      requires Valid()
      modifies `items, `changed
      ensures Valid() && items == Without(old(items), prefix)
      ensures forall x :: x in items <==>
        x in old(items) && !(|prefix| <= |x.key| && SameKey(prefix, x.key[..|prefix|]))
      ensures changed <==> old(changed) || items != old(items)
    {
      WithoutKeepsOrder(items, prefix);
      WithoutIs(items, prefix);
      ghost var s := items;
      hide HasPrefix, Without, Sorted;
      var i := 0;
      while i < |items| && !HasPrefix(prefix, items[i].key)
        invariant i <= |items| && items == s && changed == old(changed)
        invariant forall k :: 0 <= k < i ==> !HasPrefix(prefix, s[k].key)
      {
        i := i + 1;
      }
      if i < |items| {
        changed := true;
      }
      var j := i;
      while j < |items| && HasPrefix(prefix, items[j].key)
        invariant i <= j <= |items| && items == s && changed == (old(changed) || i < |items|)
        invariant forall k :: i <= k < j ==> HasPrefix(prefix, s[k].key)
        invariant i < |items| && j == i ==> HasPrefix(prefix, s[i].key)
        decreases |items| - j
      {
        j := j + 1;
      }
      OneRun(s, prefix, i, j);
      Shorter(s, i, j);
      items := items[..i] + items[j..];
    }

    /** One line of the buffer from `str` on; the line is cut off by a zero. */
    method LoadLine(buffer: array<byte>, str: nat) returns (next: nat)
      requires Valid() && str < buffer.Length && buffer[buffer.Length - 1] == 0 && buffer[str] != 0
      modifies `items, `changed, buffer
      ensures Valid() && str < next <= buffer.Length
      ensures forall k :: next <= k < buffer.Length ==> buffer[k] == old(buffer[k])
      ensures var b := old(buffer[..buffer.Length - 1]);
        next == LineEnd(b, str) + 1 && items == Take(old(items), ParseLine(b[str..LineEnd(b, str)]))
    {
      ghost var b := buffer[..buffer.Length - 1];
      hide Set, ParseLine;
      var estr := str;
      while buffer[estr] >= 0x20
        invariant str <= estr < buffer.Length && forall k :: str <= k < estr ==> buffer[k] >= 0x20
        decreases buffer.Length - estr
      {
        estr := estr + 1;
      }
      EndFound(b, str, estr);
      var line := buffer[str..estr];
      assert line == b[str..estr];
      buffer[estr] := 0;
      next := estr + 1;
      var item := ReadLine(line);
      if item.Some? {
        SetStr(item.value.key, Some(item.value.value));
      }
    }

    /** _conf_load_buffer; the buffer ends with a zero. */
    method LoadBuffer(buffer: array<byte>)
      requires Valid() && buffer.Length > 0 && buffer[buffer.Length - 1] == 0
      modifies `items, `changed, buffer
      ensures Valid() && items == LoadFile(old(items), old(buffer[..buffer.Length - 1]))
    {
      hide *;
      ghost var b, n := buffer[..buffer.Length - 1], buffer.Length - 1;
      ghost var all := Load(items, b, 0);
      LoadFileIs(items, b);
      var str := 0;
      while str < buffer.Length && buffer[str] != 0
        invariant str <= buffer.Length && Valid() && Load(items, b, str) == all
        invariant forall k :: str <= k <= n ==> buffer[k] == if k < n then b[k] else 0
        decreases buffer.Length - str
      {
        SameTail(buffer, b, str);
        LoadRound(items, b, str);
        str := LoadLine(buffer, str);
      }
      LoadStops(items, b, str);
    }

    /** _conf_load_file, for a file that can be read. */
    method LoadOne(content: seq<byte>)
      requires Valid()
      modifies `items, `changed
      ensures Valid() && items == LoadFile(old(items), content)
    {
      var buffer := new byte[|content| + 1](i requires 0 <= i <= |content| => if i < |content| then content[i] else 0);
      assert buffer[..buffer.Length - 1] == content;
      LoadBuffer(buffer);
    }

    /** conf_load */
    method LoadFiles()
      requires Valid()
      modifies `items, `changed, `written, `lost
      ensures Valid() && items == LoadFile(LoadFile(old(items), config), secrets) && !changed
      ensures old(items) == [] ==> Abs() == Start(config, secrets)
    {
      hide LoadFile;
      LoadOne(config);
      LoadOne(secrets);
      changed := false;
      written, lost := items, false;
    }

    /** _conf_save_with_secrets: nothing is written unless the changed flag is set. `room` is what the
        disk takes. */
    method SavePart(secret: bool, room: nat) returns (res: int)
      modifies `config, `secrets
      ensures res == 0 || res == -1
      ensures !changed ==> res == 0
      ensures config == if changed && res == 0 && !secret then FileOf(items, false) else old(config)
      ensures secrets == if changed && res == 0 && secret then FileOf(items, true) else old(secrets)
    {
      if !changed {
        return 0;
      }
      hide FileOf;
      var fp := new Disk(room);
      res := SaveWithSecrets(items, secret, fp);
      if res < 0 {
        return -1;
      }
      assert fp.data == FileOf(items, secret);
      if secret {
        secrets := fp.data;
      } else {
        config := fp.data;
      }
    }

    /** conf_save: the changed flag is gone afterwards, even when a file could not be written. */
    method Save(roomConfig: nat, roomSecrets: nat) returns (res: int)
      requires Valid()
      modifies `changed, `config, `secrets, `written, `lost
      ensures Valid() && (res == 0 || res == -1)
      ensures disableSaving ==> res == 0 && Abs() == old(Abs())
      ensures !disableSaving ==> !changed && (res == 0 ==> Abs() == Saved(old(Abs())))
      ensures config == old(config) || (old(changed) && config == FileOf(items, false))
      ensures secrets == old(secrets) || (old(changed) && secrets == FileOf(items, true))
      ensures old(changed) && !disableSaving && res == 0 ==>
        Written(config, items, false) && Written(secrets, items, true)
    {
      if disableSaving {
        return 0;
      }
      hide FileOf, Written;
      FileWritten(items, false);
      FileWritten(items, true);
      var resConfig := SavePart(false, roomConfig);
      var resSecrets := SavePart(true, roomSecrets);
      if changed {
        written, lost := items, false;
      }
      changed := false;
      if resConfig != 0 || resSecrets != 0 {
        return -1;
      }
      return 0;
    }

    /** One call that changes the store. */
    method Perform(op: Op)
      requires Valid()
      modifies `items, `changed, `lost
      ensures Valid() && Abs() == Next(old(Abs()), Change(op))
    {
      hide Set, Without, HasKey;
      lost := lost || Deletes(items, op);
      match op {
        case SetOp(key, value) => SetStr(key, Some(value));
        case DeleteOp(key) => SetStr(key, None);
        case RemoveOp(prefix) => RemoveItems(prefix);
      }
    }

    /** Any run of changes and saves; `ok` says that every save could write. */
    method Run(steps: seq<ConfRuns.Step>, rooms: nat -> (nat, nat)) returns (ok: bool)
      requires Valid() && !disableSaving
      modifies `items, `changed, `config, `secrets, `written, `lost
      ensures Valid() && (ok ==> Abs() == RunSteps(old(Abs()), steps))
    {
      hide Next;
      ghost var all := RunSteps(Abs(), steps);
      ok := true;
      var i := 0;
      assert steps[0..] == steps;
      while i < |steps|
        invariant i <= |steps| && Valid() && !disableSaving
        invariant ok ==> RunSteps(Abs(), steps[i..]) == all
      {
        assert steps[i..][1..] == steps[i + 1..];
        ghost var before := Abs();
        SaveIsNext(before);
        match steps[i] {
          case Change(op) => Perform(op);
          case Save =>
            var res := Save(rooms(i).0, rooms(i).1);
            ok := ok && res == 0;
        }
        i := i + 1;
      }
    }
  }

  lemma SaveIsNext(st: State)
    ensures Next(st, ConfRuns.Save) == Saved(st)
  {
  }

  lemma FoundAt(s: seq<Item>, key: seq<byte>, i: nat)
    requires Sorted(s) && i < |s| && SameKey(key, s[i].key)
    ensures i == Place(s, key) && HasKey(s, key)
  {
    NotSame(s, key);
  }

  lemma NotYet(s: seq<Item>, key: seq<byte>, i: nat)
    requires Sorted(s) && i < |s| && i <= Place(s, key) && !SameKey(key, s[i].key) && !Before(key, s[i].key)
    ensures i < Place(s, key)
  {
    LessIsOrder(Fold(key), Fold(s[i].key));
  }

  lemma StopsAt(s: seq<Item>, key: seq<byte>, i: nat)
    requires Sorted(s) && i <= Place(s, key) && (i < |s| ==> Before(key, s[i].key) && !SameKey(key, s[i].key))
    ensures i == Place(s, key) && !HasKey(s, key)
  {
    PlaceSplits(s, key);
    if i < Place(s, key) {
      LessIsOrder(Fold(key), Fold(s[i].key));
    }
  }

  lemma Shorter(s: seq<Item>, i: nat, j: nat)
    requires i <= j <= |s|
    ensures s[..i] + s[j..] == s <==> i == j
  {
    if i < j {
      assert |s[..i] + s[j..]| < |s|;
    }
  }

  lemma {:induction false} EndFound(b: seq<byte>, p: nat, q: nat)
    requires p <= q <= |b| && (q < |b| ==> b[q] < 0x20) && forall k :: p <= k < q ==> b[k] >= 0x20
    ensures LineEnd(b, p) == q
  {
  }

  lemma SameTail(buffer: array<byte>, b: seq<byte>, str: nat)
    requires |b| == buffer.Length - 1 && str < buffer.Length && buffer[str] != 0
    requires forall k :: str <= k <= |b| ==> buffer[k] == if k < |b| then b[k] else 0
    ensures str < |b| && b[str] != 0
    ensures LineEnd(buffer[..|b|], str) == LineEnd(b, str)
    ensures buffer[..|b|][str..LineEnd(b, str)] == b[str..LineEnd(b, str)]
  {
    EndFound(buffer[..|b|], str, LineEnd(b, str));
  }

  lemma LoadFileIs(s: seq<Item>, b: seq<byte>)
    ensures LoadFile(s, b) == Load(s, b, 0)
  {
    hide Load;
  }

  lemma LoadStops(s: seq<Item>, b: seq<byte>, p: nat)
    requires p >= |b| || b[p] == 0
    ensures Load(s, b, p) == s
  {
  }

  /** Key and value of a line, or nothing. */
  method ReadLine(line: seq<byte>) returns (item: Option<Item>)
    requires forall k :: 0 <= k < |line| ==> line[k] >= 0x20
    ensures item == ParseLine(line)
  {
    if line == [] || line[0] == HASH_SIGN || line[0] <= 0x20 {
      return None;
    }
    var p := 0;
    while p < |line| && line[p] > 0x20
      invariant p <= |line| && forall k :: 0 <= k < p ==> line[k] > 0x20
    {
      p := p + 1;
    }
    if p == |line| {
      WholeKey(line);
      return None;
    }
    KeyEndIs(line, p);
    var rest := line[p + 1..];
    while rest != [] && rest[0] <= 0x20
      invariant SkipBlanks(rest) == SkipBlanks(line[p + 1..])
      decreases |rest|
    {
      rest := rest[1..];
    }
    return Some(Item(line[..p], rest));
  }

  lemma WholeKey(l: seq<byte>)
    requires forall k :: 0 <= k < |l| ==> l[k] > 0x20
    ensures KeyEnd(l) == |l|
  {
  }

  const BUFFER_SIZE := 64 * 1024

  /** The loop of _conf_save_with_secrets, in front of a file. */
  method SaveWithSecrets(items: seq<Item>, secrets: bool, fp: Disk) returns (res: int)
    modifies fp
    ensures res == 0 ==> fp.data == old(fp.data) + FileOf(items, secrets)
    ensures res == 0 || res == -1
  {
    var writer := new Writer(fp, BUFFER_SIZE);
    ghost var all, done := FileOf(items, secrets), [];
    assert writer.Total() == old(fp.data) + done;
    NothingSaved(items, secrets);
    var it := items;
    while it != []
      invariant writer.Valid() && writer.fp == fp && fresh(writer.Repr() - {fp})
      invariant writer.Total() == old(fp.data) + done && all == done + FileOf(it, secrets)
      decreases |it|
    {
      hide Line, IsSecret, FileOf;
      FileRound(it, secrets, done);
      if IsSecret(it[0].key) == secrets {
        res := SaveItem(writer, it[0]);
        if res < 0 {
          return -1;
        }
        Longer(old(fp.data), done, Line(it[0]));
        done := done + Line(it[0]);
      }
      it := it[1..];
    }
    NothingSaved(it, secrets);
    assert done + [] == done;
    res := writer.Flush();
    assert res == 0 ==> writer.Total() == fp.data + [] == fp.data;
  }

  lemma Longer(a: seq<byte>, b: seq<byte>, c: seq<byte>)
    ensures (a + b) + c == a + (b + c)
  {
  }

  lemma NothingSaved(items: seq<Item>, secrets: bool)
    ensures FileOf(items, secrets) == [] + FileOf(items, secrets) && FileOf([], secrets) == []
  {
  }

  lemma FileRound(it: seq<Item>, secrets: bool, done: seq<byte>)
    requires it != []
    ensures done + FileOf(it, secrets) ==
      if IsSecret(it[0].key) == secrets then (done + Line(it[0])) + FileOf(it[1..], secrets)
      else done + FileOf(it[1..], secrets)
  {
    hide Line, IsSecret;
    PartStep(it, secrets);
    LinesStep(Part(it, secrets));
    hide *;
    if IsSecret(it[0].key) == secrets {
      assert ([it[0]] + Part(it[1..], secrets))[1..] == Part(it[1..], secrets);
      Longer(done, Line(it[0]), Lines(Part(it[1..], secrets)));
    }
    Files(it, secrets);
    Files(it[1..], secrets);
  }

  lemma PartStep(s: seq<Item>, secrets: bool)
    requires s != []
    ensures Part(s, secrets) == (if IsSecret(s[0].key) == secrets then [s[0]] else []) + Part(s[1..], secrets)
  {
    assert [] + Part(s[1..], secrets) == Part(s[1..], secrets);
    hide IsSecret;
  }

  lemma LinesStep(s: seq<Item>)
    ensures Lines(s) == if s == [] then [] else Line(s[0]) + Lines(s[1..])
  {
  }

  lemma Files(s: seq<Item>, secrets: bool)
    ensures FileOf(s, secrets) == Lines(Part(s, secrets))
  {
  }

  method SaveItem(writer: Writer, i: Item) returns (res: int)
    requires writer.Valid() && writer.fp != null
    modifies writer.Repr()
    ensures writer.Valid() && fresh(writer.Repr() - old(writer.Repr())) && (res == 0 || res == -1)
    ensures res == 0 ==> writer.Total() == old(writer.Total()) + Line(i)
  {
    hide Writer.Total;
    res := writer.Write(i.key);
    if res < 0 {
      return -1;
    }
    res := writer.Write([BLANK]);
    if res < 0 {
      return -1;
    }
    res := writer.Write(i.value);
    if res < 0 {
      return -1;
    }
    res := writer.Write([NEWLINE]);
  }
}
