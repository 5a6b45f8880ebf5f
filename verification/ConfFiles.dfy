/** What stands in the two files of the configuration, and what a line of a file means, said of the bytes alone. */
module ConfFiles {
  import opened PlayItems
  import opened MetaSpec
  import opened ConfSpec
  import opened Selections

  // ----- what a save writes ----------------------------------------------------------------

  /** A key that contains ".secret.". */
  ghost predicate Marked(key: seq<byte>) {
    exists pre, post :: MarkBetween(key, pre, post)
  }

  predicate MarkBetween(key: seq<byte>, pre: seq<byte>, post: seq<byte>) {
    key == pre + [46, 115, 101, 99, 114, 101, 116, 46] + post
  }

  function LinesOf(s: seq<Item>): seq<byte> {
    if s == [] then [] else s[0].key + [32] + s[0].value + [10] + LinesOf(s[1..])
  }

  /** A file consists of the lines of exactly the items whose key is marked, or not marked, in their order. */
  ghost predicate Written(file: seq<byte>, s: seq<Item>, marked: bool) {
    exists r :: Picks(s, (i: Item) => Marked(i.key) == marked, r) && file == LinesOf(r)
  }

  lemma MarkBytes()
    ensures SECRET == [46, 115, 101, 99, 114, 101, 116, 46]
  {
  }

  lemma MarkHere(key: seq<byte>, pre: seq<byte>, mark: seq<byte>, post: seq<byte>)
    requires key == pre + mark + post
    ensures |pre| + |mark| <= |key| && key[|pre|..|pre| + |mark|] == mark
  {
  }

  lemma MarkSplits(key: seq<byte>, i: nat, mark: seq<byte>)
    requires i + |mark| <= |key| && key[i..i + |mark|] == mark
    ensures key == key[..i] + mark + key[i + |mark|..]
  {
  }

  lemma MarkedIs(key: seq<byte>)
    ensures Marked(key) <==> IsSecret(key)
  {
    MarkBytes();
    hide Ascii, SECRET;
    var mark := SECRET;
    if pre, post :| MarkBetween(key, pre, post) {
      MarkHere(key, pre, mark, post);
      assert SecretAt(key, |pre|);
    }
    if i: nat :| i <= |key| - |SECRET| && SecretAt(key, i) {
      MarkSplits(key, i, mark);
      assert MarkBetween(key, key[..i], key[i + |mark|..]);
    }
  }

  lemma {:induction false} LinesAre(s: seq<Item>)
    ensures Lines(s) == LinesOf(s)
  {
    if s != [] {
      LinesAre(s[1..]);
    }
  }

  lemma {:induction false} PartPicks(s: seq<Item>, secrets: bool)
    ensures Picks(s, (i: Item) => Marked(i.key) == secrets, Part(s, secrets))
  {
    hide IsSecret, Marked, Picks;
    var keep := (i: Item) => Marked(i.key) == secrets;
    if s == [] {
      PicksNone(s, keep);
    } else {
      MarkedIs(s[0].key);
      PartPicks(s[1..], secrets);
      if Marked(s[0].key) == secrets {
        PicksTake(s, keep, Part(s[1..], secrets));
      } else {
        PicksDrop(s, keep, Part(s[1..], secrets));
      }
    }
  }

  lemma FileWritten(s: seq<Item>, secrets: bool)
    ensures Written(FileOf(s, secrets), s, secrets)
  {
    PartPicks(s, secrets);
    LinesAre(Part(s, secrets));
    hide Picks, Marked, Lines, LinesOf;
  }

  /** Loaded alone, a file that a save wrote holds exactly the items whose key is marked, or not marked. */
  lemma LoadedAlone(s: seq<Item>, secrets: bool, x: Item)
    requires Sorted(s) && AllGood(s)
    ensures x in LoadFile([], FileOf(s, secrets)) <==> x in s && Marked(x.key) == secrets
  {
    hide *;
    var part, none: seq<byte>, empty: seq<Item> := Part(s, secrets), [], [];
    MarkedIs(x.key);
    SortedIsDistinct(s);
    PartDistinct(s, secrets);
    PartGood(s, secrets);
    NothingFirst(part);
    LinesBack(empty, none, part);
    SetAllAdds(empty, part);
    LoadsLines(s, secrets);
    PartMembers(s, secrets, x);
  }

  lemma PartGood(s: seq<Item>, secrets: bool)
    requires AllGood(s)
    ensures AllGood(Part(s, secrets))
  {
    hide IsSecret, Good;
    var part := Part(s, secrets);
    forall i | 0 <= i < |part| ensures Good(part[i]) {
      assert part[i] in part && part[i] in s;
    }
  }

  lemma NothingFirst(part: seq<Item>)
    ensures [] + Lines(part) == Lines(part) && Sorted([]) && Apart([], part)
  {
    hide Lines;
  }

  lemma LoadsLines(s: seq<Item>, secrets: bool)
    ensures LoadFile([], FileOf(s, secrets)) == Load([], Lines(Part(s, secrets)), 0)
  {
    hide Load, Lines, Part;
  }

  lemma PartMembers(s: seq<Item>, secrets: bool, x: Item)
    ensures x in Part(s, secrets) <==> x in s && IsSecret(x.key) == secrets
  {
  }

  // ----- what a line means -----------------------------------------------------------------

  /** A line has no control characters, and one follows it or the file ends. */
  predicate LineIn(l: seq<byte>, post: seq<byte>) {
    (forall k :: 0 <= k < |l| ==> l[k] >= 32) && (post != [] ==> post[0] < 32)
  }

  lemma LineHere(s: seq<Item>, pre: seq<byte>, l: seq<byte>, post: seq<byte>)
    requires LineIn(l, post) && l != []
    ensures Load(s, pre + l + post, |pre|) == Load(Take(s, ParseLine(l)), pre + l + post, |pre| + |l| + 1)
  {
    var b, p, q := pre + l + post, |pre|, |pre| + |l|;
    assert b[p..q] == l && b[p] == l[0] && forall k :: p <= k < q ==> b[k] == l[k - p];
    assert q < |b| ==> b[q] == post[0];
    EndOfLine(b, p, q);
    hide LineEnd, Take, ParseLine;
    LoadRound(s, b, p);
  }

  lemma {:induction false} EndOfLine(b: seq<byte>, p: nat, q: nat)
    requires p <= q <= |b| && (q < |b| ==> b[q] < 32) && forall i :: p <= i < q ==> b[i] >= 32
    ensures LineEnd(b, p) == q
  {
  }

  /** Comments, lines that start with a blank and lines without a blank are skipped. */
  lemma LineSkipped(s: seq<Item>, pre: seq<byte>, l: seq<byte>, post: seq<byte>)
    requires LineIn(l, post) && l != [] && (l[0] == 35 || l[0] == 32 || 32 !in l)
    ensures Load(s, pre + l + post, |pre|) == Load(s, pre + l + post, |pre| + |l| + 1)
  {
    LineHere(s, pre, l, post);
    if l[0] != 35 && l[0] != 32 {
      NoBlank(l);
    }
    hide Load;
  }

  lemma {:induction false} NoBlank(l: seq<byte>)
    requires (forall k :: 0 <= k < |l| ==> l[k] >= 32) && 32 !in l
    ensures KeyEnd(l) == |l|
  {
    if l != [] {
      assert l[0] in l;
      NoBlank(l[1..]);
    }
  }

  /** Any other line sets the key up to its first blank to what stands behind the blanks. */
  lemma LineSets(s: seq<Item>, pre: seq<byte>, l: seq<byte>, key: seq<byte>, gap: seq<byte>, value: seq<byte>,
                 post: seq<byte>)
    requires LineIn(l, post) && l == key + [32] + gap + value
    requires key != [] && key[0] != 35 && 32 !in key && (forall k :: 0 <= k < |gap| ==> gap[k] == 32)
    requires value != [] ==> value[0] != 32
    ensures Load(s, pre + l + post, |pre|) == Load(Set(s, key, Some(value)), pre + l + post, |pre| + |l| + 1)
  {
    LineBytes(l, post);
    LineParsed(l, key, gap, value);
    hide *;
    LineShape(key, gap, value);
    LineHere(s, pre, l, post);
    Taken(s, key, value);
  }

  lemma LineBytes(l: seq<byte>, post: seq<byte>)
    requires LineIn(l, post)
    ensures forall k :: 0 <= k < |l| ==> l[k] >= 32
  {
  }

  lemma Taken(s: seq<Item>, key: seq<byte>, value: seq<byte>)
    ensures Take(s, Some(Item(key, value))) == Set(s, key, Some(value))
  {
    hide Set;
  }

  lemma LineShape(key: seq<byte>, gap: seq<byte>, value: seq<byte>)
    ensures var l := key + [32] + gap + value;
      && |l| == |key| + 1 + |gap| + |value|
      && l[..|key|] == key && l[|key|] == 32 && l[|key| + 1..] == gap + value
      && (value != [] ==> l[|key| + 1 + |gap|] == value[0])
  {
  }

  lemma LineParsed(l: seq<byte>, key: seq<byte>, gap: seq<byte>, value: seq<byte>)
    requires l == key + [32] + gap + value && forall k :: 0 <= k < |l| ==> l[k] >= 32
    requires key != [] && key[0] != 35 && 32 !in key && (forall k :: 0 <= k < |gap| ==> gap[k] == 32)
    requires value != [] ==> value[0] != 32
    ensures ParseLine(l) == Some(Item(key, value))
  {
    LineShape(key, gap, value);
    KeyHere(l, key);
    BlanksSkipped(gap, value);
    ParsedAt(l, |key|);
  }

  lemma KeyHere(l: seq<byte>, key: seq<byte>)
    requires |key| < |l| && l[..|key|] == key && l[|key|] == 32 && 32 !in key
    requires forall k :: 0 <= k < |l| ==> l[k] >= 32
    ensures KeyEnd(l) == |key| && (key != [] ==> l[0] == key[0] > 32)
  {
    assert forall k :: 0 <= k < |key| ==> l[k] == l[..|key|][k] && l[k] in key;
    KeyEndIs(l, |key|);
  }

  lemma ParsedAt(l: seq<byte>, n: nat)
    requires 0 < n < |l| && KeyEnd(l) == n && l[0] != 35 && l[0] > 32
    ensures ParseLine(l) == Some(Item(l[..n], SkipBlanks(l[n + 1..])))
  {
    hide KeyEnd, SkipBlanks;
  }

  lemma {:induction false} BlanksSkipped(gap: seq<byte>, value: seq<byte>)
    requires (forall k :: 0 <= k < |gap| ==> gap[k] == 32) && (value != [] ==> value[0] > 32)
    ensures SkipBlanks(gap + value) == value
  {
    if gap == [] {
      assert gap + value == value;
    } else {
      assert (gap + value)[1..] == gap[1..] + value;
      BlanksSkipped(gap[1..], value);
    }
  }

  /** An empty line is skipped, unless a zero ends it: a zero at the start of a line ends the file. */
  lemma EmptyLine(s: seq<Item>, pre: seq<byte>, t: byte, post: seq<byte>)
    requires t < 32
    ensures var b := pre + [t] + post; Load(s, b, |pre|) == if t == 0 then s else Load(s, b, |pre| + 1)
  {
    var b, p := pre + [t] + post, |pre|;
    assert b[p] == t;
    if t != 0 {
      EndOfLine(b, p, p);
      assert b[p..p] == [];
      hide LineEnd, Load;
      LoadRound(s, b, p);
    }
  }

  // ----- the order of keys -----------------------------------------------------------------

  lemma FirstSame(a: seq<byte>, b: seq<byte>, k: nat)
    requires 0 < k <= |a| && k <= |b| && a[..k] == b[..k]
    ensures a[0] == b[0]
  {
    assert a[..k][0] == a[0] && b[..k][0] == b[0];
  }

  /** The order of strings: the first byte that differs decides, or else the length. */
  lemma {:induction false} LessIs(a: seq<byte>, b: seq<byte>)
    ensures Less(a, b) <==>
      exists k :: 0 <= k <= |a| && k < |b| && a[..k] == b[..k] && (k == |a| || a[k] < b[k])
  {
    if a != [] && b != [] && a[0] == b[0] {
      var x, y := a[1..], b[1..];
      LessIs(x, y);
      if k :| 0 <= k <= |x| && k < |y| && x[..k] == y[..k] && (k == |x| || x[k] < y[k]) {
        assert a[..k + 1] == [a[0]] + x[..k] == b[..k + 1];
      }
      if k :| 0 <= k <= |a| && k < |b| && a[..k] == b[..k] && (k == |a| || a[k] < b[k]) {
        assert k > 0 && a[..k][1..] == x[..k - 1] && b[..k][1..] == y[..k - 1];
      }
    } else if b != [] {
      assert a[..0] == b[..0];
      if k :| 0 < k <= |a| && k < |b| && a[..k] == b[..k] {
        FirstSame(a, b, k);
      }
    }
  }

  /** What setting a key does to the list: the item that has it ignoring case gets the value and keeps its spelling, or
      is dropped; a key that nobody has is added somewhere, or nothing happens. */
  ghost predicate Changed(s: seq<Item>, key: seq<byte>, value: Option<seq<byte>>, r: seq<Item>) {
    && (forall p :: 0 <= p < |s| && SameKey(key, s[p].key) ==>
          r == if value.Some? then s[p := Item(s[p].key, value.value)] else s[..p] + s[p + 1..])
    && ((forall p :: 0 <= p < |s| ==> !SameKey(key, s[p].key)) ==>
          if value.Some? then exists p :: 0 <= p <= |s| && r == s[..p] + [Item(key, value.value)] + s[p..]
          else r == s)
  }

  lemma SetChanges(s: seq<Item>, key: seq<byte>, value: Option<seq<byte>>)
    requires Sorted(s)
    ensures Changed(s, key, value, Set(s, key, value))
  {
    NotSame(s, key);
    hide Place, SameKey, Sorted;
  }
}
