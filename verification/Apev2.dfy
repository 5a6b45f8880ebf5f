/** APEv2 tags of src/junklib.c as bytes: the writer, the locator at the end of a file and the reader. */
module Apev2 {
  import opened PlayItems
  import opened ByteOrder

  datatype Result<T> = Ok(value: T) | Err

  datatype Item = Item(key: seq<byte>, flags: nat, data: seq<byte>)

  const MAX_ITEM_SIZE := 16 * 1024 * 1024
  const MAX_KEY := 255
  const SIGNATURE: seq<byte> := [65, 80, 69, 84, 65, 71, 69, 88]
  const HAS_HEADER := 0x8000_0000
  const HAS_NO_FOOTER := 0x4000_0000
  const IS_HEADER := 0x2000_0000
  const ID3V1_SIZE := 128

  /** A key is a C string in a buffer of 256 bytes; sizes and flags are 32-bit words. */
  predicate ItemOk(i: Item) {
    |i.key| <= MAX_KEY && 0 !in i.key && i.flags < U32 && |i.data| < U32
  }

  predicate ItemsOk(items: seq<Item>) {
    forall i :: 0 <= i < |items| ==> ItemOk(items[i])
  }

  // ----- writing ---------------------------------------------------------------------------

  function ItemBytes(i: Item): (r: seq<byte>)
    ensures |r| == 9 + |i.key| + |i.data|
  {
    Le32(|i.data|) + Le32(i.flags) + (i.key + [0]) + i.data
  }

  function Items(items: seq<Item>): (r: seq<byte>)
    ensures |r| == ItemsSize(items)
  {
    if items == [] then [] else ItemBytes(items[0]) + Items(items[1..])
  }

  function ItemsSize(items: seq<Item>): nat {
    if items == [] then 0 else 9 + |items[0].key| + |items[0].data| + ItemsSize(items[1..])
  }

  /** A header or footer: signature, version 2000, size, count, flags and padding. */
  function Marker(size: nat, count: nat, flags: nat): (r: seq<byte>)
    ensures |r| == 32
  {
    SIGNATURE + Le32(2000) + Le32(size) + Le32(count) + Le32(flags) + [0, 0, 0, 0, 0, 0, 0, 0]
  }

  function HeaderFlags(footer: bool): nat {
    HAS_HEADER + IS_HEADER + if footer then 0 else HAS_NO_FOOTER
  }

  function FooterFlags(header: bool): nat {
    if header then HAS_HEADER else 0
  }

  function TagBytes(items: seq<Item>, header: bool, footer: bool): (r: seq<byte>)
    ensures |r| == ItemsSize(items) + (if header then 32 else 0) + if footer then 32 else 0
  {
    var size, count := (ItemsSize(items) + 32) % U32, |items| % U32;
    (if header then Marker(size, count, HeaderFlags(footer)) else [])
    + Items(items)
    + if footer then Marker(size, count, FooterFlags(header)) else []
  }

  // ----- locating --------------------------------------------------------------------------

  function Signed(x: nat): int
    requires x < U32
  {
    if x < 0x8000_0000 then x else x - U32
  }

  /** Where a footer ends: at the end of the file, or before a block of 128 bytes. */
  function FooterEnd(file: seq<byte>): (end: int)
    ensures end == -1 || 32 <= end <= |file|
  {
    var n := |file|;
    if n < 32 then -1
    else if file[n - 32..n - 24] == SIGNATURE then n
    else if n < ID3V1_SIZE + 32 || file[n - ID3V1_SIZE - 32..n - ID3V1_SIZE - 24] != SIGNATURE then -1
    else n - ID3V1_SIZE
  }

  datatype Footer = Footer(size: int, count: nat, flags: nat)

  function FooterAt(file: seq<byte>, end: int): Footer
    requires 32 <= end <= |file|
  {
    Footer(Signed(FromLe32(file[end - 20..end - 16])), FromLe32(file[end - 16..end - 12]),
           FromLe32(file[end - 12..end - 8]))
  }

  datatype Found = Found(start: nat, size: int, flags: nat, count: nat) | NotFound

  /** junk_apev2_find2 */
  function Find(file: seq<byte>): Found {
    var end := FooterEnd(file);
    if end == -1 then NotFound
    else
      var f := FooterAt(file, end);
      var size := f.size + if Has(f.flags, HAS_HEADER) then 32 else 0;
      if end - size < 0 then NotFound else Found(end - size, size, f.flags, f.count)
  }

  // ----- reading ---------------------------------------------------------------------------

  datatype Key = Key(key: seq<byte>, next: nat) | BadKey

  /** Reads a key up to its zero, or its first 256 bytes, of which it keeps 255. */
  function ReadKey(b: seq<byte>, p: nat, n: nat): (k: Key)
    requires n <= p && n <= MAX_KEY + 1 && (n > 0 ==> p <= |b|)
    ensures k.Key? ==> k.next > p - n
    decreases MAX_KEY + 1 - n
  {
    if n > MAX_KEY then Key(b[p - n..p - n + MAX_KEY], p)
    else if p >= |b| then BadKey
    else if b[p] == 0 then Key(b[p - n..p], p + 1)
    else if b[p] < 0x20 || b[p] >= 0x80 then BadKey
    else ReadKey(b, p + 1, n + 1)
  }

  datatype Round = Fail | Drop(next: nat) | Store(item: Item, next: nat)

  function ReadItem(b: seq<byte>, p: nat): Round {
    if p + 8 > |b| then Fail
    else
      var size, flags := FromLe32(b[p..p + 4]), FromLe32(b[p + 4..p + 8]);
      var k := ReadKey(b, p + 8, 0);
      if k.BadKey? then Fail
      else if size > MAX_ITEM_SIZE then Drop(k.next + size)
      else if k.next + size > |b| then Fail
      else Store(Item(k.key, flags, b[k.next..k.next + size]), k.next + size)
  }

  function ReadItems(b: seq<byte>, p: nat, count: nat): Result<seq<Item>>
    decreases count
  {
    if count == 0 then Ok([])
    else
      match ReadItem(b, p)
      case Fail => Err
      case Drop(next) => ReadItems(b, next, count - 1)
      case Store(item, next) => Prepend([item], ReadItems(b, next, count - 1))
  }

  function Prepend(items: seq<Item>, rest: Result<seq<Item>>): Result<seq<Item>> {
    if rest.Err? then Err else Ok(items + rest.value)
  }

  /** junk_apev2_read_full */
  function ReadTag(file: seq<byte>): Result<seq<Item>> {
    var end := FooterEnd(file);
    if end == -1 then Err
    else
      var f := FooterAt(file, end);
      if end - f.size < 0 then Err else ReadItems(file, end - f.size, f.count)
  }

  // ----- finding and reading what was written ----------------------------------------------

  predicate GoodKey(key: seq<byte>) {
    forall i :: 0 <= i < |key| ==> 0x20 <= key[i] < 0x80
  }

  /** What comes back of the items: too big ones are skipped, a bad key ends the reading. */
  function ReadBack(items: seq<Item>): Result<seq<Item>> {
    if items == [] then Ok([])
    else if !GoodKey(items[0].key) then Err
    else if |items[0].data| > MAX_ITEM_SIZE then ReadBack(items[1..])
    else Prepend([items[0]], ReadBack(items[1..]))
  }

  lemma {:induction false} ReadBackSize(items: seq<Item>)
    ensures ReadBack(items).Ok? ==> |ReadBack(items).value| <= |items|
    ensures ReadBack(items) == Ok(items) <==>
      forall i :: 0 <= i < |items| ==> GoodKey(items[i].key) && |items[i].data| <= MAX_ITEM_SIZE
  {
    hide GoodKey;
    if items != [] {
      var rest := items[1..];
      ReadBackSize(rest);
      assert forall i :: 0 <= i < |rest| ==> rest[i] == items[i + 1];
      assert items == [items[0]] + rest;
    }
  }

  /** Scanning a key that ends with its zero. */
  lemma {:induction false} KeyBack(b: seq<byte>, p: nat, key: seq<byte>, n: nat)
    requires n <= |key| <= MAX_KEY && 0 !in key && p + |key| + 1 <= |b|
    requires b[p..p + |key|] == key && b[p + |key|] == 0
    requires forall i :: 0 <= i < n ==> 0x20 <= key[i] < 0x80
    ensures ReadKey(b, p + n, n) == if GoodKey(key) then Key(key, p + |key| + 1) else BadKey
    decreases |key| - n
  {
    if n < |key| {
      assert b[p + n] == b[p..p + |key|][n] == key[n];
      if 0x20 <= key[n] < 0x80 {
        KeyBack(b, p, key, n + 1);
      }
    }
  }

  /** Where the parts of a written item are. */
  lemma ItemParts(i: Item, pre: seq<byte>, post: seq<byte>)
    ensures var b, p, k := pre + ItemBytes(i) + post, |pre|, |pre| + 8 + |i.key|;
      && |b| == p + 9 + |i.key| + |i.data| + |post|
      && b[p..p + 4] == Le32(|i.data|) && b[p + 4..p + 8] == Le32(i.flags)
      && b[p + 8..k] == i.key && b[k] == 0 && b[k + 1..k + 1 + |i.data|] == i.data
  {
    hide Le32;
  }

  lemma ItemBack(i: Item, pre: seq<byte>, post: seq<byte>)
    requires ItemOk(i)
    ensures var next := |pre| + 9 + |i.key| + |i.data|;
      ReadItem(pre + ItemBytes(i) + post, |pre|) ==
        if !GoodKey(i.key) then Fail
        else if |i.data| > MAX_ITEM_SIZE then Drop(next)
        else Store(i, next)
  {
    ItemParts(i, pre, post);
    Le32Back(|i.data|);
    Le32Back(i.flags);
    hide ItemBytes, Le32, FromLe32, GoodKey, ReadKey;
    KeyBack(pre + ItemBytes(i) + post, |pre| + 8, i.key, 0);
  }

  lemma {:induction false} ItemsBack(pre: seq<byte>, items: seq<Item>, post: seq<byte>)
    requires ItemsOk(items)
    ensures ReadItems(pre + Items(items) + post, |pre|, |items|) == ReadBack(items)
    decreases |items|
  {
    hide *;
    if items == [] {
      NoItems(pre + Items(items) + post, |pre|, items);
    } else {
      var i, rest := items[0], items[1..];
      ItemsAre(pre, items, post);
      ItemBack(i, pre, Items(rest) + post);
      ReadRound(pre + Items(items) + post, |pre|, |items|);
      ReadBackRound(items);
      ItemsBack(pre + ItemBytes(i), rest, post);
    }
  }

  lemma NoItems(b: seq<byte>, p: nat, items: seq<Item>)
    requires items == []
    ensures ReadItems(b, p, 0) == ReadBack(items)
  {
  }

  lemma ReadRound(b: seq<byte>, p: nat, count: nat)
    ensures ReadItems(b, p, count) ==
      if count == 0 then Ok([])
      else
        match ReadItem(b, p)
        case Fail => Err
        case Drop(next) => ReadItems(b, next, count - 1)
        case Store(item, next) => Prepend([item], ReadItems(b, next, count - 1))
  {
    hide ReadItem, Prepend;
  }

  lemma ReadBackRound(items: seq<Item>)
    requires items != []
    ensures ReadBack(items) ==
      if !GoodKey(items[0].key) then Err
      else if |items[0].data| > MAX_ITEM_SIZE then ReadBack(items[1..])
      else Prepend([items[0]], ReadBack(items[1..]))
  {
  }

  lemma ItemsAre(pre: seq<byte>, items: seq<Item>, post: seq<byte>)
    requires items != []
    ensures var i, rest := items[0], items[1..];
      && |ItemBytes(i)| == 9 + |i.key| + |i.data| && (ItemsOk(items) ==> ItemOk(i) && ItemsOk(rest))
      && pre + Items(items) + post == pre + ItemBytes(i) + (Items(rest) + post)
      && pre + Items(items) + post == (pre + ItemBytes(i)) + Items(rest) + post
  {
    var i, rest := items[0], items[1..];
    assert Items(items) == ItemBytes(i) + Items(rest);
    Fourfold(pre, ItemBytes(i), Items(rest), post);
  }

  lemma Fourfold(a: seq<byte>, b: seq<byte>, c: seq<byte>, d: seq<byte>)
    ensures a + (b + c) + d == a + b + (c + d) && a + (b + c) + d == (a + b) + c + d
  {
  }

  // ----- whole tags ------------------------------------------------------------------------

  /** Nothing, or a block of 128 bytes whose own last 32 bytes do not begin like a footer. */
  predicate TailOk(tail: seq<byte>) {
    tail == [] || (|tail| == ID3V1_SIZE && tail[ID3V1_SIZE - 32..ID3V1_SIZE - 24] != SIGNATURE)
  }

  lemma MarkerParts(front: seq<byte>, size: nat, count: nat, flags: nat, tail: seq<byte>)
    ensures var file, end := front + Marker(size, count, flags) + tail, |front| + 32;
      && file[end - 32..end - 24] == SIGNATURE && file[end - 20..end - 16] == Le32(size)
      && file[end - 16..end - 12] == Le32(count) && file[end - 12..end - 8] == Le32(flags)
  {
    hide Le32;
  }

  lemma FooterFound(front: seq<byte>, size: nat, count: nat, flags: nat, tail: seq<byte>)
    requires TailOk(tail) && size < 0x8000_0000 && count < U32 && flags < U32
    ensures var file := front + Marker(size, count, flags) + tail;
      FooterEnd(file) == |front| + 32 && FooterAt(file, |front| + 32) == Footer(size, count, flags)
  {
    var file, end := front + Marker(size, count, flags) + tail, |front| + 32;
    MarkerParts(front, size, count, flags, tail);
    Le32Back(size);
    Le32Back(count);
    Le32Back(flags);
    hide Le32, FromLe32, Marker;
    if tail != [] {
      assert file[|file| - 32..|file| - 24] == tail[ID3V1_SIZE - 32..ID3V1_SIZE - 24];
    }
  }

  /** The parts of a file with a tag that has a footer. */
  lemma TagParts(audio: seq<byte>, items: seq<Item>, header: bool, tail: seq<byte>)
    requires |items| < U32 && ItemsSize(items) + 32 < U32
    ensures var size := ItemsSize(items) + 32;
      var head := if header then Marker(size, |items|, HeaderFlags(true)) else [];
      var foot := Marker(size, |items|, FooterFlags(header));
      && audio + TagBytes(items, header, true) + tail == (audio + head + Items(items)) + foot + tail
      && audio + TagBytes(items, header, true) + tail == (audio + head) + Items(items) + (foot + tail)
      && |head| == if header then 32 else 0
  {
    hide Marker, Items;
  }

  /** A tag written with a footer at the end of a file, before an ID3v1 block or not, is located at
      its first byte with its size, and read back. */
  lemma FoundAndRead(audio: seq<byte>, items: seq<Item>, header: bool, tail: seq<byte>)
    requires ItemsOk(items) && |items| < U32 && ItemsSize(items) + 64 < 0x8000_0000 && TailOk(tail)
    ensures var file := audio + TagBytes(items, header, true) + tail;
      && Find(file) == Found(|audio|, |TagBytes(items, header, true)|, FooterFlags(header), |items|)
      && ReadTag(file) == ReadBack(items)
  {
    hide Marker, Items, TagBytes, ItemsSize, ReadBack, Find, ReadTag, TailOk, Has, ReadItems;
    var size := ItemsSize(items) + 32;
    FlagBit(header);
    TagParts(audio, items, header, tail);
    var head := if header then Marker(size, |items|, HeaderFlags(true)) else [];
    BodyRead(audio + head, items, size, FooterFlags(header), tail);
  }

  /** An item with an accented letter as its key: the tag is found, and reading it fails. */
  lemma AccentFails(audio: seq<byte>, item: Item)
    requires item == Item([233], 0, [65])
    ensures var file := audio + TagBytes([item], false, true);
      Find(file).Found? && ReadTag(file) == Err && ReadBack([item]) == Err
  {
    hide TagBytes, Find, ReadTag;
    FoundAndRead(audio, [item], false, []);
    var file := audio + TagBytes([item], false, true);
    assert file + [] == file && [item][0].key[0] == 233;
  }

  lemma BodyRead(front: seq<byte>, items: seq<Item>, size: nat, flags: nat, tail: seq<byte>)
    requires ItemsOk(items) && |items| < U32 && size == ItemsSize(items) + 32 && size + 32 < 0x8000_0000 && flags < U32
    requires TailOk(tail) && (Has(flags, HAS_HEADER) ==> |front| >= 32)
    ensures var file := (front + Items(items)) + Marker(size, |items|, flags) + tail;
      var n := size + if Has(flags, HAS_HEADER) then 32 else 0;
      && Find(file) == Found(|front| + size - n, n, flags, |items|)
      && ReadTag(file) == ReadBack(items)
  {
    hide *;
    var foot := Marker(size, |items|, flags);
    var file := (front + Items(items)) + foot + tail;
    SizeOf(items);
    FooterFound(front + Items(items), size, |items|, flags, tail);
    Located(file, |front| + size, size, |items|, flags);
    ItemsBack(front, items, foot + tail);
    Regroup(front, Items(items), foot, tail);
  }

  lemma SizeOf(items: seq<Item>)
    ensures |Items(items)| == ItemsSize(items)
  {
  }

  lemma Regroup(a: seq<byte>, b: seq<byte>, c: seq<byte>, d: seq<byte>)
    ensures (a + b) + c + d == a + b + (c + d)
  {
  }

  lemma FlagBit(header: bool)
    ensures Has(FooterFlags(header), HAS_HEADER) == header && FooterFlags(header) < U32
  {
  }

  lemma Located(file: seq<byte>, end: nat, size: nat, count: nat, flags: nat)
    requires 32 <= end <= |file| && FooterEnd(file) == end && FooterAt(file, end) == Footer(size, count, flags)
    requires size + (if Has(flags, HAS_HEADER) then 32 else 0) <= end
    ensures var n := size + if Has(flags, HAS_HEADER) then 32 else 0;
      Find(file) == Found(end - n, n, flags, count)
    ensures ReadTag(file) == ReadItems(file, end - size, count)
  {
    hide FooterEnd, FooterAt, ReadItems, Has;
  }
}
