/** What stands in an APEv2 tag byte by byte, and what the reader makes of items that do not fit. */
module Apev2Laws {
  import opened PlayItems
  import opened ByteOrder
  import opened Apev2

  // ----- what is written -------------------------------------------------------------------

  /** Four bytes, the lowest first. */
  lemma WordIs(x: nat)
    requires x < 0x1_0000_0000
    ensures var b := Le32(x);
      x == b[0] as int + 0x100 * b[1] as int + 0x1_0000 * b[2] as int + 0x100_0000 * b[3] as int
  {
    Le32Back(x);
    hide Le32;
  }

  /** A header or footer: "APETAGEX", version 2000, the size, the number of items, flags, of which only the last byte is
      not zero, and eight zeros. */
  function Mark(size: nat, count: nat, last: byte): seq<byte> {
    [65, 80, 69, 84, 65, 71, 69, 88, 208, 7, 0, 0] + Le32(size) + Le32(count)
    + [0, 0, 0, last, 0, 0, 0, 0, 0, 0, 0, 0]
  }

  lemma FlagsAre(there: bool)
    ensures Le32(HeaderFlags(there)) == [0, 0, 0, if there then 160 else 224]
    ensures Le32(FooterFlags(there)) == [0, 0, 0, if there then 128 else 0]
  {
  }

  lemma TagMarkers(items: seq<Item>, header: bool, footer: bool)
    requires |Items(items)| + 32 < 0x1_0000_0000 && |items| < 0x1_0000_0000
    ensures var size, count := |Items(items)| + 32, |items|;
      TagBytes(items, header, footer) ==
        (if header then Marker(size, count, HeaderFlags(footer)) else []) + Items(items)
        + if footer then Marker(size, count, FooterFlags(header)) else []
  {
    hide Items, ItemsSize, Marker;
  }

  /** A tag: a header if asked for, the items and a footer if asked for, both with the size of the items and of one of
      them and with flags for what is there. */
  lemma TagIs(items: seq<Item>, header: bool, footer: bool)
    requires |Items(items)| + 32 < 0x1_0000_0000 && |items| < 0x1_0000_0000
    ensures var size, count := |Items(items)| + 32, |items|;
      TagBytes(items, header, footer) ==
        (if header then Mark(size, count, if footer then 160 else 224) else []) + Items(items)
        + if footer then Mark(size, count, if header then 128 else 0) else []
  {
    hide *;
    var size, count := |Items(items)| + 32, |items|;
    TagMarkers(items, header, footer);
    FlagsAre(header);
    FlagsAre(footer);
    MarkerIs(size, count, HeaderFlags(footer), if footer then 160 else 224);
    MarkerIs(size, count, FooterFlags(header), if header then 128 else 0);
  }

  lemma MarkerIs(size: nat, count: nat, flags: nat, last: byte)
    requires Le32(flags) == [0, 0, 0, last]
    ensures Marker(size, count, flags) == Mark(size, count, last)
  {
    assert Le32(2000) == [208, 7, 0, 0];
    hide Le32;
  }

  /** An item: size, flags, key, zero, data. */
  lemma ItemsIs(items: seq<Item>)
    ensures items == [] ==> Items(items) == []
    ensures items != [] ==> var i := items[0];
      Items(items) == Le32(|i.data|) + Le32(i.flags) + i.key + [0] + i.data + Items(items[1..])
  {
    hide Le32;
  }

  // ----- what is read ----------------------------------------------------------------------

  /** A written item cut short, even within its data: reading fails, unless its data is over the limit and at least its
      key is there. */
  lemma ItemCut(i: Item, pre: seq<byte>, n: nat)
    requires ItemOk(i) && n < |ItemBytes(i)|
    ensures var b := pre + ItemBytes(i)[..n];
      ReadItem(b, |pre|) ==
        if n >= 9 + |i.key| && GoodKey(i.key) && |i.data| > 16777216 then Drop(|pre| + |ItemBytes(i)|) else Fail
  {
    CutParts(i, pre, n);
    var b, p := pre + ItemBytes(i)[..n], |pre|;
    Le32Back(|i.data|);
    hide ItemBytes, Le32, FromLe32, GoodKey, ReadKey;
    if n >= 9 + |i.key| {
      KeyBack(b, p + 8, i.key, 0);
    } else if n >= 8 {
      KeyCut(b, p + 8, i.key, 0);
    }
  }

  lemma CutParts(i: Item, pre: seq<byte>, n: nat)
    requires n < |ItemBytes(i)|
    ensures var b, p, k := pre + ItemBytes(i)[..n], |pre|, |pre| + 8 + |i.key|;
      && |b| == p + n && |ItemBytes(i)| == 9 + |i.key| + |i.data|
      && (n >= 8 ==> b[p..p + 4] == Le32(|i.data|))
      && (n >= 9 + |i.key| ==> b[p + 8..k] == i.key && b[k] == 0)
      && (8 <= n < 9 + |i.key| ==> b[p + 8..] == i.key[..n - 8])
  {
    hide Le32;
    var all, b := ItemBytes(i), pre + ItemBytes(i)[..n];
    assert all[..4] == Le32(|i.data|) && all[8..8 + |i.key|] == i.key && all[8 + |i.key|] == 0;
    assert forall k :: 0 <= k < n ==> b[|pre| + k] == all[k];
  }

  /** A key without its zero. */
  lemma {:induction false} KeyCut(b: seq<byte>, p: nat, key: seq<byte>, n: nat)
    requires n <= |b| - p <= |key| <= MAX_KEY && 0 !in key && b[p..] == key[..|b| - p]
    ensures ReadKey(b, p + n, n) == BadKey
    decreases |key| - n
  {
    if p + n < |b| {
      assert b[p + n] == b[p..][n] == key[n];
      KeyCut(b, p, key, n + 1);
    }
  }

  /** Of 256 bytes without a zero the reader keeps 255 as the key, and the value starts behind them. */
  lemma LongKey(pre: seq<byte>, size: nat, flags: nat, key: seq<byte>, post: seq<byte>)
    requires |key| == 256 && GoodKey(key) && size < U32 && flags < U32
    ensures var b, next := pre + Le32(size) + Le32(flags) + key + post, |pre| + 264;
      ReadItem(b, |pre|) ==
        if size > 16777216 then Drop(next + size)
        else if size > |post| then Fail
        else Store(Item(key[..255], flags, post[..size]), next + size)
  {
    hide *;
    var b, p := pre + Le32(size) + Le32(flags) + key + post, |pre|;
    Le32Back(size);
    Le32Back(flags);
    LongParts(pre, Le32(size), Le32(flags), key, post);
    LongScan(b, p + 8, key, 0);
    ReadOnce(b, p, size, flags, key[..255], p + 264);
    if size <= |post| {
      SubSlice(b, p + 264, |b|, 0, size);
    }
  }

  lemma ReadOnce(b: seq<byte>, p: nat, size: nat, flags: nat, key: seq<byte>, next: nat)
    requires p + 8 <= |b| && next <= |b|
    requires FromLe32(b[p..p + 4]) == size && FromLe32(b[p + 4..p + 8]) == flags
    requires ReadKey(b, p + 8, 0) == Key(key, next)
    ensures ReadItem(b, p) ==
      if size > 16777216 then Drop(next + size)
      else if next + size > |b| then Fail
      else Store(Item(key, flags, b[next..next + size]), next + size)
  {
    hide FromLe32, ReadKey;
  }

  lemma LongParts(pre: seq<byte>, a: seq<byte>, c: seq<byte>, key: seq<byte>, post: seq<byte>)
    requires |a| == 4 && |c| == 4 && |key| == 256
    ensures var b, p := pre + a + c + key + post, |pre|;
      && |b| == p + 264 + |post| && b[p..p + 4] == a && b[p + 4..p + 8] == c && b[p + 8..p + 264] == key
      && b[p + 264..] == post
  {
  }

  lemma {:induction false} LongScan(b: seq<byte>, p: nat, key: seq<byte>, n: nat)
    requires n <= |key| == 256 && p + 256 <= |b| && b[p..p + 256] == key && GoodKey(key)
    ensures ReadKey(b, p + n, n) == Key(key[..255], p + 256)
    decreases 256 - n
  {
    if n < 256 {
      assert b[p + n] == b[p..p + 256][n] == key[n];
      LongScan(b, p, key, n + 1);
    } else {
      assert b[p..p + 255] == key[..255];
    }
  }

  /** All items come back exactly when every key is printable ASCII and no value has more than 16 MiB. */
  lemma AllBack(items: seq<Item>)
    ensures ReadBack(items) == Ok(items) <==>
      forall i :: 0 <= i < |items| ==>
        && (forall k :: 0 <= k < |items[i].key| ==> 32 <= items[i].key[k] < 128)
        && |items[i].data| <= 16777216
  {
    ReadBackSize(items);
    hide ReadBack;
  }
}
