/** The loops of src/junklib.c that write, locate and read APEv2 tags. */
module Apev2Io {
  import opened PlayItems
  import opened ByteOrder
  import opened Files
  import opened Apev2

  /** junk_apev2_write_i32_le: byte by byte, lowest first. */
  method WriteLe32(out: OutFile, data: nat)
    modifies out
    ensures out.data == old(out.data) + Le32(data)
  {
    var rest := data;
    ghost var digits: seq<byte> := [];
    for i := 0 to 4
      invariant |digits| == i && out.data == old(out.data) + digits
      invariant digits == Le32(data)[..i]
      invariant rest == (if i == 0 then data else if i == 1 then data / 0x100 else if i == 2 then data / 0x100 / 0x100
                         else if i == 3 then data / 0x100 / 0x100 / 0x100 else data / 0x100 / 0x100 / 0x100 / 0x100)
    {
      out.Write([rest % 0x100]);
      digits := digits + [rest % 0x100];
      rest := rest / 0x100;
    }
  }

  method WriteMarker(out: OutFile, size: nat, count: nat, flags: nat)
    modifies out
    ensures out.data == old(out.data) + Marker(size, count, flags)
  {
    MarkerIs(out.data, size, count, flags);
    hide Le32, Marker;
    out.Write(SIGNATURE);
    WriteLe32(out, 2000);
    WriteLe32(out, size);
    WriteLe32(out, count);
    WriteLe32(out, flags);
    out.Write([0, 0, 0, 0, 0, 0, 0, 0]);
  }

  lemma MarkerIs(before: seq<byte>, size: nat, count: nat, flags: nat)
    ensures before + SIGNATURE + Le32(2000) + Le32(size) + Le32(count) + Le32(flags) + [0, 0, 0, 0, 0, 0, 0, 0]
      == before + Marker(size, count, flags)
  {
    hide Le32;
  }

  method WriteItem(out: OutFile, i: Item)
    modifies out
    ensures out.data == old(out.data) + ItemBytes(i)
  {
    hide Le32;
    WriteLe32(out, |i.data|);
    WriteLe32(out, i.flags);
    out.Write(i.key + [0]);
    out.Write(i.data);
  }

  method WriteItems(out: OutFile, items: seq<Item>)
    modifies out
    ensures out.data == old(out.data) + Items(items)
  {
    hide ItemBytes, Items;
    ItemsStart(items);
    for i := 0 to |items|
      invariant out.data == old(out.data) + Items(items[..i])
    {
      WriteItem(out, items[i]);
      ItemsGrow(items, i);
      Assoc(old(out.data), Items(items[..i]), ItemBytes(items[i]));
    }
  }

  lemma ItemsStart(items: seq<Item>)
    ensures Items(items[..0]) == [] && ItemsSize(items[..0]) == 0 && items[..|items|] == items
  {
  }

  lemma {:induction false} ItemsGrow(items: seq<Item>, i: nat)
    requires i < |items|
    ensures Items(items[..i + 1]) == Items(items[..i]) + ItemBytes(items[i])
    ensures ItemsSize(items[..i + 1]) == ItemsSize(items[..i]) + 9 + |items[i].key| + |items[i].data|
  {
    hide ItemBytes;
    if i > 0 {
      ItemsGrow(items[1..], i - 1);
      assert items[..i + 1][1..] == items[1..][..i] && items[..i][1..] == items[1..][..i - 1];
    }
  }

  /** The loop over the items that adds up size and count as 32-bit words. */
  method SizeAndCount(items: seq<Item>) returns (size: nat, count: nat)
    ensures size == (ItemsSize(items) + 32) % U32 && count == |items| % U32
  {
    hide ItemsSize;
    ItemsStart(items);
    size, count := 0, 0;
    for i := 0 to |items|
      invariant size == ItemsSize(items[..i]) % U32 && count == i % U32
    {
      ItemsGrow(items, i);
      AddWord(ItemsSize(items[..i]), 8 + |items[i].key| + 1 + |items[i].data|);
      AddWord(i, 1);
      size := (size + (8 + |items[i].key| + 1 + |items[i].data|)) % U32;
      count := (count + 1) % U32;
    }
    AddWord(ItemsSize(items), 32);
    size := (size + 32) % U32;
  }

  /** junk_apev2_write and junk_apev2_write2 */
  method WriteTag(out: OutFile, items: seq<Item>, header: bool, footer: bool)
    modifies out
    ensures out.data == old(out.data) + TagBytes(items, header, footer)
  {
    hide Marker, Items, ItemsSize;
    var size, count := SizeAndCount(items);
    if header {
      WriteMarker(out, size, count, HeaderFlags(footer));
    }
    WriteItems(out, items);
    if footer {
      WriteMarker(out, size, count, FooterFlags(header));
    }
  }

  /** The 32 bytes that end at the end of the file, or 128 bytes before it. */
  method ReadFooter(file: seq<byte>) returns (end: int, header: seq<byte>)
    ensures end == FooterEnd(file)
    ensures end != -1 ==> header == file[end - 32..end]
  {
    if |file| < 32 {
      return -1, [];
    }
    header := file[|file| - 32..];
    if header[..8] != SIGNATURE {
      if |file| < ID3V1_SIZE + 32 {
        return -1, [];
      }
      header := file[|file| - ID3V1_SIZE - 32..|file| - ID3V1_SIZE];
      if header[..8] != SIGNATURE {
        return -1, [];
      }
      return |file| - ID3V1_SIZE, header;
    }
    return |file|, header;
  }

  lemma FooterFields(file: seq<byte>, end: nat)
    requires 32 <= end <= |file|
    ensures var header := file[end - 32..end];
      FooterAt(file, end)
        == Footer(Signed(FromLe32(header[12..16])), FromLe32(header[16..20]), FromLe32(header[20..24]))
  {
    SubSlice(file, end - 32, end, 12, 16);
    SubSlice(file, end - 32, end, 16, 20);
    SubSlice(file, end - 32, end, 20, 24);
    hide FromLe32;
  }

  /** junk_apev2_find2 */
  method FindTag(file: seq<byte>) returns (found: Found)
    ensures found == Find(file)
  {
    hide FromLe32, FooterEnd, FooterAt, Has, Signed;
    var end, header := ReadFooter(file);
    if end == -1 {
      return NotFound;
    }
    FooterFields(file, end);
    var size := Signed(FromLe32(header[12..16]));
    var count, flags := FromLe32(header[16..20]), FromLe32(header[20..24]);
    if Has(flags, HAS_HEADER) {
      size := size + 32;
    }
    if end - size < 0 {
      return NotFound;
    }
    return Found(end - size, size, flags, count);
  }

  method ScanKey(b: seq<byte>, p: nat) returns (k: Key)
    ensures k == ReadKey(b, p, 0)
  {
    var n := 0;
    while n <= MAX_KEY
      invariant 0 <= n <= MAX_KEY + 1 && (n > 0 ==> p + n <= |b|)
      invariant ReadKey(b, p + n, n) == ReadKey(b, p, 0)
    {
      if p + n >= |b| {
        return BadKey;
      }
      if b[p + n] == 0 {
        break;
      }
      if b[p + n] < 0x20 || b[p + n] >= 0x80 {
        return BadKey;
      }
      n := n + 1;
    }
    if n > MAX_KEY {
      return Key(b[p..p + MAX_KEY], p + n);
    }
    return Key(b[p..p + n], p + n + 1);
  }

  method ReadItemAt(b: seq<byte>, p: nat) returns (round: Round)
    ensures round == ReadItem(b, p)
  {
    hide FromLe32, ReadKey;
    if p + 8 > |b| {
      return Fail;
    }
    var buffer := b[p..p + 8];
    assert buffer[..4] == b[p..p + 4] && buffer[4..] == b[p + 4..p + 8];
    var size, flags := FromLe32(buffer[..4]), FromLe32(buffer[4..]);
    var k := ScanKey(b, p + 8);
    if k.BadKey? {
      return Fail;
    }
    if size <= MAX_ITEM_SIZE {
      if k.next + size > |b| {
        return Fail;
      }
      return Store(Item(k.key, flags, b[k.next..k.next + size]), k.next + size);
    }
    return Drop(k.next + size);
  }

  method ReadLoop(b: seq<byte>, start: nat, count: nat) returns (r: Result<seq<Item>>)
    ensures r == ReadItems(b, start, count)
  {
    ghost var all := ReadItems(b, start, count);
    hide ReadItems, ReadItem;
    var items: seq<Item> := [];
    var p, left := start, count;
    Nothing(all);
    while left > 0
      invariant Prepend(items, ReadItems(b, p, left)) == all
    {
      ReadRound(b, p, left);
      More(items, ReadItem(b, p), if ReadItem(b, p).Fail? then Err else ReadItems(b, ReadItem(b, p).next, left - 1));
      var round := ReadItemAt(b, p);
      match round {
        case Fail => return Err;
        case Drop(next) => p := next;
        case Store(item, next) => items, p := items + [item], next;
      }
      left := left - 1;
    }
    ReadRound(b, p, 0);
    assert items + [] == items;
    return Ok(items);
  }

  lemma Nothing(r: Result<seq<Item>>)
    ensures Prepend([], r) == r
  {
    if r.Ok? {
      assert [] + r.value == r.value;
    }
  }

  lemma More(items: seq<Item>, round: Round, rest: Result<seq<Item>>)
    ensures round.Store? ==> Prepend(items, Prepend([round.item], rest)) == Prepend(items + [round.item], rest)
    ensures Prepend(items, Err) == Err
  {
    if round.Store? && rest.Ok? {
      Assoc(items, [round.item], rest.value);
    }
  }

  /** junk_apev2_read_full */
  method ReadFull(file: seq<byte>) returns (r: Result<seq<Item>>)
    ensures r == ReadTag(file)
  {
    hide FromLe32, FooterEnd, FooterAt, ReadItems, Signed;
    var end, header := ReadFooter(file);
    if end == -1 {
      return Err;
    }
    FooterFields(file, end);
    var size, count := Signed(FromLe32(header[12..16])), FromLe32(header[16..20]);
    if end - size < 0 {
      return Err;
    }
    r := ReadLoop(file, end - size, count);
  }
}
