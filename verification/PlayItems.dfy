/** The objects the playlist modules share: interned strings and playlist items. */
module PlayItems {

  type byte = b: int | 0 <= b < 256

  /** An entry of the intern table. A `const char *` handle in the program is one of these. */
  class CacheStr {
    const str: seq<byte>
    var refcount: int
    /** Verdict of the search numbered |cmpidx|: positive means match, negative no match. */
    var cmpidx: int

    constructor (value: seq<byte>)
      ensures str == value && refcount == 1 && cmpidx == 0
    {
      str, refcount, cmpidx := value, 1, 0;
    }
  }

  /** A metadata node; the value of a node that was only just added is still null. */
  datatype Meta = Meta(key: CacheStr, value: CacheStr?)

  /** The two linked lists every playlist threads through its items. */
  datatype Iter = Main | Search

  /** One value per list. */
  datatype Pair<T> = Pair(main: T, search: T) {
    function At(iter: Iter): T {
      if iter == Main then main else search
    }

    function Set(iter: Iter, v: T): Pair<T> {
      if iter == Main then this.(main := v) else this.(search := v)
    }
  }

  class PlayItem {
    var next: Pair<PlayItem?>
    var prev: Pair<PlayItem?>
    var refc: int
    var added: int
    var meta: seq<Meta>

    constructor ()
      ensures next == Pair(null, null) && prev == Pair(null, null)
      ensures refc == 1 && added == 0 && meta == []
    {
      next, prev, refc, added, meta := Pair(null, null), Pair(null, null), 1, 0, [];
    }
  }
}
