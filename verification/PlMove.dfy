/** plt_move in src/playlist.c: moving a playlist to another position also renames the numbered files. */
module PlMove {
  import opened PlayItems

  datatype Option<T> = None | Some(value: T)

  type Content = seq<byte>

  /** The content of file number k, or None when there is no such file. */
  function FileAt(files: map<nat, Content>, k: nat): Option<Content> {
    if k in files then Some(files[k]) else None
  }

  /** Where the playlist now at position k was before. */
  function Source(k: nat, from: nat, to: nat): nat {
    if k == to then from
    else
      var j := if k < to then k else k - 1;
      if j < from then j else j + 1
  }

  /** The position a playlist moves to. */
  function Target(k: nat, from: nat, to: nat): nat {
    if k == from then to
    else
      var j := if k < from then k else k - 1;
      if j < to then j else j + 1
  }

  /** A permutation of the positions. */
  lemma SourcePermutes(k: nat, from: nat, to: nat, n: nat)
    requires k < n && from < n && to < n
    ensures Source(k, from, to) < n && Target(Source(k, from, to), from, to) == k
    ensures Target(k, from, to) < n && Source(Target(k, from, to), from, to) == k
  {
  }

  /** File k after file `from` is taken out and the files behind it, up to number n - 1, move down. */
  function Closed(files: map<nat, Content>, from: nat, n: nat, k: nat): Option<Content> {
    if from <= k < n then if k + 1 < n then FileAt(files, k + 1) else None
    else FileAt(files, k)
  }

  /** One playlist of the chain: only the link matters here. */
  class PlaylistNode {
    var next: PlaylistNode?

    constructor ()
      ensures next == null
    {
      next := null;
    }
  }

  /** The node at position i, or null past the end. */
  ghost function At(s: seq<PlaylistNode>, i: nat): PlaylistNode? {
    if i < |s| then s[i] else null
  }

  /** The nodes of s, linked one to the next from head. */
  ghost predicate Chain(head: PlaylistNode?, s: seq<PlaylistNode>)
    reads s`next
  {
    && head == At(s, 0)
    && (forall i: nat :: i < |s| ==> s[i].next == At(s, i + 1))
    && (forall i, j :: 0 <= i < j < |s| ==> s[i] != s[j])
  }

  lemma AtWithout(s: seq<PlaylistNode>, from: nat, j: nat)
    requires from < |s|
    ensures At(s[..from] + s[from + 1..], j) == At(s, if j < from then j else j + 1)
  {
  }

  lemma AtWith(s: seq<PlaylistNode>, to: nat, p: PlaylistNode, j: nat)
    requires to <= |s|
    ensures At(s[..to] + [p] + s[to..], j) == if j < to then At(s, j) else if j == to then p else At(s, j - 1)
  {
  }

  lemma DistinctWithout(s: seq<PlaylistNode>, from: nat)
    requires from < |s| && forall i, j :: 0 <= i < j < |s| ==> s[i] != s[j]
    ensures var rest := s[..from] + s[from + 1..]; forall i, j :: 0 <= i < j < |rest| ==> rest[i] != rest[j]
    ensures s[from] !in s[..from] + s[from + 1..]
  {
  }

  lemma DistinctWith(s: seq<PlaylistNode>, to: nat, p: PlaylistNode)
    requires to <= |s| && p !in s && forall i, j :: 0 <= i < j < |s| ==> s[i] != s[j]
    ensures var more := s[..to] + [p] + s[to..]; forall i, j :: 0 <= i < j < |more| ==> more[i] != more[j]
  {
  }

  /** Pointing past a node takes it out of the chain. */
  lemma ChainWithout(head: PlaylistNode?, s: seq<PlaylistNode>, from: nat)
    requires from < |s| && forall i, j :: 0 <= i < j < |s| ==> s[i] != s[j]
    requires head == At(s, if from > 0 then 0 else 1)
    requires forall i: nat :: i < |s| && i != from ==> s[i].next == At(s, if i + 1 == from then i + 2 else i + 1)
    ensures Chain(head, s[..from] + s[from + 1..]) && s[from] !in s[..from] + s[from + 1..]
  {
    hide *;
    var rest := s[..from] + s[from + 1..];
    AtWithout(s, from, 0);
    DistinctWithout(s, from);
    forall i: nat | i < |rest| ensures rest[i].next == At(rest, i + 1) {
      AtWithout(s, from, i);
      AtWithout(s, from, i + 1);
      var j := if i < from then i else i + 1;
      assert rest[i] == s[j];
      assert s[j].next == At(s, if j + 1 == from then j + 2 else j + 1);
    }
    ChainBy(head, rest);
  }

  lemma ChainBy(head: PlaylistNode?, s: seq<PlaylistNode>)
    requires head == At(s, 0) && forall i: nat :: i < |s| ==> s[i].next == At(s, i + 1)
    requires forall i, j :: 0 <= i < j < |s| ==> s[i] != s[j]
    ensures Chain(head, s)
  {
    hide At;
  }

  /** Pointing at a new node, and from it onwards, puts it into the chain. */
  lemma ChainWith(head: PlaylistNode?, s: seq<PlaylistNode>, to: nat, p: PlaylistNode)
    requires to <= |s| && p !in s && forall i, j :: 0 <= i < j < |s| ==> s[i] != s[j]
    requires head == if to > 0 then At(s, 0) else p
    requires p.next == At(s, to)
    requires forall i: nat :: i < |s| ==> s[i].next == if i + 1 == to then p else At(s, i + 1)
    ensures Chain(head, s[..to] + [p] + s[to..])
  {
    var more := s[..to] + [p] + s[to..];
    AtWith(s, to, p, 0);
    DistinctWith(s, to, p);
    forall i: nat | i < |more| ensures more[i].next == At(more, i + 1) {
      AtWith(s, to, p, i + 1);
      hide At;
      assert more[i] == if i < to then s[i] else if i == to then p else s[i - 1];
    }
  }

  class Playlists {
    /** _playlists_head, with the chain spelled out, and _playlists_count. */
    var head: PlaylistNode?
    ghost var order: seq<PlaylistNode>
    var count: nat
    /** The files named by a number, and the temporary file. */
    var files: map<nat, Content>
    var temp: Option<Content>

    constructor (files: map<nat, Content>, temp: Option<Content>)
      ensures Chain(head, order) && count == |order| && order == [] && this.files == files && this.temp == temp
    {
      head, order, count := null, [], 0;
      this.files, this.temp := files, temp;
    }

    /** Takes the node at position from out of the chain. */
    method Unlink(from: nat) returns (pfrom: PlaylistNode)
      requires Chain(head, order) && from < |order|
      modifies this`head, this`order, order`next
      ensures pfrom == old(order[from]) && order == old(order[..from] + order[from + 1..])
      ensures Chain(head, order) && pfrom !in order
    {
      var p, i := head, 0;
      var prev: PlaylistNode? := null;
      while i < from
        invariant i <= from && p == order[i] && prev == if i == 0 then null else order[i - 1]
        invariant unchanged(this) && Chain(head, order) && order == old(order)
      {
        prev := p;
        p := p.next;
        i := i + 1;
      }
      pfrom := p;
      if prev != null {
        prev.next := p.next;
      } else {
        head := p.next;
      }
      ghost var was := order;
      order := order[..from] + order[from + 1..];
      ChainWithout(head, was, from);
    }

    /** Puts a node that is not in the chain in at position to. */
    method Link(to: nat, pfrom: PlaylistNode)
      requires Chain(head, order) && to <= |order| && pfrom !in order
      modifies this`head, this`order, pfrom`next, order`next
      ensures order == old(order[..to] + [pfrom] + order[to..]) && Chain(head, order)
    {
      if to == 0 {
        pfrom.next := head;
        head := pfrom;
      } else {
        var p, i := head, 0;
        while i < to - 1
          invariant i <= to - 1 && p == order[i]
          invariant unchanged(this) && Chain(head, order) && order == old(order)
        {
          p := p.next;
          i := i + 1;
        }
        var next := p.next;
        p.next := pfrom;
        pfrom.next := next;
      }
      ghost var was := order;
      order := order[..to] + [pfrom] + order[to..];
      ChainWith(head, was, to, pfrom);
    }

    /** stat, then rename if the file is there. */
    method RenameIfThere(a: nat, b: nat)
      requires a != b
      modifies this`files
      ensures FileAt(files, a) == None
      ensures FileAt(files, b) == if FileAt(old(files), a).Some? then FileAt(old(files), a) else FileAt(old(files), b)
      ensures forall k: nat :: k != a && k != b ==> FileAt(files, k) == FileAt(old(files), k)
    {
      if a in files {
        files := files[b := files[a]] - {a};
      }
    }

    /** The file that moves, to the temporary name. */
    method FileToTemp(from: nat)
      modifies this`files, this`temp
      ensures temp == (if FileAt(old(files), from).Some? then FileAt(old(files), from) else old(temp))
      ensures FileAt(files, from) == None
      ensures forall k: nat :: k != from ==> FileAt(files, k) == FileAt(old(files), k)
    {
      if from in files {
        temp := Some(files[from]);
        files := files - {from};
      }
    }

    /** The temporary file, to its number. */
    method TempToFile(to: nat)
      modifies this`files, this`temp
      ensures temp == None && forall k: nat :: k != to ==> FileAt(files, k) == FileAt(old(files), k)
      ensures FileAt(files, to) == if old(temp).Some? then old(temp) else FileAt(old(files), to)
    {
      if temp.Some? {
        files := files[to := temp.value];
        temp := None;
      }
    }

    method CloseGap(from: nat, n: nat, ghost before: map<nat, Content>)
      requires from < n && FileAt(files, from) == None
      requires forall k: nat :: k != from ==> FileAt(files, k) == FileAt(before, k)
      modifies this`files
      ensures forall k: nat :: FileAt(files, k) == Closed(before, from, n, k)
    {
      hide FileAt;
      var i := from;
      while i < n - 1
        invariant from <= i < n && FileAt(files, i) == None
        invariant forall k: nat :: from <= k < i ==> FileAt(files, k) == FileAt(before, k + 1)
        invariant forall k: nat :: k < from || k > i ==> FileAt(files, k) == FileAt(before, k)
      {
        RenameIfThere(i + 1, i);
        i := i + 1;
      }
    }

    method OpenGap(to: nat, n: nat, ghost before: map<nat, Content>)
      requires to < n && FileAt(files, n - 1) == None
      requires forall k: nat :: FileAt(files, k) == FileAt(before, k)
      modifies this`files
      ensures FileAt(files, to) == None
      ensures forall k: nat :: k < to || k >= n ==> FileAt(files, k) == FileAt(before, k)
      ensures forall k: nat :: to < k < n ==> FileAt(files, k) == FileAt(before, k - 1)
    {
      hide FileAt;
      var i := n - 2;
      while i >= to
        invariant to - 1 <= i <= n - 2 && FileAt(files, i + 1) == None
        invariant forall k: nat :: k <= i || k >= n ==> FileAt(files, k) == FileAt(before, k)
        invariant forall k: nat :: i + 1 < k < n ==> FileAt(files, k) == FileAt(before, k - 1)
        decreases i
      {
        RenameIfThere(i, i + 1);
        i := i - 1;
      }
    }

    /** The files' part of plt_move. */
    method MoveFiles(from: nat, to: nat)
      requires from < count && to < count
      modifies this`files, this`temp
      ensures FilesMoved(old(files), old(temp), from, to, count, files) && temp == None
    {
      hide FileAt;
      ghost var before, left := files, temp;
      FileToTemp(from);
      CloseGap(from, count, before);
      ghost var closed := files;
      OpenGap(to, count, closed);
      TempToFile(to);
      BothGaps(before, left, from, to, count, closed, files);
    }

    /** The chain's part of plt_move. */
    method MoveNode(from: nat, to: nat)
      requires Chain(head, order) && from < |order| && to < |order|
      modifies this`head, this`order, order`next
      ensures Chain(head, order) && |order| == |old(order)| && Moved(old(order), from, to, order)
      ensures PutIn(old(order), from, to, order)
    {
      hide *;
      ghost var was := order;
      var pfrom := Unlink(from);
      OrderMoved(was, from, to);
      Link(to, pfrom);
    }

    /** plt_move, when every rename succeeds. */
    method Move(from: nat, to: nat)
      requires Chain(head, order) && count == |order|
      modifies this`head, this`order, this`files, this`temp, order`next
      ensures Chain(head, order) && |order| == |old(order)|
      ensures from == to || from >= |old(order)| || to >= |old(order)| ==>
        order == old(order) && files == old(files) && temp == old(temp)
      ensures from != to && from < |order| && to < |order| ==>
        && temp == None && PutIn(old(order), from, to, order) && Moved(old(order), from, to, order)
        && FilesMoved(old(files), old(temp), from, to, |order|, files)
    {
      if from == to {
        return;
      }
      if from >= count || to >= count {
        return;
      }
      hide *;
      MoveFiles(from, to);
      MoveNode(from, to);
    }
  }

  /** One playlist is taken out and put in where it belongs; the others keep their order. */
  ghost predicate PutIn<P>(order: seq<P>, from: nat, to: nat, order1: seq<P>)
    requires from < |order| && to < |order|
  {
    var others := order[..from] + order[from + 1..];
    order1 == others[..to] + [order[from]] + others[to..]
  }

  /** Each position holds the playlist that was at its source. */
  ghost predicate Moved<P>(order: seq<P>, from: nat, to: nat, order1: seq<P>)
    requires from < |order| && to < |order|
  {
    && |order1| == |order|
    && forall k: nat :: k < |order| ==> Source(k, from, to) < |order| && order1[k] == order[Source(k, from, to)]
  }

  /** Each numbered file holds what the file at its source held. When the file that moves is missing,
      a temporary file left over takes its place. Files with other numbers are untouched. */
  ghost predicate FilesMoved(files: map<nat, Content>, temp: Option<Content>, from: nat, to: nat, n: nat,
                             files1: map<nat, Content>)
  {
    && (forall k: nat :: k != to && k < n ==> FileAt(files1, k) == FileAt(files, Source(k, from, to)))
    && FileAt(files1, to) == (if FileAt(files, from).Some? then FileAt(files, from) else temp)
    && (forall k: nat :: k >= n ==> FileAt(files1, k) == FileAt(files, k))
  }

  lemma BothGaps(before: map<nat, Content>, temp: Option<Content>, from: nat, to: nat, n: nat,
                 closed: map<nat, Content>, after: map<nat, Content>)
    requires from < n && to < n
    requires forall k: nat :: FileAt(closed, k) == Closed(before, from, n, k)
    requires forall k: nat :: k < to || k >= n ==> FileAt(after, k) == FileAt(closed, k)
    requires forall k: nat :: to < k < n ==> FileAt(after, k) == FileAt(closed, k - 1)
    requires FileAt(after, to) == if FileAt(before, from).Some? then FileAt(before, from) else temp
    ensures FilesMoved(before, temp, from, to, n, after)
  {
    hide FileAt;
    forall k: nat | k != to && k < n ensures FileAt(after, k) == FileAt(before, Source(k, from, to)) {
      if k < to {
        assert FileAt(after, k) == Closed(before, from, n, k);
      } else {
        assert FileAt(after, k) == Closed(before, from, n, k - 1);
      }
    }
    forall k: nat | k >= n ensures FileAt(after, k) == FileAt(before, k) {
      assert FileAt(closed, k) == Closed(before, from, n, k);
    }
  }

  lemma OrderMoved<P>(s: seq<P>, from: nat, to: nat)
    requires from < |s| && to < |s|
    ensures var rest := s[..from] + s[from + 1..]; var s1 := rest[..to] + [s[from]] + rest[to..];
      PutIn(s, from, to, s1) && Moved(s, from, to, s1)
  {
    var rest := s[..from] + s[from + 1..];
    assert forall j :: 0 <= j < |rest| ==> rest[j] == s[if j < from then j else j + 1];
  }

  /** Every file holds what belongs to the playlist at its number. */
  ghost predicate InStep<P>(order: seq<P>, files: map<nat, Content>, content: P -> Option<Content>) {
    forall k: nat :: k < |order| ==> FileAt(files, k) == content(order[k])
  }

  /** Playlists and files go through the same permutation. They stay in step if and only if the moved
      playlist has a file or no temporary file was left over. */
  lemma MoveKeepsStep<P>(order: seq<P>, files: map<nat, Content>, temp: Option<Content>, content: P -> Option<Content>,
                         from: nat, to: nat, order1: seq<P>, files1: map<nat, Content>)
    requires from < |order| && to < |order| && from != to && InStep(order, files, content)
    requires Moved(order, from, to, order1) && FilesMoved(files, temp, from, to, |order|, files1)
    ensures InStep(order1, files1, content) <==> from in files || temp == None
  {
    assert order1[to] == order[from];
  }

  /** Playlist a has no file, b has one, and a temporary file is left over. Moving a behind b gives a
      what was left over. */
  lemma LeftOverTaken(order1: seq<char>, files1: map<nat, Content>, content: char -> Option<Content>)
    requires content('a') == None && content('b') == Some([1])
    requires Moved(['a', 'b'], 0, 1, order1) && FilesMoved(map[1 := [1]], Some([2]), 0, 1, 2, files1)
    ensures InStep(['a', 'b'], map[1 := [1]], content) && !InStep(order1, files1, content)
    ensures order1 == ['b', 'a'] && FileAt(files1, 1) == Some([2])
  {
    assert order1[1] == 'a';
    assert order1 == ['b', 'a'];
  }
}
