/** Runs of the configuration store of src/conf.c with its two files: what comes back when the program
    starts again. */
module ConfRuns {
  import opened PlayItems
  import opened MetaSpec
  import opened ConfSpec

  /** The list, the changed flag and the two files. `written` is the list when the files were last
      written or loaded, and `lost` says that a key was deleted since; the code knows neither. */
  datatype State = State(items: seq<Item>, changed: bool, config: seq<byte>, secrets: seq<byte>,
                         written: seq<Item>, lost: bool)

  datatype Step = Change(op: Op) | Save

  /** The state after conf_load into an empty store. */
  function Start(config: seq<byte>, secrets: seq<byte>): State {
    var items := LoadBoth(config, secrets);
    State(items, false, config, secrets, items, false)
  }

  /** Deleting a key is no change to the code. */
  function Changes(s: seq<Item>, op: Op): bool {
    !op.DeleteOp? && Apply(s, op) != s
  }

  function Deletes(s: seq<Item>, op: Op): bool {
    op.DeleteOp? && HasKey(s, op.key)
  }

  /** conf_save, when both files can be written: without a change nothing is. */
  function Saved(st: State): State {
    if st.changed then
      State(st.items, false, FileOf(st.items, false), FileOf(st.items, true), st.items, false)
    else st
  }

  function Next(st: State, step: Step): State {
    match step
    case Save => Saved(st)
    case Change(op) =>
      st.(items := Apply(st.items, op), changed := st.changed || Changes(st.items, op),
          lost := st.lost || Deletes(st.items, op))
  }

  function RunSteps(st: State, steps: seq<Step>): State
    decreases |steps|
  {
    if steps == [] then st else RunSteps(Next(st, steps[0]), steps[1..])
  }

  /** What the next start of the program finds in the files. */
  function Reloaded(st: State): seq<Item> {
    LoadBoth(st.config, st.secrets)
  }

  /** What every step keeps: the files hold the list that was written, if they can, and while nothing
      counts as a change only deletions have been made since. */
  ghost predicate Inv(st: State) {
    && Sorted(st.items) && Sorted(st.written)
    && (Reloaded(st) == st.written <==> AllGood(st.written))
    && (!st.changed ==> (forall x :: x in st.items ==> x in st.written) && |st.items| <= |st.written|)
    && (!st.changed ==> (st.lost <==> |st.items| < |st.written|) && (!st.lost ==> st.items == st.written))
  }

  lemma {:induction false} LoadedIsSorted(s: seq<Item>, b: seq<byte>, p: nat)
    requires Sorted(s)
    ensures Sorted(Load(s, b, p))
    decreases if p <= |b| then |b| - p else 0
  {
    hide Sorted, Set;
    if p < |b| && b[p] != 0 {
      var item := ParseLine(b[p..LineEnd(b, p)]);
      if item.Some? {
        SetKeepsOrder(s, item.value.key, Some(item.value.value));
      }
      LoadedIsSorted(Take(s, item), b, LineEnd(b, p) + 1);
    }
  }

  lemma StartKeeps(config: seq<byte>, secrets: seq<byte>)
    ensures Inv(Start(config, secrets)) && AllGood(Start(config, secrets).items)
  {
    var none: seq<Item> := [];
    assert Sorted(none) && AllGood(none);
    hide Load, Sorted, AllGood;
    LoadedIsSorted(none, config, 0);
    LoadedIsSorted(Load(none, config, 0), secrets, 0);
    LoadedIsGood(none, config, 0);
    LoadedIsGood(Load(none, config, 0), secrets, 0);
  }

  lemma SaveKeeps(st: State)
    requires Inv(st)
    ensures Inv(Saved(st))
  {
    hide Sorted, AllGood, LoadBoth, FileOf;
    SavedAndLoaded(st.items);
  }

  lemma DeleteDrops(s: seq<Item>, key: seq<byte>)
    ensures !HasKey(s, key) ==> Set(s, key, None) == s
    ensures HasKey(s, key) ==> |Set(s, key, None)| == |s| - 1
    ensures forall x :: x in Set(s, key, None) ==> x in s
  {
    hide Place, SameKey;
  }

  lemma ChangeKeeps(st: State, op: Op)
    requires Inv(st)
    ensures Inv(Next(st, Change(op)))
  {
    hide Sorted, AllGood, LoadBoth, Set, Without, HasKey;
    match op {
      case SetOp(key, value) => SetKeepsOrder(st.items, key, Some(value));
      case DeleteOp(key) =>
        SetKeepsOrder(st.items, key, None);
        DeleteDrops(st.items, key);
      case RemoveOp(prefix) => WithoutKeepsOrder(st.items, prefix);
    }
  }

  lemma {:induction false} StepsKeep(st: State, steps: seq<Step>)
    requires Inv(st)
    ensures Inv(RunSteps(st, steps))
    decreases |steps|
  {
    hide Inv, Saved;
    if steps != [] {
      if steps[0].Save? {
        SaveKeeps(st);
      } else {
        ChangeKeeps(st, steps[0].op);
      }
      StepsKeep(Next(st, steps[0]), steps[1..]);
    }
  }

  /** Saving and starting again gives the store back if and only if something counts as a change or no
      key was deleted since the files were last written, and the format can hold every item. */
  lemma SaveAndReload(st: State)
    requires Inv(st) && (st.changed || !st.lost || AllGood(st.written))
    ensures Reloaded(Saved(st)) == st.items <==> (st.changed || !st.lost) && AllGood(st.items)
  {
    hide Sorted, AllGood, LoadBoth, FileOf;
    SavedAndLoaded(st.items);
  }

  /** Items that fit the format are the only ones ever set. */
  predicate Fitting(steps: seq<Step>) {
    forall i :: 0 <= i < |steps| ==> StepFits(steps[i])
  }

  predicate StepFits(step: Step) {
    step.Change? && step.op.SetOp? ==> Good(Item(step.op.key, step.op.value))
  }

  lemma {:induction false} WithoutKeepsGood(s: seq<Item>, prefix: seq<byte>)
    requires AllGood(s)
    ensures AllGood(Without(s, prefix))
  {
    hide Good, HasPrefix;
    if s != [] {
      assert AllGood(s[1..]);
      WithoutKeepsGood(s[1..], prefix);
    }
  }

  lemma StepKeepsGood(st: State, step: Step)
    requires AllGood(st.items) && AllGood(st.written) && StepFits(step)
    ensures AllGood(Next(st, step).items) && AllGood(Next(st, step).written)
  {
    if step.Change? {
      match step.op {
        case SetOp(key, value) => SetKeepsGood(st.items, key, value);
        case DeleteOp(key) => DropKeepsGood(st.items, key);
        case RemoveOp(prefix) => WithoutKeepsGood(st.items, prefix);
      }
    }
  }

  lemma SetKeepsGood(s: seq<Item>, key: seq<byte>, value: seq<byte>)
    requires AllGood(s) && Good(Item(key, value))
    ensures AllGood(Set(s, key, Some(value)))
  {
    hide Place, SameKey;
  }

  lemma DropKeepsGood(s: seq<Item>, key: seq<byte>)
    requires AllGood(s)
    ensures AllGood(Set(s, key, None))
  {
    hide Place, SameKey, Good;
  }

  lemma {:induction false} StepsKeepGood(st: State, steps: seq<Step>)
    requires AllGood(st.items) && AllGood(st.written) && Fitting(steps)
    ensures AllGood(RunSteps(st, steps).items) && AllGood(RunSteps(st, steps).written)
    decreases |steps|
  {
    hide AllGood, StepFits, Next;
    if steps != [] {
      StepKeepsGood(st, steps[0]);
      StepsKeepGood(Next(st, steps[0]), steps[1..]);
    }
  }

  /** From any two files, through any run of changes that fit the format and saves, a last save and a new
      start give the store back if and only if something counts as a change or nothing was deleted
      since the last write. */
  lemma ReloadAfterRun(config: seq<byte>, secrets: seq<byte>, steps: seq<Step>)
    requires Fitting(steps)
    ensures var st := RunSteps(Start(config, secrets), steps);
      Reloaded(Saved(st)) == st.items <==> st.changed || !st.lost
  {
    hide *;
    StartKeeps(config, secrets);
    StartIs(config, secrets);
    StepsKeep(Start(config, secrets), steps);
    StepsKeepGood(Start(config, secrets), steps);
    SaveAndReload(RunSteps(Start(config, secrets), steps));
  }

  lemma StartIs(config: seq<byte>, secrets: seq<byte>)
    ensures Start(config, secrets).written == Start(config, secrets).items
  {
  }

  lemma OneLine(i: Item)
    requires Good(i)
    ensures LoadBoth(Line(i), []) == [i] && Set([i], i.key, None) == [] && HasKey([i], i.key)
  {
    var none: seq<Item>, no: seq<byte>, file := [], [], Line(i);
    assert no + Line(i) + no == file;
    LineBack(none, no, i, no);
    hide Load, Good, Line;
    OnlyItem(i);
    Ends([i], file, |file|);
    Ends([i], no, 0);
  }

  lemma OnlyItem(i: Item)
    ensures Set([], i.key, Some(i.value)) == [i] && Set([i], i.key, None) == [] && HasKey([i], i.key)
  {
    LessIsOrder(Fold(i.key), Fold(i.key));
  }

  lemma Ends(s: seq<Item>, b: seq<byte>, p: nat)
    requires p == |b|
    ensures Load(s, b, p) == s
  {
  }

  lemma TwoSteps(st: State, a: Step, b: Step)
    ensures RunSteps(st, [a, b]) == Next(Next(st, a), b)
  {
    hide Next;
    var none: seq<Step> := [];
    assert [a, b][1..] == [b] && [b][1..] == none;
    assert RunSteps(st, [a, b]) == RunSteps(Next(st, a), [b]) == RunSteps(Next(Next(st, a), b), none);
  }

  /** The smallest failure: the file holds "a 1", the key is deleted, the store is saved; it is there
      again at the next start. */
  lemma DeletionForgotten()
    ensures var i := Item(Ascii("a"), Ascii("1"));
      var st := RunSteps(Start(Line(i), []), [Change(DeleteOp(i.key)), Save]);
      st.items == [] && Reloaded(st) == [i]
  {
    var i := Item(Ascii("a"), Ascii("1"));
    assert Good(i);
    OneLine(i);
    TwoSteps(Start(Line(i), []), Change(DeleteOp(i.key)), Save);
    hide Line, LoadBoth, Set, RunSteps, Good;
  }
}
