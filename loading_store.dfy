/** The global loading store (src/store/modules/use-loading-store.ts): a
 *  reentrant busy counter with an `isLoading` flag. The counter has no floor. */
module Loading {

  /** The two actions; `show`/`hide` are aliases of `showLoading`/`hideLoading`. */
  datatype Op = ShowOp | HideOp

  datatype Snapshot = Snapshot(count: int, isLoading: bool)

  const Initial: Snapshot := Snapshot(0, false)

  /** The store's reducer for one action. */
  function Apply(s: Snapshot, op: Op): Snapshot {
    match op
    case ShowOp => Snapshot(s.count + 1, true)
    case HideOp => Snapshot(s.count - 1, s.count - 1 > 0)
  }

  /** The state after running `ops` in order from the initial state. */
  function Run(ops: seq<Op>): Snapshot {
    if ops == [] then Initial else Apply(Run(ops[..|ops| - 1]), ops[|ops| - 1])
  }

  function Shows(ops: seq<Op>): nat {
    if ops == [] then 0 else Shows(ops[..|ops| - 1]) + (if ops[|ops| - 1] == ShowOp then 1 else 0)
  }

  function Hides(ops: seq<Op>): nat {
    if ops == [] then 0 else Hides(ops[..|ops| - 1]) + (if ops[|ops| - 1] == HideOp then 1 else 0)
  }

  /** Every prefix has at least as many shows as hides. */
  ghost predicate Balanced(ops: seq<Op>) {
    forall n :: 0 <= n <= |ops| ==> Hides(ops[..n]) <= Shows(ops[..n])
  }

  /** `show` adds exactly one and raises the flag. */
  lemma ShowEffect(s: Snapshot)
    ensures Apply(s, ShowOp).count == s.count + 1 && Apply(s, ShowOp).isLoading
  {
  }

  /** `hide` takes exactly one away, with no floor, and the flag follows the new count. */
  lemma HideEffect(s: Snapshot)
    ensures Apply(s, HideOp).count == s.count - 1
    ensures Apply(s, HideOp).isLoading <==> s.count - 1 > 0
  {
  }

  /** `hide` on an idle store drives the count to -1. */
  lemma HideAtZero()
    ensures Apply(Initial, HideOp) == Snapshot(-1, false)
  {
  }

  /** The count is always the number of shows minus the number of hides. */
  lemma {:induction false} RunCount(ops: seq<Op>)
    ensures Run(ops).count == Shows(ops) - Hides(ops)
  {
    if ops != [] {
      RunCount(ops[..|ops| - 1]);
    }
  }

  lemma BalancedPrefix(ops: seq<Op>, n: nat)
    requires Balanced(ops) && n <= |ops|
    ensures Balanced(ops[..n])
  {
    forall m | 0 <= m <= n ensures Hides(ops[..n][..m]) <= Shows(ops[..n][..m]) {
      assert ops[..n][..m] == ops[..m];
    }
  }

  /** Along a balanced run the count never goes negative and the flag is up
   *  exactly while the count is positive. */
  lemma {:induction false} BalancedInvariant(ops: seq<Op>)
    requires Balanced(ops)
    ensures Run(ops).count >= 0
    ensures Run(ops).isLoading <==> Run(ops).count > 0
  {
    if ops != [] {
      var init := ops[..|ops| - 1];
      BalancedPrefix(ops, |ops| - 1);
      BalancedInvariant(init);
      RunCount(ops);
      assert ops[..|ops|] == ops;
    }
  }

  /** With overlapping requests the flag stays up until the hide that matches
   *  the last outstanding show, at every point of a balanced run. */
  lemma LoadingWhileOutstanding(ops: seq<Op>, n: nat)
    requires Balanced(ops) && n <= |ops|
    ensures Run(ops[..n]).isLoading <==> Shows(ops[..n]) > Hides(ops[..n])
  {
    BalancedPrefix(ops, n);
    BalancedInvariant(ops[..n]);
    RunCount(ops[..n]);
  }

  class LoadingStore {
    var count: int
    var isLoading: bool

    function State(): Snapshot
      reads this
    {
      Snapshot(count, isLoading)
    }

    constructor ()
      ensures State() == Initial
    {
      count, isLoading := 0, false;
    }

    method ShowLoading()
      modifies this
      ensures count == old(count) + 1 && isLoading
      ensures State() == Apply(old(State()), ShowOp)
    {
      count, isLoading := count + 1, true;
    }

    method HideLoading()
      modifies this
      ensures count == old(count) - 1 && isLoading == (count > 0)
      ensures State() == Apply(old(State()), HideOp)
    {
      count, isLoading := count - 1, count - 1 > 0;
    }

    method Show()
      modifies this
      ensures count == old(count) + 1 && isLoading
      ensures State() == Apply(old(State()), ShowOp)
    {
      ShowLoading();
    }

    method Hide()
      modifies this
      ensures count == old(count) - 1 && isLoading == (count > 0)
      ensures State() == Apply(old(State()), HideOp)
    {
      HideLoading();
    }
  }
}
