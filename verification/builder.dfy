/** The context builder: a selection accumulated one intrinsic at a time,
    starting from the empty selection, and handed over whole when a context
    is built. The builder carries no data besides the selection. */
module Builders {
  import opened Engine
  import opened Intrinsics

  /** A builder holding the selection accumulated so far. */
  datatype Builder = Builder(selection: Intrinsic)

  /** A new builder: it selects nothing, so building it installs nothing. */
  function Default(): (b: Builder)
    ensures WellFormed(b.selection)
    ensures Trace(b.selection) == []
    ensures Leaves(b.selection) == []
  {
    Builder(Tuple([]))
  }

  /** Selects `j` after everything already selected; nothing is installed yet. */
  function With(b: Builder, j: Intrinsic): (r: Builder)
    requires WellFormed(b.selection) && WellFormed(j)
    ensures WellFormed(r.selection)
    ensures Trace(r.selection) == Trace(b.selection) + Trace(j)
    ensures Leaves(r.selection) == Leaves(b.selection) + Leaves(j)
  {
    var pair := [b.selection, j];
    assert pair[1..] == [j];
    assert TraceAll(pair[1..]) == Trace(j) by {
      assert pair[1..][1..] == [];
    }
    assert LeavesAll(pair[1..]) == Leaves(j) by {
      assert pair[1..][1..] == [];
    }
    Builder(Tuple(pair))
  }

  /** Installs the accumulated selection into a newly created context: its
      calls are appended after whatever the context has already received. */
  function Build(b: Builder, created: Context): (ctx: Context)
    requires WellFormed(b.selection)
    ensures ctx.log == created.log + Trace(b.selection)
  {
    AddIntrinsicAppendsTrace(b.selection, created);
    AddIntrinsic(b.selection, created)
  }

  /** The builder obtained from a new one by selecting `js` in call order.
      Every pair `with` forms has two members, so the result is always an
      intrinsic, however long the chain. */
  function Chain(js: seq<Intrinsic>): (b: Builder)
    requires AllWellFormed(js)
    ensures WellFormed(b.selection)
  {
    if js == [] then
      Default()
    else
      AllWellFormedAppend(js[..|js| - 1], [js[|js| - 1]]);
      assert js == js[..|js| - 1] + [js[|js| - 1]];
      With(Chain(js[..|js| - 1]), js[|js| - 1])
  }

  /** A chain selects its selections in call order, flattened: its calls are
      theirs concatenated, its markers theirs concatenated, whatever the
      nesting depth of the pairs `with` builds. */
  lemma {:induction false} ChainFlattensInCallOrder(js: seq<Intrinsic>)
    requires AllWellFormed(js)
    ensures Trace(Chain(js).selection) == TraceAll(js)
    ensures Leaves(Chain(js).selection) == LeavesAll(js)
  {
    if js != [] {
      var init, last := js[..|js| - 1], js[|js| - 1];
      assert js == init + [last];
      AllWellFormedAppend(init, [last]);
      ChainFlattensInCallOrder(init);
      TraceAllAppend(init, [last]);
      LeavesAllAppend(init, [last]);
      assert [last][1..] == [];
    }
  }

  /** Building a new builder leaves the context exactly as it was. */
  lemma BuildDefaultInstallsNothing(created: Context)
    ensures Build(Default(), created) == created
  {
  }

  /** Selecting with `with` defers all work to the build: building the
      extended builder is building the original one and then installing `j`
      into the same context. */
  lemma WithDefersInstallation(b: Builder, j: Intrinsic, created: Context)
    requires WellFormed(b.selection) && WellFormed(j)
    ensures Build(With(b, j), created) == AddIntrinsic(j, Build(b, created))
  {
    AddIntrinsicAppendsTrace(j, Build(b, created));
  }

  /** However deeply `with` nests the selection, a chain installs the same
      calls as the flat tuple of its selections. */
  lemma ChainIsFlatTuple(js: seq<Intrinsic>)
    requires AllWellFormed(js) && |js| <= MaxArity
    ensures WellFormed(Tuple(js))
    ensures Trace(Chain(js).selection) == Trace(Tuple(js))
  {
    ChainFlattensInCallOrder(js);
  }

  /** Building a chain appends the traces of its selections in call order. */
  lemma BuildChainLog(js: seq<Intrinsic>, created: Context)
    requires AllWellFormed(js)
    ensures Build(Chain(js), created).log == created.log + TraceAll(js)
  {
    ChainFlattensInCallOrder(js);
  }

  /** Building a chain installs the `k`th selection exactly once, after all
      selected before it and before all selected after it. */
  lemma ChainInstallsInCallOrder(js: seq<Intrinsic>, k: nat, created: Context)
    requires AllWellFormed(js) && k < |js|
    ensures AllWellFormed(js[..k]) && AllWellFormed(js[k + 1..])
    ensures Build(Chain(js), created).log
         == created.log + (TraceAll(js[..k]) + Trace(js[k]) + TraceAll(js[k + 1..]))
  {
    BuildChainLog(js, created);
    MemberInstalledOnceInPlace(js, k);
  }
}
