/** Intrinsic capabilities: the built-in markers, their composition into
    tuples, and the installer calls that installing a composite makes.

    A selection is a tree: a leaf is one built-in marker, an inner node a
    tuple of selections. Two views of installation are given and proved to
    agree: `AddIntrinsic` threads one context through the members the way the
    generated trait implementations do, and `Trace` states declaratively which
    calls result.
 */
module Intrinsics {
  import opened Engine

  /** The largest tuple arity that is itself an intrinsic. */
  const MaxArity: nat := 17

  /** The built-in markers; each one is a type without data. */
  datatype Marker =
    | BaseObjects
    | Date
    | Eval
    | StringNormalize
    | RegExpCompiler
    | RegExp
    | Json
    | Proxy
    | MapSet
    | TypedArrays
    | Promise
    | BigInt
    | BigFloat
    | BigDecimal
    | Operators
    | BignumExt

  /** The marker whose installer is the given entry point. */
  function MarkerOf(f: Installer): Marker {
    match f
    case AddIntrinsicBaseObjects => BaseObjects
    case AddIntrinsicDate => Date
    case AddIntrinsicEval => Eval
    case AddIntrinsicStringNormalize => StringNormalize
    case AddIntrinsicRegExpCompiler => RegExpCompiler
    case AddIntrinsicRegExp => RegExp
    case AddIntrinsicJson => Json
    case AddIntrinsicProxy => Proxy
    case AddIntrinsicMapSet => MapSet
    case AddIntrinsicTypedArrays => TypedArrays
    case AddIntrinsicPromise => Promise
    case AddIntrinsicBigInt => BigInt
    case AddIntrinsicBigFloat => BigFloat
    case AddIntrinsicBigDecimal => BigDecimal
    case AddIntrinsicOperators => Operators
    case EnableBignumExt => BignumExt
  }

  /** The one call a built-in marker's installation makes: the entry point
      named for it, with the bignum switch turned on (`1`) for `BignumExt`
      and no further argument for every other marker. */
  function InstallerOf(m: Marker): (c: Call)
    ensures MarkerOf(c.installer) == m
    ensures c.args == if m == BignumExt then [1] else []
  {
    match m
    case BaseObjects => Call(AddIntrinsicBaseObjects, [])
    case Date => Call(AddIntrinsicDate, [])
    case Eval => Call(AddIntrinsicEval, [])
    case StringNormalize => Call(AddIntrinsicStringNormalize, [])
    case RegExpCompiler => Call(AddIntrinsicRegExpCompiler, [])
    case RegExp => Call(AddIntrinsicRegExp, [])
    case Json => Call(AddIntrinsicJson, [])
    case Proxy => Call(AddIntrinsicProxy, [])
    case MapSet => Call(AddIntrinsicMapSet, [])
    case TypedArrays => Call(AddIntrinsicTypedArrays, [])
    case Promise => Call(AddIntrinsicPromise, [])
    case BigInt => Call(AddIntrinsicBigInt, [])
    case BigFloat => Call(AddIntrinsicBigFloat, [])
    case BigDecimal => Call(AddIntrinsicBigDecimal, [])
    case Operators => Call(AddIntrinsicOperators, [])
    case BignumExt => Call(EnableBignumExt, [1])
  }

  /** Every entry point is the installer of exactly one marker, and distinct
      markers call distinct entry points. */
  lemma InstallerCorrespondence(m: Marker, m': Marker, f: Installer)
    ensures InstallerOf(MarkerOf(f)).installer == f
    ensures InstallerOf(m) == InstallerOf(m') <==> m == m'
  {
  }

  /** A selection of intrinsics: one built-in marker, or a tuple of
      selections installed left to right. */
  datatype Intrinsic = Builtin(marker: Marker) | Tuple(members: seq<Intrinsic>)

  /** The selection is an intrinsic at all: no tuple in it has more members
      than the largest arity given an implementation. */
  predicate WellFormed(i: Intrinsic) {
    match i
    case Builtin(_) => true
    case Tuple(ms) => |ms| <= MaxArity && AllWellFormed(ms)
  }

  predicate AllWellFormed(ms: seq<Intrinsic>) {
    forall k :: 0 <= k < |ms| ==> WellFormed(ms[k])
  }

  /** The markers of a selection in declaration order, nesting flattened. */
  function Leaves(i: Intrinsic): seq<Marker> {
    match i
    case Builtin(m) => [m]
    case Tuple(ms) => LeavesAll(ms)
  }

  function LeavesAll(ms: seq<Intrinsic>): seq<Marker> {
    if ms == [] then [] else Leaves(ms[0]) + LeavesAll(ms[1..])
  }

  /** The installer calls of a sequence of markers, one per marker, in order. */
  function Installs(ms: seq<Marker>): seq<Call> {
    seq(|ms|, k requires 0 <= k < |ms| => InstallerOf(ms[k]))
  }

  /** The installer calls installing a selection makes: a marker makes its
      one call, a tuple the calls of its members, each member's in one
      contiguous block, left to right. */
  function Trace(i: Intrinsic): seq<Call>
    requires WellFormed(i)
  {
    match i
    case Builtin(m) => [InstallerOf(m)]
    case Tuple(ms) => TraceAll(ms)
  }

  function TraceAll(ms: seq<Intrinsic>): seq<Call>
    requires AllWellFormed(ms)
  {
    if ms == [] then [] else Trace(ms[0]) + TraceAll(ms[1..])
  }

  /** Installing a selection into a context: a marker calls its installer,
      a tuple installs each member into the same context in turn. Calls
      already made against the context stay where they are. */
  function AddIntrinsic(i: Intrinsic, ctx: Context): (r: Context)
    requires WellFormed(i)
    ensures ctx.log <= r.log
  {
    match i
    case Builtin(m) => Invoke(ctx, InstallerOf(m))
    case Tuple(ms) => AddEach(ms, ctx)
  }

  /** Installs the members of a tuple, first member first. */
  function AddEach(ms: seq<Intrinsic>, ctx: Context): (r: Context)
    requires AllWellFormed(ms)
    ensures ctx.log <= r.log
  {
    if ms == [] then ctx else AddEach(ms[1..], AddIntrinsic(ms[0], ctx))
  }

  /** Installing a selection appends exactly its trace to the context's
      calls: nothing else is called, nothing is left out. */
  lemma {:induction false} AddIntrinsicAppendsTrace(i: Intrinsic, ctx: Context)
    requires WellFormed(i)
    ensures AddIntrinsic(i, ctx).log == ctx.log + Trace(i)
  {
    match i
    case Builtin(m) =>
    case Tuple(ms) => AddEachAppendsTrace(ms, ctx);
  }

  lemma {:induction false} AddEachAppendsTrace(ms: seq<Intrinsic>, ctx: Context)
    requires AllWellFormed(ms)
    ensures AddEach(ms, ctx).log == ctx.log + TraceAll(ms)
  {
    if ms != [] {
      var mid := AddIntrinsic(ms[0], ctx);
      AddIntrinsicAppendsTrace(ms[0], ctx);
      AddEachAppendsTrace(ms[1..], mid);
      assert ctx.log + Trace(ms[0]) + TraceAll(ms[1..]) == ctx.log + (Trace(ms[0]) + TraceAll(ms[1..]));
    }
  }

  /** Members of a concatenation are intrinsics exactly when the members of
      both parts are. */
  lemma AllWellFormedAppend(a: seq<Intrinsic>, b: seq<Intrinsic>)
    ensures AllWellFormed(a + b) <==> AllWellFormed(a) && AllWellFormed(b)
  {
    if AllWellFormed(a + b) {
      forall k | 0 <= k < |a| ensures WellFormed(a[k]) {
        assert (a + b)[k] == a[k];
      }
      forall k | 0 <= k < |b| ensures WellFormed(b[k]) {
        assert (a + b)[|a| + k] == b[k];
      }
    }
    if AllWellFormed(a) && AllWellFormed(b) {
      forall k | 0 <= k < |a + b| ensures WellFormed((a + b)[k]) {
        if k < |a| {
          assert (a + b)[k] == a[k];
        } else {
          assert (a + b)[k] == b[k - |a|];
        }
      }
    }
  }

  /** Installing the members of two tuples one after the other makes the
      first tuple's calls, then the second's. */
  lemma {:induction false} TraceAllAppend(a: seq<Intrinsic>, b: seq<Intrinsic>)
    requires AllWellFormed(a) && AllWellFormed(b)
    ensures AllWellFormed(a + b)
    ensures TraceAll(a + b) == TraceAll(a) + TraceAll(b)
  {
    AllWellFormedAppend(a, b);
    if a == [] {
      assert a + b == b;
    } else {
      assert (a + b)[0] == a[0];
      assert (a + b)[1..] == a[1..] + b;
      TraceAllAppend(a[1..], b);
    }
  }

  lemma {:induction false} LeavesAllAppend(a: seq<Intrinsic>, b: seq<Intrinsic>)
    ensures LeavesAll(a + b) == LeavesAll(a) + LeavesAll(b)
  {
    if a == [] {
      assert a + b == b;
    } else {
      assert (a + b)[0] == a[0];
      assert (a + b)[1..] == a[1..] + b;
      LeavesAllAppend(a[1..], b);
    }
  }

  /** In a tuple, member `k` is installed exactly once: its whole trace sits
      between the calls of the members before it and of those after it. */
  lemma {:induction false} MemberInstalledOnceInPlace(ms: seq<Intrinsic>, k: nat)
    requires AllWellFormed(ms)
    requires k < |ms|
    ensures AllWellFormed(ms[..k]) && AllWellFormed(ms[k + 1..])
    ensures TraceAll(ms) == TraceAll(ms[..k]) + Trace(ms[k]) + TraceAll(ms[k + 1..])
  {
    AllWellFormedAppend(ms[..k], ms[k..]);
    assert ms == ms[..k] + ms[k..];
    assert ms[k..] == [ms[k]] + ms[k + 1..];
    AllWellFormedAppend([ms[k]], ms[k + 1..]);
    if k > 0 {
      MemberInstalledOnceInPlace(ms[1..], k - 1);
      assert ms[1..][..k - 1] == ms[..k][1..];
      assert ms[1..][k - 1] == ms[k];
      assert ms[1..][k..] == ms[k + 1..];
    }
  }

  /** The calls of a selection are its markers' installers in flattened
      declaration order, however the tuples are nested. */
  lemma {:induction false} TraceIsFlattened(i: Intrinsic)
    requires WellFormed(i)
    ensures Trace(i) == Installs(Leaves(i))
  {
    match i
    case Builtin(m) =>
    case Tuple(ms) => TraceAllIsFlattened(ms);
  }

  lemma {:induction false} TraceAllIsFlattened(ms: seq<Intrinsic>)
    requires AllWellFormed(ms)
    ensures TraceAll(ms) == Installs(LeavesAll(ms))
  {
    if ms != [] {
      TraceIsFlattened(ms[0]);
      TraceAllIsFlattened(ms[1..]);
      InstallsAppend(Leaves(ms[0]), LeavesAll(ms[1..]));
    }
  }

  lemma InstallsAppend(a: seq<Marker>, b: seq<Marker>)
    ensures Installs(a + b) == Installs(a) + Installs(b)
  {
  }

  /** A selection installs nothing exactly when it holds no marker at all,
      as the empty tuple and tuples of empty tuples do. */
  lemma InstallsNothingIffNoMarker(i: Intrinsic)
    requires WellFormed(i)
    ensures Trace(i) == [] <==> Leaves(i) == []
  {
    TraceIsFlattened(i);
  }

  /** Replacing a member tuple by its own members, where the result is still
      within the arity limit, changes nothing about the calls made. */
  lemma SpliceMemberTuple(xs: seq<Intrinsic>, ys: seq<Intrinsic>, zs: seq<Intrinsic>)
    requires WellFormed(Tuple(xs + [Tuple(ys)] + zs))
    requires |xs + ys + zs| <= MaxArity
    ensures WellFormed(Tuple(xs + ys + zs))
    ensures Trace(Tuple(xs + [Tuple(ys)] + zs)) == Trace(Tuple(xs + ys + zs))
  {
    AllWellFormedAppend(xs + [Tuple(ys)], zs);
    AllWellFormedAppend(xs, [Tuple(ys)]);
    assert [Tuple(ys)][0] == Tuple(ys);
    TraceAllAppend(xs, [Tuple(ys)]);
    TraceAllAppend(xs + [Tuple(ys)], zs);
    TraceAllAppend(xs, ys);
    TraceAllAppend(xs + ys, zs);
    assert TraceAll([Tuple(ys)]) == TraceAll(ys);
  }

  /** A flat tuple of bare markers, in the given order. */
  function Flat(ms: seq<Marker>): seq<Intrinsic> {
    seq(|ms|, k requires 0 <= k < |ms| => Builtin(ms[k]))
  }

  /** A flat tuple of markers is an intrinsic exactly when it is within the
      arity limit, and then installs each marker's installer once, in the
      order the markers are listed, whatever that order is. */
  lemma {:induction false} FlatTrace(ms: seq<Marker>)
    ensures AllWellFormed(Flat(ms))
    ensures WellFormed(Tuple(Flat(ms))) <==> |ms| <= MaxArity
    ensures |ms| <= MaxArity ==> Trace(Tuple(Flat(ms))) == Installs(ms)
    ensures TraceAll(Flat(ms)) == Installs(ms)
    ensures LeavesAll(Flat(ms)) == ms
  {
    if ms != [] {
      assert Flat(ms)[0] == Builtin(ms[0]);
      assert Flat(ms)[1..] == Flat(ms[1..]);
      FlatTrace(ms[1..]);
      InstallsAppend([ms[0]], ms[1..]);
      assert ms == [ms[0]] + ms[1..];
    }
  }

  /** A tuple repeating a marker installs it twice: the composition does not
      deduplicate. */
  lemma RepeatedMarkerInstalledTwice(m: Marker)
    ensures WellFormed(Tuple([Builtin(m), Builtin(m)]))
    ensures Trace(Tuple([Builtin(m), Builtin(m)])) == [InstallerOf(m), InstallerOf(m)]
  {
    var pair := [Builtin(m), Builtin(m)];
    assert pair[1..] == [Builtin(m)];
    assert TraceAll(pair[1..]) == [InstallerOf(m)] by {
      assert pair[1..][1..] == [];
    }
  }

  /** No prerequisite order is checked: any two markers form an intrinsic
      in either order and are installed in the order given, so operator
      overloading may come before the base objects. `FlatTrace` states the
      same for every list of at most `MaxArity` markers. */
  lemma PrerequisiteOrderNotChecked(a: Marker, b: Marker)
    ensures WellFormed(Tuple([Builtin(a), Builtin(b)]))
    ensures Trace(Tuple([Builtin(a), Builtin(b)])) == [InstallerOf(a), InstallerOf(b)]
  {
    var pair := [Builtin(a), Builtin(b)];
    assert pair[1..] == [Builtin(b)];
    assert TraceAll(pair[1..]) == [InstallerOf(b)] by {
      assert pair[1..][1..] == [];
    }
    assert TraceAll(pair) == Trace(pair[0]) + TraceAll(pair[1..]);
  }
}
