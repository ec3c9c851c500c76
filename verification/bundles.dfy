/** The named selections offered next to the built-in markers: an alias for
    the base objects, the empty selection, and the selection of every
    built-in in canonical order. */
module Bundles {
  import opened Engine
  import opened Intrinsics

  /** Another name for the base objects marker. */
  const Base: Intrinsic := Builtin(BaseObjects)

  /** The selection of no intrinsic at all, the empty tuple. */
  const None: Intrinsic := Tuple([])

  /** Every built-in, in the order that satisfies their prerequisites. */
  const All: Intrinsic := Tuple([
    Base,
    Builtin(Date),
    Builtin(Eval),
    Builtin(StringNormalize),
    Builtin(RegExpCompiler),
    Builtin(RegExp),
    Builtin(Json),
    Builtin(Proxy),
    Builtin(MapSet),
    Builtin(TypedArrays),
    Builtin(Promise),
    Builtin(BigInt),
    Builtin(BigFloat),
    Builtin(BigDecimal),
    Builtin(Operators),
    Builtin(BignumExt)
  ])

  /** The position of each marker in the declaration of the built-ins. */
  function Ordinal(m: Marker): nat {
    match m
    case BaseObjects => 0
    case Date => 1
    case Eval => 2
    case StringNormalize => 3
    case RegExpCompiler => 4
    case RegExp => 5
    case Json => 6
    case Proxy => 7
    case MapSet => 8
    case TypedArrays => 9
    case Promise => 10
    case BigInt => 11
    case BigFloat => 12
    case BigDecimal => 13
    case Operators => 14
    case BignumExt => 15
  }

  /** In `t`, every call `a` comes before every call `b`, and both occur. */
  predicate Precedes(t: seq<Call>, a: Call, b: Call) {
    && a in t
    && b in t
    && forall p, q :: 0 <= p < |t| && 0 <= q < |t| && t[p] == a && t[q] == b ==> p < q
  }

  /** The alias installs exactly what the base objects marker installs. */
  lemma BaseIsBaseObjects()
    ensures WellFormed(Base)
    ensures Trace(Base) == Trace(Builtin(BaseObjects)) == [Call(AddIntrinsicBaseObjects, [])]
  {
  }

  /** The empty selection makes no installer call and leaves any context as
      it was. */
  lemma NoneInstallsNothing(ctx: Context)
    ensures WellFormed(None)
    ensures Trace(None) == []
    ensures AddIntrinsic(None, ctx) == ctx
  {
  }

  /** The markers of the full selection, in its order. */
  const AllMarkers: seq<Marker> := [
    BaseObjects, Date, Eval, StringNormalize, RegExpCompiler, RegExp, Json, Proxy,
    MapSet, TypedArrays, Promise, BigInt, BigFloat, BigDecimal, Operators, BignumExt
  ]

  /** The full selection is the flat tuple of its markers. */
  lemma AllIsFlat()
    ensures All.members == Flat(AllMarkers)
  {
    forall k | 0 <= k < 16 ensures All.members[k] == Flat(AllMarkers)[k] {
    }
  }

  /** The full selection makes these sixteen calls, in this order. */
  lemma AllTrace()
    ensures WellFormed(All)
    ensures Trace(All) == [
      Call(AddIntrinsicBaseObjects, []),
      Call(AddIntrinsicDate, []),
      Call(AddIntrinsicEval, []),
      Call(AddIntrinsicStringNormalize, []),
      Call(AddIntrinsicRegExpCompiler, []),
      Call(AddIntrinsicRegExp, []),
      Call(AddIntrinsicJson, []),
      Call(AddIntrinsicProxy, []),
      Call(AddIntrinsicMapSet, []),
      Call(AddIntrinsicTypedArrays, []),
      Call(AddIntrinsicPromise, []),
      Call(AddIntrinsicBigInt, []),
      Call(AddIntrinsicBigFloat, []),
      Call(AddIntrinsicBigDecimal, []),
      Call(AddIntrinsicOperators, []),
      Call(EnableBignumExt, [1])
    ]
  {
    AllIsFlat();
    FlatTrace(AllMarkers);
    assert Trace(All) == Installs(AllMarkers);
  }

  /** The call at position `p` of the full selection installs the marker
      declared at position `p`. */
  lemma AllCallAt(p: nat)
    requires p < 16
    ensures WellFormed(All) && |Trace(All)| == 16
    ensures Ordinal(MarkerOf(Trace(All)[p].installer)) == p
  {
    AllTrace();
  }

  /** The full selection installs every built-in exactly once, in the order
      the built-ins are declared, and never calls the same installer twice. */
  lemma AllInstallsEveryMarkerOnce()
    ensures WellFormed(All)
    ensures |Trace(All)| == 16
    ensures forall m: Marker :: Trace(All)[Ordinal(m)] == InstallerOf(m)
    ensures forall p, q :: 0 <= p < q < |Trace(All)| ==> Trace(All)[p] != Trace(All)[q]
  {
    AllTrace();
    var t := Trace(All);
    forall m: Marker ensures t[Ordinal(m)] == InstallerOf(m) {
      AllCallAt(Ordinal(m));
      InstallerCorrespondence(m, MarkerOf(t[Ordinal(m)].installer), t[Ordinal(m)].installer);
    }
    forall p, q | 0 <= p < q < |t| ensures t[p] != t[q] {
      AllCallAt(p);
      AllCallAt(q);
    }
  }

  /** In the full selection the base objects are installed before operator
      overloading, and the regular expression compiler before the RegExp
      object. */
  lemma AllRespectsPrerequisites()
    ensures WellFormed(All)
    ensures Precedes(Trace(All), InstallerOf(BaseObjects), InstallerOf(Operators))
    ensures Precedes(Trace(All), InstallerOf(RegExpCompiler), InstallerOf(RegExp))
  {
    AllInstallsEveryMarkerOnce();
    var t := Trace(All);
    assert t[Ordinal(BaseObjects)] == InstallerOf(BaseObjects);
    assert t[Ordinal(Operators)] == InstallerOf(Operators);
    assert t[Ordinal(RegExpCompiler)] == InstallerOf(RegExpCompiler);
    assert t[Ordinal(RegExp)] == InstallerOf(RegExp);
  }
}
