/** The engine side of intrinsic installation, as the wrapper sees it.

    The engine's installer entry points are foreign calls whose effect on the
    context heap is not modelled: a context is observed only through the
    sequence of installer calls it has received, in the order they were made.
 */
module Engine {

  /** The installer entry points of the engine that the built-in markers call. */
  datatype Installer =
    | AddIntrinsicBaseObjects
    | AddIntrinsicDate
    | AddIntrinsicEval
    | AddIntrinsicStringNormalize
    | AddIntrinsicRegExpCompiler
    | AddIntrinsicRegExp
    | AddIntrinsicJson
    | AddIntrinsicProxy
    | AddIntrinsicMapSet
    | AddIntrinsicTypedArrays
    | AddIntrinsicPromise
    | AddIntrinsicBigInt
    | AddIntrinsicBigFloat
    | AddIntrinsicBigDecimal
    | AddIntrinsicOperators
    | EnableBignumExt
  {
    /** The C symbol the entry point is linked under. */
    function Symbol(): string {
      match this
      case AddIntrinsicBaseObjects => "JS_AddIntrinsicBaseObjects"
      case AddIntrinsicDate => "JS_AddIntrinsicDate"
      case AddIntrinsicEval => "JS_AddIntrinsicEval"
      case AddIntrinsicStringNormalize => "JS_AddIntrinsicStringNormalize"
      case AddIntrinsicRegExpCompiler => "JS_AddIntrinsicRegExpCompiler"
      case AddIntrinsicRegExp => "JS_AddIntrinsicRegExp"
      case AddIntrinsicJson => "JS_AddIntrinsicJSON"
      case AddIntrinsicProxy => "JS_AddIntrinsicProxy"
      case AddIntrinsicMapSet => "JS_AddIntrinsicMapSet"
      case AddIntrinsicTypedArrays => "JS_AddIntrinsicTypedArrays"
      case AddIntrinsicPromise => "JS_AddIntrinsicPromise"
      case AddIntrinsicBigInt => "JS_AddIntrinsicBigInt"
      case AddIntrinsicBigFloat => "JS_AddIntrinsicBigFloat"
      case AddIntrinsicBigDecimal => "JS_AddIntrinsicBigDecimal"
      case AddIntrinsicOperators => "JS_AddIntrinsicOperators"
      case EnableBignumExt => "JS_EnableBignumExt"
    }
  }

  /** One installer call against a context: the entry point, and the integer
      arguments passed after the context pointer. */
  datatype Call = Call(installer: Installer, args: seq<int>)

  /** An engine context, observed through the installer calls made against it. */
  datatype Context = Context(log: seq<Call>)

  /** The context after one more installer call has been made against it. */
  function Invoke(ctx: Context, c: Call): Context {
    Context(ctx.log + [c])
  }
}
