# Intrinsic composition for rquickjs contexts

This project models the part of rquickjs that decides which built-in families
(intrinsics) the QuickJS engine installs into a new context, and in what order.
The source file is `core/src/context/builder.rs`.

- Each **built-in marker** (`BaseObjects`, `Date`, … , `BignumExt`) is a type without
  data. Installing it calls exactly one engine installer. `BignumExt` calls
  `JS_EnableBignumExt` with the extra argument `1`. Every other marker calls its
  `JS_AddIntrinsic…` entry point with no extra argument.
- A **tuple** of up to 17 intrinsics is itself an intrinsic. Installing it installs
  each member into the same context, left to right. The model represents the
  type-level composition as a value:
  `Intrinsic = Builtin(Marker) | Tuple(seq<Intrinsic>)`. `WellFormed` says that no
  tuple in it is longer than the arity limit.
- The **named selections** are `Base` (an alias of `BaseObjects`), `None` (the empty
  tuple) and `All` (all sixteen markers in canonical order).
- The **context builder** `ContextBuilder<I>` is a phantom accumulator. `default()`
  starts at `()`. `with::<J>()` turns `I` into the pair `(I, J)`. `build` hands `I` to
  context creation.

The engine's installers are opaque foreign calls. The model therefore observes a
context only through the sequence of installer calls made against it
(`Engine.Context.log`). `Intrinsics.AddIntrinsic` installs the way the generated trait
implementations do: it threads one context through the members. `Intrinsics.Trace` is
the declarative account of the calls that result. The two are proved to agree.
`Intrinsics.Leaves` flattens a selection to its markers. Every trace is the markers'
installers in flattened declaration order, whatever the nesting.

Modules: `Engine` (engine.dfy) holds the installer entry points, calls and contexts.
`Intrinsics` (intrinsics.dfy) holds the markers, tuples, installation and composition
lemmas. `Bundles` (bundles.dfy) holds `Base`, `None` and `All`. `Builders`
(builder.dfy) holds the context builder.

No prerequisite order is checked: a tuple installs its members in whatever order it
is given (`Intrinsics.PrerequisiteOrderNotChecked`, `Intrinsics.FlatTrace`).

## Model

| member | source | states |
|---|---|---|
| `Intrinsics.InstallerOf` | core/src/context/builder.rs:48-82 | a marker's installation is one call to the entry point named for that marker; the extra arguments are `[1]` for `BignumExt` and none for every other marker |
| `Intrinsics.InstallerCorrespondence` | core/src/context/builder.rs:48-82 | markers and installer entry points correspond one to one: distinct markers call distinct installers, and every installer belongs to a marker |
| `Intrinsics.AddIntrinsic` | core/src/context/builder.rs:15-39 | installing any selection only appends calls: every call the context had already received stays in place |
| `Intrinsics.AddEach` | core/src/context/builder.rs:34-36 | installing a tuple's members one after another only appends calls to the context |
| `Intrinsics.AddIntrinsicAppendsTrace` | core/src/context/builder.rs:15-39 | installing a selection appends exactly its trace: one installer call per marker, tuple members left to right, nothing else |
| `Intrinsics.AddEachAppendsTrace` | core/src/context/builder.rs:28-39 | installing a tuple's members appends the concatenation of the members' traces, in member order |
| `Intrinsics.TraceAllAppend` | core/src/context/builder.rs:28-39 | installing the members of two tuples one after the other makes the first tuple's calls, then the second's |
| `Intrinsics.MemberInstalledOnceInPlace` | core/src/context/builder.rs:34-36 | member `k` of a tuple is installed exactly once: its whole trace lies between the traces of the members before and after it |
| `Intrinsics.TraceIsFlattened` | core/src/context/builder.rs:28-39 | the calls of any selection, however nested, are the installers of its markers in flattened left-to-right declaration order |
| `Intrinsics.InstallsNothingIffNoMarker` | core/src/context/builder.rs:34-36 | a selection makes no installer call if and only if it contains no marker (the empty tuple, tuples of empty tuples) |
| `Intrinsics.SpliceMemberTuple` | core/src/context/builder.rs:111-131 | replacing a member tuple by its own members, within the arity limit, leaves the calls unchanged: composition is associative |
| `Intrinsics.FlatTrace` | core/src/context/builder.rs:111-131 | a flat tuple of markers is an intrinsic exactly when it has at most 17 members, and then installs each listed marker's installer once, in list order, whatever that order is |
| `Intrinsics.RepeatedMarkerInstalledTwice` | core/src/context/builder.rs:28-39 | a tuple that repeats a marker calls its installer twice: nothing is deduplicated |
| `Intrinsics.PrerequisiteOrderNotChecked` | core/src/context/builder.rs:28-39 | any two markers form an intrinsic in either order and install in the order given, so `(Operators, BaseObjects)` installs operator overloading first: no prerequisite order is enforced |
| `Bundles.BaseIsBaseObjects` | core/src/context/builder.rs:84-85 | `Base` installs exactly what `BaseObjects` installs: the single call of `JS_AddIntrinsicBaseObjects` |
| `Bundles.NoneInstallsNothing` | core/src/context/builder.rs:87-88 | `None`, the empty tuple, makes no call and leaves every context unchanged |
| `Bundles.AllIsFlat` | core/src/context/builder.rs:90-108 | `All` is the flat tuple of the sixteen markers in its listed order |
| `Bundles.AllTrace` | core/src/context/builder.rs:90-108 | `All` makes exactly sixteen calls in canonical order, from `JS_AddIntrinsicBaseObjects` to `JS_EnableBignumExt(1)` |
| `Bundles.AllInstallsEveryMarkerOnce` | core/src/context/builder.rs:90-108 | `All` calls every marker's installer, at that marker's declaration position, and no installer twice |
| `Bundles.AllRespectsPrerequisites` | core/src/context/builder.rs:90-108 | in `All`, every base-objects call precedes every operator-overloading call, and the RegExp compiler precedes the RegExp object |
| `Builders.Default` | core/src/context/builder.rs:133-137 | a new builder selects nothing: its selection has no marker and makes no call |
| `Builders.With` | core/src/context/builder.rs:139-142 | `with::<J>` on a builder holding `I` gives a selection whose calls are `I`'s followed by `J`'s and whose markers are `I`'s followed by `J`'s |
| `Builders.Build` | core/src/context/builder.rs:144-146 | building appends exactly the selection's trace to the calls of the newly created context |
| `Builders.Chain` | core/src/context/builder.rs:139-142 | a chain `default().with::<A>().with::<B>()…` of any length is an intrinsic: every pair `with` forms has two members, within the arity limit |
| `Builders.ChainFlattensInCallOrder` | core/src/context/builder.rs:139-142 | a chain selects A, B, … in call order, flattened: its calls and its markers are theirs concatenated, whatever the nesting depth of the pairs |
| `Builders.BuildDefaultInstallsNothing` | core/src/context/builder.rs:133-137 | building a builder without any `with` leaves the created context exactly as it was |
| `Builders.WithDefersInstallation` | core/src/context/builder.rs:140-142 | `with` installs nothing itself: building `b.with::<J>()` equals building `b` and then installing `J` into the same context |
| `Builders.ChainIsFlatTuple` | core/src/context/builder.rs:139-142 | a chain of at most 17 selections makes the same calls as the flat tuple of those selections |
| `Builders.BuildChainLog` | core/src/context/builder.rs:144-146 | building a chain appends the selections' traces in call order |
| `Builders.ChainInstallsInCallOrder` | core/src/context/builder.rs:139-146 | building a chain installs its `k`th selection exactly once, after every earlier selection and before every later one |

## Left out

- The 32-bit WASI bindings (`sys/src/bindings/wasm32-wasi.rs`) are foreign declarations, ABI constants and layout checks. They hold no behaviour to model. Every installer declared there takes only the context pointer, except `JS_EnableBignumExt`, which also takes one `c_int`.
- What an installer does to the engine heap is not modelled, including allocation failure during installation. Installers are opaque foreign calls, modelled as entries appended to the context's call log.
- `Context::custom` is not part of this model. It covers context allocation, its error result, and reference counting. `Builders.Build` therefore takes the newly created context as a parameter and returns the context after installation, with no error path. It assumes that context creation installs the handed-over selection exactly once into the new context.
- The Rust move semantics of `with(self)` and `build(self, …)` are not modelled. Builders are immutable values, so single use is not expressible.
- The type-level arity limit is modelled as the `WellFormed` precondition (at most 17 members per tuple). It is not a compile-time rejection.
- Generic type parameters `I`, `J` become values of type `Intrinsic`. A user-written `Intrinsic` implementation outside the built-in markers is not modelled.
- `Engine.Installer.Symbol` records each entry point's C name for reference. No property is stated about it.
