# userpanic: catalog generator, report renderer and panic classification

This project models the core of `userpanic`, a Rust library in one file,
`src/lib.rs`. It has three parts, and the model proves properties of each:

- **The catalog code generator.** `read_from_yml` and `get_err_msg` (with its
  `print_arr` closure) walk a parsed YAML document and emit Rust source text:
  one `pub const NAME:UserPanic = UserPanic {...};` per top-level key. The
  `fix instructions` list is decoded by an index-driven lookahead loop. A string
  followed by a string is a headline alone. A string followed by an array is a
  headline plus that array's strings as details. The model is the `Catalog`
  module. The parsed tree is the `Yaml` datatype. The pairing is the spec
  function `Groups`. `WriteGroups`, `PrintArr`, `GetErrMsg` and `ReadFromYml`
  are imperative methods with the source's loops, each proved equal to a spec
  function.
- **The report renderer.** `impl fmt::Display for UserPanic` builds the crash
  report with numbered steps and numbered sub-steps. An empty message gives no
  report. A group with a single detail prints only its headline. The model is
  the `Panic` module. `Render` is the spec function. `Fmt` and its two loops,
  `WriteSteps` and `WriteDetails`, build the string and are proved equal to it.
- **The payload classification.** `panic_func` and the closure installed by
  `set_hooks` decide what is printed and whether the hook taken over is called.
  The model is the `Hooks` module. It is pure functions over a tagged payload
  and over a hook value that remembers the hook it replaced.

`Text` holds the decimal rendering of the counters and a sequence concatenation.
`Wrappers` holds `Option`.

The source's panics are preconditions of the model. These are an `unwrap` on a
non-string value and `inst[0]` on an empty group. The non-terminating case of
the pairing loop is a precondition too. Each is named in a predicate:
`Pairable`, `EntryOk`, `CatalogOk` and `Renderable`.

Behaviour of the code worth noting, which the model keeps:

- A trailing array in `fix instructions` is not taken as a group headed by its
  first element. The code calls `as_str().unwrap()` on it and panics
  (src/lib.rs:219-220). `Pairable` excludes it.
- Any other node after a headline, or in last position, is not skipped. The
  code leaves `i` unchanged and loops forever (src/lib.rs:211, 223). `Pairable`
  excludes these too.
- A `fix instructions` value that is present but not an array gives
  `fix_instructions: None`. It is not an error (src/lib.rs:194, 228-229).
- A top level that is not a mapping gives the header line alone. It is not an
  error (src/lib.rs:161-174).
- A plain-string panic payload is not printed by the hook itself. Like every
  payload that is not a `UserPanic`, it goes to the hook that was taken over
  (src/lib.rs:152).

## Model

| member | source | states |
|---|---|---|
| `Text.Dec` | src/lib.rs:111-116 | A step or detail counter is written as a non-empty run of decimal digits with no leading zero except for 0 itself. |
| `Text.DecRoundTrip` | src/lib.rs:111 | The decimal text written for a step or detail counter reads back as that counter, so distinct numbers are printed distinctly. |
| `Text.DecInjective` | src/lib.rs:116 | Two counters printed with the same text are equal. |
| `Panic.Fmt` | src/lib.rs:95-125 | `fmt` builds exactly `Render(p)`: nothing for an empty message, otherwise the banner, `Error: msg`, the fixable or unfixable sentence and the steps. |
| `Panic.WriteSteps` | src/lib.rs:108-121 | The outer loop with counter `i` from 1 appends exactly the numbered steps of all groups, in order. |
| `Panic.WriteDetails` | src/lib.rs:113-119 | The inner loop with counter `j` from 1 appends exactly the numbered detail lines, in order. |
| `Panic.SilentMessage` | src/lib.rs:97-99 | An empty message renders as the empty string, whatever the instructions are. |
| `Panic.UnfixableReport` | src/lib.rs:101-104 | With no instructions the report is exactly the banner, `Error: ` and the message, and the "can't be fixed" sentences, with no steps. |
| `Panic.FixableReport` | src/lib.rs:105-121 | With instructions, group `k` (0-based) appears as step `k + 1`. It comes after the fixable sentence and the earlier steps, and before the later ones. |
| `Panic.EmptyInstructions` | src/lib.rs:105-110 | `Some([])` gives the fixable sentence and no steps. |
| `Panic.StepsAppend` | src/lib.rs:109-121 | Step numbering continues across a concatenation of group lists: no restart and no gap. |
| `Panic.StepAt` | src/lib.rs:109-121 | Group `k` is printed as step number `n + k`, between the steps before it and the steps after it. |
| `Panic.DetailsAppend` | src/lib.rs:114-118 | Detail numbering continues across a concatenation of detail lists. |
| `Panic.DetailAt` | src/lib.rs:114-118 | Detail `k` is printed as sub-step number `m + k`, between the details before it and those after it. |
| `Panic.SingleDetailSuppressed` | src/lib.rs:111-113 | A step prints only its headline line exactly when it has at most one detail. |
| `Panic.DetailShown` | src/lib.rs:111-119 | With more than one detail, detail `k` (0-based) is printed as `\t\t(k+1).  d` in order after the headline line. |
| `Hooks.SetHooks` | src/lib.rs:128-142 | Installing a hook keeps the current one: an unrecognised payload gets the current hook's output followed by the new note, and the chain's notes gain that note at the end. |
| `Hooks.Run` | src/lib.rs:132-140 | The closure installed by `set_hooks` reaches the default report exactly when the payload is not a `UserPanic`, and its developer note, when given, is always the last output. |
| `Hooks.PanicFunc` | src/lib.rs:144-154 | `panic_func` calls the original hook exactly for a payload that is not a `UserPanic`. For a `UserPanic` it prints nothing exactly when the message is empty, and otherwise only the rendered report with its newline. |
| `Hooks.DescriptorHandled` | src/lib.rs:128-150 | A `UserPanic` payload is handled by the most recent hook alone. It gives its rendering and a newline when the message is non-empty and nothing when it is empty. The hook's note follows in both cases. |
| `Hooks.SilentWithNote` | src/lib.rs:130-135 | A silent descriptor under a hook with a developer note prints only that note. |
| `Hooks.OtherDelegated` | src/lib.rs:144-153 | Any other payload reaches the default hook through the whole chain. Every note is then printed, the first installed first. |
| `Hooks.Delegation` | src/lib.rs:145-153 | An installed hook calls through to the default hook exactly when the payload is not a `UserPanic`. |
| `Hooks.NoteLast` | src/lib.rs:130-135 | A hook installed with a note prints that note last, whatever the payload. |
| `Hooks.TwoInstalls` | src/lib.rs:128-142 | After two `set_hooks` calls with notes, an unrecognised payload gives the default report, then the first note, then the second. |
| `Catalog.Get` | src/lib.rs:191-194 | `entry["key"]` on a mapping is the value of the first pair with that key. A missing key, or a node that is not a mapping, gives `BadValue`, which is neither a string nor an array. |
| `Catalog.Find` | src/lib.rs:191-194 | Indexing a mapping by key gives the value of the first pair with that key, and `BadValue` when there is none. |
| `Catalog.Pairable` | src/lib.rs:199-226 | A fix list the loop gets through without a panic or an endless loop starts with a string, which is the first headline `arr[0].as_str().unwrap()` reads. `PairableIff` gives the whole shape. |
| `Catalog.PairableIff` | src/lib.rs:199-226 | The pairing loop ends without a panic exactly when these hold: every element is a string or an array of strings, the first is a string, and no two arrays are adjacent. |
| `Catalog.Groups` | src/lib.rs:199-226 | The pairing yields non-empty groups. Their headlines are exactly the list's top-level strings, in order. Flattened, they are every string of the list, nested ones included, in order. |
| `Catalog.LoneStep` | src/lib.rs:201-206 | A headline followed by a string, or a last string, is a group alone, written `&["h"],`. The loop continues at `i + 1`. |
| `Catalog.DetailsStep` | src/lib.rs:207-210 | A headline followed by an array is the group headline-plus-array, written `&["h","d1",...],`. The loop continues at `i + 2`. |
| `Catalog.PrintArr` | src/lib.rs:179-188 | `print_arr` appends `,"d"` for every string of the array, in order. |
| `Catalog.WritePass` | src/lib.rs:200-225 | One pass of the loop body appends the slice literal of the group starting at `i` and moves `i` forward by at least one. What it appends plus the encoding of the groups from the new `i` equals the encoding from the old `i`. |
| `Catalog.WriteGroups` | src/lib.rs:197-226 | The `while i < items` loop appends exactly the encoding of `Groups(arr)`, one slice literal per group, in order. |
| `Catalog.GetErrMsg` | src/lib.rs:178-232 | Without an array of instructions the output is `error_msg:"msg",fix_instructions: None,`. With one it is `error_msg:"msg",fix_instructions:Some(&[`, each group's literal, then `]),`. |
| `Catalog.Descriptor` | src/lib.rs:189-230 | An entry denotes its message and `Some` of the pairing exactly when `fix instructions` is an array. The result can always be rendered. |
| `Catalog.CompileEntries` | src/lib.rs:164-172 | A mapping gives one named descriptor per key, in mapping order, each renderable. |
| `Catalog.ReadFromYml` | src/lib.rs:156-175 | The generated file is the `use` line followed by the declarations of the compiled catalog. The output is a function of the input, so identical documents give identical text. |
| `Catalog.DeclsAppend` | src/lib.rs:164-172 | Declarations are written one after another with no separator, across any split of the catalog. |
| `Catalog.CatalogHeader` | src/lib.rs:158-174 | The output always begins with `use userpanic::UserPanic;\n`. A top level that is not a mapping gives that line alone. |
| `Catalog.CatalogEntryAt` | src/lib.rs:164-172 | Key `k` gives the `k`-th declaration, named by the key and holding its entry's descriptor, between the declarations of the keys before and after it. |
| `Catalog.CompiledRenderable` | src/lib.rs:196-227 | Every descriptor the generator emits has only non-empty groups, so the renderer never indexes an empty group. |
| `Catalog.PrintSPairing` | src/lib.rs:276-291 | The test's list `[first,[a,b],second,[c,d],third]` pairs into `[first,a,b]`, `[second,c,d]` and `[third]`. |
| `Catalog.PrintSDescriptors` | src/lib.rs:276-291 | The test's `foo` entry compiles to its message with those three groups. Its `bar` entry compiles to a message with no instructions. |
| `Catalog.UnescapedQuotesCollide` | src/lib.rs:204-208 | Strings are spliced between quotes without escaping. So a one-element group whose headline contains `","` is written exactly like a two-element group. |

## Left out

- The process-wide hook slot is not modelled. This covers `take_hook`/`set_hook`, the `Box<dyn Fn + Sync + Send>` chain and its thread safety (src/lib.rs:83, 128-142). A hook is a value remembering the hook it took over.
- `downcast_ref::<UserPanic>()` is a tagged payload (`UserPanicPayload` or `OtherPayload`). Runtime type inspection is a language facility.
- `eprintln!` output is modelled as a list of `Emit` effects, each holding the printed text and its newline. The hook in place before the first `set_hooks` (the standard one or one the application installed) is called the default hook. Its report is the abstract effect `DefaultReport`, because its text is not part of this library.
- YAML parsing (`YamlLoader::load_from_str`, `yaml[0]`) is not modelled. The model starts from a parsed `Yaml` tree. A document the parser rejects, or that is empty, panics before the generator runs.
- Mapping lookups take the first pair with the key. Parsed mappings have unique keys, so this is the only match.
- File I/O in `panic_setup_function` and the `panic_setup!` macro (src/lib.rs:234-252) are file-system glue.
- `log::debug!`/`info!` calls are diagnostics only.
- The `it_works` test (src/lib.rs:257-271) drives the real panic hook.
- The `fmt::Formatter` write result is not modelled. The model always produces the whole text.
- Panic.Fmt: the counters `i` and `j` are unbounded integers. Rust's `i32` would overflow only past 2^31 - 1 groups, which a static slice in the catalog cannot reach.
- Catalog.ReadFromYml: the full expected text of the `print_s` test is not restated as one string literal. Its structure is covered by `PrintSDescriptors` together with the `GetErrMsg` and `ReadFromYml` contracts.
- No parse-back round trip is claimed for the generated text. Strings are not escaped, and `UnescapedQuotesCollide` shows that the text does not determine the groups.
