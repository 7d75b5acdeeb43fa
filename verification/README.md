# eris error chains in Dafny

This project models the core of the Go package `eris`, which builds error
chains. There are three kinds of link:

- A **root error** carries a message and the call stack recorded where it was made.
- A **wrap error** adds a context message over another error, plus the frame of the site that wrapped it.
- A **foreign error** comes from outside the package and is only known by its text.

The model covers these operations:

- constructing errors: `New`, `Errorf`, `Wrap`, `Wrapf`;
- walking chains: `Unwrap`, `Cause`, `Is`;
- the stack handling behind them: splicing a wrap site's program counters into the root's stack, rendering frames, and detecting package-initialisation roots;
- unpacking a chain into a value snapshot (`UnpackedError`);
- rendering that snapshot as a string (`ToString`, `ToCustomString`, `Error()`, `%v`) or as a JSON-shaped map (`ToJSON`, `ToCustomJSON`).

Modules:

- `Sequences`: reversal, insertion into a stack, and subsequence facts.
- `Stacks` (`stack.go`):
  - frames and their text form;
  - `Stack.format`, with its invert switch;
  - `stack.insertPC` as a loop;
  - `insert`;
  - `stack.isGlobal` as a loop.
- `Errors` (`eris.go`): the chain itself.
  - `Error` is a datatype with four cases: `Nil`, `RootErr(root)`, `WrapErr(msg, next, frames)` and `External(foreign)`.
  - A root error is a class (`RootError`): the package resets its stack in place when the root is wrapped again.
  - The module defines `Unwrap`, the terminal error of a chain, and the per-layer messages and captures.
- `Formats` (`format.go`):
  - `Format` and `NewDefaultFormat`;
  - `Unpack`, as a class `Unpacking` whose methods update the snapshot in place, as `unpackRootErr` and `unpackWrapErr` do;
  - the string rendering, as methods with loops over the chain;
  - the JSON rendering, as a method building the map link by link.
  - Each method is proved equal to a specification function. Lemmas about those functions state what the rendering means.
- `Eris` (`eris.go`):
  - the constructors;
  - `Wrap`, which updates the root's stack;
  - `Cause` and `Is` as the loops of the source;
  - the `Error()` text, and lemmas giving it for each kind of chain.
- `Scenarios`: concrete chains from the package's own usage.
  - It gives the exact answers the model computes for them.

Two parts of the behaviour depend on the process and the runtime: capturing the call stack, and the pc-to-frame lookup. The model takes both as parameters. A capture is a sequence of `StackFrame` values, and the stack is kept as frames rather than as raw program counters.

### Where the code and its tests disagree

The rendering code puts the root first (`root: first wrap: second wrap`). The chain that `Unpack` builds is innermost first, and `ToCustomString` walks it in order. The model follows the code. Several test expectations assume the opposite order:

- `eris_test.go:44`, `49`, `54`, `59` and `64`;
- `eris_test.go:98-99` and `107-108`;
- `eris_test.go:245` and `250`;
- `format_test.go:118`, `122`, `134` and `138`;
- `format_test.go:202` and `206`.

The inverted tests at `format_test.go:157-158` and `format_test.go:225-226` agree with the model.

Wrapping a foreign error creates a root that carries the foreign text. As a result, `ToJSON` of such a chain has a `root` entry with that text and no `external` entry. The model follows the code here too.

## Model

| member | source | states |
|---|---|---|
| Stacks.DecimalRoundTrip | stack.go:33-35 | the decimal text of a frame's line number consists of digits, with an optional leading minus, and parses back to the same number |
| Stacks.FormatFrameParts | stack.go:33-35 | `FormatFrame` (StackFrame.format) renders a frame as the name, the separator, the file, the separator and the line, with exactly that length; its tail reads back as the line number |
| Stacks.FormatStack | stack.go:13-23 | the loop renders each frame with the separator and appends it when invert is set, or prepends it otherwise, producing `FormattedStack` |
| Stacks.FormattedStackOrder | stack.go:13-23 | with invert, the i-th string renders the i-th frame, so the stored order is kept; without invert, the output is the reverse of the inverted output |
| Stacks.Insert | stack.go:136-139 | inserting u at index at gives a stack one longer with u at that index, the prefix and suffix unchanged, and removing index at gives back the original |
| Stacks.InsertPC | stack.go:83-101 | the loop leaves the stack unchanged for an empty capture and appends a one-frame capture. Otherwise it inserts the capture's site frame just before the first occurrence of the site's caller, unless the site frame occurs first. The result equals `InsertedPC` |
| Stacks.InsertedPCSplices | stack.go:91-100 | when the site's caller occurs in the stack before any occurrence of the site frame, the site frame is spliced in right before it, and nothing else moves |
| Stacks.InsertedPCKeepsUnchanged | stack.go:91-100 | when the site's caller does not occur, or the site frame occurs before it, the stack is unchanged |
| Stacks.InsertedPCGrowth | stack.go:83-101 | merging a capture adds at most one frame and keeps the old stack as a subsequence of the new one |
| Stacks.InsertedPCIdempotent | stack.go:83-101 | merging the same capture twice equals merging it once, except for a one-frame capture, which appends again each time |
| Stacks.IsGlobal | stack.go:126-134 | the loop reports true exactly when some frame's lower-cased name is `runtime.doinit` |
| Errors.Unwrap | eris.go:118-126 | unwrapping a wrap error gives its next error; unwrapping nil, a root or a foreign error gives nil |
| Errors.Terminal | eris.go:155-163 | the end of an unwrap chain cannot be unwrapped further; it is non-nil for a non-nil chain, and in a rooted chain it is the one root the chain reads |
| Errors.UnwrapReachesTerminal | eris.go:118-126 | in a chain whose wraps all have a cause, unwrapping as many times as the chain is deep reaches its terminal error, which is not a wrap, and one more Unwrap gives nil |
| Errors.UnwrapReachesRoot | eris.go:118-126 | a chain that ends in a root, as every chain built by Wrap does, unwraps to that root after one Unwrap per layer, and to nil after one more |
| Formats.NewDefaultFormat | format.go:17-29 | without trace, only the error separator ":" is set; with trace, the format uses newline, tab and ':' separators |
| Formats.Unpacking.constructor | format.go:44 | unpacking starts from an empty snapshot |
| Formats.Unpacking.UnpackRootErr | format.go:212-215 | a root sets the snapshot's root to its message and current stack and leaves the links unchanged |
| Formats.Unpacking.UnpackWrapErr | format.go:217-236 | unpacking a wrap sets the snapshot's root to the chain's unpacked root and puts the chain's links in front of those already gathered |
| Formats.Unpack | format.go:43-56 | the snapshot built by the methods equals `Unpacked`: nothing for nil, the text for a foreign error, and the root plus links for root and wrap chains |
| Formats.UnpackedChainOrder | format.go:217-232 | the unpacked links are the chain's layers innermost first, the reverse of walking from the outside |
| Formats.UnpackedRoot | format.go:212-236 | for a rooted chain, the unpacked root has the terminal root's message and its stack with every layer's capture merged in, innermost first; there is no external text |
| Formats.UnpackedRootKeepsStack | format.go:226-235 | the root's own frames survive unpacking as a subsequence of the unpacked stack |
| Formats.UnpackedNilOrForeign | format.go:43-56 | nil unpacks to the empty snapshot; a foreign error unpacks to an empty root and no links, with its text as external text |
| Formats.LayersOfChain | format.go:219-223 | the i-th layer from the outside has that wrap's message and the first frame of its capture, or the zero frame when the capture is empty |
| Formats.JoinedEnds | format.go:249-255 | the frames joined by the root formatter start with the prefix and first frame and end with the last frame, with no separator after it |
| Formats.EmittedJoined | format.go:249-255 | the loop form of the root's frame output equals each rendered frame preceded by the stack separator and joined by the error separator |
| Formats.FormatRootStr | format.go:244-258 | the root's text is its message and the message/stack separator, followed with trace by its frames, rendered in the requested order |
| Formats.FormatLinks | format.go:85-91 | the loop over the chain emits, for each link in order, the separator (without trace), the link text and the message/stack separator |
| Formats.FormatUnpackedStr | format.go:74-97 | the snapshot is rendered as the root segment, the links in chain order and the external text, under the effective format |
| Formats.ToCustomString | format.go:72-98 | the string of an error is the rendering of its unpacked snapshot |
| Formats.ToString | format.go:113-115 | ToString is ToCustomString under the default format |
| Formats.LinksTextWithTrace | format.go:275-283 | with the default trace format, each link (ErrLink.formatStr, modelled by `LinkStr`) adds its message, a newline and a tab, its site frame as name:file:line, then the newline the loop appends |
| Formats.LinksTextWithoutTrace | format.go:85-91 | without trace and with an empty message/stack separator, the links render as ": " before each message |
| Formats.RenderedStringWithoutTrace | format.go:72-98 | without trace and with an empty message/stack separator, as in the default format, the text is the root message, then ": msg" for each link innermost first, then the external text, whatever the invert setting. A custom format with a non-empty message/stack separator is outside this lemma: the code then emits that separator after the root and after each link |
| Formats.RootJSON | format.go:260-267 | the root object has its message, has a stack entry exactly when trace is on, and has no other keys |
| Formats.LinkJSON | format.go:285-292 | a link object has its message, and with trace exactly one stack entry holding its rendered frame |
| Formats.WrapItemsIndex | format.go:160-167 | the i-th item of the wrap array is the i-th link's object |
| Formats.RenderedJSONShape | format.go:150-174 | the map has a root entry exactly when the root has a message or stack, a wrap array with one object per link in chain order exactly when there are links, and an external entry exactly when there is external text; nothing else |
| Formats.FormatUnpackedJSON | format.go:152-173 | the method that builds the map link by link yields the rendered JSON of the snapshot |
| Formats.ToCustomJSON | format.go:150-174 | the JSON of an error is the rendered JSON of its unpacked snapshot |
| Formats.ToJSON | format.go:208-210 | ToJSON is ToCustomJSON under the default format |
| Eris.FormatError | eris.go:210-222 | printError renders the chain with trace exactly for `%+v`, and without trace otherwise |
| Eris.ErrorString | eris.go:170-172 | Error() is the default rendering without trace, the `%v` form |
| Eris.ErrorTextOfRoot | eris.go:170-172 | the text of a bare root is its message |
| Eris.ErrorTextOfForeign | format.go:52-53 | the text of a bare foreign error is its own text |
| Eris.ErrorTextOfWrap | eris.go:191-193 | the text of a wrap over a root or wrap is the inner text, then ": ", then the wrap's message |
| Eris.ErrorTextOfWrappedForeign | eris.go:102-106 | a wrap over the root made from a foreign error reads as the foreign text, then ": ", then the message |
| Eris.ErrorTextRootFirst | format.go:72-98 | the text of a rooted chain is the root message followed by ": msg" for each layer, innermost first |
| Eris.New | eris.go:61-66 | a new root error carries the message and the stack captured at creation |
| Eris.Errorf | eris.go:69-74 | Errorf makes a root error from the already-formatted message |
| Eris.Wrap | eris.go:93-114 | wrapping nil gives nil. Otherwise the result is a wrap with the message and the site's frames, over a root or wrap error. Wrapping a root or wrap keeps it as the next error, and a root's stack is reset to the new capture. A foreign error is replaced by a fresh root with its text. Depth grows by one, and the terminal root is preserved |
| Eris.Wrapf | eris.go:89-91 | Wrapf is Wrap with the already-formatted message: nil stays nil, a root's stack is reset, a foreign error becomes a fresh root with its text, depth grows by one, and the terminal root is kept |
| Eris.Cause | eris.go:155-163 | the loop returns the terminal error of the chain |
| Eris.CauseOfWraps | eris.go:155-163 | the cause of a rooted chain is its root object, which the chain reads, and one more wrap over a rooted chain keeps that cause |
| Eris.Is | eris.go:134-151 | the loop answers true exactly when some error on the unwrap chain equals the target or matches it by its own Is; a nil target matches only a nil error |
| Eris.IsByMessage | eris.go:178-204 | for a rooted chain and a non-nil target, Is holds exactly when the root message matches the target or some wrap message matches it |
| Eris.RootIsByText | eris.go:178-183 | rootError.Is (`RootIs`) compares the root's message with the target's Error() text, whatever the target's kind; for a root target this is the same as comparing messages |
| Eris.WrapIsByText | eris.go:199-204 | wrapError.Is (`WrapIs`) matches a wrap target by its message alone, whatever that target wraps, and any other target by its Error() text, which for a root target is its message |
| Eris.IsRootTarget | eris.go:178-183 | against a root target, Is holds exactly when the terminal root's message or some wrap message equals the target's message |
| Eris.IsWrapTarget | eris.go:199-204 | against a wrap target, Is holds exactly when some wrap message equals the target's own message, or the root message equals the target's whole text |
| Eris.IsForeignTarget | eris.go:178-183 | against a foreign target, Is holds exactly when the root message or some wrap message equals the foreign text |
| Eris.IsOnForeign | eris.go:134-151 | on a bare foreign error, Is holds exactly when the target is that very error |
| Scenarios.TwoWrapTexts | eris_test.go:94-101 | two wraps over a root read "root: first: second", then "root: first", then "root" while unwrapping |
| Scenarios.UnwrapInternal | eris_test.go:94-101 | New plus two Wraps, unwrapped twice, reach the root with the root-first texts at each step |
| Scenarios.UnwrapExternal | eris_test.go:103-110 | two wraps over a foreign error unwrap to the root made from it, not the foreign error itself |
| Scenarios.EmptyRootMessage | format_test.go:173-174 | a root with an empty message still renders the ": " before the context |
| Scenarios.IsInternal | eris_test.go:136-181 | Is matches the root and both wrap messages, and fails for an unrelated message and a nil target |
| Scenarios.IsExternal | eris_test.go:159-176 | over a foreign error, Is matches a root with the foreign text and another foreign error with the same text |
| Scenarios.IsShared | eris_test.go:165-191 | Is matches a wrap of a shared root by its message, an error matches itself, and nil matches nil |
| Scenarios.CauseOfShared | eris_test.go:207-222 | Cause of a chain over a shared root is that very root; Cause of nil is nil |
| Scenarios.SharedRootReset | eris.go:98-100 | after a second wrap of a shared root, both chains unpack with the stack of the later capture |
| Scenarios.TwoWrapUnpacked | format_test.go:28-44 | two wraps over a root unpack to the root message, the merged stack and two links, first wrap first |
| Scenarios.TwoLinkJson | format_test.go:225-226 | without trace, a root with a message and two links render to message-only objects in chain order |
| Scenarios.JsonOfChain | format_test.go:225-226 | ToJSON of "root error" wrapped by "additional context" and "even more context" gives that root and wrap array |

## Left out

- Runtime stack capture is not modelled: `caller`, `callers`, `frame.get`, `stack.get` and the `runtime` package. Captures are parameters, and stacks hold `StackFrame` values rather than program counters.
- The `Sprintf` formatting inside `Errorf` and `Wrapf` is not modelled: both receive the already-formatted message.
- The `fmt.State` and `io` plumbing of the `Format` methods is left out: `FormatError` returns the string that would be written.
- The `reflect` comparability check in `Is` is left out: every target is taken to be comparable.
- Foreign errors are modelled as opaque texts: a foreign error's own `Unwrap` or `Is` methods are not followed.
- `encoding/json` marshalling is left out: JSON is modelled as a value tree of strings, arrays and objects.
- Stacks.ToLower: this lowers ASCII capitals and the two non-ASCII capitals whose lower case is ASCII: U+0130 lowers to 'i' and U+212A to 'k'. So "runtime.doİnit" counts as global, as it does in Go. Other non-ASCII letters are kept unchanged, while Go lowers them too. A lowered non-ASCII letter is never ASCII, so `IsGlobal` gives Go's answer, but `ToLower` by itself differs from Go on such text.
- Line numbers are unbounded integers, not Go's `int`.
- `error.go`, `formatter.go` and `printer.go` belong to an older version of the package. They, `formatter_test.go` and `error_test.go` are not part of this model.
- Stacks.InsertedPCIdempotent: a one-frame capture appends on every merge, so idempotence is claimed only for captures of zero or two or more frames. A code comment says appending there is intended.
- A wrap error holds one `frame` (eris.go:188), but `unpackWrapErr` reads a frame list (format.go:220). The model gives each wrap a frame list whose first element is the site frame.
- `unpackWrapErr` calls an undefined `insertFrame` (format.go:235). The model uses the stack merge of `insertPC`.
- `ErrRoot.formatStr` calls `Stack.format` with one argument (format.go:248). The model passes the `invert` switch that `Stack.format` takes (stack.go:13) as an explicit parameter of the formatters.
- `printError` calls `ToString` on the snapshot, which is not defined in this version. The model renders the snapshot as `ToCustomString` does.
- Eris.ErrorString: `Error()` passes invert=true to the renderer. `invert` only orders the root's stack frames, which are not printed without trace, so the text does not depend on it (`RenderedStringWithoutTrace`). The order of the messages never depends on `invert`.
- Stacks.InsertPC: this returns the merged stack instead of updating the receiver in place.
- Formats.FormatLinks, Formats.FormatUnpackedStr and Formats.FormatUnpackedJSON are parts of `ToCustomString` and `ToCustomJSON`, split out so each loop has its own contract.
- Eris.Wrap: its contract states the chain structure and depth, not the rendered text. The text effect is stated by `ErrorTextOfWrap` and `ErrorTextOfWrappedForeign`.
