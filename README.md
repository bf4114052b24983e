# JSON Preview App: value model, tree renderer and application state

A Dafny model of the core of a small desktop JSON viewer written in Rust
(`src/main.rs`). The user opens a JSON file and the program shows it as a tree
of collapsible sections. The model has four modules:

- `JsonValues` (`json_value.dfy`): the six-variant `JsonValue` enum. The
  variants are Object, Array, String, Number, Bool and Null, the value kinds of
  section 3 of RFC 8259. An object is its sequence of members in `IndexMap`
  order. A number is opaque and known only by the text its `Display` prints.
- `TreeRender` (`tree_render.dfy`): `render_json`. The egui `Ui` is modelled as
  the sequence of widgets a call appends to it. A widget is a collapsible
  `Section(title, body)` or a `Label(text)`. `Render` is the specification of
  one call. `RenderJson` is the walk as the source writes it, a recursion with
  one loop per container, and is proved to produce exactly `Render`. The lemmas
  state what each node kind renders to, the two-spaces-per-level indentation,
  that the widget tree is exactly `Height(v)` levels deep (an empty container
  counts as no level), and that sibling titles are distinct.
- `Decimal` (`decimal.dfy`): the decimal text of an array index, as
  `format!("{}", i)` prints a `usize`. `ParseDecimal` is its inverse, so
  distinct indices give distinct section titles.
- `PreviewApp` (`preview_app.dfy`): the class `JsonPreviewApp` with its two
  optional fields, `jsonData` and `error`. `OpenJsonFile` applies the outcome
  of one press of "Open JSON File". `Show` is the drawing half of `update`.
  `Step` and `Run` give the same transition on values, so that lemmas can
  follow a whole session of presses.

A failed read or parse sets the error and keeps the previous document on
screen (src/main.rs:37, 40); see `StaleTreeAfterFailure`.

## Model

| member | source | states |
|---|---|---|
| `Decimal.NatToString` | src/main.rs:85 | the index prints as at least one decimal digit, exactly one digit for indices below 10, with no leading zero except for 0 itself, which prints as `0` |
| `Decimal.ParseOfNatToString` | src/main.rs:85 | reading the printed index back as a decimal number gives the index |
| `Decimal.NatToStringInjective` | src/main.rs:85 | two indices print the same exactly when they are equal |
| `TreeRender.Indent` | src/main.rs:78 | `"  ".repeat(depth)` is 2*depth characters, all of them spaces |
| `TreeRender.RenderJson` | src/main.rs:74-103 | the recursive walk with its two `for` loops appends exactly the widgets `Render` specifies, for every value and depth |
| `TreeRender.RenderMembersAt` | src/main.rs:77-81 | the member sections are one per member; section i has the indented key of member i as its title and that member's value, rendered at depth+1, as its body |
| `TreeRender.ObjectRender` | src/main.rs:76-81 | an object with n members renders to exactly n sections in map order; section i has title indentation + key i and body `Render(value i, depth+1)`; an empty object renders to nothing |
| `TreeRender.RenderElementsAt` | src/main.rs:84-88 | element sections numbered from any starting index: section i is titled with index first+i and holds element i rendered at depth+1 |
| `TreeRender.ArrayRender` | src/main.rs:83-88 | an array with n elements renders to exactly n sections in index order; section i has title indentation + "[" + i + "]" and body `Render(element i, depth+1)`; an empty array renders to nothing |
| `TreeRender.ScalarRender` | src/main.rs:90-101 | a scalar renders to exactly one label and no section: a string as indentation + `"` + s + `"` with no escaping, a number as indentation + its display text, a bool as indentation + `true` or `false`, null as indentation + `null` |
| `TreeRender.RenderIndented` | src/main.rs:74-103 | every title and label emitted for a node at depth d begins with 2*d spaces, and every section body is indented one level deeper than its title |
| `TreeRender.MembersIndented` | src/main.rs:76-81 | every object section title begins with the indentation of its depth, and every body is indented one level deeper |
| `TreeRender.ElementsIndented` | src/main.rs:83-88 | every array section title begins with the indentation of its depth, and every body is indented one level deeper |
| `TreeRender.MemberIndented` | src/main.rs:78-80 | a member's section title begins with the indentation of its depth, and its body is indented one level deeper |
| `TreeRender.RenderHeight` | src/main.rs:74-103 | the rendered widget tree is exactly `Height(v)` levels deep, where a scalar is one level, a container one above its deepest child, and an empty container none; each recursive call renders one level deeper (lines 79, 86) |
| `TreeRender.RenderMembersHeight` | src/main.rs:76-81 | an object's sections are as deep as its deepest member plus one |
| `TreeRender.MemberSectionHeight` | src/main.rs:78-80 | one member's section is one level deeper than the member's value |
| `TreeRender.RenderElementsHeight` | src/main.rs:83-88 | an array's sections are as deep as its deepest element plus one |
| `TreeRender.ObjectTitlesDistinct` | src/main.rs:76-81 | an object's section titles are pairwise distinct exactly when its keys are distinct, as they are in an `IndexMap` |
| `TreeRender.ArrayTitlesDistinct` | src/main.rs:83-88 | an array's section titles are pairwise distinct |
| `TreeRender.NestedExample` | src/main.rs:74-103 | `{"a":{"b":[1,2]}}` renders as section "a", inside it section "  b", inside that "    [0]" and "    [1]" holding the labels "      1" and "      2" |
| `PreviewApp.JsonPreviewApp.constructor` | src/main.rs:16-22 | the initial state has no document and no error |
| `PreviewApp.JsonPreviewApp.OpenJsonFile` | src/main.rs:28-43 | after Parsed(v) the document is v and the error is cleared; after a read failure the error is "Failed to read file: " + reason, and after a parse failure it is "Failed to parse JSON: " + reason, the document unchanged in both; a cancelled dialog changes neither field |
| `PreviewApp.JsonPreviewApp.Show` | src/main.rs:45-56 | a frame shows the error banner exactly when there is an error, and the document's tree rendered from depth 0 exactly when a document is loaded |
| `PreviewApp.StepError` | src/main.rs:33-40 | after a press the error is empty exactly when the file parsed, or when the dialog was cancelled and the error was empty before |
| `PreviewApp.StepData` | src/main.rs:33-40 | only a successful parse changes the document, and it loads the parsed value |
| `PreviewApp.StaleTreeAfterFailure` | src/main.rs:37-56 | a failed read or parse leaves the previous tree on screen beside a new error banner |
| `PreviewApp.StepIdempotent` | src/main.rs:28-43 | repeating a press with the same outcome gives the same state as doing it once |
| `PreviewApp.ErrorMessagesDistinct` | src/main.rs:37-40 | a read-failure message never equals a parse-failure message, and both show the underlying reason unchanged after their prefix |
| `PreviewApp.LatestAttempt` | src/main.rs:28-43 | the result is a non-cancelled press that occurs in the session with only cancelled presses after it, so it is the latest one; there is none exactly when every dialog was cancelled |
| `PreviewApp.LatestParsed` | src/main.rs:33-36 | the result is the value of a press that parsed, with no parsing press after it; there is none exactly when no press parsed |
| `PreviewApp.RunSnoc` | src/main.rs:28-43 | a session extended by one press ends in the state that press makes from the session's end state |
| `PreviewApp.RunData` | src/main.rs:33-40 | after any session the document is the one from the latest press that parsed, or the one from before the session if none parsed |
| `PreviewApp.RunError` | src/main.rs:33-40 | after any session the error is the one the latest non-cancelled press left, or the one from before the session if every dialog was cancelled |
| `PreviewApp.LatestAttemptParsed` | src/main.rs:33-36 | if the latest non-cancelled press parsed v, then the latest press that parsed also parsed v |
| `PreviewApp.NoAttemptNoDocument` | src/main.rs:29 | if every dialog was cancelled, no press parsed anything |
| `PreviewApp.SessionConsistent` | src/main.rs:16-43 | from start-up, whenever no error is shown, the document on display is the one the latest non-cancelled press parsed, and there is none only if every dialog was cancelled |

## Left out

- TreeRender.RenderHeight: `Height` counts an empty object or array as no level, because it renders nothing; for a value that contains empty containers this is less than the usual nesting depth (`[[]]` has height 1).
- The egui and eframe calls (`CentralPanel`, `ScrollArea`, `colored_label`, `separator`, `auto_shrink`, the event loop in `main`, the window title): toolkit plumbing. What they draw is abstracted into the widget sequence and the `Panel` value.
- The button click and the redraw loop: a frame without a click is a frame in which `OpenJsonFile` is not called.
- `rfd::FileDialog`, `fs::read_to_string` and `serde_json::from_str`: OS dialog, file I/O and a foreign parser. Their results come in as an `OpenOutcome`, with the error's `Display` text as a string.
- The `Display` format of `serde_json::Number`: library behaviour. A number is given by its display text.
- `IndexMap` internals and how the parser treats duplicate keys: library behaviour. An object is a sequence of members; `DistinctKeys` states the map's invariant where a lemma needs it.
- The red colour of the error banner and the `windows_subsystem` flag: cosmetic and platform settings.
- TreeRender.Render: `depth` and array indices are unbounded naturals, so `depth + 1` overflowing a `usize` is not modelled; no document can nest that deep.
