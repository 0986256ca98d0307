# code-map outline model

A Dafny model of the outline builder of the Blender add-on *code-map*
(`__init__.py`). The add-on shows a clickable outline of the Python script
open in Blender's text editor. `DrawHelper.draw` walks over the lines of the
text once. It keeps a single flag, `is_class_name`: whether the most recent
`class ` line names a class the user has expanded. A first-match
`if`/`elif` chain of string tests classifies each line, and the line gets at
most one row. A row is one of five kinds:

- a class row, for a line starting with `class `, with an expand/collapse
  toggle;
- a method row, for a line starting with `    def ` (four blanks);
- a property row, for a line holding `": "` whose column 4 is not blank and
  which names a `*Property` type; no indentation is required, so
  `abcd: IntProperty()` at the left margin qualifies too;
- a variable row, for a line holding `" = "` that does not start with a
  blank; this includes a `def` line with a default argument, such as
  `def f(x = 1):`;
- a function row, for a line starting with `def ` that no earlier test took.

Each row carries its label and its 1-based jump target. The user expands or
collapses classes with the toggle operator `CODE_MAP_OT_dynamic_toggle`. It
adds or removes the class name in a string collection.

The model has these modules:

- `PyStr` (`py_str.dfy`): the Python `str` operations the code uses, over
  `seq<char>`:
  - `startswith`, `in`, `strip`, `replace(pat, "")`;
  - the three forms of `split`;
  - `lower` and `isspace`.
- `Helpers` (`helpers.dfy`): the pure methods of `DrawHelper`:
  - `parse_class_line`, `has_methods`, `is_match`, `truncate_text`,
    `get_indentation`;
  - the label each `draw_*_row` method cuts out of its line.
- `Expansion` (`expansion.dfy`): the expansion collection and the toggle.
- `Outline` (`outline.dfy`): the loop itself.
  - `BranchOf` is the `elif` chain. It computes only; the lemma
    `BranchOrder` states which arm each line takes.
  - `LineStep` is one turn of the loop body. It computes only; the `Step*`
    lemmas state what it draws and when it raises.
  - `ScanFrom` is the loop, threading `is_class_name` as the source does.
  - `Draw` is `DrawHelper.draw`.
  - Drawing calls become an abstract `Row`.
  - `Outcome` is the result: the panel made inactive when no text is open,
    all rows drawn, or an `IndexError` raised part-way with the rows drawn
    before it.
  - The proofs compare the threaded loop with a reference run over the
    per-line steps. That run looks each line's flag up with `ExpandedAt`:
    the nearest class line above is expanded.
- `OutlineFacts` (`outline_facts.dfy`): what a whole draw guarantees.
  - Row order and jump targets.
  - Where the `IndexError` strikes.
  - What each kind of row says about its line.
  - Which lines are certainly drawn.

Inputs the add-on takes from Blender become parameters of `Settings`:

- the search box (`wm.search`);
- the expansion collection (`wm.show_def_lines`);
- `bpy.app.version`.

Three behaviours of the code are easy to overlook, and the model keeps
each of them as written:

- Class rows show the class name untruncated (`__init__.py:258` passes
  `class_name` as it is). Only the other four kinds go through
  `truncate_text`.
- A line of at most four characters holding `": "` does not simply fail to
  match. Evaluating `line.body[4]` (lines 159 and 172) raises `IndexError`,
  and drawing stops there. The model has it as `Outcome.Faulted`.
- With a non-blank search and its class collapsed, a method with an
  annotated parameter (`    def f(self, x: int):`) is taken by the
  search-only annotation test (line 172), which comes before the
  search-only method test (line 175). It gets a property row if it names a
  `*Property` type, and otherwise no row at all.

The label cuts in the other `draw_*_row` methods cannot raise:

- `split()[0]` on a line holding `" = "`;
- `split()[0]` on a line with a non-blank column 4;
- `split(' ', 1)[1]` on a line starting with `"def "` or `"    def "`.

Each of these is a precondition of the corresponding label function, and
every call site discharges it.

## Model

| member | source | states |
|---|---|---|
| Expansion.Toggle | __init__.py:104-110 | When the value is absent it is appended at the end; when present, exactly its first occurrence is removed and everything else keeps its order |
| Expansion.ExecuteToggle | __init__.py:104-110 | The operator's `for`/`else` loop (remove at the first equal item and stop, otherwise add) computes `Toggle` |
| Expansion.ToggleOthers | __init__.py:104-110 | Toggling one value never changes whether any other value is in the collection |
| Expansion.ToggleFlips | __init__.py:104-110 | On a duplicate-free collection the toggle flips the value's membership and keeps the collection duplicate-free |
| Expansion.ToggleTwice | __init__.py:104-110 | Toggling the same value twice restores every value's membership, and restores the collection itself when the value was absent |
| Helpers.ParseClassLine | __init__.py:184-193 | The class name is trimmed and holds no `(` or `:`; the base class is present exactly when the line has both a `(` and a `)`, and is then trimmed and free of parentheses |
| Helpers.ParseClassWithBase | __init__.py:184-193 | A declaration `class Name(Base)...`, optionally written `bpy.types.Base`, parses back to `Name` and `Base` |
| Helpers.ParseClassWithMixin | __init__.py:184-193 | A declaration `class Name(Mixin, bpy.types.Base)...` parses back to `Name` and the base text `Mixin, Base`: every `bpy.types.` is removed, not only a leading one |
| Helpers.ParseClassWithoutBase | __init__.py:184-193 | A declaration `class Name:` parses back to `Name` with no base class |
| Helpers.IsMatchEmptySearch | __init__.py:204-206 | With an empty search box every class is shown, whatever its name, line or members |
| Helpers.IsMatchIgnoresCase | __init__.py:204-206 | Lower-casing the search never changes which classes match |
| Helpers.HasMethodsIff | __init__.py:195-202 | The lookahead is true exactly when some line before the next `class ` line is a line starting with `    def `, or a `": "` line starting with four blanks; the search plays no part |
| Helpers.TruncateText | __init__.py:208-211 | Labels of at most 37 characters are unchanged; longer ones become their first 37 characters followed by `...`, 40 in all |
| Helpers.TruncateIdempotent | __init__.py:208-211 | Truncating an already truncated label changes nothing |
| Helpers.GetIndentation | __init__.py:213-217 | The indentation is all blanks: twelve of them from Blender 3.0.0 on, four before |
| Helpers.VariableLabelOfAssignment | __init__.py:226-227 | A line `name = value` is labelled with `name`, truncated |
| Helpers.FunctionLabelOfDef | __init__.py:240-241 | A line `def name(...)` is labelled with `name`, truncated |
| Helpers.PropertyLabelOfAnnotation | __init__.py:276-277 | A line `name: Type(...)` behind any blank indentation, none included, is labelled with `name`, truncated |
| Helpers.MethodLabelOfDef | __init__.py:288-289 | A line `    def name(...)` is labelled with `name`, truncated |
| PyStr.BlankIffAllSpace | __init__.py:171 | `search.strip()` is empty exactly when the search is all whitespace |
| Outline.BranchOrder | __init__.py:144-180 | Each arm of the chain is taken exactly when its own test holds and every earlier arm's test fails; the annotation test under an expanded class is passed over only when it fails without raising, so a short `": "` line raises before the `" = "` and `def ` arms are tried, and a `def` line holding `" = "` is a variable row, not a function row |
| Outline.StepFlag | __init__.py:144-147 | Only a class line changes `is_class_name`, and then sets it to whether that class is expanded; a line starting with `def ` leaves it alone |
| Outline.StepFault | __init__.py:159-172 | A line raises `IndexError` exactly when it holds `": "`, has at most four characters, and the chain reaches a column-4 test: under an expanded class, or with a non-blank search when the line is not a `" = "` line holding the search and not starting with a blank |
| Outline.StepRowAt | __init__.py:139-180 | A row drawn for line `i` jumps to line `i + 1`, and it is a class row exactly when the line starts with `class ` |
| Outline.StepClassRow | __init__.py:144-152 | A class line never raises; it gets a row exactly when `is_match` accepts its name, its line and its lookahead |
| Outline.StepClassRowFits | __init__.py:247-259 | A class row shows the parsed class name with no pad, and its toggle is blank without members, down when expanded, right otherwise |
| Outline.StepMethodRow | __init__.py:283-292 | A method row comes from a line starting with `    def ` holding the search, under an expanded class unless the search is non-blank; it is labelled with the method name and indented by `get_indentation` |
| Outline.StepPropertyRow | __init__.py:262-280 | A property row comes from a `": "` line with a non-blank column 4 that names one of the ten `*Property` markers and holds the search, under an expanded class unless the search is non-blank |
| Outline.StepVariableRow | __init__.py:220-230 | A variable row comes from a `" = "` line not starting with a blank that holds the search; it has the blank icon only when the text has a class and the search is blank |
| Outline.StepFunctionRow | __init__.py:233-244 | A function row comes from a `def ` line holding the search; it has the blank icon whenever the text has a class |
| Outline.StepShowsMethod | __init__.py:155-156 | Under an expanded class, a line starting with `    def ` holding the search is always drawn as its method row |
| Outline.StepUnmarkedAnnotation | __init__.py:159-160 | Under an expanded class, an annotation line naming no `*Property` marker draws nothing and does not fall through: even a `" = "` in it gives no variable row |
| Outline.StepShowsAssignment | __init__.py:163-164 | A `" = "` line not starting with a blank and holding the search is drawn as a variable row, unless it holds `": "` under an expanded class |
| Outline.StepShowsFunction | __init__.py:167-168 | A `def ` line holding the search and no `" = "` is drawn as a function row, unless it holds `": "` under an expanded class |
| Outline.StepShowsProperty | __init__.py:159-160 | A `": "` line with a non-blank column 4, a `*Property` marker and the search is drawn as its property row, under an expanded class unless it starts with `    def `, and with a non-blank search whatever the expansion unless the `" = "` test or the `def ` test takes it first |
| Outline.StepSearchShowsMethod | __init__.py:171-176 | With a non-blank search, a line starting with `    def ` holding the search is drawn as its method row whatever the expansion, provided it holds no `": "` when its class is collapsed |
| Outline.StepSearchAnnotatedMethod | __init__.py:171-176 | With a non-blank search and the class collapsed, a line starting with `    def ` holding `": "` takes the search-only annotation arm: it is drawn as a property row if it names a marker, and not at all otherwise |
| Outline.ScanFrom | __init__.py:139-180 | The loop from any line never makes the panel inactive, and stops no earlier than that line and no later than the last line |
| Outline.ScanFromSteps | __init__.py:139-180 | Threading `is_class_name` through the loop gives the same outcome as looking up each line's flag from the nearest class line above it |
| Outline.ScanStepsScanned | __init__.py:139-180 | The run keeps exactly the rows the steps draw, in order, stops at the first faulting step, and keeps the rows drawn before it |
| Outline.Draw | __init__.py:131-182 | The panel is made inactive exactly when no text is open; otherwise the loop never goes past the last line |
| Outline.DrawScanned | __init__.py:125-182 | A draw over a text is the run over the steps of all its lines from the first, with the flag initially false |
| OutlineFacts.DrawOrdered | __init__.py:139-180 | At most one row per line, in strictly increasing source order; each row is the row the loop body draws for the line it jumps to |
| OutlineFacts.DrawFault | __init__.py:159-172 | A draw that raises stops at the first line that raises and keeps only rows of earlier lines; a draw that completes has no line that raises |
| OutlineFacts.DrawClassRow | __init__.py:144-152 | A row is a class row exactly when its line starts with `class `; such a row is accepted by `is_match`, named after the class and carries its toggle |
| OutlineFacts.DrawMethodRow | __init__.py:155-176 | Every method row's line starts with `    def ` and holds the search, and lies under an expanded class unless the search is non-blank |
| OutlineFacts.DrawPropertyRow | __init__.py:159-176 | Every property row's line has a non-blank column 4, names a `*Property` marker and holds the search, under an expanded class unless the search is non-blank |
| OutlineFacts.DrawVariableRow | __init__.py:163-164 | Every variable row's line holds `" = "` and the search and does not start with a blank; it is labelled with its first word, truncated |
| OutlineFacts.DrawFunctionRow | __init__.py:167-168 | Every function row's line starts with `def ` and holds the search; it is labelled with the text between its first blank and the next `(`, truncated |
| OutlineFacts.DrawBlankSearchFolds | __init__.py:155-171 | With a blank search, method and property rows appear only where the nearest class line above names an expanded class |
| OutlineFacts.RowForIff | __init__.py:139-180 | A line the draw reached has a row exactly when its loop body draws one |
| OutlineFacts.DrawClassIff | __init__.py:149-151 | A class line the draw reached is shown exactly when the search is in the class name, or the class has members and the search is in the class line |
| OutlineFacts.DrawShowsMethods | __init__.py:155-156 | Under an expanded class, every reached line starting with `    def ` holding the search is in the outline as its method row |
| OutlineFacts.DrawShowsAssignment | __init__.py:163-164 | Every reached line that holds `" = "` and the search and does not start with a blank is in the outline as its variable row, unless it holds `": "` under an expanded class. A tab-indented `\tx = 1` qualifies; `X=1`, with no blanks around `=`, does not |
| OutlineFacts.DrawShowsFunction | __init__.py:167-168 | Every reached line starting with `def ` that holds the search and no `" = "` is in the outline as its function row, unless it holds `": "` under an expanded class |
| OutlineFacts.DrawShowsProperty | __init__.py:159-172 | Every reached `": "` line with a non-blank column 4, a `*Property` marker and the search is in the outline as its property row: under an expanded class unless it starts with `    def `, and with a non-blank search whatever the expansion, unless it holds `" = "` and does not start with a blank, or starts with `def `. So `abcd: IntProperty(default = 1)` in a collapsed class becomes a variable row |
| OutlineFacts.DrawSearchShowsMethod | __init__.py:171-176 | With a non-blank search, every reached line starting with `    def ` holding the search is in the outline as its method row, even in a collapsed class, unless it holds `": "` there |
| OutlineFacts.DrawSearchHidesAnnotatedMethod | __init__.py:171-176 | With a non-blank search and a collapsed class, a reached line starting with `    def ` holding `": "` and no `*Property` marker has no row |
| OutlineFacts.DrawSkipsUnmarked | __init__.py:159-160 | Under an expanded class, a reached annotation line naming no `*Property` marker has no row at all |

## Left out

- Icon loading and the `custom_icons` cache (`__init__.py:43-66`). This is file-system and previews I/O. A row's icon follows from its kind.
- The jump and popup operators, the panel, registration and keymaps (`__init__.py:72-84`, `298-378`). These are host-application glue.
- The `getattr` walk along `data_path` in the toggle operator (`__init__.py:96-102`). It is reflection over the Blender context. The toggle acts on the collection directly.
- `load_icons()` and drawing the search box (`__init__.py:127-129`). They draw nothing the outline depends on.
- Every `layout`/`row` call. A `Row` value stands for each outline row.
- `base_class` is parsed (and modelled in `ParseClassLine`) but never shown. `Row` does not carry it.
- `inside_class` (`__init__.py:134`, `152`, `180`) is written but never read. The last `elif` does nothing else, so the model treats it as no match.
- `truncate_text`'s `max_length` parameter is always left at its default of 37. The model fixes it.
- `has_methods`' `class_name` parameter is unused. `HasMethods` does not take it.
- PyStr.Lower: lower-cases ASCII letters only. Python's `str.lower()` also maps non-ASCII letters, some to two characters. Searches involving such letters are not modelled.
- PyStr.IsSpace: is the fixed set of code points Python's `str.isspace()` accepts. It is stated as a table, not derived from the Unicode database.
