/**
 The outline builder of `DrawHelper.draw` (`__init__.py`): one pass over the
 lines of the open text, carrying the single flag `is_class_name` (whether
 the most recent class line names an expanded class), classifying each line
 by a first-match chain of string tests, and emitting at most one row per
 line. Drawing calls are replaced by the abstract `Row`.
 */
module Outline {
  import opened Wrappers
  import opened PyStr
  import opened Helpers

  datatype Kind = Class | Method | Property | Variable | Function

  /**
   The toggle icon in front of a class row: `BLANK1` when the class has no
   members (`Leaf`), `DOWNARROW_HLT` when expanded, `RIGHTARROW` when
   collapsed. Rows of other kinds have no toggle.
   */
  datatype Arrow = NoArrow | Leaf | Expanded | Collapsed

  /**
   The placeholder drawn before the label: nothing, a `BLANK1` icon, or a
   label made of `get_indentation` spaces.
   */
  datatype Pad = NoPad | BlankIcon | Spaces(text: string)

  /** One outline row; `line` is the 1-based jump target. */
  datatype Row = Row(kind: Kind, caption: string, line: nat, pad: Pad, arrow: Arrow)

  /** What the window manager supplies: the search box, the expansion collection, and the host version. */
  datatype Settings = Settings(search: string, expansion: seq<string>, version: Version)

  /**
   The result of a draw: no text open (the layout is made inactive), every
   line processed, or an `IndexError` raised at 0-based line `at` after the
   rows before it were drawn.
   */
  datatype Outcome = Inactive | Drawn(rows: seq<Row>) | Faulted(rows: seq<Row>, at: nat)

  /** One step of the loop: the row drawn for the line, if any, and the new `is_class_name`. */
  datatype Step = Next(row: Option<Row>, expanded: bool) | IndexFault

  /** `has_class`: some line starts with `"class "`. */
  predicate HasClass(lines: seq<string>) {
    exists j | 0 <= j < |lines| :: IsClassLine(lines[j])
  }

  /**
   The value `is_class_name` holds when line `i` is reached, defined looking
   backwards: whether the nearest class line before `i` names an expanded
   class (false when there is none). Only class lines change it.
   */
  function ExpandedAt(lines: seq<string>, i: nat, expansion: seq<string>): bool
    requires i <= |lines|
  {
    if i == 0 then false
    else if IsClassLine(lines[i - 1]) then ParseClassLine(lines[i - 1]).name in expansion
    else ExpandedAt(lines, i - 1, expansion)
  }

  /**
   Line `i` raises `IndexError` at `line.body[4]`: it holds `": "`, is at most
   four characters long, and the chain reaches a column-4 test, either under
   an expanded class or in the search-only branch.
   */
  predicate FaultsAt(lines: seq<string>, i: nat, s: Settings)
    requires i < |lines|
  {
    var b := lines[i];
    && !IsClassLine(b) && Contains(b, ": ") && |b| <= 4
    && (|| ExpandedAt(lines, i, s.expansion)
        || (!IsBlank(s.search) && !(Contains(b, " = ") && !StartsWith(b, " ") && SearchIn(b, s.search))))
  }

  function ArrowFor(hasMethods: bool, expanded: bool): Arrow {
    if !hasMethods then Leaf else if expanded then Expanded else Collapsed
  }

  /** A class row: a matching class line, labelled with its parsed name (not truncated). */
  predicate ClassRowFits(lines: seq<string>, s: Settings, i: nat, r: Row)
    requires i < |lines|
  {
    var b := lines[i];
    var h := ParseClassLine(b);
    var members := HasMethods(lines[i + 1..]);
    && IsClassLine(b) && IsMatch(s.search, h.name, b, members)
    && r.caption == h.name && r.pad == NoPad && r.arrow == ArrowFor(members, h.name in s.expansion)
  }

  /** A method row: a line starting with `    def ` matching the search, under an expanded class unless searching. */
  predicate MethodRowFits(lines: seq<string>, s: Settings, i: nat, r: Row)
    requires i < |lines|
  {
    var b := lines[i];
    && StartsWith(b, "    def ") && SearchIn(b, s.search)
    && (IsBlank(s.search) ==> ExpandedAt(lines, i, s.expansion))
    && ' ' in b && r.caption == MethodLabel(b)
    && r.pad == Spaces(GetIndentation(s.version)) && r.arrow == NoArrow
  }

  /**
   A property row: a `": "` line with a non-blank column 4 that names a
   marker and matches the search, under an expanded class unless searching.
   */
  predicate PropertyRowFits(lines: seq<string>, s: Settings, i: nat, r: Row)
    requires i < |lines|
  {
    var b := lines[i];
    && Contains(b, ": ") && |b| > 4 && !IsSpace(b[4]) && SearchIn(b, s.search)
    && HasPropertyMarker(b)
    && (IsBlank(s.search) ==> ExpandedAt(lines, i, s.expansion))
    && !AllSpace(b) && r.caption == PropertyLabel(b)
    && r.pad == Spaces(GetIndentation(s.version)) && r.arrow == NoArrow
  }

  /** A variable row: a `" = "` line not starting with a blank; blank icon only when a class exists and the search is blank. */
  predicate VariableRowFits(lines: seq<string>, s: Settings, i: nat, r: Row)
    requires i < |lines|
  {
    var b := lines[i];
    && Contains(b, " = ") && !StartsWith(b, " ") && SearchIn(b, s.search)
    && !AllSpace(b) && r.caption == VariableLabel(b)
    && r.pad == (if HasClass(lines) && IsBlank(s.search) then BlankIcon else NoPad)
    && r.arrow == NoArrow
  }

  /** A function row: a `"def "` line; blank icon whenever a class exists. */
  predicate FunctionRowFits(lines: seq<string>, s: Settings, i: nat, r: Row)
    requires i < |lines|
  {
    var b := lines[i];
    && StartsWith(b, "def ") && SearchIn(b, s.search)
    && ' ' in b && r.caption == FunctionLabel(b)
    && r.pad == (if HasClass(lines) then BlankIcon else NoPad)
    && r.arrow == NoArrow
  }

  /** `draw_class_function_row`. */
  function MethodRow(b: string, i: nat, s: Settings): Row
    requires StartsWith(b, "    def ")
  {
    assert b[0] == ' ';
    Row(Method, MethodLabel(b), i + 1, Spaces(GetIndentation(s.version)), NoArrow)
  }

  /** `draw_property_row`: nothing is drawn unless a marker is present. */
  function PropertyRow(b: string, i: nat, s: Settings): Option<Row>
    requires |b| > 4 && !IsSpace(b[4])
  {
    if HasPropertyMarker(b)
    then Some(Row(Property, PropertyLabel(b), i + 1, Spaces(GetIndentation(s.version)), NoArrow))
    else None
  }

  /** `draw_variable_row`. */
  function VariableRow(lines: seq<string>, i: nat, s: Settings): Row
    requires i < |lines| && Contains(lines[i], " = ")
  {
    AssignmentNotBlank(lines[i]);
    var pad := if HasClass(lines) && IsBlank(s.search) then BlankIcon else NoPad;
    Row(Variable, VariableLabel(lines[i]), i + 1, pad, NoArrow)
  }

  /** `draw_function_row`. */
  function FunctionRow(lines: seq<string>, i: nat): Row
    requires i < |lines| && StartsWith(lines[i], "def ")
  {
    assert lines[i][3] == ' ';
    Row(Function, FunctionLabel(lines[i]), i + 1, if HasClass(lines) then BlankIcon else NoPad, NoArrow)
  }

  /** A line of at most four characters holding `": "` cannot start with `"def "`. */
  lemma ShortColonLineIsNotDef(b: string)
    ensures |b| <= 4 && Contains(b, ": ") ==> !StartsWith(b, "def ")
  {
    if |b| <= 4 && Contains(b, ": ") {
      var k: nat :| k <= |b| && OccursAt(b, ": ", k);
      assert b[k] == b[k..k + 2][0] == ':';
    }
  }

  /** Which arm of the `if`/`elif` chain of the loop body a line takes. */
  datatype Branch =
    | ClassLine         // starts with `"class "`
    | MemberDef         // `    def ` line under an expanded class
    | ColumnFourError   // `line.body[4]` is evaluated on a line of at most four characters
    | MemberAnnotation  // `": "` with a non-blank column 4 under an expanded class
    | AssignmentArm     // `" = "` on a line not starting with a blank
    | DefArm            // starts with `"def "`
    | SearchAnnotation  // search only: `": "` with a non-blank column 4
    | SearchDef         // search only: `    def ` line
    | Unmatched

  /**
   The chain, first match wins: class line; `    def ` line under an expanded
   class; annotation under an expanded class; `" = "` on a line not starting
   with a blank; a line starting with `"def "`; and, when the search is not
   blank, annotation then
   `    def ` line regardless of expansion. Every arm other than the class arm
   also needs the search in the line.
   */
  function BranchOf(b: string, expanded: bool, search: string): Branch {
    var hit := SearchIn(b, search);
    if IsClassLine(b) then ClassLine
    else if StartsWith(b, "    def ") && expanded && hit then MemberDef
    else if Contains(b, ": ") && expanded && |b| <= 4 then ColumnFourError
    else if Contains(b, ": ") && expanded && !IsSpace(b[4]) && hit then MemberAnnotation
    else if Contains(b, " = ") && !StartsWith(b, " ") && hit then AssignmentArm
    else if StartsWith(b, "def ") && hit then DefArm
    else if !IsBlank(search) then
      if Contains(b, ": ") && |b| <= 4 then ColumnFourError
      else if Contains(b, ": ") && !IsSpace(b[4]) && hit then SearchAnnotation
      else if StartsWith(b, "    def ") && hit then SearchDef
      else Unmatched
    else Unmatched
  }

  /**
   The arms in order: each arm is taken exactly when its own test holds and
   no earlier arm's test does. The annotation arm under an expanded class is
   passed over only when its test fails without raising; a short annotation
   line raises before the `" = "` and `"def "` arms are tried. Earlier tests that an
   arm's own test already rules out (a `"def "` line is no class line) are
   not repeated.
   */
  lemma BranchOrder(b: string, expanded: bool, search: string)
    ensures BranchOf(b, expanded, search) == ClassLine <==> IsClassLine(b)
    ensures BranchOf(b, expanded, search) == MemberDef <==>
              !IsClassLine(b) && StartsWith(b, "    def ") && expanded && SearchIn(b, search)
    ensures BranchOf(b, expanded, search) == ColumnFourError <==>
              && !IsClassLine(b) && Contains(b, ": ") && |b| <= 4
              && (|| expanded
                  || (!IsBlank(search) && !(Contains(b, " = ") && !StartsWith(b, " ") && SearchIn(b, search))))
    ensures BranchOf(b, expanded, search) == MemberAnnotation <==>
              && !IsClassLine(b) && !StartsWith(b, "    def ")
              && Contains(b, ": ") && expanded && |b| > 4 && !IsSpace(b[4]) && SearchIn(b, search)
    ensures BranchOf(b, expanded, search) == AssignmentArm <==>
              && !IsClassLine(b) && !(StartsWith(b, "    def ") && expanded && SearchIn(b, search))
              && !(Contains(b, ": ") && expanded && (|b| <= 4 || (!IsSpace(b[4]) && SearchIn(b, search))))
              && Contains(b, " = ") && !StartsWith(b, " ") && SearchIn(b, search)
    ensures BranchOf(b, expanded, search) == DefArm <==>
              && !(Contains(b, ": ") && expanded && (|b| <= 4 || (!IsSpace(b[4]) && SearchIn(b, search))))
              && !(Contains(b, " = ") && !StartsWith(b, " ") && SearchIn(b, search))
              && StartsWith(b, "def ") && SearchIn(b, search)
    ensures BranchOf(b, expanded, search) == SearchAnnotation <==>
              && !IsClassLine(b) && !(StartsWith(b, "    def ") && expanded && SearchIn(b, search))
              && !(Contains(b, ": ") && expanded && (|b| <= 4 || (!IsSpace(b[4]) && SearchIn(b, search))))
              && !(Contains(b, " = ") && !StartsWith(b, " ") && SearchIn(b, search))
              && !(StartsWith(b, "def ") && SearchIn(b, search))
              && !IsBlank(search) && Contains(b, ": ") && |b| > 4 && !IsSpace(b[4]) && SearchIn(b, search)
    ensures BranchOf(b, expanded, search) == SearchDef <==>
              && !(StartsWith(b, "    def ") && expanded && SearchIn(b, search))
              && !IsBlank(search) && !(Contains(b, ": ") && (|b| <= 4 || (!IsSpace(b[4]) && SearchIn(b, search))))
              && StartsWith(b, "    def ") && SearchIn(b, search)
  {
    ShortColonLineIsNotDef(b);
    if StartsWith(b, "def ") || StartsWith(b, "    def ") {
      assert !IsClassLine(b) by {
        assert b[0] == 'd' || b[0] == ' ';
      }
    }
    if StartsWith(b, "def ") {
      assert !StartsWith(b, "    def ") && !StartsWith(b, " ") by {
        assert b[0] == 'd';
      }
    }
    if StartsWith(b, "    def ") {
      assert StartsWith(b, " ") && |b| > 4 by {
        assert b[..1] == b[..8][..1];
      }
    }
  }

  /**
   The body of the loop for line `i`, entered with `is_class_name` equal to
   `expanded`: the row drawn for the arm the line takes, and the new flag.
   */
  function LineStep(lines: seq<string>, i: nat, expanded: bool, s: Settings): Step
    requires i < |lines|
  {
    var b := lines[i];
    BranchOrder(b, expanded, s.search);
    match BranchOf(b, expanded, s.search)
    case ClassLine =>
      var name := ParseClassLine(b).name;
      var members := HasMethods(lines[i + 1..]);
      var isOpen := name in s.expansion;
      var row := Row(Class, name, i + 1, NoPad, ArrowFor(members, isOpen));
      Next(if IsMatch(s.search, name, b, members) then Some(row) else None, isOpen)
    case MemberDef => Next(Some(MethodRow(b, i, s)), expanded)
    case ColumnFourError => IndexFault
    case MemberAnnotation => Next(PropertyRow(b, i, s), expanded)
    case AssignmentArm => Next(Some(VariableRow(lines, i, s)), expanded)
    case DefArm => Next(Some(FunctionRow(lines, i)), expanded)
    case SearchAnnotation => Next(PropertyRow(b, i, s), expanded)
    case SearchDef => Next(Some(MethodRow(b, i, s)), expanded)
    case Unmatched => Next(None, expanded)
  }

  /** Only a class line changes `is_class_name`; it then records whether that class is expanded. */
  lemma StepFlag(lines: seq<string>, i: nat, s: Settings)
    requires i < |lines|
    ensures var st := LineStep(lines, i, ExpandedAt(lines, i, s.expansion), s);
            st.Next? ==> st.expanded == ExpandedAt(lines, i + 1, s.expansion)
  {
    BranchOrder(lines[i], ExpandedAt(lines, i, s.expansion), s.search);
  }

  /** A step faults exactly on the lines `FaultsAt` names. */
  lemma StepFault(lines: seq<string>, i: nat, s: Settings)
    requires i < |lines|
    ensures LineStep(lines, i, ExpandedAt(lines, i, s.expansion), s).IndexFault? <==> FaultsAt(lines, i, s)
  {
    BranchOrder(lines[i], ExpandedAt(lines, i, s.expansion), s.search);
  }

  /** The step the loop takes at line `j`, with the flag it holds there. */
  function StepAt(lines: seq<string>, s: Settings, j: nat): Step
    requires j < |lines|
  {
    LineStep(lines, j, ExpandedAt(lines, j, s.expansion), s)
  }

  /** A row drawn for line `i` jumps to line `i + 1`, and is a class row exactly when the line is a class line. */
  lemma StepRowAt(lines: seq<string>, i: nat, s: Settings)
    requires i < |lines|
    ensures var st := StepAt(lines, s, i);
            st.Next? && st.row.Some? ==> st.row.value.line == i + 1 && (st.row.value.kind == Class <==> IsClassLine(lines[i]))
  {
    BranchOrder(lines[i], ExpandedAt(lines, i, s.expansion), s.search);
  }

  /**
   A class line never faults; it is drawn exactly when `is_match` accepts it,
   and then as a class row for that line.
   */
  lemma StepClassRow(lines: seq<string>, i: nat, s: Settings)
    requires i < |lines| && IsClassLine(lines[i])
    ensures var st := StepAt(lines, s, i);
            && st.Next?
            && (st.row.Some? <==> IsMatch(s.search, ParseClassLine(lines[i]).name, lines[i], HasMethods(lines[i + 1..])))
  {
    BranchOrder(lines[i], ExpandedAt(lines, i, s.expansion), s.search);
  }

  /** A class row is labelled with the parsed class name and carries the toggle for its expansion. */
  lemma StepClassRowFits(lines: seq<string>, i: nat, s: Settings, r: Row)
    requires i < |lines| && StepAt(lines, s, i).Next? && StepAt(lines, s, i).row == Some(r) && r.kind == Class
    ensures ClassRowFits(lines, s, i, r)
  {
    BranchOrder(lines[i], ExpandedAt(lines, i, s.expansion), s.search);
  }

  lemma StepMethodRow(lines: seq<string>, i: nat, s: Settings, r: Row)
    requires i < |lines| && StepAt(lines, s, i).Next? && StepAt(lines, s, i).row == Some(r) && r.kind == Method
    ensures MethodRowFits(lines, s, i, r)
  {
    var b := lines[i];
    BranchOrder(b, ExpandedAt(lines, i, s.expansion), s.search);
    match BranchOf(b, ExpandedAt(lines, i, s.expansion), s.search)
    case MemberDef =>
      assert MethodRowFits(lines, s, i, MethodRow(b, i, s));
    case SearchDef =>
      assert MethodRowFits(lines, s, i, MethodRow(b, i, s));
    case _ =>
  }

  lemma StepPropertyRow(lines: seq<string>, i: nat, s: Settings, r: Row)
    requires i < |lines| && StepAt(lines, s, i).Next? && StepAt(lines, s, i).row == Some(r) && r.kind == Property
    ensures PropertyRowFits(lines, s, i, r)
  {
    var b := lines[i];
    BranchOrder(b, ExpandedAt(lines, i, s.expansion), s.search);
    match BranchOf(b, ExpandedAt(lines, i, s.expansion), s.search)
    case MemberAnnotation =>
      if HasPropertyMarker(b) {
        assert PropertyRowFits(lines, s, i, PropertyRow(b, i, s).value);
      }
    case SearchAnnotation =>
      if HasPropertyMarker(b) {
        assert PropertyRowFits(lines, s, i, PropertyRow(b, i, s).value);
      }
    case _ =>
  }

  lemma StepVariableRow(lines: seq<string>, i: nat, s: Settings, r: Row)
    requires i < |lines| && StepAt(lines, s, i).Next? && StepAt(lines, s, i).row == Some(r) && r.kind == Variable
    ensures VariableRowFits(lines, s, i, r)
  {
    var b := lines[i];
    BranchOrder(b, ExpandedAt(lines, i, s.expansion), s.search);
    match BranchOf(b, ExpandedAt(lines, i, s.expansion), s.search)
    case AssignmentArm =>
      assert VariableRowFits(lines, s, i, VariableRow(lines, i, s));
    case _ =>
  }

  lemma StepFunctionRow(lines: seq<string>, i: nat, s: Settings, r: Row)
    requires i < |lines| && StepAt(lines, s, i).Next? && StepAt(lines, s, i).row == Some(r) && r.kind == Function
    ensures FunctionRowFits(lines, s, i, r)
  {
    var b := lines[i];
    BranchOrder(b, ExpandedAt(lines, i, s.expansion), s.search);
    match BranchOf(b, ExpandedAt(lines, i, s.expansion), s.search)
    case DefArm =>
      assert FunctionRowFits(lines, s, i, FunctionRow(lines, i));
    case _ =>
  }

  /** Under an expanded class, a matching line starting with `    def ` is always drawn, as a method row. */
  lemma StepShowsMethod(lines: seq<string>, i: nat, s: Settings)
    requires i < |lines|
    requires StartsWith(lines[i], "    def ") && SearchIn(lines[i], s.search)
    ensures LineStep(lines, i, true, s) == Next(Some(MethodRow(lines[i], i, s)), true)
  {
    IndentedDefShape(lines[i]);
    BranchOrder(lines[i], true, s.search);
  }

  /**
   Under an expanded class, an annotation line that names no property marker
   draws nothing, and the chain does not go on to the later arms: even a
   line that also holds `" = "` gives no variable row.
   */
  lemma StepUnmarkedAnnotation(lines: seq<string>, i: nat, s: Settings)
    requires i < |lines|
    requires !IsClassLine(lines[i]) && !StartsWith(lines[i], "    def ")
    requires Contains(lines[i], ": ") && |lines[i]| > 4 && !IsSpace(lines[i][4]) && SearchIn(lines[i], s.search)
    requires !HasPropertyMarker(lines[i])
    ensures LineStep(lines, i, true, s) == Next(None, true)
  {
    BranchOrder(lines[i], true, s.search);
  }

  /**
   A matching `" = "` line that does not start with a blank is drawn as a
   variable row, unless it also holds `": "` under an expanded class, where
   the annotation arm comes first.
   */
  lemma StepShowsAssignment(lines: seq<string>, i: nat, expanded: bool, s: Settings)
    requires i < |lines|
    requires !IsClassLine(lines[i]) && Contains(lines[i], " = ") && !StartsWith(lines[i], " ") && SearchIn(lines[i], s.search)
    requires !expanded || !Contains(lines[i], ": ")
    ensures LineStep(lines, i, expanded, s) == Next(Some(VariableRow(lines, i, s)), expanded)
  {
    BranchOrder(lines[i], expanded, s.search);
    assert |lines[i]| == 0 || lines[i][0] != ' ' by {
      assert |lines[i]| == 0 || lines[i][..1] != " ";
    }
    assert BranchOf(lines[i], expanded, s.search) == AssignmentArm;
  }

  /**
   A matching line starting with `"def "` is drawn as a function row unless an
   earlier arm takes it: a `" = "` in it (a default argument) makes it a
   variable row, and a `": "` in it under an expanded class sends it to the
   annotation arm.
   */
  lemma StepShowsFunction(lines: seq<string>, i: nat, expanded: bool, s: Settings)
    requires i < |lines|
    requires StartsWith(lines[i], "def ") && SearchIn(lines[i], s.search) && !Contains(lines[i], " = ")
    requires !expanded || !Contains(lines[i], ": ")
    ensures LineStep(lines, i, expanded, s) == Next(Some(FunctionRow(lines, i)), expanded)
  {
    BranchOrder(lines[i], expanded, s.search);
  }

  /**
   A line with `": "` and a non-blank column 4 that names a property marker
   and holds the search is drawn as a property row: under an expanded class
   unless it starts with `    def ` (the method arm comes first), and with a
   non-blank search whatever the expansion, unless the `" = "` arm or the
   `"def "` arm takes it first.
   */
  lemma StepShowsProperty(lines: seq<string>, i: nat, expanded: bool, s: Settings)
    requires i < |lines|
    requires !IsClassLine(lines[i]) && !StartsWith(lines[i], "    def ")
    requires Contains(lines[i], ": ") && |lines[i]| > 4 && !IsSpace(lines[i][4])
    requires HasPropertyMarker(lines[i]) && SearchIn(lines[i], s.search)
    requires || expanded
             || (&& !IsBlank(s.search)
                 && !(Contains(lines[i], " = ") && !StartsWith(lines[i], " "))
                 && !StartsWith(lines[i], "def "))
    ensures PropertyRow(lines[i], i, s).Some?
    ensures LineStep(lines, i, expanded, s) == Next(PropertyRow(lines[i], i, s), expanded)
  {
    BranchOrder(lines[i], expanded, s.search);
  }

  /**
   With a non-blank search, a line starting with `    def ` holding the search is drawn as
   a method row whatever the expansion, as long as it holds no `": "` when
   its class is collapsed.
   */
  lemma StepSearchShowsMethod(lines: seq<string>, i: nat, expanded: bool, s: Settings)
    requires i < |lines|
    requires !IsBlank(s.search) && StartsWith(lines[i], "    def ") && SearchIn(lines[i], s.search)
    requires expanded || !Contains(lines[i], ": ")
    ensures LineStep(lines, i, expanded, s) == Next(Some(MethodRow(lines[i], i, s)), expanded)
  {
    IndentedDefShape(lines[i]);
    BranchOrder(lines[i], expanded, s.search);
  }

  /**
   With a non-blank search and the class collapsed, a line starting with `    def ` that
   holds `": "` (a method with an annotated parameter) is taken by the
   search-only annotation arm, which comes before the search-only method
   arm: it is drawn only when it names a property marker, and then as a
   property row, never as a method row.
   */
  lemma StepSearchAnnotatedMethod(lines: seq<string>, i: nat, s: Settings)
    requires i < |lines|
    requires !IsBlank(s.search) && StartsWith(lines[i], "    def ") && Contains(lines[i], ": ") && SearchIn(lines[i], s.search)
    ensures |lines[i]| > 4 && !IsSpace(lines[i][4])
    ensures LineStep(lines, i, false, s) == Next(PropertyRow(lines[i], i, s), false)
  {
    IndentedDefShape(lines[i]);
    BranchOrder(lines[i], false, s.search);
  }

  /** How far the loop got over `n` lines: all of them, or up to the faulting one. */
  function Reach(n: nat, o: Outcome): nat {
    if o.Faulted? then o.at else n
  }

  function Prepend(r: Row, o: Outcome): (o': Outcome)
    requires !o.Inactive?
    ensures !o'.Inactive? && o'.rows == [r] + o.rows && Reach(0, o') == Reach(0, o)
  {
    match o
    case Drawn(rows) => Drawn([r] + rows)
    case Faulted(rows, at) => Faulted([r] + rows, at)
  }

  /** The loop from line `i` on, entered with the value `is_class_name` holds there. */
  function ScanFrom(lines: seq<string>, i: nat, expanded: bool, s: Settings): (o: Outcome)
    requires i <= |lines|
    ensures !o.Inactive?
    ensures i <= Reach(|lines|, o) <= |lines|
    decreases |lines| - i
  {
    if i == |lines| then Drawn([])
    else
      match LineStep(lines, i, expanded, s)
      case IndexFault => Faulted([], i)
      case Next(row, e) =>
        var rest := ScanFrom(lines, i + 1, e, s);
        if row.Some? then Prepend(row.value, rest) else rest
  }

  /*
   The rest of this module reasons about the loop through the sequence of
   its steps, each taken with the flag `ExpandedAt` gives for its line.
   */

  function StepsOf(lines: seq<string>, s: Settings): (steps: seq<Step>)
    ensures |steps| == |lines|
    ensures forall j | 0 <= j < |lines| :: steps[j] == StepAt(lines, s, j)
    ensures Numbered(steps)
  {
    StepsNumbered(lines, s);
    seq(|lines|, j requires 0 <= j < |lines| => StepAt(lines, s, j))
  }

  /** Every row a step draws jumps to the step's own line. */
  predicate Numbered(steps: seq<Step>) {
    forall j | 0 <= j < |steps| :: steps[j].Next? && steps[j].row.Some? ==> steps[j].row.value.line == j + 1
  }

  lemma StepsNumbered(lines: seq<string>, s: Settings)
    ensures forall j | 0 <= j < |lines| ::
              StepAt(lines, s, j).Next? && StepAt(lines, s, j).row.Some? ==> StepAt(lines, s, j).row.value.line == j + 1
  {
    forall j | 0 <= j < |lines| ensures StepAt(lines, s, j).Next? && StepAt(lines, s, j).row.Some? ==> StepAt(lines, s, j).row.value.line == j + 1 {
      StepRowAt(lines, j, s);
    }
  }

  /**
   What a run over `steps` from index `from` on produces: the rows are
   exactly the rows the steps emit, one per step at most, in order; a fault,
   if any, is at the first faulting step, and the rows before it are kept.
   */
  predicate Scanned(steps: seq<Step>, from: nat, o: Outcome) {
    && !o.Inactive?
    && from <= Reach(|steps|, o) <= |steps|
    && (o.Faulted? ==> o.at < |steps| && steps[o.at].IndexFault?)
    && (forall j | from <= j < Reach(|steps|, o) :: steps[j].Next?)
    && Ascending(o.rows)
    && RowsOfSteps(steps, from, Reach(|steps|, o), o.rows)
    && StepsCovered(steps, from, Reach(|steps|, o), o.rows)
  }

  /** Jump targets strictly increase along the rows. */
  predicate Ascending(rows: seq<Row>) {
    forall a, b | 0 <= a < b < |rows| :: rows[a].line < rows[b].line
  }

  /** Every row is the row of the step its jump target names, a step in `[from, reach)`. */
  predicate RowsOfSteps(steps: seq<Step>, from: nat, reach: nat, rows: seq<Row>)
    requires reach <= |steps|
  {
    forall k | 0 <= k < |rows| ::
      && from < rows[k].line <= reach
      && steps[rows[k].line - 1].Next?
      && steps[rows[k].line - 1].row == Some(rows[k])
  }

  /** Every row a step in `[from, reach)` draws is among the rows. */
  predicate StepsCovered(steps: seq<Step>, from: nat, reach: nat, rows: seq<Row>)
    requires reach <= |steps|
  {
    forall j | from <= j < reach :: steps[j].Next? && steps[j].row.Some? ==> steps[j].row.value in rows
  }

  lemma AscendingPrepend(r: Row, rows: seq<Row>)
    requires Ascending(rows)
    requires forall k | 0 <= k < |rows| :: r.line < rows[k].line
    ensures Ascending([r] + rows)
  {
    var o := [r] + rows;
    forall a, b | 0 <= a < b < |o| ensures o[a].line < o[b].line {
      assert o[b] == rows[b - 1];
      if a > 0 { assert o[a] == rows[a - 1]; }
    }
  }

  lemma RowsOfStepsPrepend(steps: seq<Step>, i: nat, reach: nat, r: Row, rows: seq<Row>)
    requires i < reach <= |steps| && steps[i].Next? && steps[i].row == Some(r) && r.line == i + 1
    requires RowsOfSteps(steps, i + 1, reach, rows)
    ensures RowsOfSteps(steps, i, reach, [r] + rows)
  {
    var o := [r] + rows;
    forall k | 0 <= k < |o|
      ensures && i < o[k].line <= reach
              && steps[o[k].line - 1].Next?
              && steps[o[k].line - 1].row == Some(o[k])
    {
      if k > 0 { assert o[k] == rows[k - 1]; }
    }
  }

  lemma StepsCoveredPrepend(steps: seq<Step>, i: nat, reach: nat, r: Row, rows: seq<Row>)
    requires i < reach <= |steps| && steps[i].Next? && steps[i].row == Some(r)
    requires StepsCovered(steps, i + 1, reach, rows)
    ensures StepsCovered(steps, i, reach, [r] + rows)
  {
    forall j | i <= j < reach && steps[j].Next? && steps[j].row.Some?
      ensures steps[j].row.value in [r] + rows
    {
      if j > i { assert steps[j].row.value in rows; }
    }
  }

  /** The rows `o` holds for step `j` (0-based), as a set of 1-based jump targets. */
  predicate HasRowFor(o: Outcome, j: nat) {
    !o.Inactive? && exists k | 0 <= k < |o.rows| :: o.rows[k].line == j + 1
  }

  /** A run has a row for a step it reached exactly when that step draws one. */
  lemma ScannedRowFor(steps: seq<Step>, o: Outcome, j: nat)
    requires Numbered(steps) && Scanned(steps, 0, o)
    requires j < Reach(|steps|, o)
    ensures HasRowFor(o, j) <==> steps[j].Next? && steps[j].row.Some?
  {
    if steps[j].Next? && steps[j].row.Some? {
      var k :| 0 <= k < |o.rows| && o.rows[k] == steps[j].row.value;
      assert o.rows[k].line == j + 1;
    }
  }

  /** A run over the steps from `i` on, with no flag: the reference the threaded loop is compared with. */
  function ScanSteps(steps: seq<Step>, i: nat): (o: Outcome)
    requires i <= |steps|
    ensures !o.Inactive?
    decreases |steps| - i
  {
    if i == |steps| then Drawn([])
    else
      match steps[i]
      case IndexFault => Faulted([], i)
      case Next(row, _) =>
        var rest := ScanSteps(steps, i + 1);
        if row.Some? then Prepend(row.value, rest) else rest
  }

  /** The run over well-numbered steps meets `Scanned`. */
  lemma {:induction false} ScanStepsScanned(steps: seq<Step>, i: nat)
    requires i <= |steps| && Numbered(steps)
    ensures Scanned(steps, i, ScanSteps(steps, i))
    decreases |steps| - i
  {
    if i < |steps| && steps[i].Next? {
      ScanStepsScanned(steps, i + 1);
      if steps[i].row.Some? {
        ScannedPrepend(steps, i, steps[i].row.value, ScanSteps(steps, i + 1));
      }
    }
  }

  /** A step that draws a row puts it in front of the rows of the rest of the run. */
  lemma ScannedPrepend(steps: seq<Step>, i: nat, r: Row, rest: Outcome)
    requires i < |steps| && steps[i].Next? && steps[i].row == Some(r) && r.line == i + 1
    requires Scanned(steps, i + 1, rest)
    ensures Scanned(steps, i, Prepend(r, rest))
  {
    var reach := Reach(|steps|, rest);
    assert Reach(|steps|, Prepend(r, rest)) == reach;
    AscendingPrepend(r, rest.rows);
    RowsOfStepsPrepend(steps, i, reach, r, rest.rows);
    StepsCoveredPrepend(steps, i, reach, r, rest.rows);
  }

  /** One turn of the loop, with the flag each line holds looked up rather than carried. */
  lemma ScanFromTurn(lines: seq<string>, i: nat, s: Settings)
    requires i < |lines|
    ensures var o := ScanFrom(lines, i, ExpandedAt(lines, i, s.expansion), s);
            var rest := ScanFrom(lines, i + 1, ExpandedAt(lines, i + 1, s.expansion), s);
            match StepAt(lines, s, i)
            case IndexFault => o == Faulted([], i)
            case Next(row, _) => o == if row.Some? then Prepend(row.value, rest) else rest
  {
    StepFlag(lines, i, s);
  }

  /**
   Threading `is_class_name` through the loop, as the source does, gives
   the same result as looking each line's flag up with `ExpandedAt`.
   */
  lemma {:induction false} ScanFromSteps(lines: seq<string>, i: nat, s: Settings)
    requires i <= |lines|
    ensures ScanFrom(lines, i, ExpandedAt(lines, i, s.expansion), s) == ScanSteps(StepsOf(lines, s), i)
    decreases |lines| - i
  {
    if i < |lines| {
      ScanFromTurn(lines, i, s);
      assert StepsOf(lines, s)[i] == StepAt(lines, s, i);
      if StepAt(lines, s, i).Next? {
        ScanFromSteps(lines, i + 1, s);
      }
    }
  }


  /**
   `DrawHelper.draw`: no text makes the panel inactive; otherwise the scan
   from the first line with `is_class_name` false.
   */
  function Draw(text: Option<seq<string>>, s: Settings): (o: Outcome)
    ensures text.None? <==> o.Inactive?
    ensures text.Some? ==> Reach(|text.value|, o) <= |text.value|
  {
    match text
    case None => Inactive
    case Some(lines) => ScanFrom(lines, 0, false, s)
  }

  /** The whole draw is the run over the steps of every line, from the first. */
  lemma DrawScanned(lines: seq<string>, s: Settings)
    ensures Scanned(StepsOf(lines, s), 0, Draw(Some(lines), s))
  {
    ScanFromSteps(lines, 0, s);
    ScanStepsScanned(StepsOf(lines, s), 0);
  }
}
