/**
 What a whole draw promises, stated over `Draw(Some(lines), s)`: row order
 and jump targets, where the `IndexError` strikes, what each kind of row
 says about its line, and which lines are drawn.
 */
module OutlineFacts {
  import opened Wrappers
  import opened PyStr
  import opened Helpers
  import opened Outline

  /**
   At most one row per line, in source order, each jumping to the line it
   was drawn for (1-based) and being the row the loop body draws there.
   */
  lemma DrawOrdered(lines: seq<string>, s: Settings)
    ensures var o := Draw(Some(lines), s);
            && (forall a, b | 0 <= a < b < |o.rows| :: o.rows[a].line < o.rows[b].line)
            && RowsFromSteps(lines, s, o)
  {
    DrawScanned(lines, s);
  }

  /** Every row of `o` is the row the loop body draws for the line it jumps to. */
  predicate RowsFromSteps(lines: seq<string>, s: Settings, o: Outcome) {
    && !o.Inactive?
    && forall k | 0 <= k < |o.rows| ::
         && 1 <= o.rows[k].line <= |lines|
         && StepAt(lines, s, o.rows[k].line - 1).Next?
         && StepAt(lines, s, o.rows[k].line - 1).row == Some(o.rows[k])
  }

  /**
   The draw stops with an `IndexError` exactly at the first line that
   raises one, keeping the rows drawn before it; it completes only when no
   line raises.
   */
  lemma DrawFault(lines: seq<string>, s: Settings)
    ensures var o := Draw(Some(lines), s);
            && (o.Faulted? ==>
                  && o.at < |lines| && FaultsAt(lines, o.at, s)
                  && (forall j | 0 <= j < o.at :: !FaultsAt(lines, j, s))
                  && (forall k | 0 <= k < |o.rows| :: o.rows[k].line <= o.at))
            && (o.Drawn? ==> forall j | 0 <= j < |lines| :: !FaultsAt(lines, j, s))
  {
    var o := Draw(Some(lines), s);
    DrawScanned(lines, s);
    forall j | 0 <= j < Reach(|lines|, o) ensures !FaultsAt(lines, j, s) {
      StepFault(lines, j, s);
      assert StepsOf(lines, s)[j] == StepAt(lines, s, j);
    }
    if o.Faulted? {
      StepFault(lines, o.at, s);
      assert StepsOf(lines, s)[o.at] == StepAt(lines, s, o.at);
    }
  }

  lemma ScannedClassRow(lines: seq<string>, s: Settings, o: Outcome, k: nat, j: nat)
    requires RowsFromSteps(lines, s, o)
    requires k < |o.rows| && o.rows[k].line == j + 1
    ensures j < |lines|
    ensures o.rows[k].kind == Class <==> IsClassLine(lines[j])
    ensures o.rows[k].kind == Class ==> ClassRowFits(lines, s, j, o.rows[k])
  {
    StepRowAt(lines, j, s);
    if o.rows[k].kind == Class {
      StepClassRowFits(lines, j, s, o.rows[k]);
    }
  }

  /**
   The row drawn for line `j` is a class row exactly when the line is a
   class line, and then `is_match` accepts it and the row shows the class name.
   */
  lemma DrawClassRow(lines: seq<string>, s: Settings, k: nat, j: nat)
    requires k < |Draw(Some(lines), s).rows| && Draw(Some(lines), s).rows[k].line == j + 1
    ensures j < |lines|
    ensures var o := Draw(Some(lines), s);
            && (o.rows[k].kind == Class <==> IsClassLine(lines[j]))
            && (o.rows[k].kind == Class ==> ClassRowFits(lines, s, j, o.rows[k]))
  {
    DrawOrdered(lines, s);
    ScannedClassRow(lines, s, Draw(Some(lines), s), k, j);
  }

  lemma ScannedMethodRow(lines: seq<string>, s: Settings, o: Outcome, k: nat, j: nat)
    requires RowsFromSteps(lines, s, o)
    requires k < |o.rows| && o.rows[k].line == j + 1 && o.rows[k].kind == Method
    ensures j < |lines| && MethodRowFits(lines, s, j, o.rows[k])
  {
    StepMethodRow(lines, j, s, o.rows[k]);
  }

  /** A method row comes from a line starting with `    def ` that passes its arm's tests. */
  lemma DrawMethodRow(lines: seq<string>, s: Settings, k: nat, j: nat)
    requires var o := Draw(Some(lines), s);
             k < |o.rows| && o.rows[k].line == j + 1 && o.rows[k].kind == Method
    ensures j < |lines| && MethodRowFits(lines, s, j, Draw(Some(lines), s).rows[k])
  {
    DrawOrdered(lines, s);
    ScannedMethodRow(lines, s, Draw(Some(lines), s), k, j);
  }

  lemma ScannedPropertyRow(lines: seq<string>, s: Settings, o: Outcome, k: nat, j: nat)
    requires RowsFromSteps(lines, s, o)
    requires k < |o.rows| && o.rows[k].line == j + 1 && o.rows[k].kind == Property
    ensures j < |lines| && PropertyRowFits(lines, s, j, o.rows[k])
  {
    StepPropertyRow(lines, j, s, o.rows[k]);
  }

  /** A property row comes from an annotation line naming a property marker. */
  lemma DrawPropertyRow(lines: seq<string>, s: Settings, k: nat, j: nat)
    requires var o := Draw(Some(lines), s);
             k < |o.rows| && o.rows[k].line == j + 1 && o.rows[k].kind == Property
    ensures j < |lines| && PropertyRowFits(lines, s, j, Draw(Some(lines), s).rows[k])
  {
    DrawOrdered(lines, s);
    ScannedPropertyRow(lines, s, Draw(Some(lines), s), k, j);
  }

  lemma ScannedVariableRow(lines: seq<string>, s: Settings, o: Outcome, k: nat, j: nat)
    requires RowsFromSteps(lines, s, o)
    requires k < |o.rows| && o.rows[k].line == j + 1 && o.rows[k].kind == Variable
    ensures j < |lines| && VariableRowFits(lines, s, j, o.rows[k])
  {
    StepVariableRow(lines, j, s, o.rows[k]);
  }

  /** A variable row comes from a `" = "` line that does not start with a blank and holds the search. */
  lemma DrawVariableRow(lines: seq<string>, s: Settings, k: nat, j: nat)
    requires var o := Draw(Some(lines), s);
             k < |o.rows| && o.rows[k].line == j + 1 && o.rows[k].kind == Variable
    ensures j < |lines| && VariableRowFits(lines, s, j, Draw(Some(lines), s).rows[k])
  {
    DrawOrdered(lines, s);
    ScannedVariableRow(lines, s, Draw(Some(lines), s), k, j);
  }

  lemma ScannedFunctionRow(lines: seq<string>, s: Settings, o: Outcome, k: nat, j: nat)
    requires RowsFromSteps(lines, s, o)
    requires k < |o.rows| && o.rows[k].line == j + 1 && o.rows[k].kind == Function
    ensures j < |lines| && FunctionRowFits(lines, s, j, o.rows[k])
  {
    StepFunctionRow(lines, j, s, o.rows[k]);
  }

  /** A function row comes from a line starting with `"def "` that holds the search. */
  lemma DrawFunctionRow(lines: seq<string>, s: Settings, k: nat, j: nat)
    requires var o := Draw(Some(lines), s);
             k < |o.rows| && o.rows[k].line == j + 1 && o.rows[k].kind == Function
    ensures j < |lines| && FunctionRowFits(lines, s, j, Draw(Some(lines), s).rows[k])
  {
    DrawOrdered(lines, s);
    ScannedFunctionRow(lines, s, Draw(Some(lines), s), k, j);
  }

  /** With a blank search box, a method or property row appears only under an expanded class. */
  lemma DrawBlankSearchFolds(lines: seq<string>, s: Settings, k: nat, j: nat)
    requires IsBlank(s.search)
    requires var o := Draw(Some(lines), s);
             k < |o.rows| && o.rows[k].line == j + 1 && (o.rows[k].kind == Method || o.rows[k].kind == Property)
    ensures j < |lines| && ExpandedAt(lines, j, s.expansion)
  {
    if Draw(Some(lines), s).rows[k].kind == Method {
      DrawMethodRow(lines, s, k, j);
    } else {
      DrawPropertyRow(lines, s, k, j);
    }
  }

  /** A step's row for a line the draw reached is in the draw. */
  lemma ReachedRow(lines: seq<string>, s: Settings, j: nat)
    requires j < Reach(|lines|, Draw(Some(lines), s))
    ensures var o := Draw(Some(lines), s);
            StepAt(lines, s, j).Next? && StepAt(lines, s, j).row.Some? ==> StepAt(lines, s, j).row.value in o.rows
  {
    DrawScanned(lines, s);
    assert StepsOf(lines, s)[j] == StepAt(lines, s, j);
  }

  /** A line the draw reached has a row exactly when its step draws one. */
  lemma RowForIff(lines: seq<string>, s: Settings, j: nat)
    requires j < Reach(|lines|, Draw(Some(lines), s))
    ensures HasRowFor(Draw(Some(lines), s), j) <==> StepAt(lines, s, j).Next? && StepAt(lines, s, j).row.Some?
  {
    DrawScanned(lines, s);
    ScannedRowFor(StepsOf(lines, s), Draw(Some(lines), s), j);
    assert StepsOf(lines, s)[j] == StepAt(lines, s, j);
  }

  /** A class line the draw reached is shown exactly when `is_match` accepts it. */
  lemma DrawClassIff(lines: seq<string>, s: Settings, j: nat)
    requires j < Reach(|lines|, Draw(Some(lines), s))
    requires IsClassLine(lines[j])
    ensures HasRowFor(Draw(Some(lines), s), j) <==>
              IsMatch(s.search, ParseClassLine(lines[j]).name, lines[j], HasMethods(lines[j + 1..]))
  {
    RowForIff(lines, s, j);
    StepClassRow(lines, j, s);
  }

  /** Under an expanded class, every line starting with `    def ` holding the search is shown, as its method row. */
  lemma DrawShowsMethods(lines: seq<string>, s: Settings, j: nat)
    requires j < Reach(|lines|, Draw(Some(lines), s))
    requires ExpandedAt(lines, j, s.expansion)
    requires StartsWith(lines[j], "    def ") && SearchIn(lines[j], s.search)
    ensures MethodRow(lines[j], j, s) in Draw(Some(lines), s).rows
  {
    StepShowsMethod(lines, j, s);
    ReachedRow(lines, s, j);
  }

  /** A `" = "` line not starting with a blank and holding the search is shown, unless it holds `": "` under an expanded class. */
  lemma DrawShowsAssignment(lines: seq<string>, s: Settings, j: nat)
    requires j < Reach(|lines|, Draw(Some(lines), s))
    requires !IsClassLine(lines[j]) && Contains(lines[j], " = ") && !StartsWith(lines[j], " ") && SearchIn(lines[j], s.search)
    requires !ExpandedAt(lines, j, s.expansion) || !Contains(lines[j], ": ")
    ensures VariableRow(lines, j, s) in Draw(Some(lines), s).rows
  {
    StepShowsAssignment(lines, j, ExpandedAt(lines, j, s.expansion), s);
    ReachedRow(lines, s, j);
  }

  /** A `"def "` line holding the search and no `" = "` is shown, unless it holds `": "` under an expanded class. */
  lemma DrawShowsFunction(lines: seq<string>, s: Settings, j: nat)
    requires j < Reach(|lines|, Draw(Some(lines), s))
    requires StartsWith(lines[j], "def ") && SearchIn(lines[j], s.search) && !Contains(lines[j], " = ")
    requires !ExpandedAt(lines, j, s.expansion) || !Contains(lines[j], ": ")
    ensures FunctionRow(lines, j) in Draw(Some(lines), s).rows
  {
    StepShowsFunction(lines, j, ExpandedAt(lines, j, s.expansion), s);
    ReachedRow(lines, s, j);
  }

  /**
   A reached line with `": "` and a non-blank column 4 that names a property
   marker and holds the search is in the outline as its property row: under
   an expanded class unless it starts with `    def `, and with a non-blank
   search whatever the expansion, unless it holds `" = "` and does not start
   with a blank, or starts with `"def "`.
   */
  lemma DrawShowsProperty(lines: seq<string>, s: Settings, j: nat)
    requires j < Reach(|lines|, Draw(Some(lines), s))
    requires !IsClassLine(lines[j]) && !StartsWith(lines[j], "    def ")
    requires Contains(lines[j], ": ") && |lines[j]| > 4 && !IsSpace(lines[j][4])
    requires HasPropertyMarker(lines[j]) && SearchIn(lines[j], s.search)
    requires || ExpandedAt(lines, j, s.expansion)
             || (&& !IsBlank(s.search)
                 && !(Contains(lines[j], " = ") && !StartsWith(lines[j], " "))
                 && !StartsWith(lines[j], "def "))
    ensures PropertyRow(lines[j], j, s).Some? && PropertyRow(lines[j], j, s).value in Draw(Some(lines), s).rows
  {
    StepShowsProperty(lines, j, ExpandedAt(lines, j, s.expansion), s);
    ReachedRow(lines, s, j);
  }

  /**
   With a non-blank search, every reached line starting with `    def ` holding the search
   is in the outline as its method row, whether or not its class is
   expanded, as long as it holds no `": "` when the class is collapsed.
   */
  lemma DrawSearchShowsMethod(lines: seq<string>, s: Settings, j: nat)
    requires j < Reach(|lines|, Draw(Some(lines), s))
    requires !IsBlank(s.search) && StartsWith(lines[j], "    def ") && SearchIn(lines[j], s.search)
    requires ExpandedAt(lines, j, s.expansion) || !Contains(lines[j], ": ")
    ensures MethodRow(lines[j], j, s) in Draw(Some(lines), s).rows
  {
    StepSearchShowsMethod(lines, j, ExpandedAt(lines, j, s.expansion), s);
    ReachedRow(lines, s, j);
  }

  /**
   With a non-blank search and its class collapsed, a reached line starting with `    def `
   holding `": "` and no property marker has no row at all: the search-only
   annotation arm takes it before the search-only method arm is tried.
   */
  lemma DrawSearchHidesAnnotatedMethod(lines: seq<string>, s: Settings, j: nat)
    requires j < Reach(|lines|, Draw(Some(lines), s))
    requires !ExpandedAt(lines, j, s.expansion)
    requires !IsBlank(s.search) && StartsWith(lines[j], "    def ") && Contains(lines[j], ": ") && SearchIn(lines[j], s.search)
    requires !HasPropertyMarker(lines[j])
    ensures !HasRowFor(Draw(Some(lines), s), j)
  {
    StepSearchAnnotatedMethod(lines, j, s);
    RowForIff(lines, s, j);
  }

  /**
   Under an expanded class, an annotation line naming no property marker
   has no row at all, not even a variable row when it also holds `" = "`.
   */
  lemma DrawSkipsUnmarked(lines: seq<string>, s: Settings, j: nat)
    requires j < Reach(|lines|, Draw(Some(lines), s))
    requires ExpandedAt(lines, j, s.expansion)
    requires !IsClassLine(lines[j]) && !StartsWith(lines[j], "    def ")
    requires Contains(lines[j], ": ") && |lines[j]| > 4 && !IsSpace(lines[j][4]) && SearchIn(lines[j], s.search)
    requires !HasPropertyMarker(lines[j])
    ensures !HasRowFor(Draw(Some(lines), s), j)
  {
    StepUnmarkedAnnotation(lines, j, s);
    RowForIff(lines, s, j);
  }
}
