/**
 The pure helper methods of the add-on's `DrawHelper` class (`__init__.py`):
 class-line parsing, the has-members lookahead, the class-row search match,
 label truncation, the version-dependent indentation, and the label each
 `draw_*_row` method extracts from its line.
 */
module Helpers {
  import opened Wrappers
  import opened PyStr

  /** Longest label shown untruncated. */
  const MaxLabel: nat := 37
  const Ellipsis: string := "..."

  /** Declaration-type names a `": "` line with a non-blank column 4 must mention to get a Property row. */
  const PropertyMarkers: seq<string> := [
    "BoolProperty", "BoolVectorProperty", "CollectionProperty",
    "EnumProperty", "FloatProperty", "FloatVectorProperty",
    "IntProperty", "IntVectorProperty", "PointerProperty",
    "StringProperty"
  ]

  /** The line mentions one of the declaration-type names. */
  predicate HasPropertyMarker(line: string) {
    exists m | m in PropertyMarkers :: Contains(line, m)
  }

  /** The search test every row uses: case-insensitive substring containment. */
  predicate SearchIn(text: string, search: string) {
    Contains(Lower(text), Lower(search))
  }

  // ---------------------------------------------------------------- class lines

  datatype ClassHeader = ClassHeader(name: string, base: Option<string>)

  /**
   `parse_class_line`: the name is the text before the first `(`, with every
   `"class "` and every `:` removed and whitespace trimmed; the base class is
   the text between the first `(` and the next `(` or `)`, with every
   `"bpy.types."` removed and trimmed, present only when the line has both a
   `(` and a `)` somewhere.
   */
  function ParseClassLine(line: string): (h: ClassHeader)
    ensures IsTrimmed(h.name) && '(' !in h.name && ':' !in h.name
    ensures h.base.Some? <==> '(' in line && ')' in line
    ensures h.base.Some? ==> IsTrimmed(h.base.value) && '(' !in h.base.value && ')' !in h.base.value
  {
    ClassHeader(ClassNameOf(line), BaseClassOf(line))
  }

  function ClassNameOf(line: string): (name: string)
    ensures IsTrimmed(name) && '(' !in name && ':' !in name
  {
    Strip(RemoveAll(Strip(RemoveAll(Before(line, '('), "class ")), ":"))
  }

  function BaseClassOf(line: string): (base: Option<string>)
    ensures base.Some? <==> '(' in line && ')' in line
    ensures base.Some? ==> IsTrimmed(base.value) && '(' !in base.value && ')' !in base.value
  {
    if '(' in line && ')' in line
    then Some(Strip(RemoveAll(Before(Before(After(line, '('), '('), ')'), "bpy.types.")))
    else None
  }

  /** A string without `:` contains no `":"`. */
  lemma NoColon(s: string)
    requires ':' !in s
    ensures !Contains(s, ":")
  {
    forall k: nat | k <= |s|
      ensures !OccursAt(s, ":", k)
    {
      if k + 1 <= |s| {
        assert s[k..k + 1] == [s[k]];
      }
    }
  }

  /** Cleaning up an already clean name (trimmed, no `:`) leaves it alone. */
  lemma CleanName(name: string)
    requires IsTrimmed(name) && ':' !in name
    ensures Strip(RemoveAll(Strip(name), ":")) == name
  {
    StripTrimmed(name);
    NoColon(name);
    RemoveAllAbsent(name, ":");
  }

  /** The name of `"class " + name + "(" ...` is `name`. */
  lemma ClassNameBeforeParen(name: string, tail: string)
    requires IsTrimmed(name) && '(' !in name && ':' !in name && !Contains(name, "class ")
    ensures ClassNameOf("class " + name + "(" + tail) == name
  {
    var line := "class " + name + "(" + tail;
    assert Before(line, '(') == "class " + name by {
      BeforeUnique(line, '(', "class " + name);
    }
    RemoveAllLeading("class ", name);
    RemoveAllAbsent(name, "class ");
    CleanName(name);
  }

  /** The base of `"class " + name + "(" + prefix + base + ")" ...` is `base`, with `"bpy.types."` dropped. */
  lemma BaseInParens(name: string, prefix: string, base: string, rest: string)
    requires '(' !in name
    requires prefix == "" || prefix == "bpy.types."
    requires IsTrimmed(base) && '(' !in base && ')' !in base && !Contains(base, "bpy.types.")
    ensures BaseClassOf("class " + name + "(" + prefix + base + ")" + rest) == Some(base)
  {
    var line := "class " + name + "(" + prefix + base + ")" + rest;
    assert line == "class " + name + "(" + (prefix + base) + ")" + rest;
    BaseCut(name, prefix + base, rest);
    BaseCleaned(prefix, base);
  }

  /** The base-class text is cut out between the first `(` and the next `)`. */
  lemma BaseCut(name: string, base: string, rest: string)
    requires '(' !in name && '(' !in base && ')' !in base
    ensures var line := "class " + name + "(" + base + ")" + rest;
            '(' in line && ')' in line && Before(Before(After(line, '('), '('), ')') == base
  {
    var line := "class " + name + "(" + base + ")" + rest;
    var inner := base + ")" + rest;
    assert line == "class " + name + "(" + inner;
    AfterFirstParen(name, inner);
    CutAtClose(base, rest);
    assert ')' in inner by {
      assert inner[|base|] == ')';
    }
  }

  lemma AfterFirstParen(name: string, inner: string)
    requires '(' !in name
    ensures '(' in "class " + name + "(" + inner
    ensures After("class " + name + "(" + inner, '(') == inner
    ensures forall c :: c in inner ==> c in "class " + name + "(" + inner
  {
    var line := "class " + name + "(" + inner;
    BeforeUnique(line, '(', "class " + name);
    assert line[|"class " + name|] == '(';
  }

  lemma CutAtClose(base: string, rest: string)
    requires '(' !in base && ')' !in base
    ensures Before(Before(base + ")" + rest, '('), ')') == base
  {
    var inner := base + ")" + rest;
    assert StartsWith(inner, base + ")");
    BeforeAtLeast(inner, '(', base + ")");
    BeforeUnique(Before(inner, '('), ')', base);
  }

  /** Removing an optional `"bpy.types."` prefix and trimming leaves the bare base name. */
  lemma BaseCleaned(prefix: string, base: string)
    requires prefix == "" || prefix == "bpy.types."
    requires IsTrimmed(base) && !Contains(base, "bpy.types.")
    ensures Strip(RemoveAll(prefix + base, "bpy.types.")) == base
  {
    if prefix == "" {
      assert prefix + base == base;
    } else {
      RemoveAllLeading(prefix, base);
    }
    RemoveAllAbsent(base, "bpy.types.");
    StripTrimmed(base);
  }

  /** A declaration `"class " + name + "(" + base + "):"` parses back to its name and base. */
  lemma ParseClassWithBase(name: string, prefix: string, base: string, rest: string)
    requires IsTrimmed(name) && '(' !in name && ':' !in name && !Contains(name, "class ")
    requires prefix == "" || prefix == "bpy.types."
    requires IsTrimmed(base) && '(' !in base && ')' !in base && !Contains(base, "bpy.types.")
    ensures ParseClassLine("class " + name + "(" + prefix + base + ")" + rest)
            == ClassHeader(name, Some(base))
  {
    var line := "class " + name + "(" + prefix + base + ")" + rest;
    BaseClassName(name, prefix, base, rest);
    BaseInParens(name, prefix, base, rest);
    HeaderOfParts(line, name, Some(base));
  }

  /** The name of `"class " + name + "(" + prefix + base + ")" ...` is `name`. */
  lemma BaseClassName(name: string, prefix: string, base: string, rest: string)
    requires IsTrimmed(name) && '(' !in name && ':' !in name && !Contains(name, "class ")
    ensures ClassNameOf("class " + name + "(" + prefix + base + ")" + rest) == name
  {
    assert "class " + name + "(" + prefix + base + ")" + rest
        == "class " + name + "(" + (prefix + base + ")" + rest);
    ClassNameBeforeParen(name, prefix + base + ")" + rest);
  }

  /** A line whose name and base are known parses to exactly those. */
  lemma HeaderOfParts(line: string, name: string, base: Option<string>)
    requires ClassNameOf(line) == name && BaseClassOf(line) == base
    ensures ParseClassLine(line) == ClassHeader(name, base)
  {
  }

  /**
   A base list `mixin, bpy.types.Base` keeps the mixin: `"bpy.types."` is
   removed wherever it occurs, not only in front.
   */
  lemma ParseClassWithMixin(name: string, mixin: string, base: string, rest: string)
    requires IsTrimmed(name) && '(' !in name && ':' !in name && !Contains(name, "class ")
    requires |mixin| > 0 && IsTrimmed(mixin) && '(' !in mixin && ')' !in mixin && !Contains(mixin, "bpy.types.")
    requires |base| > 0 && IsTrimmed(base) && '(' !in base && ')' !in base && !Contains(base, "bpy.types.")
    ensures ParseClassLine("class " + name + "(" + mixin + ", bpy.types." + base + ")" + rest)
            == ClassHeader(name, Some(mixin + ", " + base))
  {
    var line := "class " + name + "(" + mixin + ", bpy.types." + base + ")" + rest;
    MixinClassName(name, mixin, base, rest);
    MixinInParens(name, mixin, base, rest);
    HeaderOfParts(line, name, Some(mixin + ", " + base));
  }

  /** The name of `"class " + name + "(" + mixin + ", bpy.types." + base + ")" ...` is `name`. */
  lemma MixinClassName(name: string, mixin: string, base: string, rest: string)
    requires IsTrimmed(name) && '(' !in name && ':' !in name && !Contains(name, "class ")
    ensures ClassNameOf("class " + name + "(" + mixin + ", bpy.types." + base + ")" + rest) == name
  {
    assert "class " + name + "(" + mixin + ", bpy.types." + base + ")" + rest
        == "class " + name + "(" + (mixin + ", bpy.types." + base + ")" + rest);
    ClassNameBeforeParen(name, mixin + ", bpy.types." + base + ")" + rest);
  }

  /** The base of `"class " + name + "(" + mixin + ", bpy.types." + base + ")" ...` is `mixin, base`. */
  lemma MixinInParens(name: string, mixin: string, base: string, rest: string)
    requires '(' !in name
    requires |mixin| > 0 && IsTrimmed(mixin) && '(' !in mixin && ')' !in mixin && !Contains(mixin, "bpy.types.")
    requires |base| > 0 && IsTrimmed(base) && '(' !in base && ')' !in base && !Contains(base, "bpy.types.")
    ensures BaseClassOf("class " + name + "(" + mixin + ", bpy.types." + base + ")" + rest)
            == Some(mixin + ", " + base)
  {
    var inner := MixinList(mixin, base);
    var line := "class " + name + "(" + mixin + ", bpy.types." + base + ")" + rest;
    assert line == "class " + name + "(" + inner + ")" + rest;
    BaseCut(name, inner, rest);
    MixinBaseCleaned(mixin, base);
  }

  /** The text between the parentheses of a class with a mixin. */
  function MixinList(mixin: string, base: string): (inner: string)
    requires '(' !in mixin && ')' !in mixin && '(' !in base && ')' !in base
    ensures '(' !in inner && ')' !in inner
  {
    var inner := mixin + ", bpy.types." + base;
    assert forall i | 0 <= i < |inner| :: inner[i] != '(' && inner[i] != ')' by {
      forall i | 0 <= i < |inner| ensures inner[i] != '(' && inner[i] != ')' {
        if i < |mixin| {
          assert inner[i] == mixin[i];
        } else if i >= |mixin| + 12 {
          assert inner[i] == base[i - |mixin| - 12];
        }
      }
    }
    inner
  }

  /** In `mixin, bpy.types.Base` the only `"bpy.types."` is the one in front of the base. */
  lemma MixinBaseCleaned(mixin: string, base: string)
    requires |mixin| > 0 && IsTrimmed(mixin) && !Contains(mixin, "bpy.types.")
    requires |base| > 0 && IsTrimmed(base) && !Contains(base, "bpy.types.")
    ensures Strip(RemoveAll(mixin + ", bpy.types." + base, "bpy.types.")) == mixin + ", " + base
  {
    var pat := "bpy.types.";
    var a := mixin + ", ";
    assert ", bpy.types." == ", " + pat;
    assert mixin + ", bpy.types." + base == a + (pat + base);
    MixinHeadClean(mixin, pat + base);
    RemoveAllKeepsPrefix(a, pat + base, pat);
    RemoveAllLeading(pat, base);
    RemoveAllAbsent(base, pat);
    assert IsTrimmed(a + base) by {
      assert (a + base)[0] == mixin[0];
      assert (a + base)[|a + base| - 1] == base[|base| - 1];
    }
    StripTrimmed(a + base);
  }

  /** No `"bpy.types."` starts inside `mixin + ", "`, whatever follows. */
  lemma MixinHeadClean(mixin: string, tail: string)
    requires !Contains(mixin, "bpy.types.")
    ensures forall k: nat | k < |mixin| + 2 :: !OccursAt(mixin + ", " + tail, "bpy.types.", k)
  {
    var pat := "bpy.types.";
    var s := mixin + ", " + tail;
    forall k: nat | k < |mixin| + 2 ensures !OccursAt(s, pat, k) {
      if k + |pat| <= |mixin| {
        assert !OccursAt(mixin, pat, k);
        assert s[k..k + |pat|] == mixin[k..k + |pat|];
      } else if k <= |mixin| && k + |pat| <= |s| {
        assert s[k..k + |pat|][|mixin| - k] == s[|mixin|] == ',';
      } else if k + |pat| <= |s| {
        assert s[k..k + |pat|][0] == s[k] == ' ';
      }
    }
  }

  /** A declaration `"class " + name + ":"` parses back to that name and no base class. */
  lemma ParseClassWithoutBase(name: string)
    requires IsTrimmed(name) && '(' !in name && ':' !in name && !Contains(name, "class ")
    ensures ParseClassLine("class " + name + ":") == ClassHeader(name, None)
  {
    var line := "class " + name + ":";
    assert '(' !in line;
    assert Before(line, '(') == line;
    ClassKeywordRemoved(name);
    ColonRemoved(name);
  }

  /** With no `(`, the whole line loses its `"class "` keyword. */
  lemma ClassKeywordRemoved(name: string)
    requires ':' !in name && !Contains(name, "class ")
    ensures RemoveAll("class " + name + ":", "class ") == name + ":"
  {
    assert "class " + name + ":" == "class " + (name + ":");
    RemoveAllLeading("class ", name + ":");
    NoOccurrenceAcrossLastChar(name, "class ", ':');
    RemoveAllAbsent(name + ":", "class ");
  }

  /** Trimming, dropping the trailing `:` and trimming again leaves a clean name. */
  lemma ColonRemoved(name: string)
    requires IsTrimmed(name) && ':' !in name
    ensures Strip(RemoveAll(Strip(name + ":"), ":")) == name
  {
    assert IsTrimmed(name + ":");
    StripTrimmed(name + ":");
    RemoveCharAppend(name, ':');
    NoColon(name);
    RemoveAllAbsent(name, ":");
    StripTrimmed(name);
  }

  /** Appending a character that does not end the pattern creates no occurrence. */
  lemma NoOccurrenceAcrossLastChar(s: string, pat: string, c: char)
    requires |pat| > 0 && pat[|pat| - 1] != c
    requires !Contains(s, pat)
    ensures !Contains(s + [c], pat)
  {
    if Contains(s + [c], pat) {
      var k: nat :| k <= |s + [c]| && OccursAt(s + [c], pat, k);
      if k + |pat| <= |s| {
        assert s[k..k + |pat|] == (s + [c])[k..k + |pat|];
        assert OccursAt(s, pat, k);
      }
    }
  }

  /** Deleting a single character `c` from `s + [c]` deletes the trailing one. */
  lemma {:induction false} RemoveCharAppend(s: string, c: char)
    ensures RemoveAll(s + [c], [c]) == RemoveAll(s, [c])
    decreases |s|
  {
    if |s| == 0 {
      assert [c][1..] == [];
    } else {
      assert (s + [c])[1..] == s[1..] + [c];
      RemoveCharAppend(s[1..], c);
    }
  }

  // ---------------------------------------------------------------- has_methods

  /** A line `has_methods` counts: a line starting with `    def `, or a `": "` line starting with four blanks. */
  predicate IsMemberLine(line: string) {
    StartsWith(line, "    def ") || (Contains(line, ": ") && StartsWith(line, "    "))
  }

  predicate IsClassLine(line: string) {
    StartsWith(line, "class ")
  }

  /** Member lines start with a blank, class lines with `c`: no line is both. */
  lemma MemberNotClass(line: string)
    requires IsMemberLine(line)
    ensures !IsClassLine(line)
  {
    assert line[0] == ' ';
  }

  /**
   A `    def ` line starts with a blank and has `d` in column 4: it is no
   class line, does not start with `"def "`, and its column 4 is not blank.
   */
  lemma IndentedDefShape(line: string)
    requires StartsWith(line, "    def ")
    ensures |line| > 4 && line[0] == ' ' && line[4] == 'd' && !IsSpace(line[4])
    ensures StartsWith(line, " ") && !StartsWith(line, "def ") && !IsClassLine(line)
  {
    assert line[..8] == "    def ";
    assert line[0] == line[..8][0] && line[4] == line[..8][4];
    assert line[..1] == [line[0]];
  }

  /** `has_methods`: scan forward, stopping at the next class line. */
  function HasMethods(lines: seq<string>): bool {
    if |lines| == 0 then false
    else if IsClassLine(lines[0]) then false
    else if IsMemberLine(lines[0]) then true
    else HasMethods(lines[1..])
  }

  /** No class line occurs among the first `j` lines. */
  predicate NoClassBefore(lines: seq<string>, j: nat)
    requires j <= |lines|
  {
    forall k | 0 <= k < j :: !IsClassLine(lines[k])
  }

  /**
   `has_methods` holds exactly when some member line comes before the next
   class line. It does not take the search string.
   */
  lemma {:induction false} HasMethodsIff(lines: seq<string>)
    ensures HasMethods(lines) <==>
            exists j | 0 <= j < |lines| :: IsMemberLine(lines[j]) && NoClassBefore(lines, j)
  {
    if |lines| > 0 {
      HasMethodsIff(lines[1..]);
      if HasMethods(lines) {
        if !IsMemberLine(lines[0]) {
          var j :| 0 <= j < |lines[1..]| && IsMemberLine(lines[1..][j]) && NoClassBefore(lines[1..], j);
          assert IsMemberLine(lines[j + 1]) && NoClassBefore(lines, j + 1);
        } else {
          assert NoClassBefore(lines, 0);
        }
      } else {
        forall j | 0 <= j < |lines| && IsMemberLine(lines[j])
          ensures !NoClassBefore(lines, j)
        {
          MemberNotClass(lines[j]);
          if !IsClassLine(lines[0]) {
            assert j > 0;
            assert !NoClassBefore(lines[1..], j - 1);
            var k :| 0 <= k < j - 1 && IsClassLine(lines[1..][k]);
            assert IsClassLine(lines[k + 1]);
          }
        }
      }
    }
  }

  /** `is_match`: the class row is shown when the search is in its name, or in its line when it has members. */
  predicate IsMatch(search: string, className: string, line: string, hasMethods: bool) {
    SearchIn(className, search) || (hasMethods && SearchIn(line, search))
  }

  /** With an empty search box every class row is shown, whatever its name, line or members. */
  lemma IsMatchEmptySearch(className: string, line: string, hasMethods: bool)
    ensures IsMatch("", className, line, hasMethods)
  {
    ContainsEmpty(Lower(className));
  }

  /** The match ignores the case of the search: a lower-cased search matches the same classes. */
  lemma IsMatchIgnoresCase(search: string, className: string, line: string, hasMethods: bool)
    ensures IsMatch(Lower(search), className, line, hasMethods) <==> IsMatch(search, className, line, hasMethods)
  {
    LowerIdempotent(search);
  }

  // ---------------------------------------------------------------- truncate_text

  /** `truncate_text(text)` with the default `max_length` of 37. */
  function TruncateText(text: string): (r: string)
    ensures |text| <= MaxLabel ==> r == text
    ensures |text| > MaxLabel ==>
              |r| == MaxLabel + |Ellipsis| && r[..MaxLabel] == text[..MaxLabel] && r[MaxLabel..] == Ellipsis
    ensures |r| <= MaxLabel + |Ellipsis|
  {
    if |text| > MaxLabel then text[..MaxLabel] + Ellipsis else text
  }

  /** Truncating a truncated label changes nothing. */
  lemma TruncateIdempotent(text: string)
    ensures TruncateText(TruncateText(text)) == TruncateText(text)
  {
  }

  // ---------------------------------------------------------------- get_indentation

  /** `bpy.app.version`, a (major, minor, patch) triple. */
  datatype Version = Version(major: nat, minor: nat, patch: nat)

  /** Python's tuple comparison `v >= w`: lexicographic. */
  predicate AtLeast(v: Version, w: Version) {
    || v.major > w.major
    || (v.major == w.major && v.minor > w.minor)
    || (v.major == w.major && v.minor == w.minor && v.patch >= w.patch)
  }

  /** `get_indentation`: twelve spaces from version 3.0.0 on, four before. */
  function GetIndentation(version: Version): (r: string)
    ensures AllSpace(r)
    ensures |r| == 12 <==> version.major >= 3
    ensures |r| == 4 <==> version.major < 3
  {
    if AtLeast(version, Version(3, 0, 0)) then "            " else "    "
  }

  // ---------------------------------------------------------------- row labels

  /** A line containing `" = "` is not all whitespace, so `split()` has a first word. */
  lemma AssignmentNotBlank(line: string)
    requires Contains(line, " = ")
    ensures !AllSpace(line)
  {
    var k: nat :| k <= |line| && OccursAt(line, " = ", k);
    assert line[k + 1] == line[k..k + 3][1] == '=';
  }

  /** `draw_variable_row`: the first word of the line, truncated. */
  function VariableLabel(line: string): (r: string)
    requires !AllSpace(line)
    ensures |r| > 0
  {
    TruncateText(FirstWord(line))
  }

  /** `draw_function_row`: after the first space, up to the first `(`, truncated. */
  function FunctionLabel(line: string): string
    requires ' ' in line
  {
    TruncateText(Before(After(line, ' '), '('))
  }

  /** `draw_property_row`: the first word up to its first `:`, truncated. */
  function PropertyLabel(line: string): string
    requires !AllSpace(line)
  {
    TruncateText(Before(FirstWord(line), ':'))
  }

  /** `draw_class_function_row`: after the first space, up to the first `(`, every `"def "` removed, trimmed, truncated. */
  function MethodLabel(line: string): string
    requires ' ' in line
  {
    TruncateText(Strip(RemoveAll(Before(After(line, ' '), '('), "def ")))
  }

  /** The first word of `pad + word + tail` is `word` when the pad is blank and the tail starts with a blank or is empty. */
  lemma FirstWordOf(pad: string, word: string, tail: string)
    requires AllSpace(pad)
    requires |word| > 0 && forall k :: 0 <= k < |word| ==> !IsSpace(word[k])
    requires |tail| == 0 || IsSpace(tail[0])
    ensures !AllSpace(pad + word + tail)
    ensures FirstWord(pad + word + tail) == word
  {
    var s := pad + word + tail;
    assert s == pad + (word + tail);
    LeadingSpaceOf(pad, word + tail);
    assert s[|pad|..] == word + tail;
    TakeWordOf(word, tail);
  }

  /** An assignment `name = value` is labelled with its (truncated) name. */
  lemma VariableLabelOfAssignment(name: string, rest: string)
    requires |name| > 0 && forall k :: 0 <= k < |name| ==> !IsSpace(name[k])
    ensures !AllSpace(name + " = " + rest)
    ensures VariableLabel(name + " = " + rest) == TruncateText(name)
  {
    assert name + " = " + rest == "" + name + (" = " + rest);
    FirstWordOf("", name, " = " + rest);
  }

  /** A line `def name(...)` is labelled with its (truncated) name. */
  lemma FunctionLabelOfDef(name: string, rest: string)
    requires '(' !in name
    ensures ' ' in "def " + name + "(" + rest
    ensures FunctionLabel("def " + name + "(" + rest) == TruncateText(name)
  {
    var line := "def " + name + "(" + rest;
    assert line[3] == ' ';
    BeforeUnique(line, ' ', "def");
    assert After(line, ' ') == name + "(" + rest by {
      assert line == "def" + [' '] + (name + "(" + rest);
    }
    BeforeUnique(name + "(" + rest, '(', name);
  }

  /**
   An annotation `name: Type(...)` behind any blank indentation, none
   included, is labelled with its (truncated) name.
   */
  lemma PropertyLabelOfAnnotation(pad: string, name: string, rest: string)
    requires AllSpace(pad)
    requires |name| > 0 && ':' !in name && forall k :: 0 <= k < |name| ==> !IsSpace(name[k])
    ensures !AllSpace(pad + name + ": " + rest)
    ensures PropertyLabel(pad + name + ": " + rest) == TruncateText(name)
  {
    var word := name + ":";
    assert pad + name + ": " + rest == pad + word + (" " + rest);
    FirstWordOf(pad, word, " " + rest);
    BeforeUnique(word, ':', name);
  }

  /** A line `    def name(...)` is labelled with its (truncated) name. */
  lemma MethodLabelOfDef(name: string, rest: string)
    requires IsTrimmed(name) && '(' !in name && !Contains(name, "def ")
    ensures ' ' in "    def " + name + "(" + rest
    ensures MethodLabel("    def " + name + "(" + rest) == TruncateText(name)
  {
    MethodHeadCut(name, rest);
    MethodNameCleaned(name);
  }

  /** The text `draw_class_function_row` cleans up is the `    def ` line up to the `(`. */
  lemma MethodHeadCut(name: string, rest: string)
    requires '(' !in name
    ensures ' ' in "    def " + name + "(" + rest
    ensures Before(After("    def " + name + "(" + rest, ' '), '(') == "   def " + name
  {
    var line := "    def " + name + "(" + rest;
    assert line[0] == ' ';
    BeforeUnique(line, ' ', "");
    var after := After(line, ' ');
    assert after == "   def " + name + "(" + rest by {
      assert line == "" + [' '] + ("   def " + name + "(" + rest);
    }
    BeforeUnique(after, '(', "   def " + name);
  }

  /** Removing `"def "` and trimming leaves the bare method name. */
  lemma MethodNameCleaned(name: string)
    requires IsTrimmed(name) && !Contains(name, "def ")
    ensures Strip(RemoveAll("   def " + name, "def ")) == name
  {
    assert RemoveAll("def " + name, "def ") == name by {
      RemoveAllLeading("def ", name);
      RemoveAllAbsent(name, "def ");
    }
    assert "   def " + name == "   " + ("def " + name);
    RemoveAllBlankPrefix("   ", "def " + name, "def ");
    StripPadded("   ", name);
  }
}
