/**
 The expansion collection (`WindowManager.show_def_lines`) and the
 add-or-remove toggle `CODE_MAP_OT_dynamic_toggle.execute` applies to it.
 The collection is an ordered list of string values that may in principle
 hold duplicates; the toggle is the only writer.
 */
module Expansion {

  /** No value occurs twice. */
  predicate NoDuplicates(c: seq<string>) {
    forall i, j | 0 <= i < j < |c| :: c[i] != c[j]
  }

  /** Position of the first item equal to `v`. */
  function FirstIndex(c: seq<string>, v: string): (k: nat)
    requires v in c
    ensures k < |c| && c[k] == v && v !in c[..k]
  {
    if c[0] == v then 0
    else
      var k := FirstIndex(c[1..], v);
      assert c[..k + 1] == [c[0]] + c[1..][..k];
      k + 1
  }

  /**
   The toggle: drop the first item equal to `v` when there is one, and
   append `v` otherwise.
   */
  function Toggle(c: seq<string>, v: string): (r: seq<string>)
    ensures v !in c ==> r == c + [v]
    ensures v in c ==> exists k :: 0 <= k < |c| && c[k] == v && v !in c[..k] && r == c[..k] + c[k + 1..]
  {
    if v in c then
      var k := FirstIndex(c, v);
      c[..k] + c[k + 1..]
    else c + [v]
  }

  /**
   The operator's loop: walk the items, remove at the first match and stop,
   or add a new item when the loop ends without a match.
   */
  method ExecuteToggle(c: seq<string>, v: string) returns (r: seq<string>)
    ensures r == Toggle(c, v)
  {
    var index := 0;
    while index < |c|
      invariant 0 <= index <= |c|
      invariant v !in c[..index]
    {
      if c[index] == v {
        assert FirstIndex(c, v) == index;
        r := c[..index] + c[index + 1..];
        return;
      }
      assert c[..index + 1] == c[..index] + [c[index]];
      index := index + 1;
    }
    assert c[..index] == c;
    r := c + [v];
  }

  /** Other values keep their membership. */
  lemma ToggleOthers(c: seq<string>, v: string, w: string)
    requires w != v
    ensures w in Toggle(c, v) <==> w in c
  {
    if v in c {
      var k := FirstIndex(c, v);
      assert c == c[..k] + [c[k]] + c[k + 1..];
    }
  }

  /** On a duplicate-free collection, the toggle flips membership of `v` and stays duplicate-free. */
  lemma ToggleFlips(c: seq<string>, v: string)
    requires NoDuplicates(c)
    ensures v in Toggle(c, v) <==> v !in c
    ensures NoDuplicates(Toggle(c, v))
  {
    var r := Toggle(c, v);
    if v in c {
      var k := FirstIndex(c, v);
      assert r == c[..k] + c[k + 1..];
      assert forall i | 0 <= i < |r| :: r[i] == (if i < k then c[i] else c[i + 1]);
      assert v !in r by {
        forall i | 0 <= i < |r| ensures r[i] != v {
          if i >= k { assert c[k] != c[i + 1]; }
        }
      }
    } else {
      assert forall i | 0 <= i < |c| :: r[i] == c[i];
    }
  }

  /** Toggling a value twice gives back the same membership for every value. */
  lemma ToggleTwice(c: seq<string>, v: string)
    requires NoDuplicates(c)
    ensures forall w :: w in Toggle(Toggle(c, v), v) <==> w in c
    ensures v !in c ==> Toggle(Toggle(c, v), v) == c
  {
    ToggleFlips(c, v);
    ToggleFlips(Toggle(c, v), v);
    forall w | w != v ensures w in Toggle(Toggle(c, v), v) <==> w in c {
      ToggleOthers(c, v, w);
      ToggleOthers(Toggle(c, v), v, w);
    }
    if v !in c {
      assert FirstIndex(c + [v], v) == |c|;
      assert (c + [v])[..|c|] == c;
    }
  }
}
