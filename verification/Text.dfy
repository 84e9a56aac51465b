/** String helpers shared by the parsers: white space and stripping as in Python. */
module Text {

  /** The characters for which str.isspace holds. */
  predicate IsSpace(c: char) {
    var n := c as int;
    9 <= n <= 13 || 28 <= n <= 32 || n == 133 || n == 160 || n == 5760 || 8192 <= n <= 8202
    || n == 8232 || n == 8233 || n == 8239 || n == 8287 || n == 12288
  }

  predicate Blank(s: string) {
    forall i :: 0 <= i < |s| ==> IsSpace(s[i])
  }

  function StripLeft(s: string): string {
    if s != [] && IsSpace(s[0]) then StripLeft(s[1..]) else s
  }

  function StripRight(s: string): string {
    if s != [] && IsSpace(s[|s| - 1]) then StripRight(s[..|s| - 1]) else s
  }

  function Strip(s: string): string {
    StripRight(StripLeft(s))
  }

  lemma {:induction false} SpacesStripLeft(space: string, core: string)
    requires Blank(space)
    requires core == [] || !IsSpace(core[0])
    ensures StripLeft(space + core) == core
  {
    if space == [] {
      assert space + core == core;
    } else {
      assert (space + core)[1..] == space[1..] + core;
      SpacesStripLeft(space[1..], core);
    }
  }

  lemma {:induction false} SpacesStripRight(core: string, space: string)
    requires Blank(space)
    requires core == [] || !IsSpace(core[|core| - 1])
    ensures StripRight(core + space) == core
  {
    if space == [] {
      assert core + space == core;
    } else {
      assert (core + space)[..|core + space| - 1] == core + space[..|space| - 1];
      SpacesStripRight(core, space[..|space| - 1]);
    }
  }

  /** Stripping the right end only shortens it by white space. */
  lemma {:induction false} StripRightPrefix(s: string, n: nat)
    requires n <= |s| && (n == 0 || !IsSpace(s[n - 1]))
    ensures n <= |StripRight(s)| && StripRight(s) <= s
  {
    if n < |s| && IsSpace(s[|s| - 1]) {
      StripRightPrefix(s[..|s| - 1], n);
    }
  }

  /** White space around a core that has none at its ends is stripped, and nothing else. */
  lemma {:induction false} StripCore(left: string, core: string, right: string)
    requires Blank(left) && Blank(right)
    requires core != [] && !IsSpace(core[0]) && !IsSpace(core[|core| - 1])
    ensures Strip(left + core + right) == core
  {
    assert left + core + right == left + (core + right);
    SpacesStripLeft(left, core + right);
    SpacesStripRight(core, right);
  }
}
