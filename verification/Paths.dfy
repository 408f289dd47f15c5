/** The string and path helpers the plugin relies on: `String.startsWith`, `String.endsWith`,
    `Algorithms.getFileWithoutDirs` and `new File(parent, child)`. */
module Paths {

  /** `s.startsWith(prefix)`. */
  predicate StartsWith(s: string, prefix: string) {
    |prefix| <= |s| && s[..|prefix|] == prefix
  }

  /** `s.endsWith(suffix)`. */
  predicate EndsWith(s: string, suffix: string) {
    |suffix| <= |s| && s[|s| - |suffix|..] == suffix
  }

  /** The name separator of the platform's files. */
  const Separator: char := '/'

  /** `Algorithms.getFileWithoutDirs(fileName)`: the file name with its directories removed,
      i.e. the longest suffix without a separator. */
  function FileWithoutDirs(fileName: string): (name: string)
    ensures EndsWith(fileName, name)
    ensures Separator !in name
    ensures |name| < |fileName| ==> fileName[|fileName| - |name| - 1] == Separator
    decreases |fileName|
  {
    if |fileName| == 0 then ""
    else if fileName[|fileName| - 1] == Separator then ""
    else FileWithoutDirs(fileName[..|fileName| - 1]) + [fileName[|fileName| - 1]]
  }

  /** A name without separators is its own file name. */
  lemma {:induction false} FileWithoutDirsOfPlainName(name: string)
    requires Separator !in name
    ensures FileWithoutDirs(name) == name
    decreases |name|
  {
    if |name| > 0 {
      var init := name[..|name| - 1];
      assert Separator !in init by {
        forall i | 0 <= i < |init| ensures init[i] != Separator {
          assert init[i] == name[i];
        }
      }
      FileWithoutDirsOfPlainName(init);
      assert init + [name[|name| - 1]] == name;
    }
  }

  /** `new File(parent, child).getPath()` for a non-empty child. */
  function Join(parent: string, child: string): string {
    parent + [Separator] + child
  }

  /** The file name of a joined path is the child, when the child is a plain name. */
  lemma {:induction false} FileWithoutDirsOfJoin(parent: string, child: string)
    requires Separator !in child
    ensures FileWithoutDirs(Join(parent, child)) == child
    decreases |child|
  {
    if |child| == 0 {
      assert Join(parent, child)[|Join(parent, child)| - 1] == Separator;
    } else {
      var init := child[..|child| - 1];
      assert Separator !in init by {
        forall i | 0 <= i < |init| ensures init[i] != Separator {
          assert init[i] == child[i];
        }
      }
      assert Join(parent, child)[..|Join(parent, child)| - 1] == Join(parent, init);
      FileWithoutDirsOfJoin(parent, init);
      assert init + [child[|child| - 1]] == child;
    }
  }
}
