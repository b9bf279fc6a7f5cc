/**
 * Locating Java sources by class name (`find_java_file`,
 * `get_class_under_test`).
 *
 * A directory tree is given as the sequence `os.walk` yields: each entry is a
 * directory and the names of the files directly inside it, top-down. A found
 * file is reported as its directory and its name.
 */
module SourceLookup {
  import opened Wrappers
  import opened Strings

  /** `os.sep` on the Windows hosts the scripts are written for. */
  const Sep: char := '\\'

  datatype WalkEntry = WalkEntry(root: string, files: seq<string>)

  datatype FilePath = FilePath(dir: string, name: string)

  /**
   * The file name searched for: `class_name.replace('.', os.sep) + ".java"`,
   * then its last `os.sep`-separated segment.
   */
  function JavaFileName(className: string): (r: string)
    ensures Sep !in r && EndsWith(r, ".java")
  {
    var path := ReplaceChar(className, '.', Sep);
    LastSegmentWithoutSeparator(path + ".java", Sep);
    LastSegmentAppend(path, Sep, ".java");
    LastSegment(path + ".java", Sep)
  }

  /**
   * For a class name without path separators, the file name searched for is
   * the last dotted segment plus `.java`: package directories play no part.
   */
  lemma JavaFileNameIsSimpleName(className: string)
    requires Sep !in className
    ensures JavaFileName(className) == LastSegment(className, '.') + ".java"
  {
    LastSegmentAppend(ReplaceChar(className, '.', Sep), Sep, ".java");
    SplitAfterReplaceChar(className, '.', Sep);
  }

  /** The first file in walk order called `target`, with the directory it was found in. */
  function FirstMatch(walk: seq<WalkEntry>, target: string): Option<FilePath> {
    if walk == [] then None
    else if target in walk[0].files then Some(FilePath(walk[0].root, target))
    else FirstMatch(walk[1..], target)
  }

  /**
   * `FirstMatch` finds nothing exactly when no directory holds `target`, and
   * otherwise returns `target` in the first directory, in walk order, that holds it.
   */
  lemma {:induction false} FirstMatchIsFirst(walk: seq<WalkEntry>, target: string)
    ensures FirstMatch(walk, target).None? <==> forall k :: 0 <= k < |walk| ==> target !in walk[k].files
    ensures FirstMatch(walk, target).Some? ==>
      exists k :: 0 <= k < |walk| && target in walk[k].files
        && FirstMatch(walk, target).value == FilePath(walk[k].root, target)
        && forall k' :: 0 <= k' < k ==> target !in walk[k'].files
    decreases |walk|
  {
    if walk != [] && target !in walk[0].files {
      FirstMatchIsFirst(walk[1..], target);
      if FirstMatch(walk, target).Some? {
        var k :| 0 <= k < |walk[1..]| && target in walk[1..][k].files
          && FirstMatch(walk[1..], target).value == FilePath(walk[1..][k].root, target)
          && forall k' :: 0 <= k' < k ==> target !in walk[1..][k'].files;
        assert forall k' :: 0 <= k' < k + 1 ==> target !in walk[k'].files by {
          forall k' | 0 <= k' < k + 1 ensures target !in walk[k'].files {
            if k' > 0 {
              assert walk[k'] == walk[1..][k' - 1];
            }
          }
        }
        assert walk[k + 1] == walk[1..][k];
      } else {
        forall k | 0 <= k < |walk| ensures target !in walk[k].files {
          if k > 0 {
            assert walk[k] == walk[1..][k - 1];
          }
        }
      }
    }
  }

  /** `find_java_file`: the first file, in walk order, named after the class. */
  method FindJavaFile(className: string, walk: seq<WalkEntry>) returns (r: Option<FilePath>)
    ensures r == FirstMatch(walk, JavaFileName(className))
  {
    var target := JavaFileName(className);
    for i := 0 to |walk|
      invariant FirstMatch(walk, target) == FirstMatch(walk[i..], target)
    {
      var files := walk[i].files;
      for j := 0 to |files|
        invariant target !in files[..j]
      {
        if files[j] == target {
          return Some(FilePath(walk[i].root, files[j]));
        }
        assert files[..j + 1] == files[..j] + [files[j]];
      }
      assert files[..|files|] == files;
      assert walk[i..][1..] == walk[i + 1..];
    }
    return None;
  }

  /** No name ends in both `Test` and `Tests`: their last characters differ. */
  lemma TestSuffixesExclusive(name: string)
    ensures !(EndsWith(name, "Test") && EndsWith(name, "Tests"))
  {
    if EndsWith(name, "Tests") {
      assert name[|name| - 1] == "Tests"[4];
      assert name[|name| - 4..][3] == name[|name| - 1];
    }
  }

  /**
   * The class under test for a test class: a trailing `Test` (4 characters)
   * or, failing that, a trailing `Tests` (5 characters) is removed; any
   * other name is kept as it is. The result is always a prefix of the name.
   */
  function StripTestSuffix(name: string): (r: string)
    ensures StartsWith(name, r)
    ensures EndsWith(name, "Test") ==> |r| == |name| - 4
    ensures EndsWith(name, "Tests") ==> |r| == |name| - 5
    ensures !EndsWith(name, "Test") && !EndsWith(name, "Tests") ==> r == name
  {
    TestSuffixesExclusive(name);
    if EndsWith(name, "Test") then name[..|name| - 4]
    else if EndsWith(name, "Tests") then name[..|name| - 5]
    else name
  }

  /** Appending either test suffix to a class name and stripping it gives the name back. */
  lemma StripTestSuffixInverse(cls: string)
    ensures StripTestSuffix(cls + "Test") == cls
    ensures StripTestSuffix(cls + "Tests") == cls
  {
    var t, ts := cls + "Test", cls + "Tests";
    assert t[|t| - 4..] == "Test";
    assert t[..|t| - 4] == cls;
    assert ts[|ts| - 1] == 's';
    assert ts[|ts| - 5..] == "Tests";
    assert ts[..|ts| - 5] == cls;
  }

  /** `get_class_under_test`: the source file of the class a test class is named after. */
  method GetClassUnderTest(testClassName: string, mainWalk: seq<WalkEntry>) returns (r: Option<FilePath>)
    ensures r == FirstMatch(mainWalk, JavaFileName(StripTestSuffix(testClassName)))
  {
    var mainClass := StripTestSuffix(testClassName);
    r := FindJavaFile(mainClass, mainWalk);
  }
}
