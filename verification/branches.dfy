/** The branch a push went to: the last `/`-separated piece of the pushed ref,
    `ref.split('/')[-1]`, so `refs/heads/main` names the branch `main`. */
module Branches {
  import Text

  function BranchName(ref: string): string {
    Text.LastPiece(ref, '/')
  }

  /** The branch name is the longest `/`-free suffix of the ref: it has no
      `/`, the ref ends with it, and it is either the whole ref or preceded
      by a `/`. */
  lemma {:induction false} BranchNameIsLastSegment(ref: string)
    ensures var b := BranchName(ref);
      && '/' !in b
      && |b| <= |ref| && ref[|ref| - |b|..] == b
      && (|b| == |ref| || ref[|ref| - |b| - 1] == '/')
    decreases |ref|
  {
    var b := BranchName(ref);
    if '/' !in ref {
      Text.SplitWithoutSeparator(ref, '/');
    } else {
      var tail := ref[1..];
      Text.LastPieceTail(ref, '/');
      BranchNameIsLastSegment(tail);
      assert ref[|ref| - |b|..] == tail[|tail| - |b|..];
      if |b| < |tail| {
        assert ref[|ref| - |b| - 1] == tail[|tail| - |b| - 1];
      }
    }
  }

  /** Any two strings with that description are the same string, so the
      description pins the branch name down. */
  lemma LastSegmentUnique(ref: string, b: string, c: string)
    requires '/' !in b && |b| <= |ref| && ref[|ref| - |b|..] == b
    requires |b| == |ref| || ref[|ref| - |b| - 1] == '/'
    requires '/' !in c && |c| <= |ref| && ref[|ref| - |c|..] == c
    requires |c| == |ref| || ref[|ref| - |c| - 1] == '/'
    ensures b == c
  {
  }

  /** A ref without `/` is its own branch name. */
  lemma BranchNameWithoutSlash(ref: string)
    requires '/' !in ref
    ensures BranchName(ref) == ref
  {
    Text.SplitWithoutSeparator(ref, '/');
  }

  /** Whatever precedes the last `/` is dropped: for a ref `refs/heads/<name>`
      with a `/`-free name, the branch is `<name>`. */
  lemma BranchNameAfterLastSlash(prefix: string, name: string)
    requires '/' !in name
    ensures BranchName(prefix + ['/'] + name) == name
  {
    var ref := prefix + ['/'] + name;
    BranchNameIsLastSegment(ref);
    assert ref[|ref| - |name|..] == name;
    assert ref[|ref| - |name| - 1] == '/';
    LastSegmentUnique(ref, BranchName(ref), name);
  }

  lemma BranchNameExamples()
    ensures BranchName("refs/heads/main") == "main"
    ensures BranchName("refs/heads/feature/x") == "x"
  {
    BranchNameAfterLastSlash("refs/heads", "main");
    assert "refs/heads" + ['/'] + "main" == "refs/heads/main";
    BranchNameAfterLastSlash("refs/heads/feature", "x");
    assert "refs/heads/feature" + ['/'] + "x" == "refs/heads/feature/x";
  }
}
