/**
  `load_images`: walk an image directory and convert its files into the
  frames of a deque, in two variants. The root program converts every file
  the walk lists; the `Streaming/` program converts only the first file
  listed in each directory (its inner loop breaks after one file).

  The walk is an input: the sequence of (directory, file names) entries that
  `os.walk` yields, in the order it yields them. Conversion is opaque, so a
  frame is identified by the file it was converted from; whether OpenCV can
  decode a file is an input too. The conversions run concurrently, but
  `gather` returns their results in task order, so the deque follows the
  order in which the tasks were scheduled.

  The root conversion raises (AttributeError on `None.shape`) when
  `cv2.imread` cannot decode the file. The `Streaming/` conversion raises on
  every file, because it reads the attribute `shapep`, which arrays lack.
*/
module ImageLoading {
  import opened Wrappers
  import opened SeqFacts

  /** One entry of the walk: a directory and the names of the files it lists. */
  datatype WalkEntry = WalkEntry(dir: string, files: seq<string>)

  /** `os.path.join(dirpath, filename)`, kept as its two parts. */
  datatype FilePath = FilePath(dir: string, name: string)

  /** A converted image, known by the file it was read from. */
  datatype Frame = Converted(source: FilePath)

  /** The image directory as `os.path.exists` and `os.walk` see it. */
  datatype ImageDir = Missing(path: string) | Present(walk: seq<WalkEntry>)

  datatype LoadError = FileNotFound(path: string) | ConversionFailed(file: FilePath)

  /** The paths of the files one walk entry lists, in listing order. */
  function DirFiles(e: WalkEntry): (r: seq<FilePath>)
    ensures |r| == |e.files|
    ensures forall j :: 0 <= j < |r| ==> r[j] == FilePath(e.dir, e.files[j])
  {
    seq(|e.files|, j requires 0 <= j < |e.files| => FilePath(e.dir, e.files[j]))
  }

  /** Every file of the walk, directory by directory. */
  function AllFiles(walk: seq<WalkEntry>): seq<FilePath> {
    if walk == [] then []
    else AllFiles(walk[..|walk| - 1]) + DirFiles(walk[|walk| - 1])
  }

  /** The first file listed in `e`, if it lists any. */
  function FirstOf(e: WalkEntry): seq<FilePath> {
    if e.files == [] then [] else [FilePath(e.dir, e.files[0])]
  }

  /** The first file of every directory of the walk that lists one. */
  function FirstFiles(walk: seq<WalkEntry>): seq<FilePath> {
    if walk == [] then []
    else FirstFiles(walk[..|walk| - 1]) + FirstOf(walk[|walk| - 1])
  }

  /** The number of files the walk lists. */
  function TotalFiles(walk: seq<WalkEntry>): nat {
    if walk == [] then 0
    else TotalFiles(walk[..|walk| - 1]) + |walk[|walk| - 1].files|
  }

  /** The number of directories of the walk that list at least one file. */
  function NonEmptyDirs(walk: seq<WalkEntry>): nat {
    if walk == [] then 0
    else NonEmptyDirs(walk[..|walk| - 1]) + (if walk[|walk| - 1].files == [] then 0 else 1)
  }

  /** Every entry of the walk cut down to its first file. */
  function FirstOnly(walk: seq<WalkEntry>): (r: seq<WalkEntry>)
    ensures |r| == |walk|
    ensures forall i :: 0 <= i < |walk| ==>
      r[i] == WalkEntry(walk[i].dir, if walk[i].files == [] then [] else walk[i].files[..1])
  {
    seq(|walk|, i requires 0 <= i < |walk| =>
      WalkEntry(walk[i].dir, if walk[i].files == [] then [] else walk[i].files[..1]))
  }

  /** The frames of files that all convert, one per file and in order. */
  function Convert(paths: seq<FilePath>): (r: seq<Frame>)
    ensures |r| == |paths|
    ensures forall i :: 0 <= i < |paths| ==> r[i] == Converted(paths[i])
  {
    seq(|paths|, i requires 0 <= i < |paths| => Converted(paths[i]))
  }

  /** `gather` over one conversion task per path, where `decodes` says which
      files the conversion can read: the frames in task order when every task
      succeeds, otherwise the exception of a task that raised. Which failing
      task's exception surfaces first depends on timing, so the contract names
      only some failing path; the model takes the first. */
  function ConvertAll(paths: seq<FilePath>, decodes: FilePath -> bool): (r: Result<seq<Frame>, LoadError>)
    ensures r.Success? <==> forall i :: 0 <= i < |paths| ==> decodes(paths[i])
    ensures r.Success? ==> r.value == Convert(paths)
    ensures r.Failure? ==> r.error.ConversionFailed? && r.error.file in paths && !decodes(r.error.file)
    decreases |paths|
  {
    if paths == [] then Success([])
    else if !decodes(paths[0]) then Failure(ConversionFailed(paths[0]))
    else
      ConvertCons(paths);
      match ConvertAll(paths[1..], decodes)
      case Failure(e) => Failure(e)
      case Success(frames) => Success([Converted(paths[0])] + frames)
  }

  lemma ConvertCons(paths: seq<FilePath>)
    requires paths != []
    ensures Convert(paths) == [Converted(paths[0])] + Convert(paths[1..])
    ensures forall i :: 1 <= i < |paths| ==> paths[i] == paths[1..][i - 1]
  {
  }

  /** The `Streaming/` conversion, which raises on every file. */
  predicate StreamingDecodes(p: FilePath) {
    false
  }

  // ------------------------------------------------------------ the two loaders

  /** The root program's `load_images`: a missing directory raises
      FileNotFoundError before any conversion is scheduled; otherwise one task
      per listed file is scheduled, in walk order, and the deque holds their
      frames in task order unless a conversion raises. */
  method LoadAllImages(dir: ImageDir, decodes: FilePath -> bool) returns (scheduled: seq<FilePath>, r: Result<seq<Frame>, LoadError>)
    ensures r.Failure? && r.error.FileNotFound? <==> dir.Missing?
    ensures dir.Missing? ==> scheduled == [] && r == Failure(FileNotFound(dir.path))
    ensures dir.Present? ==> scheduled == AllFiles(dir.walk) && |scheduled| == TotalFiles(dir.walk)
    ensures dir.Present? ==> forall i, j :: 0 <= i < |dir.walk| && 0 <= j < |dir.walk[i].files| ==>
      FilePath(dir.walk[i].dir, dir.walk[i].files[j]) in scheduled
    ensures dir.Present? ==> forall p :: p in scheduled ==>
      exists i, j :: 0 <= i < |dir.walk| && 0 <= j < |dir.walk[i].files| && p == FilePath(dir.walk[i].dir, dir.walk[i].files[j])
    ensures r.Success? <==> dir.Present? && forall p :: p in scheduled ==> decodes(p)
    ensures r.Success? ==> r.value == Convert(scheduled)
    ensures r.Failure? && dir.Present? ==> r.error.ConversionFailed? && r.error.file in scheduled && !decodes(r.error.file)
  {
    scheduled := [];
    if dir.Missing? {
      return [], Failure(FileNotFound(dir.path));
    }
    var walk := dir.walk;
    var i := 0;
    while i < |walk|
      invariant 0 <= i <= |walk|
      invariant scheduled == AllFiles(walk[..i])
    {
      var e := walk[i];
      var j := 0;
      while j < |e.files|
        invariant 0 <= j <= |e.files|
        invariant scheduled == AllFiles(walk[..i]) + DirFiles(e)[..j]
      {
        scheduled := scheduled + [FilePath(e.dir, e.files[j])];
        j := j + 1;
      }
      assert walk[..i + 1][..i] == walk[..i];
      assert DirFiles(e)[..j] == DirFiles(e);
      i := i + 1;
    }
    assert walk[..i] == walk;
    r := ConvertAll(scheduled, decodes);
    AllFilesLength(walk);
    forall i, j | 0 <= i < |walk| && 0 <= j < |walk[i].files|
      ensures FilePath(walk[i].dir, walk[i].files[j]) in scheduled
    {
      AllFilesPosition(walk, i, j);
    }
    forall p | p in scheduled
      ensures exists i, j :: 0 <= i < |walk| && 0 <= j < |walk[i].files| && p == FilePath(walk[i].dir, walk[i].files[j])
    {
      AllFilesSources(walk, p);
    }
  }

  /** The `Streaming/` program's `load_images`: the same, except that the inner
      loop breaks after scheduling the first file of each directory, and that
      its conversion raises on every file, so only a walk without files
      loads (an empty deque). */
  method LoadFirstImages(dir: ImageDir) returns (scheduled: seq<FilePath>, r: Result<seq<Frame>, LoadError>)
    ensures r.Failure? && r.error.FileNotFound? <==> dir.Missing?
    ensures dir.Missing? ==> scheduled == [] && r == Failure(FileNotFound(dir.path))
    ensures dir.Present? ==> scheduled == AllFiles(FirstOnly(dir.walk))
    ensures dir.Present? ==> |scheduled| == NonEmptyDirs(dir.walk) <= |dir.walk|
    ensures r.Success? <==> dir.Present? && NonEmptyDirs(dir.walk) == 0
    ensures r.Success? ==> r.value == []
    ensures r.Failure? && dir.Present? ==> r.error.ConversionFailed? && r.error.file in scheduled
  {
    scheduled := [];
    if dir.Missing? {
      return [], Failure(FileNotFound(dir.path));
    }
    var walk := dir.walk;
    var i := 0;
    while i < |walk|
      invariant 0 <= i <= |walk|
      invariant scheduled == FirstFiles(walk[..i])
    {
      var e := walk[i];
      // the inner loop breaks after its first iteration
      if e.files != [] {
        scheduled := scheduled + [FilePath(e.dir, e.files[0])];
      }
      assert walk[..i + 1][..i] == walk[..i];
      i := i + 1;
    }
    assert walk[..i] == walk;
    FirstFilesAreFirstOnly(walk);
    FirstFilesCount(walk);
    r := ConvertAll(scheduled, StreamingDecodes);
  }

  // ------------------------------------------------------------ properties of the selections

  lemma {:induction false} AllFilesLength(walk: seq<WalkEntry>)
    ensures |AllFiles(walk)| == TotalFiles(walk)
    decreases |walk|
  {
    if walk != [] {
      AllFilesLength(walk[..|walk| - 1]);
    }
  }

  /** Walking two listings one after the other schedules the files of the
      first, then those of the second. */
  lemma {:induction false} AllFilesConcat(a: seq<WalkEntry>, b: seq<WalkEntry>)
    ensures AllFiles(a + b) == AllFiles(a) + AllFiles(b)
    decreases |b|
  {
    if b == [] {
      assert a + b == a;
    } else {
      var b0, last := b[..|b| - 1], b[|b| - 1];
      assert (a + b)[..|a + b| - 1] == a + b0;
      assert (a + b)[|a + b| - 1] == last;
      AllFilesConcat(a, b0);
      Assoc(AllFiles(a), AllFiles(b0), DirFiles(last));
    }
  }

  lemma {:induction false} TotalFilesConcat(a: seq<WalkEntry>, b: seq<WalkEntry>)
    ensures TotalFiles(a + b) == TotalFiles(a) + TotalFiles(b)
    decreases |b|
  {
    if b == [] {
      assert a + b == a;
    } else {
      var b0 := b[..|b| - 1];
      assert (a + b)[..|a + b| - 1] == a + b0;
      assert (a + b)[|a + b| - 1] == b[|b| - 1];
      TotalFilesConcat(a, b0);
    }
  }

  /** File `j` of directory `i` sits at position (files of the directories
      before `i`) + `j` of the schedule: the schedule follows walk order. */
  lemma AllFilesPosition(walk: seq<WalkEntry>, i: nat, j: nat)
    requires i < |walk| && j < |walk[i].files|
    ensures TotalFiles(walk[..i]) + j < |AllFiles(walk)|
    ensures AllFiles(walk)[TotalFiles(walk[..i]) + j] == FilePath(walk[i].dir, walk[i].files[j])
  {
    var before, here, after := walk[..i], [walk[i]], walk[i + 1..];
    SplitAround(walk, i);
    AllFilesConcat(before + here, after);
    AllFilesConcat(before, here);
    AllFilesSingle(walk[i]);
    AllFilesLength(before);
    var a, d, c := AllFiles(before), DirFiles(walk[i]), AllFiles(after);
    assert AllFiles(walk) == (a + d) + c;
    IndexAfterPrefix(a, d, c, j);
  }

  lemma AllFilesSingle(e: WalkEntry)
    ensures AllFiles([e]) == DirFiles(e)
  {
    assert [e][..0] == [];
  }

  /** Every scheduled path names a file some directory of the walk lists. */
  lemma {:induction false} AllFilesSources(walk: seq<WalkEntry>, p: FilePath)
    requires p in AllFiles(walk)
    ensures exists i, j :: 0 <= i < |walk| && 0 <= j < |walk[i].files| && p == FilePath(walk[i].dir, walk[i].files[j])
    decreases |walk|
  {
    var n := |walk| - 1;
    var init := walk[..n];
    if p in AllFiles(init) {
      AllFilesSources(init, p);
      var i, j :| 0 <= i < |init| && 0 <= j < |init[i].files| && p == FilePath(init[i].dir, init[i].files[j]);
      assert walk[i] == init[i];
    } else {
      var j :| 0 <= j < |DirFiles(walk[n])| && DirFiles(walk[n])[j] == p;
      assert p == FilePath(walk[n].dir, walk[n].files[j]);
    }
  }

  /** Taking the first file of each directory is taking every file of the walk
      cut down to one file per directory, so it keeps walk order too. */
  lemma {:induction false} FirstFilesAreFirstOnly(walk: seq<WalkEntry>)
    ensures FirstFiles(walk) == AllFiles(FirstOnly(walk))
    decreases |walk|
  {
    if walk != [] {
      var n := |walk| - 1;
      FirstFilesAreFirstOnly(walk[..n]);
      FirstOnlyPrefix(walk, n);
      assert DirFiles(FirstOnly(walk)[n]) == FirstOf(walk[n]);
    }
  }

  lemma FirstOnlyPrefix(walk: seq<WalkEntry>, n: nat)
    requires n <= |walk|
    ensures FirstOnly(walk)[..n] == FirstOnly(walk[..n])
  {
  }

  lemma {:induction false} FirstFilesCount(walk: seq<WalkEntry>)
    ensures |FirstFiles(walk)| == NonEmptyDirs(walk) <= |walk|
    decreases |walk|
  {
    if walk != [] {
      FirstFilesCount(walk[..|walk| - 1]);
    }
  }

  /** A path is selected exactly when it is the first file some directory lists. */
  lemma {:induction false} FirstFilesMembers(walk: seq<WalkEntry>, p: FilePath)
    ensures p in FirstFiles(walk) <==>
      exists i :: 0 <= i < |walk| && walk[i].files != [] && p == FilePath(walk[i].dir, walk[i].files[0])
    decreases |walk|
  {
    if walk != [] {
      var n := |walk| - 1;
      var init := walk[..n];
      FirstFilesMembers(init, p);
      if p in FirstFiles(walk) && p !in FirstFiles(init) {
        assert walk[n].files != [] && p == FilePath(walk[n].dir, walk[n].files[0]);
      }
      if exists i :: 0 <= i < |walk| && walk[i].files != [] && p == FilePath(walk[i].dir, walk[i].files[0]) {
        var i :| 0 <= i < |walk| && walk[i].files != [] && p == FilePath(walk[i].dir, walk[i].files[0]);
        if i < n {
          assert init[i] == walk[i];
        }
      }
    }
  }

  /** Two directories each contribute at most one file: no two selected paths
      come from the same walk entry, so the selection never exceeds the walk. */
  lemma FirstFilesPosition(walk: seq<WalkEntry>, i: nat)
    requires i < |walk| && walk[i].files != []
    ensures NonEmptyDirs(walk[..i]) < |FirstFiles(walk)|
    ensures FirstFiles(walk)[NonEmptyDirs(walk[..i])] == FilePath(walk[i].dir, walk[i].files[0])
  {
    FirstFilesAreFirstOnly(walk);
    AllFilesPosition(FirstOnly(walk), i, 0);
    FirstOnlyPrefixCount(walk, i);
  }

  lemma {:induction false} FirstOnlyPrefixCount(walk: seq<WalkEntry>, i: nat)
    requires i <= |walk|
    ensures TotalFiles(FirstOnly(walk)[..i]) == NonEmptyDirs(walk[..i])
    decreases i
  {
    if i > 0 {
      FirstOnlyPrefixCount(walk, i - 1);
      assert FirstOnly(walk)[..i][..i - 1] == FirstOnly(walk)[..i - 1];
      assert walk[..i][..i - 1] == walk[..i - 1];
    }
  }
}
