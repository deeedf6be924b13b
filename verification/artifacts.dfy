/**
  Generated files and their fan-out to the output directories. A strategy
  computes each file once and writes it, unchanged, into every directory.
 */
module Artifacts {

  /** A generated file: its path below an output directory, as path
      segments, and its content. */
  datatype Artifact = Artifact(path: seq<string>, content: string)

  /** One write of a file into an output directory. */
  datatype FileWrite = FileWrite(dir: string, file: Artifact)

  /** For each directory in order, every file in order. */
  function FanOut(dirs: seq<string>, files: seq<Artifact>): (r: seq<FileWrite>)
    ensures forall w :: w in r <==> w.dir in dirs && w.file in files
  {
    if |dirs| == 0 then []
    else
      var here := Into(dirs[0], files);
      assert forall x :: x in dirs <==> x == dirs[0] || x in dirs[1..];
      here + FanOut(dirs[1..], files)
  }

  /** Every file, in order, into the one directory `d`. */
  function Into(d: string, files: seq<Artifact>): (r: seq<FileWrite>)
    ensures forall w :: w in r <==> w.dir == d && w.file in files
  {
    var r := seq(|files|, i requires 0 <= i < |files| => FileWrite(d, files[i]));
    assert forall i :: 0 <= i < |files| ==> r[i] == FileWrite(d, files[i]);
    r
  }

  /** Whether `path` names a file of type declarations for validators. */
  predicate DeclarationFile(path: seq<string>)
  {
    |path| > 0 && (path[|path| - 1] == "validator.d.ts" || path[|path| - 1] == "validators.d.ts")
  }

  /** The files written into directory `d`, with their contents. */
  function WrittenTo(writes: seq<FileWrite>, d: string): set<Artifact>
  {
    set w | w in writes && w.dir == d :: w.file
  }

  /** Every output directory receives exactly the given files, and no other
      directory receives anything. */
  lemma FanOutDirectories(dirs: seq<string>, files: seq<Artifact>, d: string)
    ensures WrittenTo(FanOut(dirs, files), d) == if d in dirs then set f | f in files else {}
  {
    var r := FanOut(dirs, files);
    if d in dirs {
      forall f | f in files
        ensures f in WrittenTo(r, d)
      {
        assert FileWrite(d, f) in r;
      }
    }
  }

  lemma WrittenToAppend(a: seq<FileWrite>, b: seq<FileWrite>, d: string)
    ensures WrittenTo(a + b, d) == WrittenTo(a, d) + WrittenTo(b, d)
  {
  }
}
