/** The part of the filesystem the store uses: a set of directories under the
    storage root and a map from each file to the lines it holds, every line
    kept with the newline it was written with (what iterating over a Python
    file yields). A file written whole, such as a key file, is one element. */
module FileStore {
  import opened Wrappers

  datatype Path = Path(dir: string, name: string)

  /** The whole filesystem as a value. */
  datatype Disk = Disk(dirs: set<string>, files: map<Path, seq<string>>)

  /** `open(p, 'r')`: None when the file is missing (an IOError in the source). */
  function Lines(d: Disk, p: Path): (r: Option<seq<string>>)
    ensures r.Some? <==> p in d.files
    ensures r.Some? ==> r.value == d.files[p]
  {
    if p in d.files then Some(d.files[p]) else None
  }

  /** `f.read()`: the lines of a file run together. */
  function Content(lines: seq<string>): (r: string)
    ensures |lines| == 1 ==> r == lines[0]
  {
    if lines == [] then "" else lines[0] + Content(lines[1..])
  }

  /** What appending `line` to `p` in mode `'a+'` leaves: the file is created
      when absent, and nothing else changes. */
  function Appended(d: Disk, p: Path, line: string): (r: Disk)
    ensures r.dirs == d.dirs
    ensures r.files.Keys == d.files.Keys + {p}
    ensures r.files[p] == (if p in d.files then d.files[p] else []) + [line]
    ensures forall q :: q in d.files && q != p ==> r.files[q] == d.files[q]
  {
    var old_lines := if p in d.files then d.files[p] else [];
    d.(files := d.files[p := old_lines + [line]])
  }

  /** What writing `content` to `p` in mode `'w+'` leaves: the file holds only
      that content, and nothing else changes. */
  function Replaced(d: Disk, p: Path, content: string): (r: Disk)
    ensures r.dirs == d.dirs
    ensures r.files.Keys == d.files.Keys + {p}
    ensures Content(r.files[p]) == content
    ensures forall q :: q in d.files && q != p ==> r.files[q] == d.files[q]
  {
    d.(files := d.files[p := [content]])
  }

  /** The filesystem the pipelines change in place. */
  class FileSystem {
    var dirs: set<string>
    var files: map<Path, seq<string>>

    function State(): Disk
      reads this
    {
      Disk(dirs, files)
    }

    constructor (initial: Disk)
      ensures State() == initial
    {
      dirs := initial.dirs;
      files := initial.files;
    }

    /** `os.mkdir(dir)`; its one caller has just seen that `dir` is absent. */
    method MakeDir(dir: string)
      requires dir !in dirs
      modifies this
      ensures dirs == old(dirs) + {dir} && files == old(files)
    {
      dirs := dirs + {dir};
    }

    /** `open(p, 'w+').write(content)` */
    method WriteFile(p: Path, content: string)
      modifies this
      ensures State() == Replaced(old(State()), p, content)
    {
      files := files[p := [content]];
    }

    /** `open(p, 'a+').write(line)` */
    method AppendLine(p: Path, line: string)
      modifies this
      ensures State() == Appended(old(State()), p, line)
    {
      var old_lines := if p in files then files[p] else [];
      files := files[p := old_lines + [line]];
    }
  }

  /** The total number of lines in the files `ps`. */
  ghost function SumLines(files: map<Path, seq<string>>, ps: set<Path>): nat
    requires ps <= files.Keys
    decreases ps
  {
    if ps == {} then 0
    else
      var p :| p in ps;
      |files[p]| + SumLines(files, ps - {p})
  }

  /** Any one file can be taken out of the sum first. */
  lemma {:induction false} SumLinesRemove(files: map<Path, seq<string>>, ps: set<Path>, q: Path)
    requires ps <= files.Keys && q in ps
    ensures SumLines(files, ps) == |files[q]| + SumLines(files, ps - {q})
    decreases ps
  {
    var p :| p in ps && SumLines(files, ps) == |files[p]| + SumLines(files, ps - {p});
    if p != q {
      SumLinesRemove(files, ps - {p}, q);
      SumLinesRemove(files, ps - {q}, p);
      assert ps - {p} - {q} == ps - {q} - {p};
    }
  }

  /** The sum depends only on the files summed. */
  lemma {:induction false} SumLinesFrame(f: map<Path, seq<string>>, g: map<Path, seq<string>>, ps: set<Path>)
    requires ps <= f.Keys && ps <= g.Keys
    requires forall p :: p in ps ==> f[p] == g[p]
    ensures SumLines(f, ps) == SumLines(g, ps)
    decreases ps
  {
    if ps != {} {
      var p :| p in ps;
      SumLinesRemove(f, ps, p);
      SumLinesRemove(g, ps, p);
      SumLinesFrame(f, g, ps - {p});
    }
  }

  /** Appending one line to a file among `ps`, or to a new file added to them,
      adds one to the sum. */
  lemma SumLinesAppend(d: Disk, p: Path, line: string, ps: set<Path>)
    requires ps <= d.files.Keys && p !in ps
    ensures var e := Appended(d, p, line);
      && SumLines(e.files, ps + {p}) == SumLines(d.files, ps) + (if p in d.files then |d.files[p]| else 0) + 1
  {
    var e := Appended(d, p, line);
    SumLinesRemove(e.files, ps + {p}, p);
    assert ps + {p} - {p} == ps;
    SumLinesFrame(d.files, e.files, ps);
  }
}
