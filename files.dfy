/**
 * The filesystem and image codec as the enhancer sees them: queries and
 * actions on paths, given as functions, and a log of the actions taken.
 */
module Files {
  import opened Wrappers
  import opened Images

  type Path = string

  /** `Path(dir) / name` for a plain entry name. */
  function Join(dir: Path, name: string): (p: Path)
    ensures |p| == |dir| + 1 + |name|
    ensures p[..|dir|] == dir && p[|dir|] == '/' && p[|dir| + 1..] == name
  {
    dir + "/" + name
  }

  /** Two entries of one directory have different paths. */
  lemma JoinInjective(dir: Path, a: string, b: string)
    requires Join(dir, a) == Join(dir, b)
    ensures a == b
  {
    assert a == Join(dir, a)[|dir| + 1..];
  }

  /**
   * `pathExists`: whether a path exists; `listDir`: the names of the entries
   * directly inside a directory, in the order the system lists them;
   * `makeDirs`: `mkdir(parents=True, exist_ok=True)`, false when it raises;
   * `open`: `Image.open` followed by conversion to RGB, None when it raises;
   * `save`: `img.save(path, quality=95)`, false when it raises.
   */
  datatype FileSystem = FileSystem(
    pathExists: Path -> bool,
    listDir: Path -> seq<string>,
    makeDirs: Path -> bool,
    open: Path -> Option<Image>,
    save: (Path, Image) -> bool)

  /**
   * An action on the filesystem, in the order it is attempted; an open and a
   * save record whether they worked.
   */
  datatype Effect = MakeDirs(dir: Path) | Open(src: Path, loaded: bool) | Save(dst: Path, img: Image, written: bool)
}
