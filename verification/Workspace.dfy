/** The project directory as the patch layer sees it: absolute, already resolved
    paths mapped to files, directories and symbolic links. */
module Workspace {
  import opened Options

  /** An absolute resolved path, one entry a segment; [] is the file-system root. */
  type Path = seq<string>

  datatype Node = File(content: string) | Dir | Link

  datatype RealPath = RealAbsent | RealUnreadable | RealAt(path: Path)

  /** `realpath` answers where a path leads once every link on it is followed. It is
      kept apart from `tree`, so that it may say anything at all: a link planted by
      another process changes it without this program's doing. A `locked` path
      exists or not, but neither its status nor its content can be read. */
  datatype World = World(tree: map<Path, Node>, locked: Path -> bool, realpath: Path -> RealPath)

  datatype Stat = Absent | Unreadable | Found(link: bool)

  function Lstat(w: World, p: Path): Stat {
    if w.locked(p) then Unreadable
    else if p in w.tree then Found(w.tree[p].Link?)
    else Absent
  }

  function Parent(p: Path): Path {
    if p == [] then [] else p[..|p| - 1]
  }

  /** The node at `p`, if any. */
  function At(w: World, p: Path): Option<Node> {
    if p in w.tree then Some(w.tree[p]) else None
  }

  // ----- what one system call does to the tree -----

  /** `mkdir -p`: every missing directory on the way down to `dir`. None when a file
      stands where a directory is needed. */
  function Mkdir(w: World, dir: Path): Option<World>
    decreases |dir|
  {
    if dir in w.tree then if w.tree[dir].File? then None else Some(w)
    else if dir == [] then Some(w.(tree := w.tree[dir := Dir]))
    else match Mkdir(w, Parent(dir))
      case None => None
      case Some(above) => Some(above.(tree := above.tree[dir := Dir]))
  }

  /** Writes a regular file. None when the place is taken by a directory or a link
      (following the link is not modelled), or when its directory is missing. */
  function WriteFile(w: World, p: Path, content: string): Option<World> {
    if Parent(p) !in w.tree || (p in w.tree && !w.tree[p].File?) then None
    else Some(w.(tree := w.tree[p := File(content)]))
  }

  function Remove(w: World, p: Path): World {
    w.(tree := map q | q in w.tree && q != p :: w.tree[q])
  }

  /** `rm -r`. */
  function RemoveTree(w: World, dir: Path): World {
    w.(tree := map q | q in w.tree && !(dir <= q) :: w.tree[q])
  }

  /** Moves the file at `source` onto `target`, replacing what is there. None when the
      source is gone, the target's directory is missing, or the target is a directory. */
  function Rename(w: World, source: Path, target: Path): Option<World> {
    if source !in w.tree || Parent(target) !in w.tree || (target in w.tree && w.tree[target].Dir?) then None
    else Some(w.(tree := (map q | q in w.tree && q != source :: w.tree[q])[target := w.tree[source]]))
  }

  // ----- what other processes may do in between -----

  /** Edits by other processes: each path is overwritten or, with None, removed; what
      is locked and where paths really lead may change to anything. */
  datatype Interference = Interference(edits: map<Path, Option<Node>>, locked: Path -> bool, realpath: Path -> RealPath)

  function Disturb(w: World, foreign: Interference): World {
    World(map p | p in w.tree.Keys + foreign.edits.Keys && (p in foreign.edits ==> foreign.edits[p].Some?)
            :: if p in foreign.edits then foreign.edits[p].value else w.tree[p],
          foreign.locked, foreign.realpath)
  }

  /** What one path holds after the edits, from what it held before. */
  function Disturbed(node: Option<Node>, p: Path, foreign: Interference): Option<Node> {
    if p in foreign.edits then foreign.edits[p] else node
  }

  lemma DisturbAt(w: World, foreign: Interference, p: Path)
    ensures At(Disturb(w, foreign), p) == Disturbed(At(w, p), p, foreign)
  {
  }

  /** Making directories changes nothing but missing ancestors. */
  lemma {:induction false} MkdirAt(w: World, dir: Path, p: Path)
    requires Mkdir(w, dir).Some?
    requires !(p <= dir) || p in w.tree
    ensures At(Mkdir(w, dir).value, p) == At(w, p)
    decreases |dir|
  {
    if dir !in w.tree && dir != [] {
      if p <= Parent(dir) { assert Parent(dir) <= dir; }
      MkdirAt(w, Parent(dir), p);
    }
  }
}
