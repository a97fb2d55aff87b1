/** File-system effects a run asks for, recorded in order instead of performed. */
module Effects {

  /**
    `RemoveTree` is `shutil.rmtree` / `fs::remove_dir_all`, `MakeDirs` is
    `mkdir(parents=True, exist_ok=True)` / `os.makedirs` / `fs::create_dir_all`,
    and `Move` is `shutil.move`.
   */
  datatype FsAction<P> = RemoveTree(target: P) | MakeDirs(target: P) | Move(from: P, to: P)

  /** True when no action in `actions` deletes a directory tree. */
  predicate NothingRemoved<P>(actions: seq<FsAction<P>>)
  {
    forall i :: 0 <= i < |actions| ==> !actions[i].RemoveTree?
  }
}
