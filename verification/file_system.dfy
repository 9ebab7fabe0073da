/**
 * The file system as XmpUtilRemover.deleteXmp sees it: a map from file names to
 * contents. Each operation that can raise an IOException may fail; when it does,
 * it reports false and leaves the state described by its postcondition.
 */
module FileSystem {
  import opened Wrappers

  type Bytes = seq<bv8>

  /** A bound on the length of every name in `names`. */
  ghost function LongestName(names: set<string>): (n: nat)
    ensures forall s :: s in names ==> |s| <= n
    decreases names
  {
    if names == {} then 0
    else
      var s :| s in names;
      var m := LongestName(names - {s});
      if |s| > m then |s| else m
  }

  class Files {
    var files: map<string, Bytes>

    constructor (initial: map<string, Bytes>)
      ensures files == initial
    {
      files := initial;
    }

    /**
     * Files.createTempFile: a new, empty file under a name no existing file has.
     * The temporary directory is kept apart from `target`, the file the caller
     * is about to replace, so the new name is never `target` either.
     */
    method CreateTempFile(target: string) returns (tmp: string, ok: bool)
      modifies this
      ensures tmp !in old(files) && tmp != target
      ensures ok ==> files == old(files)[tmp := []]
      ensures !ok ==> files == old(files)
    {
      ok := *;
      ghost var n := LongestName(files.Keys + {target});
      assert seq(n + 1, _ => '0') !in files.Keys + {target};
      tmp :| tmp !in files && tmp != target;
      if ok {
        files := files[tmp := []];
      }
    }

    /** Reading a whole file: its contents, or None when there is no such file. */
    method Read(p: string) returns (r: Option<Bytes>)
      ensures r == if p in files then Some(files[p]) else None
    {
      r := if p in files then Some(files[p]) else None;
    }

    /** Files.write: on success `p` holds `b`; on failure `p` exists with unknown contents. */
    method Write(p: string, b: Bytes) returns (ok: bool)
      modifies this
      ensures ok ==> files == old(files)[p := b]
      ensures !ok ==> files.Keys == old(files).Keys + {p}
      ensures !ok ==> forall q :: q in old(files) && q != p ==> files[q] == old(files)[q]
    {
      ok := *;
      if ok {
        files := files[p := b];
      } else {
        var partial: Bytes := *;
        files := files[p := partial];
      }
    }

    /**
     * Files.move with REPLACE_EXISTING but without ATOMIC_MOVE: `dst` takes the
     * contents of `src`, which disappears. The move is not atomic: an existing
     * `dst` is deleted before the rename, and when the rename has to fall back
     * to copy-and-delete across file stores, a failed copy or a failed delete
     * of `src` removes `dst` again. So on failure `src` and every other file
     * are kept, and `dst` is either kept or gone.
     */
    method Move(src: string, dst: string) returns (ok: bool)
      requires src != dst
      modifies this
      ensures ok ==> src in old(files) && files == (old(files) - {src})[dst := old(files)[src]]
      ensures !ok ==> files == old(files) || files == old(files) - {dst}
    {
      ok := *;
      if src !in files {
        ok := false;
      }
      if ok {
        files := (files - {src})[dst := files[src]];
      } else {
        var targetDeleted: bool := *;
        if targetDeleted {
          files := files - {dst};
        }
      }
    }
  }
}
