/**
 * The part of java.nio.file.Path (Unix flavour) that BibDatabaseContext
 * relies on: Path.of on a string, toString, isAbsolute, getParent, resolve,
 * normalize and toAbsolutePath. A path is a flag for the leading '/' and the
 * sequence of its names; the empty path "" is the relative path with no names.
 */
module Paths {
  import opened Wrappers

  datatype Path = Path(absolute: bool, names: seq<string>)

  /** The root directory "/". */
  const Root := Path(true, [])

  /** Every name is non-empty and holds no separator, as Path.of leaves them. */
  predicate WellFormed(p: Path) {
    forall k :: 0 <= k < |p.names| ==> p.names[k] != "" && '/' !in p.names[k]
  }

  /** The end of the name that starts at `i`: the next '/' or the end of `s`. */
  function NameEnd(s: string, i: nat): (j: nat)
    requires i <= |s|
    ensures i <= j <= |s| && (j == |s| || s[j] == '/')
    ensures '/' !in s[i..j]
    decreases |s| - i
  {
    if i == |s| || s[i] == '/' then i else NameEnd(s, i + 1)
  }

  /** The names of s[i..]: the runs between separators, empty runs dropped. */
  function NamesOf(s: string, i: nat): (r: seq<string>)
    requires i <= |s|
    ensures forall k :: 0 <= k < |r| ==> r[k] != "" && '/' !in r[k]
    decreases |s| - i
  {
    if i == |s| then []
    else if s[i] == '/' then NamesOf(s, i + 1)
    else
      var j := NameEnd(s, i);
      [s[i..j]] + NamesOf(s, j)
  }

  /** Path.of(s): absolute when `s` starts with '/'; repeated and trailing separators vanish. */
  function Parse(s: string): (p: Path)
    ensures WellFormed(p)
    ensures p.absolute <==> |s| > 0 && s[0] == '/'
  {
    Path(|s| > 0 && s[0] == '/', NamesOf(s, 0))
  }

  /** The names joined by '/'. */
  function Join(names: seq<string>): string
  {
    if |names| == 0 then ""
    else if |names| == 1 then names[0]
    else names[0] + "/" + Join(names[1..])
  }

  /** Path.toString. */
  function ToString(p: Path): (s: string)
    ensures p.absolute ==> |s| > 0 && s[0] == '/'
  {
    (if p.absolute then "/" else "") + Join(p.names)
  }

  /** A string that starts with the text of `names` reads back as those names. */
  lemma {:induction false} NamesOfJoin(s: string, i: nat, names: seq<string>)
    requires i <= |s| && s[i..] == Join(names)
    requires forall k :: 0 <= k < |names| ==> names[k] != "" && '/' !in names[k]
    ensures NamesOf(s, i) == names
    decreases |names|
  {
    if |names| > 0 {
      var n := names[0];
      var j := i + |n|;
      assert s[i..j] == n;
      assert j == |s| || s[j] == '/' by {
        if |names| > 1 {
          assert s[i..][|n|] == '/';
        }
      }
      assert s[i] == n[0];
      NameEndAt(s, i, j);
      if |names| == 1 {
        assert NamesOf(s, j) == [];
      } else {
        assert s[j + 1..] == Join(names[1..]);
        NamesOfJoin(s, j + 1, names[1..]);
        assert NamesOf(s, j) == NamesOf(s, j + 1);
      }
    }
  }

  lemma {:induction false} NameEndAt(s: string, i: nat, j: nat)
    requires i <= j <= |s| && '/' !in s[i..j] && (j == |s| || s[j] == '/')
    ensures NameEnd(s, i) == j
    decreases j - i
  {
    if i < j {
      assert s[i] in s[i..j];
      assert s[i + 1..j] == s[i..j][1..];
      NameEndAt(s, i + 1, j);
    }
  }

  /** Printing a well-formed path and reading it back gives the same path. */
  lemma ParsePrint(p: Path)
    requires WellFormed(p)
    ensures Parse(ToString(p)) == p
  {
    var s := ToString(p);
    if p.absolute {
      assert s[1..] == Join(p.names);
      NamesOfJoin(s, 1, p.names);
    } else {
      assert s[0..] == Join(p.names);
      NamesOfJoin(s, 0, p.names);
      if |p.names| > 0 {
        assert s[0] == p.names[0][0];
        assert p.names[0][0] in p.names[0];
      }
    }
  }

  /** Path.getParent: no parent for the root, the empty path or a one-name relative path. */
  function Parent(p: Path): (r: Option<Path>)
    ensures r.None? <==> |p.names| == 0 || (|p.names| == 1 && !p.absolute)
    ensures r.Some? ==> r.value.absolute == p.absolute && r.value.names + [p.names[|p.names| - 1]] == p.names
  {
    if |p.names| == 0 || (|p.names| == 1 && !p.absolute) then None
    else Some(Path(p.absolute, p.names[..|p.names| - 1]))
  }

  /** Path.resolve: an absolute `other` wins; otherwise its names are appended. */
  function Resolve(base: Path, other: Path): (r: Path)
    ensures other.absolute ==> r == other
    ensures !other.absolute ==> r.absolute == base.absolute && r.names == base.names + other.names
  {
    if other.absolute then other
    else if |other.names| == 0 then base
    else Path(base.absolute, base.names + other.names)
  }

  /** Path.toAbsolutePath, against the working directory `cwd`. */
  function ToAbsolute(cwd: Path, p: Path): (r: Path)
    requires cwd.absolute
    ensures r.absolute
    ensures p.absolute ==> r == p
  {
    if p.absolute then p else Resolve(cwd, p)
  }

  /** One name of normalize: "." vanishes, ".." removes the name before it where there is one. */
  function Push(absolute: bool, stack: seq<string>, name: string): seq<string>
  {
    if name == "." then stack
    else if name == ".." then
      if |stack| > 0 && stack[|stack| - 1] != ".." then stack[..|stack| - 1]
      else if absolute then stack
      else stack + [".."]
    else stack + [name]
  }

  /** The names of normalize, pushed left to right onto `stack`. */
  function PushAll(absolute: bool, stack: seq<string>, names: seq<string>): seq<string>
    decreases |names|
  {
    if |names| == 0 then stack
    else PushAll(absolute, Push(absolute, stack, names[0]), names[1..])
  }

  /**
   * Names in normal form: no ".", and ".." only in a leading run, which an
   * absolute path does not have.
   */
  predicate IsNormal(absolute: bool, names: seq<string>) {
    && (forall k :: 0 <= k < |names| ==> names[k] != ".")
    && (forall j, k :: 0 <= j < k < |names| && names[k] == ".." ==> names[j] == "..")
    && (absolute ==> forall k :: 0 <= k < |names| ==> names[k] != "..")
  }

  lemma PushNormal(absolute: bool, stack: seq<string>, name: string)
    requires IsNormal(absolute, stack)
    ensures IsNormal(absolute, Push(absolute, stack, name))
  {
  }

  lemma {:induction false} PushAllNormal(absolute: bool, stack: seq<string>, names: seq<string>)
    requires IsNormal(absolute, stack)
    ensures IsNormal(absolute, PushAll(absolute, stack, names))
    decreases |names|
  {
    if |names| > 0 {
      PushNormal(absolute, stack, names[0]);
      PushAllNormal(absolute, Push(absolute, stack, names[0]), names[1..]);
    }
  }

  /** Path.normalize. */
  function Normalize(p: Path): (r: Path)
    ensures r.absolute == p.absolute
    ensures IsNormal(r.absolute, r.names)
  {
    PushAllNormal(p.absolute, [], p.names);
    Path(p.absolute, PushAll(p.absolute, [], p.names))
  }

  /** Pushing the names of a normal path onto a normal stack of ".." only appends them. */
  lemma {:induction false} PushAllNormalNames(absolute: bool, stack: seq<string>, names: seq<string>)
    requires IsNormal(absolute, stack + names)
    ensures PushAll(absolute, stack, names) == stack + names
    decreases |names|
  {
    if |names| > 0 {
      var n := names[0];
      assert (stack + names)[|stack|] == n;
      if n == ".." {
        assert forall j :: 0 <= j < |stack| ==> stack[j] == ".." by {
          forall j | 0 <= j < |stack| ensures stack[j] == ".." {
            assert (stack + names)[j] == stack[j];
          }
        }
        assert !absolute;
        if |stack| > 0 {
          assert stack[|stack| - 1] == "..";
        }
      }
      assert Push(absolute, stack, n) == stack + [n];
      assert (stack + [n]) + names[1..] == stack + names;
      PushAllNormalNames(absolute, stack + [n], names[1..]);
    }
  }

  /** normalize is idempotent. */
  lemma NormalizeIdempotent(p: Path)
    ensures Normalize(Normalize(p)) == Normalize(p)
  {
    var q := Normalize(p);
    assert [] + q.names == q.names;
    PushAllNormalNames(q.absolute, [], q.names);
  }
}
