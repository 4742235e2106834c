/** The file system the two scaffolders work on, reduced to what they use:
    files addressed by a path of components, each holding a text, a JSON
    document or a text produced by a template function whose body is not
    modelled, and a set of directories that were created explicitly.

    A path "exists" (Node's `fs.existsSync`) when it is a file, a directory,
    or a prefix of either. */
module Files {
  import opened Basics

  /** An absolute path as its components; `[]` is the root. */
  type Path = seq<string>

  /** A parsed JSON value. Numbers, booleans and `null` keep their source
      text; their meaning plays no part here. */
  datatype Json =
    | JString(str: string)
    | JArray(items: seq<Json>)
    | JObject(fields: map<string, Json>)
    | JLiteral(raw: string)

  /** What a file holds. `Generated(origin)` is the text returned by the
      template function named `origin`. */
  datatype Content =
    | Text(text: string)
    | Doc(json: Json)
    | Generated(origin: string)

  /** `pre` is an ancestor of `p`, or `p` itself. */
  predicate IsPrefix(pre: Path, p: Path) {
    |pre| <= |p| && p[..|pre|] == pre
  }

  lemma PrefixTrans(a: Path, b: Path, c: Path)
    ensures IsPrefix(a, b) && IsPrefix(b, c) ==> IsPrefix(a, c)
  {
    if IsPrefix(a, b) && IsPrefix(b, c) {
      assert c[..|a|] == c[..|b|][..|a|];
    }
  }

  /** `path.resolve(p, '..')`: the parent, the root being its own parent. */
  function Parent(p: Path): (r: Path)
    ensures p == [] ==> r == []
    ensures p != [] ==> r + [p[|p| - 1]] == p
  {
    if p == [] then [] else p[..|p| - 1]
  }

  /** The paths of `keys` under `src`, moved under `dest`. */
  function Moved(keys: set<Path>, src: Path, dest: Path): set<Path> {
    set q | q in keys && IsPrefix(src, q) :: dest + q[|src|..]
  }

  /** Every moved path lies under `dest` and comes from its counterpart
      under `src`. */
  lemma MovedFrom(keys: set<Path>, src: Path, dest: Path)
    ensures forall k :: k in Moved(keys, src, dest) ==> IsPrefix(dest, k) && src + k[|dest|..] in keys
  {
    forall k | k in Moved(keys, src, dest)
      ensures IsPrefix(dest, k) && src + k[|dest|..] in keys
    {
      var q :| q in keys && IsPrefix(src, q) && k == dest + q[|src|..];
      assert k[..|dest|] == dest;
      assert k[|dest|..] == q[|src|..];
      assert src + q[|src|..] == q;
    }
  }

  /** The value a copy from `src` to `dest` leaves at `k`: the copied file
      when there is one, the old file otherwise (`overwrite: true`). */
  function CopiedValue(files: map<Path, Content>, src: Path, dest: Path, k: Path): Content
    requires k in files || (IsPrefix(dest, k) && src + k[|dest|..] in files)
  {
    if IsPrefix(dest, k) && src + k[|dest|..] in files then files[src + k[|dest|..]] else files[k]
  }

  /** The state of the file system. */
  datatype Store = Store(files: map<Path, Content>, dirs: set<Path>) {

    /** `fs.existsSync(p)`. */
    predicate Exists(p: Path) {
      || (exists k | k in files :: IsPrefix(p, k))
      || (exists d | d in dirs :: IsPrefix(p, d))
    }

    /** `fs.writeFileSync(p, c)`. */
    function Write(p: Path, c: Content): (r: Store)
      ensures r.Exists(p) && p in r.files && r.files[p] == c
      ensures forall k :: k in files && k != p ==> k in r.files && r.files[k] == files[k]
      ensures forall k :: k in r.files ==> k == p || k in files
    {
      assert IsPrefix(p, p);
      Store(files[p := c], dirs)
    }

    /** `fs.ensureDirSync(p)` / `fs.mkdirSync(p, { recursive: true })`. */
    function MakeDir(p: Path): (r: Store)
      ensures r.Exists(p)
      ensures r.files == files && r.dirs == dirs + {p}
    {
      assert IsPrefix(p, p);
      Store(files, dirs + {p})
    }

    /** `fs.removeSync(p)`: `p` and everything under it. */
    function Remove(p: Path): (r: Store)
      ensures !r.Exists(p)
      ensures forall k :: k in r.files <==> k in files && !IsPrefix(p, k)
    {
      var r := Store(map k | k in files && !IsPrefix(p, k) :: files[k],
                     set d | d in dirs && !IsPrefix(p, d));
      assert forall k :: IsPrefix(p, k) ==> k !in r.files && k !in r.dirs;
      r
    }

    /** `fs.copySync(src, dest)`: everything under `src` is copied to the
        same place under `dest`, over what is there. */
    function Copy(src: Path, dest: Path): (r: Store)
      ensures r.Exists(dest)
      ensures r.files.Keys == files.Keys + Moved(files.Keys, src, dest)
    {
      MovedFrom(files.Keys, src, dest);
      assert IsPrefix(dest, dest);
      Store(map k | k in files.Keys + Moved(files.Keys, src, dest) :: CopiedValue(files, src, dest, k),
            dirs + {dest} + Moved(dirs, src, dest))
    }
  }

  // ---------------------------------------------------------------------
  // What each operation leaves alone
  // ---------------------------------------------------------------------

  /** Outside `root`, `t` holds the same files as `s`. */
  ghost predicate SameOutside(s: Store, t: Store, root: Path) {
    forall k :: !IsPrefix(root, k) ==> (k in s.files <==> k in t.files) && (k in s.files ==> s.files[k] == t.files[k])
  }

  lemma SameOutsideTrans(s: Store, t: Store, u: Store, root: Path)
    requires SameOutside(s, t, root) && SameOutside(t, u, root)
    ensures SameOutside(s, u, root)
  {
  }

  /** A write under `root` changes nothing outside it. */
  lemma WriteInside(s: Store, p: Path, c: Content, root: Path)
    requires IsPrefix(root, p)
    ensures SameOutside(s, s.Write(p, c), root)
  {
  }

  /** A removal under `root` changes nothing outside it. */
  lemma RemoveInside(s: Store, p: Path, root: Path)
    requires IsPrefix(root, p)
    ensures SameOutside(s, s.Remove(p), root)
  {
    forall k | !IsPrefix(root, k)
      ensures !IsPrefix(p, k)
    {
      PrefixTrans(root, p, k);
    }
  }

  /** A copy to `dest` under `root` changes nothing outside `root`. */
  lemma CopyInside(s: Store, src: Path, dest: Path, root: Path)
    requires IsPrefix(root, dest)
    ensures SameOutside(s, s.Copy(src, dest), root)
  {
    var r := s.Copy(src, dest);
    MovedFrom(s.files.Keys, src, dest);
    forall k | !IsPrefix(root, k)
      ensures !IsPrefix(dest, k)
    {
      PrefixTrans(root, dest, k);
    }
  }

  /** A copy leaves every path outside `dest` as it was. */
  lemma CopyKeeps(s: Store, src: Path, dest: Path, k: Path)
    requires !IsPrefix(dest, k)
    ensures k in s.Copy(src, dest).files <==> k in s.files
    ensures k in s.files ==> s.Copy(src, dest).files[k] == s.files[k]
  {
    MovedFrom(s.files.Keys, src, dest);
  }

  /** What a copy puts at `dest + rel`: the file at `src + rel`. */
  lemma CopyPlaces(s: Store, src: Path, dest: Path, rel: Path)
    requires src + rel in s.files
    ensures dest + rel in s.Copy(src, dest).files
    ensures s.Copy(src, dest).files[dest + rel] == s.files[src + rel]
  {
    var q := src + rel;
    assert IsPrefix(src, q) && q[|src|..] == rel;
    assert dest + rel in Moved(s.files.Keys, src, dest);
    assert (dest + rel)[..|dest|] == dest && (dest + rel)[|dest|..] == rel;
  }

  /** Whatever lies under a path that exists makes its ancestors exist. */
  lemma ExistsUp(s: Store, p: Path, q: Path)
    requires IsPrefix(q, p) && s.Exists(p)
    ensures s.Exists(q)
  {
    if k :| k in s.files && IsPrefix(p, k) {
      PrefixTrans(q, p, k);
    } else {
      var d :| d in s.dirs && IsPrefix(p, d);
      PrefixTrans(q, p, d);
    }
  }

  /** A moved path `dest + q[|src|..]` lies under `p`, which is not an
      ancestor of `dest`: then `p` is below `dest` and `q` lies under the
      matching path below `src`. */
  lemma MovedUnder(q: Path, src: Path, dest: Path, p: Path)
    requires IsPrefix(src, q) && IsPrefix(p, dest + q[|src|..]) && !IsPrefix(p, dest)
    ensures IsPrefix(dest, p) && IsPrefix(src + p[|dest|..], q)
  {
    var k := dest + q[|src|..];
    assert k[..|dest|] == dest;
    assert p[|dest|..] == q[|src|..][..|p| - |dest|];
    assert q == src + q[|src|..];
  }

  /** The converse: what lies under the matching path below `src` is moved
      under `p`. */
  lemma MovedOver(q: Path, src: Path, dest: Path, p: Path)
    requires IsPrefix(dest, p) && IsPrefix(src + p[|dest|..], q)
    ensures IsPrefix(src, q) && IsPrefix(p, dest + q[|src|..])
  {
    var rel := p[|dest|..];
    PrefixTrans(src, src + rel, q);
    assert q[|src|..][..|rel|] == rel;
    assert p == dest + rel;
  }

  /** `fs.existsSync` after a copy: what existed still does, a path below
      `dest` exists when its counterpart below `src` did, and nothing else
      appears but the ancestors of `dest`. */
  lemma CopyExists(s: Store, src: Path, dest: Path, p: Path)
    ensures s.Exists(p) ==> s.Copy(src, dest).Exists(p)
    ensures IsPrefix(dest, p) && s.Exists(src + p[|dest|..]) ==> s.Copy(src, dest).Exists(p)
    ensures s.Copy(src, dest).Exists(p) && !IsPrefix(p, dest) ==>
      s.Exists(p) || (IsPrefix(dest, p) && s.Exists(src + p[|dest|..]))
  {
    var r := s.Copy(src, dest);
    assert r.dirs == s.dirs + {dest} + Moved(s.dirs, src, dest);
    if IsPrefix(dest, p) && s.Exists(src + p[|dest|..]) {
      if q :| q in s.files && IsPrefix(src + p[|dest|..], q) {
        MovedOver(q, src, dest, p);
        assert dest + q[|src|..] in r.files;
      } else {
        var q :| q in s.dirs && IsPrefix(src + p[|dest|..], q);
        MovedOver(q, src, dest, p);
        assert dest + q[|src|..] in r.dirs;
      }
    }
    if r.Exists(p) && !IsPrefix(p, dest) && !s.Exists(p) {
      if k :| k in r.files && IsPrefix(p, k) {
        assert k !in s.files;
        var q :| q in s.files && IsPrefix(src, q) && k == dest + q[|src|..];
        MovedUnder(q, src, dest, p);
      } else {
        var k :| k in r.dirs && IsPrefix(p, k);
        assert k !in s.dirs && k != dest;
        var q :| q in s.dirs && IsPrefix(src, q) && k == dest + q[|src|..];
        MovedUnder(q, src, dest, p);
      }
    }
  }

  // ---------------------------------------------------------------------
  // The file system as an object the scaffolders mutate
  // ---------------------------------------------------------------------

  class FileStore {
    var files: map<Path, Content>
    var dirs: set<Path>

    constructor(files0: map<Path, Content>, dirs0: set<Path>)
      ensures files == files0 && dirs == dirs0
    {
      files := files0;
      dirs := dirs0;
    }

    function State(): Store
      reads this
    {
      Store(files, dirs)
    }

    predicate Exists(p: Path)
      reads this
    {
      State().Exists(p)
    }

    method WriteFile(p: Path, c: Content)
      modifies this
      ensures State() == old(State()).Write(p, c)
    {
      files := files[p := c];
    }

    method EnsureDir(p: Path)
      modifies this
      ensures State() == old(State()).MakeDir(p)
    {
      dirs := dirs + {p};
    }

    method Remove(p: Path)
      modifies this
      ensures State() == old(State()).Remove(p)
    {
      var r := State().Remove(p);
      files, dirs := r.files, r.dirs;
    }

    method CopyTree(src: Path, dest: Path)
      modifies this
      ensures State() == old(State()).Copy(src, dest)
    {
      var r := State().Copy(src, dest);
      files, dirs := r.files, r.dirs;
    }
  }
}
